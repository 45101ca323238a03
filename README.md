# pyPPI interface geometry, modelled in Dafny

This project models the computing core of pyPPI, a toolkit that analyses the interface
between the two halves ("interface parts") of a protein complex:

- the PDB reader (`pyPPI/pdbReader.py`): a fixed-column classifier of PDB coordinate
  records (section 9 of the wwPDB PDB File Format v3.3, ATOM/HETATM). It keeps the first
  conformer and skips insertion codes. It stops at `END` or at the start of model 2. It
  collects COMPND molecule names and chain lists, numbers the atoms and gives each its
  pseudo-chain. It also answers the distance-based interface query behind a one-slot cache;
- the packaged electrostatics (`pyPPI/electrostat.py`): the charge table, the Coulomb-like
  pair term, the in-place OXT relabelling, the pair sum with hydrogen-bond exclusion and
  its three contact counters, and the hydrophobic-charged contact sets;
- the earlier electrostatics script (`electrostat.py`), kept as its own module so the two
  versions can be compared;
- the computing parts of the database set-up script (`bin/setupPpiDb.py`): the per-atom
  distance report, the parsing of the list of complexes, the id-to-chains table and the
  split of the compound names.

The k-d tree the code queries is not part of this model. Its two queries are specified as
brute-force searches over the points it would be built from (`SpatialIndex`):

- `FindByDistance(pts, q, r2)` keeps the points at SQUARED distance below `r2`. Each caller's
  radius is passed unchanged: `getInterface` passes `16`, `calcElectrostatic` passes `7 ** 2`.
- `FindNearest(pts, q)` gives the first point at minimal distance.

Coordinates are `real`s. A test `R < c` with `R = sqrt(d²)` is written `c > 0 && d² < c²`,
and `c / R²` is written `c / d²`.

Atoms are values (`PdbReader.Atom`). Python compares atoms by identity, so interface sets,
query pools and hydrogen-bond pairs are modelled as positions in `PDBReader.atoms`. The OXT
pass replaces atoms in that sequence. It keeps every coordinate and pseudo-chain, so a
cached interface stays valid. Python exceptions that escape (`ValueError` from `float`,
`IndexError`, `ZeroDivisionError`, `TypeError`) are `Outcome.Result` errors.

Modules: `Outcome` (Option, Result, the exceptions), `PyStrings` (the `str` operations
used: slicing, `in`, `split`, `join`, `replace`, `strip`, `upper`, `basename`),
`SpatialIndex`, `PdbReader`, `Electrostat`, `LegacyElectrostat`, `SetupPpiDb`.

## Model

| member | source | states |
|---|---|---|
| `SpatialIndex.FindByDistance` | pyPPI/pdbReader.py:146 | a point is reported exactly when its squared distance to the query is below the radius argument, which is used as given |
| `SpatialIndex.FindByDistanceOrdered` | pyPPI/electrostat.py:100-102 | the radius query reports positions in increasing order, so each point at most once; `Electrostat.Within` relies on it for a contact list without repeated atoms |
| `SpatialIndex.FindNearest` | bin/setupPpiDb.py:139 | the result is a valid position at minimal distance, with ties going to the earliest point |
| `SpatialIndex.NearestWithin` | bin/setupPpiDb.py:139-140 | the nearest point is below a bound exactly when some point is |
| `SpatialIndex.Dist2Metric` | pyPPI/electrostat.py:106 | squared distance is non-negative, symmetric, and zero between equal points |
| `PdbReader.ClassifyLine` | pyPPI/pdbReader.py:53-87 | a line yields an atom, water, hetero-atom or skipped record exactly when columns 1-6 are `ATOM  ` or `HETATM` |
| `PdbReader.ClassifyRecords` | pyPPI/pdbReader.py:54-76 | ATOM goes to the atoms, HETATM of HOH to the waters, any other HETATM to the hetero atoms; a kept record has altloc blank or `A`, no insertion code, and no index or pseudo-chain yet |
| `PdbReader.ClassifyKeeps` | pyPPI/pdbReader.py:54-76 | conversely, an ATOM/HETATM line of the first conformer without insertion code whose four numbers parse yields its record, in the list its tag and residue decide, with number, name, residue, chain, residue id, element and coordinates read from their columns and the temperature factor dropped only for water |
| `PdbReader.ClassifyValueError` | pyPPI/pdbReader.py:58-66 | ValueError when the temperature factor does not parse, or when a kept record's coordinates do not |
| `PdbReader.ClassifySkips` | pyPPI/pdbReader.py:58-65 | once its temperature factor parses, a record of another conformer or with an insertion code is skipped |
| `PdbReader.ClassifyStops` | pyPPI/pdbReader.py:81-87 | a line is a stop marker exactly when no earlier branch takes it and it is a 4-character line starting `END` or starts `MODEL        2` |
| `PdbReader.ClassifyCompound` | pyPPI/pdbReader.py:77-80 | MOLECULE and CHAIN lines come from COMPND records, MOLECULE first; the only error outside coordinate records is `split('CHAIN: ')[1]` failing when `CHAIN:` has no following space |
| `PdbReader.ClassifyMolecule` | pyPPI/pdbReader.py:77-78 | a COMPND line with `MOLECULE:` yields the text after it, stripped of `;`, blanks and newlines, with each comma made a blank (so none is left) |
| `PdbReader.ClassifyChains` | pyPPI/pdbReader.py:79-80 | a COMPND line with `CHAIN: ` and no `MOLECULE:` yields the text after `CHAIN: `, stripped of `;`, blanks and newlines, with each `', '` removed |
| `PdbReader.ScanAppend` | pyPPI/pdbReader.py:53-87 | each of the five lists keeps line order: the records of an earlier block of lines precede those of a later one |
| `PdbReader.StopIgnoresRest` | pyPPI/pdbReader.py:83-87 | whatever follows a stop marker can be replaced by anything without changing atoms, waters, hetero atoms or metadata |
| `PdbReader.ScanUnindexedLines` | pyPPI/pdbReader.py:66-70 | atoms come out of the file with no index and no pseudo-chain |
| `PdbReader.ReadLines` | pyPPI/pdbReader.py:53-87 | the reading loop computes exactly the scan of the lines, stopping at the first exception or stop marker |
| `PdbReader.LastPart` | pyPPI/pdbReader.py:114-116 | the last interface part whose string contains the chain, or None exactly when no part contains it |
| `PdbReader.BuildIndex` | pyPPI/pdbReader.py:105-116 | atom `i` gets index `i` and the letter of the last part containing its chain (its old pseudo-chain if none); nothing else changes |
| `PdbReader.PseudoChainLetters` | pyPPI/pdbReader.py:130-132 | one letter per part, `'A' + j` for part `j` |
| `PdbReader.PseudoChainsListed` | pyPPI/pdbReader.py:111-132 | the letters are distinct, and every assigned pseudo-chain is one of them |
| `PdbReader.PDBReader.constructor` | pyPPI/pdbReader.py:93-103 | compounds joined with `' - '`, parts, waters, hetero atoms and chain set stored, cache empty, atoms indexed as `BuildIndex` does |
| `PdbReader.PDBReader.GetPseudoChains` | pyPPI/pdbReader.py:130-132 | `'A', 'B', ...`, one per interface part, in order |
| `PdbReader.CollectPartners` | pyPPI/pdbReader.py:146-150 | the inner loop adds both atoms of each neighbour pair whose neighbour has another, non-None pseudo-chain |
| `PdbReader.ContributionOf` | pyPPI/pdbReader.py:145-150 | only side-`A` atoms are queried, each with the radius query around it |
| `PdbReader.ComputeInterface` | pyPPI/pdbReader.py:141-150 | the two loops compute exactly the interface set |
| `PdbReader.InterfaceMembers` | pyPPI/pdbReader.py:143-150 | an atom is in the interface exactly when it is one of a pair: a side-`A` atom and a neighbour within the radius with a different non-None pseudo-chain |
| `PdbReader.InterfaceSides` | pyPPI/pdbReader.py:145-150 | every interface atom has a pseudo-chain |
| `PdbReader.PDBReader.GetInterface` | pyPPI/pdbReader.py:134-154 | the result is the interface for the distance; the same distance returns the cached set unchanged, another one replaces distance and set |
| `PdbReader.PDBReader.GetNextAtoms` | pyPPI/pdbReader.py:160-170 | `atoms[index + i]` inside the list, the atom itself at or past the end, Python's negative indexing before the start, IndexError further back, and TypeError for an atom never indexed (its index is None) |
| `PdbReader.PDBReader.NextAtomsCompose` | pyPPI/pdbReader.py:160-170 | two steps within the list are one step of the summed offset |
| `PdbReader.ReadFile` | pyPPI/pdbReader.py:37-91 | fails exactly when the scan fails; otherwise name is the first 4 characters of the basename, parts are the explicit ones or the COMPND chain lists, and atoms are the scanned ones indexed |
| `PdbReader.ReadPseudoChains` | pyPPI/pdbReader.py:111-132 | an atom read from a file gets a pseudo-chain exactly when some interface part names its chain, and that pseudo-chain is one of the letters `getPseudoChains` lists |
| `Electrostat.EInteraction` | pyPPI/electrostat.py:40-42 | the result times `d²` is `322.0637*Qi*Qj`; ZeroDivisionError exactly when `d² = 0` |
| `Electrostat.EInteractionSign` | pyPPI/electrostat.py:40-42 | the term is negative exactly for opposite signs and zero exactly when a charge is zero |
| `Electrostat.AssignCharge` | pyPPI/electrostat.py:45-65 | the charge is one of -0.5, 0, 0.5, 1.0; negative exactly for acidic oxygens and OXT; +1 exactly for LYS NZ; +0.5 exactly for ARG (and HIS when `0.1 < pH <= 6`) side-chain nitrogens |
| `Electrostat.HistidineNeutralAtDefault` | pyPPI/electrostat.py:59-63 | at pH 7 a histidine atom is charged only when it is OXT |
| `Electrostat.LysineAmineCharged` | pyPPI/electrostat.py:57-58 | LYS NZ carries +1 at every pH |
| `Electrostat.HydrophobicUncharged` | pyPPI/electrostat.py:120-127 | an atom of the eight hydrophobic residues is charged only as OXT, with -0.5 |
| `Electrostat.Relabeled` | pyPPI/electrostat.py:80-83 | only `O` atoms of residues with an OXT atom change, only their symbol, and to `OXT` |
| `Electrostat.RelabelIdempotent` | pyPPI/electrostat.py:80-83 | running the pass twice equals running it once |
| `Electrostat.RelabelKeepsGeometry` | pyPPI/electrostat.py:80-83 | the pass keeps coordinates and pseudo-chains |
| `Electrostat.RelabelOxt` | pyPPI/electrostat.py:80-83 | the in-place loop leaves the relabelled atoms and keeps the structure valid |
| `Electrostat.ChargedIn` | pyPPI/electrostat.py:85-89 | keeps exactly the candidates whose chain is in the part and whose charge is non-zero |
| `Electrostat.ChargedInDistinct` | pyPPI/electrostat.py:85-89 | the filtered list repeats no atom when the candidates repeat none |
| `Electrostat.Within` | pyPPI/electrostat.py:100 | keeps exactly the pool atoms at squared distance below the radius |
| `Electrostat.WithinQuery` | pyPPI/electrostat.py:89-100 | the filter is the radius query over the coordinates of the tree's atoms, each hit read back as its atom |
| `Electrostat.WithinDistinct` | pyPPI/electrostat.py:100-101 | the query reports no atom twice when the tree holds each atom once |
| `Electrostat.NearContactsDistinct` | pyPPI/electrostat.py:101-115 | the inner loop over duplicate-free hits produces no pair twice |
| `Electrostat.AllContactsDistinct` | pyPPI/electrostat.py:94-115 | over duplicate-free query atoms and pool, no pair is summed twice |
| `Electrostat.ContactsDistinct` | pyPPI/electrostat.py:85-115 | with the interface a set, `calcElectrostatic` sums every pair at most once |
| `Electrostat.ContactsMembers` | pyPPI/electrostat.py:85-107 | a pair is summed exactly when it is a charged side-0 interface atom and a charged side-1 atom from all atoms, at squared distance below 49, not a listed hydrogen bond in either order |
| `Electrostat.TallyMeaning` | pyPPI/electrostat.py:92-117 | the sum fails exactly when a pair is at distance zero; otherwise energy is the sum of the pair terms and pp, mm, pm count the close pairs of each polarity |
| `Electrostat.CountsPartition` | pyPPI/electrostat.py:109-115 | `pp + mm + pm` is the number of summed pairs below the count cutoff |
| `Electrostat.AddPair` | pyPPI/electrostat.py:103-115 | one pair: its term added, and its polarity counter incremented when `R < cutoff` |
| `Electrostat.TallyNear` | pyPPI/electrostat.py:101-115 | the inner loop over the query hits, skipping hydrogen bonds and uncharged hits |
| `Electrostat.TallyQuery` | pyPPI/electrostat.py:96-100 | an uncharged query atom adds nothing; otherwise its radius-49 query is summed |
| `Electrostat.TallyAll` | pyPPI/electrostat.py:94-115 | the outer loop computes the specified totals, the first exception ending it |
| `Electrostat.Score` | pyPPI/electrostat.py:85-117 | IndexError without two interface parts, otherwise the specified totals |
| `Electrostat.CalcElectrostatic` | pyPPI/electrostat.py:68-117 | relabels in place, then scores at pH 7; the hydrogen-bond list is consulted only when exclusion is asked for |
| `Electrostat.HydrophobicIn` | pyPPI/electrostat.py:150-151 | keeps exactly the interface atoms of the other parts whose residue is hydrophobic |
| `Electrostat.HitsHydroMembers` | pyPPI/electrostat.py:152-165 | a hydrophobic atom pairs with exactly the charged atoms of the given sign within 4 |
| `Electrostat.PartHydroMembers` | pyPPI/electrostat.py:145-165 | one part adds exactly its charged-hydrophobic pairs; a part with no charged interface atom adds nothing |
| `Electrostat.HydroSetMembers` | pyPPI/electrostat.py:142-171 | each set holds exactly the distinct tuples of a charged interface atom of that sign and a hydrophobic interface atom of another part within 4 |
| `Electrostat.AddNearHydro` | pyPPI/electrostat.py:155-165 | the innermost loop adds the close pairs to the set of their sign |
| `Electrostat.AddHitsHydro` | pyPPI/electrostat.py:152-154 | one hydrophobic atom: its radius-16 query, then the innermost loop |
| `Electrostat.AddPartnersHydro` | pyPPI/electrostat.py:152-165 | the loop over the hydrophobic partners of a part |
| `Electrostat.HydroSets` | pyPPI/electrostat.py:145-165 | the loop over the parts computes both specified sets |
| `Electrostat.CalcElectroHydrophobic` | pyPPI/electrostat.py:130-171 | relabels in place, then returns the sizes of the two sets at pH 7 |
| `LegacyElectrostat.AssignCharge` | electrostat.py:43-63 | as the packaged rule, except that +1 goes to LYS atoms whose atom type is `NZ` |
| `LegacyElectrostat.AgreesOutsideLysine` | electrostat.py:43-63 | outside lysine both charge rules agree at every pH |
| `LegacyElectrostat.LysineNeverCharged` | electrostat.py:55-56 | an ATOM record read from a file never gets +1 |
| `LegacyElectrostat.LysineAmineDiffers` | electrostat.py:55-56 | a LYS NZ atom of type N is +1 under the packaged rule and 0 under this one |
| `LegacyElectrostat.Charges` | electrostat.py:43-63 | each atom's charge under the script's rule, equal to the packaged charge at every non-lysine atom |
| `LegacyElectrostat.CalcElectrostatic` | electrostat.py:66-112 | relabels in place, always excludes the listed hydrogen bonds, and counts contacts below a fixed 4 |
| `SetupPpiDb.Side` | bin/setupPpiDb.py:129-130 | keeps exactly the atoms whose chain is in the part |
| `SetupPpiDb.InterfaceDist` | bin/setupPpiDb.py:124-143 | IndexError exactly with atoms and fewer than two parts; no rows when a side is empty |
| `SetupPpiDb.SideRowsMembers` | bin/setupPpiDb.py:137-143 | an atom has a row exactly when some atom of the other side is within 4 |
| `SetupPpiDb.NearAny` | bin/setupPpiDb.py:139-140 | the nearest-atom test is the same as "some atom is within 4" |
| `SetupPpiDb.SideRowsAppend` | bin/setupPpiDb.py:137-138 | rows follow atom order |
| `SetupPpiDb.InterfaceDistRows` | bin/setupPpiDb.py:136-143 | every row carries the name and the parts joined with `:`, and reports an atom within 4 of an atom of the other part |
| `SetupPpiDb.InterfaceDistComplete` | bin/setupPpiDb.py:137-143 | an atom of either side within 4 of the other side gets its row |
| `SetupPpiDb.EmitSide` | bin/setupPpiDb.py:138-143 | the inner loop emits exactly the rows of one side |
| `SetupPpiDb.CalcInterfaceDist` | bin/setupPpiDb.py:124-143 | the rows are the side-0 rows followed by the side-1 rows |
| `SetupPpiDb.ParsePdbList` | bin/setupPpiDb.py:382-383 | one entry per non-comment line, each with at least one field |
| `SetupPpiDb.ParsePdbListMembers` | bin/setupPpiDb.py:382-383 | the entries are exactly the split fields of the lines not starting with `#` |
| `SetupPpiDb.EntryFields` | bin/setupPpiDb.py:382 | no field holds `_`, and the fields joined with `_` give the stripped, upper-cased line |
| `SetupPpiDb.ParsePdbListAppend` | bin/setupPpiDb.py:382-383 | entries keep the order of the lines |
| `SetupPpiDb.PdbNames` | bin/setupPpiDb.py:384 | the PDB id of each entry is its first field |
| `SetupPpiDb.PdbsNamesToChains` | bin/setupPpiDb.py:162 | the keys are exactly the ids listed |
| `SetupPpiDb.LastEntryWins` | bin/setupPpiDb.py:162 | an id maps to its last entry's second field split on `:`, or None without one |
| `SetupPpiDb.CompoundNamesAsWritten` | bin/setupPpiDb.py:217-219 | NameA as the code computes it (see Findings) |
| `SetupPpiDb.SingleCompoundAsWritten` | bin/setupPpiDb.py:217-218 | with a single compound, NameA is the one-element list |
| `SetupPpiDb.LysozymeAsWritten` | bin/setupPpiDb.py:217-218 | the one-molecule complex `LYSOZYME` gets `["LYSOZYME"]` as NameA |
| `SetupPpiDb.CompoundNames` | bin/setupPpiDb.py:217-219 | without `' - '` NameA is the whole string and NameB `''`; with it, NameA runs to the first occurrence and NameB from there to the next occurrence or the end, so the string begins `NameA - NameB` |
| `SetupPpiDb.SplitHead` | bin/setupPpiDb.py:217 | the first piece of `split(' - ')` ends at the first occurrence of the separator, and the second starts right after it |
| `SetupPpiDb.SplitSecond` | bin/setupPpiDb.py:217-219 | the second piece ends at the next occurrence of the separator or at the end of the string |
| `PyStrings.JoinSplit` | bin/setupPpiDb.py:217 | joining the pieces of a split with its separator gives the string back |
| `PyStrings.SplitPiecesFree` | bin/setupPpiDb.py:217 | no piece of a split holds the separator |

## Left out

- The k-d tree (`pyPPI/kdtree`) is not part of this model. Its queries are the brute-force functions of `SpatialIndex`; construction, balance and cost are not modelled.
- `SetupPpiDb.InterfaceDist`: `findNearest` is assumed to return the true distance, so `dist < 4` is modelled as squared distance below 16. A row keeps the squared distance instead of the printed number.
- `float(...)` is a parameter `num: string -> Option<real>` (None where Python raises ValueError). No IEEE rounding is modelled, and reals are exact.
- `angle` and `radianToAngle` (pyPPI/pdbReader.py:18-30) use `acos` and π floating point. They are not modelled.
- The file handling of `readFile` (only the basename of the path is used), `getFile`, logging and the `print` in `getInterface` are left out. The VERBOSE output file of `calcElectroHydrophobic` is left out too.
- The `pH` read from `REMARK 200  PH` lines is never used by the code. The model ignores the line.
- `getHbonds` in both electrostatics files is a database query. The hydrogen-bond list is a parameter of positions, with None for an end the lookup did not find.
- `Electrostat.CalcElectrostatic`: the `interface` set is taken as a list of positions. Python iterates a set in no fixed order, and the real-valued totals do not depend on that order.
- `Electrostat.HydroSets`: `not any(charged_atoms)` is modelled as "the list is empty", because atom objects are truthy.
- The atom class (`pyPPI/atom`) is not part of this model. `PdbReader.Atom` holds the fields used here.
- cavities.py, DBConfig.py, the ASA, VDW, hbonds and Periphery modules, `download_PDB`, `molprobity`, the MySQL `load data` and `subprocess` calls, `getInterfaceAtoms`, `fillInterfacePeriphrial` and `calcEnergyTerms` are not modelled. They are randomness, database, network or code not shown.
- The argparse and directory set-up of the script are not modelled, nor the file reading of the PDB list. The list is taken as a sequence of lines.
- `PyStrings.Strip` and `PyStrings.Upper` cover ASCII only. Python's Unicode whitespace and case mapping are not modelled.

## Findings

| source | as written | input that shows it | evidently intended | confidence | as-written member | corrected member |
|---|---|---|---|---|---|---|
| electrostat.py:55 | the lysine rule tests `atom.atomType == 'NZ'`; the atom type is the one-character element column 78, so it is never `NZ` | any ATOM record of LYS atom NZ (element N) | test the atom name, `atom.symbol == 'NZ'`, as pyPPI/electrostat.py:57 does, giving +1 | medium; not executed | `LegacyElectrostat.LysineNeverCharged` | `Electrostat.LysineAmineCharged` |
| bin/setupPpiDb.py:218 | `compunds[0] if len(compunds) > 1 else compunds` puts the whole list in NameA when there is a single compound | a complex whose compound string is `LYSOZYME` gets `["LYSOZYME"]` | the first piece `compunds[0]` in both cases | medium; not executed | `SetupPpiDb.LysozymeAsWritten` | `SetupPpiDb.CompoundNames` |
