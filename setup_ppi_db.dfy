/** The parts of the database set-up script (bin/setupPpiDb.py) that compute rather than
    store: the distance definition of the interface, the reading of the list of complexes,
    the id-to-chains table, and the split of the compound names. */
module SetupPpiDb {
  import opened Outcome
  import opened PyStrings
  import opened SpatialIndex
  import opened PdbReader

  /** `INTERFACE_DISTANCE`, and its square for comparisons with squared distances. */
  const InterfaceDistance: real := 4.0
  const InterfaceDistance2: real := 16.0

  /** One line of PerAtomDistance.csv: `PDB,Chains,Chain,ResId,Symbol,Atom,MinDistance`.
      The distance is kept squared (the line prints its square root). */
  datatype DistRow = DistRow(pdb: string, chains: string, chain: string, resId: string,
                             symbol: string, atomType: string, minDist2: real)

  /** `[a for a in pdb.atoms if a.chain in part]`. */
  function Side(atoms: seq<Atom>, part: string): (r: seq<Atom>)
    ensures |r| <= |atoms|
    ensures forall a :: a in r <==> a in atoms && Contains(part, a.chain)
  {
    if atoms == [] then []
    else
      var a := atoms[|atoms| - 1];
      var r' := Side(atoms[..|atoms| - 1], part);
      assert forall b :: b in atoms <==> b in atoms[..|atoms| - 1] || b == a by {
        assert atoms == atoms[..|atoms| - 1] + [a];
      }
      if Contains(part, a.chain) then r' + [a] else r'
  }

  /** The squared distance from `a` to its nearest atom of `other`. */
  function NearestDist2(a: Atom, other: seq<Atom>): real
    requires |other| > 0
  {
    Dist2(Coords(other)[FindNearest(Coords(other), a.coord)], a.coord)
  }

  /** The line for `a` when its nearest atom of `other` is closer than 4. */
  function RowOf(pdb: string, chains: string, a: Atom, other: seq<Atom>): DistRow
    requires |other| > 0
  {
    DistRow(pdb, chains, a.chain, a.resId, a.symbol, a.atomType, NearestDist2(a, other))
  }

  /** The lines of the atoms of `side`, in order, each tested against the tree of `other`. */
  function SideRows(pdb: string, chains: string, side: seq<Atom>, other: seq<Atom>): seq<DistRow>
    requires |other| > 0
  {
    if side == [] then []
    else
      var a := side[|side| - 1];
      SideRows(pdb, chains, side[..|side| - 1], other)
      + (if NearestDist2(a, other) < InterfaceDistance2 then [RowOf(pdb, chains, a, other)] else [])
  }

  /** `calcInterfaceDist(pdb, result)` with the lines returned: IndexError when an interface
      part is missing (and there are atoms to test), no lines when one side has no atom,
      otherwise the lines of the first side, then those of the second. */
  function InterfaceDist(name: string, atoms: seq<Atom>, parts: seq<string>): (r: Result<seq<DistRow>>)
    ensures r.Err? <==> |atoms| > 0 && |parts| < 2
    ensures r.Err? ==> r.error == IndexError
    ensures r.Ok? && (|atoms| == 0 || |Side(atoms, parts[0])| == 0 || |Side(atoms, parts[1])| == 0) ==> r.value == []
  {
    if |atoms| > 0 && |parts| < 2 then Err(IndexError)
    else if |atoms| == 0 then Ok([])
    else
      var sideA, sideB := Side(atoms, parts[0]), Side(atoms, parts[1]);
      if |sideA| == 0 || |sideB| == 0 then Ok([])
      else
        var chains := Join(parts, ":");
        Ok(SideRows(name, chains, sideA, sideB) + SideRows(name, chains, sideB, sideA))
  }

  /** An atom has a line exactly when some atom of the other side is closer than 4; the
      line names it and its chains field is the one given. */
  lemma {:induction false} SideRowsMembers(pdb: string, chains: string, side: seq<Atom>, other: seq<Atom>, row: DistRow)
    requires |other| > 0
    ensures row in SideRows(pdb, chains, side, other) <==>
            exists a :: a in side && row == RowOf(pdb, chains, a, other)
                        && exists b :: b in other && Dist2(b.coord, a.coord) < InterfaceDistance2
  {
    if side != [] {
      var side' := side[..|side| - 1];
      var a := side[|side| - 1];
      assert side == side' + [a];
      SideRowsMembers(pdb, chains, side', other, row);
      NearAny(a, other);
    }
  }

  /** The nearest atom is closer than 4 exactly when some atom is. */
  lemma NearAny(a: Atom, other: seq<Atom>)
    requires |other| > 0
    ensures NearestDist2(a, other) < InterfaceDistance2 <==>
            exists b :: b in other && Dist2(b.coord, a.coord) < InterfaceDistance2
  {
    var pts := Coords(other);
    NearestWithin(pts, a.coord, InterfaceDistance2);
    if exists b :: b in other && Dist2(b.coord, a.coord) < InterfaceDistance2 {
      var b :| b in other && Dist2(b.coord, a.coord) < InterfaceDistance2;
      var i :| 0 <= i < |other| && other[i] == b;
      assert pts[i] == b.coord;
    }
  }

  /** Lines follow atom order: the lines of a concatenation of atoms are the lines of the
      first part followed by those of the second. */
  lemma {:induction false} SideRowsAppend(pdb: string, chains: string, xs: seq<Atom>, ys: seq<Atom>, other: seq<Atom>)
    requires |other| > 0
    ensures SideRows(pdb, chains, xs + ys, other) == SideRows(pdb, chains, xs, other) + SideRows(pdb, chains, ys, other)
  {
    if ys == [] {
      assert xs + ys == xs;
    } else {
      var ys' := ys[..|ys| - 1];
      assert (xs + ys)[..|xs + ys| - 1] == xs + ys';
      SideRowsAppend(pdb, chains, xs, ys', other);
    }
  }

  /** Every line carries the pdb name and the interface parts joined with ':', and reports
      an atom of one side whose nearest atom of the other side is closer than 4. */
  lemma InterfaceDistRows(name: string, atoms: seq<Atom>, parts: seq<string>, row: DistRow)
    requires InterfaceDist(name, atoms, parts).Ok?
    requires row in InterfaceDist(name, atoms, parts).value
    ensures |parts| >= 2 && row.chains == Join(parts, ":") && row.pdb == name
    ensures row.minDist2 < InterfaceDistance2
    ensures exists a, b :: a in atoms && b in atoms && Dist2(b.coord, a.coord) < InterfaceDistance2
                           && ((Contains(parts[0], a.chain) && Contains(parts[1], b.chain))
                               || (Contains(parts[1], a.chain) && Contains(parts[0], b.chain)))
                           && row.chain == a.chain && row.resId == a.resId
                           && row.symbol == a.symbol && row.atomType == a.atomType
  {
    var sideA, sideB := Side(atoms, parts[0]), Side(atoms, parts[1]);
    var chains := Join(parts, ":");
    SideRowsMembers(name, chains, sideA, sideB, row);
    SideRowsMembers(name, chains, sideB, sideA, row);
    if row in SideRows(name, chains, sideA, sideB) {
      var a :| a in sideA && row == RowOf(name, chains, a, sideB)
               && exists b :: b in sideB && Dist2(b.coord, a.coord) < InterfaceDistance2;
      NearAny(a, sideB);
    } else {
      assert row in SideRows(name, chains, sideB, sideA);
      var a :| a in sideB && row == RowOf(name, chains, a, sideA)
               && exists b :: b in sideA && Dist2(b.coord, a.coord) < InterfaceDistance2;
      NearAny(a, sideA);
    }
  }

  /** Conversely, an atom of the first part within 4 of an atom of the second part gets a
      line, and so does that atom of the second part. */
  lemma InterfaceDistComplete(name: string, atoms: seq<Atom>, parts: seq<string>, a: Atom, b: Atom)
    requires |parts| >= 2 && a in atoms && b in atoms
    requires Contains(parts[0], a.chain) && Contains(parts[1], b.chain)
    requires Dist2(b.coord, a.coord) < InterfaceDistance2
    ensures InterfaceDist(name, atoms, parts).Ok?
    ensures |Side(atoms, parts[0])| > 0 && |Side(atoms, parts[1])| > 0
    ensures RowOf(name, Join(parts, ":"), a, Side(atoms, parts[1])) in InterfaceDist(name, atoms, parts).value
    ensures RowOf(name, Join(parts, ":"), b, Side(atoms, parts[0])) in InterfaceDist(name, atoms, parts).value
  {
    var sideA, sideB := Side(atoms, parts[0]), Side(atoms, parts[1]);
    var chains := Join(parts, ":");
    assert a in sideA && b in sideB;
    Dist2Metric(a.coord, b.coord);
    SideRowsMembers(name, chains, sideA, sideB, RowOf(name, chains, a, sideB));
    SideRowsMembers(name, chains, sideB, sideA, RowOf(name, chains, b, sideA));
  }

  /** The lines of `side` tested against `other`, as the inner loop emits them. */
  method EmitSide(pdb: string, chains: string, side: seq<Atom>, other: seq<Atom>) returns (rows: seq<DistRow>)
    requires |other| > 0
    ensures rows == SideRows(pdb, chains, side, other)
  {
    var tree := Coords(other);
    rows := [];
    var k := 0;
    while k < |side|
      invariant 0 <= k <= |side|
      invariant rows == SideRows(pdb, chains, side[..k], other)
    {
      assert side[..k + 1][..k] == side[..k];
      var atom := side[k];
      var near := FindNearest(tree, atom.coord);
      var dist2 := Dist2(tree[near], atom.coord);
      if dist2 < InterfaceDistance2 {
        rows := rows + [DistRow(pdb, chains, atom.chain, atom.resId, atom.symbol, atom.atomType, dist2)];
      }
      k := k + 1;
    }
    assert side[..k] == side;
  }

  /** `calcInterfaceDist(pdb, result)`, returning the lines it would print. */
  method CalcInterfaceDist(pdb: PDBReader) returns (r: Result<seq<DistRow>>)
    ensures r == InterfaceDist(pdb.name, pdb.atoms, pdb.interfaceParts)
  {
    if |pdb.atoms| > 0 && |pdb.interfaceParts| < 2 {
      return Err(IndexError);
    }
    if |pdb.atoms| == 0 {
      return Ok([]);
    }
    var partA := Side(pdb.atoms, pdb.interfaceParts[0]);
    var partB := Side(pdb.atoms, pdb.interfaceParts[1]);
    if |partA| == 0 || |partB| == 0 {
      return Ok([]);  // the warning about a chain without atoms
    }
    var complexChains := Join(pdb.interfaceParts, ":");
    var rowsA := EmitSide(pdb.name, complexChains, partA, partB);
    var rowsB := EmitSide(pdb.name, complexChains, partB, partA);
    r := Ok(rowsA + rowsB);
  }

  // ----- the list of complexes -----

  /** A line of the list that `pdb[0:1] != '#'` keeps. */
  predicate NotComment(line: string) {
    Slice(line, 0, 1) != "#"
  }

  /** The fields of one entry: `pdb.strip().upper().split("_")`. */
  function Fields(line: string): seq<string> {
    Split(Upper(Strip(line)), "_")
  }

  /** `pdbsToAnalyzeWithChains`: one entry per kept line, in order. */
  function ParsePdbList(lines: seq<string>): (r: seq<seq<string>>)
    ensures |r| <= |lines|
    ensures forall k :: 0 <= k < |r| ==> |r[k]| >= 1
  {
    if lines == [] then []
    else
      var l := lines[|lines| - 1];
      var r' := ParsePdbList(lines[..|lines| - 1]);
      if NotComment(l) then
        var f := Fields(l);
        assert |f| >= 1;
        r' + [f]
      else r'
  }

  /** The entries are exactly the fields of the lines that are not comments. */
  lemma {:induction false} ParsePdbListMembers(lines: seq<string>)
    ensures forall e :: e in ParsePdbList(lines) <==> exists l :: l in lines && NotComment(l) && e == Fields(l)
  {
    if lines != [] {
      var init := lines[..|lines| - 1];
      ParsePdbListMembers(init);
      assert lines == init + [lines[|lines| - 1]];
    }
  }

  /** No field of an entry contains the separator, and an entry joined back with '_' is
      the stripped, upper-cased line. */
  lemma EntryFields(line: string)
    ensures forall k :: 0 <= k < |Fields(line)| ==> !Contains(Fields(line)[k], "_")
    ensures Join(Fields(line), "_") == Upper(Strip(line))
  {
    SplitPiecesFree(Upper(Strip(line)), "_");
    JoinSplit(Upper(Strip(line)), "_");
  }

  /** Entries keep the order of the lines. */
  lemma {:induction false} ParsePdbListAppend(xs: seq<string>, ys: seq<string>)
    ensures ParsePdbList(xs + ys) == ParsePdbList(xs) + ParsePdbList(ys)
  {
    if ys == [] {
      assert xs + ys == xs;
    } else {
      var ys' := ys[..|ys| - 1];
      assert (xs + ys)[..|xs + ys| - 1] == xs + ys';
      ParsePdbListAppend(xs, ys');
    }
  }

  /** `pdbsToAnalyze = [pdb[0] for pdb in pdbsToAnalyzeWithChains]`. */
  function PdbNames(entries: seq<seq<string>>): (r: seq<string>)
    requires forall k :: 0 <= k < |entries| ==> |entries[k]| >= 1
    ensures |r| == |entries| && forall k :: 0 <= k < |entries| ==> r[k] == entries[k][0]
  {
    seq(|entries|, k requires 0 <= k < |entries| => entries[k][0])
  }

  /** The chains of an entry: its second field split on ':', or None without one. */
  function ChainsOf(e: seq<string>): Option<seq<string>> {
    if |e| > 1 then Some(Split(e[1], ":")) else None
  }

  /** `pdbsNamesToChains = dict((p[0], ...) for p in entries)`: one key per id listed. */
  function PdbsNamesToChains(entries: seq<seq<string>>): (r: map<string, Option<seq<string>>>)
    requires forall k :: 0 <= k < |entries| ==> |entries[k]| >= 1
    ensures forall id :: id in r <==> exists k :: 0 <= k < |entries| && entries[k][0] == id
  {
    if entries == [] then map[]
    else
      var e := entries[|entries| - 1];
      var prefix := entries[..|entries| - 1];
      assert forall k :: 0 <= k < |prefix| ==> prefix[k] == entries[k];
      PdbsNamesToChains(prefix)[e[0] := ChainsOf(e)]
  }

  /** The value of an id comes from its last entry: a later entry replaces an earlier one. */
  lemma {:induction false} LastEntryWins(entries: seq<seq<string>>, k: nat)
    requires forall m :: 0 <= m < |entries| ==> |entries[m]| >= 1
    requires k < |entries|
    requires forall m :: k < m < |entries| ==> entries[m][0] != entries[k][0]
    ensures PdbsNamesToChains(entries)[entries[k][0]] == ChainsOf(entries[k])
  {
    var prefix := entries[..|entries| - 1];
    if k < |entries| - 1 {
      assert prefix[k] == entries[k];
      LastEntryWins(prefix, k);
    }
  }

  // ----- the compound names of a complex -----

  /** A column value of the insert: a string, or (as the code is written) the whole list. */
  datatype NameValue = Text(text: string) | Pieces(pieces: seq<string>)

  /** `(NameA, NameB)` as written: `compunds[0] if len(compunds) > 1 else compunds`. */
  function CompoundNamesAsWritten(compounds: string): (NameValue, string) {
    var pieces := Split(compounds, " - ");
    (if |pieces| > 1 then Text(pieces[0]) else Pieces(pieces), if |pieces| > 1 then pieces[1] else "")
  }

  /** A name without a second compound is inserted as a one-element list, not as the name. */
  lemma SingleCompoundAsWritten(compounds: string)
    requires !Contains(compounds, " - ")
    ensures CompoundNamesAsWritten(compounds) == (Pieces([compounds]), "")
  {
    JoinSplit(compounds, " - ");
  }

  /** The complex of one molecule, "LYSOZYME", gets the list ["LYSOZYME"] as NameA. */
  lemma LysozymeAsWritten()
    ensures CompoundNamesAsWritten("LYSOZYME").0 == Pieces(["LYSOZYME"])
  {
    forall i: nat | i <= 8
      ensures !OccursAt("LYSOZYME", " - ", i)
    {
      if i + 3 <= 8 {
        assert "LYSOZYME"[i..i + 3][1] == "LYSOZYME"[i + 1];
      }
    }
    SingleCompoundAsWritten("LYSOZYME");
  }

  /** `(NameA, NameB)` as intended: the first piece, and the second piece or ''. */
  /** With a separator present, NameA runs up to its first occurrence and NameB from there
      up to the next occurrence or the end of the string. */
  function CompoundNames(compounds: string): (r: (string, string))
    ensures Contains(compounds, " - ") ==>
              |r.0| + 3 + |r.1| <= |compounds| && compounds[..|r.0| + 3 + |r.1|] == r.0 + " - " + r.1
    ensures Contains(compounds, " - ") ==> forall m: nat :: m < |r.0| ==> !OccursAt(compounds, " - ", m)
    ensures Contains(compounds, " - ") ==>
              forall m: nat :: |r.0| + 3 <= m < |r.0| + 3 + |r.1| ==> !OccursAt(compounds, " - ", m)
    ensures Contains(compounds, " - ") ==>
              |r.0| + 3 + |r.1| == |compounds| || OccursAt(compounds, " - ", |r.0| + 3 + |r.1|)
    ensures !Contains(compounds, " - ") ==> r == (compounds, "")
    ensures !Contains(r.0, " - ") && !Contains(r.1, " - ")
  {
    var pieces := Split(compounds, " - ");
    JoinSplit(compounds, " - ");
    SplitPiecesFree(compounds, " - ");
    JoinPrefix(pieces, " - ");
    if |pieces| > 1 then
      SplitHead(compounds, " - ");
      SplitSecond(compounds, " - ");
      (pieces[0], pieces[1])
    else
      (pieces[0], "")
  }

  /** With the separator present, the first piece is what precedes its first occurrence
      and the second piece is the first piece of the split of what follows it. */
  lemma SplitHead(s: string, sep: string)
    requires |sep| > 0 && Contains(s, sep)
    ensures FindFrom(s, sep, 0).Some? && |Split(s, sep)| >= 2
    ensures var i := FindFrom(s, sep, 0).value;
            && i + |sep| <= |s|
            && |Split(s, sep)[0]| == i
            && Split(s, sep)[1] == Split(s[i + |sep|..], sep)[0]
  {
    var w: nat :| w <= |s| && OccursAt(s, sep, w);
    SplitFirst(s, sep);
  }

  /** `s[k..e]` runs up to the next occurrence of `sep` at or after `k`, or to the end. */
  predicate PieceAt(s: string, sep: string, k: nat, e: nat) {
    && k <= e <= |s|
    && (forall m: nat :: k <= m < e ==> !OccursAt(s, sep, m))
    && (e == |s| || OccursAt(s, sep, e))
  }

  /** The second piece of a split runs from just past the first occurrence of the
      separator up to the next occurrence or the end. */
  lemma SplitSecond(s: string, sep: string)
    requires |sep| > 0 && Contains(s, sep)
    ensures |Split(s, sep)| >= 2
    ensures var k := |Split(s, sep)[0]| + |sep|;
            PieceAt(s, sep, k, k + |Split(s, sep)[1]|)
  {
    SplitHead(s, sep);
    var k := FindFrom(s, sep, 0).value + |sep|;
    SplitRestFirst(s, sep, k);
    assert |Split(s, sep)[0]| + |sep| == k;
    assert |Split(s, sep)[1]| == |Split(s[k..], sep)[0]|;
  }

  /** The first piece of the split of a suffix `s[k..]` ends, shifted by `k`, at the next
      occurrence in `s` or at the end, with no occurrence before it. */
  lemma SplitRestFirst(s: string, sep: string, k: nat)
    requires |sep| > 0 && k <= |s|
    ensures PieceAt(s, sep, k, k + |Split(s[k..], sep)[0]|)
  {
    var rest := s[k..];
    SplitFirstPiece(rest, sep);
    NextOccurrence(s, sep, k);
  }

  /** The search from `k` ends a piece: at the occurrence it finds, or at the end. */
  lemma NextOccurrence(s: string, sep: string, k: nat)
    requires k <= |s|
    ensures var f := FindFrom(s[k..], sep, 0);
            PieceAt(s, sep, k, if f.Some? then k + f.value else |s|)
  {
    var f := FindFrom(s[k..], sep, 0);
    var n := if f.Some? then f.value else |s| - k;
    ShiftAbsent(s, sep, k, n);
    if f.Some? {
      OccursShift(s, sep, k, n);
    }
  }

  /** The first piece of a split ends at the first occurrence, or is the whole string. */
  lemma SplitFirstPiece(s: string, sep: string)
    requires |sep| > 0
    ensures FindFrom(s, sep, 0).None? ==> Split(s, sep)[0] == s
    ensures FindFrom(s, sep, 0).Some? ==> Split(s, sep)[0] == s[..FindFrom(s, sep, 0).value]
  {
  }


  /** No occurrence among the first `n` positions of `s[k..]` is none in `s` from `k` on. */
  lemma ShiftAbsent(s: string, sep: string, k: nat, n: nat)
    requires k + n <= |s|
    requires forall m: nat :: m < n ==> !OccursAt(s[k..], sep, m)
    ensures forall m: nat :: k <= m < k + n ==> !OccursAt(s, sep, m)
  {
    forall m: nat | k <= m < k + n
      ensures !OccursAt(s, sep, m)
    {
      OccursShift(s, sep, k, m - k);
    }
  }


  /** The first two pieces, with the separator between them, begin the joined string. */
  lemma JoinPrefix(pieces: seq<string>, sep: string)
    requires |pieces| >= 1
    ensures |pieces| == 1 ==> Join(pieces, sep) == pieces[0]
    ensures |pieces| >= 2 ==>
              |pieces[0] + sep + pieces[1]| <= |Join(pieces, sep)|
              && Join(pieces, sep)[..|pieces[0] + sep + pieces[1]|] == pieces[0] + sep + pieces[1]
  {
    if |pieces| >= 2 {
      var rest := pieces[1..];
      assert Join(pieces, sep) == pieces[0] + sep + Join(rest, sep);
      JoinPrefix(rest, sep);
      var head := pieces[0] + sep + pieces[1];
      assert Join(pieces, sep) == pieces[0] + sep + Join(rest, sep);
      if |rest| == 1 {
        assert Join(rest, sep) == pieces[1];
      } else {
        assert Join(rest, sep) == pieces[1] + sep + Join(rest[1..], sep);
        assert Join(pieces, sep) == head + (sep + Join(rest[1..], sep));
      }
    }
  }
}
