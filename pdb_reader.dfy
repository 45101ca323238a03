/** The PDB coordinate-file reader and the structure it builds (pyPPI/pdbReader.py):
    a fixed-column reading of ATOM/HETATM records as laid out in section 9 of the wwPDB
    PDB File Format v3.3, the chain partition into interface parts, and distance-based
    interface detection behind a one-slot cache. */
module PdbReader {
  import opened Outcome
  import opened PyStrings
  import opened SpatialIndex

  /** An atom record. `atomIndex` and `pseudoChain` stay None until the structure that
      owns the atom indexes it; a pseudo-chain is the code point of its letter. */
  datatype Atom = Atom(
    atomNum: string, symbol: string, residue: string, chain: string, resId: string,
    atomType: string, coord: Point, tempFactor: Option<real>,
    atomIndex: Option<nat>, pseudoChain: Option<int>)

  /** `chr(ord('A') + j)`, as a code point: the pseudo-chain of interface part `j`. */
  function Label(j: nat): int {
    'A' as int + j
  }

  /** What one line of the file contributes. */
  datatype Line =
    | AtomRecord(atom: Atom)      // ATOM
    | WaterRecord(atom: Atom)     // HETATM of residue HOH
    | HetRecord(atom: Atom)       // any other HETATM
    | Skipped                     // ATOM/HETATM of a second conformer or with an insertion code
    | Molecule(name: string)      // COMPND with MOLECULE:
    | ChainList(chains: string)   // COMPND with CHAIN:
    | EndOfModel                  // END, or the start of model 2
    | Ignored                     // anything else

  /** The record tag in columns 1-6. */
  function Tag(line: string): string {
    Slice(line, 0, 6)
  }

  predicate IsCoordinateRecord(line: string) {
    Tag(line) == "ATOM  " || Tag(line) == "HETATM"
  }

  /** The alternate-location indicator (column 17) names the first conformer or none. */
  predicate PrimaryConformer(line: string) {
    Slice(line, 16, 17) == " " || Slice(line, 16, 17) == "A"
  }

  /** The insertion code (column 27) is blank. */
  predicate NoInsertion(line: string) {
    Slice(line, 26, 27) == " "
  }

  /** The characters `strip('; \n')` removes. */
  const CompndTrim: set<char> := {';', ' ', '\n'}

  /** An ATOM or HETATM line. `num` stands for Python's `float`: None where it raises.
      The temperature factor is parsed before the conformer and insertion-code checks,
      the coordinates after them. */
  function ParseRecord(line: string, num: string -> Option<real>): Result<Line> {
    var tempFactor := num(Slice(line, 60, 66));
    if tempFactor.None? then Err(ValueError)
    else if !PrimaryConformer(line) then Ok(Skipped)
    else if !NoInsertion(line) then Ok(Skipped)
    else
      var x, y, z := num(Slice(line, 30, 38)), num(Slice(line, 38, 46)), num(Slice(line, 46, 54));
      if x.None? || y.None? || z.None? then Err(ValueError)
      else
        var residue := Strip(Slice(line, 17, 20));
        var atom := Atom(Strip(Slice(line, 6, 11)), Strip(Slice(line, 12, 16)), residue,
                         Slice(line, 21, 22), Strip(Slice(line, 22, 26)), Slice(line, 77, 78),
                         Point(x.value, y.value, z.value), tempFactor, None, None);
        if Tag(line) == "ATOM  " then Ok(AtomRecord(atom))
        else if residue == "HOH" then Ok(WaterRecord(atom.(tempFactor := None)))
        else Ok(HetRecord(atom))
  }

  /** One pass of the `readFile` loop body over `line`, in the order of its branches. */
  function ClassifyLine(line: string, num: string -> Option<real>): (r: Result<Line>)
    // only ATOM/HETATM lines produce records, each in its own list
    ensures r.Ok? && (r.value.AtomRecord? || r.value.WaterRecord? || r.value.HetRecord? || r.value.Skipped?)
            <==> IsCoordinateRecord(line) && r.Ok?
  {
    if IsCoordinateRecord(line) then ParseRecord(line, num)
    else if Tag(line) == "COMPND" && Contains(line, "MOLECULE:") then
      Ok(Molecule(Replace(StripChars(Split(line, "MOLECULE:")[1], CompndTrim), ",", " ")))
    else if Tag(line) == "COMPND" && Contains(line, "CHAIN:") then
      var pieces := Split(line, "CHAIN: ");
      if |pieces| < 2 then Err(IndexError)
      else Ok(ChainList(Replace(StripChars(pieces[1], CompndTrim), ", ", "")))
    else if Slice(line, 0, 14) == "REMARK 200  PH" then Ok(Ignored)  // the pH read here is never used
    else if Slice(line, 0, 3) == "END" && |line| == 4 then Ok(EndOfModel)
    else if Slice(line, 0, 14) == "MODEL        2" then Ok(EndOfModel)
    else Ok(Ignored)
  }

  /** ATOM records go to the atoms, HETATM records of water to the waters and every other
      HETATM record to the hetero atoms; a record is kept only for the first conformer and
      without an insertion code, and arrives without index or pseudo chain. */
  lemma ClassifyRecords(line: string, num: string -> Option<real>)
    ensures var r := ClassifyLine(line, num);
            && (r.Ok? && r.value.AtomRecord? ==> Tag(line) == "ATOM  ")
            && (r.Ok? && r.value.WaterRecord? ==> Tag(line) == "HETATM" && r.value.atom.residue == "HOH")
            && (r.Ok? && r.value.HetRecord? ==> Tag(line) == "HETATM" && r.value.atom.residue != "HOH")
            && (r.Ok? && (r.value.AtomRecord? || r.value.WaterRecord? || r.value.HetRecord?) ==>
                  && PrimaryConformer(line) && NoInsertion(line)
                  && r.value.atom.atomIndex.None? && r.value.atom.pseudoChain.None?)
  {
  }

  /** A coordinate record of another conformer, or with an insertion code, is skipped
      (once its temperature factor has parsed). */
  lemma ClassifySkips(line: string, num: string -> Option<real>)
    requires IsCoordinateRecord(line) && num(Slice(line, 60, 66)).Some?
    requires !(PrimaryConformer(line) && NoInsertion(line))
    ensures ClassifyLine(line, num) == Ok(Skipped)
  {
  }

  /** Conversely, an ATOM or HETATM line of the first conformer, without insertion code and
      with its four numbers parsed, yields its record in the list its tag and residue name,
      with the fields taken from their columns. */
  lemma ClassifyKeeps(line: string, num: string -> Option<real>)
    requires IsCoordinateRecord(line) && PrimaryConformer(line) && NoInsertion(line)
    requires num(Slice(line, 60, 66)).Some?
    requires num(Slice(line, 30, 38)).Some? && num(Slice(line, 38, 46)).Some? && num(Slice(line, 46, 54)).Some?
    ensures var r := ClassifyLine(line, num);
            && r.Ok?
            && (Tag(line) == "ATOM  " <==> r.value.AtomRecord?)
            && (Tag(line) == "HETATM" && Strip(Slice(line, 17, 20)) == "HOH" <==> r.value.WaterRecord?)
            && (Tag(line) == "HETATM" && Strip(Slice(line, 17, 20)) != "HOH" <==> r.value.HetRecord?)
            && (r.value.AtomRecord? || r.value.WaterRecord? || r.value.HetRecord?)
            && var a := r.value.atom;
            && a.atomNum == Strip(Slice(line, 6, 11)) && a.symbol == Strip(Slice(line, 12, 16))
            && a.residue == Strip(Slice(line, 17, 20)) && a.chain == Slice(line, 21, 22)
            && a.resId == Strip(Slice(line, 22, 26)) && a.atomType == Slice(line, 77, 78)
            && a.coord == Point(num(Slice(line, 30, 38)).value, num(Slice(line, 38, 46)).value, num(Slice(line, 46, 54)).value)
            && a.tempFactor == (if r.value.WaterRecord? then None else num(Slice(line, 60, 66)))
            && a.atomIndex.None? && a.pseudoChain.None?
  {
  }

  /** A coordinate record raises ValueError when its temperature factor does not parse, or
      when it is kept and one of its coordinates does not parse. */
  lemma ClassifyValueError(line: string, num: string -> Option<real>)
    requires IsCoordinateRecord(line)
    requires num(Slice(line, 60, 66)).None? ||
             (PrimaryConformer(line) && NoInsertion(line) &&
              (num(Slice(line, 30, 38)).None? || num(Slice(line, 38, 46)).None? || num(Slice(line, 46, 54)).None?))
    ensures ClassifyLine(line, num) == Err(ValueError)
  {
  }

  /** A COMPND line naming a MOLECULE yields the text after `MOLECULE:`, stripped of
      `;`, blanks and newlines at both ends, with no comma left in it. */
  lemma ClassifyMolecule(line: string, num: string -> Option<real>)
    requires Tag(line) == "COMPND" && Contains(line, "MOLECULE:")
    ensures |Split(line, "MOLECULE:")| >= 2
    ensures ClassifyLine(line, num) == Ok(Molecule(Replace(StripChars(Split(line, "MOLECULE:")[1], CompndTrim), ",", " ")))
    ensures ',' !in ClassifyLine(line, num).value.name
  {
    assert !IsCoordinateRecord(line);
    ReplaceRemoves(StripChars(Split(line, "MOLECULE:")[1], CompndTrim), ',', " ");
  }

  /** A COMPND line with `CHAIN: ` and no MOLECULE yields the text after `CHAIN: `,
      stripped of `;`, blanks and newlines at both ends, with every `", "` removed. */
  lemma ClassifyChains(line: string, num: string -> Option<real>)
    requires Tag(line) == "COMPND" && !Contains(line, "MOLECULE:") && Contains(line, "CHAIN: ")
    ensures |Split(line, "CHAIN: ")| >= 2 && Contains(line, "CHAIN:")
    ensures ClassifyLine(line, num) == Ok(ChainList(Replace(StripChars(Split(line, "CHAIN: ")[1], CompndTrim), ", ", "")))
  {
    assert !IsCoordinateRecord(line);
    var i: nat :| i <= |line| && OccursAt(line, "CHAIN: ", i);
    assert line[i..i + 6] == line[i..i + 7][..6];
    assert OccursAt(line, "CHAIN:", i);
  }

  /** The stop markers: a four-character line starting with END, or the start of the
      second model, unless an earlier branch takes the line. */
  lemma ClassifyStops(line: string, num: string -> Option<real>)
    ensures ClassifyLine(line, num).Ok? && ClassifyLine(line, num).value.EndOfModel? <==>
            !IsCoordinateRecord(line) && Tag(line) != "COMPND" && Slice(line, 0, 14) != "REMARK 200  PH"
            && ((Slice(line, 0, 3) == "END" && |line| == 4) || Slice(line, 0, 14) == "MODEL        2")
  {
    if Tag(line) == "COMPND" {
      // a COMPND line starts with neither marker
      assert Slice(line, 0, 3)[0] == line[0] == Tag(line)[0] == 'C';
      assert Slice(line, 0, 14)[0] == 'C';
    }
  }

  /** The COMPND records: molecule names, and chain lists, where `split('CHAIN: ')[1]` fails
      when the colon is not followed by a space. */
  lemma ClassifyCompound(line: string, num: string -> Option<real>)
    ensures var r := ClassifyLine(line, num);
            && (r.Ok? && r.value.ChainList? ==>
                  Tag(line) == "COMPND" && !Contains(line, "MOLECULE:") && Contains(line, "CHAIN: "))
            && (r.Ok? && r.value.Molecule? ==> Tag(line) == "COMPND" && Contains(line, "MOLECULE:"))
            && (r.Err? && !IsCoordinateRecord(line) ==>
                  r.error == IndexError && Tag(line) == "COMPND" && Contains(line, "CHAIN:") && !Contains(line, "CHAIN: "))
  {
  }

  /** The lists `readFile` fills: `atoms`, `waters`, `hetAtms`, `cmpnds`, `cmpndChains`. */
  datatype Scanned = Scanned(atoms: seq<Atom>, waters: seq<Atom>, hetatms: seq<Atom>,
                             compounds: seq<string>, chainLists: seq<string>)

  const NoRecords: Scanned := Scanned([], [], [], [], [])

  /** What one line contributes: its record in the list it belongs to, or nothing. */
  function Records(l: Line): Scanned {
    match l
    case AtomRecord(a) => NoRecords.(atoms := [a])
    case WaterRecord(a) => NoRecords.(waters := [a])
    case HetRecord(a) => NoRecords.(hetatms := [a])
    case Molecule(m) => NoRecords.(compounds := [m])
    case ChainList(c) => NoRecords.(chainLists := [c])
    case _ => NoRecords
  }

  /** The lists of `p` followed by those of `q`. */
  function Concat(p: Scanned, q: Scanned): Scanned {
    Scanned(p.atoms + q.atoms, p.waters + q.waters, p.hetatms + q.hetatms,
            p.compounds + q.compounds, p.chainLists + q.chainLists)
  }

  /** Appends what one line contributes to the lists. */
  function Add(p: Scanned, l: Line): Scanned {
    Concat(p, Records(l))
  }

  lemma ConcatAssoc(p: Scanned, q: Scanned, s: Scanned)
    ensures Concat(Concat(p, q), s) == Concat(p, Concat(q, s))
  {
  }

  lemma ConcatNoRecords(p: Scanned)
    ensures Concat(p, NoRecords) == p && Concat(NoRecords, p) == p
  {
  }

  /** `Concat(p, _)` lifted to outcomes. */
  function After(p: Scanned, r: Result<Scanned>): Result<Scanned> {
    match r
    case Ok(q) => Ok(Concat(p, q))
    case Err(e) => Err(e)
  }

  /** The outcome of each line of the file, in order. */
  function Classes(lines: seq<string>, num: string -> Option<real>): (r: seq<Result<Line>>)
    ensures |r| == |lines| && forall i :: 0 <= i < |lines| ==> r[i] == ClassifyLine(lines[i], num)
  {
    seq(|lines|, i requires 0 <= i < |lines| => ClassifyLine(lines[i], num))
  }

  /** The `readFile` loop from the lists `acc` on, over classified lines: the first
      exception ends it, and so does a stop marker, after which no line is looked at. */
  function ScanFrom(acc: Scanned, ls: seq<Result<Line>>): Result<Scanned>
    decreases |ls|
  {
    if ls == [] then Ok(acc)
    else
      match ls[0]
      case Err(e) => Err(e)
      case Ok(l) => if l.EndOfModel? then Ok(acc) else ScanFrom(Add(acc, l), ls[1..])
  }

  /** The records of a whole file. */
  function Scan(lines: seq<string>, num: string -> Option<real>): Result<Scanned> {
    ScanFrom(NoRecords, Classes(lines, num))
  }

  /** What is gathered so far simply precedes what the rest of the file contributes. */
  lemma {:induction false} ScanFromAcc(acc: Scanned, ls: seq<Result<Line>>)
    decreases |ls|
    ensures ScanFrom(acc, ls) == After(acc, ScanFrom(NoRecords, ls))
  {
    if ls == [] {
      ConcatNoRecords(acc);
    } else {
      match ls[0]
      case Err(e) =>
      case Ok(l) =>
        if l.EndOfModel? {
          ConcatNoRecords(acc);
        } else {
          ScanFromAcc(Add(acc, l), ls[1..]);
          ScanFromAcc(Add(NoRecords, l), ls[1..]);
          ConcatNoRecords(Records(l));
          match ScanFrom(NoRecords, ls[1..])
          case Err(e) =>
          case Ok(q) => ConcatAssoc(acc, Records(l), q);
        }
    }
  }

  /** A line read without error that is not a stop marker. */
  predicate Passes(l: Result<Line>) {
    l.Ok? && !l.value.EndOfModel?
  }

  lemma {:induction false} ScanFromAppend(a: seq<Result<Line>>, b: seq<Result<Line>>)
    requires forall k :: 0 <= k < |a| ==> Passes(a[k])
    ensures ScanFrom(NoRecords, a).Ok?
    ensures ScanFrom(NoRecords, a + b) == After(ScanFrom(NoRecords, a).value, ScanFrom(NoRecords, b))
    decreases |a|
  {
    if a == [] {
      assert a + b == b;
      match ScanFrom(NoRecords, b)
      case Err(e) =>
      case Ok(q) => ConcatNoRecords(q);
    } else {
      var l := a[0].value;
      assert (a + b)[0] == a[0];
      assert (a + b)[1..] == a[1..] + b;
      ScanFromAppend(a[1..], b);
      ScanFromAcc(Add(NoRecords, l), a[1..] + b);
      ScanFromAcc(Add(NoRecords, l), a[1..]);
      var p := ScanFrom(NoRecords, a[1..]).value;
      match ScanFrom(NoRecords, b)
      case Err(e) =>
      case Ok(q) => ConcatAssoc(Add(NoRecords, l), p, q);
    }
  }

  /** Record order: every record of an earlier block of lines (read without error or stop
      marker) comes before every record of a later one, in each of the five lists. */
  lemma ScanAppend(a: seq<string>, b: seq<string>, num: string -> Option<real>)
    requires forall k :: 0 <= k < |a| ==> Passes(ClassifyLine(a[k], num))
    ensures Scan(a, num).Ok?
    ensures Scan(a + b, num) == After(Scan(a, num).value, Scan(b, num))
  {
    ClassesAppend(a, b, num);
    ScanFromAppend(Classes(a, num), Classes(b, num));
  }

  lemma {:induction false} StopFrom(acc: Scanned, pre: seq<Result<Line>>, rest: seq<Result<Line>>)
    requires |pre| > 0 && pre[|pre| - 1] == Ok(EndOfModel)
    ensures ScanFrom(acc, pre + rest) == ScanFrom(acc, pre)
    decreases |pre|
  {
    assert (pre + rest)[0] == pre[0];
    if |pre| > 1 {
      assert (pre + rest)[1..] == pre[1..] + rest;
      match pre[0]
      case Err(e) =>
      case Ok(l) =>
        if !l.EndOfModel? {
          StopFrom(Add(acc, l), pre[1..], rest);
        }
    }
  }

  /** Nothing after a stop marker contributes atoms, waters, hetatms or metadata:
      whatever follows line `k` can be replaced by anything. */
  lemma ClassesAppend(a: seq<string>, b: seq<string>, num: string -> Option<real>)
    ensures Classes(a + b, num) == Classes(a, num) + Classes(b, num)
  {
  }

  lemma StopIgnoresRest(lines: seq<string>, k: nat, rest: seq<string>, num: string -> Option<real>)
    requires k < |lines| && ClassifyLine(lines[k], num) == Ok(EndOfModel)
    ensures Scan(lines[..k + 1] + rest, num) == Scan(lines, num)
  {
    var pre := Classes(lines[..k + 1], num);
    ClassesAppend(lines[..k + 1], rest, num);
    ClassesAppend(lines[..k + 1], lines[k + 1..], num);
    assert lines[..k + 1] + lines[k + 1..] == lines;
    StopFrom(NoRecords, pre, Classes(rest, num));
    StopFrom(NoRecords, pre, Classes(lines[k + 1..], num));
  }

  /** The records of a file have not been indexed yet. */
  lemma {:induction false} ScanUnindexed(acc: Scanned, ls: seq<Result<Line>>)
    requires forall a :: a in acc.atoms ==> a.atomIndex.None? && a.pseudoChain.None?
    requires forall k :: 0 <= k < |ls| && ls[k].Ok? && ls[k].value.AtomRecord? ==>
               ls[k].value.atom.atomIndex.None? && ls[k].value.atom.pseudoChain.None?
    ensures ScanFrom(acc, ls).Ok? ==>
            forall a :: a in ScanFrom(acc, ls).value.atoms ==> a.atomIndex.None? && a.pseudoChain.None?
    decreases |ls|
  {
    if ls != [] {
      match ls[0]
      case Err(e) =>
      case Ok(l) =>
        if !l.EndOfModel? {
          assert forall k :: 0 <= k < |ls| - 1 ==> ls[1..][k] == ls[k + 1];
          ScanUnindexed(Add(acc, l), ls[1..]);
        }
    }
  }

  /** No record of a file carries an index or a pseudo chain. */
  lemma ScanUnindexedLines(lines: seq<string>, num: string -> Option<real>)
    ensures Scan(lines, num).Ok? ==>
            var atoms := Scan(lines, num).value.atoms;
            forall i :: 0 <= i < |atoms| ==> atoms[i].atomIndex.None? && atoms[i].pseudoChain.None?
  {
    var ls := Classes(lines, num);
    forall k | 0 <= k < |ls| && ls[k].Ok? && ls[k].value.AtomRecord?
      ensures ls[k].value.atom.atomIndex.None? && ls[k].value.atom.pseudoChain.None?
    {
      ClassifyRecords(lines[k], num);
    }
    ScanUnindexed(NoRecords, ls);
    if Scan(lines, num).Ok? {
      var atoms := Scan(lines, num).value.atoms;
      assert forall i :: 0 <= i < |atoms| ==> atoms[i] in atoms;
    }
  }

  /** The `readFile` loop itself, over the lines `readlines()` returns (each with its
      line terminator). */
  method ReadLines(lines: seq<string>, num: string -> Option<real>) returns (r: Result<Scanned>)
    ensures r == Scan(lines, num)
  {
    ghost var ls := Classes(lines, num);
    var acc := NoRecords;
    var i := 0;
    while i < |lines|
      invariant 0 <= i <= |lines|
      invariant ScanFrom(acc, ls[i..]) == Scan(lines, num)
    {
      assert ls[i..][0] == ClassifyLine(lines[i], num);
      assert ls[i..][1..] == ls[i + 1..];
      var l := ClassifyLine(lines[i], num);
      if l.Err? {
        return Err(l.error);
      }
      if l.value.EndOfModel? {
        break;
      }
      acc := Add(acc, l.value);
      i := i + 1;
    }
    r := Ok(acc);
  }

  /** The index of the last interface part whose chain string contains `chain`
      (`chain in interPart` is a substring test). */
  function LastPart(parts: seq<string>, chain: string): (r: Option<nat>)
    ensures r.None? <==> forall j :: 0 <= j < |parts| ==> !Contains(parts[j], chain)
    ensures r.Some? ==> r.value < |parts| && Contains(parts[r.value], chain)
    ensures r.Some? ==> forall j :: r.value < j < |parts| ==> !Contains(parts[j], chain)
  {
    if parts == [] then None
    else if Contains(parts[|parts| - 1], chain) then Some(|parts| - 1)
    else LastPart(parts[..|parts| - 1], chain)
  }

  /** The pseudo-chain `__buildIndex` gives an atom of `chain` whose pseudo-chain was `prior`. */
  function PseudoChainFor(parts: seq<string>, chain: string, prior: Option<int>): Option<int> {
    match LastPart(parts, chain)
    case Some(j) => Some(Label(j))
    case None => prior
  }

  /** `__buildIndex` minus the k-d tree: number the atoms and give each the letter of
      the last interface part naming its chain. */
  method BuildIndex(atoms: seq<Atom>, parts: seq<string>) returns (r: seq<Atom>)
    ensures |r| == |atoms|
    ensures forall i :: 0 <= i < |r| ==> r[i].atomIndex == Some(i)
    ensures forall i :: 0 <= i < |r| ==>
              r[i].pseudoChain == PseudoChainFor(parts, atoms[i].chain, atoms[i].pseudoChain)
    ensures forall i :: 0 <= i < |r| ==>
              r[i] == atoms[i].(atomIndex := r[i].atomIndex, pseudoChain := r[i].pseudoChain)
  {
    r := [];
    var i := 0;
    while i < |atoms|
      invariant 0 <= i <= |atoms| && |r| == i
      invariant forall k :: 0 <= k < i ==>
                  r[k] == atoms[k].(atomIndex := Some(k), pseudoChain := PseudoChainFor(parts, atoms[k].chain, atoms[k].pseudoChain))
    {
      var a := atoms[i];
      var pc := a.pseudoChain;
      var j := 0;
      while j < |parts|
        invariant 0 <= j <= |parts|
        invariant pc == PseudoChainFor(parts[..j], a.chain, a.pseudoChain)
      {
        assert parts[..j + 1][..j] == parts[..j];
        if Contains(parts[j], a.chain) {
          pc := Some(Label(j));
        }
        j := j + 1;
      }
      assert parts[..j] == parts;
      r := r + [a.(atomIndex := Some(i), pseudoChain := pc)];
      i := i + 1;
    }
  }

  /** The coordinates of the atoms, in order: what the k-d tree is built from. */
  function Coords(atoms: seq<Atom>): (r: seq<Point>)
    ensures |r| == |atoms| && forall i :: 0 <= i < |atoms| ==> r[i] == atoms[i].coord
  {
    seq(|atoms|, i requires 0 <= i < |atoms| => atoms[i].coord)
  }

  /** The pseudo-chains of the atoms, in order. */
  function Sides(atoms: seq<Atom>): (r: seq<Option<int>>)
    ensures |r| == |atoms| && forall i :: 0 <= i < |atoms| ==> r[i] == atoms[i].pseudoChain
  {
    seq(|atoms|, i requires 0 <= i < |atoms| => atoms[i].pseudoChain)
  }

  /** Atom `i` is on side 'A' and atom `j`, found by the radius query around it, lies on
      another, named side: the pair `getInterface` adds. */
  predicate Linked(pts: seq<Point>, sides: seq<Option<int>>, d: real, i: nat, j: nat)
    requires |pts| == |sides| && i < |pts| && j < |pts|
  {
    sides[i] == Some(Label(0)) && Dist2(pts[j], pts[i]) < d
    && sides[j].Some? && sides[j] != sides[i]
  }

  /** What the inner loop of `getInterface` adds for query atom `i` over the neighbours `near`. */
  function PartnersOf(pts: seq<Point>, sides: seq<Option<int>>, i: nat, near: seq<nat>): set<nat>
    requires |pts| == |sides| && i < |pts|
    requires forall t :: 0 <= t < |near| ==> near[t] < |pts|
  {
    if near == [] then {}
    else
      var j := near[|near| - 1];
      PartnersOf(pts, sides, i, near[..|near| - 1])
      + (if sides[j] == sides[i] || sides[j].None? then {} else {i, j})
  }

  /** What the outer loop of `getInterface` adds for atom `i`: its partners when it is on
      side 'A', nothing otherwise. */
  function Contribution(pts: seq<Point>, sides: seq<Option<int>>, d: real, i: nat): set<nat>
    requires |pts| == |sides| && i < |pts|
  {
    if sides[i] == Some(Label(0)) then PartnersOf(pts, sides, i, FindByDistance(pts, pts[i], d)) else {}
  }

  /** What the outer loop of `getInterface` has collected after the first `n` atoms. */
  function InterfaceUpTo(pts: seq<Point>, sides: seq<Option<int>>, d: real, n: nat): set<nat>
    requires |pts| == |sides| && n <= |pts|
  {
    UnionUpTo(Contributions(pts, sides, d), n)
  }

  /** The contribution of each atom, in atom order. */
  function Contributions(pts: seq<Point>, sides: seq<Option<int>>, d: real): (r: seq<set<nat>>)
    requires |pts| == |sides|
    ensures |r| == |pts|
  {
    seq(|pts|, i requires 0 <= i < |pts| => Contribution(pts, sides, d, i))
  }

  /** The union of the first `n` sets. */
  function UnionUpTo(sets: seq<set<nat>>, n: nat): set<nat>
    requires n <= |sets|
  {
    if n == 0 then {} else UnionUpTo(sets, n - 1) + sets[n - 1]
  }

  lemma {:induction false} UnionUpToMembers(sets: seq<set<nat>>, n: nat, k: nat)
    requires n <= |sets|
    ensures k in UnionUpTo(sets, n) <==> exists i :: 0 <= i < n && k in sets[i]
  {
    if n > 0 {
      UnionUpToMembers(sets, n - 1, k);
    }
  }

  /** The interface `getInterface(d)` computes: atom indices, since the set holds atoms by identity. */
  function Interface(pts: seq<Point>, sides: seq<Option<int>>, d: real): set<nat>
    requires |pts| == |sides|
  {
    InterfaceUpTo(pts, sides, d, |pts|)
  }

  /** `k` is one of the two atoms of a pair linked from query atom `i`. */
  predicate InPairFrom(pts: seq<Point>, sides: seq<Option<int>>, d: real, i: nat, k: nat)
    requires |pts| == |sides| && i < |pts|
  {
    exists j :: 0 <= j < |pts| && Linked(pts, sides, d, i, j) && (k == i || k == j)
  }

  lemma {:induction false} PartnersOfMembers(pts: seq<Point>, sides: seq<Option<int>>, i: nat, near: seq<nat>, k: nat)
    requires |pts| == |sides| && i < |pts|
    requires forall t :: 0 <= t < |near| ==> near[t] < |pts|
    ensures k in PartnersOf(pts, sides, i, near) <==>
            exists t :: 0 <= t < |near| && sides[near[t]].Some? && sides[near[t]] != sides[i] && (k == i || k == near[t])
    decreases |near|
  {
    if near != [] {
      var near' := near[..|near| - 1];
      PartnersOfMembers(pts, sides, i, near', k);
      if k in PartnersOf(pts, sides, i, near') {
        var t :| 0 <= t < |near'| && sides[near'[t]].Some? && sides[near'[t]] != sides[i] && (k == i || k == near'[t]);
        assert near[t] == near'[t];
      }
      if exists t :: 0 <= t < |near| && sides[near[t]].Some? && sides[near[t]] != sides[i] && (k == i || k == near[t]) {
        var t :| 0 <= t < |near| && sides[near[t]].Some? && sides[near[t]] != sides[i] && (k == i || k == near[t]);
        if t < |near'| {
          assert near'[t] == near[t];
        }
      }
    }
  }

  lemma ContributionMembers(pts: seq<Point>, sides: seq<Option<int>>, d: real, i: nat, k: nat)
    requires |pts| == |sides| && i < |pts|
    ensures k in Contribution(pts, sides, d, i) <==> InPairFrom(pts, sides, d, i, k)
  {
    if sides[i] == Some(Label(0)) {
      var near := FindByDistance(pts, pts[i], d);
      PartnersOfMembers(pts, sides, i, near, k);
      if k in PartnersOf(pts, sides, i, near) {
        var t :| 0 <= t < |near| && sides[near[t]].Some? && sides[near[t]] != sides[i] && (k == i || k == near[t]);
        assert Linked(pts, sides, d, i, near[t]);
      }
      if InPairFrom(pts, sides, d, i, k) {
        var j :| 0 <= j < |pts| && Linked(pts, sides, d, i, j) && (k == i || k == j);
        assert j in near;
        var t :| 0 <= t < |near| && near[t] == j;
        assert sides[near[t]].Some? && sides[near[t]] != sides[i] && (k == i || k == near[t]);
      }
    }
  }

  lemma InterfaceUpToMembers(pts: seq<Point>, sides: seq<Option<int>>, d: real, n: nat, k: nat)
    requires |pts| == |sides| && n <= |pts|
    ensures k in InterfaceUpTo(pts, sides, d, n) <==> exists i :: 0 <= i < n && InPairFrom(pts, sides, d, i, k)
  {
    if k in InterfaceUpTo(pts, sides, d, n) {
      InterfaceUpToSound(pts, sides, d, n, k);
    }
    if exists i :: 0 <= i < n && InPairFrom(pts, sides, d, i, k) {
      var i :| 0 <= i < n && InPairFrom(pts, sides, d, i, k);
      InterfaceUpToComplete(pts, sides, d, n, k, i);
    }
  }

  lemma InterfaceUpToSound(pts: seq<Point>, sides: seq<Option<int>>, d: real, n: nat, k: nat)
    requires |pts| == |sides| && n <= |pts| && k in InterfaceUpTo(pts, sides, d, n)
    ensures exists i :: 0 <= i < n && InPairFrom(pts, sides, d, i, k)
  {
    var sets := Contributions(pts, sides, d);
    UnionUpToMembers(sets, n, k);
    var i :| 0 <= i < n && k in sets[i];
    assert sets[i] == Contribution(pts, sides, d, i);
    ContributionMembers(pts, sides, d, i, k);
  }

  lemma InterfaceUpToComplete(pts: seq<Point>, sides: seq<Option<int>>, d: real, n: nat, k: nat, i: nat)
    requires |pts| == |sides| && i < n <= |pts| && InPairFrom(pts, sides, d, i, k)
    ensures k in InterfaceUpTo(pts, sides, d, n)
  {
    var sets := Contributions(pts, sides, d);
    UnionUpToMembers(sets, n, k);
    ContributionMembers(pts, sides, d, i, k);
    assert sets[i] == Contribution(pts, sides, d, i);
  }

  /** The interface is exactly the atoms of the linked pairs: each side-'A' query atom with
      a differently-labelled neighbour inside the radius, and that neighbour; the two atoms
      of a pair are always added together. */
  lemma InterfaceMembers(pts: seq<Point>, sides: seq<Option<int>>, d: real, k: nat)
    requires |pts| == |sides|
    ensures k in Interface(pts, sides, d) <==>
            exists i, j :: 0 <= i < |pts| && 0 <= j < |pts| && Linked(pts, sides, d, i, j) && (k == i || k == j)
  {
    InterfaceUpToMembers(pts, sides, d, |pts|, k);
    if k in Interface(pts, sides, d) {
      var i :| 0 <= i < |pts| && InPairFrom(pts, sides, d, i, k);
      var j :| 0 <= j < |pts| && Linked(pts, sides, d, i, j) && (k == i || k == j);
    }
    if exists i, j :: 0 <= i < |pts| && 0 <= j < |pts| && Linked(pts, sides, d, i, j) && (k == i || k == j) {
      var i, j :| 0 <= i < |pts| && 0 <= j < |pts| && Linked(pts, sides, d, i, j) && (k == i || k == j);
      assert InPairFrom(pts, sides, d, i, k);
    }
  }

  /** Every interface atom lies on side 'A', or on another side that has a name. */
  lemma InterfaceSides(pts: seq<Point>, sides: seq<Option<int>>, d: real, k: nat)
    requires |pts| == |sides| && k in Interface(pts, sides, d)
    ensures k < |pts| && sides[k].Some?
  {
    InterfaceMembers(pts, sides, d, k);
  }

  /** The inner loop of `getInterface`: the partners of query atom `i` among `near`. */
  method CollectPartners(pts: seq<Point>, sides: seq<Option<int>>, i: nat, near: seq<nat>) returns (found: set<nat>)
    requires |pts| == |sides| && i < |pts|
    requires forall t :: 0 <= t < |near| ==> near[t] < |pts|
    ensures found == PartnersOf(pts, sides, i, near)
  {
    found := {};
    var k := 0;
    while k < |near|
      invariant 0 <= k <= |near|
      invariant found == PartnersOf(pts, sides, i, near[..k])
    {
      assert near[..k + 1][..k] == near[..k];
      var j := near[k];
      if sides[j] == sides[i] || sides[j].None? {
      } else {
        found := found + {i, j};
      }
      k := k + 1;
    }
    assert near[..k] == near;
  }

  /** One pass of the outer loop of `getInterface`: a radius query around atom `i` when it
      lies on side 'A'. */
  method ContributionOf(pts: seq<Point>, sides: seq<Option<int>>, d: real, i: nat) returns (partners: set<nat>)
    requires |pts| == |sides| && i < |pts|
    ensures partners == Contributions(pts, sides, d)[i]
  {
    partners := {};
    if sides[i] == Some(Label(0)) {
      var near := FindByDistance(pts, pts[i], d);
      partners := CollectPartners(pts, sides, i, near);
    }
  }

  /** The two loops of `getInterface` over all atoms and their radius-query neighbours. */
  method ComputeInterface(pts: seq<Point>, sides: seq<Option<int>>, d: real) returns (found: set<nat>)
    requires |pts| == |sides|
    ensures found == Interface(pts, sides, d)
  {
    ghost var sets := Contributions(pts, sides, d);
    found := {};
    var i := 0;
    while i < |pts|
      invariant 0 <= i <= |pts|
      invariant found == UnionUpTo(sets, i)
    {
      var partners := ContributionOf(pts, sides, d, i);
      found := found + partners;
      i := i + 1;
    }
  }

  /** The structure `readFile` returns (class PDBReader). */
  class PDBReader {
    var name: string
    var compounds: string
    var interfaceParts: seq<string>
    var atoms: seq<Atom>
    var waters: seq<Atom>
    var hetatms: seq<Atom>
    var chains: set<string>
    var interfaceCache: Option<set<nat>>
    var cacheDistance: real

    /** Atoms are numbered by position, and a cached interface is the one for its distance. */
    ghost predicate Valid()
      reads this
    {
      && (forall i :: 0 <= i < |atoms| ==> atoms[i].atomIndex == Some(i))
      && (interfaceCache.Some? ==> interfaceCache.value == Interface(Coords(atoms), Sides(atoms), cacheDistance))
    }

    /** `__init__`, which ends by calling `__buildIndex`. */
    constructor (name: string, atoms: seq<Atom>, waters: seq<Atom>, compounds: seq<string>,
                 hetatms: seq<Atom>, interfaceParts: seq<string>)
      ensures Valid()
      ensures this.name == name && this.compounds == Join(compounds, " - ")
      ensures this.interfaceParts == interfaceParts
      ensures this.waters == waters && this.hetatms == hetatms
      ensures this.chains == set a | a in atoms :: a.chain
      ensures interfaceCache == None && cacheDistance == 0.0
      ensures |this.atoms| == |atoms|
      ensures forall i :: 0 <= i < |atoms| ==>
                this.atoms[i] == atoms[i].(atomIndex := Some(i), pseudoChain := PseudoChainFor(interfaceParts, atoms[i].chain, atoms[i].pseudoChain))
    {
      this.compounds := Join(compounds, " - ");
      this.interfaceParts := interfaceParts;
      this.name := name;
      this.waters := waters;
      this.hetatms := hetatms;
      this.chains := set a | a in atoms :: a.chain;
      this.interfaceCache := None;
      this.cacheDistance := 0.0;
      var indexed := BuildIndex(atoms, interfaceParts);
      this.atoms := indexed;
    }

    /** `getPseudoChains`: one letter per interface part, in order. */
    function GetPseudoChains(): (r: seq<int>)
      reads this
      ensures |r| == |interfaceParts|
      ensures forall j :: 0 <= j < |r| ==> r[j] == 'A' as int + j
    {
      PseudoChainLetters(interfaceParts)
    }

    /** `getInterface(max_distance)`: the cached set when the distance is the cached one,
        otherwise a fresh computation that replaces the cache. The distance is handed to
        the radius query unchanged, so Python's default `NEIGHBOR_DISTANCE = 16` is
        compared with SQUARED distances. */
    method GetInterface(maxDistance: real) returns (r: set<nat>)
      requires Valid()
      modifies this`interfaceCache, this`cacheDistance
      ensures Valid()
      ensures r == Interface(Coords(atoms), Sides(atoms), maxDistance)
      ensures interfaceCache == Some(r) && cacheDistance == maxDistance
      ensures old(interfaceCache).Some? && old(cacheDistance) == maxDistance ==> r == old(interfaceCache).value
    {
      if interfaceCache.Some? && cacheDistance == maxDistance {
        return interfaceCache.value;
      }
      cacheDistance := maxDistance;
      r := ComputeInterface(Coords(atoms), Sides(atoms), maxDistance);
      interfaceCache := Some(r);
    }

    /** `getNextAtoms(atom, i)`: the atom `i` places after `atom`, or `atom` itself past the
        end. A negative position counts from the end, as Python indexing does; an atom
        that was never indexed (a water or hetero atom) raises TypeError. */
    function GetNextAtoms(atom: Atom, i: int): (r: Result<Atom>)
      reads this
      ensures atom.atomIndex.None? ==> r == Err(TypeError)
      ensures atom.atomIndex.Some? && atom.atomIndex.value + i >= |atoms| ==> r == Ok(atom)
      ensures atom.atomIndex.Some? && 0 <= atom.atomIndex.value + i < |atoms| ==> r == Ok(atoms[atom.atomIndex.value + i])
      ensures atom.atomIndex.Some? ==> (r.Err? <==> atom.atomIndex.value + i < -|atoms|)
    {
      if atom.atomIndex.None? then Err(TypeError)  // None + i
      else
      var k := atom.atomIndex.value + i;
      if k >= |atoms| then Ok(atom)
      else if k >= 0 then Ok(atoms[k])
      else if k >= -|atoms| then Ok(atoms[|atoms| + k])
      else Err(IndexError)
    }

    /** Stepping forward twice within the atoms is one step of the summed offset. */
    lemma NextAtomsCompose(k: nat, i: nat, j: nat)
      requires Valid() && k + i + j < |atoms|
      ensures GetNextAtoms(atoms[k], i) == Ok(atoms[k + i])
      ensures GetNextAtoms(GetNextAtoms(atoms[k], i).value, j) == GetNextAtoms(atoms[k], i + j)
    {
    }
  }

  /** The letters `getPseudoChains` yields for the interface parts `parts`. */
  function PseudoChainLetters(parts: seq<string>): (r: seq<int>)
    ensures |r| == |parts| && forall j :: 0 <= j < |r| ==> r[j] == Label(j)
  {
    seq(|parts|, j requires 0 <= j < |parts| => Label(j))
  }

  /** The letters are distinct, so two parts never share a pseudo-chain, and an atom's
      pseudo-chain assigned from no earlier label is one of them. */
  lemma PseudoChainsListed(parts: seq<string>, chain: string)
    ensures forall j, k :: 0 <= j < k < |parts| ==> PseudoChainLetters(parts)[j] != PseudoChainLetters(parts)[k]
    ensures PseudoChainFor(parts, chain, None).Some? ==> PseudoChainFor(parts, chain, None).value in PseudoChainLetters(parts)
  {
    var r := PseudoChainLetters(parts);
    match LastPart(parts, chain)
    case None =>
    case Some(j) => assert r[j] == Label(j);
  }

  /** `readFile(path, interface_parts)` over the lines of the file. Without explicit
      interface parts, the COMPND chain lists are used. */
  method ReadFile(path: string, lines: seq<string>, interfaceParts: Option<seq<string>>,
                  num: string -> Option<real>) returns (r: Result<PDBReader>)
    ensures r.Err? ==> Scan(lines, num) == Err(r.error)
    ensures Scan(lines, num).Ok? <==> r.Ok?
    ensures r.Ok? ==> fresh(r.value) && r.value.Valid()
    ensures r.Ok? ==>
              var s := Scan(lines, num).value;
              var parts := if interfaceParts.None? then s.chainLists else interfaceParts.value;
              && r.value.name == Slice(Basename(path), 0, 4)
              && r.value.compounds == Join(s.compounds, " - ")
              && r.value.interfaceParts == parts
              && r.value.waters == s.waters && r.value.hetatms == s.hetatms
              && r.value.interfaceCache.None?
              && |r.value.atoms| == |s.atoms|
              && (forall i :: 0 <= i < |s.atoms| ==>
                    r.value.atoms[i] == s.atoms[i].(atomIndex := Some(i), pseudoChain := PseudoChainFor(parts, s.atoms[i].chain, None)))
  {
    var scanned := ReadLines(lines, num);
    if scanned.Err? {
      return Err(scanned.error);
    }
    ScanUnindexedLines(lines, num);
    var s := scanned.value;
    var parts := if interfaceParts.None? then s.chainLists else interfaceParts.value;
    var pdb := new PDBReader(Slice(Basename(path), 0, 4), s.atoms, s.waters, s.compounds, s.hetatms, parts);
    r := Ok(pdb);
  }

  /** The pseudo-chains a structure read from a file gives its atoms (`ReadFile` indexes the
      scanned atoms with `BuildIndex`): an atom gets one exactly when some interface part
      names its chain, and it is then one of the letters `getPseudoChains` yields. */
  lemma ReadPseudoChains(lines: seq<string>, num: string -> Option<real>, parts: seq<string>)
    requires Scan(lines, num).Ok?
    ensures var atoms := Scan(lines, num).value.atoms;
            forall i :: 0 <= i < |atoms| ==>
              var pc := PseudoChainFor(parts, atoms[i].chain, atoms[i].pseudoChain);
              && (pc.Some? <==> exists j :: 0 <= j < |parts| && Contains(parts[j], atoms[i].chain))
              && (pc.Some? ==> pc.value in PseudoChainLetters(parts))
  {
    ScanUnindexedLines(lines, num);
    var atoms := Scan(lines, num).value.atoms;
    forall i | 0 <= i < |atoms|
      ensures var pc := PseudoChainFor(parts, atoms[i].chain, atoms[i].pseudoChain);
              && (pc.Some? <==> exists j :: 0 <= j < |parts| && Contains(parts[j], atoms[i].chain))
              && (pc.Some? ==> pc.value in PseudoChainLetters(parts))
    {
      PseudoChainsListed(parts, atoms[i].chain);
    }
  }
}
