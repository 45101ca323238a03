/** The heuristic electrostatics of an interface (pyPPI/electrostat.py): partial charges,
    the Coulomb-like pair term, the relabelling of C-terminal oxygens, the pair sum with
    hydrogen-bond exclusion and the hydrophobic-charged contact sets. */
module Electrostat {
  import opened Outcome
  import opened PyStrings
  import opened SpatialIndex
  import opened PdbReader

  /** `kcal_mol_constant` of `eInteraction`. */
  const KcalMolConstant: real := 322.0637

  /** `CUTOFF_DISTANCE ** 2`: the squared radius of the charged-pair query. */
  const PairQuery2: real := 49.0

  /** `HYDROPHOBIC_CHARED_CUTOFF_DISTANCE`, and its square for the radius query. */
  const HydrophobicCutoff: real := 4.0
  const HydrophobicQuery2: real := 16.0

  /** The default pH of `assignCharge`. (The default `count_cutoff_distance = 5` of
      `calcElectrostatic` is a parameter of `CalcElectrostatic`.) */
  const DefaultPH: real := 7.0

  /** `eInteraction(Qi, Qj, R)` taken over `d2 = R ** 2`; Python raises ZeroDivisionError
      for two atoms at the same place. */
  function EInteraction(qi: real, qj: real, d2: real): (r: Result<real>)
    ensures r.Err? <==> d2 == 0.0
    ensures r.Err? ==> r.error == ZeroDivisionError
    ensures r.Ok? ==> r.value * d2 == KcalMolConstant * qi * qj
  {
    if d2 == 0.0 then Err(ZeroDivisionError) else Ok(KcalMolConstant * qi * qj / d2)
  }

  /** The pair term is attractive (negative) exactly for charges of opposite sign, and
      zero exactly when one of them is uncharged. */
  lemma EInteractionSign(qi: real, qj: real, d2: real)
    requires d2 > 0.0
    ensures EInteraction(qi, qj, d2).value < 0.0 <==> (qi < 0.0 < qj || qj < 0.0 < qi)
    ensures EInteraction(qi, qj, d2).value == 0.0 <==> (qi == 0.0 || qj == 0.0)
  {
    var e := EInteraction(qi, qj, d2).value;
    var p := qi * qj;
    assert e * d2 == KcalMolConstant * p;
    assert p < 0.0 <==> (qi < 0.0 < qj || qj < 0.0 < qi) by {
      if qi < 0.0 && qj > 0.0 { assert p < 0.0; }
      if qi > 0.0 && qj < 0.0 { assert p < 0.0; }
      if qi >= 0.0 && qj >= 0.0 { assert p >= 0.0; }
      if qi <= 0.0 && qj <= 0.0 { assert p >= 0.0; }
    }
    assert p == 0.0 <==> (qi == 0.0 || qj == 0.0);
    if e < 0.0 { assert e * d2 < 0.0; }
    if e > 0.0 { assert e * d2 > 0.0; }
  }

  /** A carboxylate oxygen of ASP or GLU, or a C-terminal oxygen. */
  predicate AcidicOxygen(atom: Atom) {
    (atom.residue in {"ASP", "GLU"} && atom.atomType == "O" && atom.symbol != "O")
    || atom.symbol == "OXT"
  }

  /** The residues whose side-chain nitrogens carry half a charge at `pH`: ARG always,
      HIS only when `0.1 < pH <= 6`. */
  predicate BasicResidue(residue: string, pH: real) {
    residue == "ARG" || (residue == "HIS" && 0.1 < pH <= 6.0)
  }

  /** A side-chain nitrogen (atomType N, not the backbone N nor NE) of a basic residue. */
  predicate BasicNitrogen(atom: Atom, pH: real) {
    BasicResidue(atom.residue, pH) && atom.atomType == "N" && atom.symbol !in {"N", "NE"}
  }

  /** `assignCharge(atom, pH)`: the first matching rule decides. */
  function AssignCharge(atom: Atom, pH: real): (q: real)
    ensures q == -0.5 || q == 0.0 || q == 0.5 || q == 1.0
    ensures q < 0.0 <==> AcidicOxygen(atom)
    ensures q == 1.0 <==> !AcidicOxygen(atom) && atom.residue == "LYS" && atom.symbol == "NZ"
    ensures q == 0.5 <==> !AcidicOxygen(atom) && !(atom.residue == "LYS" && atom.symbol == "NZ")
                          && BasicNitrogen(atom, pH)
  {
    if atom.residue in {"ASP", "GLU"} && atom.atomType == "O" && atom.symbol != "O" then -0.5
    else if atom.symbol == "OXT" then -0.5
    else if atom.residue == "LYS" && atom.symbol == "NZ" then 1.0
    else if BasicResidue(atom.residue, pH) && atom.atomType == "N" && atom.symbol !in {"N", "NE"} then 0.5
    else 0.0
  }

  /** At the default pH histidine is neutral: only a C-terminal oxygen of it is charged. */
  lemma HistidineNeutralAtDefault(atom: Atom)
    requires atom.residue == "HIS"
    ensures AssignCharge(atom, DefaultPH) != 0.0 <==> atom.symbol == "OXT"
    ensures AssignCharge(atom, DefaultPH) >= 0.0 <==> atom.symbol != "OXT"
  {
  }

  /** The side-chain amine NZ of a lysine carries +1 at every pH, whatever its atom type. */
  lemma LysineAmineCharged(atom: Atom, pH: real)
    requires atom.residue == "LYS" && atom.symbol == "NZ"
    ensures AssignCharge(atom, pH) == 1.0
  {
    assert atom.residue != "ASP" && atom.residue != "GLU" by { assert atom.residue[0] == 'L'; }
    assert atom.symbol != "OXT" by { assert atom.symbol[0] == 'N'; }
  }

  /** `is_hydrophobic`: membership of the residue in the eight hydrophobic residues. */
  predicate IsHydrophobic(atom: Atom) {
    atom.residue in {"VAL", "ILE", "LEU", "PHE", "TRP", "CYS", "ALA", "PRO"}
  }

  /** A hydrophobic residue is charged only at its C-terminal oxygen. */
  lemma HydrophobicUncharged(atom: Atom, pH: real)
    requires IsHydrophobic(atom)
    ensures AssignCharge(atom, pH) != 0.0 ==> atom.symbol == "OXT" && AssignCharge(atom, pH) == -0.5
  {
  }

  /** The residues, as (chain, resId), that have an atom named OXT. */
  function OxtKeys(atoms: seq<Atom>): set<(string, string)> {
    set a | a in atoms && a.symbol == "OXT" :: (a.chain, a.resId)
  }

  /** Some atom of `atoms` is the OXT of the residue of `a`. */
  predicate HasOxt(atoms: seq<Atom>, a: Atom) {
    exists k :: 0 <= k < |atoms| && atoms[k].symbol == "OXT" && atoms[k].chain == a.chain && atoms[k].resId == a.resId
  }

  lemma OxtKeysMembers(atoms: seq<Atom>, a: Atom)
    ensures (a.chain, a.resId) in OxtKeys(atoms) <==> HasOxt(atoms, a)
  {
    if HasOxt(atoms, a) {
      var k :| 0 <= k < |atoms| && atoms[k].symbol == "OXT" && atoms[k].chain == a.chain && atoms[k].resId == a.resId;
      assert atoms[k] in atoms;
    }
  }

  /** One step of the OXT pass. */
  function Relabel(a: Atom, keys: set<(string, string)>): Atom {
    if a.symbol == "O" && (a.chain, a.resId) in keys then a.(symbol := "OXT") else a
  }

  /** The atoms after the OXT pass of `calcElectrostatic` and `calcElectroHydrophobic`:
      an oxygen named O becomes OXT when its residue has an OXT atom, and nothing else
      changes. */
  function Relabeled(atoms: seq<Atom>): (r: seq<Atom>)
    ensures |r| == |atoms|
    ensures forall i :: 0 <= i < |atoms| ==> r[i].(symbol := atoms[i].symbol) == atoms[i]
    ensures forall i :: 0 <= i < |atoms| ==>
              (r[i] != atoms[i] <==> atoms[i].symbol == "O" && HasOxt(atoms, atoms[i]))
    ensures forall i :: 0 <= i < |atoms| && r[i] != atoms[i] ==> r[i].symbol == "OXT"
  {
    var keys := OxtKeys(atoms);
    forall i | 0 <= i < |atoms| {
      OxtKeysMembers(atoms, atoms[i]);
    }
    seq(|atoms|, i requires 0 <= i < |atoms| => Relabel(atoms[i], keys))
  }

  /** Running the pass a second time changes nothing. */
  lemma RelabelIdempotent(atoms: seq<Atom>)
    ensures Relabeled(Relabeled(atoms)) == Relabeled(atoms)
  {
    var r := Relabeled(atoms);
    forall i | 0 <= i < |r|
      ensures Relabeled(r)[i] == r[i]
    {
    }
  }

  /** The pass keeps the positions and pseudo-chains, so a cached interface stays valid. */
  lemma RelabelKeepsGeometry(atoms: seq<Atom>)
    ensures Coords(Relabeled(atoms)) == Coords(atoms)
    ensures Sides(Relabeled(atoms)) == Sides(atoms)
  {
  }

  /** The OXT loop over `pdb.atoms`, renaming atoms in place. */
  method RelabelOxt(pdb: PDBReader)
    requires pdb.Valid()
    modifies pdb`atoms
    ensures pdb.Valid()
    ensures pdb.atoms == Relabeled(old(pdb.atoms))
  {
    ghost var original := pdb.atoms;
    var keys := OxtKeys(pdb.atoms);
    var i := 0;
    while i < |pdb.atoms|
      invariant 0 <= i <= |pdb.atoms| == |original|
      invariant forall k :: 0 <= k < i ==> pdb.atoms[k] == Relabeled(original)[k]
      invariant forall k :: i <= k < |original| ==> pdb.atoms[k] == original[k]
    {
      var a := pdb.atoms[i];
      if a.symbol == "O" && (a.chain, a.resId) in keys {
        pdb.atoms := pdb.atoms[i := a.(symbol := "OXT")];
      }
      i := i + 1;
    }
    assert pdb.atoms == Relabeled(original);
    RelabelKeepsGeometry(original);
  }

  // ----- the charged-pair sum of calcElectrostatic -----

  /** The charge of every atom at `pH`, by position. */
  function Charges(atoms: seq<Atom>, pH: real): (q: seq<real>)
    ensures |q| == |atoms| && forall i :: 0 <= i < |atoms| ==> q[i] == AssignCharge(atoms[i], pH)
  {
    seq(|atoms|, i requires 0 <= i < |atoms| => AssignCharge(atoms[i], pH))
  }

  /** The positions `0 .. n-1`: the atoms of the structure, in order. */
  function Range(n: nat): (r: seq<nat>)
    ensures |r| == n && forall i :: 0 <= i < n ==> r[i] == i
  {
    seq(n, i requires 0 <= i < n => i)
  }

  /** Every position in `s` is below `n`. */
  predicate InRange(s: seq<nat>, n: nat) {
    forall t :: 0 <= t < |s| ==> s[t] < n
  }

  /** No element occurs twice. */
  predicate NoDup<T(==)>(s: seq<T>) {
    forall k, m :: 0 <= k < m < |s| ==> s[k] != s[m]
  }

  /** Two duplicate-free runs with no element in common join without duplicates. */
  lemma NoDupAppend<T>(xs: seq<T>, ys: seq<T>)
    requires NoDup(xs) && NoDup(ys)
    requires forall x :: x in xs ==> x !in ys
    ensures NoDup(xs + ys)
  {
    forall k, m | 0 <= k < m < |xs + ys|
      ensures (xs + ys)[k] != (xs + ys)[m]
    {
      if k < |xs| && |xs| <= m {
        assert (xs + ys)[k] in xs && (xs + ys)[m] in ys;
      }
    }
  }

  /** The positions are all different. */
  lemma RangeNoDup(n: nat)
    ensures NoDup(Range(n))
  {
  }

  /** `[a for a in cands if a.chain in part and assignCharge(a) != 0]`, over positions. */
  function ChargedIn(atoms: seq<Atom>, q: seq<real>, cands: seq<nat>, part: string): (r: seq<nat>)
    requires |q| == |atoms| && InRange(cands, |atoms|)
    ensures InRange(r, |atoms|)
    ensures forall k :: k in r <==> k in cands && k < |atoms| && Contains(part, atoms[k].chain) && q[k] != 0.0
  {
    if cands == [] then []
    else
      var k := cands[|cands| - 1];
      var r' := ChargedIn(atoms, q, cands[..|cands| - 1], part);
      assert forall m :: m in cands <==> m in cands[..|cands| - 1] || m == k by {
        assert cands == cands[..|cands| - 1] + [k];
      }
      if Contains(part, atoms[k].chain) && q[k] != 0.0 then r' + [k] else r'
  }

  /** The filtered list keeps no atom twice when the candidates do not. */
  lemma {:induction false} ChargedInDistinct(atoms: seq<Atom>, q: seq<real>, cands: seq<nat>, part: string)
    requires |q| == |atoms| && InRange(cands, |atoms|) && NoDup(cands)
    ensures NoDup(ChargedIn(atoms, q, cands, part))
  {
    if cands != [] {
      var cands' := cands[..|cands| - 1];
      ChargedInDistinct(atoms, q, cands', part);
      assert cands[|cands| - 1] !in cands';
    }
  }

  /** `findByDistance(query_point=c, distance=r2)` of a k-d tree built from the atoms
      `pool`, as a filter of the pool: the atoms at squared distance below `r2` from `c`,
      in pool order. `WithinQuery` shows it is the radius query over the pool's
      coordinates, its hits read back as atoms. */
  function Within(atoms: seq<Atom>, pool: seq<nat>, c: Point, r2: real): (r: seq<nat>)
    requires InRange(pool, |atoms|)
    ensures InRange(r, |atoms|)
    ensures forall x :: x in r <==> x in pool && x < |atoms| && Dist2(atoms[x].coord, c) < r2
  {
    if pool == [] then []
    else
      var x := pool[|pool| - 1];
      var r' := Within(atoms, pool[..|pool| - 1], c, r2);
      assert forall y :: y in pool <==> y in pool[..|pool| - 1] || y == x by {
        assert pool == pool[..|pool| - 1] + [x];
      }
      if Dist2(atoms[x].coord, c) < r2 then r' + [x] else r'
  }

  /** The coordinates of the atoms `pool`, in order: the points the tree is built from. */
  function PoolCoords(atoms: seq<Atom>, pool: seq<nat>): (pts: seq<Point>)
    requires InRange(pool, |atoms|)
    ensures |pts| == |pool| && forall k :: 0 <= k < |pool| ==> pts[k] == atoms[pool[k]].coord
  {
    seq(|pool|, k requires 0 <= k < |pool| => atoms[pool[k]].coord)
  }

  /** The pool atoms at the positions `hits`. */
  function Pick(pool: seq<nat>, hits: seq<nat>): (r: seq<nat>)
    requires forall k :: 0 <= k < |hits| ==> hits[k] < |pool|
    ensures |r| == |hits| && forall k :: 0 <= k < |hits| ==> r[k] == pool[hits[k]]
  {
    seq(|hits|, k requires 0 <= k < |hits| => pool[hits[k]])
  }

  /** The filter is the radius query of `SpatialIndex` over the coordinates of the pool,
      each hit read back as the pool atom at that position. */
  lemma {:induction false} WithinQuery(atoms: seq<Atom>, pool: seq<nat>, c: Point, r2: real)
    requires InRange(pool, |atoms|)
    ensures Within(atoms, pool, c, r2) == Pick(pool, FindByDistance(PoolCoords(atoms, pool), c, r2))
  {
    if pool != [] {
      var n := |pool|;
      var pool' := pool[..n - 1];
      var x := pool[n - 1];
      WithinQuery(atoms, pool', c, r2);
      var pts := PoolCoords(atoms, pool);
      assert pts[..n - 1] == PoolCoords(atoms, pool');
      var hits' := FindByDistance(pts[..n - 1], c, r2);
      assert Pick(pool, hits') == Pick(pool', hits');
      if Dist2(pts[n - 1], c) < r2 {
        assert FindByDistance(pts, c, r2) == hits' + [n - 1];
        assert Pick(pool, hits' + [n - 1]) == Pick(pool, hits') + [x];
      } else {
        assert FindByDistance(pts, c, r2) == hits';
      }
    }
  }

  /** As the radius query reports each point once, the filter repeats no atom of a pool
      that repeats none: `[con for con in nearAtoms ...]` sees each pool atom once. */
  lemma WithinDistinct(atoms: seq<Atom>, pool: seq<nat>, c: Point, r2: real)
    requires InRange(pool, |atoms|) && NoDup(pool)
    ensures NoDup(Within(atoms, pool, c, r2))
  {
    var hits := FindByDistance(PoolCoords(atoms, pool), c, r2);
    WithinQuery(atoms, pool, c, r2);
    FindByDistanceOrdered(PoolCoords(atoms, pool), c, r2);
    var r := Pick(pool, hits);
    forall k, m | 0 <= k < m < |r|
      ensures r[k] != r[m]
    {
      assert hits[k] < hits[m];
    }
  }

  /** A donor/acceptor pair of the hydrogen-bond list; an end the lookup did not find is None. */
  type HBond = (Option<nat>, Option<nat>)

  /** `(con, atom) in hHbonds or (atom, con) in hHbonds`. */
  predicate Excluded(hb: seq<HBond>, a: nat, con: nat) {
    (Some(con), Some(a)) in hb || (Some(a), Some(con)) in hb
  }

  /** A pair that enters the sum: query atom `i`, pool atom `j`, their charges and the
      squared distance between them. */
  datatype Contact = Contact(i: nat, j: nat, qi: real, qj: real, d2: real)

  function ContactOf(atoms: seq<Atom>, q: seq<real>, a: nat, con: nat): Contact
    requires |q| == |atoms| && a < |atoms| && con < |atoms|
  {
    Contact(a, con, q[a], q[con], Dist2(atoms[a].coord, atoms[con].coord))
  }

  /** The pairs the inner loop takes for query atom `a` over the radius-query hits `near`:
      those not in the hydrogen-bond list, with a charged partner. */
  function NearContacts(atoms: seq<Atom>, q: seq<real>, a: nat, near: seq<nat>, hb: seq<HBond>): seq<Contact>
    requires |q| == |atoms| && a < |atoms| && InRange(near, |atoms|)
  {
    if near == [] then []
    else
      var con := near[|near| - 1];
      NearContacts(atoms, q, a, near[..|near| - 1], hb)
      + (if Excluded(hb, a, con) || q[con] == 0.0 then [] else [ContactOf(atoms, q, a, con)])
  }

  /** The pairs of query atom `a`: none when it is uncharged, otherwise those of the
      query of squared radius 49 around it. */
  function QueryContacts(atoms: seq<Atom>, q: seq<real>, pool: seq<nat>, a: nat, hb: seq<HBond>): seq<Contact>
    requires |q| == |atoms| && InRange(pool, |atoms|) && a < |atoms|
  {
    if q[a] == 0.0 then []
    else NearContacts(atoms, q, a, Within(atoms, pool, atoms[a].coord, PairQuery2), hb)
  }

  /** The pairs of the query atoms `queries`, in loop order. */
  function AllContacts(atoms: seq<Atom>, q: seq<real>, pool: seq<nat>, queries: seq<nat>, hb: seq<HBond>): seq<Contact>
    requires |q| == |atoms| && InRange(pool, |atoms|) && InRange(queries, |atoms|)
  {
    Concat(PerQuery(atoms, q, pool, queries, hb))
  }

  /** The pairs of each query atom. */
  function PerQuery(atoms: seq<Atom>, q: seq<real>, pool: seq<nat>, queries: seq<nat>, hb: seq<HBond>): (r: seq<seq<Contact>>)
    requires |q| == |atoms| && InRange(pool, |atoms|) && InRange(queries, |atoms|)
    ensures |r| == |queries|
  {
    seq(|queries|, k requires 0 <= k < |queries| => QueryContacts(atoms, q, pool, queries[k], hb))
  }

  /** The runs `ss` one after the other. */
  function Concat(ss: seq<seq<Contact>>): seq<Contact> {
    if ss == [] then [] else Concat(ss[..|ss| - 1]) + ss[|ss| - 1]
  }

  /** `comp2`: every charged atom of the second interface part, not only interface atoms.
      With fewer than two parts and no atoms at all the comprehension never indexes. */
  function Pool(atoms: seq<Atom>, q: seq<real>, parts: seq<string>): (r: seq<nat>)
    requires |q| == |atoms|
    ensures InRange(r, |atoms|)
  {
    if |parts| >= 2 then ChargedIn(atoms, q, Range(|atoms|), parts[1]) else []
  }

  /** `components[0]`: the charged interface atoms of the first part. */
  function Queries(atoms: seq<Atom>, q: seq<real>, interface: seq<nat>, parts: seq<string>): (r: seq<nat>)
    requires |q| == |atoms| && InRange(interface, |atoms|)
    ensures InRange(r, |atoms|)
  {
    if |parts| >= 1 then ChargedIn(atoms, q, interface, parts[0]) else []
  }

  function Contacts(atoms: seq<Atom>, q: seq<real>, interface: seq<nat>, parts: seq<string>, hb: seq<HBond>): seq<Contact>
    requires |q| == |atoms| && InRange(interface, |atoms|)
  {
    AllContacts(atoms, q, Pool(atoms, q, parts), Queries(atoms, q, interface, parts), hb)
  }

  /** `electroStat, pp, mm, pm`. */
  datatype Totals = Totals(energy: real, pp: nat, mm: nat, pm: nat)

  const NoTotals: Totals := Totals(0.0, 0, 0, 0)

  /** `R < count_cutoff_distance` with `R = sqrt(d2)`. */
  predicate Below(d2: real, cutoff: real) {
    cutoff > 0.0 && d2 < cutoff * cutoff
  }

  predicate Close(c: Contact, cutoff: real) {
    Below(c.d2, cutoff)
  }

  /** The three contact counters. */
  datatype Polarity = BothPositive | BothNegative | Mixed

  function PolarityOf(c: Contact): Polarity {
    if c.qi > 0.0 && c.qj > 0.0 then BothPositive
    else if c.qi < 0.0 && c.qj < 0.0 then BothNegative
    else Mixed
  }

  /** One pass of the inner loop body over a pair: add its term, count it when close;
      a pair at distance zero raises. */
  function Step(acc: Result<Totals>, c: Contact, cutoff: real): Result<Totals> {
    match acc
    case Err(e) => Err(e)
    case Ok(t) =>
      match EInteraction(c.qi, c.qj, c.d2)
      case Err(e) => Err(e)
      case Ok(e) =>
        var t' := t.(energy := t.energy + e);
        if !Close(c, cutoff) then Ok(t')
        else
          match PolarityOf(c)
          case BothPositive => Ok(t'.(pp := t.pp + 1))
          case BothNegative => Ok(t'.(mm := t.mm + 1))
          case Mixed => Ok(t'.(pm := t.pm + 1))
  }

  /** The accumulators after the pairs `cs`, starting from `init`. */
  function TallyFrom(init: Result<Totals>, cs: seq<Contact>, cutoff: real): Result<Totals> {
    if cs == [] then init else Step(TallyFrom(init, cs[..|cs| - 1], cutoff), cs[|cs| - 1], cutoff)
  }

  /** `calcElectrostatic` over the charges `q` of the (relabelled) atoms and the
      effective hydrogen-bond list: IndexError for a missing interface part. */
  function ScoreSpec(atoms: seq<Atom>, q: seq<real>, interface: seq<nat>, parts: seq<string>,
                     hb: seq<HBond>, cutoff: real): Result<Totals>
    requires |q| == |atoms| && InRange(interface, |atoms|)
  {
    if |parts| == 0 || (|parts| < 2 && |atoms| > 0) then Err(IndexError)
    else TallyFrom(Ok(NoTotals), Contacts(atoms, q, interface, parts, hb), cutoff)
  }

  /** The term a pair adds to the energy. */
  function Term(c: Contact): real {
    if c.d2 == 0.0 then 0.0 else KcalMolConstant * c.qi * c.qj / c.d2
  }

  /** Reference definitions: the energy summed over the pairs, and the number of close
      pairs of each polarity and of any polarity. */
  function EnergySum(cs: seq<Contact>): real {
    if cs == [] then 0.0 else EnergySum(cs[..|cs| - 1]) + Term(cs[|cs| - 1])
  }

  function CountClose(cs: seq<Contact>, cutoff: real, kind: Polarity): nat {
    if cs == [] then 0
    else CountClose(cs[..|cs| - 1], cutoff, kind) + (if Close(cs[|cs| - 1], cutoff) && PolarityOf(cs[|cs| - 1]) == kind then 1 else 0)
  }

  function CountAllClose(cs: seq<Contact>, cutoff: real): nat {
    if cs == [] then 0 else CountAllClose(cs[..|cs| - 1], cutoff) + (if Close(cs[|cs| - 1], cutoff) then 1 else 0)
  }

  /** What the accumulators hold: the sum succeeds exactly when no pair is at distance
      zero, and then holds the energy summed over the pairs and each polarity's close pairs. */
  lemma {:induction false} TallyMeaning(cs: seq<Contact>, cutoff: real)
    ensures TallyFrom(Ok(NoTotals), cs, cutoff).Ok? <==> forall t :: 0 <= t < |cs| ==> cs[t].d2 != 0.0
    ensures TallyFrom(Ok(NoTotals), cs, cutoff).Ok? ==>
              TallyFrom(Ok(NoTotals), cs, cutoff).value ==
              Totals(EnergySum(cs), CountClose(cs, cutoff, BothPositive), CountClose(cs, cutoff, BothNegative),
                     CountClose(cs, cutoff, Mixed))
  {
    if cs != [] {
      var cs' := cs[..|cs| - 1];
      TallyMeaning(cs', cutoff);
      if TallyFrom(Ok(NoTotals), cs', cutoff).Err? {
        TallyErr(TallyFrom(Ok(NoTotals), cs', cutoff).error, [cs[|cs| - 1]], cutoff);
        var t :| 0 <= t < |cs'| && cs'[t].d2 == 0.0;
        assert cs[t] == cs'[t];
      } else {
        assert forall t :: 0 <= t < |cs'| ==> cs'[t] == cs[t];
      }
    }
  }

  /** `pp + mm + pm` counts every close pair once. */
  lemma {:induction false} CountsPartition(cs: seq<Contact>, cutoff: real)
    ensures CountClose(cs, cutoff, BothPositive) + CountClose(cs, cutoff, BothNegative) + CountClose(cs, cutoff, Mixed)
            == CountAllClose(cs, cutoff)
  {
    if cs != [] {
      CountsPartition(cs[..|cs| - 1], cutoff);
    }
  }

  /** Once an exception is raised, later pairs change nothing. */
  lemma {:induction false} TallyErr(e: Error, cs: seq<Contact>, cutoff: real)
    ensures TallyFrom(Err(e), cs, cutoff) == Err(e)
  {
    if cs != [] {
      TallyErr(e, cs[..|cs| - 1], cutoff);
    }
  }

  /** Summing two runs of pairs one after the other. */
  lemma {:induction false} TallyAppend(init: Result<Totals>, xs: seq<Contact>, ys: seq<Contact>, cutoff: real)
    ensures TallyFrom(init, xs + ys, cutoff) == TallyFrom(TallyFrom(init, xs, cutoff), ys, cutoff)
  {
    if ys == [] {
      assert xs + ys == xs;
    } else {
      var ys' := ys[..|ys| - 1];
      assert (xs + ys)[..|xs + ys| - 1] == xs + ys';
      TallyAppend(init, xs, ys', cutoff);
    }
  }

  lemma {:induction false} NearContactsAppend(atoms: seq<Atom>, q: seq<real>, a: nat,
                                              xs: seq<nat>, ys: seq<nat>, hb: seq<HBond>)
    requires |q| == |atoms| && a < |atoms| && InRange(xs, |atoms|) && InRange(ys, |atoms|)
    ensures InRange(xs + ys, |atoms|)
    ensures NearContacts(atoms, q, a, xs + ys, hb) == NearContacts(atoms, q, a, xs, hb) + NearContacts(atoms, q, a, ys, hb)
  {
    if ys == [] {
      assert xs + ys == xs;
    } else {
      var ys' := ys[..|ys| - 1];
      assert (xs + ys)[..|xs + ys| - 1] == xs + ys';
      NearContactsAppend(atoms, q, a, xs, ys', hb);
    }
  }

  lemma {:induction false} ConcatAppend(xs: seq<seq<Contact>>, ys: seq<seq<Contact>>)
    ensures Concat(xs + ys) == Concat(xs) + Concat(ys)
  {
    if ys == [] {
      assert xs + ys == xs;
    } else {
      var ys' := ys[..|ys| - 1];
      assert (xs + ys)[..|xs + ys| - 1] == xs + ys';
      ConcatAppend(xs, ys');
    }
  }

  lemma AllContactsAppend(atoms: seq<Atom>, q: seq<real>, pool: seq<nat>, xs: seq<nat>, ys: seq<nat>, hb: seq<HBond>)
    requires |q| == |atoms| && InRange(pool, |atoms|) && InRange(xs, |atoms|) && InRange(ys, |atoms|)
    ensures InRange(xs + ys, |atoms|)
    ensures AllContacts(atoms, q, pool, xs + ys, hb)
            == AllContacts(atoms, q, pool, xs, hb) + AllContacts(atoms, q, pool, ys, hb)
  {
    assert PerQuery(atoms, q, pool, xs + ys, hb) == PerQuery(atoms, q, pool, xs, hb) + PerQuery(atoms, q, pool, ys, hb);
    ConcatAppend(PerQuery(atoms, q, pool, xs, hb), PerQuery(atoms, q, pool, ys, hb));
  }

  /** The pairs of one more query atom follow those of the earlier ones. */
  lemma AllContactsSnoc(atoms: seq<Atom>, q: seq<real>, pool: seq<nat>, xs: seq<nat>, a: nat, hb: seq<HBond>)
    requires |q| == |atoms| && InRange(pool, |atoms|) && InRange(xs, |atoms|) && a < |atoms|
    ensures InRange(xs + [a], |atoms|)
    ensures AllContacts(atoms, q, pool, xs + [a], hb) == AllContacts(atoms, q, pool, xs, hb) + QueryContacts(atoms, q, pool, a, hb)
  {
    var per := PerQuery(atoms, q, pool, xs, hb);
    assert PerQuery(atoms, q, pool, xs + [a], hb) == per + [QueryContacts(atoms, q, pool, a, hb)];
    assert (per + [QueryContacts(atoms, q, pool, a, hb)])[..|per|] == per;
  }

  /** `c` is the pair of query atom `a` and pool atom `c.j`: charged, inside the query
      radius, and not in the hydrogen-bond list in either order. */
  predicate Genuine(atoms: seq<Atom>, q: seq<real>, pool: seq<nat>, hb: seq<HBond>, a: nat, c: Contact)
    requires |q| == |atoms| && a < |atoms|
  {
    && c.j < |atoms| && c.j in pool
    && c == ContactOf(atoms, q, a, c.j)
    && q[c.j] != 0.0
    && Dist2(atoms[c.j].coord, atoms[a].coord) < PairQuery2
    && !Excluded(hb, a, c.j)
  }

  /** The pairs of query atom `a` over the hits `near`: each charged hit outside the
      hydrogen-bond list, once for each time it is hit. */
  lemma {:induction false} NearContactsMembers(atoms: seq<Atom>, q: seq<real>, a: nat, near: seq<nat>,
                                               hb: seq<HBond>, c: Contact)
    requires |q| == |atoms| && a < |atoms| && InRange(near, |atoms|)
    ensures c in NearContacts(atoms, q, a, near, hb) <==>
            c.j in near && c.j < |atoms| && c == ContactOf(atoms, q, a, c.j) && q[c.j] != 0.0 && !Excluded(hb, a, c.j)
  {
    if near != [] {
      var near' := near[..|near| - 1];
      assert near == near' + [near[|near| - 1]];
      NearContactsMembers(atoms, q, a, near', hb, c);
    }
  }

  lemma QueryContactsMembers(atoms: seq<Atom>, q: seq<real>, pool: seq<nat>, a: nat, hb: seq<HBond>, c: Contact)
    requires |q| == |atoms| && InRange(pool, |atoms|) && a < |atoms|
    ensures c in QueryContacts(atoms, q, pool, a, hb) <==> q[a] != 0.0 && Genuine(atoms, q, pool, hb, a, c)
  {
    if q[a] != 0.0 {
      NearContactsMembers(atoms, q, a, Within(atoms, pool, atoms[a].coord, PairQuery2), hb, c);
    }
  }

  lemma {:induction false} AllContactsMembers(atoms: seq<Atom>, q: seq<real>, pool: seq<nat>, queries: seq<nat>,
                                              hb: seq<HBond>, c: Contact)
    requires |q| == |atoms| && InRange(pool, |atoms|) && InRange(queries, |atoms|)
    ensures c in AllContacts(atoms, q, pool, queries, hb) <==>
            c.i in queries && c.i < |atoms| && q[c.i] != 0.0 && Genuine(atoms, q, pool, hb, c.i, c)
  {
    if queries != [] {
      var queries' := queries[..|queries| - 1];
      var a := queries[|queries| - 1];
      assert queries == queries' + [a];
      AllContactsSnoc(atoms, q, pool, queries', a, hb);
      AllContactsMembers(atoms, q, pool, queries', hb, c);
      QueryContactsMembers(atoms, q, pool, a, hb, c);
    }
  }

  /** The pairs summed by `calcElectrostatic`: a charged interface atom of the first part
      and a charged atom of the second part, from all atoms, at squared distance below 49,
      and not a hydrogen-bonded pair in either order. */
  lemma ContactsMembers(atoms: seq<Atom>, q: seq<real>, interface: seq<nat>, parts: seq<string>,
                        hb: seq<HBond>, c: Contact)
    requires |q| == |atoms| && InRange(interface, |atoms|) && |parts| >= 2
    ensures c in Contacts(atoms, q, interface, parts, hb) <==>
            && c.i < |atoms| && c.j < |atoms|
            && c.i in interface && Contains(parts[0], atoms[c.i].chain) && q[c.i] != 0.0
            && Contains(parts[1], atoms[c.j].chain) && q[c.j] != 0.0
            && Dist2(atoms[c.j].coord, atoms[c.i].coord) < PairQuery2
            && !Excluded(hb, c.i, c.j)
            && c == ContactOf(atoms, q, c.i, c.j)
  {
    AllContactsMembers(atoms, q, Pool(atoms, q, parts), Queries(atoms, q, interface, parts), hb, c);
    if c.j < |atoms| {
      assert c.j in Range(|atoms|) by { assert Range(|atoms|)[c.j] == c.j; }
    }
  }

  /** The inner loop takes each hit at most once, so over duplicate-free hits no pair
      repeats. */
  lemma {:induction false} NearContactsDistinct(atoms: seq<Atom>, q: seq<real>, a: nat, near: seq<nat>, hb: seq<HBond>)
    requires |q| == |atoms| && a < |atoms| && InRange(near, |atoms|) && NoDup(near)
    ensures NoDup(NearContacts(atoms, q, a, near, hb))
  {
    if near != [] {
      var near' := near[..|near| - 1];
      var con := near[|near| - 1];
      NearContactsDistinct(atoms, q, a, near', hb);
      var tail := if Excluded(hb, a, con) || q[con] == 0.0 then [] else [ContactOf(atoms, q, a, con)];
      forall c | c in NearContacts(atoms, q, a, near', hb)
        ensures c !in tail
      {
        NearContactsMembers(atoms, q, a, near', hb, c);
        assert c.j in near';
        assert con !in near';
      }
      NoDupAppend(NearContacts(atoms, q, a, near', hb), tail);
    }
  }

  /** Over duplicate-free query atoms and pool, no pair is summed twice. */
  lemma {:induction false} AllContactsDistinct(atoms: seq<Atom>, q: seq<real>, pool: seq<nat>, queries: seq<nat>, hb: seq<HBond>)
    requires |q| == |atoms| && InRange(pool, |atoms|) && InRange(queries, |atoms|)
    requires NoDup(pool) && NoDup(queries)
    ensures NoDup(AllContacts(atoms, q, pool, queries, hb))
  {
    if queries != [] {
      var queries' := queries[..|queries| - 1];
      var a := queries[|queries| - 1];
      assert queries == queries' + [a];
      AllContactsSnoc(atoms, q, pool, queries', a, hb);
      AllContactsDistinct(atoms, q, pool, queries', hb);
      var mine := QueryContacts(atoms, q, pool, a, hb);
      if q[a] != 0.0 {
        WithinDistinct(atoms, pool, atoms[a].coord, PairQuery2);
        NearContactsDistinct(atoms, q, a, Within(atoms, pool, atoms[a].coord, PairQuery2), hb);
      }
      forall c | c in AllContacts(atoms, q, pool, queries', hb)
        ensures c !in mine
      {
        AllContactsMembers(atoms, q, pool, queries', hb, c);
        QueryContactsMembers(atoms, q, pool, a, hb, c);
        assert a !in queries';
      }
      NoDupAppend(AllContacts(atoms, q, pool, queries', hb), mine);
    }
  }

  /** `calcElectrostatic` sums every pair at most once when the interface lists each atom
      once (it is a set): the pool is every atom of the second part, the queries are
      distinct interface atoms, and each query sees each pool atom once. */
  lemma ContactsDistinct(atoms: seq<Atom>, q: seq<real>, interface: seq<nat>, parts: seq<string>, hb: seq<HBond>)
    requires |q| == |atoms| && InRange(interface, |atoms|) && NoDup(interface)
    ensures NoDup(Contacts(atoms, q, interface, parts, hb))
  {
    RangeNoDup(|atoms|);
    if |parts| >= 2 {
      ChargedInDistinct(atoms, q, Range(|atoms|), parts[1]);
    }
    if |parts| >= 1 {
      ChargedInDistinct(atoms, q, interface, parts[0]);
    }
    AllContactsDistinct(atoms, q, Pool(atoms, q, parts), Queries(atoms, q, interface, parts), hb);
  }

  /** An exception raised part-way through the hits of a query ends the whole query. */
  lemma NearErrorEnds(atoms: seq<Atom>, q: seq<real>, a: nat, near: seq<nat>, t: nat,
                      hb: seq<HBond>, cutoff: real, start: Totals)
    requires |q| == |atoms| && a < |atoms| && InRange(near, |atoms|) && t <= |near|
    requires TallyFrom(Ok(start), NearContacts(atoms, q, a, near[..t], hb), cutoff).Err?
    ensures TallyFrom(Ok(start), NearContacts(atoms, q, a, near, hb), cutoff)
            == TallyFrom(Ok(start), NearContacts(atoms, q, a, near[..t], hb), cutoff)
  {
    var e := TallyFrom(Ok(start), NearContacts(atoms, q, a, near[..t], hb), cutoff).error;
    assert near == near[..t] + near[t..];
    NearContactsAppend(atoms, q, a, near[..t], near[t..], hb);
    TallyAppend(Ok(start), NearContacts(atoms, q, a, near[..t], hb), NearContacts(atoms, q, a, near[t..], hb), cutoff);
    TallyErr(e, NearContacts(atoms, q, a, near[t..], hb), cutoff);
  }

  /** An exception raised for one query atom ends the whole sum. */
  lemma QueryErrorEnds(atoms: seq<Atom>, q: seq<real>, pool: seq<nat>, queries: seq<nat>, k: nat,
                       hb: seq<HBond>, cutoff: real)
    requires |q| == |atoms| && InRange(pool, |atoms|) && InRange(queries, |atoms|) && k <= |queries|
    requires TallyFrom(Ok(NoTotals), AllContacts(atoms, q, pool, queries[..k], hb), cutoff).Err?
    ensures TallyFrom(Ok(NoTotals), AllContacts(atoms, q, pool, queries, hb), cutoff)
            == TallyFrom(Ok(NoTotals), AllContacts(atoms, q, pool, queries[..k], hb), cutoff)
  {
    var e := TallyFrom(Ok(NoTotals), AllContacts(atoms, q, pool, queries[..k], hb), cutoff).error;
    assert queries == queries[..k] + queries[k..];
    AllContactsAppend(atoms, q, pool, queries[..k], queries[k..], hb);
    TallyAppend(Ok(NoTotals), AllContacts(atoms, q, pool, queries[..k], hb), AllContacts(atoms, q, pool, queries[k..], hb), cutoff);
    TallyErr(e, AllContacts(atoms, q, pool, queries[k..], hb), cutoff);
  }

  /** The body of the inner loop for one pair: `eInteraction` (which raises at distance
      zero), then the contact counters when `R < count_cutoff_distance`. */
  method AddPair(c: Contact, cutoff: real, acc: Totals) returns (r: Result<Totals>)
    ensures r == Step(Ok(acc), c, cutoff)
  {
    var e := EInteraction(c.qi, c.qj, c.d2);
    if e.Err? {
      return Err(e.error);
    }
    var energy, pp, mm, pm := acc.energy + e.value, acc.pp, acc.mm, acc.pm;
    if Below(c.d2, cutoff) {
      if c.qi > 0.0 && c.qj > 0.0 {
        pp := pp + 1;
      } else if c.qi < 0.0 && c.qj < 0.0 {
        mm := mm + 1;
      } else {
        pm := pm + 1;
      }
    }
    r := Ok(Totals(energy, pp, mm, pm));
  }

  /** The inner loop of `calcElectrostatic` for query atom `a` over the hits `near`,
      continuing the accumulators `start`. */
  method TallyNear(atoms: seq<Atom>, q: seq<real>, a: nat, near: seq<nat>,
                   hb: seq<HBond>, cutoff: real, start: Totals) returns (r: Result<Totals>)
    requires |q| == |atoms| && a < |atoms| && InRange(near, |atoms|)
    ensures r == TallyFrom(Ok(start), NearContacts(atoms, q, a, near, hb), cutoff)
  {
    var acc := start;
    var t := 0;
    while t < |near|
      invariant 0 <= t <= |near|
      invariant TallyFrom(Ok(start), NearContacts(atoms, q, a, near[..t], hb), cutoff) == Ok(acc)
    {
      assert near[..t + 1][..t] == near[..t];
      ghost var done := NearContacts(atoms, q, a, near[..t], hb);
      var con := near[t];
      if !Excluded(hb, a, con) && q[con] != 0.0 {
        var c := ContactOf(atoms, q, a, con);
        assert NearContacts(atoms, q, a, near[..t + 1], hb) == done + [c];
        assert (done + [c])[..|done|] == done;
        var next := AddPair(c, cutoff, acc);
        if next.Err? {
          NearErrorEnds(atoms, q, a, near, t + 1, hb, cutoff, start);
          return next;
        }
        acc := next.value;
      } else {
        assert NearContacts(atoms, q, a, near[..t + 1], hb) == done + [];
        assert done + [] == done;
      }
      t := t + 1;
    }
    assert near[..t] == near;
    r := Ok(acc);
  }

  /** The pairs of one atom of `components[0]`: skipped when uncharged, otherwise the
      radius query of squared radius 49 over the tree of `comp2`, then the inner loop. */
  method TallyQuery(atoms: seq<Atom>, q: seq<real>, pool: seq<nat>, a: nat,
                    hb: seq<HBond>, cutoff: real, start: Totals) returns (r: Result<Totals>)
    requires |q| == |atoms| && InRange(pool, |atoms|) && a < |atoms|
    ensures r == TallyFrom(Ok(start), QueryContacts(atoms, q, pool, a, hb), cutoff)
  {
    if q[a] == 0.0 {
      return Ok(start);
    }
    var near := Within(atoms, pool, atoms[a].coord, PairQuery2);
    r := TallyNear(atoms, q, a, near, hb, cutoff, start);
  }

  /** The outer loop of `calcElectrostatic` over the query atoms `queries`, each queried
      against the tree of `pool`; the first exception ends the loop. */
  method TallyAll(atoms: seq<Atom>, q: seq<real>, pool: seq<nat>, queries: seq<nat>,
                  hb: seq<HBond>, cutoff: real) returns (r: Result<Totals>)
    requires |q| == |atoms| && InRange(pool, |atoms|) && InRange(queries, |atoms|)
    ensures r == TallyFrom(Ok(NoTotals), AllContacts(atoms, q, pool, queries, hb), cutoff)
  {
    var acc := NoTotals;
    var k := 0;
    while k < |queries|
      invariant 0 <= k <= |queries|
      invariant TallyFrom(Ok(NoTotals), AllContacts(atoms, q, pool, queries[..k], hb), cutoff) == Ok(acc)
    {
      ghost var done := AllContacts(atoms, q, pool, queries[..k], hb);
      assert queries[..k + 1] == queries[..k] + [queries[k]];
      AllContactsSnoc(atoms, q, pool, queries[..k], queries[k], hb);
      var step := TallyQuery(atoms, q, pool, queries[k], hb, cutoff, acc);
      TallyAppend(Ok(NoTotals), done, QueryContacts(atoms, q, pool, queries[k], hb), cutoff);
      if step.Err? {
        QueryErrorEnds(atoms, q, pool, queries, k + 1, hb, cutoff);
        return step;
      }
      acc := step.value;
      k := k + 1;
    }
    assert queries[..k] == queries;
    r := Ok(acc);
  }

  /** The loops of `calcElectrostatic` over the charges `q`: the side-1 pool, then each
      charged side-0 interface atom with its query. */
  method Score(atoms: seq<Atom>, q: seq<real>, interface: seq<nat>, parts: seq<string>,
               hb: seq<HBond>, cutoff: real) returns (r: Result<Totals>)
    requires |q| == |atoms| && InRange(interface, |atoms|)
    ensures r == ScoreSpec(atoms, q, interface, parts, hb, cutoff)
  {
    if |parts| < 2 && |atoms| > 0 {
      return Err(IndexError);  // interfaceParts[1]
    }
    if |parts| == 0 {
      return Err(IndexError);  // components[0]
    }
    var queries := ChargedIn(atoms, q, interface, parts[0]);
    var pool := Pool(atoms, q, parts);
    r := TallyAll(atoms, q, pool, queries, hb, cutoff);
  }

  /** `calcElectrostatic(pdb, interface, exclude_hbonds, count_cutoff_distance)`, with the
      hydrogen-bond list `getHbonds` would fetch given as `hbonds`; the charges are those
      at the default pH after the OXT pass. */
  method CalcElectrostatic(pdb: PDBReader, interface: seq<nat>, hbonds: seq<HBond>,
                           excludeHbonds: bool, countCutoff: real) returns (r: Result<Totals>)
    requires pdb.Valid() && InRange(interface, |pdb.atoms|)
    modifies pdb`atoms
    ensures pdb.Valid() && pdb.atoms == Relabeled(old(pdb.atoms))
    ensures r == ScoreSpec(pdb.atoms, Charges(pdb.atoms, DefaultPH), interface, pdb.interfaceParts,
                           if excludeHbonds then hbonds else [], countCutoff)
  {
    var hb := if excludeHbonds then hbonds else [];
    RelabelOxt(pdb);
    r := Score(pdb.atoms, Charges(pdb.atoms, DefaultPH), interface, pdb.interfaceParts, hb, countCutoff);
  }

  // ----- calcElectroHydrophobic -----

  /** `''.join([partb for partb in interfaceParts if partb != part])`: the chains of the
      other parts as one string, so `a.chain in other_parts` is a substring test on it. */
  function OtherParts(parts: seq<string>, part: string): string {
    if parts == [] then ""
    else
      var last := parts[|parts| - 1];
      OtherParts(parts[..|parts| - 1], part) + (if last != part then last else "")
  }

  /** `[a for a in interface if a.chain in other_parts and is_hydrophobic(a)]`. */
  function HydrophobicIn(atoms: seq<Atom>, cands: seq<nat>, other: string): (r: seq<nat>)
    requires InRange(cands, |atoms|)
    ensures InRange(r, |atoms|)
    ensures forall k :: k in r <==> k in cands && k < |atoms| && Contains(other, atoms[k].chain) && IsHydrophobic(atoms[k])
  {
    if cands == [] then []
    else
      var k := cands[|cands| - 1];
      var r' := HydrophobicIn(atoms, cands[..|cands| - 1], other);
      assert forall m :: m in cands <==> m in cands[..|cands| - 1] || m == k by {
        assert cands == cands[..|cands| - 1] + [k];
      }
      if Contains(other, atoms[k].chain) && IsHydrophobic(atoms[k]) then r' + [k] else r'
  }

  /** `(con.chain, con.resId, con.residue, atom.chain, atom.resId, atom.residue)`. */
  datatype HydroPair = HydroPair(chargedChain: string, chargedResId: string, chargedResidue: string,
                                 hydroChain: string, hydroResId: string, hydroResidue: string)

  function PairOf(con: Atom, atom: Atom): HydroPair {
    HydroPair(con.chain, con.resId, con.residue, atom.chain, atom.resId, atom.residue)
  }

  /** The set a charge of this sign goes to: `hydrophobic_positive` or `hydrophobic_negative`. */
  predicate OfSign(x: real, positive: bool) {
    if positive then x > 0.0 else x < 0.0
  }

  /** The pairs the innermost loop adds for hydrophobic atom `a` over the hits `near`. */
  function NearHydro(atoms: seq<Atom>, q: seq<real>, a: nat, near: seq<nat>, positive: bool): set<HydroPair>
    requires |q| == |atoms| && a < |atoms| && InRange(near, |atoms|)
  {
    if near == [] then {}
    else
      var con := near[|near| - 1];
      NearHydro(atoms, q, a, near[..|near| - 1], positive)
      + (if Below(Dist2(atoms[a].coord, atoms[con].coord), HydrophobicCutoff) && OfSign(q[con], positive)
         then {PairOf(atoms[con], atoms[a])} else {})
  }

  /** The hits of the query of squared radius 16 around `a` over the tree of `charged`. */
  function HitsOf(atoms: seq<Atom>, charged: seq<nat>, a: nat): (r: seq<nat>)
    requires InRange(charged, |atoms|) && a < |atoms|
    ensures InRange(r, |atoms|)
  {
    Within(atoms, charged, atoms[a].coord, HydrophobicQuery2)
  }

  /** The pairs of the hydrophobic atoms `partners`. */
  function PartnersHydro(atoms: seq<Atom>, q: seq<real>, charged: seq<nat>, partners: seq<nat>, positive: bool): set<HydroPair>
    requires |q| == |atoms| && InRange(charged, |atoms|) && InRange(partners, |atoms|)
  {
    if partners == [] then {}
    else
      var a := partners[|partners| - 1];
      PartnersHydro(atoms, q, charged, partners[..|partners| - 1], positive)
      + NearHydro(atoms, q, a, HitsOf(atoms, charged, a), positive)
  }

  /** What one interface part adds: nothing when it has no charged interface atom. */
  function PartHydro(atoms: seq<Atom>, q: seq<real>, interface: seq<nat>, parts: seq<string>, j: nat, positive: bool): set<HydroPair>
    requires |q| == |atoms| && InRange(interface, |atoms|) && j < |parts|
  {
    var charged := ChargedIn(atoms, q, interface, parts[j]);
    if charged == [] then {}
    else PartnersHydro(atoms, q, charged, HydrophobicIn(atoms, interface, OtherParts(parts, parts[j])), positive)
  }

  /** What each part adds, in the order of the parts. */
  function PartSets(atoms: seq<Atom>, q: seq<real>, interface: seq<nat>, parts: seq<string>, positive: bool): (r: seq<set<HydroPair>>)
    requires |q| == |atoms| && InRange(interface, |atoms|)
    ensures |r| == |parts| && forall j :: 0 <= j < |parts| ==> r[j] == PartHydro(atoms, q, interface, parts, j, positive)
  {
    seq(|parts|, j requires 0 <= j < |parts| => PartHydro(atoms, q, interface, parts, j, positive))
  }

  /** The union of the first `n` sets. */
  function UnionUpTo(sets: seq<set<HydroPair>>, n: nat): set<HydroPair>
    requires n <= |sets|
  {
    if n == 0 then {} else UnionUpTo(sets, n - 1) + sets[n - 1]
  }

  lemma {:induction false} UnionUpToMembers(sets: seq<set<HydroPair>>, n: nat, h: HydroPair)
    requires n <= |sets|
    ensures h in UnionUpTo(sets, n) <==> exists j :: 0 <= j < n && h in sets[j]
  {
    if n > 0 {
      UnionUpToMembers(sets, n - 1, h);
    }
  }

  /** The two sets after the loop over all parts. */
  function HydroSet(atoms: seq<Atom>, q: seq<real>, interface: seq<nat>, parts: seq<string>, positive: bool): set<HydroPair>
    requires |q| == |atoms| && InRange(interface, |atoms|)
  {
    UnionUpTo(PartSets(atoms, q, interface, parts, positive), |parts|)
  }

  /** A charged interface atom `con` of part `j` of the given sign, and a hydrophobic
      interface atom `a` of another part, at distance below 4. */
  predicate HydroContact(atoms: seq<Atom>, q: seq<real>, interface: seq<nat>, parts: seq<string>,
                         j: nat, con: nat, a: nat, positive: bool)
    requires |q| == |atoms| && j < |parts|
  {
    && con < |atoms| && a < |atoms|
    && con in interface && Contains(parts[j], atoms[con].chain) && OfSign(q[con], positive)
    && a in interface && Contains(OtherParts(parts, parts[j]), atoms[a].chain) && IsHydrophobic(atoms[a])
    && Dist2(atoms[con].coord, atoms[a].coord) < HydrophobicQuery2
  }

  lemma {:induction false} NearHydroMembers(atoms: seq<Atom>, q: seq<real>, a: nat, near: seq<nat>,
                                            positive: bool, h: HydroPair)
    requires |q| == |atoms| && a < |atoms| && InRange(near, |atoms|)
    ensures h in NearHydro(atoms, q, a, near, positive) <==>
            exists con :: con in near && con < |atoms| && h == PairOf(atoms[con], atoms[a])
                          && Below(Dist2(atoms[a].coord, atoms[con].coord), HydrophobicCutoff) && OfSign(q[con], positive)
  {
    if near != [] {
      var near', last := near[..|near| - 1], near[|near| - 1];
      assert near == near' + [last];
      NearHydroMembers(atoms, q, a, near', positive, h);
    }
  }

  /** The pairs of hydrophobic atom `a`: a charged atom of the right sign within 4. */
  lemma HitsHydroMembers(atoms: seq<Atom>, q: seq<real>, charged: seq<nat>, a: nat, positive: bool, h: HydroPair)
    requires |q| == |atoms| && InRange(charged, |atoms|) && a < |atoms|
    ensures h in NearHydro(atoms, q, a, HitsOf(atoms, charged, a), positive) <==>
            exists con :: con in charged && con < |atoms| && h == PairOf(atoms[con], atoms[a])
                          && Dist2(atoms[con].coord, atoms[a].coord) < HydrophobicQuery2 && OfSign(q[con], positive)
  {
    var near := HitsOf(atoms, charged, a);
    NearHydroMembers(atoms, q, a, near, positive, h);
    if h in NearHydro(atoms, q, a, near, positive) {
      var con :| con in near && con < |atoms| && h == PairOf(atoms[con], atoms[a])
                 && Below(Dist2(atoms[a].coord, atoms[con].coord), HydrophobicCutoff) && OfSign(q[con], positive);
      Dist2Metric(atoms[a].coord, atoms[con].coord);
    }
    if exists con :: con in charged && con < |atoms| && h == PairOf(atoms[con], atoms[a])
                     && Dist2(atoms[con].coord, atoms[a].coord) < HydrophobicQuery2 && OfSign(q[con], positive) {
      var con :| con in charged && con < |atoms| && h == PairOf(atoms[con], atoms[a])
                 && Dist2(atoms[con].coord, atoms[a].coord) < HydrophobicQuery2 && OfSign(q[con], positive);
      Dist2Metric(atoms[a].coord, atoms[con].coord);
      assert con in near;
    }
  }

  lemma {:induction false} PartnersHydroMembers(atoms: seq<Atom>, q: seq<real>, charged: seq<nat>, partners: seq<nat>,
                                                positive: bool, h: HydroPair)
    requires |q| == |atoms| && InRange(charged, |atoms|) && InRange(partners, |atoms|)
    ensures h in PartnersHydro(atoms, q, charged, partners, positive) <==>
            exists a, con :: a in partners && a < |atoms| && con in charged && con < |atoms| && h == PairOf(atoms[con], atoms[a])
                             && Dist2(atoms[con].coord, atoms[a].coord) < HydrophobicQuery2 && OfSign(q[con], positive)
  {
    if partners != [] {
      var partners' := partners[..|partners| - 1];
      var a := partners[|partners| - 1];
      assert partners == partners' + [a];
      PartnersHydroMembers(atoms, q, charged, partners', positive, h);
      HitsHydroMembers(atoms, q, charged, a, positive, h);
    }
  }

  lemma PartHydroSound(atoms: seq<Atom>, q: seq<real>, interface: seq<nat>, parts: seq<string>, j: nat,
                       positive: bool, h: HydroPair)
    requires |q| == |atoms| && InRange(interface, |atoms|) && j < |parts|
    requires h in PartHydro(atoms, q, interface, parts, j, positive)
    ensures exists a: nat, con: nat :: HydroContact(atoms, q, interface, parts, j, con, a, positive) && h == PairOf(atoms[con], atoms[a])
  {
    var charged := ChargedIn(atoms, q, interface, parts[j]);
    var partners := HydrophobicIn(atoms, interface, OtherParts(parts, parts[j]));
    PartnersHydroMembers(atoms, q, charged, partners, positive, h);
    var a, con :| a in partners && a < |atoms| && con in charged && con < |atoms| && h == PairOf(atoms[con], atoms[a])
                  && Dist2(atoms[con].coord, atoms[a].coord) < HydrophobicQuery2 && OfSign(q[con], positive);
    assert HydroContact(atoms, q, interface, parts, j, con, a, positive);
  }

  lemma PartHydroComplete(atoms: seq<Atom>, q: seq<real>, interface: seq<nat>, parts: seq<string>, j: nat,
                          positive: bool, a: nat, con: nat)
    requires |q| == |atoms| && InRange(interface, |atoms|) && j < |parts|
    requires HydroContact(atoms, q, interface, parts, j, con, a, positive)
    ensures PairOf(atoms[con], atoms[a]) in PartHydro(atoms, q, interface, parts, j, positive)
  {
    var charged := ChargedIn(atoms, q, interface, parts[j]);
    var partners := HydrophobicIn(atoms, interface, OtherParts(parts, parts[j]));
    assert con in charged && a in partners;
    PartnersHydroMembers(atoms, q, charged, partners, positive, PairOf(atoms[con], atoms[a]));
  }

  lemma PartHydroMembers(atoms: seq<Atom>, q: seq<real>, interface: seq<nat>, parts: seq<string>, j: nat,
                         positive: bool, h: HydroPair)
    requires |q| == |atoms| && InRange(interface, |atoms|) && j < |parts|
    ensures h in PartHydro(atoms, q, interface, parts, j, positive) <==>
            exists a: nat, con: nat :: HydroContact(atoms, q, interface, parts, j, con, a, positive) && h == PairOf(atoms[con], atoms[a])
  {
    if h in PartHydro(atoms, q, interface, parts, j, positive) {
      PartHydroSound(atoms, q, interface, parts, j, positive, h);
    }
    if exists a: nat, con: nat :: HydroContact(atoms, q, interface, parts, j, con, a, positive) && h == PairOf(atoms[con], atoms[a]) {
      var a: nat, con: nat :| HydroContact(atoms, q, interface, parts, j, con, a, positive) && h == PairOf(atoms[con], atoms[a]);
      PartHydroComplete(atoms, q, interface, parts, j, positive, a, con);
    }
  }

  /** `hydrophobic_positive` (`positive`) and `hydrophobic_negative`: the distinct pairs of a
      charged interface atom of the given sign and a hydrophobic interface atom of another
      part, within distance 4. */
  lemma HydroSetMembers(atoms: seq<Atom>, q: seq<real>, interface: seq<nat>, parts: seq<string>,
                        positive: bool, h: HydroPair)
    requires |q| == |atoms| && InRange(interface, |atoms|)
    ensures h in HydroSet(atoms, q, interface, parts, positive) <==>
            exists j: nat, a: nat, con: nat :: j < |parts| && HydroContact(atoms, q, interface, parts, j, con, a, positive)
                                               && h == PairOf(atoms[con], atoms[a])
  {
    var sets := PartSets(atoms, q, interface, parts, positive);
    UnionUpToMembers(sets, |parts|, h);
    if h in HydroSet(atoms, q, interface, parts, positive) {
      var j :| 0 <= j < |parts| && h in sets[j];
      PartHydroSound(atoms, q, interface, parts, j, positive, h);
      var a: nat, con: nat :| HydroContact(atoms, q, interface, parts, j, con, a, positive) && h == PairOf(atoms[con], atoms[a]);
    }
    if exists j: nat, a: nat, con: nat :: j < |parts| && HydroContact(atoms, q, interface, parts, j, con, a, positive)
                                         && h == PairOf(atoms[con], atoms[a]) {
      var j: nat, a: nat, con: nat :| j < |parts| && HydroContact(atoms, q, interface, parts, j, con, a, positive)
                                     && h == PairOf(atoms[con], atoms[a]);
      PartHydroComplete(atoms, q, interface, parts, j, positive, a, con);
      assert h in sets[j];
    }
  }

  /** The innermost loop of `calcElectroHydrophobic` for hydrophobic atom `a`. */
  method AddNearHydro(atoms: seq<Atom>, q: seq<real>, a: nat, near: seq<nat>,
                      pos: set<HydroPair>, neg: set<HydroPair>) returns (pos': set<HydroPair>, neg': set<HydroPair>)
    requires |q| == |atoms| && a < |atoms| && InRange(near, |atoms|)
    ensures pos' == pos + NearHydro(atoms, q, a, near, true)
    ensures neg' == neg + NearHydro(atoms, q, a, near, false)
  {
    pos', neg' := pos, neg;
    var t := 0;
    while t < |near|
      invariant 0 <= t <= |near|
      invariant pos' == pos + NearHydro(atoms, q, a, near[..t], true)
      invariant neg' == neg + NearHydro(atoms, q, a, near[..t], false)
    {
      assert near[..t + 1][..t] == near[..t];
      var con := near[t];
      var qi := q[con];
      var d2 := Dist2(atoms[a].coord, atoms[con].coord);
      if Below(d2, HydrophobicCutoff) {
        if qi > 0.0 {
          pos' := pos' + {PairOf(atoms[con], atoms[a])};
        } else if qi < 0.0 {
          neg' := neg' + {PairOf(atoms[con], atoms[a])};
        }
      }
      t := t + 1;
    }
    assert near[..t] == near;
  }

  /** One hydrophobic partner `a`: its radius query over the tree of `charged`, then the
      innermost loop over the hits. */
  method AddHitsHydro(atoms: seq<Atom>, q: seq<real>, charged: seq<nat>, a: nat,
                      pos: set<HydroPair>, neg: set<HydroPair>) returns (pos': set<HydroPair>, neg': set<HydroPair>)
    requires |q| == |atoms| && InRange(charged, |atoms|) && a < |atoms|
    ensures pos' == pos + NearHydro(atoms, q, a, HitsOf(atoms, charged, a), true)
    ensures neg' == neg + NearHydro(atoms, q, a, HitsOf(atoms, charged, a), false)
  {
    var near := HitsOf(atoms, charged, a);
    pos', neg' := AddNearHydro(atoms, q, a, near, pos, neg);
  }

  /** One more hydrophobic partner adds the pairs of its own query. */
  lemma PartnersHydroSnoc(atoms: seq<Atom>, q: seq<real>, charged: seq<nat>, xs: seq<nat>, a: nat, positive: bool)
    requires |q| == |atoms| && InRange(charged, |atoms|) && InRange(xs, |atoms|) && a < |atoms|
    ensures InRange(xs + [a], |atoms|)
    ensures PartnersHydro(atoms, q, charged, xs + [a], positive)
            == PartnersHydro(atoms, q, charged, xs, positive) + NearHydro(atoms, q, a, HitsOf(atoms, charged, a), positive)
  {
    assert (xs + [a])[..|xs|] == xs;
  }

  /** The loop over the hydrophobic partners of one part, each with its radius query over
      the tree of the part's charged atoms. */
  method AddPartnersHydro(atoms: seq<Atom>, q: seq<real>, charged: seq<nat>, partners: seq<nat>,
                          pos: set<HydroPair>, neg: set<HydroPair>) returns (pos': set<HydroPair>, neg': set<HydroPair>)
    requires |q| == |atoms| && InRange(charged, |atoms|) && InRange(partners, |atoms|)
    ensures pos' == pos + PartnersHydro(atoms, q, charged, partners, true)
    ensures neg' == neg + PartnersHydro(atoms, q, charged, partners, false)
  {
    pos', neg' := pos, neg;
    var k := 0;
    while k < |partners|
      invariant 0 <= k <= |partners|
      invariant pos' == pos + PartnersHydro(atoms, q, charged, partners[..k], true)
      invariant neg' == neg + PartnersHydro(atoms, q, charged, partners[..k], false)
    {
      var a := partners[k];
      assert partners[..k + 1] == partners[..k] + [a];
      PartnersHydroSnoc(atoms, q, charged, partners[..k], a, true);
      PartnersHydroSnoc(atoms, q, charged, partners[..k], a, false);
      pos', neg' := AddHitsHydro(atoms, q, charged, a, pos', neg');
      k := k + 1;
    }
    assert partners[..k] == partners;
  }

  /** The loop over the interface parts of `calcElectroHydrophobic`, over the charges `q`:
      the two sets of distinct hydrophobic-charged pairs. */
  method HydroSets(atoms: seq<Atom>, q: seq<real>, interface: seq<nat>, parts: seq<string>)
    returns (pos: set<HydroPair>, neg: set<HydroPair>)
    requires |q| == |atoms| && InRange(interface, |atoms|)
    ensures pos == HydroSet(atoms, q, interface, parts, true)
    ensures neg == HydroSet(atoms, q, interface, parts, false)
  {
    ghost var posSets := PartSets(atoms, q, interface, parts, true);
    ghost var negSets := PartSets(atoms, q, interface, parts, false);
    pos, neg := {}, {};
    var j := 0;
    while j < |parts|
      invariant 0 <= j <= |parts|
      invariant pos == UnionUpTo(posSets, j) && neg == UnionUpTo(negSets, j)
    {
      var charged := ChargedIn(atoms, q, interface, parts[j]);
      if charged != [] {
        var partners := HydrophobicIn(atoms, interface, OtherParts(parts, parts[j]));
        pos, neg := AddPartnersHydro(atoms, q, charged, partners, pos, neg);
      }
      j := j + 1;
    }
  }

  /** `calcElectroHydrophobic(pdb, interface)`: the OXT pass, then the sizes of the two
      sets at the default pH. */
  method CalcElectroHydrophobic(pdb: PDBReader, interface: seq<nat>) returns (positives: nat, negatives: nat)
    requires pdb.Valid() && InRange(interface, |pdb.atoms|)
    modifies pdb`atoms
    ensures pdb.Valid() && pdb.atoms == Relabeled(old(pdb.atoms))
    ensures positives == |HydroSet(pdb.atoms, Charges(pdb.atoms, DefaultPH), interface, pdb.interfaceParts, true)|
    ensures negatives == |HydroSet(pdb.atoms, Charges(pdb.atoms, DefaultPH), interface, pdb.interfaceParts, false)|
  {
    RelabelOxt(pdb);
    var pos, neg := HydroSets(pdb.atoms, Charges(pdb.atoms, DefaultPH), interface, pdb.interfaceParts);
    positives, negatives := |pos|, |neg|;
  }
}
