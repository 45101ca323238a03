/** The earlier electrostatics script at the top of the repository (electrostat.py): the
    same pair sum as the packaged one, with three differences: lysine is recognised by
    its atom type rather than its atom name, the hydrogen-bond list is always consulted,
    and the contact counters use a fixed cutoff of 4. */
module LegacyElectrostat {
  import opened Outcome
  import opened PdbReader
  import Electrostat

  /** The hard-coded `R < 4` of the contact counters. */
  const CountCutoff: real := 4.0

  /** `assignCharge(atom, pH)` of the script: the lysine rule tests `atomType == 'NZ'`. */
  function AssignCharge(atom: Atom, pH: real): (q: real)
    ensures q == -0.5 || q == 0.0 || q == 0.5 || q == 1.0
    ensures q < 0.0 <==> Electrostat.AcidicOxygen(atom)
    ensures q == 1.0 <==> !Electrostat.AcidicOxygen(atom) && atom.residue == "LYS" && atom.atomType == "NZ"
    ensures q == 0.5 <==> !Electrostat.AcidicOxygen(atom) && !(atom.residue == "LYS" && atom.atomType == "NZ")
                          && Electrostat.BasicNitrogen(atom, pH)
  {
    if atom.residue in {"ASP", "GLU"} && atom.atomType == "O" && atom.symbol != "O" then -0.5
    else if atom.symbol == "OXT" then -0.5
    else if atom.residue == "LYS" && atom.atomType == "NZ" then 1.0
    else if Electrostat.BasicResidue(atom.residue, pH) && atom.atomType == "N" && atom.symbol !in {"N", "NE"} then 0.5
    else 0.0
  }

  /** Outside lysine both versions assign the same charge at every pH. */
  lemma AgreesOutsideLysine(atom: Atom, pH: real)
    requires atom.residue != "LYS"
    ensures AssignCharge(atom, pH) == Electrostat.AssignCharge(atom, pH)
  {
  }

  /** The atom type is the one-column element field (columns 78-78 of the record), so a
      lysine atom read from a file never gets the +1 charge here. */
  lemma LysineNeverCharged(line: string, num: string -> Option<real>, pH: real)
    requires ClassifyLine(line, num).Ok? && ClassifyLine(line, num).value.AtomRecord?
    ensures AssignCharge(ClassifyLine(line, num).value.atom, pH) != 1.0
  {
    var a := ClassifyLine(line, num).value.atom;
    assert |a.atomType| <= 1;
  }

  /** The side-chain amine of a lysine: charged +1 by the packaged rule, uncharged here. */
  lemma LysineAmineDiffers(atom: Atom, pH: real)
    requires atom.residue == "LYS" && atom.symbol == "NZ" && atom.atomType == "N"
    ensures Electrostat.AssignCharge(atom, pH) == 1.0
    ensures AssignCharge(atom, pH) == 0.0
  {
  }

  /** The charge of every atom under the script's rule: the packaged charges everywhere
      but at lysine atoms. */
  function Charges(atoms: seq<Atom>, pH: real): (q: seq<real>)
    ensures |q| == |atoms| && forall i :: 0 <= i < |atoms| ==> q[i] == AssignCharge(atoms[i], pH)
    ensures forall i :: 0 <= i < |atoms| && atoms[i].residue != "LYS" ==> q[i] == Electrostat.Charges(atoms, pH)[i]
  {
    seq(|atoms|, i requires 0 <= i < |atoms| => AssignCharge(atoms[i], pH))
  }

  /** `calcElectrostatic(pdb, interface)` of the script, with the list `getHbonds` would
      fetch given as `hbonds`: the OXT pass, then the pair sum over the script's charges
      at the default pH, always excluding the listed pairs, counting below 4. */
  method CalcElectrostatic(pdb: PDBReader, interface: seq<nat>, hbonds: seq<Electrostat.HBond>)
    returns (r: Result<Electrostat.Totals>)
    requires pdb.Valid() && Electrostat.InRange(interface, |pdb.atoms|)
    modifies pdb`atoms
    ensures pdb.Valid() && pdb.atoms == Electrostat.Relabeled(old(pdb.atoms))
    ensures r == Electrostat.ScoreSpec(pdb.atoms, Charges(pdb.atoms, Electrostat.DefaultPH), interface,
                                       pdb.interfaceParts, hbonds, CountCutoff)
  {
    Electrostat.RelabelOxt(pdb);
    r := Electrostat.Score(pdb.atoms, Charges(pdb.atoms, Electrostat.DefaultPH), interface, pdb.interfaceParts,
                           hbonds, CountCutoff);
  }
}
