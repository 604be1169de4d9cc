/** The PDB fixed-column record conventions shared by both relabelling scripts. */
module PdbRecords {
  import opened Text

  /** Column 22 of an atom record (index 21 from zero) holds the chain identifier. */
  const CHAIN_COLUMN: nat := 21

  /** A line the scripts treat as an atom record: it starts with `ATOM` or `HETATM`. */
  predicate IsAtomLine(line: string)
  {
    StartsWith(line, "ATOM") || StartsWith(line, "HETATM")
  }

  /** Whether a line is an atom record depends only on its first six characters. */
  lemma AtomLineIgnoresChainColumn(a: string, b: string)
    requires |a| == |b|
    requires forall j :: 0 <= j < |a| && j != CHAIN_COLUMN ==> a[j] == b[j]
    ensures IsAtomLine(a) == IsAtomLine(b)
  {
    if |a| >= 4 { assert a[..4] == b[..4]; }
    if |a| >= 6 { assert a[..6] == b[..6]; }
  }
}
