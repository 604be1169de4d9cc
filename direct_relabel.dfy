/**
 * The direct chain-identifier substitution of scripts/relabel.py, for one
 * file given as its list of lines.
 *
 * Pass one collects the chain identifiers (column 22) of the atom records.
 * When they include every required identifier, pass two rewrites the
 * chain column of each atom record through the substitution table;
 * otherwise the file is copied unchanged.
 */
module DirectRelabel {
  import opened PdbRecords

  /** The chain identifiers that must all be present before anything is remapped. */
  const EXPECTED_CHAINS: set<char> := {'A', 'B', 'C', 'D', 'E'}

  /** The shipped substitution table: MHC, B2M and peptide to A, the two TCR chains to B. */
  const CHAIN_MAP: map<char, char> := map['A' := 'A', 'B' := 'A', 'C' := 'A', 'D' := 'B', 'E' := 'B']

  /** Every atom record is long enough to have a chain column (`line[21]` would raise otherwise). */
  predicate HasChainColumns(lines: seq<string>)
  {
    forall i :: 0 <= i < |lines| && IsAtomLine(lines[i]) ==> |lines[i]| > CHAIN_COLUMN
  }

  /** The chain identifiers of the atom records of a file. */
  function ChainsFound(lines: seq<string>): set<char>
    requires HasChainColumns(lines)
  {
    set i | 0 <= i < |lines| && IsAtomLine(lines[i]) :: lines[i][CHAIN_COLUMN]
  }

  /** Step 1 of relabel_pdbs: grow the set of chain identifiers line by line. */
  method ScanChains(lines: seq<string>) returns (chainsFound: set<char>)
    requires HasChainColumns(lines)
    ensures chainsFound == ChainsFound(lines)
    ensures forall c :: c in chainsFound <==>
              exists i :: 0 <= i < |lines| && IsAtomLine(lines[i]) && lines[i][CHAIN_COLUMN] == c
  {
    chainsFound := {};
    var i := 0;
    while i < |lines|
      invariant 0 <= i <= |lines|
      invariant chainsFound == set k | 0 <= k < i && IsAtomLine(lines[k]) :: lines[k][CHAIN_COLUMN]
    {
      if IsAtomLine(lines[i]) {
        chainsFound := chainsFound + {lines[i][CHAIN_COLUMN]};
      }
      i := i + 1;
    }
  }

  /**
   * `chain_map.get(old, old)`: the table's entry for a mapped chain; a chain
   * the table does not mention keeps its identifier.
   */
  function Lookup(chainMap: map<char, char>, oldChain: char): (newChain: char)
    ensures oldChain in chainMap ==> newChain == chainMap[oldChain] && newChain in chainMap.Values
    ensures oldChain !in chainMap ==> newChain == oldChain
  {
    if oldChain in chainMap then chainMap[oldChain] else oldChain
  }

  /**
   * `line[:21] + new + line[22:]` for an atom record, the line itself for
   * any other: only the chain column can change, and the length is kept.
   */
  function RemapLine(line: string, chainMap: map<char, char>): (r: string)
    requires IsAtomLine(line) ==> |line| > CHAIN_COLUMN
    ensures |r| == |line|
    ensures forall j :: 0 <= j < |line| && j != CHAIN_COLUMN ==> r[j] == line[j]
    ensures IsAtomLine(line) ==> r[CHAIN_COLUMN] == Lookup(chainMap, line[CHAIN_COLUMN])
    ensures !IsAtomLine(line) ==> r == line
  {
    if IsAtomLine(line) then
      line[..CHAIN_COLUMN] + [Lookup(chainMap, line[CHAIN_COLUMN])] + line[CHAIN_COLUMN + 1..]
    else line
  }

  /** Every line of the file through RemapLine. */
  function RemapLines(lines: seq<string>, chainMap: map<char, char>): seq<string>
    requires HasChainColumns(lines)
  {
    seq(|lines|, i requires 0 <= i < |lines| => RemapLine(lines[i], chainMap))
  }

  /**
   * What relabel_pdbs writes for one file: as many lines as it read, lines
   * other than atom records untouched, and no change at all unless every
   * expected chain was found.
   */
  function Relabelled(lines: seq<string>, chainMap: map<char, char>, expected: set<char>): (out: seq<string>)
    requires HasChainColumns(lines)
    ensures |out| == |lines|
    ensures forall i :: 0 <= i < |lines| && !IsAtomLine(lines[i]) ==> out[i] == lines[i]
    ensures out != lines ==> expected <= ChainsFound(lines)
  {
    if expected <= ChainsFound(lines) then RemapLines(lines, chainMap) else lines
  }

  /**
   * The per-file body of relabel_pdbs: remap exactly when the chains found
   * include every expected chain; then each line keeps its position and its
   * length and changes at most in the chain column of an atom record.
   * Otherwise the lines are copied as they are.
   */
  method RelabelFile(lines: seq<string>, chainMap: map<char, char>, expected: set<char>)
    returns (outputLines: seq<string>, doRemap: bool)
    requires HasChainColumns(lines)
    ensures doRemap <==> expected <= ChainsFound(lines)
    ensures |outputLines| == |lines|
    ensures forall i :: 0 <= i < |lines| ==>
              outputLines[i] == if doRemap then RemapLine(lines[i], chainMap) else lines[i]
    ensures outputLines == Relabelled(lines, chainMap, expected)
  {
    var chainsFound := ScanChains(lines);
    doRemap := expected <= chainsFound;
    if doRemap {
      outputLines := [];
      var i := 0;
      while i < |lines|
        invariant 0 <= i <= |lines|
        invariant |outputLines| == i
        invariant forall k :: 0 <= k < i ==> outputLines[k] == RemapLine(lines[k], chainMap)
      {
        var line := lines[i];
        if IsAtomLine(line) {
          var oldChain := line[CHAIN_COLUMN];
          var newChain := Lookup(chainMap, oldChain);
          line := line[..CHAIN_COLUMN] + [newChain] + line[CHAIN_COLUMN + 1..];
        }
        outputLines := outputLines + [line];
        i := i + 1;
      }
    } else {
      outputLines := lines;
    }
  }

  /** Remapping the chain column never turns an atom record into another line or back. */
  lemma RemapKeepsAtomLines(line: string, chainMap: map<char, char>)
    requires IsAtomLine(line) ==> |line| > CHAIN_COLUMN
    ensures IsAtomLine(RemapLine(line, chainMap)) == IsAtomLine(line)
  {
    AtomLineIgnoresChainColumn(line, RemapLine(line, chainMap));
  }

  /** After a remap the chains found are the images of the chains found before. */
  lemma ChainsAfterRemap(lines: seq<string>, chainMap: map<char, char>)
    requires HasChainColumns(lines)
    ensures HasChainColumns(RemapLines(lines, chainMap))
    ensures ChainsFound(RemapLines(lines, chainMap)) == set c | c in ChainsFound(lines) :: Lookup(chainMap, c)
  {
    var out := RemapLines(lines, chainMap);
    forall i | 0 <= i < |lines| ensures IsAtomLine(out[i]) == IsAtomLine(lines[i]) {
      RemapKeepsAtomLines(lines[i], chainMap);
    }
    var before := ChainsFound(lines);
    var after := ChainsFound(out);
    forall c | c in after ensures c in set c | c in before :: Lookup(chainMap, c) {
      var i :| 0 <= i < |out| && IsAtomLine(out[i]) && out[i][CHAIN_COLUMN] == c;
      assert lines[i][CHAIN_COLUMN] in before;
    }
    forall c | c in before ensures Lookup(chainMap, c) in after {
      var i :| 0 <= i < |lines| && IsAtomLine(lines[i]) && lines[i][CHAIN_COLUMN] == c;
      assert out[i][CHAIN_COLUMN] == Lookup(chainMap, c);
    }
  }

  /**
   * The image of a chain set that includes the required chains under the
   * shipped table: A and B, plus the chains the table does not mention.
   */
  lemma ShippedImage(before: set<char>)
    requires EXPECTED_CHAINS <= before
    ensures (set c | c in before :: Lookup(CHAIN_MAP, c)) == {'A', 'B'} + (before - CHAIN_MAP.Keys)
  {
    var image := set c | c in before :: Lookup(CHAIN_MAP, c);
    assert Lookup(CHAIN_MAP, 'A') == 'A' && Lookup(CHAIN_MAP, 'D') == 'B';
    assert 'A' in image && 'B' in image;
    forall c | c in image ensures c in {'A', 'B'} + (before - CHAIN_MAP.Keys) {
      var c0 :| c0 in before && Lookup(CHAIN_MAP, c0) == c;
      if c0 !in CHAIN_MAP {
        assert c == c0;
      }
    }
    forall c | c in before - CHAIN_MAP.Keys ensures c in image {
      assert Lookup(CHAIN_MAP, c) == c;
    }
  }

  /**
   * With the shipped table, a remapped file has chains A and B (both are
   * images of required chains) and whichever of its chains the table does
   * not mention; so only A and B when every chain of the file is a key.
   */
  lemma ShippedRemapChains(lines: seq<string>)
    requires HasChainColumns(lines)
    requires EXPECTED_CHAINS <= ChainsFound(lines)
    ensures HasChainColumns(Relabelled(lines, CHAIN_MAP, EXPECTED_CHAINS))
    ensures ChainsFound(Relabelled(lines, CHAIN_MAP, EXPECTED_CHAINS))
            == {'A', 'B'} + (ChainsFound(lines) - CHAIN_MAP.Keys)
    ensures ChainsFound(lines) <= CHAIN_MAP.Keys ==>
              ChainsFound(Relabelled(lines, CHAIN_MAP, EXPECTED_CHAINS)) == {'A', 'B'}
  {
    ChainsAfterRemap(lines, CHAIN_MAP);
    ShippedImage(ChainsFound(lines));
  }

  /** With the shipped configuration, a file whose chains lie within A..D is copied unchanged. */
  lemma CopiedWithoutChainE(lines: seq<string>)
    requires HasChainColumns(lines)
    requires ChainsFound(lines) <= {'A', 'B', 'C', 'D'}
    ensures Relabelled(lines, CHAIN_MAP, EXPECTED_CHAINS) == lines
  {
    assert 'E' in EXPECTED_CHAINS && 'E' !in ChainsFound(lines);
  }

  /**
   * Running the shipped configuration twice gives what running it once
   * gives: a remapped file no longer has chain C, so it is copied.
   */
  lemma RelabelIdempotent(lines: seq<string>)
    requires HasChainColumns(lines)
    ensures HasChainColumns(Relabelled(lines, CHAIN_MAP, EXPECTED_CHAINS))
    ensures Relabelled(Relabelled(lines, CHAIN_MAP, EXPECTED_CHAINS), CHAIN_MAP, EXPECTED_CHAINS)
            == Relabelled(lines, CHAIN_MAP, EXPECTED_CHAINS)
  {
    if EXPECTED_CHAINS <= ChainsFound(lines) {
      ShippedRemapChains(lines);
      assert 'C' !in ChainsFound(Relabelled(lines, CHAIN_MAP, EXPECTED_CHAINS));
    }
  }
}
