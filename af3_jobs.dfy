/**
 * Chain classification and AlphaFold3 job assembly of scripts/setup.py.
 *
 * Each FASTA record of a PDB entry is classified by CDR3 matching and by
 * length; the first record of each of the five kinds fills its slot, and
 * when all five are filled the job lists them as MHC, B2M, peptide, TCR
 * alpha, TCR beta with chain ids A to E. The FASTA download and the JSON
 * file writing are not part of this model: the records are a parameter
 * and the job is returned as a value.
 */
module Af3Jobs {
  import opened Wrappers
  import opened Text

  /**
   * The six labels classify_chain returns ("mhc", "b2m", "peptide",
   * "tcr_alpha", "tcr_beta", "unknown"); being a datatype, a result is
   * always one of them.
   */
  datatype ChainType = Mhc | B2m | Peptide | TcrAlpha | TcrBeta | Unknown

  /** One entry of the CDR3 map: `{"cdr3a": ..., "cdr3b": ...}`. */
  datatype Cdr3Pair = Cdr3Pair(cdr3a: string, cdr3b: string)

  /** The CDR3 alpha of a known entry occurs in the sequence. */
  predicate AlphaMatch(sequence: string, pdbId: string, cdr3Map: map<string, Cdr3Pair>)
  {
    ToLower(pdbId) in cdr3Map && Contains(sequence, cdr3Map[ToLower(pdbId)].cdr3a)
  }

  /** The CDR3 beta of a known entry occurs in the sequence. */
  predicate BetaMatch(sequence: string, pdbId: string, cdr3Map: map<string, Cdr3Pair>)
  {
    ToLower(pdbId) in cdr3Map && Contains(sequence, cdr3Map[ToLower(pdbId)].cdr3b)
  }

  /**
   * classify_chain. A CDR3 alpha match decides TCR alpha whatever the
   * length; CDR3 beta is consulted only without one. With no CDR3 match
   * the length alone decides, by three disjoint bands: 5..20 peptide,
   * 90..120 B2M, above 250 MHC, anything else unknown.
   */
  function ClassifyChain(sequence: string, pdbId: string, cdr3Map: map<string, Cdr3Pair>): (t: ChainType)
    ensures t == TcrAlpha <==> AlphaMatch(sequence, pdbId, cdr3Map)
    ensures t == TcrBeta <==> !AlphaMatch(sequence, pdbId, cdr3Map) && BetaMatch(sequence, pdbId, cdr3Map)
    ensures !AlphaMatch(sequence, pdbId, cdr3Map) && !BetaMatch(sequence, pdbId, cdr3Map) ==>
              && (t == Peptide <==> 5 <= |sequence| <= 20)
              && (t == B2m <==> 90 <= |sequence| <= 120)
              && (t == Mhc <==> |sequence| > 250)
              && (t == Unknown <==> |sequence| < 5 || 20 < |sequence| < 90 || 120 < |sequence| <= 250)
  {
    var seqLen := |sequence|;
    var id := ToLower(pdbId);
    if id in cdr3Map && Contains(sequence, cdr3Map[id].cdr3a) then TcrAlpha
    else if id in cdr3Map && Contains(sequence, cdr3Map[id].cdr3b) then TcrBeta
    else if 5 <= seqLen <= 20 then Peptide
    else if 90 <= seqLen <= 120 then B2m
    else if seqLen > 250 then Mhc
    else Unknown
  }

  /**
   * The CDR3 map is looked up under the lower-cased PDB id, so the id's
   * case never changes the label.
   */
  lemma ClassifyIgnoresIdCase(sequence: string, pdbId: string, cdr3Map: map<string, Cdr3Pair>)
    ensures ClassifyChain(sequence, ToLower(pdbId), cdr3Map) == ClassifyChain(sequence, pdbId, cdr3Map)
  {
    ToLowerIdempotent(pdbId);
  }

  /** The five slots of `chains`, in the order the job lists them. */
  const SLOT_ORDER: seq<ChainType> := [Mhc, B2m, Peptide, TcrAlpha, TcrBeta]

  /** The index of the first record classified as `t`, if any. */
  function FirstOfType(records: seq<string>, t: ChainType, pdbId: string, cdr3Map: map<string, Cdr3Pair>)
    : (r: Option<nat>)
    ensures r.Some? ==> r.value < |records| && ClassifyChain(records[r.value], pdbId, cdr3Map) == t
    ensures r.Some? ==> forall j :: 0 <= j < r.value ==> ClassifyChain(records[j], pdbId, cdr3Map) != t
    ensures r.None? ==> forall j :: 0 <= j < |records| ==> ClassifyChain(records[j], pdbId, cdr3Map) != t
    decreases |records|
  {
    if |records| == 0 then None
    else if ClassifyChain(records[0], pdbId, cdr3Map) == t then Some(0)
    else
      match FirstOfType(records[1..], t, pdbId, cdr3Map)
      case None => None
      case Some(i) => Some(i + 1)
  }

  /** What a slot holds after the fold over `records`: the first record of its type. */
  function SlotContent(records: seq<string>, t: ChainType, pdbId: string, cdr3Map: map<string, Cdr3Pair>)
    : Option<string>
  {
    match FirstOfType(records, t, pdbId, cdr3Map)
    case None => None
    case Some(i) => Some(records[i])
  }

  /**
   * One more record changes a slot only if the slot was empty and the
   * record has the slot's type: the first record of a type wins.
   */
  lemma SlotContentSnoc(records: seq<string>, x: string, t: ChainType, pdbId: string, cdr3Map: map<string, Cdr3Pair>)
    ensures SlotContent(records + [x], t, pdbId, cdr3Map)
            == if SlotContent(records, t, pdbId, cdr3Map).Some? then SlotContent(records, t, pdbId, cdr3Map)
               else if ClassifyChain(x, pdbId, cdr3Map) == t then Some(x)
               else None
  {
    var all := records + [x];
    var before := FirstOfType(records, t, pdbId, cdr3Map);
    var after := FirstOfType(all, t, pdbId, cdr3Map);
    match before {
      case Some(i) =>
        assert all[i] == records[i];
        assert after.Some?;
        assert after.value == i;
      case None =>
        if after.Some? {
          assert after.value == |records|;
        } else {
          assert all[|records|] == x;
        }
    }
  }

  /** SlotContentSnoc for the prefix of `records` the fold has seen after `k + 1` steps. */
  lemma SlotContentStep(records: seq<string>, k: nat, t: ChainType, pdbId: string, cdr3Map: map<string, Cdr3Pair>)
    requires k < |records|
    ensures SlotContent(records[..k + 1], t, pdbId, cdr3Map)
            == if SlotContent(records[..k], t, pdbId, cdr3Map).Some? then SlotContent(records[..k], t, pdbId, cdr3Map)
               else if ClassifyChain(records[k], pdbId, cdr3Map) == t then Some(records[k])
               else None
  {
    assert records[..k + 1] == records[..k] + [records[k]];
    SlotContentSnoc(records[..k], records[k], t, pdbId, cdr3Map);
  }

  /** `[name for name, seq in chains.items() if seq is None]`, in the slots' order. */
  function MissingSlots(order: seq<ChainType>, slots: map<ChainType, Option<string>>): (missing: seq<ChainType>)
    requires forall k :: 0 <= k < |order| ==> order[k] in slots
    ensures forall t :: t in missing <==> t in order && slots[t].None?
    ensures |missing| <= |order|
  {
    if |order| == 0 then []
    else (if slots[order[0]].None? then [order[0]] else []) + MissingSlots(order[1..], slots)
  }

  /** One protein of the job's `sequences` list. */
  datatype ProteinEntry = ProteinEntry(sequence: string, id: char)

  /** The job dictionary make_af3_json writes as JSON. */
  datatype Af3Job = Af3Job(name: string, modelSeeds: seq<int>, sequences: seq<ProteinEntry>,
                           dialect: string, version: int)

  /** The slots as the fold leaves them, for every one of the five types. */
  function ExpectedSlots(records: seq<string>, pdbId: string, cdr3Map: map<string, Cdr3Pair>)
    : map<ChainType, Option<string>>
  {
    map t | t in SLOT_ORDER :: SlotContent(records, t, pdbId, cdr3Map)
  }

  /** Whether a type's slot is empty after the fold: no record has that type. */
  lemma ExpectedSlotEmpty(records: seq<string>, pdbId: string, cdr3Map: map<string, Cdr3Pair>, t: ChainType)
    requires t in SLOT_ORDER
    ensures t in ExpectedSlots(records, pdbId, cdr3Map)
    ensures ExpectedSlots(records, pdbId, cdr3Map)[t].None? <==>
              forall j :: 0 <= j < |records| ==> ClassifyChain(records[j], pdbId, cdr3Map) != t
  {
  }

  /** The slots hold, for each of the five types, the first record of that type in `records`. */
  predicate SlotsAfter(chains: map<ChainType, Option<string>>, records: seq<string>,
                       pdbId: string, cdr3Map: map<string, Cdr3Pair>)
  {
    && chains.Keys == {Mhc, B2m, Peptide, TcrAlpha, TcrBeta}
    && forall t :: t in chains ==> chains[t] == SlotContent(records, t, pdbId, cdr3Map)
  }

  /** `chains[chain_type] = seq` when the slot exists and is still empty. */
  function Fill(chains: map<ChainType, Option<string>>, t: ChainType, rec: string): (r: map<ChainType, Option<string>>)
    ensures r.Keys == chains.Keys
    ensures forall u :: u in chains && (u != t || chains[u].Some?) ==> r[u] == chains[u]
    ensures t in chains && chains[t].None? ==> r[t] == Some(rec)
  {
    if t in chains && chains[t].None? then chains[t := Some(rec)] else chains
  }

  /** One step of the fold keeps the slots equal to the first records of their types. */
  lemma FoldStep(chains: map<ChainType, Option<string>>, records: seq<string>, k: nat,
                 pdbId: string, cdr3Map: map<string, Cdr3Pair>)
    requires k < |records|
    requires SlotsAfter(chains, records[..k], pdbId, cdr3Map)
    ensures SlotsAfter(Fill(chains, ClassifyChain(records[k], pdbId, cdr3Map), records[k]),
                       records[..k + 1], pdbId, cdr3Map)
  {
    var next := Fill(chains, ClassifyChain(records[k], pdbId, cdr3Map), records[k]);
    forall t | t in next
      ensures next[t] == SlotContent(records[..k + 1], t, pdbId, cdr3Map)
    {
      SlotContentStep(records, k, t, pdbId, cdr3Map);
    }
  }

  /** Slots that satisfy SlotsAfter are exactly the expected slots. */
  lemma SlotsAfterExpected(chains: map<ChainType, Option<string>>, records: seq<string>,
                           pdbId: string, cdr3Map: map<string, Cdr3Pair>)
    requires SlotsAfter(chains, records, pdbId, cdr3Map)
    ensures chains == ExpectedSlots(records, pdbId, cdr3Map)
  {
    var expected := ExpectedSlots(records, pdbId, cdr3Map);
    assert chains.Keys == expected.Keys;
    forall t | t in chains ensures chains[t] == expected[t] {
    }
  }

  /**
   * The loop of make_af3_json over the FASTA records: each record goes to
   * the slot of its type unless that slot is already filled.
   */
  method FoldSlots(pdbId: string, cdr3Map: map<string, Cdr3Pair>, records: seq<string>)
    returns (chains: map<ChainType, Option<string>>)
    ensures chains == ExpectedSlots(records, pdbId, cdr3Map)
  {
    chains := map[Mhc := None, B2m := None, Peptide := None, TcrAlpha := None, TcrBeta := None];
    var k := 0;
    while k < |records|
      invariant 0 <= k <= |records|
      invariant SlotsAfter(chains, records[..k], pdbId, cdr3Map)
    {
      var rec := records[k];
      var chainType := ClassifyChain(rec, pdbId, cdr3Map);
      FoldStep(chains, records, k, pdbId, cdr3Map);
      if chainType in chains && chains[chainType] == None {
        chains := chains[chainType := Some(rec)];
      }
      k := k + 1;
    }
    assert records[..|records|] == records;
    SlotsAfterExpected(chains, records, pdbId, cdr3Map);
  }

  /** The five filled slots as chains A to E, in `SLOT_ORDER`. */
  method AssembleSequences(chains: map<ChainType, Option<string>>) returns (sequences: seq<ProteinEntry>)
    requires forall t :: t in SLOT_ORDER ==> t in chains && chains[t].Some?
    ensures |sequences| == |SLOT_ORDER|
    ensures forall i :: 0 <= i < |SLOT_ORDER| ==>
              sequences[i] == ProteinEntry(chains[SLOT_ORDER[i]].value, "ABCDE"[i])
  {
    var order := SLOT_ORDER;
    sequences := [];
    for i := 0 to |order|
      invariant |sequences| == i
      invariant forall j :: 0 <= j < i ==> sequences[j] == ProteinEntry(chains[order[j]].value, "ABCDE"[j])
    {
      var key := order[i];
      sequences := sequences + [ProteinEntry(chains[key].value, ('A' as int + i) as char)];
    }
  }

  /**
   * make_af3_json without the download and the file: fold the records into
   * the five slots, first record of a type wins; report the empty slots in
   * slot order, or list the five slots as chains A to E.
   */
  method MakeAf3Job(pdbId: string, cdr3Map: map<string, Cdr3Pair>, records: seq<string>)
    returns (r: Result<Af3Job, seq<ChainType>>)
    ensures r.Failure? <==> exists t :: t in SLOT_ORDER && FirstOfType(records, t, pdbId, cdr3Map).None?
    ensures r.Failure? ==> r.error == MissingSlots(SLOT_ORDER, ExpectedSlots(records, pdbId, cdr3Map))
    ensures r.Success? ==>
              && r.value.name == pdbId + "_tcr_pmhc"
              && r.value.modelSeeds == [1] && r.value.dialect == "alphafold3" && r.value.version == 1
              && |r.value.sequences| == 5
              && forall i :: 0 <= i < 5 ==>
                   && FirstOfType(records, SLOT_ORDER[i], pdbId, cdr3Map).Some?
                   && r.value.sequences[i].sequence == records[FirstOfType(records, SLOT_ORDER[i], pdbId, cdr3Map).value]
                   && ClassifyChain(r.value.sequences[i].sequence, pdbId, cdr3Map) == SLOT_ORDER[i]
                   && r.value.sequences[i].id == "ABCDE"[i]
  {
    var chains := FoldSlots(pdbId, cdr3Map, records);
    var missing := MissingSlots(SLOT_ORDER, chains);
    if |missing| > 0 {
      var t := missing[0];
      assert t in SLOT_ORDER && FirstOfType(records, t, pdbId, cdr3Map).None?;
      return Failure(missing);
    }
    assert forall t :: t in SLOT_ORDER ==> t !in missing;
    var sequences := AssembleSequences(chains);
    r := Success(Af3Job(pdbId + "_tcr_pmhc", [1], sequences, "alphafold3", 1));
  }
}
