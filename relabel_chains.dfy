/**
 * The segment-plan chain relabeller of scripts/04b_relabel_chains.py.
 *
 * A structure predicted as four chains (MHC, peptide, TCR alpha, TCR beta)
 * is rewritten as two chains for interface analysis: chain A holds the
 * MHC and the peptide, chain B the two TCR chains. The plan comes from the
 * `target_chainseq` field, four sequences separated by `/`; the residues are
 * taken in file order (chain by chain, residue by residue) and each flat
 * index is sent to A, to B, or nowhere.
 *
 * Bio.PDB's parser, which turns atom lines into chains of residues, is not
 * part of this model: it is a function parameter `parse`, and a residue is
 * an opaque value of type `R`.
 */
module RelabelChains {
  import opened Wrappers
  import opened Text
  import opened PdbRecords

  // ---------------------------------------------------------------------
  // Record filter: clean_pdb_for_parsing
  // ---------------------------------------------------------------------

  /** The atom records of a file, in file order; every other line is dropped. */
  function AtomLines(lines: seq<string>): (kept: seq<string>)
    ensures |kept| <= |lines|
    ensures forall i :: 0 <= i < |kept| ==> IsAtomLine(kept[i])
    decreases |lines|
  {
    if |lines| == 0 then []
    else AtomLines(lines[..|lines| - 1])
         + (if IsAtomLine(lines[|lines| - 1]) then [lines[|lines| - 1]] else [])
  }

  /** The filter keeps a one-line file exactly when that line is an atom record. */
  lemma AtomLinesSingle(line: string)
    ensures AtomLines([line]) == if IsAtomLine(line) then [line] else []
  {
    assert [line][..0] == [];
  }

  /**
   * The filter distributes over concatenation; with AtomLinesSingle this
   * says it keeps exactly the atom lines and keeps them in order.
   */
  lemma {:induction false} AtomLinesAppend(xs: seq<string>, ys: seq<string>)
    ensures AtomLines(xs + ys) == AtomLines(xs) + AtomLines(ys)
    decreases |ys|
  {
    if |ys| == 0 {
      assert xs + ys == xs;
    } else {
      var ys' := ys[..|ys| - 1];
      assert (xs + ys)[..|xs + ys| - 1] == xs + ys';
      AtomLinesAppend(xs, ys');
    }
  }

  /** A line survives the filter if and only if it is an atom record of the input. */
  lemma {:induction false} AtomLinesMembership(lines: seq<string>, line: string)
    ensures line in AtomLines(lines) <==> line in lines && IsAtomLine(line)
    decreases |lines|
  {
    if |lines| > 0 {
      var init := lines[..|lines| - 1];
      AtomLinesMembership(init, line);
      assert lines == init + [lines[|lines| - 1]];
    }
  }

  /** clean_pdb_for_parsing: keep only the `ATOM`/`HETATM` lines, in order. */
  method CleanPdbForParsing(lines: seq<string>) returns (cleaned: seq<string>)
    ensures cleaned == AtomLines(lines)
    ensures forall i :: 0 <= i < |cleaned| ==> IsAtomLine(cleaned[i])
  {
    cleaned := [];
    var i := 0;
    while i < |lines|
      invariant 0 <= i <= |lines|
      invariant cleaned == AtomLines(lines[..i])
      invariant forall k :: 0 <= k < |cleaned| ==> IsAtomLine(cleaned[k])
    {
      assert lines[..i + 1][..i] == lines[..i];
      if IsAtomLine(lines[i]) {
        cleaned := cleaned + [lines[i]];
      }
      i := i + 1;
    }
    assert lines[..|lines|] == lines;
  }

  // ---------------------------------------------------------------------
  // Segmentation plan: extract_plan
  // ---------------------------------------------------------------------

  /** `list(range(lo, hi))`: the integers lo, lo+1, ..., hi-1 (empty when hi <= lo). */
  function Range(lo: int, hi: int): (r: seq<int>)
    ensures |r| == if lo <= hi then hi - lo else 0
    ensures forall k :: 0 <= k < |r| ==> r[k] == lo + k
    decreases hi - lo
  {
    if hi <= lo then [] else Range(lo, hi - 1) + [hi - 1]
  }

  /** Membership in a range is the half-open interval test. */
  lemma InRange(i: int, lo: int, hi: int)
    ensures i in Range(lo, hi) <==> lo <= i < hi
  {
    if lo <= i < hi {
      assert Range(lo, hi)[i - lo] == i;
    }
  }

  /** The sum of a list of lengths. */
  function Sum(xs: seq<nat>): nat
  {
    if |xs| == 0 then 0 else Sum(xs[..|xs| - 1]) + xs[|xs| - 1]
  }

  /**
   * The offsets loop of extract_plan: starting from [0], append the running
   * total after each length but the last, so that offset i is the sum of
   * the first i lengths.
   */
  method Offsets(lengths: seq<nat>) returns (offsets: seq<nat>)
    ensures |offsets| == if |lengths| == 0 then 1 else |lengths|
    ensures forall i :: 0 <= i < |offsets| ==> offsets[i] == Sum(lengths[..i])
  {
    offsets := [0];
    var k := 0;
    assert lengths[..0] == [];
    while k < |lengths| - 1
      invariant 0 <= k <= if |lengths| == 0 then 0 else |lengths| - 1
      invariant |offsets| == k + 1
      invariant forall i :: 0 <= i <= k ==> offsets[i] == Sum(lengths[..i])
    {
      assert lengths[..k + 1][..k] == lengths[..k];
      offsets := offsets + [offsets[k] + lengths[k]];
      k := k + 1;
    }
  }

  /** The ValueError extract_plan raises. */
  datatype PlanError = WrongSegmentCount(got: nat)

  /** The residue index lists for output chains A and B. */
  datatype Plan = Plan(chainA: seq<int>, chainB: seq<int>)

  /** `[len(s) for s in target_chainseq.split("/")]` */
  function SegmentLengths(chainseq: string): seq<nat>
  {
    var parts := Split(chainseq, '/');
    seq(|parts|, i requires 0 <= i < |parts| => |parts[i]|)
  }

  /** The sum of a non-empty list is its first element plus the sum of the rest. */
  lemma {:induction false} SumFront(xs: seq<nat>)
    requires |xs| > 0
    ensures Sum(xs) == xs[0] + Sum(xs[1..])
    decreases |xs|
  {
    if |xs| == 1 {
      assert xs[..0] == [] && xs[1..] == [];
    } else {
      var init := xs[..|xs| - 1];
      SumFront(init);
      assert init[1..] == xs[1..][..|xs| - 2];
    }
  }

  /** Joining parts with a one-character separator adds one character per gap. */
  lemma {:induction false} JoinLength(parts: seq<string>, sep: char)
    requires |parts| > 0
    ensures |Join(parts, sep)| + 1 == Sum(seq(|parts|, i requires 0 <= i < |parts| => |parts[i]|)) + |parts|
    decreases |parts|
  {
    var lengths := seq(|parts|, i requires 0 <= i < |parts| => |parts[i]|);
    SumFront(lengths);
    if |parts| == 1 {
      assert lengths[1..] == [];
    } else {
      var rest := parts[1..];
      JoinLength(rest, sep);
      assert lengths[1..] == seq(|rest|, i requires 0 <= i < |rest| => |rest[i]|);
    }
  }

  /**
   * The segment lengths account for every character of `target_chainseq`
   * except the separators.
   */
  lemma SegmentLengthsCover(chainseq: string)
    ensures Sum(SegmentLengths(chainseq)) + Count(chainseq, '/') == |chainseq|
  {
    var parts := Split(chainseq, '/');
    JoinLength(parts, '/');
    assert SegmentLengths(chainseq) == seq(|parts|, i requires 0 <= i < |parts| => |parts[i]|);
  }

  /**
   * extract_plan on the `target_chainseq` string: exactly four segments are
   * required; chain A is [0, L0+L1) and chain B is [L0+L1, L0+L1+L2+L3).
   * The lengths are not compared with the structure.
   */
  method ExtractPlan(chainseq: string) returns (r: Result<Plan, PlanError>)
    ensures r.Failure? <==> Count(chainseq, '/') != 3
    ensures r.Failure? ==> r.error == WrongSegmentCount(|Split(chainseq, '/')|)
    ensures r.Success? ==>
              var l := SegmentLengths(chainseq);
              |l| == 4 &&
              r.value == Plan(Range(0, l[0] + l[1]), Range(l[0] + l[1], l[0] + l[1] + l[2] + l[3]))
  {
    var parts := Split(chainseq, '/');
    if |parts| != 4 {
      return Failure(WrongSegmentCount(|parts|));
    }
    var lengths := SegmentLengths(chainseq);
    var offsets := Offsets(lengths);
    var mhcStart, peptideStart, tcraStart, tcrbStart := offsets[0], offsets[1], offsets[2], offsets[3];
    assert lengths[..2] == [lengths[0], lengths[1]] && lengths[..2][..1] == lengths[..1];
    assert lengths[..3][..2] == lengths[..2];
    assert mhcStart == 0 && tcraStart == lengths[0] + lengths[1];
    assert tcrbStart == lengths[0] + lengths[1] + lengths[2];
    r := Success(Plan(Range(mhcStart, tcraStart), Range(tcraStart, tcrbStart + lengths[3])));
  }

  /**
   * The two index lists of a plan split [0, total) between them: a list
   * of p indices for A, one of t - p for B, disjoint, covering [0, t).
   */
  lemma PlanPartition(p: nat, t: nat)
    requires p <= t
    ensures |Range(0, p)| == p && |Range(p, t)| == t - p
    ensures forall i :: i in Range(0, p) || i in Range(p, t) <==> 0 <= i < t
    ensures forall i :: !(i in Range(0, p) && i in Range(p, t))
  {
    forall i ensures (i in Range(0, p) || i in Range(p, t) <==> 0 <= i < t)
                  && !(i in Range(0, p) && i in Range(p, t))
    {
      InRange(i, 0, p);
      InRange(i, p, t);
    }
  }

  /**
   * A plan for segments of 3, 9, 15 and 14 residues sends the walk's flat
   * indices 0..11 to A, 12..40 to B, and 41 onwards nowhere.
   */
  lemma PlanExample()
    ensures var a, b := Range(0, 3 + 9), Range(3 + 9, 3 + 9 + 15 + 14);
            && DestinationOf(0, a, b) == ToChainA && DestinationOf(11, a, b) == ToChainA
            && DestinationOf(12, a, b) == ToChainB && DestinationOf(40, a, b) == ToChainB
            && DestinationOf(41, a, b) == Dropped
  {
    DestinationUnderPlan(0, 12, 41);
    DestinationUnderPlan(11, 12, 41);
    DestinationUnderPlan(12, 12, 41);
    DestinationUnderPlan(40, 12, 41);
    DestinationUnderPlan(41, 12, 41);
  }

  // ---------------------------------------------------------------------
  // The flat-index walk of relabel_pdb
  // ---------------------------------------------------------------------

  /** Where the walk sends a residue. */
  datatype Destination = ToChainA | ToChainB | Dropped

  /** The walk's test: A if the index is in A's list, else B if in B's, else nowhere. */
  function DestinationOf(i: int, chainAIdx: seq<int>, chainBIdx: seq<int>): Destination
  {
    if i in chainAIdx then ToChainA else if i in chainBIdx then ToChainB else Dropped
  }

  /** The residues of a model in flat order: chain after chain, residue after residue. */
  function Flatten<R>(model: seq<seq<R>>): seq<R>
    decreases |model|
  {
    if |model| == 0 then [] else Flatten(model[..|model| - 1]) + model[|model| - 1]
  }

  /** The residues of `flat` whose flat index has destination `d`, in flat order. */
  function Routed<R>(flat: seq<R>, chainAIdx: seq<int>, chainBIdx: seq<int>, d: Destination): seq<R>
    decreases |flat|
  {
    if |flat| == 0 then []
    else Routed(flat[..|flat| - 1], chainAIdx, chainBIdx, d)
         + (if DestinationOf(|flat| - 1, chainAIdx, chainBIdx) == d then [flat[|flat| - 1]] else [])
  }

  /**
   * The flat indices below n with destination d, ascending: every index
   * listed has that destination, none is listed twice, and none is missed.
   */
  function RoutedIndices(n: nat, chainAIdx: seq<int>, chainBIdx: seq<int>, d: Destination): (idx: seq<nat>)
    ensures forall k :: 0 <= k < |idx| ==> idx[k] < n && DestinationOf(idx[k], chainAIdx, chainBIdx) == d
    ensures forall j, k :: 0 <= j < k < |idx| ==> idx[j] < idx[k]
    ensures forall i :: 0 <= i < n && DestinationOf(i, chainAIdx, chainBIdx) == d ==> i in idx
  {
    if n == 0 then []
    else RoutedIndices(n - 1, chainAIdx, chainBIdx, d)
         + (if DestinationOf(n - 1, chainAIdx, chainBIdx) == d then [n - 1] else [])
  }

  /**
   * An output chain is the input residues at its routed indices, in that
   * order: the k-th residue routed to d is the residue at the k-th flat
   * index whose destination is d.
   */
  lemma {:induction false} RoutedGathers<R>(flat: seq<R>, chainAIdx: seq<int>, chainBIdx: seq<int>, d: Destination)
    ensures |Routed(flat, chainAIdx, chainBIdx, d)| == |RoutedIndices(|flat|, chainAIdx, chainBIdx, d)|
    ensures forall k :: 0 <= k < |Routed(flat, chainAIdx, chainBIdx, d)| ==>
              Routed(flat, chainAIdx, chainBIdx, d)[k] == flat[RoutedIndices(|flat|, chainAIdx, chainBIdx, d)[k]]
    decreases |flat|
  {
    if |flat| > 0 {
      var n := |flat|;
      var init := flat[..n - 1];
      RoutedGathers(init, chainAIdx, chainBIdx, d);
      assert forall i :: 0 <= i < n - 1 ==> init[i] == flat[i];
    }
  }

  /** No flat index is routed to both output chains. */
  lemma NoResidueInBothChains(n: nat, chainAIdx: seq<int>, chainBIdx: seq<int>)
    ensures forall i :: i in RoutedIndices(n, chainAIdx, chainBIdx, ToChainA) ==>
              i !in RoutedIndices(n, chainAIdx, chainBIdx, ToChainB)
  {
    var a := RoutedIndices(n, chainAIdx, chainBIdx, ToChainA);
    var b := RoutedIndices(n, chainAIdx, chainBIdx, ToChainB);
    forall i | i in a ensures i !in b {
      var k :| 0 <= k < |a| && a[k] == i;
      assert DestinationOf(i, chainAIdx, chainBIdx) == ToChainA;
    }
  }

  function Min(x: int, y: int): int { if x <= y then x else y }

  /** A slice of a prefix is the same slice of the whole sequence. */
  lemma PrefixSlice<R>(s: seq<R>, m: nat, i: nat, j: nat)
    requires i <= j <= m <= |s|
    ensures s[..m][i..j] == s[i..j]
    ensures j == m ==> s[..m][i..] == s[i..m]
  {
    assert forall k :: 0 <= k < j - i ==> s[..m][i..j][k] == s[i + k];
  }

  /** A suffix is its last element appended to the slice before it. */
  lemma SuffixSnoc<R>(s: seq<R>, i: nat)
    requires i < |s|
    ensures s[i..] == s[i..|s| - 1] + [s[|s| - 1]]
  {
    assert forall k :: 0 <= k < |s| - i ==> s[i..][k] == (s[i..|s| - 1] + [s[|s| - 1]])[k];
  }

  /** A slice extended by one element is the slice with that element appended. */
  lemma SliceSnoc<R>(s: seq<R>, i: nat, j: nat)
    requires i <= j < |s|
    ensures s[i..j + 1] == s[i..j] + [s[j]]
  {
    assert forall k :: 0 <= k < j + 1 - i ==> s[i..j + 1][k] == (s[i..j] + [s[j]])[k];
  }

  /** Under extract_plan's ranges the destination of an index is an interval test. */
  lemma DestinationUnderPlan(i: int, p: nat, t: nat)
    requires p <= t
    ensures DestinationOf(i, Range(0, p), Range(p, t))
            == if 0 <= i < p then ToChainA else if p <= i < t then ToChainB else Dropped
  {
    InRange(i, 0, p);
    InRange(i, p, t);
  }

  /**
   * Under extract_plan's ranges (A = [0, p), B = [p, t)) the walk is three
   * slices of the flat residues: A gets the first p, B the next t - p, and
   * every residue from flat index t on is dropped. Nothing is rejected when
   * the structure has more or fewer residues than the plan declares.
   */
  lemma {:induction false} RoutedToAUnderPlan<R>(flat: seq<R>, p: nat, t: nat)
    requires p <= t
    ensures Routed(flat, Range(0, p), Range(p, t), ToChainA) == flat[..Min(|flat|, p)]
    decreases |flat|
  {
    var n := |flat|;
    if n > 0 {
      var init := flat[..n - 1];
      RoutedToAUnderPlan(init, p, t);
      DestinationUnderPlan(n - 1, p, t);
      if n - 1 < p {
        assert init + [flat[n - 1]] == flat[..n];
      } else {
        assert init[..Min(n - 1, p)] == flat[..Min(n, p)];
      }
    }
  }

  lemma {:induction false} RoutedToBUnderPlan<R>(flat: seq<R>, p: nat, t: nat)
    requires p <= t
    ensures Routed(flat, Range(0, p), Range(p, t), ToChainB) == flat[Min(|flat|, p)..Min(|flat|, t)]
    decreases |flat|
  {
    var n := |flat|;
    if n > 0 {
      var init := flat[..n - 1];
      RoutedToBUnderPlan(init, p, t);
      DestinationUnderPlan(n - 1, p, t);
      if n - 1 < p {
        RoutedToBBefore(flat, p, t);
      } else if n - 1 < t {
        RoutedToBInside(flat, p, t);
      } else {
        RoutedToBAfter(flat, p, t);
      }
    }
  }

  /** The step of RoutedToBUnderPlan for a last residue before B's range. */
  lemma RoutedToBBefore<R>(flat: seq<R>, p: nat, t: nat)
    requires p <= t && 0 < |flat| <= p
    requires Routed(flat[..|flat| - 1], Range(0, p), Range(p, t), ToChainB) == flat[..|flat| - 1][|flat| - 1..|flat| - 1]
    ensures Routed(flat, Range(0, p), Range(p, t), ToChainB) == flat[Min(|flat|, p)..Min(|flat|, t)]
  {
    DestinationUnderPlan(|flat| - 1, p, t);
  }

  /** The step of RoutedToBUnderPlan for a last residue inside B's range. */
  lemma RoutedToBInside<R>(flat: seq<R>, p: nat, t: nat)
    requires p < |flat| <= t
    requires Routed(flat[..|flat| - 1], Range(0, p), Range(p, t), ToChainB) == flat[..|flat| - 1][p..|flat| - 1]
    ensures Routed(flat, Range(0, p), Range(p, t), ToChainB) == flat[Min(|flat|, p)..Min(|flat|, t)]
  {
    var n := |flat|;
    DestinationUnderPlan(n - 1, p, t);
    PrefixSlice(flat, n - 1, p, n - 1);
    SliceSnoc(flat, p, n - 1);
  }

  /** The step of RoutedToBUnderPlan for a last residue beyond B's range. */
  lemma RoutedToBAfter<R>(flat: seq<R>, p: nat, t: nat)
    requires p <= t < |flat|
    requires Routed(flat[..|flat| - 1], Range(0, p), Range(p, t), ToChainB) == flat[..|flat| - 1][p..t]
    ensures Routed(flat, Range(0, p), Range(p, t), ToChainB) == flat[Min(|flat|, p)..Min(|flat|, t)]
  {
    DestinationUnderPlan(|flat| - 1, p, t);
    PrefixSlice(flat, |flat| - 1, p, t);
  }

  lemma {:induction false} DroppedUnderPlan<R>(flat: seq<R>, p: nat, t: nat)
    requires p <= t
    ensures Routed(flat, Range(0, p), Range(p, t), Dropped) == flat[Min(|flat|, t)..]
    decreases |flat|
  {
    var n := |flat|;
    if n > 0 {
      var init := flat[..n - 1];
      DroppedUnderPlan(init, p, t);
      DestinationUnderPlan(n - 1, p, t);
      if n - 1 >= t {
        PrefixSlice(flat, n - 1, t, n - 1);
        SuffixSnoc(flat, t);
      }
    }
  }

  /**
   * The nested loops of relabel_pdb: `flatIdx` counts every residue of every
   * chain once, in model order, and each residue is appended to A, to B, or
   * to neither according to its flat index.
   */
  method RelabelWalk<R>(model: seq<seq<R>>, chainAIdx: seq<int>, chainBIdx: seq<int>)
    returns (chainA: seq<R>, chainB: seq<R>, flatIdx: nat)
    ensures flatIdx == |Flatten(model)|
    ensures chainA == Routed(Flatten(model), chainAIdx, chainBIdx, ToChainA)
    ensures chainB == Routed(Flatten(model), chainAIdx, chainBIdx, ToChainB)
  {
    chainA, chainB, flatIdx := [], [], 0;
    var c := 0;
    while c < |model|
      invariant 0 <= c <= |model|
      invariant flatIdx == |Flatten(model[..c])|
      invariant chainA == Routed(Flatten(model[..c]), chainAIdx, chainBIdx, ToChainA)
      invariant chainB == Routed(Flatten(model[..c]), chainAIdx, chainBIdx, ToChainB)
    {
      var done := Flatten(model[..c]);
      var ch := model[c];
      var r := 0;
      assert done + ch[..0] == done;
      while r < |ch|
        invariant 0 <= r <= |ch|
        invariant flatIdx == |done| + r
        invariant chainA == Routed(done + ch[..r], chainAIdx, chainBIdx, ToChainA)
        invariant chainB == Routed(done + ch[..r], chainAIdx, chainBIdx, ToChainB)
      {
        var next := done + ch[..r + 1];
        assert next[..|next| - 1] == done + ch[..r];
        assert next[|next| - 1] == ch[r];
        if flatIdx in chainAIdx {
          chainA := chainA + [ch[r]];
        } else if flatIdx in chainBIdx {
          chainB := chainB + [ch[r]];
        }
        flatIdx := flatIdx + 1;
        r := r + 1;
      }
      assert model[..c + 1][..c] == model[..c];
      assert ch[..|ch|] == ch;
      c := c + 1;
    }
    assert model[..|model|] == model;
  }

  /** One chain of the output structure. */
  datatype OutputChain<R> = OutputChain(id: char, residues: seq<R>)

  /**
   * relabel_pdb without its file I/O: filter the lines, hand the atom lines
   * to the parser, walk the first model, and build a model holding chain A
   * followed by chain B and nothing else.
   */
  method RelabelPdb<R>(lines: seq<string>, parse: seq<string> -> seq<seq<R>>,
                       chainAIdx: seq<int>, chainBIdx: seq<int>)
    returns (newModel: seq<OutputChain<R>>)
    ensures var flat := Flatten(parse(AtomLines(lines)));
            newModel == [OutputChain('A', Routed(flat, chainAIdx, chainBIdx, ToChainA)),
                         OutputChain('B', Routed(flat, chainAIdx, chainBIdx, ToChainB))]
  {
    var handle := CleanPdbForParsing(lines);
    var model := parse(handle);
    var chainA, chainB, _ := RelabelWalk(model, chainAIdx, chainBIdx);
    newModel := [OutputChain('A', chainA), OutputChain('B', chainB)];
  }

  /**
   * The body of main's try block: plan, then relabel. It fails only on a
   * segment count other than four; otherwise chain A is the first L0+L1
   * parsed residues, chain B the next L2+L3, and any surplus is dropped.
   */
  method Relabel<R>(lines: seq<string>, parse: seq<string> -> seq<seq<R>>, chainseq: string)
    returns (r: Result<seq<OutputChain<R>>, PlanError>)
    ensures r.Failure? <==> |Split(chainseq, '/')| != 4
    ensures r.Failure? ==> r.error == WrongSegmentCount(|Split(chainseq, '/')|)
    ensures r.Success? ==>
              var l := SegmentLengths(chainseq);
              var flat := Flatten(parse(AtomLines(lines)));
              var p := l[0] + l[1];
              var t := p + l[2] + l[3];
              r.value == [OutputChain('A', flat[..Min(|flat|, p)]),
                          OutputChain('B', flat[Min(|flat|, p)..Min(|flat|, t)])]
  {
    var plan := ExtractPlan(chainseq);
    if plan.Failure? {
      return Failure(plan.error);
    }
    var newModel := RelabelPdb(lines, parse, plan.value.chainA, plan.value.chainB);
    ghost var l := SegmentLengths(chainseq);
    ghost var flat := Flatten(parse(AtomLines(lines)));
    RoutedToAUnderPlan(flat, l[0] + l[1], l[0] + l[1] + l[2] + l[3]);
    RoutedToBUnderPlan(flat, l[0] + l[1], l[0] + l[1] + l[2] + l[3]);
    r := Success(newModel);
  }

  // ---------------------------------------------------------------------
  // extract_prefix_from_relaxed_name
  // ---------------------------------------------------------------------

  /** An occurrence at j >= 1 is an occurrence at j - 1 in the tail. */
  lemma OccursAtTail(s: string, pattern: string, j: nat)
    requires 1 <= j <= |s|
    ensures OccursAt(s, pattern, j) == OccursAt(s[1..], pattern, j - 1)
  {
    assert s[j..] == s[1..][j - 1..];
  }

  /**
   * `name.split("_run_")[0]`: the part of the name before the first
   * `_run_`, or the whole name when it has none.
   */
  function ExtractPrefix(name: string): (prefix: string)
    ensures |prefix| <= |name| && prefix == name[..|prefix|]
    ensures forall j: nat :: j < |prefix| ==> !OccursAt(name, "_run_", j)
    ensures |prefix| == |name| || OccursAt(name, "_run_", |prefix|)
    decreases |name|
  {
    if StartsWith(name, "_run_") then
      assert name[0..] == name;
      ""
    else if |name| == 0 then ""
    else
      var rest := ExtractPrefix(name[1..]);
      assert name[0..] == name;
      assert forall j: nat :: 1 <= j <= |name| ==> OccursAt(name, "_run_", j) == OccursAt(name[1..], "_run_", j - 1) by {
        forall j: nat | 1 <= j <= |name| {
          OccursAtTail(name, "_run_", j);
        }
      }
      [name[0]] + rest
  }

  /** A name made of an underscore-free stem, `_run_` and anything else gives back the stem. */
  lemma ExtractPrefixOfRunName(stem: string, rest: string)
    requires '_' !in stem
    ensures ExtractPrefix(stem + "_run_" + rest) == stem
  {
    var name := stem + "_run_" + rest;
    var prefix := ExtractPrefix(name);
    assert name[|stem|..][..5] == "_run_";
    assert OccursAt(name, "_run_", |stem|);
    forall j: nat | j < |stem| ensures !OccursAt(name, "_run_", j) {
      assert name[j..][0] == name[j] == stem[j];
    }
    assert |prefix| == |stem|;
    assert name[..|stem|] == stem;
  }

  /** The documented example. */
  lemma ExtractPrefixExample()
    ensures ExtractPrefix("10839_run_model_2_ptm_relaxed") == "10839"
  {
    assert "10839_run_model_2_ptm_relaxed" == "10839" + "_run_" + "model_2_ptm_relaxed";
    ExtractPrefixOfRunName("10839", "model_2_ptm_relaxed");
  }
}
