/**
 * normalize_hla of scripts/01_generate_targets.py: rewrite an HLA class I
 * allele name as found in VDJdb (`HLA-A0201`, `HLA-B*0801`, `B0702`,
 * `HLA-A*02:01`) into the `A*02:01` form TCRdock expects, or fail.
 *
 * The regular expressions are written out as predicates on the string.
 * `\d` is the ASCII digits; `$` (no MULTILINE flag) matches at the end of
 * the string or just before a final newline, as in Python's `re`.
 */
module HlaAlleles {
  import opened Wrappers
  import opened Text

  /** The ValueError normalize_hla raises, with the string it could not read. */
  datatype HlaError = UnrecognizedFormat(text: string)

  /**
   * The characters `str.strip()` removes (Python's `str.isspace`): the ASCII
   * whitespace among them, and none of the characters allele names are
   * written with.
   */
  predicate IsSpace(c: char)
    ensures c == ' ' || c == '\t' || c == '\n' || c == '\r' ==> IsSpace(c)
    ensures IsSpace(c) ==> !IsDigit(c) && !IsLocus(c) && !('a' <= c <= 'z') && c !in "*:-_H"
  {
    || c == ' ' || '\t' <= c <= '\r' || '\U{1C}' <= c <= '\U{1F}'
    || c == '\U{85}' || c == '\U{A0}' || c == '\U{1680}' || '\U{2000}' <= c <= '\U{200A}'
    || c == '\U{2028}' || c == '\U{2029}' || c == '\U{202F}' || c == '\U{205F}' || c == '\U{3000}'
  }

  /** Drop trailing whitespace: the longest prefix that does not end in a space. */
  function TrimEnd(s: string): (r: string)
    ensures |r| <= |s| && r == s[..|r|]
    ensures forall k :: |r| <= k < |s| ==> IsSpace(s[k])
    ensures r == [] || !IsSpace(r[|r| - 1])
  {
    if |s| == 0 || !IsSpace(s[|s| - 1]) then s else TrimEnd(s[..|s| - 1])
  }

  /** Drop leading whitespace: the longest suffix that does not start with a space. */
  function TrimStart(s: string): (r: string)
    ensures |r| <= |s| && r == s[|s| - |r|..]
    ensures forall k :: 0 <= k < |s| - |r| ==> IsSpace(s[k])
    ensures r == [] || !IsSpace(r[0])
  {
    if |s| == 0 || !IsSpace(s[0]) then s else TrimStart(s[1..])
  }

  /** `str(raw).strip()` */
  function Strip(s: string): (r: string)
    ensures r == [] || (!IsSpace(r[0]) && !IsSpace(r[|r| - 1]))
  {
    TrimStart(TrimEnd(s))
  }

  /**
   * Strip cuts whitespace, and only whitespace, from both ends: its result
   * is the slice of `s` that starts at `i`, everything before `i` and
   * everything after the slice being whitespace.
   */
  lemma StripSurrounding(s: string) returns (i: nat)
    ensures i + |Strip(s)| <= |s| && Strip(s) == s[i..i + |Strip(s)|]
    ensures forall k :: 0 <= k < i ==> IsSpace(s[k])
    ensures forall k :: i + |Strip(s)| <= k < |s| ==> IsSpace(s[k])
  {
    var e := TrimEnd(s);
    var r := TrimStart(e);
    i := |e| - |r|;
    assert e == s[..|e|];
    assert r == s[i..i + |r|];
    assert forall k :: 0 <= k < i ==> s[k] == e[k];
  }

  /** A string that neither starts nor ends with whitespace is its own strip. */
  lemma StripUnchanged(s: string)
    requires s == [] || (!IsSpace(s[0]) && !IsSpace(s[|s| - 1]))
    ensures Strip(s) == s
  {
  }

  /** Every character of `w` is whitespace. */
  predicate AllSpace(w: string)
  {
    forall k :: 0 <= k < |w| ==> IsSpace(w[k])
  }

  /** Trailing whitespace after a name that does not end in whitespace is cut off. */
  lemma {:induction false} TrimEndSpace(s: string, w: string)
    requires s != [] && !IsSpace(s[|s| - 1]) && AllSpace(w)
    ensures TrimEnd(s + w) == s
    decreases |w|
  {
    if w == [] {
      assert s + w == s;
    } else {
      var w' := w[..|w| - 1];
      assert (s + w)[..|s + w| - 1] == s + w';
      TrimEndSpace(s, w');
    }
  }

  /** Leading whitespace before a name that does not start with whitespace is cut off. */
  lemma {:induction false} TrimStartSpace(w: string, s: string)
    requires s != [] && !IsSpace(s[0]) && AllSpace(w)
    ensures TrimStart(w + s) == s
    decreases |w|
  {
    if w == [] {
      assert w + s == s;
    } else {
      assert (w + s)[1..] == w[1..] + s;
      TrimStartSpace(w[1..], s);
    }
  }

  /**
   * Whitespace around a name is stripped before anything else, so a name
   * padded with whitespace on either side normalizes, or fails, exactly as
   * the name itself does.
   */
  lemma WhitespaceIgnored(w1: string, s: string, w2: string)
    requires AllSpace(w1) && AllSpace(w2)
    requires s != [] && !IsSpace(s[0]) && !IsSpace(s[|s| - 1])
    ensures NormalizeHla(w1 + s + w2) == NormalizeHla(s)
  {
    var ws := w1 + s;
    assert ws != [] && ws[|ws| - 1] == s[|s| - 1];
    TrimEndSpace(ws, w2);
    TrimStartSpace(w1, s);
    StripUnchanged(s);
  }

  /** `re.sub(r'^(HLA[-_])', '', s)`: remove one leading `HLA-` or `HLA_`. */
  function RemoveHlaPrefix(s: string): (r: string)
    ensures StartsWith(s, "HLA-") || StartsWith(s, "HLA_") ==> r == s[4..]
    ensures !(StartsWith(s, "HLA-") || StartsWith(s, "HLA_")) ==> r == s
    ensures r == [] || r[|r| - 1] == s[|s| - 1]
  {
    if StartsWith(s, "HLA-") || StartsWith(s, "HLA_") then s[4..] else s
  }

  /** `\d`, ASCII only. */
  predicate IsDigit(c: char) { '0' <= c <= '9' }

  /** `[ABCE]`: the class I loci the pipeline accepts. */
  predicate IsLocus(c: char) { c == 'A' || c == 'B' || c == 'C' || c == 'E' }

  /** `$` after k characters matched: the end of `s`, or just before a final newline. */
  predicate EndsAt(s: string, k: nat)
  {
    k == |s| || (k + 1 == |s| && s[k] == '\n')
  }

  /** `^[ABCE]\*\d{2}:\d{2}$`: a name in the target form, then the end or a final newline. */
  predicate MatchesColonForm(s: string)
    ensures MatchesColonForm(s) <==> |s| >= 7 && IsNormalized(s[..7]) && EndsAt(s, 7)
  {
    |s| >= 7 && IsLocus(s[0]) && s[1] == '*' && IsDigit(s[2]) && IsDigit(s[3])
    && s[4] == ':' && IsDigit(s[5]) && IsDigit(s[6]) && EndsAt(s, 7)
  }

  /** `^([ABCE])(\d{2})(\d{2})$`: five characters, or six with a final newline; the rewrite is in target form. */
  predicate MatchesCompactForm(s: string)
    ensures MatchesCompactForm(s) ==> (|s| == 5 || (|s| == 6 && s[5] == '\n'))
    ensures MatchesCompactForm(s) ==> IsNormalized(Format(s[0], s[1], s[2], s[3], s[4]))
  {
    |s| >= 5 && IsLocus(s[0]) && IsDigit(s[1]) && IsDigit(s[2]) && IsDigit(s[3])
    && IsDigit(s[4]) && EndsAt(s, 5)
  }

  /** `^([ABCE])\*(\d{2})(\d{2})$`: six characters, or seven with a final newline; the rewrite is in target form. */
  predicate MatchesStarForm(s: string)
    ensures MatchesStarForm(s) ==> (|s| == 6 || (|s| == 7 && s[6] == '\n'))
    ensures MatchesStarForm(s) ==> IsNormalized(Format(s[0], s[2], s[3], s[4], s[5]))
  {
    |s| >= 6 && IsLocus(s[0]) && s[1] == '*' && IsDigit(s[2]) && IsDigit(s[3])
    && IsDigit(s[4]) && IsDigit(s[5]) && EndsAt(s, 6)
  }

  /** The target form, exactly: locus, `*`, two digits, `:`, two digits, nothing more. */
  predicate IsNormalized(s: string)
  {
    |s| == 7 && IsLocus(s[0]) && s[1] == '*' && IsDigit(s[2]) && IsDigit(s[3])
    && s[4] == ':' && IsDigit(s[5]) && IsDigit(s[6])
  }

  /** The string the patterns are matched against: stripped, then without the prefix. */
  function Prepared(raw: string): (s: string)
    ensures s == [] || !IsSpace(s[|s| - 1])
  {
    var stripped := Strip(raw);
    var s := RemoveHlaPrefix(stripped);
    assert s != [] ==> s[|s| - 1] == stripped[|stripped| - 1];
    s
  }

  /** `f"{locus}*{d1}{d2}:{d3}{d4}"` */
  function Format(locus: char, d1: char, d2: char, d3: char, d4: char): string
  {
    [locus, '*', d1, d2, ':', d3, d4]
  }

  /**
   * The tests of normalize_hla on the prepared string, in the source's
   * order. The source has a fourth test after the third with exactly the
   * pattern of the second; it is only reached once that pattern has failed,
   * so it never succeeds and has no branch here. As the prepared string does
   * not end in whitespace, `$` can only match at its very end.
   */
  function MatchAllele(s: string): (r: Result<string, HlaError>)
    requires s == [] || !IsSpace(s[|s| - 1])
    ensures r.Success? ==> IsNormalized(r.value)
    ensures r.Failure? <==> !(IsNormalized(s) || (|s| == 5 && MatchesCompactForm(s)) || (|s| == 6 && MatchesStarForm(s)))
    ensures r.Failure? ==> r.error == UnrecognizedFormat(s)
  {
    if MatchesColonForm(s) then Success(s)
    else if MatchesCompactForm(s) then Success(Format(s[0], s[1], s[2], s[3], s[4]))
    else if MatchesStarForm(s) then Success(Format(s[0], s[2], s[3], s[4], s[5]))
    else Failure(UnrecognizedFormat(s))
  }

  /** normalize_hla: strip, drop the `HLA-`/`HLA_` prefix, then match. */
  function NormalizeHla(raw: string): (r: Result<string, HlaError>)
    ensures r.Success? ==> IsNormalized(r.value)
    ensures r.Failure? <==> !(IsNormalized(Prepared(raw))
                              || (|Prepared(raw)| == 5 && MatchesCompactForm(Prepared(raw)))
                              || (|Prepared(raw)| == 6 && MatchesStarForm(Prepared(raw))))
    ensures r.Failure? ==> r.error == UnrecognizedFormat(Prepared(raw))
  {
    MatchAllele(Prepared(raw))
  }

  /** A prepared string already in the target form is the result. */
  lemma NormalizePreparedNormalized(raw: string)
    requires IsNormalized(Prepared(raw))
    ensures NormalizeHla(raw) == Success(Prepared(raw))
  {
  }

  /** `HLA-` or `HLA_` in front of a string in the target form is what the prefix removal takes off. */
  lemma RemovePrefixOfNormalized(s: string, prefix: string)
    requires IsNormalized(s)
    requires prefix in {"", "HLA-", "HLA_"}
    ensures RemoveHlaPrefix(prefix + s) == s
  {
    if prefix == "" {
      assert prefix + s == s;
    } else {
      assert (prefix + s)[4..] == s;
      assert StartsWith(prefix + s, prefix) by {
        assert (prefix + s)[..4] == prefix;
      }
    }
  }

  /** A name already in the target form, bare or behind `HLA-`/`HLA_`, comes back unchanged. */
  lemma NormalizedUnchanged(s: string, prefix: string)
    requires IsNormalized(s)
    requires prefix in {"", "HLA-", "HLA_"}
    ensures NormalizeHla(prefix + s) == Success(s)
  {
    var raw := prefix + s;
    assert raw[0] == (if prefix == "" then s[0] else 'H');
    assert raw[|raw| - 1] == s[6];
    RemovePrefixOfNormalized(s, prefix);
    PreparedWithoutSpace(raw, s);
    NormalizePreparedNormalized(raw);
  }

  /**
   * One `HLA-` or `HLA_` in front of a trimmed name changes nothing: the
   * name normalizes, or fails, exactly as it does bare.
   */
  lemma PrefixIgnored(prefix: string, s: string)
    requires prefix in {"HLA-", "HLA_"}
    requires s == [] || (!IsSpace(s[0]) && !IsSpace(s[|s| - 1]))
    requires !StartsWith(s, "HLA-") && !StartsWith(s, "HLA_")
    ensures NormalizeHla(prefix + s) == NormalizeHla(s)
  {
    var raw := prefix + s;
    assert raw[0] == 'H' && raw[|raw| - 1] == (if s == [] then prefix[3] else s[|s| - 1]);
    assert StartsWith(raw, prefix) by {
      assert raw[..4] == prefix;
    }
    assert raw[4..] == s;
    PreparedWithoutSpace(raw, s);
    if s != [] {
      PreparedWithoutSpace(s, s);
    }
  }

  /** normalize_hla is idempotent: a result normalizes to itself. */
  lemma NormalizeIdempotent(raw: string)
    ensures NormalizeHla(raw).Success? ==> NormalizeHla(NormalizeHla(raw).value) == NormalizeHla(raw)
  {
    if NormalizeHla(raw).Success? {
      var s := NormalizeHla(raw).value;
      NormalizedUnchanged(s, "");
      assert "" + s == s;
    }
  }

  /** A locus letter and four digits becomes `letter*dd:dd`, the digits in input order. */
  lemma CompactFormDigits(raw: string)
    requires |Prepared(raw)| == 5 && MatchesCompactForm(Prepared(raw))
    ensures var s := Prepared(raw);
            NormalizeHla(raw) == Success([s[0], '*', s[1], s[2], ':', s[3], s[4]])
  {
  }

  /** A locus letter, `*` and four digits becomes `letter*dd:dd`, the digits in input order. */
  lemma StarFormDigits(raw: string)
    requires |Prepared(raw)| == 6 && MatchesStarForm(Prepared(raw))
    ensures var s := Prepared(raw);
            NormalizeHla(raw) == Success([s[0], '*', s[2], s[3], ':', s[4], s[5]])
  {
  }

  /** A name without surrounding whitespace that does not start with `H` is its own prepared string. */
  lemma PreparedBare(raw: string)
    requires raw != [] && raw[0] != 'H' && !IsSpace(raw[0]) && !IsSpace(raw[|raw| - 1])
    ensures Prepared(raw) == raw
  {
    StripUnchanged(raw);
    if |raw| >= 4 {
      assert raw[..4][0] == raw[0];
    }
  }

  /** For a name without surrounding whitespace, only the prefix removal is left. */
  lemma PreparedWithoutSpace(raw: string, s: string)
    requires raw != [] && !IsSpace(raw[0]) && !IsSpace(raw[|raw| - 1])
    requires s == RemoveHlaPrefix(raw)
    ensures Prepared(raw) == s
  {
    StripUnchanged(raw);
  }

  /** The docstring's examples without a `*`: the digits are split into two pairs. */
  lemma DocumentedCompactExamples()
    ensures NormalizeHla("HLA-A0201") == Success("A*02:01")
    ensures NormalizeHla("B0702") == Success("B*07:02")
  {
    assert StartsWith("HLA-A0201", "HLA-");
    PreparedWithoutSpace("HLA-A0201", "A0201");
    PreparedBare("B0702");
  }

  /** The docstring's examples with a `*`: a colon is inserted, or the name is already normalized. */
  lemma DocumentedStarExamples()
    ensures NormalizeHla("HLA-B*0801") == Success("B*08:01")
    ensures NormalizeHla("HLA-A*02:01") == Success("A*02:01")
  {
    assert StartsWith("HLA-B*0801", "HLA-");
    PreparedWithoutSpace("HLA-B*0801", "B*0801");
    assert "HLA-" + "A*02:01" == "HLA-A*02:01";
    NormalizedUnchanged("A*02:01", "HLA-");
  }

  /** A locus other than A, B, C, E and a lower-case locus raise. */
  lemma RejectedLocusExamples()
    ensures NormalizeHla("HLA-D0101") == Failure(UnrecognizedFormat("D0101"))
    ensures NormalizeHla("a*02:01") == Failure(UnrecognizedFormat("a*02:01"))
  {
    assert StartsWith("HLA-D0101", "HLA-");
    PreparedWithoutSpace("HLA-D0101", "D0101");
    PreparedBare("a*02:01");
  }

  /** Too few or too many digits raise. */
  lemma RejectedLengthExamples()
    ensures NormalizeHla("A*020") == Failure(UnrecognizedFormat("A*020"))
    ensures NormalizeHla("A020101") == Failure(UnrecognizedFormat("A020101"))
  {
    PreparedBare("A*020");
    PreparedBare("A020101");
  }
}
