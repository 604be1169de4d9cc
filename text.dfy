/** The Python string operations the scripts rely on, on `seq<char>`. */
module Text {

  /** `s.startswith(prefix)` */
  predicate StartsWith(s: string, prefix: string)
  {
    |prefix| <= |s| && s[..|prefix|] == prefix
  }

  /** Number of occurrences of the character `c` in `s`. */
  function Count(s: string, c: char): nat
  {
    if |s| == 0 then 0 else (if s[0] == c then 1 else 0) + Count(s[1..], c)
  }

  /** `sep.join(parts)` for a one-character separator. */
  function Join(parts: seq<string>, sep: char): string
  {
    if |parts| == 0 then ""
    else if |parts| == 1 then parts[0]
    else parts[0] + [sep] + Join(parts[1..], sep)
  }

  /**
   * `s.split(sep)` for a one-character separator: one piece more than there
   * are separators, no piece holds the separator, and joining the pieces
   * back with the separator gives `s` again.
   */
  function Split(s: string, sep: char): (parts: seq<string>)
    ensures |parts| == Count(s, sep) + 1
    ensures forall i :: 0 <= i < |parts| ==> sep !in parts[i]
    ensures Join(parts, sep) == s
    decreases |s|
  {
    if |s| == 0 then [""]
    else
      var rest := Split(s[1..], sep);
      if s[0] == sep then
        assert Join([""] + rest, sep) == [sep] + Join(rest, sep) by {
          assert ([""] + rest)[1..] == rest;
        }
        assert s == [sep] + s[1..];
        [""] + rest
      else
        var parts := [[s[0]] + rest[0]] + rest[1..];
        assert parts[1..] == rest[1..];
        assert Join(parts, sep) == s by {
          if |rest| == 1 {
            assert s == [s[0]] + s[1..];
          } else {
            assert Join(rest, sep) == rest[0] + [sep] + Join(rest[1..], sep);
            assert s == [s[0]] + s[1..];
          }
        }
        parts
  }

  /** `pattern` occurs in `s` starting at index `i`. */
  predicate OccursAt(s: string, pattern: string, i: nat)
  {
    i <= |s| && StartsWith(s[i..], pattern)
  }

  /** `needle in hay`: some position of `hay` starts with `needle`. */
  predicate Contains(hay: string, needle: string)
    decreases |hay|
  {
    StartsWith(hay, needle) || (|hay| > 0 && Contains(hay[1..], needle))
  }

  /** `Contains` agrees with "the needle occurs at some index of the haystack". */
  lemma {:induction false} ContainsIff(hay: string, needle: string)
    ensures Contains(hay, needle) <==> exists i: nat :: i <= |hay| && OccursAt(hay, needle, i)
    decreases |hay|
  {
    if |hay| > 0 {
      ContainsIff(hay[1..], needle);
      if Contains(hay[1..], needle) {
        var i: nat :| i <= |hay[1..]| && OccursAt(hay[1..], needle, i);
        assert hay[1..][i..] == hay[i + 1..];
        assert OccursAt(hay, needle, i + 1);
      }
      if exists i: nat :: i <= |hay| && OccursAt(hay, needle, i) {
        var i: nat :| i <= |hay| && OccursAt(hay, needle, i);
        if i > 0 {
          assert hay[1..][i - 1..] == hay[i..];
          assert OccursAt(hay[1..], needle, i - 1);
        } else {
          assert hay[0..] == hay;
        }
      }
    }
    if StartsWith(hay, needle) {
      assert hay[0..] == hay;
      assert OccursAt(hay, needle, 0);
    }
    if |hay| == 0 && exists i: nat :: i <= |hay| && OccursAt(hay, needle, i) {
      var i: nat :| i <= |hay| && OccursAt(hay, needle, i);
      assert hay[i..] == hay;
    }
  }

  /** `c.lower()` on the ASCII letters; every other character is unchanged. */
  function LowerChar(c: char): (r: char)
    ensures 'A' <= c <= 'Z' ==> 'a' <= r <= 'z' && r as int - c as int == 32
    ensures !('A' <= c <= 'Z') ==> r == c
  {
    if 'A' <= c <= 'Z' then (c as int + 32) as char else c
  }

  /**
   * `s.lower()`: the length is kept, no upper-case letter is left, and the
   * only characters that change are upper-case letters, each to its
   * lower-case partner.
   */
  function ToLower(s: string): (r: string)
    ensures |r| == |s|
    ensures forall i :: 0 <= i < |r| ==> !('A' <= r[i] <= 'Z')
    ensures forall i :: 0 <= i < |s| ==> r[i] == s[i] || ('A' <= s[i] <= 'Z' && r[i] as int == s[i] as int + 32)
  {
    seq(|s|, i requires 0 <= i < |s| => LowerChar(s[i]))
  }

  /** Lowering twice is lowering once. */
  lemma ToLowerIdempotent(s: string)
    ensures ToLower(ToLower(s)) == ToLower(s)
  {
    var once := ToLower(s);
    assert forall i :: 0 <= i < |once| ==> ToLower(once)[i] == once[i];
  }
}
