/** String operations of the JavaScript runtime that the compilers rely on:
    `startsWith`, `replace` with a string pattern, `Array.prototype.join`,
    `String.prototype.split` with a non-empty separator, and decimal digits.
 */
module Text {
  import opened Wrappers

  predicate StartsWith(s: string, prefix: string) {
    prefix <= s
  }

  /** `pat` occurs in `s` starting at index `i`. */
  predicate OccursAt(s: string, pat: string, i: nat) {
    i + |pat| <= |s| && s[i..i + |pat|] == pat
  }

  predicate Contains(s: string, pat: string) {
    exists i: nat | i <= |s| :: OccursAt(s, pat, i)
  }

  /** The first index at or after `from` where `pat` occurs. */
  function IndexFrom(s: string, pat: string, from: nat): (r: Option<nat>)
    decreases |s| - from
    ensures r.Some? ==> from <= r.value && OccursAt(s, pat, r.value)
    ensures r.Some? ==> forall j: nat :: from <= j < r.value ==> !OccursAt(s, pat, j)
    ensures r.None? ==> forall j: nat :: from <= j ==> !OccursAt(s, pat, j)
  {
    if from + |pat| > |s| then None
    else if OccursAt(s, pat, from) then Some(from)
    else IndexFrom(s, pat, from + 1)
  }

  function IndexOf(s: string, pat: string): (r: Option<nat>)
    ensures r.None? <==> !Contains(s, pat)
    ensures r.Some? ==> OccursAt(s, pat, r.value)
    ensures r.Some? ==> forall j: nat :: j < r.value ==> !OccursAt(s, pat, j)
  {
    IndexFrom(s, pat, 0)
  }

  /** `s.replace(pat, rep)` for a string pattern: only the first occurrence is
      replaced. The replacement strings used by the compilers contain no `$`,
      so JavaScript's replacement patterns never apply. */
  function ReplaceFirst(s: string, pat: string, rep: string): (r: string)
    ensures !Contains(s, pat) ==> r == s
    ensures Contains(s, pat) ==> |r| == |s| - |pat| + |rep|
    ensures StartsWith(s, pat) ==> r == rep + s[|pat|..]
    ensures Contains(s, pat) ==>
      r == s[..IndexOf(s, pat).value] + rep + s[IndexOf(s, pat).value + |pat|..]
  {
    match IndexOf(s, pat)
    case None => s
    case Some(i) =>
      assert StartsWith(s, pat) ==> OccursAt(s, pat, 0);
      s[..i] + rep + s[i + |pat|..]
  }

  /** `parts.join(sep)`. */
  function Join(parts: seq<string>, sep: string): string
  {
    if |parts| == 0 then ""
    else if |parts| == 1 then parts[0]
    else parts[0] + sep + Join(parts[1..], sep)
  }

  /** `s.split(sep)` for a non-empty separator: the pieces between successive
      left-most occurrences of `sep`. */
  function Split(s: string, sep: string): (r: seq<string>)
    requires |sep| > 0
    decreases |s|
    ensures |r| >= 1
    ensures Contains(s, sep) <==> |r| > 1
  {
    match IndexOf(s, sep)
    case None => [s]
    case Some(i) => [s[..i]] + Split(s[i + |sep|..], sep)
  }

  /** No proper prefix of `sep` is also a suffix of it, so two occurrences of
      `sep` can never overlap. */
  predicate Borderless(sep: string) {
    forall m: nat :: 0 < m < |sep| ==> sep[..m] != sep[|sep| - m..]
  }

  /** In `p + sep + t`, with `p` free of `sep`, the left-most occurrence of a
      borderless `sep` is the one right after `p`. */
  lemma {:induction false} FirstOccurrenceAfter(p: string, sep: string, t: string)
    requires |sep| > 0 && Borderless(sep) && !Contains(p, sep)
    ensures IndexOf(p + sep + t, sep) == Some(|p|)
  {
    var s := p + sep + t;
    assert s[|p|..|p| + |sep|] == sep;
    assert OccursAt(s, sep, |p|);
    forall j: nat | j < |p|
      ensures !OccursAt(s, sep, j)
    {
      if j + |sep| <= |p| {
        assert s[j..j + |sep|] == p[j..j + |sep|];
        assert !OccursAt(p, sep, j);
      } else {
        // an occurrence straddling the end of p would make its tail a border of sep
        var k := |p| - j;
        var m := |sep| - k;
        var w := s[j..j + |sep|];
        assert w[k..] == sep[..m];
        assert sep[..m] != sep[k..];
        assert w[k..] != sep[k..];
      }
    }
  }

  /** Splitting a join on a borderless separator recovers the parts, provided
      no part contains the separator. */
  lemma {:induction false} SplitJoin(parts: seq<string>, sep: string)
    requires |sep| > 0 && Borderless(sep) && |parts| > 0
    requires forall k :: 0 <= k < |parts| ==> !Contains(parts[k], sep)
    ensures Split(Join(parts, sep), sep) == parts
  {
    if |parts| == 1 {
      assert Join(parts, sep) == parts[0];
    } else {
      var t := Join(parts[1..], sep);
      assert Join(parts, sep) == parts[0] + sep + t;
      FirstOccurrenceAfter(parts[0], sep, t);
      var s := parts[0] + sep + t;
      assert s[..|parts[0]|] == parts[0];
      assert s[|parts[0]| + |sep|..] == t;
      SplitJoin(parts[1..], sep);
      assert [parts[0]] + parts[1..] == parts;
    }
  }

  /** A one-character pattern occurs exactly when the character does. */
  lemma ContainsChar(s: string, c: char)
    ensures Contains(s, [c]) <==> c in s
  {
    if c in s {
      var i :| 0 <= i < |s| && s[i] == c;
      assert s[i..i + 1] == [c];
      assert OccursAt(s, [c], i);
    }
    if Contains(s, [c]) {
      var i: nat :| i <= |s| && OccursAt(s, [c], i);
      assert s[i] == s[i..i + 1][0];
    }
  }

  /** A character in neither the parts nor the separator is not in the join. */
  lemma {:induction false} JoinAvoids(parts: seq<string>, sep: string, c: char)
    requires c !in sep
    requires forall k :: 0 <= k < |parts| ==> c !in parts[k]
    ensures c !in Join(parts, sep)
  {
    if |parts| > 1 {
      JoinAvoids(parts[1..], sep, c);
    }
  }

  /** In `p + [c] + t`, with `c` not in `p`, the first `c` is right after `p`. */
  lemma FirstAfterPrefix(p: string, c: char, t: string)
    requires c !in p
    ensures IndexOf(p + [c] + t, [c]) == Some(|p|)
  {
    ContainsChar(p, c);
    FirstOccurrenceAfter(p, [c], t);
  }

  /** `p + [c] + t`, with `c` not in `p`, cut at its first `c` gives back
      `p` and `t`. */
  lemma SplitAtFirst(p: string, c: char, t: string)
    requires c !in p
    ensures IndexOf(p + [c] + t, [c]) == Some(|p|)
    ensures (p + [c] + t)[..|p|] == p && (p + [c] + t)[|p| + 1..] == t
  {
    FirstAfterPrefix(p, c, t);
  }

  /** The first occurrence of a one-character pattern is the first position
      holding that character. */
  lemma FirstChar(s: string, c: char)
    ensures Contains(s, [c]) ==>
      var i := IndexOf(s, [c]).value; i < |s| && s[i] == c && c !in s[..i]
  {
    if Contains(s, [c]) {
      var i := IndexOf(s, [c]).value;
      assert s[i] == s[i..i + 1][0];
      if c in s[..i] {
        var j :| 0 <= j < i && s[..i][j] == c;
        assert s[j..j + 1] == [c];
        assert OccursAt(s, [c], j);
      }
    }
  }

  /** Splitting a join on a single character recovers the parts when none of
      them contains that character. */
  lemma SplitJoinChar(parts: seq<string>, c: char)
    requires |parts| > 0
    requires forall k :: 0 <= k < |parts| ==> c !in parts[k]
    ensures Split(Join(parts, [c]), [c]) == parts
  {
    forall k | 0 <= k < |parts|
      ensures !Contains(parts[k], [c])
    {
      ContainsChar(parts[k], c);
    }
    SplitJoin(parts, [c]);
  }

  // Decimal digits

  predicate IsDigit(c: char) {
    '0' <= c <= '9'
  }

  /** `s` matches the regular expression `^\d+$` (JavaScript's `\d` is ASCII only). */
  predicate AllDigits(s: string) {
    |s| > 0 && forall i :: 0 <= i < |s| ==> IsDigit(s[i])
  }

  function DigitValue(c: char): nat
    requires IsDigit(c)
  {
    (c as int - '0' as int) as nat
  }

  /** The value of a string of decimal digits, most significant first. */
  function DigitsValue(s: string): nat
    requires forall i :: 0 <= i < |s| ==> IsDigit(s[i])
  {
    if |s| == 0 then 0 else DigitsValue(s[..|s| - 1]) * 10 + DigitValue(s[|s| - 1])
  }

  function DigitChar(d: nat): (c: char)
    requires d < 10
    ensures IsDigit(c) && DigitValue(c) == d
  {
    ('0' as int + d) as char
  }

  /** The shortest decimal numeral of `n`. */
  function NatToDecimal(n: nat): (r: string)
    ensures AllDigits(r)
    ensures |r| > 1 ==> r[0] != '0'
  {
    if n < 10 then [DigitChar(n)] else NatToDecimal(n / 10) + [DigitChar(n % 10)]
  }

  /** Reading back the numeral of `n` gives `n`. */
  lemma {:induction false} DecimalRoundTrip(n: nat)
    ensures DigitsValue(NatToDecimal(n)) == n
  {
    var r := NatToDecimal(n);
    if n >= 10 {
      DecimalRoundTrip(n / 10);
      assert r[..|r| - 1] == NatToDecimal(n / 10);
    }
  }
}
