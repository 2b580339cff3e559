/** The few pieces of Python's `str` behaviour the helper relies on:
    `isspace`, `split()` without arguments, `" ".join`, `strip()`,
    formatting a non-negative integer in an f-string, and the leftmost
    search for a fixed substring that the two fixed regular expressions
    reduce to. */
module Text {
  import opened Wrappers

  /** Python's `str.isspace()` on one character (the characters that
      `str.split()` and `str.strip()` treat as whitespace). */
  predicate IsSpace(c: char) {
    || c == ' '
    || '\t' <= c <= '\r'
    || '\U{1c}' <= c <= '\U{1f}'
    || c == '\U{85}' || c == '\U{a0}' || c == '\U{1680}'
    || '\U{2000}' <= c <= '\U{200a}'
    || c == '\U{2028}' || c == '\U{2029}' || c == '\U{202f}'
    || c == '\U{205f}' || c == '\U{3000}'
  }

  predicate AllSpace(s: string) {
    forall k :: 0 <= k < |s| ==> IsSpace(s[k])
  }

  /** A token `str.split()` can produce: non-empty, no whitespace. */
  predicate IsWord(w: string) {
    w != [] && forall k :: 0 <= k < |w| ==> !IsSpace(w[k])
  }

  predicate AllWords(ws: seq<string>) {
    forall k :: 0 <= k < |ws| ==> IsWord(ws[k])
  }

  /** `" ".join(parts)`. */
  function Join(parts: seq<string>): (r: string)
    ensures parts == [] ==> r == ""
    ensures |parts| == 1 ==> r == parts[0]
  {
    if parts == [] then ""
    else if |parts| == 1 then parts[0]
    else parts[0] + " " + Join(parts[1..])
  }

  /** The end of the run of non-whitespace characters starting at `i`. */
  function TokenEnd(s: string, i: nat): (e: nat)
    requires i <= |s|
    ensures i <= e <= |s|
    ensures forall k :: i <= k < e ==> !IsSpace(s[k])
    ensures e == |s| || IsSpace(s[e])
    decreases |s| - i
  {
    if i == |s| || IsSpace(s[i]) then i else TokenEnd(s, i + 1)
  }

  /** `s.split()`: the maximal runs of non-whitespace characters, in order;
      leading, trailing and repeated whitespace produce no empty tokens. */
  function Split(s: string): (r: seq<string>)
    ensures AllWords(r)
    decreases |s|
  {
    if s == [] then []
    else if IsSpace(s[0]) then Split(s[1..])
    else
      var e := TokenEnd(s, 0);
      [s[..e]] + Split(s[e..])
  }

  /** Splitting a word followed by whitespace (or nothing) yields the word
      and then whatever the rest splits into. */
  lemma SplitWordThen(w: string, t: string)
    requires IsWord(w)
    requires t == [] || IsSpace(t[0])
    ensures Split(w + t) == [w] + Split(t)
  {
    var s := w + t;
    var e := TokenEnd(s, 0);
    assert forall k :: 0 <= k < |w| ==> s[k] == w[k];
    assert |w| < |s| ==> s[|w|] == t[0];
    assert e == |w|;
    assert s[..e] == w && s[e..] == t;
  }

  /** Whitespace in front of a string adds no tokens. With `SplitWordThen`
      this fixes `Split` on every input: whitespace is skipped and each
      maximal run of other characters becomes one token. */
  lemma {:induction false} SplitSpaceThen(a: string, t: string)
    requires AllSpace(a)
    ensures Split(a + t) == Split(t)
    decreases |a|
  {
    if a == [] {
      assert a + t == t;
    } else {
      var s := a + t;
      assert s[0] == a[0] && IsSpace(s[0]);
      assert s[1..] == a[1..] + t;
      SplitSpaceThen(a[1..], t);
    }
  }

  /** Joining words with single spaces and splitting again gives the words
      back. */
  lemma {:induction false} SplitJoin(parts: seq<string>)
    requires AllWords(parts)
    ensures Split(Join(parts)) == parts
  {
    if parts == [] {
    } else if |parts| == 1 {
      SplitWordThen(parts[0], "");
      assert parts[0] + "" == parts[0];
    } else {
      var rest := Join(parts[1..]);
      assert AllWords(parts[1..]) by {
        forall k | 0 <= k < |parts[1..]| ensures IsWord(parts[1..][k]) {
          assert parts[1..][k] == parts[k + 1];
        }
      }
      SplitJoin(parts[1..]);
      SplitWordThen(parts[0], " " + rest);
      assert parts[0] + " " + rest == parts[0] + (" " + rest);
      assert (" " + rest)[1..] == rest;
      assert [parts[0]] + parts[1..] == parts;
    }
  }

  /** What `" ".join(s.split())` splits back into is what `s` split into:
      the joined form keeps every token and their order. */
  lemma JoinSplitStable(s: string)
    ensures Split(Join(Split(s))) == Split(s)
  {
    SplitJoin(Split(s));
  }

  /** The end of the run of whitespace starting at `i`. */
  function SpaceEnd(s: string, i: nat): (e: nat)
    requires i <= |s|
    ensures i <= e <= |s|
    ensures forall k :: i <= k < e ==> IsSpace(s[k])
    ensures e == |s| || !IsSpace(s[e])
    decreases |s| - i
  {
    if i == |s| || !IsSpace(s[i]) then i else SpaceEnd(s, i + 1)
  }

  /** The start of the run of whitespace ending just before `j`. */
  function SpaceStart(s: string, j: nat): (b: nat)
    requires j <= |s|
    ensures b <= j
    ensures forall k :: b <= k < j ==> IsSpace(s[k])
    ensures b == 0 || !IsSpace(s[b - 1])
  {
    if j == 0 || !IsSpace(s[j - 1]) then j else SpaceStart(s, j - 1)
  }

  /** `s.strip()`: `s` without its leading and trailing whitespace. What is
      removed is whitespace only, and what is kept neither starts nor ends
      with whitespace. */
  function Strip(s: string): (r: string)
    ensures r == [] || (!IsSpace(r[0]) && !IsSpace(r[|r| - 1]))
    ensures SpaceEnd(s, 0) + |r| <= |s|
    ensures r == s[SpaceEnd(s, 0)..SpaceEnd(s, 0) + |r|]
    ensures forall k :: 0 <= k < SpaceEnd(s, 0) ==> IsSpace(s[k])
    ensures forall k :: SpaceEnd(s, 0) + |r| <= k < |s| ==> IsSpace(s[k])
  {
    var a := SpaceEnd(s, 0);
    var b := SpaceStart(s, |s|);
    if b <= a then [] else s[a..b]
  }

  function DigitChar(d: nat): (c: char)
    requires d < 10
    ensures '0' <= c <= '9'
    ensures c == '0' <==> d == 0
  {
    ('0' as int + d) as char
  }

  predicate IsDecimal(s: string) {
    forall k :: 0 <= k < |s| ==> '0' <= s[k] <= '9'
  }

  /** `f"{n}"` for a non-negative integer: its decimal digits, with no
      leading zero except in `"0"` itself. */
  function DecimalString(n: nat): (r: string)
    ensures r != [] && IsDecimal(r)
    ensures r[0] == '0' <==> n == 0
    ensures r[0] == '0' ==> r == "0"
  {
    if n < 10 then [DigitChar(n)] else DecimalString(n / 10) + [DigitChar(n % 10)]
  }

  /** The number a string of decimal digits denotes. */
  function DecimalValue(s: string): nat
    requires IsDecimal(s)
  {
    if s == [] then 0 else DecimalValue(s[..|s| - 1]) * 10 + (s[|s| - 1] as int - '0' as int)
  }

  lemma {:induction false} DecimalRoundTrip(n: nat)
    ensures DecimalValue(DecimalString(n)) == n
  {
    if n >= 10 {
      var s := DecimalString(n);
      DecimalRoundTrip(n / 10);
      assert s[..|s| - 1] == DecimalString(n / 10);
    }
  }

  /** Distinct numbers are formatted differently. */
  lemma DecimalInjective(a: nat, b: nat)
    requires DecimalString(a) == DecimalString(b)
    ensures a == b
  {
    DecimalRoundTrip(a);
    DecimalRoundTrip(b);
  }

  predicate OccursAt(s: string, pat: string, i: nat) {
    i + |pat| <= |s| && s[i..i + |pat|] == pat
  }

  /** The first position at or after `from` where `pat` occurs in `s`. */
  function IndexOf(s: string, pat: string, from: nat): (r: Option<nat>)
    ensures r.Some? ==> from <= r.value && OccursAt(s, pat, r.value)
    ensures r.Some? ==> forall k :: from <= k < r.value ==> !OccursAt(s, pat, k)
    ensures r.None? ==> forall k :: from <= k ==> !OccursAt(s, pat, k)
    decreases |s| - from
  {
    if from + |pat| > |s| then None
    else if OccursAt(s, pat, from) then Some(from)
    else IndexOf(s, pat, from + 1)
  }
}
