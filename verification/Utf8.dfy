/** UTF-8 as RFC 3629 section 3 defines it, over bytes. */
module Utf8 {
  type Bytes = seq<int>

  predicate Continues(b: int) {
    0x80 <= b <= 0xBF
  }

  predicate RuneStart(b: int) {
    !Continues(b)
  }

  predicate SecondByte(first: int, second: int) {
    match first
    case 0xE0 => 0xA0 <= second <= 0xBF
    case 0xED => 0x80 <= second <= 0x9F
    case 0xF0 => 0x90 <= second <= 0xBF
    case 0xF4 => 0x80 <= second <= 0x8F
    case _ => Continues(second)
  }

  /** The length of the code point at the start of `s`, or 0 if there is none. */
  function RuneLength(s: Bytes): (n: nat)
    ensures n <= 4 && n <= |s|
    ensures n > 0 ==> RuneStart(s[0])
    ensures forall k | 1 <= k < n :: Continues(s[k])
  {
    if |s| >= 1 && 0 <= s[0] < 0x80 then 1
    else if |s| >= 2 && 0xC2 <= s[0] <= 0xDF && Continues(s[1]) then 2
    else if |s| >= 3 && 0xE0 <= s[0] <= 0xEF && SecondByte(s[0], s[1]) && Continues(s[2]) then 3
    else if |s| >= 4 && 0xF0 <= s[0] <= 0xF4 && SecondByte(s[0], s[1]) && Continues(s[2]) && Continues(s[3]) then 4
    else 0
  }

  predicate Valid(s: Bytes)
    decreases |s|
  {
    s == [] || (RuneLength(s) > 0 && Valid(s[RuneLength(s)..]))
  }

  const REPLACEMENT: Bytes := [0xEF, 0xBF, 0xBD]

  /** Drop bytes until a code point starts. */
  function SkipInvalid(s: Bytes): (r: Bytes)
    ensures |r| <= |s|
    decreases |s|
  {
    if s == [] || RuneLength(s) > 0 then s else SkipInvalid(s[1..])
  }

  /** `strings.ToValidUTF8`: every run of invalid bytes becomes one replacement character. */
  function Clean(s: Bytes): Bytes
    decreases |s|
  {
    if s == [] then []
    else if RuneLength(s) > 0 then s[..RuneLength(s)] + Clean(s[RuneLength(s)..])
    else REPLACEMENT + Clean(SkipInvalid(s[1..]))
  }

  /** The length only depends on the bytes it covers. */
  lemma RuneLengthOfPrefix(s: Bytes, t: Bytes)
    requires RuneLength(s) > 0 && RuneLength(s) <= |t| && s[..RuneLength(s)] == t[..RuneLength(s)]
    ensures RuneLength(t) == RuneLength(s)
  {
    var n := RuneLength(s);
    assert forall k | 0 <= k < n :: s[k] == s[..n][k] == t[..n][k] == t[k];
  }

  lemma {:induction false} ValidJoined(a: Bytes, b: Bytes)
    requires RuneLength(a) == |a| > 0 && Valid(b)
    ensures Valid(a + b)
  {
    assert (a + b)[..|a|] == a[..|a|];
    RuneLengthOfPrefix(a, a + b);
    assert (a + b)[|a|..] == b;
  }

  lemma ReplacementIsRune()
    ensures RuneLength(REPLACEMENT) == |REPLACEMENT| == 3
  {
  }

  lemma {:induction false} CleanIsValid(s: Bytes)
    ensures Valid(Clean(s))
    ensures Valid(s) ==> Clean(s) == s
    decreases |s|
  {
    ReplacementIsRune();
    hide RuneLength;
    if s != [] {
      var n := RuneLength(s);
      if n > 0 {
        CleanIsValid(s[n..]);
        RuneLengthOfPrefix(s, s[..n]);
        ValidJoined(s[..n], Clean(s[n..]));
        assert s == s[..n] + s[n..];
      } else {
        CleanIsValid(SkipInvalid(s[1..]));
        ValidJoined(REPLACEMENT, Clean(SkipInvalid(s[1..])));
      }
    }
  }

  /** A valid text may be cut before any code point: neither part is damaged. */
  lemma {:induction false} CutAtRuneStart(s: Bytes, k: nat)
    requires Valid(s) && k <= |s| && (k == |s| || RuneStart(s[k]))
    ensures Valid(s[..k]) && Valid(s[k..])
    decreases |s|
  {
    hide RuneLength;
    if k == |s| {
      assert s[..k] == s && s[k..] == [];
    } else if k > 0 {
      var n := RuneLength(s);
      assert forall i | 1 <= i < n :: Continues(s[i]);
      assert n <= k && s[n..][k - n] == s[k];
      CutAtRuneStart(s[n..], k - n);
      CutAfterFirst(s, n, k);
    }
  }

  lemma CutAfterFirst(s: Bytes, n: nat, k: nat)
    requires RuneLength(s) == n > 0 && n <= k <= |s|
    requires Valid(s[n..][..k - n]) && Valid(s[n..][k - n..])
    ensures Valid(s[..k]) && Valid(s[k..])
  {
    hide RuneLength;
    assert s[..k] == s[..n] + s[n..][..k - n];
    assert s[k..] == s[n..][k - n..];
    RuneLengthOfPrefix(s, s[..n]);
    ValidJoined(s[..n], s[n..][..k - n]);
  }

  /** Of any four consecutive bytes of a valid text, one starts a code point. */
  lemma {:induction false} StartNearby(s: Bytes, k: nat) returns (j: nat)
    requires Valid(s) && k < |s|
    ensures j <= k < j + 4 && RuneStart(s[j])
    decreases |s|
  {
    var n := RuneLength(s);
    if k < n {
      j := 0;
    } else {
      j := StartNearby(s[n..], k - n);
      assert s[n..][j] == s[j + n];
      j := j + n;
    }
  }

  /** What one byte of ASCII takes in a JSON string (RFC 8259 section 7); `<`, `>` and `&` are
      escaped as well. */
  function EscapedByte(b: int): nat {
    if b == 0x22 || b == 0x5C || b == 8 || b == 9 || b == 10 || b == 12 || b == 13 then 2
    else if b < 0x20 || b == 0x3C || b == 0x3E || b == 0x26 then 6
    else 1
  }

  /** What a text takes in a JSON string. */
  function EscapedLength(s: Bytes): nat
    decreases |s|
  {
    if s == [] then 0
    else
      var n := RuneLength(s);
      if n == 0 then 6 + EscapedLength(s[1..])
      else if n == 1 then EscapedByte(s[0]) + EscapedLength(s[1..])
      else if n == 3 && s[0] == 0xE2 && s[1] == 0x80 && (s[2] == 0xA8 || s[2] == 0xA9) then
        6 + EscapedLength(s[3..])
      else n + EscapedLength(s[n..])
  }

  lemma {:induction false} SixBytesSuffice(s: Bytes)
    ensures EscapedLength(s) <= 6 * |s|
    decreases |s|
  {
    if s != [] {
      var n := RuneLength(s);
      SixBytesSuffice(s[if n == 0 then 1 else n..]);
    }
  }
}
