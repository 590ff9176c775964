/** String and number helpers shared by the services: the small parts of the
    JavaScript standard library that the shopping pipeline relies on. */
module Text {

  /** `s.startsWith(p)` */
  predicate StartsWith(s: string, p: string) {
    |p| <= |s| && s[..|p|] == p
  }

  /** `s.includes(t)`: some position of `s` starts a copy of `t`. */
  predicate Contains(s: string, t: string)
    decreases |s|
  {
    StartsWith(s, t) || (|s| > 0 && Contains(s[1..], t))
  }

  lemma ContainsAt(s: string, t: string, i: nat)
    requires i + |t| <= |s| && s[i..i + |t|] == t
    ensures Contains(s, t)
    decreases i
  {
    if i > 0 {
      assert s[1..][i - 1..i - 1 + |t|] == t;
      ContainsAt(s[1..], t, i - 1);
    }
  }

  lemma ContainsSelf(s: string)
    ensures Contains(s, s)
  {
    assert s[..|s|] == s;
  }

  lemma LowerIdempotent(s: string)
    ensures Lower(Lower(s)) == Lower(s)
  {
  }

  lemma ContainsEmpty(s: string)
    ensures Contains(s, "")
  {
  }

  /** A regular expression without anchors matches somewhere in `s`: `p` holds of some suffix. */
  predicate Somewhere(s: string, p: string -> bool)
    decreases |s|
  {
    p(s) || (|s| > 0 && Somewhere(s[1..], p))
  }

  lemma {:induction false} SomewhereIff(s: string, p: string -> bool)
    ensures Somewhere(s, p) <==> exists i :: 0 <= i <= |s| && p(s[i..])
    decreases |s|
  {
    if |s| > 0 {
      SomewhereIff(s[1..], p);
      if Somewhere(s[1..], p) {
        var i :| 0 <= i <= |s[1..]| && p(s[1..][i..]);
        assert s[i + 1..] == s[1..][i..];
      }
      if exists i :: 0 <= i <= |s| && p(s[i..]) {
        var i :| 0 <= i <= |s| && p(s[i..]);
        if i > 0 {
          assert s[1..][i - 1..] == s[i..];
        }
      }
    }
    assert s[0..] == s;
  }

  /** Length of the longest prefix of `s` whose characters all satisfy `keep`
      (what a greedy `[...]*` consumes). */
  function Run(s: string, keep: char -> bool): (n: nat)
    ensures n <= |s|
    ensures forall i :: 0 <= i < n ==> keep(s[i])
    ensures n < |s| ==> !keep(s[n])
  {
    if s == [] || !keep(s[0]) then 0 else 1 + Run(s[1..], keep)
  }

  predicate IsDigit(c: char) { '0' <= c <= '9' }

  /** ASCII part of `toLowerCase` / `toUpperCase`. */
  function LowerChar(c: char): char {
    if 'A' <= c <= 'Z' then (c as int + 32) as char else c
  }

  function UpperChar(c: char): char {
    if 'a' <= c <= 'z' then (c as int - 32) as char else c
  }

  function Lower(s: string): (r: string)
    ensures |r| == |s|
    ensures forall i :: 0 <= i < |s| ==> r[i] == LowerChar(s[i])
  {
    if s == [] then [] else [LowerChar(s[0])] + Lower(s[1..])
  }

  function Digit(d: nat): char
    requires d < 10
  {
    "0123456789"[d]
  }

  /** `String(n)` for a natural number. */
  function NatToString(n: nat): (r: string)
    ensures |r| > 0
    ensures forall i :: 0 <= i < |r| ==> '0' <= r[i] <= '9'
  {
    if n < 10 then [Digit(n)] else NatToString(n / 10) + [Digit(n % 10)]
  }

  /** The value of a decimal digit. */
  function DigitValue(ch: char): nat {
    if '0' <= ch <= '9' then (ch as int - '0' as int) as nat else 0
  }

  /** The number a string of decimal digits spells, most significant digit first. */
  function DecimalValue(s: string): nat
    decreases |s|
  {
    if s == [] then 0 else 10 * DecimalValue(s[..|s| - 1]) + DigitValue(s[|s| - 1])
  }

  lemma DigitRoundTrip(d: nat)
    requires d < 10
    ensures DigitValue(Digit(d)) == d
  {
  }

  /** `String(n)` spells `n` in decimal, with no leading zero. */
  lemma {:induction false} NatToStringValue(n: nat)
    ensures DecimalValue(NatToString(n)) == n
    ensures NatToString(n)[0] == '0' ==> n == 0
    decreases n
  {
    var r := NatToString(n);
    if n < 10 {
      DigitRoundTrip(n);
      assert r[..0] == [];
    } else {
      NatToStringValue(n / 10);
      DigitRoundTrip(n % 10);
      assert r[..|r| - 1] == NatToString(n / 10);
    }
  }

  /** `parts.join(sep)` */
  function Join(parts: seq<string>, sep: string): string {
    if parts == [] then ""
    else if |parts| == 1 then parts[0]
    else parts[0] + sep + Join(parts[1..], sep)
  }

  /** The prefix of `s` before its first `c` (the whole string when there is none):
      `s.split(c)[0]`. */
  function Before(s: string, c: char): (r: string)
    ensures |r| <= |s| && r == s[..|r|]
    ensures c !in r
    ensures |r| < |s| ==> s[|r|] == c
  {
    if s == [] then []
    else if s[0] == c then []
    else [s[0]] + Before(s[1..], c)
  }

  /** `s.split(c).filter(Boolean)`: the non-empty runs of characters other than `c`. */
  function Segments(s: string, c: char): (r: seq<string>)
    ensures forall i :: 0 <= i < |r| ==> r[i] != [] && c !in r[i]
    decreases |s|
  {
    if s == [] then []
    else if s[0] == c then Segments(s[1..], c)
    else
      var w := Before(s, c);
      [w] + Segments(s[|w|..], c)
  }

  /** `s.split(c)`: the pieces between the occurrences of `c`, empty ones included. */
  function SplitOn(s: string, c: char): (r: seq<string>)
    ensures |r| >= 1
    ensures forall i :: 0 <= i < |r| ==> c !in r[i]
    decreases |s|
  {
    var w := Before(s, c);
    if |w| == |s| then [s] else [w] + SplitOn(s[|w| + 1..], c)
  }

  /** The pieces of a split, joined with the separator, give the string back. */
  lemma {:induction false} SplitOnJoin(s: string, c: char)
    ensures Join(SplitOn(s, c), [c]) == s
    decreases |s|
  {
    var w := Before(s, c);
    if |w| < |s| {
      var rest := s[|w| + 1..];
      SplitOnJoin(rest, c);
      assert SplitOn(s, c)[1..] == SplitOn(rest, c);
      assert s == w + [c] + rest;
    }
  }

  /** `parts.filter(Boolean)` on strings: the non-empty ones, in order. */
  function NonEmpty(parts: seq<string>): (r: seq<string>)
    ensures forall i :: 0 <= i < |r| ==> r[i] != [] && r[i] in parts
  {
    if parts == [] then []
    else (if parts[0] == [] then [] else [parts[0]]) + NonEmpty(parts[1..])
  }

  /** The segments are exactly the non-empty pieces of `s.split(c)`, in order. */
  lemma {:induction false} SegmentsArePieces(s: string, c: char)
    ensures Segments(s, c) == NonEmpty(SplitOn(s, c))
    decreases |s|
  {
    if s != [] {
      var w := Before(s, c);
      if s[0] == c {
        SegmentsArePieces(s[1..], c);
        assert SplitOn(s, c) == [[]] + SplitOn(s[1..], c);
      } else if |w| < |s| {
        var rest := s[|w| + 1..];
        SegmentsArePieces(rest, c);
        assert s[|w|..][1..] == rest;
        assert Segments(s[|w|..], c) == Segments(rest, c);
        assert SplitOn(s, c) == [w] + SplitOn(rest, c);
        assert NonEmpty(SplitOn(s, c)) == [w] + NonEmpty(SplitOn(rest, c));
      } else {
        assert w == s && s[|w|..] == [];
        assert NonEmpty([s]) == [s] + NonEmpty([]);
      }
    }
  }

  /** `Math.round(x * 100) / 100` on reals: JavaScript's Math.round rounds halves upwards. */
  function RoundCents(x: real): (r: real)
    ensures x - 0.005 < r <= x + 0.005
    ensures (r * 100.0).Floor as real == r * 100.0
  {
    var n := (x * 100.0 + 0.5).Floor;
    n as real / 100.0
  }
}
