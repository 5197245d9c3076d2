/** Decimal numbers and splitting, as the query and identifier parsers use them. */
module Text {
  import opened Common

  predicate IsDigit(c: char) { '0' <= c <= '9' }

  predicate AllDigits(t: string) {
    forall i :: 0 <= i < |t| ==> IsDigit(t[i])
  }

  function Decimal(n: nat): string {
    if n < 10 then ['0' + n as char] else Decimal(n / 10) + ['0' + (n % 10) as char]
  }

  function Value(t: string): nat
    requires AllDigits(t)
  {
    if t == [] then 0 else Value(t[..|t| - 1]) * 10 + (t[|t| - 1] - '0') as nat
  }

  /** What a digit string parses to in an unsigned type of this size. */
  function ParseNumber(t: string, limit: nat): Option<nat>
    requires AllDigits(t)
  {
    if t != [] && Value(t) < limit then Some(Value(t)) else None
  }

  /** Digits only, and no leading zero before another digit. */
  predicate Plain(t: string) {
    t != [] && (|t| > 1 ==> t[0] != '0') && AllDigits(t)
  }

  lemma {:induction false} DecimalIsPlain(n: nat)
    ensures Plain(Decimal(n)) && Value(Decimal(n)) == n && (n > 0 ==> Decimal(n)[0] != '0')
  {
    if n < 10 {
      assert Decimal(n)[..0] == [];
    } else {
      DecimalIsPlain(n / 10);
      assert Decimal(n)[..|Decimal(n)| - 1] == Decimal(n / 10);
    }
  }

  lemma {:induction false} PlainIsDecimal(t: string)
    requires Plain(t)
    ensures Decimal(Value(t)) == t && (t[0] != '0' ==> Value(t) > 0)
  {
    var front, last := t[..|t| - 1], t[|t| - 1];
    if front == [] {
      assert Value(t) == (last - '0') as nat;
      assert t == [last];
    } else {
      PlainIsDecimal(front);
      var n, d := Value(front), (last - '0') as nat;
      assert Value(t) == n * 10 + d && Value(t) / 10 == n && Value(t) % 10 == d;
      assert t == front + [last];
    }
  }

  /** Index of the first `c`, or the length. */
  function Find(s: string, c: char): (i: nat)
    ensures i <= |s| && (i < |s| ==> s[i] == c) && forall j :: 0 <= j < i ==> s[j] != c
  {
    if s == [] || s[0] == c then 0 else 1 + Find(s[1..], c)
  }

  function Split(s: string, c: char): (parts: seq<string>)
    ensures |parts| >= 1
    decreases |s|
  {
    if Find(s, c) == |s| then [s] else [s[..Find(s, c)]] + Split(s[Find(s, c) + 1..], c)
  }

  /** Around the first `c`, if there is one. */
  function SplitOnce(s: string, c: char): Option<(string, string)> {
    if Find(s, c) == |s| then None else Some((s[..Find(s, c)], s[Find(s, c) + 1..]))
  }

  function StripPrefix(s: string, prefix: string): Option<string> {
    if prefix <= s then Some(s[|prefix|..]) else None
  }

  lemma FindAt(s: string, c: char, i: nat)
    requires i <= |s| && (i < |s| ==> s[i] == c) && forall j :: 0 <= j < i ==> s[j] != c
    ensures Find(s, c) == i
  {
  }

  lemma SplitTwo(s: string, c: char, x: string, y: string)
    ensures Split(s, c) == [x, y] <==> s == x + [c] + y && c !in x && c !in y
  {
    if Split(s, c) == [x, y] {
      var rest := s[Find(s, c) + 1..];
      assert Split(s, c)[0] == x && Split(s, c)[1..] == Split(rest, c) == [y];
      assert Find(rest, c) == |rest| && rest == y;
      assert s == s[..Find(s, c)] + [c] + rest;
    }
    if s == x + [c] + y && c !in x && c !in y {
      FindAt(s, c, |x|);
      assert s[..|x|] == x && s[|x| + 1..] == y;
      FindAt(y, c, |y|);
    }
  }

  predicate All(s: string, p: char -> bool) {
    forall i :: 0 <= i < |s| ==> p(s[i])
  }

  predicate AllParts(parts: seq<string>, p: char -> bool) {
    forall k :: 0 <= k < |parts| ==> All(parts[k], p)
  }

  /** Nothing but separators is lost. */
  lemma {:induction false} SplitCovers(s: string, c: char, p: char -> bool)
    requires AllParts(Split(s, c), p) && p(c)
    ensures All(s, p)
    decreases |s|
  {
    var i, parts := Find(s, c), Split(s, c);
    assert All(parts[0], p);
    if i < |s| {
      var rest := s[i + 1..];
      assert parts == [s[..i]] + Split(rest, c);
      forall k | 0 <= k < |Split(rest, c)|
        ensures All(Split(rest, c)[k], p)
      {
        assert Split(rest, c)[k] == parts[k + 1];
      }
      SplitCovers(rest, c, p);
      Around(s, i, p);
    }
  }

  lemma Around(s: string, i: nat, p: char -> bool)
    requires i < |s| && All(s[..i], p) && p(s[i]) && All(s[i + 1..], p)
    ensures All(s, p)
  {
    forall j | 0 <= j < |s|
      ensures p(s[j])
    {
      if j < i {
        assert s[j] == s[..i][j];
      } else if j > i {
        assert s[j] == s[i + 1..][j - i - 1];
      }
    }
  }

  // ---- Sizes ----

  predicate Ascii(c: char) { c as int < 0x80 }

  /** Bytes of a text in UTF-8. */
  function Utf8Size(s: string): nat {
    if s == [] then 0
    else
      var c := s[|s| - 1] as int;
      Utf8Size(s[..|s| - 1]) + if c < 0x80 then 1 else if c < 0x800 then 2 else if c < 0x1_0000 then 3 else 4
  }

  /** One to four bytes, by the ranges of table 3-6 of the Unicode standard. */
  lemma Utf8SizeOf(c: char)
    ensures Utf8Size([c]) == if c <= '\U{7f}' then 1 else if c <= '\U{7ff}' then 2 else if c <= '\U{ffff}' then 3 else 4
  {
    assert [c][..0] == [];
  }

  lemma {:induction false} Utf8SizeAppends(a: string, b: string)
    ensures Utf8Size(a + b) == Utf8Size(a) + Utf8Size(b)
    decreases |b|
  {
    if b == [] {
      assert a + b == a;
    } else {
      var front := b[..|b| - 1];
      Utf8SizeAppends(a, front);
      assert (a + b)[..|a + b| - 1] == a + front && (a + b)[|a + b| - 1] == b[|b| - 1];
    }
  }

  lemma {:induction false} AsciiSize(s: string)
    requires All(s, Ascii)
    ensures Utf8Size(s) == |s|
  {
    if s != [] {
      AsciiSize(s[..|s| - 1]);
    }
  }
}
