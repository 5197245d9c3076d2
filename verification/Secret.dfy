/**
Bearer secrets travel as quoted, unpadded Base64URL of 32 bytes (sections 3.5 and 5 of RFC 4648)
and are decoded into a caller's buffer that keeps no trace of a refused one.
*/
module Secret {
  import opened Common

  const QUOTE: Byte := '"' as int

  type Sextet = x: int | 0 <= x < 64

  function Digit(x: Sextet): Byte {
    if x < 26 then 'A' as int + x
    else if x < 52 then 'a' as int + x - 26
    else if x < 62 then '0' as int + x - 52
    else if x == 62 then '-' as int else '_' as int
  }

  /** Position in the alphabet. */
  function Position(c: Byte): (r: Option<Sextet>)
    ensures r.Some? ==> Digit(r.value) == c
    ensures r.None? ==> forall x: Sextet :: Digit(x) != c
  {
    if 'A' as int <= c <= 'Z' as int then Some(c - 'A' as int)
    else if 'a' as int <= c <= 'z' as int then Some(c - 'a' as int + 26)
    else if '0' as int <= c <= '9' as int then Some(c - '0' as int + 52)
    else if c == '-' as int then Some(62)
    else if c == '_' as int then Some(63)
    else None
  }

  // ---- The encoding as the RFC states it ----

  /** Three bytes, 24 bits, four digits. */
  function Quantum(a: Byte, b: Byte, c: Byte): (r: Bytes)
    ensures |r| == 4
  {
    [Digit(a / 4), Digit(a % 4 * 16 + b / 16), Digit(b % 16 * 4 + c / 64), Digit(c % 64)]
  }

  function Base64Url(b: Bytes): Bytes {
    if |b| == 0 then []
    else if |b| == 1 then Quantum(b[0], 0, 0)[..2]
    else if |b| == 2 then Quantum(b[0], b[1], 0)[..3]
    else Quantum(b[0], b[1], b[2]) + Base64Url(b[3..])
  }

  /** Values 0, 25, 26, 51, 52, 61, 62 and 63 of the alphabet (table 2 of RFC 4648), and two encodings. */
  lemma Alphabet()
    ensures Digit(0) == 'A' as int && Digit(25) == 'Z' as int && Digit(26) == 'a' as int && Digit(51) == 'z' as int
    ensures Digit(52) == '0' as int && Digit(61) == '9' as int && Digit(62) == '-' as int && Digit(63) == '_' as int
    ensures Base64Url(['f' as int, 'o' as int, 'o' as int]) == ['Z' as int, 'm' as int, '9' as int, 'v' as int]
    ensures Base64Url(['f' as int, 'o' as int]) == ['Z' as int, 'm' as int, '8' as int]
  {
    assert ['f' as int, 'o' as int, 'o' as int][3..] == [];
  }

  function Quoted(b: Bytes): Bytes {
    [QUOTE] + Base64Url(b) + [QUOTE]
  }

  lemma {:induction false} WholeQuanta(a: Bytes, b: Bytes)
    requires |a| % 3 == 0
    ensures Base64Url(a + b) == Base64Url(a) + Base64Url(b)
    ensures |Base64Url(a)| == |a| / 3 * 4
  {
    hide Quantum;
    if a == [] {
      assert a + b == b;
    } else {
      WholeQuanta(a[3..], b);
      assert (a + b)[3..] == a[3..] + b;
    }
  }

  lemma {:induction false} OnlyDigits(b: Bytes, i: nat)
    requires i < |Base64Url(b)|
    ensures Position(Base64Url(b)[i]).Some?
  {
    if |b| >= 3 && i >= 4 {
      OnlyDigits(b[3..], i - 4);
    }
  }

  lemma DigitInjective(x: Sextet, y: Sextet)
    requires Digit(x) == Digit(y)
    ensures x == y
  {
  }

  lemma QuantumInjective(a: Byte, b: Byte, c: Byte, x: Byte, y: Byte, z: Byte, n: nat)
    requires 1 <= n <= 3 && (n < 3 ==> c == z == 0) && (n < 2 ==> b == y == 0)
    requires Quantum(a, b, c)[..n + 1] == Quantum(x, y, z)[..n + 1]
    ensures a == x && b == y && c == z
  {
    var p, q := Quantum(a, b, c), Quantum(x, y, z);
    assert p[0] == p[..n + 1][0] == q[..n + 1][0] == q[0];
    assert p[1] == p[..n + 1][1] == q[..n + 1][1] == q[1];
    DigitInjective(a / 4, x / 4);
    DigitInjective(a % 4 * 16 + b / 16, x % 4 * 16 + y / 16);
    if n >= 2 {
      assert p[2] == p[..n + 1][2] == q[..n + 1][2] == q[2];
      DigitInjective(b % 16 * 4 + c / 64, y % 16 * 4 + z / 64);
    }
    if n == 3 {
      assert p[3] == p[..n + 1][3] == q[..n + 1][3] == q[3];
      DigitInjective(c % 64, z % 64);
    }
  }

  /** Distinct secrets have distinct spellings. */
  lemma {:induction false} Base64UrlInjective(a: Bytes, b: Bytes)
    requires |a| == |b| && Base64Url(a) == Base64Url(b)
    ensures a == b
  {
    if |a| == 0 {
    } else if |a| == 1 {
      QuantumInjective(a[0], 0, 0, b[0], 0, 0, 1);
    } else if |a| == 2 {
      QuantumInjective(a[0], a[1], 0, b[0], b[1], 0, 2);
    } else {
      var p, q := Quantum(a[0], a[1], a[2]), Quantum(b[0], b[1], b[2]);
      assert p == Base64Url(a)[..4] && q == Base64Url(b)[..4];
      assert p[..4] == p && q[..4] == q;
      QuantumInjective(a[0], a[1], a[2], b[0], b[1], b[2], 3);
      assert Base64Url(a[3..]) == Base64Url(a)[4..] && Base64Url(b[3..]) == Base64Url(b)[4..];
      Base64UrlInjective(a[3..], b[3..]);
      assert a == a[..3] + a[3..] && b == b[..3] + b[3..];
    }
  }

  // ---- The arithmetic of one group ----

  /** The number four digits make up, and the three bytes it splits into. */
  function Packed(i: Sextet, j: Sextet, k: Sextet, l: Sextet): nat {
    ((i * 64 + j) * 64 + k) * 64 + l
  }

  /** Division by its defining equation. */
  lemma Quotient(n: nat, d: nat, q: nat, r: nat)
    requires d in {4, 16, 64, 0x100, 0x1000, 0x1_0000, 0x4_0000} && r < d && n == q * d + r
    ensures n / d == q && n % d == r
  {
    if d == 4 {
    } else if d == 16 {
    } else if d == 64 {
    } else if d == 0x100 {
    } else if d == 0x1000 {
    } else if d == 0x1_0000 {
    } else {
    }
  }

  lemma ThreeBytes(n: nat, x: nat, y: Byte, z: Byte)
    requires n == x * 0x1_0000 + y * 0x100 + z
    ensures n / 0x1_0000 == x && n / 0x100 % 0x100 == y && n % 0x100 == z
  {
    Quotient(n, 0x1_0000, x, y * 0x100 + z);
    Quotient(n, 0x100, x * 0x100 + y, z);
    Quotient(x * 0x100 + y, 0x100, x, y);
  }

  lemma Split(n: nat, i: Sextet, j: Sextet, k: Sextet, l: Sextet)
    requires n == Packed(i, j, k, l)
    ensures n / 0x1_0000 == i * 4 + j / 16
    ensures n / 0x100 % 0x100 == j % 16 * 16 + k / 4
    ensures n % 0x100 == k % 4 * 64 + l
  {
    var u, v := j % 16, k % 4;
    assert j == j / 16 * 16 + u && k == k / 4 * 4 + v;
    ThreeBytes(n, i * 4 + j / 16, u * 16 + k / 4, v * 64 + l);
  }

  lemma Unpacked(i: Sextet, j: Sextet, k: Sextet, l: Sextet)
    ensures var n := Packed(i, j, k, l);
      && n < 0x100_0000
      && Quantum(n / 0x1_0000, n / 0x100 % 0x100, n % 0x100) == [Digit(i), Digit(j), Digit(k), Digit(l)]
  {
    hide Digit, Packed;
    var n := Packed(i, j, k, l);
    Split(n, i, j, k, l);
    Quotient(i * 4 + j / 16, 4, i, j / 16);
    Quotient(j % 16 * 16 + k / 4, 16, j % 16, k / 4);
    Quotient(k % 4 * 64 + l, 64, k % 4, l);
  }

  /** The digit at one of the four offsets of a group's number. */
  function Pick(n: nat, offset: nat): Byte
    requires offset < 4
  {
    Digit((match offset case 0 => n / 0x4_0000 case 1 => n / 0x1000 case 2 => n / 64 case _ => n) % 64)
  }

  lemma Picked(a: Byte, b: Byte, c: Byte)
    ensures var n := a * 0x1_0000 + b * 0x100 + c;
      Quantum(a, b, c) == [Pick(n, 0), Pick(n, 1), Pick(n, 2), Pick(n, 3)]
  {
    hide Digit;
    var n := a * 0x1_0000 + b * 0x100 + c;
    var u, v, w := a % 4, b % 16, c % 64;
    assert a == a / 4 * 4 + u && b == b / 16 * 16 + v && c == c / 64 * 64 + w;
    Quotient(n, 0x4_0000, a / 4, u * 0x1_0000 + b * 0x100 + c);
    Quotient(n, 0x1000, a * 16 + b / 16, v * 0x100 + c);
    Quotient(n, 64, a * 1024 + b * 4 + c / 64, w);
    Quotient(a * 16 + b / 16, 64, a / 4, u * 16 + b / 16);
    Quotient(a * 1024 + b * 4 + c / 64, 64, a * 16 + b / 16, v * 4 + c / 64);
  }

  /** The number a run of digits writes, most significant first; None if one is not a digit. */
  function Number(s: Bytes): Option<nat> {
    if s == [] then Some(0)
    else
      var front :- Number(s[..|s| - 1]);
      var last :- Position(s[|s| - 1]);
      Some(front * 64 + last)
  }

  lemma ThreeDigits(s: Bytes)
    requires |s| == 3
    ensures Number(s).Some? <==> Position(s[0]).Some? && Position(s[1]).Some? && Position(s[2]).Some?
    ensures Number(s).Some? ==>
      Number(s).value == (Position(s[0]).value * 64 + Position(s[1]).value) * 64 + Position(s[2]).value
  {
    hide Position;
    var t := s[..2];
    var u := t[..1];
    assert Number(u[..0]) == Some(0);
    assert Number(u) == if Position(s[0]).Some? then Some(0 * 64 + Position(s[0]).value) else None;
    assert Number(t) == if Number(u).Some? && Position(s[1]).Some?
                        then Some(Number(u).value * 64 + Position(s[1]).value) else None;
  }

  lemma FourDigits(s: Bytes)
    requires |s| == 4
    ensures Number(s).Some? <==>
      Position(s[0]).Some? && Position(s[1]).Some? && Position(s[2]).Some? && Position(s[3]).Some?
    ensures Number(s).Some? ==>
      Number(s).value ==
      Packed(Position(s[0]).value, Position(s[1]).value, Position(s[2]).value, Position(s[3]).value)
  {
    hide Position;
    ThreeDigits(s[..3]);
  }

  /** A group of four digits is the quantum of the three bytes its number splits into. */
  lemma GroupUndoes(s: Bytes)
    requires |s| == 4 && Number(s).Some?
    ensures var n := Number(s).value;
      n < 0x100_0000 && s == Quantum(n / 0x1_0000, n / 0x100 % 0x100, n % 0x100)
  {
    hide Digit, Packed, Quantum, Number;
    FourDigits(s);
    var i, j, k, l := Position(s[0]).value, Position(s[1]).value, Position(s[2]).value, Position(s[3]).value;
    Unpacked(i, j, k, l);
    assert s == [Digit(i), Digit(j), Digit(k), Digit(l)];
  }

  /** The last three digits write two bytes exactly when their two low bits are zero. */
  lemma TailUndoes(s: Bytes)
    requires |s| == 3
    ensures Number(s).Some? && Number(s).value % 4 == 0 ==>
      var m := Number(s).value / 4;
      m < 0x1_0000 && s == Quantum(m / 0x100, m % 0x100, 0)[..3]
    ensures forall a: Byte, b: Byte :: s == Quantum(a, b, 0)[..3] ==> Number(s).Some? && Number(s).value % 4 == 0
  {
    ThreeDigits(s);
    if Number(s).Some? && Number(s).value % 4 == 0 {
      var n := Number(s).value;
      var i, j, k := Position(s[0]).value, Position(s[1]).value, Position(s[2]).value;
      TailQuantum(n, i, j, k);
      assert s == [Digit(i), Digit(j), Digit(k)];
    }
    forall a: Byte, b: Byte | s == Quantum(a, b, 0)[..3]
      ensures Number(s).Some? && Number(s).value % 4 == 0
    {
      TailNumber(s, a, b);
    }
  }

  lemma TailQuantum(n: nat, i: Sextet, j: Sextet, k: Sextet)
    requires n == (i * 64 + j) * 64 + k && n % 4 == 0
    ensures n / 4 < 0x1_0000 && Quantum(n / 4 / 0x100, n / 4 % 0x100, 0)[..3] == [Digit(i), Digit(j), Digit(k)]
  {
    hide Digit, Quantum;
    var m := n / 4;
    var p := Packed(i, j, k, 0);
    Unpacked(i, j, k, 0);
    assert p == m * 0x100;
    ThreeBytes(p, m / 0x100, m % 0x100, 0);
    assert Quantum(m / 0x100, m % 0x100, 0)[..3] == [Digit(i), Digit(j), Digit(k), Digit(0)][..3];
  }

  lemma TailNumber(s: Bytes, a: Byte, b: Byte)
    requires |s| == 3 && s == Quantum(a, b, 0)[..3]
    ensures Number(s).Some? && Number(s).value % 4 == 0
  {
    ThreeDigits(s);
    assert s[0] == Digit(a / 4) && s[1] == Digit(a % 4 * 16 + b / 16) && s[2] == Digit(b % 16 * 4);
    DigitInjective(Position(s[2]).value, b % 16 * 4);
    hide Number, Digit, Position;
    var high := Position(s[0]).value * 64 + Position(s[1]).value;
    Quotient(Number(s).value, 4, high * 16 + b % 16, 0);
  }

  // ---- The decoder ----

  method ReadDigits(bytes: Bytes, from: nat, to: nat) returns (value: Option<nat>)
    requires from <= to <= |bytes|
    ensures value == Number(bytes[from..to])
  {
    var n: nat := 0;
    var i := from;
    while i < to
      invariant from <= i <= to
      invariant Number(bytes[from..i]) == Some(n)
    {
      var index := Position(bytes[i]);
      assert bytes[from..i + 1][..i - from] == bytes[from..i];
      if index.None? {
        Unreadable(bytes[from..to], i - from);
        return None;
      }
      n := n * 64 + index.value;
      i := i + 1;
    }
    return Some(n);
  }

  lemma {:induction false} Unreadable(s: Bytes, i: nat)
    requires i < |s| && Position(s[i]).None?
    ensures Number(s).None?
  {
    if i < |s| - 1 {
      Unreadable(s[..|s| - 1], i);
    }
  }

  /** The first digits of one group, the inner loop of the re-encoding. */
  method PutDigits(canonical: array<Byte>, at: nat, a: Byte, b: Byte, c: Byte, count: nat)
    requires count <= 4 && at + count <= canonical.Length
    modifies canonical
    ensures canonical[at..at + count] == Quantum(a, b, c)[..count]
    ensures canonical[..at] == old(canonical[..at])
  {
    hide Pick, Quantum;
    var value := a * 0x1_0000 + b * 0x100 + c;
    Picked(a, b, c);
    ghost var quantum := Quantum(a, b, c);
    assert quantum == [Pick(value, 0), Pick(value, 1), Pick(value, 2), Pick(value, 3)];
    for offset := 0 to count
      invariant canonical[at..at + offset] == quantum[..offset]
      invariant canonical[..at] == old(canonical[..at])
    {
      canonical[at + offset] := Pick(value, offset);
      assert canonical[at..at + offset + 1] == canonical[at..at + offset] + [canonical[at + offset]];
    }
  }

  /** The digits of 32 bytes, group by group. */
  method Reencode(decoded: array<Byte>) returns (canonical: array<Byte>)
    requires decoded.Length == 32
    ensures fresh(canonical) && canonical[..] == Base64Url(decoded[..])
  {
    hide Quantum, Base64Url;
    canonical := new Byte[43];
    Nothing();
    for group := 0 to 10
      invariant canonical[..group * 4] == Base64Url(decoded[..group * 3])
    {
      PutDigits(canonical, group * 4, decoded[group * 3], decoded[group * 3 + 1], decoded[group * 3 + 2], 4);
      AddQuantum(decoded[..group * 3], decoded[..group * 3 + 3], canonical[..group * 4], canonical[..group * 4 + 4]);
    }
    PutDigits(canonical, 40, decoded[30], decoded[31], 0, 3);
    AddTail(decoded[..30], decoded[..], canonical[..40], canonical[..]);
  }

  lemma TwoBytes(b: Bytes)
    requires |b| == 2
    ensures Base64Url(b) == Quantum(b[0], b[1], 0)[..3]
  {
  }

  lemma Nothing()
    ensures Base64Url([]) == []
  {
  }

  lemma AddQuantum(done: Bytes, more: Bytes, text: Bytes, longer: Bytes)
    requires |done| % 3 == 0 && text == Base64Url(done) && |more| == |done| + 3 && done == more[..|done|]
    requires |longer| == |text| + 4 && text == longer[..|text|]
    requires longer[|text|..] == Quantum(more[|done|], more[|done| + 1], more[|done| + 2])
    ensures longer == Base64Url(more)
  {
    hide Quantum, Base64Url;
    var rest := more[|done|..];
    WholeQuanta(done, rest);
    ThreeOnly(rest);
    assert more == done + rest && longer == text + longer[|text|..];
  }

  lemma ThreeOnly(b: Bytes)
    requires |b| == 3
    ensures Base64Url(b) == Quantum(b[0], b[1], b[2])
  {
    assert b[3..] == [];
  }

  lemma AddTail(done: Bytes, more: Bytes, text: Bytes, longer: Bytes)
    requires |done| % 3 == 0 && text == Base64Url(done) && |more| == |done| + 2 && done == more[..|done|]
    requires |longer| == |text| + 3 && text == longer[..|text|]
    requires longer[|text|..] == Quantum(more[|done|], more[|done| + 1], 0)[..3]
    ensures longer == Base64Url(more)
  {
    hide Quantum, Base64Url;
    var rest := more[|done|..];
    WholeQuanta(done, rest);
    TwoBytes(rest);
    assert more == done + rest && longer == text + longer[|text|..];
  }

  ghost predicate Canonical(raw: Bytes) {
    exists b: Bytes :: |b| == 32 && raw == Quoted(b)
  }

  /** Where the digits of a canonical spelling lie, and what its tail holds. */
  lemma CanonicalShape(raw: Bytes)
    requires Canonical(raw)
    ensures |raw| == 45 && raw[0] == QUOTE && raw[44] == QUOTE
    ensures forall i :: 1 <= i < 44 ==> Position(raw[i]).Some?
    ensures Number(raw[41..44]).Some? && Number(raw[41..44]).value % 4 == 0
  {
    var b: Bytes :| |b| == 32 && raw == Quoted(b);
    CanonicalTail(b);
    forall i | 1 <= i < 44
      ensures Position(raw[i]).Some?
    {
      OnlyDigits(b, i - 1);
    }
    assert raw[41..44] == Base64Url(b)[40..43];
    TailUndoes(raw[41..44]);
  }

  lemma CanonicalTail(b: Bytes)
    requires |b| == 32
    ensures |Base64Url(b)| == 43 && Base64Url(b)[40..43] == Quantum(b[30], b[31], 0)[..3]
  {
    hide Quantum;
    WholeQuanta(b[..30], b[30..]);
    assert b == b[..30] + b[30..];
    assert Base64Url(b[30..]) == Quantum(b[30], b[31], 0)[..3];
  }

  lemma {:induction false} Readable(s: Bytes)
    requires forall i :: 0 <= i < |s| ==> Position(s[i]).Some?
    ensures Number(s).Some?
  {
    if s != [] {
      Readable(s[..|s| - 1]);
    }
  }

  lemma NotCanonical(raw: Bytes, from: nat, to: nat)
    requires 1 <= from <= to <= 44 <= |raw| && Number(raw[from..to]).None?
    ensures !Canonical(raw)
  {
    if Canonical(raw) {
      CanonicalShape(raw);
      Readable(raw[from..to]);
    }
  }

  /** Ten groups of four digits into the first thirty bytes. */
  method DecodeGroups(raw: Bytes, decoded: array<Byte>) returns (ok: bool)
    requires |raw| == 45 && decoded.Length == 32
    modifies decoded
    ensures ok ==> Base64Url(decoded[..30]) == raw[1..41]
    ensures !ok ==> !Canonical(raw)
  {
    hide Quantum, Base64Url, Number, Canonical;
    Nothing();
    for group := 0 to 10
      invariant Base64Url(decoded[..group * 3]) == raw[1..1 + group * 4]
    {
      var value := ReadDigits(raw, 1 + group * 4, 5 + group * 4);
      if value.None? {
        NotCanonical(raw, 1 + group * 4, 5 + group * 4);
        return false;
      }
      GroupUndoes(raw[1 + group * 4..5 + group * 4]);
      ghost var done := decoded[..group * 3];
      decoded[group * 3] := value.value / 0x1_0000;
      decoded[group * 3 + 1] := value.value / 0x100 % 0x100;
      decoded[group * 3 + 2] := value.value % 0x100;
      assert decoded[..group * 3] == done;
      AddQuantum(done, decoded[..group * 3 + 3], raw[1..1 + group * 4], raw[1..5 + group * 4]);
    }
    return true;
  }

  /** The last three digits into the last two bytes. */
  method DecodeTail(raw: Bytes, decoded: array<Byte>) returns (ok: bool)
    requires |raw| == 45 && decoded.Length == 32 && Base64Url(decoded[..30]) == raw[1..41]
    modifies decoded
    ensures ok ==> Base64Url(decoded[..]) == raw[1..44]
    ensures !ok ==> !Canonical(raw)
  {
    var tail := ReadDigits(raw, 41, 44);
    if tail.None? || tail.value % 4 != 0 {
      if Canonical(raw) { CanonicalShape(raw); }
      return false;
    }
    TailUndoes(raw[41..44]);
    ghost var done := decoded[..30];
    decoded[30] := tail.value / 4 / 0x100;
    decoded[31] := tail.value / 4 % 0x100;
    assert decoded[..30] == done;
    AddTail(done, decoded[..], raw[1..41], raw[1..44]);
    return true;
  }

  lemma Requoted(raw: Bytes, b: Bytes)
    requires |raw| == 45 && raw[0] == QUOTE && raw[44] == QUOTE && |b| == 32 && Base64Url(b) == raw[1..44]
    ensures raw == Quoted(b) && Canonical(raw)
  {
  }

  method Fill(output: array<Byte>, bytes: Bytes)
    requires output.Length == |bytes|
    modifies output
    ensures output[..] == bytes
  {
    for i := 0 to |bytes|
      invariant output[..i] == bytes[..i]
    {
      output[i] := bytes[i];
    }
  }

  /**
  Succeeds on exactly the canonical spellings, with the secret they spell in the buffer, which is
  all zeros otherwise.  The final comparison never refuses what the tail check let through.
  */
  method DecodeSecret(raw: Bytes, output: array<Byte>) returns (ok: bool)
    requires output.Length == 32
    modifies output
    ensures ok <==> Canonical(raw)
    ensures ok ==> raw == Quoted(output[..])
    ensures !ok ==> output[..] == seq(32, _ => 0)
  {
    hide Base64Url, Quantum, Quoted, Canonical;
    Fill(output, seq(32, _ => 0));
    if |raw| != 45 || raw[0] != QUOTE || raw[44] != QUOTE {
      if Canonical(raw) { CanonicalShape(raw); }
      return false;
    }
    var decoded := new Byte[32](_ => 0);
    ok := DecodeGroups(raw, decoded);
    if !ok { return; }
    ok := DecodeTail(raw, decoded);
    if !ok { return; }
    var canonical := Reencode(decoded);
    ok := canonical[..] == raw[1..44];
    assert ok;
    Requoted(raw, decoded[..]);
    if ok {
      Fill(output, decoded[..]);
    }
  }
}
