/**
The strict DER reader for Ed25519 private keys: definite lengths in the fewest octets (section
10.1 of X.690), one accepted shape (section 7 of RFC 8410).
*/
module StrictDer {
  import opened Common
  import opened CanonicalCbor

  const USIZE_LIMIT: nat := 0x1_0000_0000_0000_0000
  const USIZE_BYTES: nat := 8

  /** No slice is longer than `isize::MAX` bytes. */
  type Slice = b: Bytes | |b| < 0x8000_0000_0000_0000

  // ---- The encoding ----

  /** Octets a number needs in base 256. */
  function Octets(n: nat): (k: nat)
    ensures k >= 1
  {
    if n < 256 then 1 else 1 + Octets(n / 256)
  }

  function LengthOctets(n: nat): Bytes
    requires n < USIZE_LIMIT
  {
    FewOctets(n);
    if n < 128 then [n] else [0x80 + Octets(n)] + BigEndian(n, Octets(n))
  }

  function Encoded(tag: Byte, content: Slice): Bytes {
    [tag] + LengthOctets(|content|) + content
  }

  /** Short form up to 127, then one octet of count and as few as suffice (section 8.1.3 of X.690). */
  lemma LengthExamples()
    ensures LengthOctets(0) == [0] && LengthOctets(127) == [0x7f] && LengthOctets(128) == [0x81, 0x80]
    ensures LengthOctets(201) == [0x81, 0xc9] && LengthOctets(256) == [0x82, 0x01, 0x00]
  {
    assert BigEndian(128, 1) == [0x80] && BigEndian(201, 1) == [0xc9];
    assert Octets(256) == 2 && BigEndian(256, 2) == [1, 0] by { assert BigEndian(1, 1) == [1]; }
  }

  lemma FewOctets(n: nat)
    requires n < USIZE_LIMIT
    ensures Octets(n) <= USIZE_BYTES
  {
    Powers();
    FewerOctets(n, 8);
  }

  lemma {:induction false} FewerOctets(n: nat, width: nat)
    requires width >= 1 && n < Power256(width)
    ensures Octets(n) <= width
  {
    if n >= 256 {
      FewerOctets(n / 256, width - 1);
    }
  }

  /** A number written without a leading zero takes exactly the octets it needs. */
  lemma {:induction false} Minimal(b: Bytes)
    requires b != [] && b[0] != 0
    ensures Octets(FromBigEndian(b)) == |b| && FromBigEndian(b) > 0
  {
    var front := b[..|b| - 1];
    if front != [] {
      Minimal(front);
      assert FromBigEndian(b) / 256 == FromBigEndian(front);
    }
  }

  lemma {:induction false} LeadingOctet(n: nat)
    requires n > 0
    ensures BigEndian(n, Octets(n))[0] != 0 && FromBigEndian(BigEndian(n, Octets(n))) == n
  {
    if n < 256 {
      assert BigEndian(n, 1) == BigEndian(n / 256, 0) + [n % 256];
    } else {
      LeadingOctet(n / 256);
      var front := BigEndian(n / 256, Octets(n / 256));
      assert BigEndian(n, Octets(n)) == front + [n % 256];
      assert (front + [n % 256])[..|front|] == front;
    }
  }

  // ---- The reader ----

  function CheckedAdd(a: nat, b: nat): Option<nat> {
    if a + b < USIZE_LIMIT then Some(a + b) else None
  }

  /** `try_fold` of `value * 256 + byte` with overflow checks. */
  function CheckedNumber(b: Bytes): Option<nat> {
    if b == [] then Some(0)
    else
      var front :- CheckedNumber(b[..|b| - 1]);
      if front * 256 >= USIZE_LIMIT then None else CheckedAdd(front * 256, b[|b| - 1])
  }

  function Get(input: Bytes, from: nat, to: nat): Option<Bytes> {
    if from <= to <= |input| then Some(input[from..to]) else None
  }

  /** Length and header size at `offset`. */
  function ReadLength(input: Slice, offset: nat): Option<(nat, nat)>
    requires offset < |input|
  {
    var first :- Get(input, offset + 1, offset + 2);
    if first[0] < 0x80 then Some((first[0], 2))
    else
      var count := first[0] - 0x80;
      var _ :- Need(0 < count <= USIZE_BYTES);
      var end :- CheckedAdd(offset, 2 + count);
      var bytes :- Get(input, offset + 2, end);
      var _ :- Need(bytes[0] != 0);
      var length :- CheckedNumber(bytes);
      var _ :- Need(length >= 128);
      Some((length, 2 + count))
  }

  function Tlv(input: Slice, offset: nat, tag: Byte): Option<(Slice, nat)> {
    var first :- Get(input, offset, offset + 1);
    var _ :- Need(first[0] == tag);
    var header :- ReadLength(input, offset);
    var start :- CheckedAdd(offset, header.1);
    var end :- CheckedAdd(start, header.0);
    var content :- Get(input, start, end);
    Some((content, end))
  }

  lemma {:induction false} CheckedNumberExact(b: Bytes)
    requires |b| <= USIZE_BYTES
    ensures FromBigEndian(b) < USIZE_LIMIT && CheckedNumber(b) == Some(FromBigEndian(b))
  {
    WideFits(b);
    if b != [] {
      CheckedNumberExact(b[..|b| - 1]);
    }
  }

  /** A length is read exactly where its minimal form stands. */
  lemma LengthExact(input: Slice, offset: nat, n: nat, size: nat)
    requires offset < |input|
    ensures ReadLength(input, offset) == Some((n, size)) <==>
      && n < USIZE_LIMIT && size == 1 + |LengthOctets(n)| && offset + size <= |input|
      && input[offset + 1..offset + size] == LengthOctets(n)
  {
    if ReadLength(input, offset) == Some((n, size)) {
      LengthIsMinimal(input, offset, n, size);
    }
    if (&& n < USIZE_LIMIT && size == 1 + |LengthOctets(n)| && offset + size <= |input|
        && input[offset + 1..offset + size] == LengthOctets(n)) {
      MinimalIsRead(input, offset, n);
    }
  }

  lemma LengthIsMinimal(input: Slice, offset: nat, n: nat, size: nat)
    requires offset < |input| && ReadLength(input, offset) == Some((n, size))
    ensures n < USIZE_LIMIT && size == 1 + |LengthOctets(n)| && offset + size <= |input|
    ensures input[offset + 1..offset + size] == LengthOctets(n)
  {
    hide Octets, BigEndian, FromBigEndian, Power256, CheckedNumber;
    var first := input[offset + 1];
    if first >= 0x80 {
      var count := first - 0x80;
      var bytes := input[offset + 2..offset + 2 + count];
      CheckedNumberExact(bytes);
      Minimal(bytes);
      FromBigEndianRoundTrip(bytes);
      assert input[offset + 1..offset + 2 + count] == [first] + bytes;
    }
  }

  lemma MinimalIsRead(input: Slice, offset: nat, n: nat)
    requires offset < |input| && n < USIZE_LIMIT
    requires var size := 1 + |LengthOctets(n)|;
      offset + size <= |input| && input[offset + 1..offset + size] == LengthOctets(n)
    ensures ReadLength(input, offset) == Some((n, 1 + |LengthOctets(n)|))
  {
    hide Octets, BigEndian, FromBigEndian, Power256, CheckedNumber;
    var octets := LengthOctets(n);
    var part := input[offset + 1..offset + 1 + |octets|];
    assert input[offset + 1] == part[0];
    if n >= 128 {
      FewOctets(n);
      var bytes := input[offset + 2..offset + 2 + Octets(n)];
      assert bytes == part[1..] == BigEndian(n, Octets(n));
      LeadingOctet(n);
      CheckedNumberExact(bytes);
    }
  }

  lemma SubSlice(s: Bytes, a: nat, b: nat, c: nat, d: nat)
    requires a <= b <= |s| && c <= d <= b - a
    ensures s[a..b][c..d] == s[a + c..a + d]
  {
    var t := s[a..b];
    assert forall i :: 0 <= i < |t| ==> t[i] == s[a + i];
    assert forall i :: 0 <= i < d - c ==> t[c..d][i] == t[c + i] == s[a + (c + i)];
  }

  /** An element is read exactly where its one encoding stands, and lies within the input. */
  lemma TlvExact(input: Slice, offset: nat, tag: Byte, content: Slice, end: nat)
    ensures Tlv(input, offset, tag) == Some((content, end)) <==>
      && end == offset + |Encoded(tag, content)| && end <= |input|
      && input[offset..end] == Encoded(tag, content)
  {
    hide Tlv, Encoded;
    if Tlv(input, offset, tag) == Some((content, end)) {
      ReadIsEncoded(input, offset, tag, content, end);
    }
    if end == offset + |Encoded(tag, content)| && end <= |input| && input[offset..end] == Encoded(tag, content) {
      EncodedIsRead(input, offset, tag, content, end);
    }
  }

  lemma ReadIsEncoded(input: Slice, offset: nat, tag: Byte, content: Slice, end: nat)
    requires Tlv(input, offset, tag) == Some((content, end))
    ensures end == offset + |Encoded(tag, content)| && end <= |input| && input[offset..end] == Encoded(tag, content)
  {
    hide LengthOctets, ReadLength;
    var octets := LengthOctets(|content|);
    var (n, size) := ReadLength(input, offset).value;
    LengthExact(input, offset, n, size);
    var start := offset + 1 + |octets|;
    assert input[offset..end] == [input[offset]] + input[offset + 1..start] + input[start..end];
  }

  lemma EncodedIsRead(input: Slice, offset: nat, tag: Byte, content: Slice, end: nat)
    requires end == offset + |Encoded(tag, content)| && end <= |input| && input[offset..end] == Encoded(tag, content)
    ensures Tlv(input, offset, tag) == Some((content, end))
  {
    hide LengthOctets, ReadLength;
    var octets, part := LengthOctets(|content|), input[offset..end];
    assert part == [tag] + octets + content && input[offset] == part[0];
    assert part[1..1 + |octets|] == octets && part[1 + |octets|..] == content;
    SubSlice(input, offset, end, 1, 1 + |octets|);
    SubSlice(input, offset, end, 1 + |octets|, |part|);
    LengthExact(input, offset, |content|, 1 + |octets|);
  }

  // ---- Ed25519 private keys ----

  const PREFIX: Bytes := [0x30, 0x2e, 0x02, 0x01, 0x00, 0x30, 0x05, 0x06, 0x03, 0x2b, 0x65, 0x70, 0x04, 0x22, 0x04, 0x20]
  const ED25519: Bytes := [0x06, 0x03, 0x2b, 0x65, 0x70]

  function ParsePkcs8(der: Slice): Option<Bytes> {
    var outer :- Tlv(der, 0, 0x30);
    var _ :- Need(outer.1 == |der|);
    var version :- Tlv(outer.0, 0, 0x02);
    var _ :- Need(version.0 == [0]);
    var algorithm :- Tlv(outer.0, version.1, 0x30);
    var _ :- Need(algorithm.0 == ED25519);
    var key :- Tlv(outer.0, algorithm.1, 0x04);
    var _ :- Need(key.1 == |outer.0|);
    var seed :- Tlv(key.0, 0, 0x04);
    var _ :- Need(seed.1 == |key.0| && |seed.0| == 32);
    Some(seed.0)
  }

  /** Version, algorithm and wrapped seed. */
  function Inner(seed: Bytes): Slice
    requires |seed| == 32
  {
    Short(0x02, [0]);
    Short(0x30, ED25519);
    Short(0x04, [0x04, 0x20] + seed);
    Encoded(0x02, [0]) + Encoded(0x30, ED25519) + Encoded(0x04, [0x04, 0x20] + seed)
  }

  lemma Short(tag: Byte, content: Slice)
    requires |content| < 128
    ensures Encoded(tag, content) == [tag, |content|] + content
  {
  }

  lemma Spelled(seed: Slice)
    requires |seed| == 32
    ensures Encoded(0x04, seed) == [0x04, 0x20] + seed
    ensures |Inner(seed)| == 46 && Encoded(0x30, Inner(seed)) == PREFIX + seed
  {
    hide Encoded;
    Short(0x04, seed);
    Short(0x02, [0]);
    Short(0x30, ED25519);
    Short(0x04, [0x04, 0x20] + seed);
    assert Inner(seed) == [0x02, 0x01, 0x00, 0x30, 0x05, 0x06, 0x03, 0x2b, 0x65, 0x70, 0x04, 0x22, 0x04, 0x20] + seed;
    Short(0x30, Inner(seed));
  }

  /** An input of any length is accepted exactly when it is the fixed prefix and the seed returned. */
  lemma Pkcs8Exact(der: Slice, seed: Bytes)
    ensures ParsePkcs8(der) == Some(seed) <==> |seed| == 32 && der == PREFIX + seed
  {
    if ParsePkcs8(der) == Some(seed) {
      AcceptedIsFixed(der, seed);
    }
    if |seed| == 32 && der == PREFIX + seed {
      FixedIsAccepted(der, seed);
    }
  }

  lemma AcceptedIsFixed(der: Slice, seed: Slice)
    requires ParsePkcs8(der) == Some(seed)
    ensures |seed| == 32 && der == PREFIX + seed
  {
    hide Tlv, Encoded, Inner;
    var outer := Tlv(der, 0, 0x30).value.0;
    TlvExact(der, 0, 0x30, outer, |der|);
    var v := Tlv(outer, 0, 0x02).value.1;
    TlvExact(outer, 0, 0x02, [0], v);
    var a := Tlv(outer, v, 0x30).value.1;
    TlvExact(outer, v, 0x30, ED25519, a);
    var key := Tlv(outer, a, 0x04).value.0;
    TlvExact(outer, a, 0x04, key, |outer|);
    TlvExact(key, 0, 0x04, seed, |key|);
    Spelled(seed);
    assert der == der[0..|der|] && key == key[0..|key|];
    assert outer == outer[0..v] + outer[v..a] + outer[a..|outer|];
    InnerIs(seed);
  }

  lemma InnerIs(seed: Slice)
    requires |seed| == 32
    ensures Inner(seed) == Encoded(0x02, [0]) + Encoded(0x30, ED25519) + Encoded(0x04, [0x04, 0x20] + seed)
  {
  }

  lemma FixedIsAccepted(der: Slice, seed: Slice)
    requires |seed| == 32 && der == PREFIX + seed
    ensures ParsePkcs8(der) == Some(seed)
  {
    hide Tlv, Encoded, Inner;
    Spelled(seed);
    InnerIs(seed);
    Short(0x02, [0]);
    Short(0x30, ED25519);
    var outer, key := Inner(seed), [0x04, 0x20] + seed;
    Short(0x04, key);
    TlvExact(der, 0, 0x30, outer, |der|);
    TlvExact(outer, 0, 0x02, [0], 3);
    TlvExact(outer, 3, 0x30, ED25519, 10);
    TlvExact(outer, 10, 0x04, key, |outer|);
    TlvExact(key, 0, 0x04, seed, |key|);
    assert der == der[0..|der|] && key == key[0..|key|];
    assert outer[0..3] == Encoded(0x02, [0]) && outer[3..10] == Encoded(0x30, ED25519);
    assert outer[10..|outer|] == Encoded(0x04, key);
  }
}
