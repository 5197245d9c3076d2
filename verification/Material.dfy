/**
The host-control v2 material envelope: a magic, six big-endian lengths and six fields.  Encoder and
decoder check in different orders, yet each payload is decodable exactly when it is the encoding of
what it decodes to.
*/
module Material {
  import opened Common
  import opened CanonicalCbor

  const MAX_FIELD_BYTES: nat := 64 * 1024
  const MAX_MATERIAL_BYTES: nat := 384 * 1024
  const HEADER_BYTES: nat := 32
  /** `DTXBMT01`. */
  const MATERIAL_MAGIC: Bytes := [0x44, 0x54, 0x58, 0x42, 0x4d, 0x54, 0x30, 0x31]

  datatype Operation = Prepare | Finalize

  datatype Material = Material(
    config: Bytes, enrollmentCa: Bytes, controlCa: Bytes, issuerCa: Bytes, plan: Bytes, handoff: Bytes)

  datatype CodecError =
    | InvalidFrame | InvalidHeader | UnsupportedProtocol | InvalidSha256 | DigestMismatch
    | InvalidMaterial | MissingMaterial | OversizedMaterial | InvalidPlatform

  datatype Result<+T> = Ok(value: T) | Err(error: CodecError)

  function Fields(m: Material): seq<Bytes> {
    [m.config, m.enrollmentCa, m.controlCa, m.issuerCa, m.plan, m.handoff]
  }

  function OfFields(f: seq<Bytes>): Material
    requires |f| == 6
  {
    Material(f[0], f[1], f[2], f[3], f[4], f[5])
  }

  // ---- The envelope ----

  function Lengths(fields: seq<Bytes>): Bytes {
    if fields == [] then [] else Lengths(fields[..|fields| - 1]) + BigEndian(|fields[|fields| - 1]|, 4)
  }

  function Bodies(fields: seq<Bytes>): Bytes {
    if fields == [] then [] else Bodies(fields[..|fields| - 1]) + fields[|fields| - 1]
  }

  function Envelope(fields: seq<Bytes>): Bytes {
    MATERIAL_MAGIC + Lengths(fields) + Bodies(fields)
  }

  /** Length `index` as the envelope announces it. */
  function Announced(payload: Bytes, index: nat): nat
    requires 8 + 4 * index + 4 <= |payload|
  {
    FromBigEndian(payload[8 + 4 * index..8 + 4 * index + 4])
  }

  function Sum(fields: seq<Bytes>): nat {
    if fields == [] then 0 else Sum(fields[..|fields| - 1]) + |fields[|fields| - 1]|
  }

  ghost predicate Framed(payload: Bytes, fields: seq<Bytes>) {
    && HEADER_BYTES <= |payload| && payload[..8] == MATERIAL_MAGIC && |fields| == 6
    && (forall i :: 0 <= i < 6 ==> Announced(payload, i) == |fields[i]|)
    && payload[HEADER_BYTES..] == Bodies(fields)
  }

  lemma {:induction false} BodiesSize(fields: seq<Bytes>)
    ensures |Bodies(fields)| == Sum(fields)
  {
    if fields != [] {
      BodiesSize(fields[..|fields| - 1]);
    }
  }

  lemma {:induction false} LengthsAt(fields: seq<Bytes>, i: nat)
    requires i < |fields|
    ensures |Lengths(fields)| == 4 * |fields| && Lengths(fields)[4 * i..4 * i + 4] == BigEndian(|fields[i]|, 4)
    decreases |fields|
  {
    LengthsSize(fields);
    LengthsSize(fields[..|fields| - 1]);
    if i < |fields| - 1 {
      LengthsAt(fields[..|fields| - 1], i);
    }
  }

  lemma {:induction false} LengthsSize(fields: seq<Bytes>)
    ensures |Lengths(fields)| == 4 * |fields|
  {
    if fields != [] {
      LengthsSize(fields[..|fields| - 1]);
    }
  }

  /** A block of words that announces the sizes of the fields is their length block. */
  lemma {:induction false} LengthsUnique(fields: seq<Bytes>, block: Bytes)
    requires |block| == 4 * |fields|
    requires forall i :: 0 <= i < |fields| ==> FromBigEndian(block[4 * i..4 * i + 4]) == |fields[i]|
    ensures block == Lengths(fields)
  {
    hide BigEndian, FromBigEndian, Power256;
    if fields != [] {
      var n := |fields| - 1;
      var front := block[..4 * n];
      forall i | 0 <= i < n
        ensures FromBigEndian(front[4 * i..4 * i + 4]) == |fields[..n][i]|
      {
        assert front[4 * i..4 * i + 4] == block[4 * i..4 * i + 4];
      }
      LengthsUnique(fields[..n], front);
      FromBigEndianRoundTrip(block[4 * n..4 * n + 4]);
      assert block == front + block[4 * n..4 * n + 4];
    }
  }

  lemma FramedExactly(payload: Bytes, fields: seq<Bytes>)
    requires |fields| == 6
    ensures Framed(payload, fields)
            <==> payload == Envelope(fields) && forall i :: 0 <= i < 6 ==> |fields[i]| < 0x1_0000_0000
  {
    if Framed(payload, fields) {
      FramedIsEnvelope(payload, fields);
    }
    if payload == Envelope(fields) && forall i :: 0 <= i < 6 ==> |fields[i]| < 0x1_0000_0000 {
      EnvelopeIsFramed(fields);
    }
  }

  lemma SameWord(payload: Bytes, i: nat)
    requires i < 6 && HEADER_BYTES <= |payload|
    ensures payload[8..HEADER_BYTES][4 * i..4 * i + 4] == payload[8 + 4 * i..8 + 4 * i + 4]
  {
    var block := payload[8..HEADER_BYTES];
    assert forall k :: 0 <= k < |block| ==> block[k] == payload[8 + k];
    var word := block[4 * i..4 * i + 4];
    assert word[0] == block[4 * i] && word[1] == block[4 * i + 1] && word[2] == block[4 * i + 2] && word[3] == block[4 * i + 3];
  }

  lemma FramedIsEnvelope(payload: Bytes, fields: seq<Bytes>)
    requires |fields| == 6 && Framed(payload, fields)
    ensures payload == Envelope(fields) && forall i :: 0 <= i < 6 ==> |fields[i]| < 0x1_0000_0000
  {
    hide BigEndian, FromBigEndian, Power256, Lengths, Bodies;
    var block := payload[8..HEADER_BYTES];
    forall i | 0 <= i < 6
      ensures FromBigEndian(block[4 * i..4 * i + 4]) == |fields[i]| < 0x1_0000_0000
    {
      SameWord(payload, i);
      FromBigEndianRoundTrip(block[4 * i..4 * i + 4]);
      Powers();
    }
    LengthsUnique(fields, block);
    assert payload == payload[..8] + block + payload[HEADER_BYTES..];
  }

  lemma EnvelopeIsFramed(fields: seq<Bytes>)
    requires |fields| == 6 && forall i :: 0 <= i < 6 ==> |fields[i]| < 0x1_0000_0000
    ensures Framed(Envelope(fields), fields)
  {
    hide BigEndian, FromBigEndian, Power256, Lengths, Bodies;
    var payload := Envelope(fields);
    LengthsSize(fields);
    forall i | 0 <= i < 6
      ensures Announced(payload, i) == |fields[i]|
    {
      LengthsAt(fields, i);
      assert payload[8 + 4 * i..8 + 4 * i + 4] == Lengths(fields)[4 * i..4 * i + 4];
      Powers();
      BigEndianRoundTrip(|fields[i]|, 4);
    }
    assert payload[HEADER_BYTES..] == Bodies(fields);
  }

  // ---- Encoding ----

  predicate Absent(m: Material) {
    m.config == [] && m.enrollmentCa == [] && m.controlCa == [] && m.issuerCa == []
  }

  /** Each required field is present and within its bound. */
  predicate Required(f: seq<Bytes>) {
    forall i :: 0 <= i < |f| ==> 0 < |f[i]| <= MAX_FIELD_BYTES
  }

  function ValidateMaterial(m: Material, op: Operation, json: Bytes -> bool): Result<()> {
    if !Required(if op.Prepare? then Fields(m) else Fields(m)[4..]) then Err(MissingMaterial)
    else if op.Finalize? && !Absent(m) then Err(InvalidMaterial)
    else if !json(m.plan) || !json(m.handoff) then Err(InvalidMaterial)
    else Ok(())
  }

  function Encoding(m: Material, op: Operation, json: Bytes -> bool): Result<Bytes> {
    var valid := ValidateMaterial(m, op, json);
    if valid.Err? then Err(valid.error)
    else if HEADER_BYTES + Sum(Fields(m)) > MAX_MATERIAL_BYTES then Err(OversizedMaterial)
    else Ok(Envelope(Fields(m)))
  }

  lemma Prefix(fields: seq<Bytes>, i: nat)
    requires i < |fields|
    ensures Lengths(fields[..i + 1]) == Lengths(fields[..i]) + BigEndian(|fields[i]|, 4)
    ensures Bodies(fields[..i + 1]) == Bodies(fields[..i]) + fields[i]
    ensures Sum(fields[..i + 1]) == Sum(fields[..i]) + |fields[i]|
  {
    assert fields[..i + 1][..i] == fields[..i];
  }

  lemma Empty()
    ensures Lengths([]) == [] && Bodies([]) == [] && Sum([]) == 0
  {
  }

  method TotalBytes(fields: seq<Bytes>) returns (total: nat)
    ensures total == HEADER_BYTES + Sum(fields)
  {
    total := HEADER_BYTES;
    for i := 0 to |fields|
      invariant total == HEADER_BYTES + Sum(fields[..i])
    {
      Prefix(fields, i);
      total := total + |fields[i]|;
    }
    assert fields[..|fields|] == fields;
  }

  method WriteEnvelope(fields: seq<Bytes>) returns (out: Bytes)
    ensures out == Envelope(fields)
  {
    hide Lengths, Bodies, Sum, BigEndian;
    Empty();
    assert fields[..0] == [];
    out := MATERIAL_MAGIC;
    for i := 0 to |fields|
      invariant out == MATERIAL_MAGIC + Lengths(fields[..i])
    {
      Prefix(fields, i);
      out := out + BigEndian(|fields[i]|, 4);
    }
    assert fields[..|fields|] == fields;
    for i := 0 to |fields|
      invariant out == MATERIAL_MAGIC + Lengths(fields) + Bodies(fields[..i])
    {
      Prefix(fields, i);
      out := out + fields[i];
    }
  }

  method EncodeFor(m: Material, op: Operation, json: Bytes -> bool) returns (r: Result<Bytes>)
    ensures r == Encoding(m, op, json)
  {
    var valid := ValidateMaterial(m, op, json);
    if valid.Err? { return Err(valid.error); }
    var total := TotalBytes(Fields(m));
    if total > MAX_MATERIAL_BYTES { return Err(OversizedMaterial); }
    var out := WriteEnvelope(Fields(m));
    return Ok(out);
  }

  // ---- Decoding ----

  /** What is checked once the six fields are cut out. */
  function Judge(m: Material, size: nat, op: Operation, json: Bytes -> bool): Result<Material> {
    if op.Finalize? && !Absent(m) then Err(InvalidMaterial)
    else if m.plan == [] || m.handoff == [] then Err(MissingMaterial)
    else if op.Prepare? && (m.config == [] || m.enrollmentCa == [] || m.controlCa == [] || m.issuerCa == [])
    then Err(MissingMaterial)
    else if (|m.config| > MAX_FIELD_BYTES || |m.enrollmentCa| > MAX_FIELD_BYTES || |m.controlCa| > MAX_FIELD_BYTES
             || |m.issuerCa| > MAX_FIELD_BYTES || |m.plan| > MAX_FIELD_BYTES || |m.handoff| > MAX_FIELD_BYTES
             || size > MAX_MATERIAL_BYTES)
    then Err(OversizedMaterial)
    else if !json(m.plan) || !json(m.handoff) then Err(InvalidMaterial)
    else Ok(m)
  }

  /** Both orders of checks admit the same material. */
  lemma JudgeAgrees(m: Material, op: Operation, json: Bytes -> bool)
    ensures Judge(m, HEADER_BYTES + Sum(Fields(m)), op, json) == Ok(m) <==> Encoding(m, op, json).Ok?
  {
    var f := Fields(m);
    assert f[4..] == [m.plan, m.handoff];
    if op.Prepare? {
      assert Required(f) <==> forall i :: 0 <= i < 6 ==> 0 < |f[i]| <= MAX_FIELD_BYTES;
      if Judge(m, HEADER_BYTES + Sum(Fields(m)), op, json) == Ok(m) {
        assert forall i :: 0 <= i < 6 ==> 0 < |f[i]| <= MAX_FIELD_BYTES;
      }
      if Required(f) {
        assert |f[0]| > 0 && |f[1]| > 0 && |f[2]| > 0 && |f[3]| > 0 && |f[4]| > 0 && |f[5]| > 0;
      }
    } else {
      var g: seq<Bytes> := f[4..];
      assert Required(g) <==> 0 < |g[0]| <= MAX_FIELD_BYTES && 0 < |g[1]| <= MAX_FIELD_BYTES;
    }
  }

  /** Decoding succeeds on nothing but encodings, and undoes every encoding. */
  method DecodeMaterial(payload: Bytes, op: Operation, json: Bytes -> bool) returns (r: Result<Material>)
    ensures r.Ok? ==> Encoding(r.value, op, json) == Ok(payload)
    ensures forall m :: Encoding(m, op, json) == Ok(payload) ==> r == Ok(m)
    ensures forall f :: Framed(payload, f) ==> r == Judge(OfFields(f), |payload|, op, json)
    ensures (forall f :: !Framed(payload, f)) ==> r == Err(InvalidMaterial)
  {
    if |payload| < HEADER_BYTES || payload[..8] != MATERIAL_MAGIC {
      NoEncoding(payload, op, json);
      return Err(InvalidMaterial);
    }
    var fields := CutFields(payload);
    if fields.None? {
      NoEncoding(payload, op, json);
      return Err(InvalidMaterial);
    }
    OneFraming(payload, fields.value);
    r := Judge(OfFields(fields.value), |payload|, op, json);
    Verdict(payload, fields.value, op, json);
  }

  /** The two loops: six lengths, then six fields from a running offset that must end at the end. */
  method CutFields(payload: Bytes) returns (r: Option<seq<Bytes>>)
    requires HEADER_BYTES <= |payload| && payload[..8] == MATERIAL_MAGIC
    ensures r.Some? ==> Framed(payload, r.value)
    ensures r.None? ==> forall f :: !Framed(payload, f)
  {
    var lengths := new nat[6];
    for index := 0 to 6
      invariant forall i :: 0 <= i < index ==> lengths[i] == Announced(payload, i)
    {
      lengths[index] := Announced(payload, index);
    }
    var offset := HEADER_BYTES;
    var fields: seq<Bytes> := [];
    for index := 0 to 6
      invariant |fields| == index && HEADER_BYTES <= offset <= |payload|
      invariant forall i :: 0 <= i < index ==> |fields[i]| == lengths[i]
      invariant payload[HEADER_BYTES..offset] == Bodies(fields)
    {
      var end := offset + lengths[index];
      if end > |payload| {
        forall f | Framed(payload, f)
          ensures false
        {
          TooLong(payload, fields, f);
        }
        return None;
      }
      assert payload[HEADER_BYTES..end] == payload[HEADER_BYTES..offset] + payload[offset..end];
      assert (fields + [payload[offset..end]])[..index] == fields;
      fields := fields + [payload[offset..end]];
      offset := end;
    }
    if offset != |payload| {
      forall f | Framed(payload, f)
        ensures false
      {
        SameSums(payload, fields, f, 6);
        assert f[..6] == f && fields[..6] == fields;
        BodiesSize(f);
        BodiesSize(fields);
      }
      return None;
    }
    return Some(fields);
  }

  lemma {:induction false} SameSums(payload: Bytes, fields: seq<Bytes>, f: seq<Bytes>, n: nat)
    requires Framed(payload, f) && n <= |fields| && n <= 6
    requires forall i :: 0 <= i < n ==> |fields[i]| == Announced(payload, i)
    ensures Sum(f[..n]) == Sum(fields[..n])
  {
    if n > 0 {
      SameSums(payload, fields, f, n - 1);
      Prefix(f, n - 1);
      Prefix(fields, n - 1);
    }
  }

  lemma {:induction false} SumGrows(f: seq<Bytes>, n: nat)
    requires n <= |f|
    ensures Sum(f[..n]) <= Sum(f)
    decreases |f| - n
  {
    if n < |f| {
      Prefix(f, n);
      SumGrows(f, n + 1);
    } else {
      assert f[..n] == f;
    }
  }

  /** The fields cut so far and the next length already run past the end. */
  lemma TooLong(payload: Bytes, fields: seq<Bytes>, f: seq<Bytes>)
    requires Framed(payload, f) && |fields| < 6
    requires forall i :: 0 <= i < |fields| ==> |fields[i]| == Announced(payload, i)
    ensures HEADER_BYTES + |Bodies(fields)| + Announced(payload, |fields|) <= |payload|
  {
    var n := |fields|;
    SameSums(payload, fields, f, n);
    assert fields[..n] == fields;
    BodiesSize(fields);
    BodiesSize(f);
    Prefix(f, n);
    SumGrows(f, n + 1);
  }

  /** A payload frames at most one six of fields. */
  lemma OneFraming(payload: Bytes, fields: seq<Bytes>)
    requires Framed(payload, fields)
    ensures forall f :: Framed(payload, f) ==> f == fields
  {
    forall f | Framed(payload, f)
      ensures f == fields
    {
      SameCuts(f, fields);
    }
  }

  lemma {:induction false} SameCuts(f: seq<Bytes>, g: seq<Bytes>)
    requires |f| == |g| && (forall i :: 0 <= i < |f| ==> |f[i]| == |g[i]|) && Bodies(f) == Bodies(g)
    ensures f == g
  {
    if f != [] {
      var n := |f| - 1;
      assert f[n] == Bodies(f)[|Bodies(f)| - |f[n]|..] && g[n] == Bodies(g)[|Bodies(g)| - |g[n]|..];
      assert Bodies(f[..n]) == Bodies(f)[..|Bodies(f)| - |f[n]|];
      assert Bodies(g[..n]) == Bodies(g)[..|Bodies(g)| - |g[n]|];
      SameCuts(f[..n], g[..n]);
      assert f == f[..n] + [f[n]] && g == g[..n] + [g[n]];
    }
  }

  lemma EncodingFrames(m: Material, op: Operation, json: Bytes -> bool)
    requires Encoding(m, op, json).Ok?
    ensures Framed(Encoding(m, op, json).value, Fields(m))
    ensures |Encoding(m, op, json).value| == HEADER_BYTES + Sum(Fields(m))
  {
    var f := Fields(m);
    JudgeAgrees(m, op, json);
    FramedExactly(Envelope(f), f);
    LengthsSize(f);
    BodiesSize(f);
  }

  lemma NoEncoding(payload: Bytes, op: Operation, json: Bytes -> bool)
    requires forall f :: !Framed(payload, f)
    ensures forall m :: Encoding(m, op, json) != Ok(payload)
  {
    forall m
      ensures Encoding(m, op, json) != Ok(payload)
    {
      if Encoding(m, op, json) == Ok(payload) {
        EncodingFrames(m, op, json);
      }
    }
  }

  lemma Verdict(payload: Bytes, f: seq<Bytes>, op: Operation, json: Bytes -> bool)
    requires Framed(payload, f)
    ensures forall m :: Judge(OfFields(f), |payload|, op, json) == Ok(m) <==> Encoding(m, op, json) == Ok(payload)
  {
    hide Judge, Encoding, Sum, Lengths, Bodies;
    FramedSize(payload, f);
    assert Fields(OfFields(f)) == f;
    JudgeAgrees(OfFields(f), op, json);
    EncodesTo(OfFields(f), op, json);
    Judged(OfFields(f), |payload|, op, json);
    forall m | Encoding(m, op, json) == Ok(payload)
      ensures m == OfFields(f)
    {
      EncodingFrames(m, op, json);
      OneFraming(payload, f);
    }
  }

  lemma FramedSize(payload: Bytes, f: seq<Bytes>)
    requires Framed(payload, f)
    ensures payload == Envelope(f) && |payload| == HEADER_BYTES + Sum(f)
  {
    FramedExactly(payload, f);
    BodiesSize(f);
  }

  lemma EncodesTo(m: Material, op: Operation, json: Bytes -> bool)
    ensures Encoding(m, op, json).Ok? ==> Encoding(m, op, json).value == Envelope(Fields(m))
  {
  }

  lemma Judged(m: Material, size: nat, op: Operation, json: Bytes -> bool)
    ensures Judge(m, size, op, json).Ok? ==> Judge(m, size, op, json).value == m
  {
  }

  /** Six maximal fields pass every single bound and are still refused. */
  lemma SixMaximalFieldsExceed(m: Material, json: Bytes -> bool)
    requires forall i :: 0 <= i < 6 ==> |Fields(m)[i]| == MAX_FIELD_BYTES
    requires json(m.plan) && json(m.handoff)
    ensures ValidateMaterial(m, Prepare, json).Ok? && Encoding(m, Prepare, json) == Err(OversizedMaterial)
  {
    var f := Fields(m);
    Prefix(f, 0); Prefix(f, 1); Prefix(f, 2); Prefix(f, 3); Prefix(f, 4); Prefix(f, 5);
    assert f[..6] == f && Sum(f[..0]) == 0;
  }
}
