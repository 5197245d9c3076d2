/**
The host-control v2 frame: magic, header length, JSON header, payload length, payload.  The JSON
codec of the header and SHA-256 are parameters.
*/
module Frame {
  import opened Common
  import opened CanonicalCbor
  import opened Material

  /** `DTXHC02` and a zero byte. */
  const MAGIC: Bytes := [0x44, 0x54, 0x58, 0x48, 0x43, 0x30, 0x32, 0]
  const MAX_HEADER_BYTES: nat := 16 * 1024
  const MAX_FRAME_BYTES: nat := 8 + 4 + MAX_HEADER_BYTES + 4 + MAX_MATERIAL_BYTES
  /** `dirextalk.host-control.operator.v2`. */
  const PROTOCOL: string := "dirextalk.host-control.operator.v2"

  datatype Platform = LinuxAmd64 | LinuxArm64

  /** `subject` stands for the tenant, host, connector, adapter and operation identifiers. */
  datatype Header = Header(
    protocol: string, subject: Bytes, desired: nat, observed: Option<nat>, release: Bytes, platform: Platform,
    expiry: nat, plan: Bytes, handoff: Bytes, config: Option<Bytes>, enrollmentCa: Option<Bytes>,
    controlCa: Option<Bytes>, issuerCa: Option<Bytes>, lifecycleMaterial: Bytes, payload: Bytes,
    preparedReceipt: Option<Bytes>, operation: Operation)

  datatype Request = Request(header: Header, material: Option<Material>)

  datatype Environment = Environment(
    executing: Option<Platform>, digest: Bytes -> Bytes, noDuplicates: Bytes -> bool,
    fromJson: Bytes -> Option<Header>, toJson: Header -> Bytes)

  // ---- Digest texts ----

  function Nibble(c: Byte): Option<nat> {
    if '0' as int <= c <= '9' as int then Some(c - '0' as int)
    else if 'a' as int <= c <= 'f' as int then Some(c - 'a' as int + 10)
    else None
  }

  function HexDigit(n: nat): Byte
    requires n < 16
  {
    if n < 10 then '0' as int + n else 'a' as int + n - 10
  }

  function Hex(d: Bytes): Bytes {
    if d == [] then [] else Hex(d[..|d| - 1]) + [HexDigit(d[|d| - 1] / 16), HexDigit(d[|d| - 1] % 16)]
  }

  /** The sixteen digits, in order. */
  lemma HexDigits(n: nat)
    requires n < 16
    ensures HexDigit(n) as char == "0123456789abcdef"[n] && Nibble(HexDigit(n)) == Some(n)
  {
    assert n < 8 ==> n in {0, 1, 2, 3, 4, 5, 6, 7};
    assert n >= 8 ==> n in {8, 9, 10, 11, 12, 13, 14, 15};
  }

  ghost predicate Spells(text: Bytes, d: Bytes) { |d| == 32 && text == Hex(d) }

  lemma {:induction false} HexAt(d: Bytes, i: nat)
    requires i < |d|
    ensures |Hex(d)| == 2 * |d| && Hex(d)[2 * i] == HexDigit(d[i] / 16) && Hex(d)[2 * i + 1] == HexDigit(d[i] % 16)
    decreases |d|
  {
    HexSize(d);
    HexSize(d[..|d| - 1]);
    if i < |d| - 1 {
      HexAt(d[..|d| - 1], i);
    }
  }

  lemma {:induction false} HexSize(d: Bytes)
    ensures |Hex(d)| == 2 * |d|
  {
    if d != [] {
      HexSize(d[..|d| - 1]);
    }
  }

  lemma {:induction false} HexInjective(c: Bytes, d: Bytes)
    requires |c| == |d| && Hex(c) == Hex(d)
    ensures c == d
  {
    forall i | 0 <= i < |c|
      ensures c[i] == d[i]
    {
      HexAt(c, i);
      HexAt(d, i);
    }
  }

  ghost predicate SpellsDigest(text: Bytes) {
    exists d :: Spells(text, d)
  }

  lemma DigestText(text: Bytes)
    requires SpellsDigest(text)
    ensures |text| == 64 && forall i :: 0 <= i < 64 ==> Nibble(text[i]).Some?
  {
    var d :| Spells(text, d);
    HexSize(d);
    forall i | 0 <= i < 64
      ensures Nibble(text[i]).Some?
    {
      HexAt(d, i / 2);
    }
  }

  lemma HexMore(d: Bytes, high: nat, low: nat)
    requires high < 16 && low < 16
    ensures Hex(d + [high * 16 + low]) == Hex(d) + [HexDigit(high), HexDigit(low)]
  {
    var more := d + [high * 16 + low];
    assert more[..|d|] == d && (high * 16 + low) / 16 == high && (high * 16 + low) % 16 == low;
  }

  /** Accepts exactly the lower-case hexadecimal spelling of 32 bytes. */
  method DecodeDigest(text: Bytes) returns (r: Option<Bytes>)
    ensures forall d :: r == Some(d) <==> Spells(text, d)
  {
    if |text| != 64 || exists i :: 0 <= i < |text| && Nibble(text[i]).None? {
      if SpellsDigest(text) { DigestText(text); }
      return None;
    }
    var result: Bytes := [];
    assert text[..0] == Hex([]);
    hide Hex;
    for index := 0 to 32
      invariant |result| == index && text[..2 * index] == Hex(result)
    {
      var high, low := Nibble(text[2 * index]).value, Nibble(text[2 * index + 1]).value;
      HexMore(result, high, low);
      assert text[..2 * index + 2] == text[..2 * index] + [text[2 * index], text[2 * index + 1]];
      result := result + [high * 16 + low];
    }
    assert text[..64] == text;
    forall d | Spells(text, d)
      ensures d == result
    {
      HexInjective(d, result);
    }
    return Some(result);
  }

  // ---- Header ----

  ghost predicate SpellsDigestIfAny(text: Option<Bytes>) { text.Some? ==> SpellsDigest(text.value) }

  /** Generations and expiry are safe positive numbers, and what is observed is not ahead of what is desired. */
  predicate NumbersFit(h: Header) {
    && 0 < h.desired <= MAX_SAFE_INTEGER && 0 < h.expiry <= MAX_SAFE_INTEGER
    && (h.observed.Some? ==> 0 < h.observed.value <= h.desired)
  }

  /** Every digest that is there is spelt as one. */
  ghost predicate DigestsSpelt(h: Header) {
    && SpellsDigest(h.release) && SpellsDigest(h.plan) && SpellsDigest(h.handoff) && SpellsDigest(h.lifecycleMaterial)
    && SpellsDigest(h.payload) && SpellsDigestIfAny(h.config) && SpellsDigestIfAny(h.enrollmentCa)
    && SpellsDigestIfAny(h.controlCa) && SpellsDigestIfAny(h.issuerCa) && SpellsDigestIfAny(h.preparedReceipt)
  }

  /** Every component has its digest, and a receipt is named by a finalization alone. */
  predicate Complete(h: Header) {
    && h.config.Some? && h.enrollmentCa.Some? && h.controlCa.Some? && h.issuerCa.Some?
    && (h.preparedReceipt.Some? <==> h.operation.Finalize?)
  }

  predicate ForUs(env: Environment, h: Header) {
    h.protocol == PROTOCOL && env.executing == Some(h.platform)
  }

  ghost predicate HeaderValid(env: Environment, h: Header) {
    ForUs(env, h) && NumbersFit(h) && DigestsSpelt(h) && Complete(h)
  }

  /** Exactly when a verdict on a header is which error. */
  ghost predicate HeaderVerdict(env: Environment, h: Header, r: Result<()>) {
    && (r.Ok? <==> HeaderValid(env, h))
    && (r == Err(UnsupportedProtocol) <==> h.protocol != PROTOCOL)
    && (r == Err(InvalidPlatform) <==> h.protocol == PROTOCOL && env.executing != Some(h.platform))
    && (r == Err(InvalidSha256) <==> ForUs(env, h) && NumbersFit(h) && !DigestsSpelt(h))
    && (r == Err(InvalidHeader) <==> ForUs(env, h) && (!NumbersFit(h) || (DigestsSpelt(h) && !Complete(h))))
    && (r.Err? ==> r.error in {UnsupportedProtocol, InvalidPlatform, InvalidSha256, InvalidHeader})
  }

  ghost function ValidateHeader(env: Environment, h: Header): (r: Result<()>)
    ensures HeaderVerdict(env, h, r)
  {
    if h.protocol != PROTOCOL then Err(UnsupportedProtocol)
    else if env.executing != Some(h.platform) then Err(InvalidPlatform)
    else if !NumbersFit(h) then Err(InvalidHeader)
    else if !DigestsSpelt(h) then Err(InvalidSha256)
    else if !Complete(h) then Err(InvalidHeader)
    else Ok(())
  }

  /** The payload is the one the header names; a preparation's is also the lifecycle material. */
  ghost predicate PayloadMatches(env: Environment, h: Header, payload: Bytes) {
    && Spells(h.payload, env.digest(payload))
    && (payload != [] && h.operation.Prepare? ==> Spells(h.lifecycleMaterial, env.digest(payload)))
  }

  ghost predicate SpellsIf(text: Option<Bytes>, d: Bytes) { text.Some? && Spells(text.value, d) }

  ghost predicate MaterialMatches(env: Environment, h: Header, m: Material) {
    && Spells(h.plan, env.digest(m.plan)) && Spells(h.handoff, env.digest(m.handoff))
    && if h.operation.Prepare? then
         && SpellsIf(h.config, env.digest(m.config)) && SpellsIf(h.enrollmentCa, env.digest(m.enrollmentCa))
         && SpellsIf(h.controlCa, env.digest(m.controlCa)) && SpellsIf(h.issuerCa, env.digest(m.issuerCa))
       else Absent(m)
  }

  // ---- Frame ----

  function FrameBytes(header: Bytes, payload: Bytes): Bytes {
    MAGIC + BigEndian(|header|, 4) + header + BigEndian(|payload|, 4) + payload
  }

  ghost function EncodeFrame(env: Environment, h: Header, payload: Bytes): Result<Bytes> {
    var valid := ValidateHeader(env, h);
    if valid.Err? then Err(valid.error)
    else if |payload| > MAX_MATERIAL_BYTES then Err(OversizedMaterial)
    else if !PayloadMatches(env, h, payload) then Err(DigestMismatch)
    else
      var encoded := env.toJson(h);
      if encoded == [] || |encoded| > MAX_HEADER_BYTES then Err(InvalidHeader)
      else Ok(FrameBytes(encoded, payload))
  }

  /** The request a frame states: header bytes that parse to it and a payload that is its encoding. */
  ghost predicate Reads(env: Environment, input: Bytes, header: Bytes, payload: Bytes, r: Request) {
    && 0 < |header| <= MAX_HEADER_BYTES && |payload| <= MAX_MATERIAL_BYTES && input == FrameBytes(header, payload)
    && env.noDuplicates(header) && env.fromJson(header) == Some(r.header) && ValidateHeader(env, r.header).Ok?
    && PayloadMatches(env, r.header, payload)
    && (r.material.Some? <==> payload != [])
    && (r.material.Some? ==>
          && Encoding(r.material.value, r.header.operation, env.noDuplicates) == Ok(payload)
          && MaterialMatches(env, r.header, r.material.value))
  }

  lemma WordRoundTrip(b: Bytes)
    requires |b| == 4
    ensures FromBigEndian(b) < 0x1_0000_0000 && BigEndian(FromBigEndian(b), 4) == b
  {
    FromBigEndianRoundTrip(b);
    Powers();
  }

  lemma NumberRoundTrip(n: nat)
    requires n < 0x1_0000_0000
    ensures FromBigEndian(BigEndian(n, 4)) == n
  {
    Powers();
    BigEndianRoundTrip(n, 4);
  }

  /** The two announced lengths place header and payload. */
  lemma Placed(header: Bytes, payload: Bytes)
    requires |header| <= MAX_HEADER_BYTES && |payload| <= MAX_MATERIAL_BYTES
    ensures var f, n := FrameBytes(header, payload), |header|;
      && |f| == 16 + n + |payload| && f[..8] == MAGIC
      && FromBigEndian(f[8..12]) == n && f[12..12 + n] == header
      && FromBigEndian(f[12 + n..16 + n]) == |payload| && f[16 + n..] == payload
  {
    var f, n := FrameBytes(header, payload), |header|;
    assert f[8..12] == BigEndian(n, 4) && f[12 + n..16 + n] == BigEndian(|payload|, 4);
    NumberRoundTrip(n);
    NumberRoundTrip(|payload|);
  }

  lemma Replaced(f: Bytes, n: nat)
    requires |f| >= 16 + n && f[..8] == MAGIC && FromBigEndian(f[8..12]) == n
    requires FromBigEndian(f[12 + n..16 + n]) == |f| - 16 - n
    ensures f == FrameBytes(f[12..12 + n], f[16 + n..])
  {
    hide BigEndian, FromBigEndian;
    WordRoundTrip(f[8..12]);
    WordRoundTrip(f[12 + n..16 + n]);
    assert f == f[..8] + f[8..12] + f[12..12 + n] + f[12 + n..16 + n] + f[16 + n..];
  }

  /** Header bytes and payload of a frame. */
  function Cut(input: Bytes): (r: Result<(Bytes, Bytes)>) {
    if |input| > MAX_FRAME_BYTES || |input| < 16 || input[..8] != MAGIC then Err(InvalidFrame)
    else
      var n := FromBigEndian(input[8..12]);
      if n == 0 || n > MAX_HEADER_BYTES then Err(InvalidHeader)
      else if 16 + n > |input| then Err(InvalidFrame)
      else
        var size := FromBigEndian(input[12 + n..16 + n]);
        if size > MAX_MATERIAL_BYTES || 16 + n + size != |input| then Err(InvalidFrame)
        else Ok((input[12..12 + n], input[16 + n..]))
  }

  lemma CutExact(input: Bytes, header: Bytes, payload: Bytes)
    ensures Cut(input) == Ok((header, payload)) <==>
      0 < |header| <= MAX_HEADER_BYTES && |payload| <= MAX_MATERIAL_BYTES && input == FrameBytes(header, payload)
  {
    hide FrameBytes;
    if Cut(input).Ok? {
      Replaced(input, FromBigEndian(input[8..12]));
    }
    if 0 < |header| <= MAX_HEADER_BYTES && |payload| <= MAX_MATERIAL_BYTES && input == FrameBytes(header, payload) {
      Placed(header, payload);
    }
  }

  /** No framing is invalid material; else the first failing check of the material decides, then its digests. */
  ghost predicate MaterialVerdict(env: Environment, h: Header, payload: Bytes, r: Result<Request>) {
    && ((forall f :: !Framed(payload, f)) ==> r == Err(InvalidMaterial))
    && (forall f :: Framed(payload, f) ==>
          match Judge(OfFields(f), |payload|, h.operation, env.noDuplicates)
          case Err(e) => r == Err(e)
          case Ok(m) => r == if MaterialMatches(env, h, m) then Ok(Request(h, Some(m))) else Err(DigestMismatch))
  }

  /** Reads exactly the frames that state a request. */
  method ReadFrame(env: Environment, input: Bytes) returns (r: Result<Request>)
    ensures r.Ok? ==> exists header, payload :: Reads(env, input, header, payload, r.value)
    ensures forall header, payload, q :: Reads(env, input, header, payload, q) ==> r == Ok(q)
    // The checks before the material, in order, each with its error.
    ensures Cut(input).Err? ==> r == Err(Cut(input).error)
    ensures Cut(input).Ok? ==>
      var (header, payload) := Cut(input).value;
      if !env.noDuplicates(header) || env.fromJson(header).None? then r == Err(InvalidHeader)
      else
        var h := env.fromJson(header).value;
        && (ValidateHeader(env, h).Err? ==> r == Err(ValidateHeader(env, h).error))
        && (ValidateHeader(env, h).Ok? && !PayloadMatches(env, h, payload) ==> r == Err(DigestMismatch))
        && (ValidateHeader(env, h).Ok? && PayloadMatches(env, h, payload) && payload != [] ==>
              MaterialVerdict(env, h, payload, r))
  {
    hide FrameBytes, ValidateHeader, HeaderVerdict, Judge, Framed, PayloadMatches, MaterialMatches, Encoding, Cut;
    var cut := Cut(input);
    forall header, payload, q | Reads(env, input, header, payload, q)
      ensures cut == Ok((header, payload))
    {
      CutExact(input, header, payload);
    }
    if cut.Err? { return Err(cut.error); }
    var (header, payload) := cut.value;
    CutExact(input, header, payload);
    if !env.noDuplicates(header) { return Err(InvalidHeader); }
    var parsed := env.fromJson(header);
    if parsed.None? { return Err(InvalidHeader); }
    var h := parsed.value;
    var valid := CheckHeader(env, h);
    if valid.Err? { return Err(valid.error); }
    var matches := CheckPayload(env, h, payload);
    if !matches { return Err(DigestMismatch); }
    if payload == [] {
      assert Reads(env, input, header, payload, Request(h, None));
      return Ok(Request(h, None));
    }
    var material := DecodeMaterial(payload, h.operation, env.noDuplicates);
    if material.Err? { return Err(material.error); }
    matches := CheckMaterial(env, h, material.value);
    if !matches { return Err(DigestMismatch); }
    assert Reads(env, input, header, payload, Request(h, Some(material.value)));
    return Ok(Request(h, Some(material.value)));
  }

  // ---- The checks as they run ----

  method Matches(text: Bytes, d: Bytes) returns (ok: bool)
    ensures ok <==> Spells(text, d)
  {
    var decoded := DecodeDigest(text);
    ok := decoded == Some(d);
  }

  method AreDigests(texts: seq<Bytes>) returns (ok: bool)
    ensures ok <==> forall i :: 0 <= i < |texts| ==> SpellsDigest(texts[i])
  {
    for i := 0 to |texts|
      invariant forall j :: 0 <= j < i ==> SpellsDigest(texts[j])
    {
      var decoded := DecodeDigest(texts[i]);
      if decoded.None? {
        assert !SpellsDigest(texts[i]);
        return false;
      }
      assert Spells(texts[i], decoded.value);
    }
    return true;
  }

  method SpellsDigestOrAbsent(text: Option<Bytes>) returns (ok: bool)
    ensures ok <==> SpellsDigestIfAny(text)
  {
    if text.None? { return true; }
    ok := AreDigests([text.value]);
    assert [text.value][0] == text.value;
  }

  /** The header checks as they run, one after the other. */
  method CheckHeader(env: Environment, h: Header) returns (r: Result<()>)
    ensures HeaderVerdict(env, h, r) && r == ValidateHeader(env, h)
  {
    hide SpellsDigest;
    if h.protocol != PROTOCOL { return Err(UnsupportedProtocol); }
    if env.executing != Some(h.platform) { return Err(InvalidPlatform); }
    if h.desired == 0 || h.desired > MAX_SAFE_INTEGER
       || (h.observed.Some? && (h.observed.value == 0 || h.observed.value > MAX_SAFE_INTEGER))
       || (h.observed.Some? && h.observed.value > h.desired)
       || h.expiry == 0 || h.expiry > MAX_SAFE_INTEGER
    {
      return Err(InvalidHeader);
    }
    var ok := AreDigests([h.release, h.plan, h.handoff, h.lifecycleMaterial, h.payload]);
    FiveDigests([h.release, h.plan, h.handoff, h.lifecycleMaterial, h.payload]);
    if !ok { return Err(InvalidSha256); }
    var a := SpellsDigestOrAbsent(h.config);
    var b := SpellsDigestOrAbsent(h.enrollmentCa);
    var c := SpellsDigestOrAbsent(h.controlCa);
    var d := SpellsDigestOrAbsent(h.issuerCa);
    var e := SpellsDigestOrAbsent(h.preparedReceipt);
    if !a || !b || !c || !d || !e { return Err(InvalidSha256); }
    if h.config.None? || h.enrollmentCa.None? || h.controlCa.None? || h.issuerCa.None? { return Err(InvalidHeader); }
    if h.preparedReceipt.Some? != h.operation.Finalize? { return Err(InvalidHeader); }
    return Ok(());
  }

  lemma FiveDigests(texts: seq<Bytes>)
    requires |texts| == 5
    ensures (forall i :: 0 <= i < 5 ==> SpellsDigest(texts[i])) <==>
      SpellsDigest(texts[0]) && SpellsDigest(texts[1]) && SpellsDigest(texts[2]) && SpellsDigest(texts[3]) && SpellsDigest(texts[4])
  {
  }

  method CheckPayload(env: Environment, h: Header, payload: Bytes) returns (ok: bool)
    ensures ok <==> PayloadMatches(env, h, payload)
  {
    ok := Matches(h.payload, env.digest(payload));
    if ok && payload != [] && h.operation.Prepare? {
      ok := Matches(h.lifecycleMaterial, env.digest(payload));
    }
  }

  method CheckMaterial(env: Environment, h: Header, m: Material) returns (ok: bool)
    ensures ok <==> MaterialMatches(env, h, m)
  {
    ok := Matches(h.plan, env.digest(m.plan));
    if !ok { return; }
    ok := Matches(h.handoff, env.digest(m.handoff));
    if !ok { return; }
    if h.operation.Finalize? { return Absent(m); }
    if h.config.None? || h.enrollmentCa.None? || h.controlCa.None? || h.issuerCa.None? { return false; }
    ok := Matches(h.config.value, env.digest(m.config));
    if !ok { return; }
    ok := Matches(h.enrollmentCa.value, env.digest(m.enrollmentCa));
    if !ok { return; }
    ok := Matches(h.controlCa.value, env.digest(m.controlCa));
    if !ok { return; }
    ok := Matches(h.issuerCa.value, env.digest(m.issuerCa));
  }

  // ---- What a read frame says ----

  /** Each digest of a header that is read is the lower-case hexadecimal one of the field of the payload it is for. */
  lemma ReadNames(env: Environment, input: Bytes, header: Bytes, payload: Bytes, r: Request)
    requires Reads(env, input, header, payload, r) && r.material.Some?
    ensures var h, m := r.header, r.material.value;
      && payload == Envelope(Fields(m)) && h.payload == Hex(env.digest(payload))
      && h.plan == Hex(env.digest(Fields(m)[4])) && h.handoff == Hex(env.digest(Fields(m)[5]))
      && if h.operation.Prepare? then
           && h.lifecycleMaterial == Hex(env.digest(payload)) && h.config == Some(Hex(env.digest(Fields(m)[0])))
           && h.enrollmentCa == Some(Hex(env.digest(Fields(m)[1]))) && h.controlCa == Some(Hex(env.digest(Fields(m)[2])))
           && h.issuerCa == Some(Hex(env.digest(Fields(m)[3]))) && h.preparedReceipt.None?
         else
           Fields(m)[0] == Fields(m)[1] == Fields(m)[2] == Fields(m)[3] == [] && h.preparedReceipt.Some?
  {
    hide Hex, FrameBytes, Envelope;
    EncodingFrames(r.material.value, r.header.operation, env.noDuplicates);
  }

  /** The fields it takes are there, within their bound, and plan and handoff repeat no member. */
  lemma ReadFields(env: Environment, input: Bytes, header: Bytes, payload: Bytes, r: Request)
    requires Reads(env, input, header, payload, r) && r.material.Some?
    ensures var m := r.material.value;
      && 0 < |m.plan| <= 65_536 && 0 < |m.handoff| <= 65_536 && env.noDuplicates(m.plan) && env.noDuplicates(m.handoff)
      && (r.header.operation.Prepare? ==>
            && 0 < |m.config| <= 65_536 && 0 < |m.enrollmentCa| <= 65_536
            && 0 < |m.controlCa| <= 65_536 && 0 < |m.issuerCa| <= 65_536)
  {
    hide FrameBytes, Envelope, PayloadMatches, MaterialMatches;
    var m := r.material.value;
    var f := Fields(m);
    var g: seq<Bytes> := f[4..];
    assert g == [m.plan, m.handoff];
    if r.header.operation.Prepare? {
      assert 0 < |f[0]| && 0 < |f[1]| && 0 < |f[2]| && 0 < |f[3]| && 0 < |f[4]| && 0 < |f[5]|;
    } else {
      assert 0 < |g[0]| && 0 < |g[1]|;
    }
  }

  /** And its numbers are safe and in order, for the platform that executes. */
  lemma ReadBounds(env: Environment, input: Bytes, header: Bytes, payload: Bytes, r: Request)
    requires Reads(env, input, header, payload, r)
    ensures var h := r.header;
      && h.protocol == "dirextalk.host-control.operator.v2" && env.executing == Some(h.platform)
      && 0 < h.desired <= MAX_SAFE_INTEGER && 0 < h.expiry <= MAX_SAFE_INTEGER
      && (h.observed.Some? ==> 0 < h.observed.value <= h.desired)
      && h.config.Some? && h.enrollmentCa.Some? && h.controlCa.Some? && h.issuerCa.Some?
      && env.noDuplicates(header) && |header| <= 16_384 && |payload| <= 393_216
  {
    hide FrameBytes, SpellsDigest;
  }

  // ---- Round trips ----

  /**
  An encoded frame fits, and reads back as the header with exactly the material its payload
  encodes, provided the header's digests name that material.
  */
  lemma FrameRoundTrip(env: Environment, h: Header, payload: Bytes, m: Option<Material>)
    requires EncodeFrame(env, h, payload).Ok?
    requires env.noDuplicates(env.toJson(h)) && env.fromJson(env.toJson(h)) == Some(h)
    ensures |EncodeFrame(env, h, payload).value| <= MAX_FRAME_BYTES
    ensures Reads(env, EncodeFrame(env, h, payload).value, env.toJson(h), payload, Request(h, m)) <==>
      if m.None? then payload == []
      else Encoding(m.value, h.operation, env.noDuplicates) == Ok(payload) && MaterialMatches(env, h, m.value)
  {
    hide ValidateHeader, PayloadMatches, MaterialMatches, FrameBytes;
    Placed(env.toJson(h), payload);
    if m.Some? && Encoding(m.value, h.operation, env.noDuplicates) == Ok(payload) {
      EncodingFrames(m.value, h.operation, env.noDuplicates);
    }
  }

  /** Reading the encoded frame itself gives that request back, and no other. */
  method ReadBack(env: Environment, h: Header, payload: Bytes, frame: Bytes) returns (r: Result<Request>)
    requires EncodeFrame(env, h, payload) == Ok(frame)
    requires env.noDuplicates(env.toJson(h)) && env.fromJson(env.toJson(h)) == Some(h)
    ensures forall m :: r == Ok(Request(h, m)) <==>
      if m.None? then payload == []
      else Encoding(m.value, h.operation, env.noDuplicates) == Ok(payload) && MaterialMatches(env, h, m.value)
    ensures r.Ok? ==> r.value.header == h
  {
    hide ValidateHeader, HeaderVerdict, PayloadMatches, MaterialMatches, Encoding, FrameBytes, Cut, MaterialVerdict;
    r := ReadFrame(env, frame);
    CutExact(frame, env.toJson(h), payload);
    if r.Ok? {
      ghost var header, body :| Reads(env, frame, header, body, r.value);
      CutExact(frame, header, body);
    }
    forall m
      ensures r == Ok(Request(h, m)) <==> Reads(env, frame, env.toJson(h), payload, Request(h, m))
      ensures Reads(env, frame, env.toJson(h), payload, Request(h, m)) <==>
        if m.None? then payload == []
        else Encoding(m.value, h.operation, env.noDuplicates) == Ok(payload) && MaterialMatches(env, h, m.value)
    {
      FrameRoundTrip(env, h, payload, m);
    }
  }

  /** A frame that reads differs from the encoding of what it states in the header's spelling alone. */
  lemma ReadIsEncoded(env: Environment, input: Bytes, header: Bytes, payload: Bytes, r: Request)
    requires Reads(env, input, header, payload, r)
    requires 0 < |env.toJson(r.header)| <= MAX_HEADER_BYTES
    ensures EncodeFrame(env, r.header, payload) == Ok(FrameBytes(env.toJson(r.header), payload))
    ensures EncodeFrame(env, r.header, payload) == Ok(input) <==> header == env.toJson(r.header)
  {
    hide ValidateHeader, PayloadMatches, MaterialMatches, Encoding, Cut, FrameBytes;
    if input == FrameBytes(env.toJson(r.header), payload) {
      CutExact(input, header, payload);
      CutExact(input, env.toJson(r.header), payload);
    }
  }
}
