/**
Signed group actions.  The signature check does not hash the received bytes: it rebuilds the
binding from the parsed fields.  This is sound because nothing is lost in between.
*/
module ActionProof {
  import opened Common
  import opened CanonicalCbor
  import opened CborTheorems
  import opened GroupCodec

  datatype GroupAction =
    CreateGroup | GrantAdmin | RevokeAdmin | IssueInvite | RevokeInvite | RequestJoin | ApproveJoin

  function Code(a: GroupAction): U64 {
    match a
    case CreateGroup => 1
    case GrantAdmin => 2
    case RevokeAdmin => 3
    case IssueInvite => 4
    case RevokeInvite => 5
    case RequestJoin => 6
    case ApproveJoin => 7
  }

  function ParseAction(v: Value): Option<GroupAction> {
    match v
    case Unsigned(1) => Some(CreateGroup)
    case Unsigned(2) => Some(GrantAdmin)
    case Unsigned(3) => Some(RevokeAdmin)
    case Unsigned(4) => Some(IssueInvite)
    case Unsigned(5) => Some(RevokeInvite)
    case Unsigned(6) => Some(RequestJoin)
    case Unsigned(7) => Some(ApproveJoin)
    case _ => None
  }

  datatype Proof = Proof(
    action: GroupAction, path: Utf8, scope: Scope, actorIdentity: Utf8, actorDevice: Utf8,
    idempotencyKeyHash: Bytes, businessFieldsDigest: Bytes, issuedAt: int, expiresAt: int,
    identityOrigin: Option<Utf8>, signature: Bytes)

  /** What the types of the parsed fields guarantee. */
  predicate Valid(p: Proof) {
    && 1 <= |p.path| <= 512 && ValidScope(p.scope)
    && IsPublicId('i', p.actorIdentity) && IsUuid7(p.actorDevice)
    && |p.idempotencyKeyHash| == 32 && |p.businessFieldsDigest| == 32 && |p.signature| == 64
    && MIN_UTC_MILLIS <= p.issuedAt <= MAX_UTC_MILLIS && MIN_UTC_MILLIS <= p.expiresAt <= MAX_UTC_MILLIS
    && (p.identityOrigin.Some? ==> 10 <= |p.identityOrigin.value| <= 512)
  }

  function Version(p: Proof): U64 {
    if p.identityOrigin.Some? then 2 else 1
  }

  function BindingFields(p: Proof): (fields: seq<Value>)
    requires Valid(p)
    ensures |fields| == if p.identityOrigin.Some? then 11 else 10
  {
    [Unsigned(Version(p)), Unsigned(Code(p.action)), Text(p.path), ScopeValue(p.scope),
     Text(p.actorIdentity), Text(p.actorDevice),
     ByteString(p.idempotencyKeyHash), ByteString(p.businessFieldsDigest),
     UtcValue(p.issuedAt), UtcValue(p.expiresAt)]
    + if p.identityOrigin.Some? then [Text(p.identityOrigin.value)] else []
  }

  function BindingValue(p: Proof): Value
    requires Valid(p)
  {
    NumberedMap(BindingFields(p))
  }

  /** The value a client sends: version, binding, signature. */
  function ProofValue(p: Proof): Value
    requires Valid(p)
  {
    NumberedMap([Unsigned(Version(p)), BindingValue(p), ByteString(p.signature)])
  }

  function ParseProofVersion(v: Value): Option<nat> {
    if v == Unsigned(1) then Some(1) else if v == Unsigned(2) then Some(2) else None
  }

  /** The two maps of a proof: its own fields and those of the binding. */
  function Maps(v: Value): (r: Option<(seq<Value>, seq<Value>)>)
    ensures r.Some? ==> |r.value.0| == 3 && |r.value.1| == if r.value.0[0] == Unsigned(2) then 11 else 10
  {
    var fields :- ExactFields(v, 3);
    var version :- ParseProofVersion(fields[0]);
    var binding :- ExactFields(fields[1], if version == 2 then 11 else 10);
    Some((fields, binding))
  }

  function ParseOrigin(v: Value): Option<Option<Utf8>> {
    var text :- ParseText(v, 10, 512);
    Some(Some(text))
  }

  function ParseFields(version: nat, binding: seq<Value>, last: Value): Option<Proof>
    requires |binding| == if version == 2 then 11 else 10
  {
    var bindingVersion :- ParseProofVersion(binding[0]);
    if bindingVersion != version then None
    else
      var action :- ParseAction(binding[1]);
      var path :- ParseText(binding[2], 1, 512);
      var scope :- ParseScope(binding[3]);
      var identity :- ParseIdentity(binding[4]);
      var device :- ParseUuid(binding[5]);
      var key :- ParseDigest(binding[6]);
      var business :- ParseDigest(binding[7]);
      var issuedAt :- ParseUtc(binding[8]);
      var expiresAt :- ParseUtc(binding[9]);
      var origin :- if version == 2 then ParseOrigin(binding[10]) else Some(None);
      var signature :- ParseBytes(last, 64);
      Some(Proof(action, path, scope, identity, device, key, business, issuedAt, expiresAt, origin, signature))
  }

  function ParseActionProof(v: Value): Option<Proof> {
    var maps :- Maps(v);
    ParseFields(if maps.0[0] == Unsigned(2) then 2 else 1, maps.1, maps.0[2])
  }

  /** The two instants are written as an encoder would write them. */
  predicate GenuineTimes(v: Value) {
    Maps(v).Some? ==> Genuine(Maps(v).value.1[8]) && Genuine(Maps(v).value.1[9])
  }

  lemma ActionExact(v: Value, a: GroupAction)
    ensures ParseAction(v) == Some(a) <==> v == Unsigned(Code(a))
  {
  }

  lemma FieldsExact(version: nat, binding: seq<Value>, last: Value, p: Proof)
    requires |binding| == if version == 2 then 11 else 10
    requires version == 1 || version == 2
    ensures ParseFields(version, binding, last) == Some(p) && Genuine(binding[8]) && Genuine(binding[9])
            <==> Valid(p) && Version(p) == version && binding == BindingFields(p) && last == ByteString(p.signature)
  {
    hide IsUuid7, IsPublicId, ScopeValue, ParseScope, ValidScope, ParseUtc, UtcValue, Genuine, ParseAction, Code;
    ScopeExact(binding[3], p.scope);
    ActionExact(binding[1], p.action);
    UtcExact(binding[8], p.issuedAt);
    UtcExact(binding[9], p.expiresAt);
  }

  lemma MapsExact(v: Value, fields: seq<Value>, binding: seq<Value>)
    ensures Maps(v) == Some((fields, binding)) <==>
            && |fields| == 3 && (fields[0] == Unsigned(1) || fields[0] == Unsigned(2))
            && |binding| == (if fields[0] == Unsigned(2) then 11 else 10)
            && v == NumberedMap(fields) && fields[1] == NumberedMap(binding)
  {
    hide ExactFields, NumberedMap;
    ExactFieldsUndoes(v, 3, fields);
    if |fields| == 3 {
      ExactFieldsUndoes(fields[1], if fields[0] == Unsigned(2) then 11 else 10, binding);
    }
  }

  /** Accepted values are exactly the printed proofs. */
  lemma ProofExact(v: Value, p: Proof)
    ensures ParseActionProof(v) == Some(p) && GenuineTimes(v) <==> Valid(p) && v == ProofValue(p)
  {
    if ParseActionProof(v) == Some(p) && GenuineTimes(v) {
      AcceptedIsPrinted(v, p);
    }
    if Valid(p) && v == ProofValue(p) {
      PrintedIsAccepted(p);
    }
  }

  lemma AcceptedIsPrinted(v: Value, p: Proof)
    requires ParseActionProof(v) == Some(p) && GenuineTimes(v)
    ensures Valid(p) && v == ProofValue(p)
  {
    hide Maps, ParseFields, Genuine, Valid, BindingFields, NumberedMap;
    var (fields, binding) := Maps(v).value;
    MapsExact(v, fields, binding);
    FieldsExact(if fields[0] == Unsigned(2) then 2 else 1, binding, fields[2], p);
    assert fields == [Unsigned(Version(p)), BindingValue(p), ByteString(p.signature)];
  }

  lemma PrintedIsAccepted(p: Proof)
    requires Valid(p)
    ensures ParseActionProof(ProofValue(p)) == Some(p) && GenuineTimes(ProofValue(p))
  {
    hide Maps, ParseFields, Genuine, Valid, BindingFields, NumberedMap;
    var fields := [Unsigned(Version(p)), BindingValue(p), ByteString(p.signature)];
    MapsExact(ProofValue(p), fields, BindingFields(p));
    FieldsExact(Version(p), BindingFields(p), fields[2], p);
  }

  /** A value no encoder would produce is accepted although it is not the one the signature covers. */
  lemma UngenuineTimeIsNotRebuilt(p: Proof) returns (v: Value)
    requires Valid(p) && p.issuedAt >= 0
    ensures ParseActionProof(v) == Some(p) && v != ProofValue(p)
  {
    var binding := BindingFields(p)[8 := Negative(p.issuedAt)];
    v := Misprinted(p, binding);
  }

  lemma Misprinted(p: Proof, binding: seq<Value>) returns (v: Value)
    requires Valid(p) && p.issuedAt >= 0 && binding == BindingFields(p)[8 := Negative(p.issuedAt)]
    ensures ParseActionProof(v) == Some(p) && v != ProofValue(p)
  {
    hide Maps, NumberedMap, IsUuid7, IsPublicId, ScopeValue, ParseScope, ValidScope, ParseAction, Code;
    var fields := [Unsigned(Version(p)), NumberedMap(binding), ByteString(p.signature)];
    v := NumberedMap(fields);
    MapsExact(v, fields, binding);
    FieldsExact(Version(p), BindingFields(p), fields[2], p);
    ScopeExact(binding[3], p.scope);
    ActionExact(binding[1], p.action);
    assert !GenuineTimes(v);
    PrintedIsAccepted(p);
  }

  /** Members of an encodable map are encodable. */
  lemma EncodableMember(v: Value, i: nat)
    requires v.Map? && Canon(v).Some? && i < |v.entries|
    ensures Canon(v.entries[i].value).Some?
  {
    CanonEntriesAt(v.entries, i);
  }

  lemma EncodableTimes(v: Value)
    requires Canon(v).Some?
    ensures GenuineTimes(v)
  {
    hide Canon;
    if Maps(v).Some? {
      var (fields, binding) := Maps(v).value;
      MapsExact(v, fields, binding);
      EncodableMember(v, 1);
      EncodableMember(fields[1], 8);
      EncodableMember(fields[1], 9);
      EncodableIsGenuine(binding[8]);
      EncodableIsGenuine(binding[9]);
    }
  }

  lemma EncodableIsGenuine(v: Value)
    requires Canon(v).Some?
    ensures Genuine(v)
  {
  }

  /**
  What is verified is what was received: from the bytes of an accepted proof, parsing, rebuilding
  the binding and printing gives back the same value and, encoded, the same bytes.
  */
  lemma VerifiedIsReceived(bytes: Bytes, max: nat, p: Proof)
    requires Decode(bytes, max).Some? && ParseActionProof(Decode(bytes, max).value) == Some(p)
    ensures Valid(p) && Decode(bytes, max).value == ProofValue(p) && Encode(ProofValue(p), max) == Some(bytes)
  {
    var v := Decode(bytes, max).value;
    DecodeIffEncoded(bytes, max, v);
    EncodableTimes(v);
    ProofExact(v, p);
  }

  /** The signed binding determines everything but the signature, across both proof versions. */
  lemma BindingInjective(p: Proof, q: Proof)
    requires Valid(p) && Valid(q) && BindingValue(p) == BindingValue(q)
    ensures p == q.(signature := p.signature)
  {
    hide ParseFields, Genuine, NumberedMap;
    var other := q.(signature := p.signature);
    NumberedMapInjective(BindingFields(p), BindingFields(q));
    assert BindingFields(other) == BindingFields(q) && Valid(other);
    FieldsExact(Version(p), BindingFields(p), ByteString(p.signature), p);
    FieldsExact(Version(p), BindingFields(p), ByteString(p.signature), other);
  }

  // ---- Key by key ----

  /** The actions by their number on the wire. */
  lemma ActionNumbers(a: GroupAction, n: U64)
    ensures ParseAction(Unsigned(n)) == Some(a) ==>
      1 <= n <= 7 && a == [CreateGroup, GrantAdmin, RevokeAdmin, IssueInvite, RevokeInvite, RequestJoin, ApproveJoin][n - 1]
  {
  }

  lemma BindingUnder(p: Proof)
    requires Valid(p)
    ensures var b := BindingValue(p);
      && Under(b, 1) == Some(Unsigned(Version(p))) && Under(b, 2) == Some(Unsigned(Code(p.action)))
      && Under(b, 3) == Some(Text(p.path)) && Under(b, 4) == Some(ScopeValue(p.scope))
      && Under(b, 5) == Some(Text(p.actorIdentity)) && Under(b, 6) == Some(Text(p.actorDevice))
      && Under(b, 7) == Some(ByteString(p.idempotencyKeyHash)) && Under(b, 8) == Some(ByteString(p.businessFieldsDigest))
      && Under(b, 9) == Some(UtcValue(p.issuedAt)) && Under(b, 10) == Some(UtcValue(p.expiresAt))
      && (if p.identityOrigin.None? then Size(b, 10) else Size(b, 11) && Under(b, 11) == Some(Text(p.identityOrigin.value)))
  {
    hide Valid, Under, NumberedMap, Code, ScopeValue, UtcValue, Size;
    UnderNumbered(BindingFields(p));
  }

  lemma ProofUnder(p: Proof)
    requires Valid(p)
    ensures var v := ProofValue(p);
      && Size(v, 3) && Under(v, 1) == Some(Unsigned(Version(p))) && Under(v, 2) == Some(BindingValue(p))
      && Under(v, 3) == Some(ByteString(p.signature))
  {
    hide Valid, Under, NumberedMap, BindingValue, Size;
    UnderNumbered([Unsigned(Version(p)), BindingValue(p), ByteString(p.signature)]);
  }

  /** What is read from the bytes of an accepted proof is what stands there, each field under its own key. */
  lemma ProofReceived(bytes: Bytes, max: nat, p: Proof)
    requires Decode(bytes, max).Some? && ParseActionProof(Decode(bytes, max).value) == Some(p)
    ensures Valid(p) && Under(Decode(bytes, max).value, 2).Some?
    ensures var v := Decode(bytes, max).value;
      var b := Under(v, 2).value;
      && Size(v, 3) && Under(v, 1) == Under(b, 1) && Under(v, 3) == Some(ByteString(p.signature))
      && Under(b, 1) == Some(Unsigned(if p.identityOrigin.None? then 1 else 2)) && Under(b, 2) == Some(Unsigned(Code(p.action)))
      && Under(b, 3) == Some(Text(p.path)) && Under(b, 4) == Some(ScopeValue(p.scope))
      && Under(b, 5) == Some(Text(p.actorIdentity)) && Under(b, 6) == Some(Text(p.actorDevice))
      && Under(b, 7) == Some(ByteString(p.idempotencyKeyHash)) && Under(b, 8) == Some(ByteString(p.businessFieldsDigest))
      && Under(b, 9) == Some(UtcValue(p.issuedAt)) && Under(b, 10) == Some(UtcValue(p.expiresAt))
      && (if p.identityOrigin.None? then Size(b, 10) else Size(b, 11) && Under(b, 11) == Some(Text(p.identityOrigin.value)))
  {
    hide Valid, Under, BindingValue, ProofValue, Code, ScopeValue, UtcValue, Size, Decode, ParseActionProof, Encode;
    VerifiedIsReceived(bytes, max, p);
    InRange(p);
    ProofUnder(p);
    BindingUnder(p);
  }

  lemma InRange(p: Proof)
    requires Valid(p)
    ensures MIN_UTC_MILLIS <= p.issuedAt <= MAX_UTC_MILLIS && MIN_UTC_MILLIS <= p.expiresAt <= MAX_UTC_MILLIS
  {
  }
}
