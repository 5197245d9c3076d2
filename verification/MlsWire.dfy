/**
MLS commit bodies as bytes.  A body may be up to 1,100,000 bytes and a commit up to 1,048,576, but
the codec decodes no more than 1,048,576 bytes, so the largest commits cannot be received at all.
*/
module MlsWire {
  import opened Common
  import opened CanonicalCbor
  import opened CborTheorems
  import opened GroupCodec
  import opened MlsCommand
  import opened MlsBody
  import opened NumberedForms

  const MAX_BODY_BYTES: nat := 1_100_000
  const MAX_ENCODED_BYTES: nat := 1_048_576

  /** More than all of a body but its commit takes. */
  const OVERHEAD: nat := 20_000

  /** The handler: a bounded body, the codec within its own bound, and the fields. */
  function Receive(context: Context, bytes: Bytes, digests: Digests): Option<Body> {
    if bytes == [] || |bytes| > MAX_BODY_BYTES then None
    else
      var v :- Decode(bytes, MAX_ENCODED_BYTES);
      ParseBody(context, v, digests)
  }

  // ---- Every printed body encodes ----

  lemma EndorsementTidy(version: U64, e: Endorsement)
    requires ValidEndorsement(e)
    ensures Tidy(EndorsementValue(version, e), 1, 7, 202)
  {
    hide Canon, NumberedMap;
    NumberTidy(version);
    BytesTidy(e.digest);
    BytesTidy(e.signature);
    UniformTidy([Unsigned(version), ByteString(e.digest), ByteString(e.signature)], 0, 1, 66);
  }

  lemma ScopeTidy(s: Scope)
    requires ValidScope(s)
    ensures Tidy(ScopeValue(s), 1, 5, 121)
  {
    hide Canon, NumberedMap;
    NumberTidy(1);
    NumberTidy(2);
    TextTidy(s.id);
    UniformTidy(if s.PrivateConversation? then [Unsigned(1), Text(s.id)] else [Unsigned(2), Text(s.id)], 0, 1, 59);
  }

  /** A number, a short text, a digest, a scope or an endorsement. */
  ghost predicate Small(v: Value) {
    Tidy(v, 1, 7, 202)
  }

  lemma NumberSmall(n: U64)
    ensures Small(Unsigned(n))
  {
    hide Canon;
    NumberTidy(n);
  }

  lemma TextSmall(t: Utf8)
    requires |t| <= 57
    ensures Small(Text(t))
  {
    hide Canon;
    TextTidy(t);
  }

  lemma UuidSmall(t: Utf8)
    requires IsUuid7(t)
    ensures Small(Text(t))
  {
    TextSmall(t);
  }

  lemma IdentitySmall(t: Utf8)
    requires IsPublicId('i', t)
    ensures Small(Text(t))
  {
    TextSmall(t);
  }

  lemma DigestSmall(b: Bytes)
    requires IsDigest(b)
    ensures Small(ByteString(b))
  {
    hide Canon;
    BytesTidy(b);
  }

  ghost predicate AllSmall(fields: seq<Value>) {
    forall i :: 0 <= i < |fields| ==> Small(fields[i])
  }

  lemma StatedSmall(version: nat, s: Stated)
    requires ValidStated(version, s)
    ensures (s.authorization.MemberRemoval? ==> s.authorization.revision <= MAX_SAFE_INTEGER)
    ensures |StatedFields(s)| <= 7 && AllSmall(StatedFields(s))
  {
    hide Small, EndorsementValue;
    Bounded(version, s);
    Numbers();
    match s.authorization {
      case OwnerBootstrap =>
      case ApprovedJoin(id, d) =>
        TextSmall(id);
        DigestSmall(d);
      case ApprovedJoinV3(id, d, e, f) =>
        TextSmall(id);
        DigestSmall(d);
        DigestSmall(e);
        DigestSmall(f);
      case DeviceAdd(id, d) =>
        TextSmall(id);
        DigestSmall(d);
        EndorsementSmall(2, s.controller.value);
      case MemberRemoval(n) => NumberSmall(n);
      case RecoveryAdd(id, d, r, e, f) =>
        TextSmall(id);
        DigestSmall(d);
        TextSmall(r);
        DigestSmall(e);
        DigestSmall(f);
        EndorsementSmall(5, s.controller.value);
      case DeviceRemove(d) =>
        DigestSmall(d);
        EndorsementSmall(5, s.controller.value);
    }
  }

  lemma Numbers()
    ensures Small(Unsigned(1)) && Small(Unsigned(2)) && Small(Unsigned(3))
    ensures Small(Unsigned(4)) && Small(Unsigned(5)) && Small(Unsigned(6)) && Small(Null)
  {
    hide Canon;
    NumberTidy(1);
    NumberTidy(2);
    NumberTidy(3);
    NumberTidy(4);
    NumberTidy(5);
    NumberTidy(6);
    NullTidy();
  }

  lemma EndorsementSmall(version: U64, e: Endorsement)
    requires ValidEndorsement(e)
    ensures Small(EndorsementValue(version, e))
  {
    EndorsementTidy(version, e);
  }

  lemma SmallTidy(fields: seq<Value>)
    requires |fields| <= 23 && AllSmall(fields)
    ensures Tidy(NumberedMap(fields), 2, 185, 4_670) && (|fields| <= 7 ==> Tidy(NumberedMap(fields), 2, 57, 1_422))
  {
    hide Canon, NumberedMap;
    UniformTidy(fields, 1, 7, 202);
  }

  lemma ScopeSmall(s: Scope)
    requires ValidScope(s)
    ensures Small(ScopeValue(s))
  {
    hide Canon, NumberedMap;
    ScopeTidy(s);
  }

  lemma GrantSmall(d: Option<Bytes>)
    requires d.Some? ==> IsDigest(d.value)
    ensures Small(GrantValue(d))
  {
    hide Small;
    Numbers();
    if d.Some? { DigestSmall(d.value); }
  }

  lemma CandidateSmall(e: Option<Endorsement>)
    requires e.Some? ==> ValidEndorsement(e.value)
    ensures Small(CandidateValue(e))
  {
    hide Small;
    Numbers();
    if e.Some? { EndorsementSmall(2, e.value); }
  }

  /** All fields of a draft are small but the commit and the authorization. */
  lemma DraftSmall(version: U64, d: Draft, opaqueCommit: Bytes -> Bytes)
    requires ValidDraft(version, d, opaqueCommit)
    ensures var fields := DraftFields(version, d, opaqueCommit);
      && AllSmall(fields[..11]) && AllSmall(fields[12..14]) && fields[11] == ByteString(d.commit)
      && Tidy(fields[14], 2, 57, 1_422)
  {
    hide Small, Tidy, IsUuid7, IsPublicId, ScopeValue, GrantValue, CandidateValue, ValidStated, StatedFields, NumberedMap;
    NumberSmall(version);
    UuidSmall(d.submission);
    ScopeSmall(d.scope);
    IdentitySmall(d.actorIdentity);
    UuidSmall(d.actorDevice);
    IdentitySmall(d.candidateIdentity);
    UuidSmall(d.candidateDevice);
    GrantSmall(d.keyPackage);
    CandidateSmall(d.candidate);
    NumberSmall(d.epoch);
    DigestSmall(d.head);
    DigestSmall(d.commitDigest);
    GrantSmall(d.welcome);
    Bounded(version, d.stated);
    StatedSmall(version, d.stated);
    SmallTidy(StatedFields(d.stated));
  }

  /** What the fields of a draft take: the commit, and little else. */
  lemma DraftSizes(version: U64, d: Draft, opaqueCommit: Bytes -> Bytes)
    requires ValidDraft(version, d, opaqueCommit)
    ensures var fields := DraftFields(version, d, opaqueCommit);
      && AllTidy(fields, 2, 57, MAX_COMMIT_BYTES + 5)
      && |d.commit| < Sizes(fields) <= |d.commit| + 19_913
  {
    hide Canon, ValidDraft, DraftFields, Sizes;
    var fields := DraftFields(version, d, opaqueCommit);
    DraftSmall(version, d, opaqueCommit);
    CommitBounded(version, d, opaqueCommit);
    BytesTidy(d.commit);
    forall i | 0 <= i < 15
      ensures Tidy(fields[i], 2, 57, MAX_COMMIT_BYTES + 5) && (i != 11 ==> Tidy(fields[i], 2, 57, 1_422))
    {
      if i < 11 {
        assert Small(fields[..11][i]);
      } else if 11 < i < 14 {
        assert Small(fields[12..14][i - 12]);
      }
    }
    SizesApart(fields, 11);
    SizesWithin(fields[..11], 1_422);
    SizesWithin(fields[12..], 1_422);
  }

  lemma CommitBounded(version: U64, d: Draft, opaqueCommit: Bytes -> Bytes)
    requires ValidDraft(version, d, opaqueCommit)
    ensures |d.commit| <= MAX_COMMIT_BYTES
  {
  }

  lemma KnownVersion(b: Body, digests: Digests)
    requires ValidBody(b, digests)
    ensures 2 <= b.command.version <= 5
  {
  }

  /** Every valid body encodes within the body limit and decodes back, and takes little more than its commit. */
  lemma BodyEncodes(b: Body, digests: Digests)
    requires ValidBody(b, digests)
    ensures var v := BodyValue(b, digests);
      && Encode(v, MAX_BODY_BYTES).Some? && Canon(v).value.value == v
      && Decode(Encode(v, MAX_BODY_BYTES).value, MAX_BODY_BYTES) == Some(v)
      && |b.command.commit| < |Encode(v, MAX_BODY_BYTES).value| <= |b.command.commit| + OVERHEAD
  {
    hide Canon, Decode, ValidBody, ValidDraft, DraftFields, NumberedMap, Sizes;
    var v := BodyValue(b, digests);
    DraftOfValid(b, digests);
    KnownVersion(b, digests);
    var draft := DraftOf(b, digests);
    CommitBounded(b.command.version, draft, digests.opaqueCommit);
    DraftSizes(b.command.version, draft, digests.opaqueCommit);
    NumberedTidy(DraftFields(b.command.version, draft, digests.opaqueCommit), 2, 57, MAX_COMMIT_BYTES + 5);
    DecodeIffEncoded(Encode(v, MAX_BODY_BYTES).value, MAX_BODY_BYTES, v);
  }

  function BodyBytes(b: Body, digests: Digests): Bytes
    requires ValidBody(b, digests)
  {
    BodyEncodes(b, digests);
    Encode(BodyValue(b, digests), MAX_BODY_BYTES).value
  }

  // ---- What is received ----

  /** Bytes are received as a body exactly when they are its encoding and no longer than the codec decodes. */
  lemma ReceivedExactly(context: Context, bytes: Bytes, b: Body, digests: Digests)
    ensures Receive(context, bytes, digests) == Some(b)
      <==> ValidBody(b, digests) && Agrees(b, context) && bytes == BodyBytes(b, digests) && |bytes| <= MAX_ENCODED_BYTES
  {
    hide ParseBody, Decode, ValidBody, BodyValue;
    if Receive(context, bytes, digests) == Some(b) {
      var v := Decode(bytes, MAX_ENCODED_BYTES).value;
      BodyExact(context, v, b, digests);
      DecodeIffEncoded(bytes, MAX_ENCODED_BYTES, v);
      BodyEncodes(b, digests);
    }
    if ValidBody(b, digests) && Agrees(b, context) && bytes == BodyBytes(b, digests) && |bytes| <= MAX_ENCODED_BYTES {
      BodyEncodes(b, digests);
      DecodeIffEncoded(bytes, MAX_ENCODED_BYTES, BodyValue(b, digests));
      BodyExact(context, BodyValue(b, digests), b, digests);
    }
  }

  ghost predicate Receivable(context: Context, b: Body, digests: Digests) {
    exists bytes :: Receive(context, bytes, digests) == Some(b)
  }

  /**
  A valid body for its own context can be received if and only if its encoding is within the codec's
  bound; with a commit of the largest admitted size it never can, and with one `OVERHEAD` below
  that it always can.
  */
  lemma ReceivableIff(context: Context, b: Body, digests: Digests)
    requires ValidBody(b, digests) && Agrees(b, context)
    ensures Receivable(context, b, digests) <==> |BodyBytes(b, digests)| <= MAX_ENCODED_BYTES
    ensures |b.command.commit| == MAX_COMMIT_BYTES ==> !Receivable(context, b, digests)
    ensures |b.command.commit| + OVERHEAD <= MAX_ENCODED_BYTES ==> Receivable(context, b, digests)
  {
    hide Receive, ValidBody, Encode, BodyValue;
    BodyEncodes(b, digests);
    ReceivedExactly(context, BodyBytes(b, digests), b, digests);
    forall bytes | Receive(context, bytes, digests) == Some(b)
      ensures |BodyBytes(b, digests)| <= MAX_ENCODED_BYTES
    {
      ReceivedExactly(context, bytes, b, digests);
    }
  }

  /** So what is received is determined both ways: one body has one byte string, and conversely. */
  lemma ReceivedOnce(context: Context, x: Bytes, y: Bytes, digests: Digests)
    requires Receive(context, x, digests).Some? && Receive(context, x, digests) == Receive(context, y, digests)
    ensures x == y
  {
    hide Receive, ValidBody, BodyBytes;
    var b := Receive(context, x, digests).value;
    ReceivedExactly(context, x, b, digests);
    ReceivedExactly(context, y, b, digests);
  }

  // ---- Transcripts ----

  lemma ColumnsSmall(c: Command)
    requires ValidAuthorization(c.authorization) && IsUuid7(c.actorDevice)
    ensures AllSmall(TranscriptColumns(c))
  {
    hide Small, IsUuid7;
    Numbers();
    match c.authorization {
      case ApprovedJoin(id, d) =>
        UuidSmall(id);
        DigestSmall(d);
      case ApprovedJoinV3(id, d, _, _) =>
        UuidSmall(id);
        DigestSmall(d);
      case DeviceAdd(id, _) => UuidSmall(id);
      case RecoveryAdd(id, _, _, _, _) => UuidSmall(id);
      case _ => UuidSmall(c.actorDevice);
    }
  }

  lemma ExtrasSmall(a: Authorization)
    requires ValidAuthorization(a)
    ensures ConsentExtras(a).Some? ==> |ConsentExtras(a).value| <= 3 && AllSmall(ConsentExtras(a).value)
  {
    hide Small, IsUuid7;
    match a {
      case RecoveryAdd(_, _, id, request, scope) =>
        UuidSmall(id);
        DigestSmall(request);
        DigestSmall(scope);
      case DeviceRemove(head) => DigestSmall(head);
      case _ =>
    }
  }

  lemma TranscriptSmall(c: Command, opaqueCommit: Bytes -> Bytes)
    requires ValidCommand(c, opaqueCommit) && IsDigest(c.idempotencyKeyHash)
    ensures AllSmall(TranscriptFields(c))
  {
    hide Small, IsUuid7, IsPublicId, ScopeValue, TranscriptColumns, ValidAuthorization, Granting;
    ColumnsSmall(c);
    Numbers();
    ScopeSmall(c.scope);
    UuidSmall(c.submission);
    DigestSmall(c.idempotencyKeyHash);
    IdentitySmall(c.actorIdentity);
    UuidSmall(c.actorDevice);
    IdentitySmall(c.candidateIdentity);
    UuidSmall(c.candidateDevice);
    DigestSmall(c.keyPackage);
    NumberSmall(c.epoch);
    DigestSmall(c.head);
    NumberSmall(c.epoch + 1);
    DigestSmall(c.commitDigest);
    DigestSmall(c.welcome);
  }

  /** What a device signs for a valid command can always be encoded. */
  lemma SignedEncodes(c: Command, opaqueCommit: Bytes -> Bytes)
    requires ValidCommand(c, opaqueCommit) && IsDigest(c.idempotencyKeyHash)
    ensures Encode(SignedValue(c), MAX_ENCODED_BYTES).Some?
  {
    hide Small, Canon, NumberedMap, TranscriptFields, ConsentExtras, ValidAuthorization;
    TranscriptSmall(c, opaqueCommit);
    ExtrasSmall(c.authorization);
    SmallTidy(TranscriptFields(c) + if c.version == 5 && ConsentExtras(c.authorization).Some?
                                    then ConsentExtras(c.authorization).value else []);
  }

  // ---- The digested request ----

  lemma RequestColumnsSmall(a: Authorization)
    requires ValidAuthorization(a)
    ensures AllSmall(RequestColumns(a)) && |RequestExtras(a)| <= 3 && AllSmall(RequestExtras(a))
  {
    hide Small, IsUuid7;
    Numbers();
    NumberSmall(0);
    match a {
      case OwnerBootstrap =>
      case ApprovedJoin(id, d) =>
        UuidSmall(id);
        DigestSmall(d);
      case ApprovedJoinV3(id, d, e, f) =>
        UuidSmall(id);
        DigestSmall(d);
        DigestSmall(e);
        DigestSmall(f);
      case DeviceAdd(id, d) =>
        UuidSmall(id);
        DigestSmall(d);
      case MemberRemoval(n) => NumberSmall(n);
      case RecoveryAdd(id, d, r, e, f) =>
        UuidSmall(id);
        DigestSmall(d);
        UuidSmall(r);
        DigestSmall(e);
        DigestSmall(f);
      case DeviceRemove(d) => DigestSmall(d);
    }
  }

  lemma RequestHeadSmall(c: Command, opaqueCommit: Bytes -> Bytes)
    requires ValidCommand(c, opaqueCommit)
    ensures c.version < 256 && AllSmall(RequestHead(c))
  {
    hide Small, IsUuid7, IsPublicId, ScopeValue, ValidAuthorization, Granting;
    Numbers();
    ScopeSmall(c.scope);
    UuidSmall(c.submission);
    IdentitySmall(c.actorIdentity);
    UuidSmall(c.actorDevice);
    IdentitySmall(c.candidateIdentity);
    UuidSmall(c.candidateDevice);
    DigestSmall(c.keyPackage);
    DigestSmall(c.candidateProof);
    NumberSmall(c.version);
    NumberSmall(c.epoch);
    DigestSmall(c.head);
    DigestSmall(c.commitDigest);
    DigestSmall(c.welcome);
  }

  /** So can the request that is digested for it: computing its digest never fails. */
  lemma RequestEncodes(c: Command, opaqueCommit: Bytes -> Bytes)
    requires ValidCommand(c, opaqueCommit)
    ensures c.version < 256 && Encode(RequestValue(c), MAX_ENCODED_BYTES).Some?
  {
    hide Small, Canon, NumberedMap, RequestHead, RequestColumns, RequestExtras, ValidAuthorization;
    RequestHeadSmall(c, opaqueCommit);
    RequestColumnsSmall(c.authorization);
    SmallTidy(RequestHead(c) + (RequestColumns(c.authorization) + RequestExtras(c.authorization)));
  }
}
