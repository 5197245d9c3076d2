/**
What an accepted MLS commit body fixes, key by key of the received value: the transcript the devices
sign, the request that is digested, and what each protocol version demands.
*/
module MlsReceived {
  import opened Common
  import opened CanonicalCbor
  import opened GroupCodec
  import opened MlsCommand
  import opened MlsBody

  /** A digest, or 32 zero bytes for none. */
  function Filled(v: Option<Value>): Option<Value> {
    if v == Some(Null) then Some(ByteString(ZERO)) else v
  }

  /** The received value is the printed body. */
  lemma Received(context: Context, v: Value, digests: Digests, b: Body)
    requires ParseBody(context, v, digests) == Some(b)
    ensures ValidBody(b, digests) && Agrees(b, context) && 2 <= b.command.version <= 5
    ensures ValidDraft(b.command.version, DraftOf(b, digests), digests.opaqueCommit)
    ensures var fields := DraftFields(b.command.version, DraftOf(b, digests), digests.opaqueCommit);
      Size(v, 15) && forall k :: 0 < k <= 15 ==> Under(v, k) == Some(fields[k - 1])
  {
    hide ParseBody, ValidDraft, DraftFields, DraftOf, NumberedMap;
    BodyExact(context, v, b, digests);
    KnownVersion(b, digests);
    DraftOfValid(b, digests);
    UnderNumbered(DraftFields(b.command.version, DraftOf(b, digests), digests.opaqueCommit));
  }

  lemma KnownVersion(b: Body, digests: Digests)
    requires ValidBody(b, digests)
    ensures 2 <= b.command.version <= 5 && b.command.epoch < MAX_SAFE_INTEGER
  {
  }

  /** Field 15 states the authorization. */
  lemma ReceivedStated(context: Context, v: Value, digests: Digests, b: Body)
    requires ParseBody(context, v, digests) == Some(b)
    ensures ValidBody(b, digests) && Under(v, 15).Some?
    ensures var s := DraftOf(b, digests).stated;
      && s.authorization == b.command.authorization && ValidStated(b.command.version, s)
      && (s.authorization.MemberRemoval? ==> s.authorization.revision <= MAX_SAFE_INTEGER)
      && (s.authorization.DeviceAdd? || s.authorization.RecoveryAdd? || s.authorization.DeviceRemove? ==> s.controller.Some?)
      && var fields, w := StatedFields(s), Under(v, 15).value;
         |fields| <= 7 && Size(w, |fields|) && forall k :: 0 < k <= |fields| ==> Under(w, k) == Some(fields[k - 1])
  {
    hide ParseBody, NumberedMap, IsUuid7, IsPublicId, ScopeValue, EndorsementValue;
    Received(context, v, digests, b);
    var s := DraftOf(b, digests).stated;
    Bounded(b.command.version, s);
    UnderNumbered(StatedFields(s));
  }

  // ---- The transcript ----

  /**
  The transcript of an accepted body, field by field of the received value: the parties, the epoch,
  head and commit digest are those received, under their own keys.
  */
  lemma TranscriptOfReceived(context: Context, v: Value, digests: Digests, b: Body)
    requires ParseBody(context, v, digests) == Some(b)
    ensures b.command.epoch < MAX_SAFE_INTEGER
    ensures var t := SignedValue(b.command);
      && Under(t, 1) == Some(Unsigned(2)) && Under(t, 3) == Under(v, 3) && Under(t, 4) == Under(v, 2)
      && Under(t, 5) == Some(ByteString(context.idempotencyKeyHash))
      && Under(t, 6) == Under(v, 4) && Under(t, 7) == Under(v, 5) && Under(t, 8) == Under(v, 6) && Under(t, 9) == Under(v, 7)
      && Under(t, 10) == Filled(Under(v, 8)) && Under(t, 11) == Under(v, 10) && Under(t, 12) == Under(v, 11)
      && (exists epoch: nat :: epoch < MAX_SAFE_INTEGER
            && Under(v, 10) == Some(Unsigned(epoch)) && Under(t, 13) == Some(Unsigned(epoch + 1)))
      && Under(t, 14) == Under(v, 13) && Under(t, 15) == Filled(Under(v, 14))
  {
    hide ParseBody, NumberedMap, SignedValue, TranscriptFields, DraftFields, DraftOf, ValidDraft, ValidBody, ConsentExtras, Under;
    Received(context, v, digests, b);
    KnownVersion(b, digests);
    TranscriptUnder(b.command);
    TranscriptRepeats(b, digests);
    TranscriptGrants(b, digests);
    assert Under(v, 10) == Some(Unsigned(b.command.epoch));
  }

  /** The same of the fields of body and transcript, counted from zero. */
  lemma TranscriptRepeats(b: Body, digests: Digests)
    requires ValidBody(b, digests)
    ensures b.command.epoch < MAX_SAFE_INTEGER && ValidDraft(b.command.version, DraftOf(b, digests), digests.opaqueCommit)
    ensures b.command.version < 0x1_0000_0000_0000_0000
    ensures var f, t := DraftFields(b.command.version, DraftOf(b, digests), digests.opaqueCommit), TranscriptFields(b.command);
      && t[0] == Unsigned(2) && t[2] == f[2] && t[3] == f[1] && t[4] == ByteString(b.command.idempotencyKeyHash)
      && t[5] == f[3] && t[6] == f[4] && t[7] == f[5] && t[8] == f[6] && t[10] == f[9] && t[11] == f[10]
      && f[9] == Unsigned(b.command.epoch) && t[12] == Unsigned(b.command.epoch + 1) && t[13] == f[12]
  {
    hide ValidBody, ValidDraft, DraftFields, DraftOf, TranscriptFields, ScopeValue, MAX_SAFE_INTEGER;
    KnownVersion(b, digests);
    DraftUnfolds(b, digests);
    TranscriptParties(b.command);
    TranscriptEpochs(b.command);
  }

  lemma TranscriptParties(c: Command)
    requires c.epoch < MAX_SAFE_INTEGER
    ensures var t := TranscriptFields(c);
      && t[0] == Unsigned(2) && t[2] == ScopeValue(c.scope) && t[3] == Text(c.submission)
      && t[4] == ByteString(c.idempotencyKeyHash) && t[5] == Text(c.actorIdentity) && t[6] == Text(c.actorDevice)
      && t[7] == Text(c.candidateIdentity) && t[8] == Text(c.candidateDevice)
  {
    hide ScopeValue, TranscriptColumns;
  }

  lemma TranscriptEpochs(c: Command)
    requires c.epoch < MAX_SAFE_INTEGER
    ensures var t := TranscriptFields(c);
      && t[10] == Unsigned(c.epoch) && t[11] == ByteString(c.head)
      && t[12] == Unsigned(c.epoch + 1) && t[13] == ByteString(c.commitDigest)
  {
    hide ScopeValue, TranscriptColumns;
  }

  lemma DraftUnfolds(b: Body, digests: Digests)
    requires ValidBody(b, digests)
    ensures ValidDraft(b.command.version, DraftOf(b, digests), digests.opaqueCommit) && b.command.version < 0x1_0000_0000_0000_0000
    ensures var f, c := DraftFields(b.command.version, DraftOf(b, digests), digests.opaqueCommit), b.command;
      && f[1] == Text(c.submission) && f[2] == ScopeValue(c.scope) && f[3] == Text(c.actorIdentity) && f[4] == Text(c.actorDevice)
      && f[5] == Text(c.candidateIdentity) && f[6] == Text(c.candidateDevice) && f[9] == Unsigned(c.epoch)
      && f[10] == ByteString(c.head) && f[12] == ByteString(c.commitDigest)
      && f[7] == GrantValue(DraftOf(b, digests).keyPackage) && f[13] == GrantValue(DraftOf(b, digests).welcome)
  {
    hide ValidBody, ValidDraft, NumberedMap, ScopeValue, StatedFields, CandidateValue, GrantValue;
    DraftOfValid(b, digests);
    KnownVersion(b, digests);
  }

  /** Key package and welcome, where nothing is granted, are 32 zero bytes. */
  lemma TranscriptGrants(b: Body, digests: Digests)
    requires ValidBody(b, digests)
    ensures b.command.epoch < MAX_SAFE_INTEGER && ValidDraft(b.command.version, DraftOf(b, digests), digests.opaqueCommit)
    ensures b.command.version < 0x1_0000_0000_0000_0000
    ensures var f, t := DraftFields(b.command.version, DraftOf(b, digests), digests.opaqueCommit), TranscriptFields(b.command);
      && t[9] == (if f[7] == Null then ByteString(ZERO) else f[7])
      && t[14] == (if f[13] == Null then ByteString(ZERO) else f[13])
  {
    hide ValidDraft, DraftFields, NumberedMap, ScopeValue, TranscriptColumns, StatedFields, CandidateValue;
    hide ValidParties, ValidAuthorization, ValidSignatures, Consented;
    DraftUnfolds(b, digests);
    KnownVersion(b, digests);
  }

  lemma TranscriptUnder(c: Command)
    requires c.epoch < MAX_SAFE_INTEGER
    ensures var t, fields := SignedValue(c), TranscriptFields(c);
      && (forall k :: 0 < k <= 18 ==> Under(t, k) == Some(fields[k - 1]))
      && if c.version == 5 && ConsentExtras(c.authorization).Some? then
           var extras := ConsentExtras(c.authorization).value;
           && Size(t, 18 + |extras|) && forall k :: 18 < k <= 18 + |extras| ==> Under(t, k) == Some(extras[k - 19])
         else Size(t, 18)
  {
    hide NumberedMap, TranscriptFields;
    var extras := if c.version == 5 && ConsentExtras(c.authorization).Some? then ConsentExtras(c.authorization).value else [];
    UnderNumbered(TranscriptFields(c) + extras);
  }

  /** The rest of the transcript is what field 15 states, the operation under the same code. */
  lemma OperationOfReceived(context: Context, v: Value, digests: Digests, b: Body)
    requires ParseBody(context, v, digests) == Some(b)
    ensures b.command.epoch < MAX_SAFE_INTEGER && Under(v, 15).Some?
    ensures var t, w := SignedValue(b.command), Under(v, 15).value;
      var code := Under(w, 1);
      && Under(t, 2) == code && code.Some? && code.value.Unsigned? && 1 <= code.value.n <= 6
      && (Under(t, 16), Under(t, 17)) == (if code.value.n == 2 then (Under(w, 2), Under(w, 3)) else (Some(Null), Some(Null)))
      && Under(t, 18) == (if code.value.n == 3 || code.value.n == 5 then Under(w, 2)
                          else if code.value.n == 6 then Under(v, 5) else Some(Null))
      && (if code.value.n == 5 then
            Size(t, 21) && Under(t, 19) == Under(w, 4) && Under(t, 20) == Under(w, 5) && Under(t, 21) == Under(w, 6)
          else if code.value.n == 6 then Size(t, 19) && Under(t, 19) == Under(w, 2)
          else Size(t, 18))
  {
    hide ParseBody, NumberedMap, IsUuid7, IsPublicId, ScopeValue, EndorsementValue, CandidateValue, GrantValue, DraftOf, Under;
    ReceivedStated(context, v, digests, b);
    Received(context, v, digests, b);
    KnownVersion(b, digests);
    TranscriptUnder(b.command);
    ActorReceived(context, v, digests, b);
  }

  lemma ActorReceived(context: Context, v: Value, digests: Digests, b: Body)
    requires ParseBody(context, v, digests) == Some(b)
    ensures Under(v, 5) == Some(Text(b.command.actorDevice)) && Fits(b.command.version, b.command.authorization)
  {
    hide ParseBody, NumberedMap, IsUuid7, IsPublicId, ScopeValue, EndorsementValue, StatedFields, CandidateValue, GrantValue;
    Received(context, v, digests, b);
  }

  // ---- The digested request ----

  lemma RequestUnder(c: Command)
    requires c.version < 256 && c.epoch < MAX_SAFE_INTEGER
    ensures var q, head, columns, extras := RequestValue(c), RequestHead(c), RequestColumns(c.authorization), RequestExtras(c.authorization);
      && Size(q, 18 + |extras|)
      && (forall k :: 0 < k <= 13 ==> Under(q, k) == Some(head[k - 1]))
      && (forall k :: 13 < k <= 18 ==> Under(q, k) == Some(columns[k - 14]))
      && (forall k :: 18 < k <= 18 + |extras| ==> Under(q, k) == Some(extras[k - 19]))
  {
    hide NumberedMap, RequestHead, RequestColumns;
    assert |RequestExtras(c.authorization)| <= 3;
    UnderNumbered(RequestHead(c) + (RequestColumns(c.authorization) + RequestExtras(c.authorization)));
  }

  /** The digested request repeats the received value, the candidate's proof by its digest. */
  lemma RequestOfReceived(context: Context, v: Value, digests: Digests, b: Body)
    requires ParseBody(context, v, digests) == Some(b)
    ensures b.command.version < 256 && b.command.epoch < MAX_SAFE_INTEGER
    ensures var q := RequestValue(b.command);
      && Under(q, 1) == Under(v, 1) && Under(q, 2) == Under(v, 2) && Under(q, 3) == Under(v, 3)
      && Under(q, 4) == Under(v, 4) && Under(q, 5) == Under(v, 5) && Under(q, 6) == Under(v, 6) && Under(q, 7) == Under(v, 7)
      && Under(q, 8) == Under(v, 8) && Under(q, 10) == Under(v, 10) && Under(q, 11) == Under(v, 11)
      && Under(q, 12) == Under(v, 13) && Under(q, 13) == Under(v, 14)
  {
    hide ParseBody, NumberedMap, RequestValue, RequestHead, DraftFields, DraftOf, ValidDraft, ValidBody, Under;
    hide RequestColumns, RequestExtras;
    Received(context, v, digests, b);
    KnownVersion(b, digests);
    RequestUnder(b.command);
    RequestRepeats(b, digests);
  }

  lemma RequestRepeats(b: Body, digests: Digests)
    requires ValidBody(b, digests)
    ensures b.command.epoch < MAX_SAFE_INTEGER && ValidDraft(b.command.version, DraftOf(b, digests), digests.opaqueCommit)
    ensures b.command.version < 256
    ensures var f, q := DraftFields(b.command.version, DraftOf(b, digests), digests.opaqueCommit), RequestHead(b.command);
      && q[0] == f[0] && q[1] == f[1] && q[2] == f[2] && q[3] == f[3] && q[4] == f[4] && q[5] == f[5] && q[6] == f[6]
      && q[7] == f[7] && q[9] == f[9] && q[10] == f[10] && q[11] == f[12] && q[12] == f[13]
  {
    hide NumberedMap, IsUuid7, IsPublicId, ScopeValue, ValidScope, StatedFields, CandidateValue;
    hide ValidStated, ValidCandidate, ValidAuthorization, SignedValue;
    DraftOfValid(b, digests);
    KnownVersion(b, digests);
  }

  lemma ProofOfReceived(context: Context, v: Value, digests: Digests, b: Body)
    requires ParseBody(context, v, digests) == Some(b)
    ensures b.command.version < 256 && b.command.epoch < MAX_SAFE_INTEGER && Under(v, 9).Some?
    ensures Under(RequestValue(b.command), 9) ==
      if b.command.version == 2 then Under(Under(v, 9).value, 2)
      else if Under(v, 8) == Some(Null) then Some(Null) else Some(ByteString(ZERO))
  {
    hide ParseBody, NumberedMap, IsUuid7, IsPublicId, ScopeValue, StatedFields, RequestColumns, RequestExtras;
    Received(context, v, digests, b);
    KnownVersion(b, digests);
    RequestUnder(b.command);
    if b.command.version == 2 {
      var e := Endorsement(b.command.candidateProof, b.candidateSignature.value);
      UnderNumbered([Unsigned(2), ByteString(e.digest), ByteString(e.signature)]);
    }
  }

  /** And what field 15 states, the operation under a code one lower. */
  lemma RequestedOfReceived(context: Context, v: Value, digests: Digests, b: Body)
    requires ParseBody(context, v, digests) == Some(b)
    ensures b.command.version < 256 && b.command.epoch < MAX_SAFE_INTEGER && Under(v, 15).Some?
    ensures var q, w := RequestValue(b.command), Under(v, 15).value;
      var code := Under(w, 1);
      && code.Some? && code.value.Unsigned? && 1 <= code.value.n <= 6 && Under(q, 14) == Some(Unsigned(code.value.n - 1))
      && (match code.value.n
          case 2 => Under(q, 15) == Under(w, 2) && Under(q, 16) == Under(w, 3) && Under(q, 17) == Under(q, 18) == Some(Null)
          case 4 => Under(q, 15) == Some(Null) && Under(q, 16) == Under(w, 2) && Under(q, 17) == Under(q, 18) == Some(Null)
          case 6 => Under(q, 15) == Some(Null) && Under(q, 16) == Under(w, 2) && Under(q, 17) == Under(q, 18) == Some(Null)
          case 1 => Under(q, 15) == Under(q, 16) == Under(q, 17) == Under(q, 18) == Some(Null)
          case _ => Under(q, 15) == Under(q, 16) == Some(Null) && Under(q, 17) == Under(w, 2) && Under(q, 18) == Under(w, 3))
      && (if code.value.n == 2 && Size(w, 5) then Size(q, 20) && Under(q, 19) == Under(w, 4) && Under(q, 20) == Under(w, 5)
          else if code.value.n == 5 then
            Size(q, 21) && Under(q, 19) == Under(w, 4) && Under(q, 20) == Under(w, 5) && Under(q, 21) == Under(w, 6)
          else Size(q, 18))
  {
    hide ParseBody, NumberedMap, IsUuid7, IsPublicId, ScopeValue, EndorsementValue, CandidateValue, GrantValue, DraftOf, Under;
    hide ValidBody, ValidDraft, DraftFields, RequestHead, RequestValue, SignedValue;
    ReceivedStated(context, v, digests, b);
    KnownVersion(b, digests);
    RequestUnder(b.command);
  }

  // ---- What is demanded ----

  predicate IsDigestValue(v: Option<Value>) { v.Some? && v.value.ByteString? && |v.value.bytes| == 32 }

  /** A device proof of this version over this digest. */
  predicate Endorses(v: Option<Value>, version: U64, digest: Bytes) {
    && v.Some? && Size(v.value, 3) && Under(v.value, 1) == Some(Unsigned(version))
    && Under(v.value, 2) == Some(ByteString(digest)) && |digest| == 32
    && Under(v.value, 3).Some? && Under(v.value, 3).value.ByteString? && |Under(v.value, 3).value.bytes| == 64
  }

  /** Version, submission and scope are the context's, and the commit is within bounds under its own digest. */
  lemma FrameDemanded(context: Context, v: Value, digests: Digests, b: Body)
    requires ParseBody(context, v, digests) == Some(b)
    ensures 2 <= context.version <= 5 && Under(v, 1) == Some(Unsigned(context.version))
    ensures Under(v, 2) == Some(Text(context.submission)) && Under(v, 3) == Some(ScopeValue(context.scope))
    ensures Under(v, 12) == Some(ByteString(b.command.commit)) && 1 <= |b.command.commit| <= MAX_COMMIT_BYTES
    ensures Under(v, 13) == Some(ByteString(digests.opaqueCommit(b.command.commit)))
  {
    hide ParseBody, NumberedMap, IsUuid7, IsPublicId, ScopeValue, StatedFields, CandidateValue, GrantValue;
    Received(context, v, digests, b);
  }

  lemma CandidateDemanded(b: Body, digests: Digests)
    requires ValidBody(b, digests)
    ensures b.command.version == 2 ==> Endorses(Some(CandidateValue(DraftOf(b, digests).candidate)), 2, b.command.candidateProof)
    ensures b.command.version != 2 ==> CandidateValue(DraftOf(b, digests).candidate) == Null
  {
    hide NumberedMap, IsUuid7, IsPublicId, SignedValue;
    if b.command.version == 2 {
      var e := Endorsement(b.command.candidateProof, b.candidateSignature.value);
      UnderNumbered([Unsigned(2), ByteString(e.digest), ByteString(e.signature)]);
    }
  }

  /** Key package, candidate proof and welcome: which of them each version and operation carries. */
  lemma GrantsDemanded(context: Context, v: Value, digests: Digests, b: Body)
    requires ParseBody(context, v, digests) == Some(b)
    ensures var a := b.command.authorization;
      && (if a.MemberRemoval? || a.DeviceRemove? then Under(v, 8) == Under(v, 14) == Some(Null)
          else IsDigestValue(Under(v, 8)) && IsDigestValue(Under(v, 14)))
      && (if context.version == 2 then Endorses(Under(v, 9), 2, b.command.candidateProof) else Under(v, 9) == Some(Null))
      && (a.RecoveryAdd? ==> Under(v, 8) != Some(ByteString(ZERO)) && Under(v, 14) != Some(ByteString(ZERO)))
      && (context.version == 5 ==> Under(v, 4) == Under(v, 6))
  {
    hide ParseBody, NumberedMap, IsUuid7, IsPublicId, ScopeValue, StatedFields, CandidateValue, Endorses, SignedValue, Under;
    Received(context, v, digests, b);
    DraftUnfolds(b, digests);
    CandidateDemanded(b, digests);
  }

  /** Which operations a version carries, of what shape, and what its controller has endorsed. */
  lemma OperationDemanded(context: Context, v: Value, digests: Digests, b: Body)
    requires ParseBody(context, v, digests) == Some(b)
    ensures b.command.epoch < MAX_SAFE_INTEGER && Under(v, 15).Some?
    ensures var w := Under(v, 15).value;
      && Under(w, 1).Some? && Under(w, 1).value.Unsigned?
      && match Under(w, 1).value.n
         case 1 => context.version == 2 && Size(w, 1)
         case 2 => (context.version == 2 && Size(w, 3)) || (context.version == 3 && Size(w, 5))
         case 3 => context.version == 2 && Size(w, 4) && exists d: Bytes :: Under(w, 3) == Some(ByteString(d)) && Endorses(Under(w, 4), 2, d)
         case 4 => context.version == 4 && Size(w, 2) && exists n: nat :: 0 < n <= MAX_SAFE_INTEGER && Under(w, 2) == Some(Unsigned(n))
         case 5 => context.version == 5 && Size(w, 7) && Under(w, 2) == Under(v, 5)
                   && exists d: Bytes :: Under(w, 3) == Some(ByteString(d)) && Endorses(Under(w, 7), 5, d)
                                         && digests.transcript(SignedValue(b.command)) == Some(d)
         case 6 => context.version == 5 && Size(w, 3)
                   && exists d: Bytes :: Endorses(Under(w, 3), 5, d) && digests.transcript(SignedValue(b.command)) == Some(d)
         case _ => false
  {
    hide ParseBody, NumberedMap, IsUuid7, IsPublicId, ScopeValue, EndorsementValue, CandidateValue, GrantValue, Under, SignedValue;
    hide Endorses, ValidParties;
    ReceivedStated(context, v, digests, b);
    ActorReceived(context, v, digests, b);
    KnownVersion(b, digests);
    Received(context, v, digests, b);
    var s := DraftOf(b, digests).stated;
    if s.controller.Some? {
      EndorsementEndorses(2, s.controller.value);
      EndorsementEndorses(5, s.controller.value);
    }
  }

  lemma EndorsementEndorses(version: U64, e: Endorsement)
    requires ValidEndorsement(e)
    ensures Endorses(Some(EndorsementValue(version, e)), version, e.digest)
  {
    hide NumberedMap;
    UnderNumbered([Unsigned(version), ByteString(e.digest), ByteString(e.signature)]);
  }
}
