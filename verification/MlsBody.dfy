/**
The versioned MLS commit body: fifteen numbered fields whose last one states the authorization.
Every accepted body is the one printed form of what was parsed from it.
*/
module MlsBody {
  import opened Common
  import opened CanonicalCbor
  import opened CborTheorems
  import opened GroupCodec
  import opened MlsCommand

  /** The domain-separated hashes; None where a transcript cannot be encoded. */
  datatype Digests = Digests(opaqueCommit: Bytes -> Bytes, transcript: Value -> Option<Bytes>)

  datatype Endorsement = Endorsement(digest: Bytes, signature: Bytes)

  datatype Body = Body(command: Command, candidateSignature: Option<Bytes>, controllerSignature: Option<Bytes>)

  // ---- Device proofs ----

  predicate ValidEndorsement(e: Endorsement) { |e.digest| == 32 && |e.signature| == 64 }

  function EndorsementValue(version: U64, e: Endorsement): Value {
    NumberedMap([Unsigned(version), ByteString(e.digest), ByteString(e.signature)])
  }

  function ParseEndorsement(version: U64, v: Value): Option<Endorsement> {
    var fields :- ExactFields(v, 3);
    var _ :- Need(fields[0] == Unsigned(version));
    var digest :- ParseDigest(fields[1]);
    var signature :- ParseBytes(fields[2], 64);
    Some(Endorsement(digest, signature))
  }

  lemma EndorsementExact(version: U64, v: Value, e: Endorsement)
    ensures ParseEndorsement(version, v) == Some(e) <==> v == EndorsementValue(version, e) && ValidEndorsement(e)
  {
    hide ExactFields, NumberedMap;
    ExactFieldsUndoes(v, 3, [Unsigned(version), ByteString(e.digest), ByteString(e.signature)]);
    if ParseEndorsement(version, v) == Some(e) {
      assert ExactFields(v, 3).value == [Unsigned(version), ByteString(e.digest), ByteString(e.signature)];
    }
  }

  // ---- The authorization field ----

  /** An authorization with the controller's endorsement, if it carries one. */
  datatype Stated = Stated(authorization: Authorization, controller: Option<Endorsement>)

  predicate ValidStated(version: nat, s: Stated) {
    && ValidAuthorization(s.authorization)
    && (s.controller.Some? ==> ValidEndorsement(s.controller.value))
    && match s.authorization
       case OwnerBootstrap => s.controller.None?
       case DeviceAdd(_, consent) => version == 2 && s.controller.Some? && s.controller.value.digest == consent
       case RecoveryAdd(_, consent, _, _, _) => version == 5 && s.controller.Some? && s.controller.value.digest == consent
       case DeviceRemove(_) => version == 5 && s.controller.Some?
       case _ => Fits(version, s.authorization) && s.controller.None?
  }

  function StatedFields(s: Stated): seq<Value>
    requires s.authorization.MemberRemoval? ==> s.authorization.revision <= MAX_SAFE_INTEGER
    requires s.authorization.DeviceAdd? || s.authorization.RecoveryAdd? || s.authorization.DeviceRemove? ==> s.controller.Some?
  {
    match s.authorization
    case OwnerBootstrap => [Unsigned(1)]
    case ApprovedJoin(id, d) => [Unsigned(2), Text(id), ByteString(d)]
    case ApprovedJoinV3(id, d, e, f) => [Unsigned(2), Text(id), ByteString(d), ByteString(e), ByteString(f)]
    case DeviceAdd(id, d) => [Unsigned(3), Text(id), ByteString(d), EndorsementValue(2, s.controller.value)]
    case MemberRemoval(n) => [Unsigned(4), Unsigned(n)]
    case RecoveryAdd(id, d, r, e, f) =>
      [Unsigned(5), Text(id), ByteString(d), Text(r), ByteString(e), ByteString(f), EndorsementValue(5, s.controller.value)]
    case DeviceRemove(d) => [Unsigned(6), ByteString(d), EndorsementValue(5, s.controller.value)]
  }

  function ParseApproved(fields: seq<Value>): Option<Stated>
    requires |fields| == 3
  {
    var id :- ParseUuid(fields[1]);
    var digest :- ParseDigest(fields[2]);
    Some(Stated(ApprovedJoin(id, digest), None))
  }

  function ParseApprovedV3(fields: seq<Value>): Option<Stated>
    requires |fields| == 5
  {
    var id :- ParseUuid(fields[1]);
    var digest :- ParseDigest(fields[2]);
    var join :- ParseDigest(fields[3]);
    var approval :- ParseDigest(fields[4]);
    Some(Stated(ApprovedJoinV3(id, digest, join, approval), None))
  }

  function ParseDeviceAdd(fields: seq<Value>): Option<Stated>
    requires |fields| == 4
  {
    var controller :- ParseUuid(fields[1]);
    var consent :- ParseDigest(fields[2]);
    var proof :- ParseEndorsement(2, fields[3]);
    var _ :- Need(proof.digest == consent);
    Some(Stated(DeviceAdd(controller, consent), Some(proof)))
  }

  function ParseRemoval(fields: seq<Value>): Option<Stated>
    requires |fields| == 2
  {
    var revision :- ParseRevision(fields[1]);
    Some(Stated(MemberRemoval(revision), None))
  }

  function ParseRecovery(fields: seq<Value>): Option<Stated>
    requires |fields| == 7
  {
    var controller :- ParseUuid(fields[1]);
    var consent :- ParseDigest(fields[2]);
    var request :- ParseUuid(fields[3]);
    var proof :- ParseEndorsement(5, fields[6]);
    var _ :- Need(proof.digest == consent);
    var digest :- ParseDigest(fields[4]);
    var scope :- ParseDigest(fields[5]);
    Some(Stated(RecoveryAdd(controller, consent, request, digest, scope), Some(proof)))
  }

  function ParseDeviceRemove(fields: seq<Value>): Option<Stated>
    requires |fields| == 3
  {
    var proof :- ParseEndorsement(5, fields[2]);
    var head :- ParseDigest(fields[1]);
    Some(Stated(DeviceRemove(head), Some(proof)))
  }

  function ParseStated(version: nat, fields: seq<Value>): Option<Stated> {
    if |fields| == 0 then None
    else if fields[0] == Unsigned(1) && |fields| == 1 then Some(Stated(OwnerBootstrap, None))
    else if fields[0] == Unsigned(2) && version == 2 && |fields| == 3 then ParseApproved(fields)
    else if fields[0] == Unsigned(2) && version == 3 && |fields| == 5 then ParseApprovedV3(fields)
    else if fields[0] == Unsigned(3) && version == 2 && |fields| == 4 then ParseDeviceAdd(fields)
    else if fields[0] == Unsigned(4) && version == 4 && |fields| == 2 then ParseRemoval(fields)
    else if fields[0] == Unsigned(5) && version == 5 && |fields| == 7 then ParseRecovery(fields)
    else if fields[0] == Unsigned(6) && version == 5 && |fields| == 3 then ParseDeviceRemove(fields)
    else None
  }

  lemma StatedExact(version: nat, fields: seq<Value>, s: Stated)
    ensures ParseStated(version, fields) == Some(s) <==> ValidStated(version, s) && fields == StatedFields(s)
  {
    hide IsUuid7, EndorsementValue, ParseEndorsement;
    if |fields| == 4 && s.controller.Some? {
      EndorsementExact(2, fields[3], s.controller.value);
    } else if |fields| == 7 && s.controller.Some? {
      EndorsementExact(5, fields[6], s.controller.value);
    } else if |fields| == 3 && s.controller.Some? {
      EndorsementExact(5, fields[2], s.controller.value);
    }
  }

  function ParseAuthorization(version: nat, v: Value): Option<Stated> {
    if !v.Map? then None
    else
      var fields :- ExactFields(v, |v.entries|);
      ParseStated(version, fields)
  }

  lemma AuthorizationExact(version: nat, v: Value, s: Stated)
    ensures ParseAuthorization(version, v) == Some(s)
            <==> ValidStated(version, s) && v == NumberedMap(StatedFields(s))
  {
    hide ParseStated, ValidStated, StatedFields;
    if v.Map? && ExactFields(v, |v.entries|).Some? {
      var fields := ExactFields(v, |v.entries|).value;
      ExactFieldsUndoes(v, |v.entries|, fields);
      StatedExact(version, fields, s);
    }
    if ValidStated(version, s) {
      Bounded(version, s);
      if v == NumberedMap(StatedFields(s)) {
        ExactFieldsUndoes(v, |v.entries|, StatedFields(s));
        StatedExact(version, StatedFields(s), s);
      }
    }
  }

  lemma Bounded(version: nat, s: Stated)
    requires ValidStated(version, s)
    ensures s.authorization.MemberRemoval? ==> s.authorization.revision <= MAX_SAFE_INTEGER
    ensures s.authorization.DeviceAdd? || s.authorization.RecoveryAdd? || s.authorization.DeviceRemove? ==> s.controller.Some?
  {
  }

  // ---- The fifteen fields ----

  /** What the fields say before the version decides how to read them together. */
  datatype Draft = Draft(
    submission: Utf8, scope: Scope,
    actorIdentity: Utf8, actorDevice: Utf8, candidateIdentity: Utf8, candidateDevice: Utf8,
    keyPackage: Option<Bytes>, candidate: Option<Endorsement>,
    epoch: nat, head: Bytes, commit: Bytes, commitDigest: Bytes, welcome: Option<Bytes>,
    stated: Stated)

  predicate ValidGrant(version: nat, d: Option<Bytes>) {
    && (d.Some? ==> IsDigest(d.value) && version != 4)
    && (d.None? ==> version == 4 || version == 5)
  }

  function GrantValue(d: Option<Bytes>): Value {
    if d.Some? then ByteString(d.value) else Null
  }

  /** A digest field that version 4 leaves null and version 5 may. */
  function ParseGrant(version: nat, v: Value): Option<Option<Bytes>> {
    if version == 4 then
      if v == Null then Some(None) else None
    else if version == 5 && v == Null then Some(None)
    else
      var digest :- ParseDigest(v);
      Some(Some(digest))
  }

  predicate ValidCandidate(version: nat, e: Option<Endorsement>) {
    (e.Some? <==> version == 2) && (e.Some? ==> ValidEndorsement(e.value))
  }

  function CandidateValue(e: Option<Endorsement>): Value {
    if e.Some? then EndorsementValue(2, e.value) else Null
  }

  function ParseCandidate(version: nat, v: Value): Option<Option<Endorsement>> {
    if version == 2 then
      var proof :- ParseEndorsement(2, v);
      Some(Some(proof))
    else if v == Null then Some(None)
    else None
  }

  function ParseCommit(v: Value): Option<Bytes> {
    if v.ByteString? && 1 <= |v.bytes| <= MAX_COMMIT_BYTES then Some(v.bytes) else None
  }

  predicate ValidDraft(version: nat, d: Draft, opaqueCommit: Bytes -> Bytes) {
    && IsUuid7(d.submission) && ValidScope(d.scope)
    && IsPublicId('i', d.actorIdentity) && IsUuid7(d.actorDevice)
    && IsPublicId('i', d.candidateIdentity) && IsUuid7(d.candidateDevice)
    && ValidGrant(version, d.keyPackage) && ValidCandidate(version, d.candidate)
    && d.epoch <= MAX_SAFE_INTEGER && IsDigest(d.head)
    && 1 <= |d.commit| <= MAX_COMMIT_BYTES && IsDigest(d.commitDigest) && d.commitDigest == opaqueCommit(d.commit)
    && ValidGrant(version, d.welcome) && ValidStated(version, d.stated)
  }

  function DraftFields(version: U64, d: Draft, opaqueCommit: Bytes -> Bytes): (fields: seq<Value>)
    requires ValidDraft(version, d, opaqueCommit)
    ensures |fields| == 15
  {
    [Unsigned(version), Text(d.submission), ScopeValue(d.scope),
     Text(d.actorIdentity), Text(d.actorDevice), Text(d.candidateIdentity), Text(d.candidateDevice),
     GrantValue(d.keyPackage), CandidateValue(d.candidate), Unsigned(d.epoch), ByteString(d.head),
     ByteString(d.commit), ByteString(d.commitDigest), GrantValue(d.welcome), NumberedMap(StatedFields(d.stated))]
  }

  function ParseDraft(version: U64, fields: seq<Value>, opaqueCommit: Bytes -> Bytes): Option<Draft>
    requires |fields| == 15
  {
    var _ :- Need(fields[0] == Unsigned(version));
    var submission :- ParseUuid(fields[1]);
    var scope :- ParseScope(fields[2]);
    var actorIdentity :- ParseIdentity(fields[3]);
    var actorDevice :- ParseUuid(fields[4]);
    var candidateIdentity :- ParseIdentity(fields[5]);
    var candidateDevice :- ParseUuid(fields[6]);
    var keyPackage :- ParseGrant(version, fields[7]);
    var candidate :- ParseCandidate(version, fields[8]);
    var epoch :- ParseSafeUint(fields[9]);
    var head :- ParseDigest(fields[10]);
    var commit :- ParseCommit(fields[11]);
    var commitDigest :- ParseDigest(fields[12]);
    var _ :- Need(commitDigest == opaqueCommit(commit));
    var welcome :- ParseGrant(version, fields[13]);
    var stated :- ParseAuthorization(version, fields[14]);
    Some(Draft(submission, scope, actorIdentity, actorDevice, candidateIdentity, candidateDevice,
               keyPackage, candidate, epoch, head, commit, commitDigest, welcome, stated))
  }

  lemma GrantExact(version: nat, v: Value, d: Option<Bytes>)
    ensures ParseGrant(version, v) == Some(d) <==> ValidGrant(version, d) && v == GrantValue(d)
  {
  }

  lemma CandidateExact(version: nat, v: Value, e: Option<Endorsement>)
    ensures ParseCandidate(version, v) == Some(e) <==> ValidCandidate(version, e) && v == CandidateValue(e)
  {
    hide ParseEndorsement, EndorsementValue;
    if e.Some? {
      EndorsementExact(2, v, e.value);
    }
  }

  lemma DraftExact(version: U64, fields: seq<Value>, d: Draft, opaqueCommit: Bytes -> Bytes)
    requires |fields| == 15
    ensures ParseDraft(version, fields, opaqueCommit) == Some(d)
            <==> ValidDraft(version, d, opaqueCommit) && fields == DraftFields(version, d, opaqueCommit)
  {
    hide IsUuid7, IsPublicId, ValidScope, ScopeValue, ParseScope, ParseGrant, ValidGrant, GrantValue,
         ParseCandidate, ValidCandidate, CandidateValue, ParseAuthorization, ValidStated, StatedFields, NumberedMap;
    ScopeExact(fields[2], d.scope);
    GrantExact(version, fields[7], d.keyPackage);
    CandidateExact(version, fields[8], d.candidate);
    GrantExact(version, fields[13], d.welcome);
    AuthorizationExact(version, fields[14], d.stated);
  }

  // ---- Building the command ----

  function OrZero(d: Option<Bytes>): Bytes {
    if d.Some? then d.value else ZERO
  }

  /** The checks of the command constructor that the fields have not already passed. */
  function Construct(c: Command, opaqueCommit: Bytes -> Bytes): Option<Command> {
    var _ :- Need(1 <= |c.commit| <= MAX_COMMIT_BYTES && c.commitDigest == opaqueCommit(c.commit));
    var _ :- Need(c.epoch < MAX_SAFE_INTEGER);
    Some(c)
  }

  function CommandOf(version: nat, d: Draft, idempotencyKeyHash: Bytes, opaqueCommit: Bytes -> Bytes): Option<Command> {
    var command := Command(
      version, d.submission, d.scope, d.actorIdentity, d.actorDevice, d.candidateIdentity, d.candidateDevice,
      OrZero(d.keyPackage), if d.candidate.Some? then d.candidate.value.digest else ZERO, idempotencyKeyHash,
      d.epoch, d.head, d.commit, d.commitDigest, OrZero(d.welcome), d.stated.authorization);
    if version == 2 then
      var _ :- Need(d.candidate.Some?);
      Construct(command, opaqueCommit)
    else if version == 3 && d.stated.authorization.ApprovedJoinV3? then
      Construct(command.(candidateProof := ZERO), opaqueCommit)
    else if version == 4 && d.stated.authorization.MemberRemoval? then
      Construct(command.(keyPackage := ZERO, candidateProof := ZERO, welcome := ZERO), opaqueCommit)
    else if version == 5 && d.stated.authorization.RecoveryAdd? then
      var _ :- Need(
        && d.actorIdentity == d.candidateIdentity && d.actorDevice == d.stated.authorization.controller
        && d.keyPackage.Some? && d.welcome.Some? && d.keyPackage.value != ZERO && d.welcome.value != ZERO);
      Construct(command.(actorDevice := d.stated.authorization.controller, candidateIdentity := d.actorIdentity,
                         candidateProof := ZERO), opaqueCommit)
    else if version == 5 && d.stated.authorization.DeviceRemove? then
      var _ :- Need(d.actorIdentity == d.candidateIdentity && d.keyPackage.None? && d.welcome.None?);
      Construct(command.(candidateIdentity := d.actorIdentity, keyPackage := ZERO, candidateProof := ZERO, welcome := ZERO),
                opaqueCommit)
    else None
  }

  function BodyOf(version: nat, d: Draft, idempotencyKeyHash: Bytes, digests: Digests): Option<Body> {
    var command :- CommandOf(version, d, idempotencyKeyHash, digests.opaqueCommit);
    var _ :- Need(version == 5 ==>
                    && command.epoch < MAX_SAFE_INTEGER && d.stated.controller.Some?
                    && digests.transcript(SignedValue(command)) == Some(d.stated.controller.value.digest));
    Some(Body(command,
              if d.candidate.Some? then Some(d.candidate.value.signature) else None,
              if d.stated.controller.Some? then Some(d.stated.controller.value.signature) else None))
  }

  // ---- The whole body ----

  /** What the body must agree with: route, header and content type. */
  datatype Context = Context(version: nat, scope: Scope, submission: Utf8, idempotencyKeyHash: Bytes)

  function ParseBody(context: Context, v: Value, digests: Digests): Option<Body> {
    var _ :- Need(2 <= context.version <= 5);
    var fields :- ExactFields(v, 15);
    var draft :- ParseDraft(context.version, fields, digests.opaqueCommit);
    var _ :- Need(draft.submission == context.submission && draft.scope == context.scope);
    BodyOf(context.version, draft, context.idempotencyKeyHash, digests)
  }

  /** Version 5: the controller's digest is the hash of the transcript of this very command. */
  predicate Consented(b: Body, digests: Digests) {
    b.command.version == 5 && b.command.epoch < MAX_SAFE_INTEGER ==>
      var d := digests.transcript(SignedValue(b.command));
      && d.Some? && IsDigest(d.value)
      && (b.command.authorization.RecoveryAdd? ==> d.value == b.command.authorization.consent)
  }

  predicate ValidSignatures(b: Body) {
    && (b.candidateSignature.Some? <==> b.command.version == 2)
    && (b.candidateSignature.Some? ==> |b.candidateSignature.value| == 64)
    && (b.controllerSignature.Some? <==>
          b.command.authorization.DeviceAdd? || b.command.authorization.RecoveryAdd? || b.command.authorization.DeviceRemove?)
    && (b.controllerSignature.Some? ==> |b.controllerSignature.value| == 64)
  }

  predicate ValidBody(b: Body, digests: Digests) {
    ValidCommand(b.command, digests.opaqueCommit) && ValidSignatures(b) && Consented(b, digests)
  }

  predicate Agrees(b: Body, context: Context) {
    && b.command.version == context.version && b.command.scope == context.scope
    && b.command.submission == context.submission && b.command.idempotencyKeyHash == context.idempotencyKeyHash
  }

  function ControllerDigest(c: Command, digests: Digests): Bytes {
    match c.authorization
    case DeviceAdd(_, consent) => consent
    case RecoveryAdd(_, consent, _, _, _) => consent
    case _ => if c.epoch < MAX_SAFE_INTEGER then OrZero(digests.transcript(SignedValue(c))) else ZERO
  }

  function DraftOf(b: Body, digests: Digests): Draft {
    var c := b.command;
    Draft(c.submission, c.scope, c.actorIdentity, c.actorDevice, c.candidateIdentity, c.candidateDevice,
          if c.version == 4 || c.authorization.DeviceRemove? then None else Some(c.keyPackage),
          if b.candidateSignature.Some? then Some(Endorsement(c.candidateProof, b.candidateSignature.value)) else None,
          c.epoch, c.head, c.commit, c.commitDigest,
          if c.version == 4 || c.authorization.DeviceRemove? then None else Some(c.welcome),
          Stated(c.authorization,
                 if b.controllerSignature.Some?
                 then Some(Endorsement(ControllerDigest(c, digests), b.controllerSignature.value)) else None))
  }

  lemma DraftOfValid(b: Body, digests: Digests)
    requires ValidBody(b, digests)
    ensures ValidDraft(b.command.version, DraftOf(b, digests), digests.opaqueCommit)
  {
    hide IsUuid7, IsPublicId, ValidScope, SignedValue;
  }

  /** The canonical value of a body. */
  function BodyValue(b: Body, digests: Digests): Value
    requires ValidBody(b, digests)
  {
    DraftOfValid(b, digests);
    NumberedMap(DraftFields(b.command.version, DraftOf(b, digests), digests.opaqueCommit))
  }

  /** The command repeats the draft, but for the proofs in it. */
  ghost predicate Repeats(c: Command, d: Draft) {
    && d == Draft(c.submission, c.scope, c.actorIdentity, c.actorDevice, c.candidateIdentity, c.candidateDevice,
                  if c.version == 4 || c.authorization.DeviceRemove? then None else Some(c.keyPackage), d.candidate,
                  c.epoch, c.head, c.commit, c.commitDigest,
                  if c.version == 4 || c.authorization.DeviceRemove? then None else Some(c.welcome), d.stated)
    && c.authorization == d.stated.authorization
    && c.candidateProof == if d.candidate.Some? then d.candidate.value.digest else ZERO
  }

  lemma PlainCommandRepeats(version: nat, d: Draft, key: Bytes, opaqueCommit: Bytes -> Bytes, c: Command)
    requires version == 2 && ValidDraft(version, d, opaqueCommit)
    requires CommandOf(version, d, key, opaqueCommit) == Some(c)
    ensures c.version == version && c.idempotencyKeyHash == key && Repeats(c, d)
    ensures Fits(version, c.authorization) && Granting(c) && c.epoch < MAX_SAFE_INTEGER
  {
    hide IsUuid7, IsPublicId, ValidScope, ValidEndorsement, ValidAuthorization;
  }

  lemma JoinOrRemovalRepeats(version: nat, d: Draft, key: Bytes, opaqueCommit: Bytes -> Bytes, c: Command)
    requires (version == 3 || version == 4) && ValidDraft(version, d, opaqueCommit)
    requires CommandOf(version, d, key, opaqueCommit) == Some(c)
    ensures c.version == version && c.idempotencyKeyHash == key && Repeats(c, d)
    ensures Fits(version, c.authorization) && Granting(c) && c.epoch < MAX_SAFE_INTEGER
  {
    hide IsUuid7, IsPublicId, ValidScope, ValidEndorsement, ValidAuthorization;
  }

  lemma DeviceCommandRepeats(version: nat, d: Draft, key: Bytes, opaqueCommit: Bytes -> Bytes, c: Command)
    requires version == 5 && ValidDraft(version, d, opaqueCommit)
    requires CommandOf(version, d, key, opaqueCommit) == Some(c)
    ensures c.version == version && c.idempotencyKeyHash == key && Repeats(c, d)
    ensures Fits(version, c.authorization) && Granting(c) && c.epoch < MAX_SAFE_INTEGER
  {
    hide IsUuid7, IsPublicId, ValidScope, ValidEndorsement, ValidAuthorization;
  }

  lemma CommandRepeats(version: nat, d: Draft, key: Bytes, opaqueCommit: Bytes -> Bytes, c: Command)
    requires 2 <= version <= 5 && ValidDraft(version, d, opaqueCommit)
    requires CommandOf(version, d, key, opaqueCommit) == Some(c)
    ensures c.version == version && c.idempotencyKeyHash == key && Repeats(c, d)
    ensures Fits(version, c.authorization) && Granting(c) && c.epoch < MAX_SAFE_INTEGER
  {
    hide ValidDraft, CommandOf, Repeats, Fits, Granting;
    if version == 2 {
      PlainCommandRepeats(version, d, key, opaqueCommit, c);
    } else if version == 5 {
      DeviceCommandRepeats(version, d, key, opaqueCommit, c);
    } else {
      JoinOrRemovalRepeats(version, d, key, opaqueCommit, c);
    }
  }

  lemma CommandOfSound(version: nat, d: Draft, key: Bytes, opaqueCommit: Bytes -> Bytes, c: Command)
    requires 2 <= version <= 5 && ValidDraft(version, d, opaqueCommit)
    requires CommandOf(version, d, key, opaqueCommit) == Some(c)
    ensures ValidCommand(c, opaqueCommit) && c.version == version && c.idempotencyKeyHash == key && Repeats(c, d)
  {
    hide IsUuid7, IsPublicId, ValidScope, CommandOf, ValidAuthorization;
    CommandRepeats(version, d, key, opaqueCommit, c);
  }

  lemma BodyOfSound(version: nat, d: Draft, key: Bytes, digests: Digests, b: Body)
    requires 2 <= version <= 5 && ValidDraft(version, d, digests.opaqueCommit)
    requires BodyOf(version, d, key, digests) == Some(b)
    ensures ValidBody(b, digests) && d == DraftOf(b, digests)
    ensures b.command.version == version && b.command.idempotencyKeyHash == key
  {
    hide IsUuid7, IsPublicId, ValidScope, SignedValue, CommandOf;
    CommandOfSound(version, d, key, digests.opaqueCommit, b.command);
  }

  lemma BodyOfUndoes(b: Body, digests: Digests)
    requires ValidBody(b, digests)
    ensures BodyOf(b.command.version, DraftOf(b, digests), b.command.idempotencyKeyHash, digests) == Some(b)
  {
    hide IsUuid7, IsPublicId, ValidScope, SignedValue;
  }

  /** Accepted values are exactly the printed bodies that agree with the request they came in. */
  lemma BodyExact(context: Context, v: Value, b: Body, digests: Digests)
    ensures ParseBody(context, v, digests) == Some(b)
            <==> ValidBody(b, digests) && Agrees(b, context) && v == BodyValue(b, digests)
  {
    if ParseBody(context, v, digests) == Some(b) {
      AcceptedIsPrinted(context, v, b, digests);
    }
    if ValidBody(b, digests) && Agrees(b, context) && v == BodyValue(b, digests) {
      PrintedIsAccepted(context, b, digests);
    }
  }

  lemma AcceptedIsPrinted(context: Context, v: Value, b: Body, digests: Digests)
    requires ParseBody(context, v, digests) == Some(b)
    ensures ValidBody(b, digests) && Agrees(b, context) && v == BodyValue(b, digests)
  {
    hide ExactFields, NumberedMap, ParseDraft, ValidDraft, DraftFields, BodyOf, ValidBody;
    var fields := ExactFields(v, 15).value;
    ExactFieldsUndoes(v, 15, fields);
    var draft := ParseDraft(context.version, fields, digests.opaqueCommit).value;
    DraftExact(context.version, fields, draft, digests.opaqueCommit);
    BodyOfSound(context.version, draft, context.idempotencyKeyHash, digests, b);
  }

  lemma PrintedIsAccepted(context: Context, b: Body, digests: Digests)
    requires ValidBody(b, digests) && Agrees(b, context)
    ensures ParseBody(context, BodyValue(b, digests), digests) == Some(b)
  {
    hide ExactFields, NumberedMap, ParseDraft, ValidDraft, DraftFields, BodyOf;
    DraftOfValid(b, digests);
    var draft := DraftOf(b, digests);
    var fields := DraftFields(context.version, draft, digests.opaqueCommit);
    ExactFieldsUndoes(BodyValue(b, digests), 15, fields);
    DraftExact(context.version, fields, draft, digests.opaqueCommit);
    BodyOfUndoes(b, digests);
  }

  /** A body has one canonical encoding: bytes that parse to the same body are the same bytes. */
  lemma BodyBytesUnique(context: Context, x: Bytes, y: Bytes, max: nat, digests: Digests)
    requires Decode(x, max).Some? && Decode(y, max).Some?
    requires ParseBody(context, Decode(x, max).value, digests).Some?
    requires ParseBody(context, Decode(x, max).value, digests) == ParseBody(context, Decode(y, max).value, digests)
    ensures x == y
  {
    hide ParseBody, Decode, Encode, BodyValue, ValidBody;
    var b := ParseBody(context, Decode(x, max).value, digests).value;
    BodyExact(context, Decode(x, max).value, b, digests);
    BodyExact(context, Decode(y, max).value, b, digests);
    DecodeIffEncoded(x, max, Decode(x, max).value);
    DecodeIffEncoded(y, max, Decode(y, max).value);
  }

  /** Accepted bodies with the same digested request carry the same command, or colliding commits. */
  lemma RequestDeterminesCommand(context: Context, v: Value, w: Value, digests: Digests)
    requires ParseBody(context, v, digests).Some? && ParseBody(context, w, digests).Some?
    ensures var b, c := ParseBody(context, v, digests).value.command, ParseBody(context, w, digests).value.command;
      && ValidCommand(b, digests.opaqueCommit) && ValidCommand(c, digests.opaqueCommit)
      && (RequestValue(b) == RequestValue(c) ==>
            b == c || (b.commit != c.commit && digests.opaqueCommit(b.commit) == digests.opaqueCommit(c.commit)))
  {
    hide ParseBody, BodyValue, RequestValue;
    var b, c := ParseBody(context, v, digests).value, ParseBody(context, w, digests).value;
    BodyExact(context, v, b, digests);
    BodyExact(context, w, c, digests);
    if RequestValue(b.command) == RequestValue(c.command) {
      RequestValueInjective(b.command, c.command, digests.opaqueCommit);
    }
  }
}
