/**
The MLS commit command: which commands can be constructed, and what the request digest and the
device signatures cover.
*/
module MlsCommand {
  import opened Common
  import opened CanonicalCbor
  import opened GroupCodec

  const MAX_COMMIT_BYTES: nat := 1_048_576
  const ZERO: Bytes :=
    [0, 0, 0, 0, 0, 0, 0, 0, 0, 0, 0, 0, 0, 0, 0, 0, 0, 0, 0, 0, 0, 0, 0, 0, 0, 0, 0, 0, 0, 0, 0, 0]

  datatype Authorization =
    | OwnerBootstrap
    | ApprovedJoin(commandId: Utf8, approval: Bytes)
    | ApprovedJoinV3(commandId: Utf8, approval: Bytes, joinRequest: Bytes, approvalRequest: Bytes)
    | DeviceAdd(controller: Utf8, consent: Bytes)
    | MemberRemoval(revision: nat)
    | RecoveryAdd(controller: Utf8, consent: Bytes, requestId: Utf8, recoveryRequest: Bytes, recoveryScope: Bytes)
    | DeviceRemove(revokeHead: Bytes)

  datatype Command = Command(
    version: nat, submission: Utf8, scope: Scope,
    actorIdentity: Utf8, actorDevice: Utf8, candidateIdentity: Utf8, candidateDevice: Utf8,
    keyPackage: Bytes, candidateProof: Bytes, idempotencyKeyHash: Bytes,
    epoch: nat, head: Bytes, commit: Bytes, commitDigest: Bytes, welcome: Bytes,
    authorization: Authorization)

  predicate IsDigest(b: Bytes) { |b| == 32 }

  /** The seven admitted pairs of protocol version and authorization. */
  predicate Fits(version: nat, a: Authorization) {
    match a
    case OwnerBootstrap | ApprovedJoin(_, _) | DeviceAdd(_, _) => version == 2
    case ApprovedJoinV3(_, _, _, _) => version == 3
    case MemberRemoval(_) => version == 4
    case RecoveryAdd(_, _, _, _, _) | DeviceRemove(_) => version == 5
  }

  predicate ValidAuthorization(a: Authorization) {
    match a
    case OwnerBootstrap => true
    case ApprovedJoin(id, d) => IsUuid7(id) && IsDigest(d)
    case ApprovedJoinV3(id, d, e, f) => IsUuid7(id) && IsDigest(d) && IsDigest(e) && IsDigest(f)
    case DeviceAdd(id, d) => IsUuid7(id) && IsDigest(d)
    case MemberRemoval(n) => 0 < n <= MAX_SAFE_INTEGER
    case RecoveryAdd(id, d, r, e, f) => IsUuid7(id) && IsDigest(d) && IsUuid7(r) && IsDigest(e) && IsDigest(f)
    case DeviceRemove(d) => IsDigest(d)
  }

  predicate ValidParties(c: Command) {
    && IsUuid7(c.submission) && ValidScope(c.scope)
    && IsPublicId('i', c.actorIdentity) && IsUuid7(c.actorDevice)
    && IsPublicId('i', c.candidateIdentity) && IsUuid7(c.candidateDevice)
  }

  predicate Nothing(c: Command) {
    c.keyPackage == ZERO && c.candidateProof == ZERO && c.welcome == ZERO
  }

  /** No key package, welcome or candidate proof where the operation grants nothing. */
  predicate Granting(c: Command) {
    match c.authorization
    case OwnerBootstrap | ApprovedJoin(_, _) | DeviceAdd(_, _) => true
    case ApprovedJoinV3(_, _, _, _) => c.candidateProof == ZERO
    case MemberRemoval(_) => Nothing(c)
    case RecoveryAdd(controller, _, _, _, _) =>
      && c.actorIdentity == c.candidateIdentity && c.actorDevice == controller
      && c.candidateProof == ZERO && c.keyPackage != ZERO && c.welcome != ZERO
    case DeviceRemove(_) => c.actorIdentity == c.candidateIdentity && Nothing(c)
  }

  predicate ValidCommand(c: Command, opaqueDigest: Bytes -> Bytes) {
    && Fits(c.version, c.authorization) && ValidAuthorization(c.authorization)
    && ValidParties(c) && Granting(c)
    && IsDigest(c.keyPackage) && IsDigest(c.candidateProof) && IsDigest(c.head)
    && IsDigest(c.commitDigest) && IsDigest(c.welcome)
    && c.epoch < MAX_SAFE_INTEGER
    && 1 <= |c.commit| <= MAX_COMMIT_BYTES && c.commitDigest == opaqueDigest(c.commit)
  }

  // ---- The request digest ----

  /** Codes as the request digest numbers them, with its four authorization columns. */
  function RequestColumns(a: Authorization): (r: seq<Value>)
    ensures |r| == 5
  {
    match a
    case OwnerBootstrap => [Unsigned(0), Null, Null, Null, Null]
    case ApprovedJoin(id, d) => [Unsigned(1), Text(id), ByteString(d), Null, Null]
    case ApprovedJoinV3(id, d, _, _) => [Unsigned(1), Text(id), ByteString(d), Null, Null]
    case DeviceAdd(id, d) => [Unsigned(2), Null, Null, Text(id), ByteString(d)]
    case MemberRemoval(n) => [Unsigned(3), Null, Unsigned(if n <= MAX_SAFE_INTEGER then n else 0), Null, Null]
    case RecoveryAdd(id, d, _, _, _) => [Unsigned(4), Null, Null, Text(id), ByteString(d)]
    case DeviceRemove(d) => [Unsigned(5), Null, ByteString(d), Null, Null]
  }

  function RequestExtras(a: Authorization): seq<Value> {
    match a
    case ApprovedJoinV3(_, _, join, approval) => [ByteString(join), ByteString(approval)]
    case RecoveryAdd(_, _, id, request, scope) => [Text(id), ByteString(request), ByteString(scope)]
    case _ => []
  }

  function Granted(c: Command, digest: Bytes): Value {
    if c.version == 4 || c.authorization.DeviceRemove? then Null else ByteString(digest)
  }

  function RequestHead(c: Command): (r: seq<Value>)
    requires c.version < 256 && c.epoch < MAX_SAFE_INTEGER
    ensures |r| == 13
  {
    [Unsigned(c.version), Text(c.submission), ScopeValue(c.scope),
     Text(c.actorIdentity), Text(c.actorDevice), Text(c.candidateIdentity), Text(c.candidateDevice),
     Granted(c, c.keyPackage), Granted(c, c.candidateProof),
     Unsigned(c.epoch), ByteString(c.head), ByteString(c.commitDigest), Granted(c, c.welcome)]
  }

  function RequestValue(c: Command): Value
    requires c.version < 256 && c.epoch < MAX_SAFE_INTEGER
  {
    NumberedMap(RequestHead(c) + (RequestColumns(c.authorization) + RequestExtras(c.authorization)))
  }

  lemma RequestColumnsInjective(a: Authorization, b: Authorization, version: nat)
    requires ValidAuthorization(a) && ValidAuthorization(b) && Fits(version, a) && Fits(version, b)
    requires RequestColumns(a) + RequestExtras(a) == RequestColumns(b) + RequestExtras(b)
    ensures a == b
  {
    hide IsUuid7;
    var s, t := RequestColumns(a) + RequestExtras(a), RequestColumns(b) + RequestExtras(b);
    assert forall i :: 0 <= i < 5 ==> s[i] == RequestColumns(a)[i] && t[i] == RequestColumns(b)[i];
    assert s[5..] == RequestExtras(a) && t[5..] == RequestExtras(b);
    assert s[0] == t[0] && s[1] == t[1] && s[2] == t[2] && s[3] == t[3] && s[4] == t[4];
    match a {
      case ApprovedJoinV3(_, _, _, _) =>
        assert RequestExtras(a)[0] == RequestExtras(b)[0] && RequestExtras(a)[1] == RequestExtras(b)[1];
      case RecoveryAdd(_, _, _, _, _) =>
        assert RequestExtras(a)[0] == RequestExtras(b)[0] && RequestExtras(a)[1] == RequestExtras(b)[1];
        assert RequestExtras(a)[2] == RequestExtras(b)[2];
      case _ =>
    }
  }

  /**
  The digested request determines the command up to its idempotency key and the commit bytes,
  which it covers through their digest.
  */
  lemma RequestValueInjective(c: Command, d: Command, opaqueDigest: Bytes -> Bytes)
    requires ValidCommand(c, opaqueDigest) && ValidCommand(d, opaqueDigest) && RequestValue(c) == RequestValue(d)
    ensures d == c.(idempotencyKeyHash := d.idempotencyKeyHash, commit := d.commit)
  {
    hide ScopeValue, IsUuid7, IsPublicId, NumberedMap;
    var s, t := RequestHead(c), RequestHead(d);
    var p := RequestColumns(c.authorization) + RequestExtras(c.authorization);
    var q := RequestColumns(d.authorization) + RequestExtras(d.authorization);
    NumberedMapInjective(s + p, t + q);
    assert s == (s + p)[..13] && p == (s + p)[13..] && t == (t + q)[..13] && q == (t + q)[13..];
    assert s[0] == t[0];
    RequestColumnsInjective(c.authorization, d.authorization, c.version);
    assert s[1] == t[1] && s[2] == t[2] && s[3] == t[3] && s[4] == t[4] && s[5] == t[5] && s[6] == t[6];
    assert s[7] == t[7] && s[8] == t[8] && s[9] == t[9] && s[10] == t[10] && s[11] == t[11] && s[12] == t[12];
    ScopeValueInjective(c.scope, d.scope);
  }

  // ---- The signed transcripts ----

  /** Operation number, membership command, approval and controller as the transcript states them. */
  function TranscriptColumns(c: Command): (r: seq<Value>)
    ensures |r| == 4
  {
    match c.authorization
    case OwnerBootstrap => [Unsigned(1), Null, Null, Null]
    case ApprovedJoin(id, d) => [Unsigned(2), Text(id), ByteString(d), Null]
    case ApprovedJoinV3(id, d, _, _) => [Unsigned(2), Text(id), ByteString(d), Null]
    case DeviceAdd(id, _) => [Unsigned(3), Null, Null, Text(id)]
    case MemberRemoval(_) => [Unsigned(4), Null, Null, Null]
    case RecoveryAdd(id, _, _, _, _) => [Unsigned(5), Null, Null, Text(id)]
    case DeviceRemove(_) => [Unsigned(6), Null, Null, Text(c.actorDevice)]
  }

  function TranscriptFields(c: Command): (r: seq<Value>)
    requires c.epoch < MAX_SAFE_INTEGER
    ensures |r| == 18
  {
    var columns := TranscriptColumns(c);
    [Unsigned(2), columns[0], ScopeValue(c.scope), Text(c.submission), ByteString(c.idempotencyKeyHash),
     Text(c.actorIdentity), Text(c.actorDevice), Text(c.candidateIdentity), Text(c.candidateDevice),
     ByteString(c.keyPackage), Unsigned(c.epoch), ByteString(c.head), Unsigned(c.epoch + 1),
     ByteString(c.commitDigest), ByteString(c.welcome), columns[1], columns[2], columns[3]]
  }

  /** What the version 5 controller transcript appends; None for every other authorization. */
  function ConsentExtras(a: Authorization): Option<seq<Value>> {
    match a
    case RecoveryAdd(_, _, id, request, scope) => Some([Text(id), ByteString(request), ByteString(scope)])
    case DeviceRemove(head) => Some([ByteString(head)])
    case _ => None
  }

  /** The value a device signs: the shared transcript in version 2, the controller's in version 5. */
  function SignedValue(c: Command): Value
    requires c.epoch < MAX_SAFE_INTEGER
  {
    NumberedMap(TranscriptFields(c) + if c.version == 5 && ConsentExtras(c.authorization).Some?
                                      then ConsentExtras(c.authorization).value else [])
  }

  function SignedPart(a: Authorization): Authorization {
    match a
    case DeviceAdd(id, _) => DeviceAdd(id, [])
    case RecoveryAdd(id, _, r, e, f) => RecoveryAdd(id, [], r, e, f)
    case _ => a
  }

  /** The command without what no transcript states. */
  function Signed(c: Command): Command {
    c.(authorization := SignedPart(c.authorization), candidateProof := [], commit := [])
  }

  lemma SignedAuthorization(c: Command, d: Command)
    requires c.version in {2, 5} && d.version in {2, 5}
    requires Fits(c.version, c.authorization) && Fits(d.version, d.authorization)
    requires TranscriptColumns(c) == TranscriptColumns(d)
    requires c.version == 5 && d.version == 5 ==> ConsentExtras(c.authorization) == ConsentExtras(d.authorization)
    ensures Signed(c).authorization == Signed(d).authorization && c.version == d.version
  {
    var s, t := TranscriptColumns(c), TranscriptColumns(d);
    assert s[0] == t[0] && s[1] == t[1] && s[2] == t[2] && s[3] == t[3];
    if c.version == 5 {
      var x, y := ConsentExtras(c.authorization).value, ConsentExtras(d.authorization).value;
      assert x[0] == y[0];
      if c.authorization.RecoveryAdd? {
        assert x[1] == y[1] && x[2] == y[2];
      }
    }
  }

  /**
  A device signature covers the whole command but the proof digest it is over, the consent digest
  it makes up and the commit bytes, which it covers through their digest.  Two versions never share
  a signed value.
  */
  lemma SignatureCovers(c: Command, d: Command, opaqueDigest: Bytes -> Bytes)
    requires ValidCommand(c, opaqueDigest) && ValidCommand(d, opaqueDigest)
    requires c.version in {2, 5} && d.version in {2, 5} && SignedValue(c) == SignedValue(d)
    ensures Signed(c) == Signed(d)
  {
    hide ScopeValue, IsUuid7, IsPublicId, NumberedMap;
    var s, t := TranscriptFields(c), TranscriptFields(d);
    var x := if c.version == 5 && ConsentExtras(c.authorization).Some? then ConsentExtras(c.authorization).value else [];
    var y := if d.version == 5 && ConsentExtras(d.authorization).Some? then ConsentExtras(d.authorization).value else [];
    NumberedMapInjective(s + x, t + y);
    assert s == (s + x)[..18] && x == (s + x)[18..] && t == (t + y)[..18] && y == (t + y)[18..];
    assert s[1] == t[1] && s[15] == t[15] && s[16] == t[16] && s[17] == t[17];
    assert TranscriptColumns(c) == [s[1], s[15], s[16], s[17]] && TranscriptColumns(d) == [t[1], t[15], t[16], t[17]];
    SignedAuthorization(c, d);
    assert s[2] == t[2] && s[3] == t[3] && s[4] == t[4] && s[5] == t[5] && s[6] == t[6] && s[7] == t[7];
    assert s[8] == t[8] && s[9] == t[9] && s[10] == t[10] && s[11] == t[11] && s[13] == t[13] && s[14] == t[14];
    ScopeValueInjective(c.scope, d.scope);
  }
}
