/** Which pairs of protocol version and authorization reach the sequencer at all. */
module MlsShapes {
  import opened Common
  import opened CanonicalCbor
  import opened CborTheorems
  import opened GroupCodec
  import opened MlsCommand
  import opened MlsBody
  import opened MlsWire

  datatype Kind =
    Owner | Joined | JoinedV3 | DeviceAdded | MemberRemoved | DeviceRecovered | DeviceRemoved

  function KindOf(a: Authorization): Kind {
    match a
    case OwnerBootstrap => Owner
    case ApprovedJoin(_, _) => Joined
    case ApprovedJoinV3(_, _, _, _) => JoinedV3
    case DeviceAdd(_, _) => DeviceAdded
    case MemberRemoval(_) => MemberRemoved
    case RecoveryAdd(_, _, _, _, _) => DeviceRecovered
    case DeviceRemove(_) => DeviceRemoved
  }

  const SEVEN: set<(nat, Kind)> :=
    {(2, Owner), (2, Joined), (2, DeviceAdded), (3, JoinedV3), (4, MemberRemoved), (5, DeviceRecovered), (5, DeviceRemoved)}

  /** Hashes of 32 bytes; a transcript has one wherever it can be encoded. */
  ghost predicate Proper(digests: Digests) {
    && (forall b :: IsDigest(digests.opaqueCommit(b)))
    && (forall v :: Encode(v, MAX_ENCODED_BYTES).Some? ==>
          digests.transcript(v).Some? && IsDigest(digests.transcript(v).value))
  }

  ghost predicate Survives(version: nat, kind: Kind, digests: Digests) {
    exists context, bytes, b ::
      && Receive(context, bytes, digests) == Some(b)
      && context.version == version && KindOf(b.command.authorization) == kind
  }

  // ---- A body of every kind ----

  lemma {:induction false} AsciiIsUtf8(b: Bytes)
    requires forall i :: 0 <= i < |b| ==> b[i] < 0x80
    ensures IsUtf8(b)
  {
    if b != [] {
      AsciiIsUtf8(b[1..]);
    }
  }

  function Uuid(): (t: Utf8)
    ensures IsUuid7(t)
  {
    var t: Bytes := seq(36, i requires 0 <= i < 36 =>
      if i in {8, 13, 18, 23} then '-' as int else if i == 14 then '7' as int else '8' as int);
    AsciiIsUtf8(t);
    t
  }

  function Identity(): (t: Utf8)
    ensures IsPublicId('i', t)
  {
    var t: Bytes := ['d' as int, 't' as int, 'x' as int, 'i' as int, '1' as int] + seq(52, _ => 'a' as int);
    AsciiIsUtf8(t);
    t
  }

  function Digest(): (d: Bytes)
    ensures IsDigest(d) && d != ZERO
  {
    var d: Bytes := seq(32, _ => 1);
    assert d[0] != ZERO[0];
    d
  }

  function Signature(): (s: Bytes)
    ensures |s| == 64
  {
    seq(64, _ => 2)
  }

  /** There are such hashes. */
  lemma ConstantHashIsProper()
    ensures Proper(Digests(_ => Digest(), _ => Some(Digest())))
  {
    hide Encode, Digest;
  }

  function AuthorizationOf(kind: Kind): (a: Authorization)
    ensures KindOf(a) == kind && ValidAuthorization(a)
  {
    match kind
    case Owner => OwnerBootstrap
    case Joined => ApprovedJoin(Uuid(), Digest())
    case JoinedV3 => ApprovedJoinV3(Uuid(), Digest(), Digest(), Digest())
    case DeviceAdded => DeviceAdd(Uuid(), Digest())
    case MemberRemoved => MemberRemoval(1)
    case DeviceRecovered => RecoveryAdd(Uuid(), Digest(), Uuid(), Digest(), Digest())
    case DeviceRemoved => DeviceRemove(Digest())
  }

  function VersionOf(kind: Kind): nat {
    match kind
    case Owner => 2
    case Joined => 2
    case DeviceAdded => 2
    case JoinedV3 => 3
    case MemberRemoved => 4
    case DeviceRecovered => 5
    case DeviceRemoved => 5
  }

  /** A command of this kind; the consent to a recovery is still to be filled in. */
  function Unconsented(kind: Kind, commit: Bytes, digests: Digests): Command {
    var granting := !kind.MemberRemoved? && !kind.DeviceRemoved?;
    Command(VersionOf(kind), Uuid(), PrivateConversation(Uuid()), Identity(), Uuid(), Identity(), Uuid(),
            if granting then Digest() else ZERO, if VersionOf(kind) == 2 then Digest() else ZERO, Digest(),
            0, Digest(), commit, digests.opaqueCommit(commit), if granting then Digest() else ZERO, AuthorizationOf(kind))
  }

  function WithConsent(a: Authorization, consent: Bytes): Authorization {
    match a
    case RecoveryAdd(controller, _, id, request, scope) => RecoveryAdd(controller, consent, id, request, scope)
    case _ => a
  }

  function CommandOfKind(kind: Kind, commit: Bytes, digests: Digests): Command {
    var c := Unconsented(kind, commit, digests);
    c.(authorization := WithConsent(c.authorization, OrZero(digests.transcript(SignedValue(c)))))
  }

  function BodyOfKind(kind: Kind, commit: Bytes, digests: Digests): Body {
    Body(CommandOfKind(kind, commit, digests),
         if VersionOf(kind) == 2 then Some(Signature()) else None,
         if kind.DeviceAdded? || kind.DeviceRecovered? || kind.DeviceRemoved? then Some(Signature()) else None)
  }

  lemma UnconsentedValid(kind: Kind, commit: Bytes, digests: Digests)
    requires 1 <= |commit| <= MAX_COMMIT_BYTES && IsDigest(digests.opaqueCommit(commit))
    ensures ValidCommand(Unconsented(kind, commit, digests), digests.opaqueCommit)
  {
    hide IsUuid7, IsPublicId, Uuid, Identity, Digest, Signature;
  }

  /** The consent is not part of what it signs. */
  lemma ConsentUnsigned(c: Command, consent: Bytes)
    requires c.epoch < MAX_SAFE_INTEGER
    ensures SignedValue(c.(authorization := WithConsent(c.authorization, consent))) == SignedValue(c)
  {
    hide NumberedMap;
  }

  lemma BodyOfKindValid(kind: Kind, commit: Bytes, digests: Digests)
    requires Proper(digests) && 1 <= |commit| <= MAX_COMMIT_BYTES
    ensures ValidBody(BodyOfKind(kind, commit, digests), digests)
  {
    hide IsUuid7, IsPublicId, SignedValue, Uuid, Identity, Digest, Signature, Encode;
    var c, d := Unconsented(kind, commit, digests), CommandOfKind(kind, commit, digests);
    UnconsentedValid(kind, commit, digests);
    SignedEncodes(c, digests.opaqueCommit);
    ConsentUnsigned(c, OrZero(digests.transcript(SignedValue(c))));
    assert ValidCommand(d, digests.opaqueCommit);
  }

  function ContextOf(b: Body): (context: Context)
    ensures Agrees(b, context)
  {
    Context(b.command.version, b.command.scope, b.command.submission, b.command.idempotencyKeyHash)
  }

  lemma KindSurvives(kind: Kind, digests: Digests)
    requires Proper(digests)
    ensures Survives(VersionOf(kind), kind, digests)
  {
    hide ValidBody, Receive, BodyBytes, Uuid, Digest, Proper, ContextOf;
    var b := BodyOfKind(kind, [0], digests);
    BodyOfKindValid(kind, [0], digests);
    ReceivableIff(ContextOf(b), b, digests);
    var bytes :| Receive(ContextOf(b), bytes, digests) == Some(b);
    assert ContextOf(b).version == VersionOf(kind);
  }

  /** Whatever the hashes, exactly seven pairs survive both match stages: each of them does, and no other. */
  lemma ExactlySeven(version: nat, kind: Kind, digests: Digests)
    requires Proper(digests)
    ensures Survives(version, kind, digests) <==> (version, kind) in SEVEN
  {
    hide Receive, Proper, BodyBytes;
    if Survives(version, kind, digests) {
      var context, bytes, b :|
        Receive(context, bytes, digests) == Some(b) && context.version == version && KindOf(b.command.authorization) == kind;
      ReceivedExactly(context, bytes, b, digests);
      FitsIsSeven(b.command);
    }
    if (version, kind) in SEVEN {
      KindSurvives(kind, digests);
    }
  }

  /** Of every kind there is a valid body that no bytes in any context are received as. */
  lemma LargestCommitIsLost(kind: Kind, digests: Digests, context: Context)
    requires Proper(digests)
    ensures var b := BodyOfKind(kind, seq(MAX_COMMIT_BYTES, _ => 0), digests);
      && ValidBody(b, digests) && KindOf(b.command.authorization) == kind && !Receivable(context, b, digests)
  {
    hide ValidBody, Receive, BodyBytes, Uuid, Digest, Proper;
    var commit: Bytes := seq(MAX_COMMIT_BYTES, _ => 0);
    var b := BodyOfKind(kind, commit, digests);
    BodyOfKindValid(kind, commit, digests);
    if Agrees(b, context) {
      ReceivableIff(context, b, digests);
    } else {
      NeverElsewhere(context, b, digests);
    }
  }

  lemma NeverElsewhere(context: Context, b: Body, digests: Digests)
    requires !Agrees(b, context)
    ensures !Receivable(context, b, digests)
  {
    hide Receive, Agrees, BodyBytes;
    forall bytes
      ensures Receive(context, bytes, digests) != Some(b)
    {
      ReceivedExactly(context, bytes, b, digests);
    }
  }

  lemma FitsIsSeven(c: Command)
    requires Fits(c.version, c.authorization)
    ensures (c.version, KindOf(c.authorization)) in SEVEN
  {
  }
}
