/**
How long the issuer's texts are.  A plan is 153 bytes longer than the compact text of its request,
so some requests that can be read have plans that cannot be published.
*/
module PlanSizes {
  import opened Common
  import opened Text
  import opened BootstrapText
  import opened Json
  import opened Bootstrap
  import opened Agreement
  import Secret

  // ---- The size of a JSON text ----

  function Size(j: Json): nat { Utf8Size(Written(j)) }

  function MemberSize(m: Member): nat { Utf8Size(MemberText(m)) }

  function MemberSizes(members: seq<Member>): nat {
    if members == [] then 0 else MemberSize(members[0]) + MemberSizes(members[1..])
  }

  lemma {:induction false} TextsSize(members: seq<Member>)
    requires members != []
    ensures Utf8Size(Texts(members)) == MemberSizes(members) + |members| - 1
  {
    hide Utf8Size, MemberText;
    if |members| == 1 {
      assert members[1..] == [];
    } else {
      TextsSize(members[1..]);
      Utf8SizeAppends(MemberText(members[0]) + ",", Texts(members[1..]));
      Utf8SizeAppends(MemberText(members[0]), ",");
      OneByte(',');
    }
  }

  lemma OneByte(c: char)
    requires Ascii(c)
    ensures Utf8Size([c]) == 1
  {
    assert [c][..0] == [];
  }

  lemma ObjectSize(members: seq<Member>)
    requires members != []
    ensures Size(Obj(members)) == MemberSizes(members) + |members| + 1
  {
    hide Utf8Size, Texts, MemberText;
    TextsSize(members);
    Utf8SizeAppends("{" + Texts(members), "}");
    Utf8SizeAppends("{", Texts(members));
    OneByte('{');
    OneByte('}');
  }

  lemma {:induction false} MemberSizesAppend(a: seq<Member>, b: seq<Member>)
    ensures MemberSizes(a + b) == MemberSizes(a) + MemberSizes(b)
  {
    hide MemberSize;
    if a == [] {
      assert a + b == b;
    } else {
      MemberSizesAppend(a[1..], b);
      assert (a + b)[1..] == a[1..] + b;
    }
  }

  lemma OneMember(m: Member)
    ensures MemberSizes([m]) == MemberSize(m)
  {
  }

  /** Key, colon and value. */
  lemma MemberSizeOf(m: Member)
    ensures MemberSize(m) == Utf8Size(m.key) + 3 + Size(m.value)
  {
    hide Utf8Size, Written;
    QuoteSize(m.key);
    Utf8SizeAppends(Quote(m.key) + ":", Written(m.value));
    Utf8SizeAppends(Quote(m.key), ":");
    OneByte(':');
  }

  lemma QuoteSize(s: string)
    requires All(s, Literal)
    ensures Utf8Size(Quote(s)) == Utf8Size(s) + 2
  {
    hide Utf8Size, Quote;
    PlainQuote(s);
    Utf8SizeAppends("\"", s + "\"");
    Utf8SizeAppends(s, "\"");
    OneByte('"');
  }

  lemma TameSize(s: string)
    requires All(s, Tame)
    ensures Utf8Size(s) == |s| && Size(Str(s)) == |s| + 2
  {
    AsciiSize(s);
    TameIsFine(s);
    QuoteSize(s);
  }

  // ---- The request ----

  function RequestConnector(r: Request): Json {
    Obj([Member(INSTANCE_ID, Str(r.instance)), Member(ADAPTER_KIND, Str(r.adapter)),
         Member(DISPLAY_NAME, Str(r.displayName)),
         Member(GENERATION, Num(r.generation)), Member(SPEC_REVISION, Num(r.specRevision)),
         Member(ENROLLMENT_REQUEST_ID, Str(r.enrollmentRequest)),
         Member(INSTALLATION_ID, Str(r.installation)), Member(AGENT_DEVICE_ID, Str(r.agentDevice)),
         Member(BINDING_ID, Str(r.binding)), Member(EXPIRES_AT_MILLIS, Num(r.expires)),
         Member(SERVER_ORIGIN, Str(r.origin)), Member(TRUST, IssuedTrust(r.trust)),
         Member(RUNTIME_PROFILE, Str(r.profile)), Member(REMOTE_MCP, IssuedMcp(r.mcp))])
  }

  /** The request as the issuer digests and records it. */
  function RequestJson(r: Request): Json {
    Obj([Member(SCHEMA, Str(r.schema)), Member(SCHEMA_VERSION, Num(r.schemaVersion)),
         Member(OPERATION_ID, Str(r.operation)), Member(MANIFEST_DIGEST, Str(r.manifest)), Member(TARGET, Str(r.target)),
         Member(CONNECTOR_ARTIFACT, Obj([Member(VERSION, Str(r.artifactVersion)), Member(DIGEST, Str(r.artifactDigest))])),
         Member(HOST, Obj([Member(TENANT_ID, Str(r.host.tenant)), Member(HOST_ID, Str(r.host.host)),
                           Member(OWNER_ID, Str(r.host.owner)), Member(HOST_CREDENTIAL_ID, Str(r.host.credential))])),
         Member(CONNECTOR, RequestConnector(r))])
  }

  // ---- A plan against its request ----

  lemma InsertedMembers(intent: string, handoffDigest: string)
    requires IsV7(intent) && IsDigestText(handoffDigest)
    ensures MemberSize(Member(HANDOFF_DIGEST, Str(handoffDigest))) == 83
    ensures MemberSize(Member(ENROLLMENT_INTENT_ID, Str(intent))) == 61
    ensures MemberSize(Member(STATE, Str("prepared"))) == 18
  {
    hide Tame, Utf8Size, MemberSize, Size, IsV7, IsDigestText;
    KeysTame();
    TameSize(HANDOFF_DIGEST);
    TameSize(ENROLLMENT_INTENT_ID);
    TameSize(STATE);
    V7Tame(intent);
    TameSize(intent);
    DigestTame(handoffDigest);
    TameSize(handoffDigest);
    ConstantsTame();
    TameSize("prepared");
    Lengths(intent, handoffDigest);
    MemberSizeOf(Member(HANDOFF_DIGEST, Str(handoffDigest)));
    MemberSizeOf(Member(ENROLLMENT_INTENT_ID, Str(intent)));
    MemberSizeOf(Member(STATE, Str("prepared")));
  }

  lemma Lengths(intent: string, handoffDigest: string)
    requires IsV7(intent) && IsDigestText(handoffDigest)
    ensures |intent| == 36 && |handoffDigest| == 64
    ensures |HANDOFF_DIGEST| == 14 && |ENROLLMENT_INTENT_ID| == 20 && |STATE| == 5
  {
  }

  lemma KeysTame()
    ensures All(HANDOFF_DIGEST, Tame) && All(ENROLLMENT_INTENT_ID, Tame) && All(STATE, Tame)
  {
  }

  lemma SchemaSizes()
    ensures MemberSize(Member(SCHEMA, Str("dirextalk.connector-bootstrap-issuance-request")))
         == MemberSize(Member(SCHEMA, Str("dirextalk.connector-bootstrap-plan"))) + 12
  {
    hide Tame, Utf8Size, MemberSize, Size;
    RequestSchemaTame();
    ConstantsTame();
    TameSize("dirextalk.connector-bootstrap-issuance-request");
    TameSize("dirextalk.connector-bootstrap-plan");
    MemberSizeOf(Member(SCHEMA, Str("dirextalk.connector-bootstrap-issuance-request")));
    MemberSizeOf(Member(SCHEMA, Str("dirextalk.connector-bootstrap-plan")));
  }

  lemma SharedFront(r: Request, intent: string, handoffDigest: string)
    ensures RequestConnector(r).Obj? && IssuedConnector(r, intent, handoffDigest).Obj?
    ensures var a, b := RequestConnector(r).members, IssuedConnector(r, intent, handoffDigest).members;
      && |a| == 14 && |b| == 16
      && b[0] == a[0] && b[1] == a[1] && b[2] == Member(HANDOFF_DIGEST, Str(handoffDigest))
  {
    hide IssuedTrust, IssuedMcp;
    hide INSTANCE_ID, ADAPTER_KIND, HANDOFF_DIGEST, DISPLAY_NAME, GENERATION, SPEC_REVISION, ENROLLMENT_REQUEST_ID,
      ENROLLMENT_INTENT_ID, INSTALLATION_ID, AGENT_DEVICE_ID, BINDING_ID, EXPIRES_AT_MILLIS, SERVER_ORIGIN, TRUST, RUNTIME_PROFILE, REMOTE_MCP;
  }

  lemma SharedMiddle(r: Request, intent: string, handoffDigest: string)
    requires RequestConnector(r).Obj? && |RequestConnector(r).members| == 14
    requires IssuedConnector(r, intent, handoffDigest).Obj? && |IssuedConnector(r, intent, handoffDigest).members| == 16
    ensures var a, b := RequestConnector(r).members, IssuedConnector(r, intent, handoffDigest).members;
      && b[3] == a[2] && b[4] == a[3] && b[5] == a[4] && b[6] == a[5] && b[7] == Member(ENROLLMENT_INTENT_ID, Str(intent))
  {
    hide IssuedTrust, IssuedMcp;
    hide INSTANCE_ID, ADAPTER_KIND, HANDOFF_DIGEST, DISPLAY_NAME, GENERATION, SPEC_REVISION, ENROLLMENT_REQUEST_ID,
      ENROLLMENT_INTENT_ID, INSTALLATION_ID, AGENT_DEVICE_ID, BINDING_ID, EXPIRES_AT_MILLIS, SERVER_ORIGIN, TRUST, RUNTIME_PROFILE, REMOTE_MCP;
  }

  lemma SharedBack(r: Request, intent: string, handoffDigest: string)
    requires RequestConnector(r).Obj? && |RequestConnector(r).members| == 14
    requires IssuedConnector(r, intent, handoffDigest).Obj? && |IssuedConnector(r, intent, handoffDigest).members| == 16
    ensures var a, b := RequestConnector(r).members, IssuedConnector(r, intent, handoffDigest).members;
      && b[8] == a[6] && b[9] == a[7] && b[10] == a[8] && b[11] == a[9] && b[12] == a[10] && b[13] == a[11]
      && b[14] == a[12] && b[15] == a[13]
  {
    hide IssuedTrust, IssuedMcp;
    hide INSTANCE_ID, ADAPTER_KIND, HANDOFF_DIGEST, DISPLAY_NAME, GENERATION, SPEC_REVISION, ENROLLMENT_REQUEST_ID,
      ENROLLMENT_INTENT_ID, INSTALLATION_ID, AGENT_DEVICE_ID, BINDING_ID, EXPIRES_AT_MILLIS, SERVER_ORIGIN, TRUST, RUNTIME_PROFILE, REMOTE_MCP;
  }

  lemma TwoInserted(a: seq<Member>, b: seq<Member>)
    requires |a| == 14 && |b| == 16
    requires b[0] == a[0] && b[1] == a[1] && b[3] == a[2] && b[4] == a[3] && b[5] == a[4] && b[6] == a[5]
    requires b[8] == a[6] && b[9] == a[7] && b[10] == a[8] && b[11] == a[9] && b[12] == a[10] && b[13] == a[11]
    requires b[14] == a[12] && b[15] == a[13]
    ensures b == a[..2] + [b[2]] + a[2..6] + [b[7]] + a[6..]
  {
  }

  /** The connector of a plan is that of its request with two more members. */
  lemma SharedConnector(r: Request, intent: string, handoffDigest: string)
    ensures RequestConnector(r).Obj? && IssuedConnector(r, intent, handoffDigest).Obj?
    ensures var a, b := RequestConnector(r).members, IssuedConnector(r, intent, handoffDigest).members;
      && |a| == 14
      && b == a[..2] + [Member(HANDOFF_DIGEST, Str(handoffDigest))] + a[2..6] + [Member(ENROLLMENT_INTENT_ID, Str(intent))] + a[6..]
  {
    hide RequestConnector, IssuedConnector;
    SharedFront(r, intent, handoffDigest);
    SharedMiddle(r, intent, handoffDigest);
    SharedBack(r, intent, handoffDigest);
    TwoInserted(RequestConnector(r).members, IssuedConnector(r, intent, handoffDigest).members);
  }

  lemma ConnectorSizes(r: Request, intent: string, handoffDigest: string)
    requires IsV7(intent) && IsDigestText(handoffDigest)
    ensures Size(IssuedConnector(r, intent, handoffDigest)) == Size(RequestConnector(r)) + 146
  {
    hide Size, MemberSize, IsV7, IsDigestText, IssuedTrust, IssuedMcp, RequestConnector, IssuedConnector;
    SharedConnector(r, intent, handoffDigest);
    var a, b := RequestConnector(r).members, IssuedConnector(r, intent, handoffDigest).members;
    var digest, intended := Member(HANDOFF_DIGEST, Str(handoffDigest)), Member(ENROLLMENT_INTENT_ID, Str(intent));
    assert a == a[..2] + a[2..6] + a[6..];
    ObjectSize(a);
    ObjectSize(b);
    MemberSizesAppend(a[..2] + a[2..6], a[6..]);
    MemberSizesAppend(a[..2], a[2..6]);
    MemberSizesAppend(a[..2] + [digest] + a[2..6] + [intended], a[6..]);
    MemberSizesAppend(a[..2] + [digest] + a[2..6], [intended]);
    MemberSizesAppend(a[..2] + [digest], a[2..6]);
    MemberSizesAppend(a[..2], [digest]);
    OneMember(digest);
    OneMember(intended);
    InsertedMembers(intent, handoffDigest);
  }

  /** What a handoff says of the request it says as the request does, under the same names. */
  lemma HandoffRepeats(r: Request, intent: string, token: Bytes, bearer: Bytes)
    ensures RequestJson(r).Obj? && IssuedHandoff(r, intent, token, bearer).Obj? && |RequestJson(r).members| == 8
    ensures var h, a := IssuedHandoff(r, intent, token, bearer).members, RequestJson(r).members;
      && |h| == 16 && h[3] == a[2] && h[4] == a[3] && h[5] == a[4]
      && a[6].value.Obj? && |a[6].value.members| == 4 && h[6] == a[6].value.members[0] && h[7] == a[6].value.members[1]
      && h[2] == Member(STATE, Str("ready")) && h[10] == Member(ENROLLMENT_INTENT_ID, Str(intent))
      && h[14] == Member(ENROLLMENT_TOKEN, SecretJson(token)) && h[15] == Member(MCP_BEARER, SecretJson(bearer))
  {
    hide RequestConnector, SecretJson;
  }

  lemma HandoffRepeatsConnector(r: Request, intent: string, token: Bytes, bearer: Bytes)
    ensures IssuedHandoff(r, intent, token, bearer).Obj? && RequestConnector(r).Obj?
    ensures var h, c := IssuedHandoff(r, intent, token, bearer).members, RequestConnector(r).members;
      && |h| == 16 && |c| == 14
      && h[8] == c[0] && h[9] == c[5] && h[11] == c[3] && h[12] == c[4] && h[13] == c[9]
  {
    hide IssuedTrust, IssuedMcp, SecretJson;
  }

  /** Of the plan's nine members seven are the request's. */
  lemma SharedMembers(r: Request, intent: string, handoffDigest: string)
    requires r.schemaVersion == 1
    ensures RequestJson(r).Obj? && IssuedPlan(r, intent, handoffDigest).Obj?
    ensures var a, b := RequestJson(r).members, IssuedPlan(r, intent, handoffDigest).members;
      && |a| == 8 && b == [b[0]] + a[1..2] + [Member(STATE, Str("prepared"))] + a[2..7] + [b[8]]
      && a == [a[0]] + a[1..2] + a[2..7] + [a[7]]
      && a[7] == Member(CONNECTOR, RequestConnector(r)) && b[8] == Member(CONNECTOR, IssuedConnector(r, intent, handoffDigest))
      && a[0] == Member(SCHEMA, Str(r.schema)) && b[0] == Member(SCHEMA, Str("dirextalk.connector-bootstrap-plan"))
  {
    hide IssuedConnector, RequestConnector;
    var a, b := RequestJson(r).members, IssuedPlan(r, intent, handoffDigest).members;
    assert b[1] == a[1] && b[3] == a[2] && b[4] == a[3] && b[5] == a[4];
    assert b[6] == a[5];
    assert b[7] == a[6];
    assert a[2..7] == [b[3], b[4], b[5], b[6], b[7]];
  }

  /** A plan is 153 bytes longer than its request, whatever the request. */
  lemma PlanSize(r: Request, intent: string, handoffDigest: string)
    requires r.schema == "dirextalk.connector-bootstrap-issuance-request" && r.schemaVersion == 1
    requires IsV7(intent) && IsDigestText(handoffDigest)
    ensures Size(IssuedPlan(r, intent, handoffDigest)) == Size(RequestJson(r)) + 153
  {
    hide Size, MemberSize, IsV7, IsDigestText, RequestJson, IssuedPlan, IssuedConnector, RequestConnector, Utf8Size;
    SharedMembers(r, intent, handoffDigest);
    var a, b := RequestJson(r).members, IssuedPlan(r, intent, handoffDigest).members;
    var state := Member(STATE, Str("prepared"));
    ObjectSize(a);
    ObjectSize(b);
    MemberSizesAppend([a[0]] + a[1..2] + a[2..7], [a[7]]);
    MemberSizesAppend([a[0]] + a[1..2], a[2..7]);
    MemberSizesAppend([a[0]], a[1..2]);
    MemberSizesAppend([b[0]] + a[1..2] + [state] + a[2..7], [b[8]]);
    MemberSizesAppend([b[0]] + a[1..2] + [state], a[2..7]);
    MemberSizesAppend([b[0]] + a[1..2], [state]);
    MemberSizesAppend([b[0]], a[1..2]);
    OneMember(a[0]);
    OneMember(a[7]);
    OneMember(b[0]);
    OneMember(b[8]);
    OneMember(state);
    InsertedMembers(intent, handoffDigest);
    SchemaSizes();
    ConnectorSizes(r, intent, handoffDigest);
    MemberSizeOf(a[7]);
    MemberSizeOf(b[8]);
  }

  // ---- A handoff is short ----

  lemma {:induction false} MemberSizesWithin(members: seq<Member>, n: nat)
    requires forall i :: 0 <= i < |members| ==> MemberSize(members[i]) <= n
    ensures MemberSizes(members) <= |members| * n
  {
    hide MemberSize;
    if members != [] {
      MemberSizesWithin(members[1..], n);
      var rest := |members| - 1;
      assert (rest + 1) * n == rest * n + n;
    }
  }

  lemma {:induction false} AtMostFour(s: string)
    ensures Utf8Size(s) <= 4 * |s|
  {
    if s != [] {
      AtMostFour(s[..|s| - 1]);
    }
  }

  function Power10(d: nat): nat {
    if d == 0 then 1 else 10 * Power10(d - 1)
  }

  lemma {:induction false} DecimalShort(n: nat, d: nat)
    requires d > 0 && n < Power10(d)
    ensures |Decimal(n)| <= d
  {
    if n >= 10 {
      DecimalShort(n / 10, d - 1);
    }
  }

  /** A short key with a short text that needs no care. */
  lemma ShortText(key: Key, s: string)
    requires |key| <= 31 && All(s, Tame) && |s| <= 64
    ensures MemberSize(Member(key, Str(s))) <= 200
  {
    hide MemberSize, Size, Utf8Size, Tame;
    AtMostFour(key);
    TameSize(s);
    MemberSizeOf(Member(key, Str(s)));
  }

  lemma ShortNumber(key: Key, n: nat)
    requires |key| <= 31 && n <= I64_MAX
    ensures MemberSize(Member(key, Num(n))) <= 210
  {
    hide MemberSize, Utf8Size;
    AtMostFour(key);
    assert Power10(19) > I64_MAX by { Powers(); }
    DecimalShort(n, 19);
    AtMostFour(Decimal(n));
    MemberSizeOf(Member(key, Num(n)));
  }

  lemma Powers()
    ensures Power10(19) == 10_000_000_000_000_000_000
  {
    assert Power10(4) == 10_000;
    assert Power10(8) == 100_000_000;
    assert Power10(12) == 1_000_000_000_000;
    assert Power10(16) == 10_000_000_000_000_000;
  }

  lemma ShortSecret(key: Key, b: Bytes)
    requires |key| <= 31 && |b| == 32
    ensures MemberSize(Member(key, SecretJson(b))) <= 350
  {
    hide MemberSize, Size, Utf8Size, Literal;
    AtMostFour(key);
    Base64UrlLiteral(b);
    Secret.CanonicalTail(b);
    var s := AsText(Secret.Base64Url(b));
    AtMostFour(s);
    QuoteSize(s);
    assert Size(SecretJson(b)) == Utf8Size(s) + 2 by { SecretSize(s); }
    MemberSizeOf(Member(key, SecretJson(b)));
  }

  lemma SecretSize(s: string)
    requires All(s, Literal)
    ensures Size(Str(s)) == Utf8Size(s) + 2
  {
    QuoteSize(s);
  }

  lemma HandoffKeys()
    ensures |SCHEMA| <= 31 && |SCHEMA_VERSION| <= 31 && |STATE| <= 31 && |OPERATION_ID| <= 31 && |MANIFEST_DIGEST| <= 31
    ensures |TARGET| <= 31 && |TENANT_ID| <= 31 && |HOST_ID| <= 31 && |INSTANCE_ID| <= 31 && |ENROLLMENT_REQUEST_ID| <= 31
    ensures |ENROLLMENT_INTENT_ID| <= 31 && |GENERATION| <= 31 && |SPEC_REVISION| <= 31 && |EXPIRES_AT_MILLIS| <= 31
    ensures |ENROLLMENT_TOKEN| <= 31 && |MCP_BEARER| <= 31
  {
  }

  lemma ShortId(key: Key, s: string)
    requires |key| <= 31 && IsV7(s)
    ensures MemberSize(Member(key, Str(s))) <= 200
  {
    V7Tame(s);
    ShortText(key, s);
  }

  /** Every issued handoff takes at most 5,617 bytes. */
  lemma HandoffSize(r: Request, now: int, intent: string, token: Bytes, bearer: Bytes)
    requires WellTyped(r) && IssuerAccepts(r, now) && IsV7(intent) && |token| == 32 && |bearer| == 32
    ensures Size(IssuedHandoff(r, intent, token, bearer)) <= 5_617
  {
    hide Size, MemberSize, IsV7, IsDigestText, IsIdentity, IsSemver, HttpsParts, EndpointParts, IsMcpName, ValidText, NoForbidden;
    hide Tame, SecretJson;
    HandoffKeys();
    HandoffSchemaTame();
    ShortText(SCHEMA, "dirextalk.connector-bootstrap-handoff");
    ShortNumber(SCHEMA_VERSION, 1);
    ShortText(STATE, "ready");
    ShortId(OPERATION_ID, r.operation);
    DigestTame(r.manifest);
    Lengths(intent, r.manifest);
    ShortText(MANIFEST_DIGEST, r.manifest);
    NamesTame(r.target);
    ShortText(TARGET, r.target);
    ShortId(TENANT_ID, r.host.tenant);
    ShortId(HOST_ID, r.host.host);
    ShortId(INSTANCE_ID, r.instance);
    ShortId(ENROLLMENT_REQUEST_ID, r.enrollmentRequest);
    ShortId(ENROLLMENT_INTENT_ID, intent);
    ShortNumber(GENERATION, r.generation);
    ShortNumber(SPEC_REVISION, r.specRevision);
    ShortNumber(EXPIRES_AT_MILLIS, r.expires);
    ShortSecret(ENROLLMENT_TOKEN, token);
    ShortSecret(MCP_BEARER, bearer);
    var members := IssuedHandoff(r, intent, token, bearer).members;
    MemberSizesWithin(members, 350);
    ObjectSize(members);
  }
}
