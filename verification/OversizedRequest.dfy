/** A request that is validated and can be read, and whose plan is too large to be published. */
module OversizedRequest {
  import opened Common
  import opened Text
  import opened BootstrapText
  import opened Json
  import opened Bootstrap
  import opened Agreement
  import opened PlanSizes
  import opened IssuedRequests

  // ---- A long version ----

  function Padding(k: nat): (s: string)
    ensures |s| == k && forall i :: 0 <= i < k ==> s[i] == 'a'
  {
    seq(k, _ => 'a')
  }

  function LongVersion(k: nat): string {
    "1.0.0-" + Padding(k)
  }

  lemma CoreIsValid()
    ensures IsCore("1.0.0")
  {
    hide IsCore, Find;
    SomeVersion();
    NoSeparator("1.0.0", '+');
    NoSeparator("1.0.0", '-');
  }

  lemma PaddingIsSuffix(k: nat)
    requires k > 0
    ensures IsSuffix(Padding(k)) && '+' !in Padding(k)
  {
    hide Padding;
    NoSeparator(Padding(k), '.');
  }

  lemma LongVersionIsValid(k: nat)
    requires k > 0
    ensures IsSemver(LongVersion(k))
  {
    hide IsCore, IsSuffix, Padding, Find;
    var v := LongVersion(k);
    CoreIsValid();
    PaddingIsSuffix(k);
    assert v[..5] == "1.0.0" && v[6..] == Padding(k) && v[5] == '-' && '-' !in v[..5];
    NoSeparator(v, '+');
    FindAt(v, '-', 5);
  }

  function LongRequest(k: nat): Request {
    SomeRequest().(artifactVersion := LongVersion(k))
  }

  lemma LongStringsAllowed(k: nat)
    requires k > 0
    ensures NoForbidden(RequestStrings(LongRequest(k)))
  {
    hide Allowed, IsSemver, Tame, LongVersion;
    SomeStringsAllowed();
    LongVersionIsValid(k);
    SemverTame(LongVersion(k));
    TameIsFine(LongVersion(k));
    var a, b := RequestStrings(SomeRequest()), RequestStrings(LongRequest(k));
    forall i | 0 <= i < |b|
      ensures All(b[i], Allowed)
    {
      assert i != 2 ==> b[i] == a[i];
    }
  }

  lemma LongRequestIsValidated(k: nat)
    requires k > 0
    ensures WellTyped(LongRequest(k)) && IssuerAccepts(LongRequest(k), 0)
  {
    hide IsV7, IsDigestText, IsIdentity, SomeV7, SomeDigest, SomeIdentity, IsSemver, HttpsParts, EndpointParts, NoForbidden;
    hide LongVersion;
    SomeRequestIsValidated(60_000);
    LongVersionIsValid(k);
    LongStringsAllowed(k);
  }

  // ---- Its size ----

  /** A longer version makes the request longer by as much. */
  lemma VersionCounts(r: Request, v: string)
    requires All(r.artifactVersion, Tame) && All(v, Tame)
    ensures Size(RequestJson(r.(artifactVersion := v))) + |r.artifactVersion| == Size(RequestJson(r)) + |v|
  {
    hide Size, MemberSize, Tame, RequestConnector, Utf8Size;
    var a, b := RequestJson(r).members, RequestJson(r.(artifactVersion := v)).members;
    ConnectorAlike(r, v);
    assert a == a[..5] + [a[5]] + a[6..] && b == a[..5] + [b[5]] + a[6..];
    ObjectSize(a);
    ObjectSize(b);
    MemberSizesAppend(a[..5] + [a[5]], a[6..]);
    MemberSizesAppend(a[..5], [a[5]]);
    MemberSizesAppend(a[..5] + [b[5]], a[6..]);
    MemberSizesAppend(a[..5], [b[5]]);
    OneMember(a[5]);
    OneMember(b[5]);
    MemberSizeOf(a[5]);
    MemberSizeOf(b[5]);
    ArtifactSize(r.artifactVersion, r.artifactDigest);
    ArtifactSize(v, r.artifactDigest);
  }

  lemma ConnectorAlike(r: Request, v: string)
    ensures RequestConnector(r.(artifactVersion := v)) == RequestConnector(r)
  {
  }

  lemma ArtifactSize(version: string, digest: string)
    requires All(version, Tame)
    ensures Size(Obj([Member(VERSION, Str(version)), Member(DIGEST, Str(digest))]))
         == |version| + Utf8Size(VERSION) + MemberSize(Member(DIGEST, Str(digest))) + 8
  {
    hide Size, MemberSize, Tame, Utf8Size;
    var members := [Member(VERSION, Str(version)), Member(DIGEST, Str(digest))];
    ObjectSize(members);
    assert members == [members[0]] + [members[1]];
    MemberSizesAppend([members[0]], [members[1]]);
    OneMember(members[0]);
    OneMember(members[1]);
    MemberSizeOf(members[0]);
    TameSize(version);
  }

  lemma ShortObject(key: Key, members: seq<Member>)
    requires |key| <= 31 && 0 < |members| <= 7
    requires forall i :: 0 <= i < |members| ==> MemberSize(members[i]) <= 210
    ensures MemberSize(Member(key, Obj(members))) <= 1_605
  {
    hide Size, MemberSize, Utf8Size;
    AtMostFour(key);
    MemberSizesWithin(members, 210);
    ObjectSize(members);
    MemberSizeOf(Member(key, Obj(members)));
  }

  lemma TrustKeys()
    ensures |ENROLLMENT_URL| <= 31 && |ENROLLMENT_SERVER_NAME| <= 31 && |ENROLLMENT_ROOT_CA_SHA256| <= 31 && |CONTROL_URL| <= 31
    ensures |CONTROL_SERVER_NAME| <= 31 && |CONTROL_SERVER_ROOT_CA_SHA256| <= 31 && |CONNECTOR_ISSUER_ROOT_CA_SHA256| <= 31
    ensures |MCP_SERVER_NAME| <= 31 && |MCP_URL| <= 31 && |MCP_NODE_ID| <= 31 && |MAX_CONCURRENT_RUNS| <= 31
    ensures |OFFLINE_POLICY| <= 31 && |TRUST| <= 31 && |REMOTE_MCP| <= 31
  {
  }

  lemma OtherKeys()
    ensures |ADAPTER_KIND| <= 31 && |DISPLAY_NAME| <= 31 && |INSTALLATION_ID| <= 31 && |AGENT_DEVICE_ID| <= 31
    ensures |BINDING_ID| <= 31 && |SERVER_ORIGIN| <= 31 && |RUNTIME_PROFILE| <= 31 && |OWNER_ID| <= 31
    ensures |HOST_CREDENTIAL_ID| <= 31 && |VERSION| <= 31 && |DIGEST| <= 31 && |CONNECTOR_ARTIFACT| <= 31
    ensures |HOST| <= 31 && |CONNECTOR| <= 31
  {
  }

  lemma SomeTexts()
    ensures All("a", Tame) && All("https://a", Tame) && All("https://a/mcp", Tame) && All("1.0.0", Tame)
    ensures All("linux-amd64", Tame) && All("codex", Tame) && All("safe", Tame) && All("queue", Tame)
    ensures All(SomeV7(), Tame) && All(SomeDigest(), Tame) && All(SomeIdentity(), Tame)
    ensures |SomeV7()| == 36 && |SomeDigest()| == 64 && |SomeIdentity()| == 57
  {
    NamesTame("linux-amd64");
    NamesTame("codex");
    NamesTame("safe");
    NamesTame("queue");
    V7Tame(SomeV7());
    DigestTame(SomeDigest());
    IdentityTame(SomeIdentity());
  }

  lemma SomeTrustShort()
    ensures MemberSize(Member(TRUST, IssuedTrust(SomeRequest().trust))) <= 1_605
    ensures MemberSize(Member(REMOTE_MCP, IssuedMcp(SomeRequest().mcp))) <= 1_605
  {
    hide MemberSize, Tame, SomeV7, SomeDigest, SomeIdentity;
    TrustKeys();
    SomeTexts();
    ShortText(ENROLLMENT_URL, "https://a");
    ShortText(ENROLLMENT_SERVER_NAME, "a");
    ShortText(ENROLLMENT_ROOT_CA_SHA256, SomeDigest());
    ShortText(CONTROL_URL, "https://a");
    ShortText(CONTROL_SERVER_NAME, "a");
    ShortText(CONTROL_SERVER_ROOT_CA_SHA256, SomeDigest());
    ShortText(CONNECTOR_ISSUER_ROOT_CA_SHA256, SomeDigest());
    ShortObject(TRUST, IssuedTrust(SomeRequest().trust).members);
    ShortText(MCP_SERVER_NAME, "a");
    ShortText(MCP_URL, "https://a/mcp");
    ShortText(MCP_NODE_ID, SomeV7());
    ShortNumber(MAX_CONCURRENT_RUNS, 1);
    ShortText(OFFLINE_POLICY, "queue");
    ShortObject(REMOTE_MCP, IssuedMcp(SomeRequest().mcp).members);
  }

  lemma SomeConnectorShort()
    ensures Size(RequestConnector(SomeRequest())) <= 22_485
  {
    hide Size, MemberSize, Tame, SomeV7, SomeDigest, SomeIdentity, IssuedTrust, IssuedMcp;
    HandoffKeys();
    OtherKeys();
    SomeTexts();
    SomeTrustShort();
    ShortText(INSTANCE_ID, SomeV7());
    ShortText(ADAPTER_KIND, "codex");
    ShortText(DISPLAY_NAME, "a");
    ShortNumber(GENERATION, 1);
    ShortNumber(SPEC_REVISION, 1);
    ShortText(ENROLLMENT_REQUEST_ID, SomeV7());
    ShortText(INSTALLATION_ID, SomeV7());
    ShortText(AGENT_DEVICE_ID, SomeV7());
    ShortText(BINDING_ID, SomeV7());
    ShortNumber(EXPIRES_AT_MILLIS, 60_000);
    ShortText(SERVER_ORIGIN, "https://a");
    ShortText(RUNTIME_PROFILE, "safe");
    var members := RequestConnector(SomeRequest()).members;
    MemberSizesWithin(members, 1_605);
    ObjectSize(members);
  }

  lemma SomeHostShort()
    ensures var r := RequestJson(SomeRequest()).members; MemberSize(r[5]) <= 1_605 && MemberSize(r[6]) <= 1_605
  {
    hide MemberSize, Tame, SomeV7, SomeDigest, SomeIdentity, RequestConnector;
    HandoffKeys();
    OtherKeys();
    SomeTexts();
    var r := SomeRequest();
    ShortText(VERSION, "1.0.0");
    ShortText(DIGEST, SomeDigest());
    ShortObject(CONNECTOR_ARTIFACT, [Member(VERSION, Str(r.artifactVersion)), Member(DIGEST, Str(r.artifactDigest))]);
    ShortText(TENANT_ID, SomeV7());
    ShortText(HOST_ID, SomeV7());
    ShortText(OWNER_ID, SomeIdentity());
    ShortText(HOST_CREDENTIAL_ID, SomeV7());
    ShortObject(HOST, [Member(TENANT_ID, Str(r.host.tenant)), Member(HOST_ID, Str(r.host.host)),
                       Member(OWNER_ID, Str(r.host.owner)), Member(HOST_CREDENTIAL_ID, Str(r.host.credential))]);
  }

  lemma SomeRequestShort()
    ensures Size(RequestJson(SomeRequest())) <= 40_000
  {
    hide Size, MemberSize, Tame, SomeV7, SomeDigest, SomeIdentity, RequestConnector, Utf8Size;
    HandoffKeys();
    OtherKeys();
    SomeTexts();
    SomeHostShort();
    SomeConnectorShort();
    RequestSchemaTame();
    ShortText(SCHEMA, "dirextalk.connector-bootstrap-issuance-request");
    ShortNumber(SCHEMA_VERSION, 1);
    ShortText(OPERATION_ID, SomeV7());
    ShortText(MANIFEST_DIGEST, SomeDigest());
    ShortText(TARGET, "linux-amd64");
    var members := RequestJson(SomeRequest()).members;
    MemberSizesWithin(members[..7], 1_605);
    assert members == members[..7] + [members[7]];
    MemberSizesAppend(members[..7], [members[7]]);
    OneMember(members[7]);
    MemberSizeOf(members[7]);
    AtMostFour(CONNECTOR);
    ObjectSize(members);
  }

  /** As long as a request file may be. */
  function LargestRequest(): Request {
    LongRequest(if Size(RequestJson(SomeRequest())) < 65_535 then 65_535 - Size(RequestJson(SomeRequest())) else 0)
  }

  /** It is validated, its text is 65,536 bytes and so its plan 65,689. */
  lemma LargestRequestIsOversized(intent: string, handoffDigest: string)
    requires IsV7(intent) && IsDigestText(handoffDigest)
    ensures var r := LargestRequest();
      && WellTyped(r) && IssuerAccepts(r, 0)
      && Size(RequestJson(r)) == 65_536 && Size(IssuedPlan(r, intent, handoffDigest)) == 65_689
  {
    hide Size, RequestJson, Tame, IsSemver, WellTyped, IsV7, IsDigestText, NoForbidden, IsOrigin, IsEndpoint, IsMcpUrl, ValidText;
    SomeRequestShort();
    var k := 65_535 - Size(RequestJson(SomeRequest()));
    LongRequestIsValidated(k);
    SomeTexts();
    LongVersionIsValid(k);
    SemverTame(LongVersion(k));
    VersionCounts(SomeRequest(), LongVersion(k));
    PlanSize(LargestRequest(), intent, handoffDigest);
  }
}
