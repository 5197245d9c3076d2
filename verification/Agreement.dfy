/**
Issuer and supervisor agree on texts: those one writes for a request it validated, the other
accepts, except where an expiry is too large for JSON numbers.  Each side's texts are written out
from its own records, and shown to be the same.
*/
module Agreement {
  import opened Common
  import opened Text
  import opened BootstrapText
  import opened Json
  import opened Bootstrap
  import opened MemberNames
  import Secret

  const I64_MAX: nat := 0x7fff_ffff_ffff_ffff
  const I64_MIN: int := -0x8000_0000_0000_0000

  datatype Request = Request(
    schema: string, schemaVersion: nat, operation: string, manifest: string, target: string,
    artifactVersion: string, artifactDigest: string, host: Host,
    instance: string, adapter: string, displayName: string, generation: nat, specRevision: nat,
    enrollmentRequest: string, installation: string, agentDevice: string, binding: string, expires: nat,
    origin: string, trust: Trust, profile: string, mcp: Mcp)

  // ---- Reading a request ----

  /** A request read from a text without backslashes holds literal characters only. */
  lemma {:induction false} BackslashFreeIsLiteral(body: string, s: string)
    requires '\\' !in body && Decodes(body, s)
    ensures s == body && All(s, Literal)
  {
    if body != [] {
      BackslashFreeIsLiteral(body[1..], s[1..]);
      assert s == [s[0]] + s[1..] && body == [body[0]] + body[1..];
    }
  }

  // ---- The issuer ----

  /** What the field types guarantee: identifiers and digests in their one spelling. */
  predicate WellTyped(r: Request) {
    && IsV7(r.operation) && IsDigestText(r.manifest) && IsDigestText(r.artifactDigest)
    && IsV7(r.host.tenant) && IsV7(r.host.host) && IsIdentity(r.host.owner) && IsV7(r.host.credential)
    && IsV7(r.instance) && r.adapter in ADAPTERS && IsV7(r.enrollmentRequest)
    && IsV7(r.installation) && IsV7(r.agentDevice) && IsV7(r.binding)
    && IsDigestText(r.trust.enrollmentCa) && IsDigestText(r.trust.controlCa) && IsDigestText(r.trust.issuerCa)
    && IsV7(r.mcp.node)
  }

  function RequestStrings(r: Request): seq<string> {
    [r.schema, r.target, r.artifactVersion, r.displayName, r.origin, r.profile,
     r.trust.enrollmentUrl, r.trust.enrollmentName, r.trust.controlUrl, r.trust.controlName,
     r.mcp.name, r.mcp.url, r.mcp.offlinePolicy]
  }

  /** The texts and numbers of a request by themselves, at any generation and time. */
  predicate RequestFits(r: Request) {
    && r.schema == "dirextalk.connector-bootstrap-issuance-request" && r.schemaVersion == 1 && r.target in TARGETS
    && IsSemver(r.artifactVersion) && IsOrigin(r.origin)
    && IsEndpoint(r.trust.enrollmentUrl, r.trust.enrollmentName) && IsEndpoint(r.trust.controlUrl, r.trust.controlName)
    && IsMcpName(r.mcp.name) && IsMcpUrl(r.mcp.url) && 0 < r.mcp.maxRuns <= 4096 && r.mcp.offlinePolicy == "queue"
    && r.profile in PROFILES && ValidText(r.displayName, 128)
    && NoForbidden(RequestStrings(r))
  }

  /** `validate_bootstrap_issue_request`; the remaining lifetime is taken in signed 64 bits. */
  predicate IssuerAccepts(r: Request, now: int) {
    && r.expires <= I64_MAX && I64_MIN <= r.expires - now <= I64_MAX
    && r.generation == 1 && r.specRevision == 1 && MIN_TTL <= r.expires - now <= MAX_TTL
    && RequestFits(r)
  }

  // ---- What the issuer writes ----

  function IssuedTrust(t: Trust): Json {
    Obj([Member(ENROLLMENT_URL, Str(t.enrollmentUrl)), Member(ENROLLMENT_SERVER_NAME, Str(t.enrollmentName)),
         Member(ENROLLMENT_ROOT_CA_SHA256, Str(t.enrollmentCa)), Member(CONTROL_URL, Str(t.controlUrl)),
         Member(CONTROL_SERVER_NAME, Str(t.controlName)), Member(CONTROL_SERVER_ROOT_CA_SHA256, Str(t.controlCa)),
         Member(CONNECTOR_ISSUER_ROOT_CA_SHA256, Str(t.issuerCa))])
  }

  function IssuedMcp(m: Mcp): Json {
    Obj([Member(MCP_SERVER_NAME, Str(m.name)), Member(MCP_URL, Str(m.url)), Member(MCP_NODE_ID, Str(m.node)),
         Member(MAX_CONCURRENT_RUNS, Num(m.maxRuns)), Member(OFFLINE_POLICY, Str(m.offlinePolicy))])
  }

  function IssuedConnector(r: Request, intent: string, handoffDigest: string): Json {
    Obj([Member(INSTANCE_ID, Str(r.instance)), Member(ADAPTER_KIND, Str(r.adapter)),
         Member(HANDOFF_DIGEST, Str(handoffDigest)), Member(DISPLAY_NAME, Str(r.displayName)),
         Member(GENERATION, Num(r.generation)), Member(SPEC_REVISION, Num(r.specRevision)),
         Member(ENROLLMENT_REQUEST_ID, Str(r.enrollmentRequest)), Member(ENROLLMENT_INTENT_ID, Str(intent)),
         Member(INSTALLATION_ID, Str(r.installation)), Member(AGENT_DEVICE_ID, Str(r.agentDevice)),
         Member(BINDING_ID, Str(r.binding)), Member(EXPIRES_AT_MILLIS, Num(r.expires)),
         Member(SERVER_ORIGIN, Str(r.origin)), Member(TRUST, IssuedTrust(r.trust)),
         Member(RUNTIME_PROFILE, Str(r.profile)), Member(REMOTE_MCP, IssuedMcp(r.mcp))])
  }

  /** The plan, from the request, the intent and the digest of the handoff. */
  function IssuedPlan(r: Request, intent: string, handoffDigest: string): Json {
    Obj([Member(SCHEMA, Str("dirextalk.connector-bootstrap-plan")), Member(SCHEMA_VERSION, Num(1)),
         Member(STATE, Str("prepared")), Member(OPERATION_ID, Str(r.operation)),
         Member(MANIFEST_DIGEST, Str(r.manifest)), Member(TARGET, Str(r.target)),
         Member(CONNECTOR_ARTIFACT, Obj([Member(VERSION, Str(r.artifactVersion)), Member(DIGEST, Str(r.artifactDigest))])),
         Member(HOST, Obj([Member(TENANT_ID, Str(r.host.tenant)), Member(HOST_ID, Str(r.host.host)),
                           Member(OWNER_ID, Str(r.host.owner)), Member(HOST_CREDENTIAL_ID, Str(r.host.credential))])),
         Member(CONNECTOR, IssuedConnector(r, intent, handoffDigest))])
  }

  function AsText(b: Bytes): string {
    seq(|b|, i requires 0 <= i < |b| => b[i] as char)
  }

  function SecretJson(b: Bytes): Json {
    Str(AsText(Secret.Base64Url(b)))
  }

  /** The handoff once it is ready; its secrets are strings of Base64URL. */
  function IssuedHandoff(r: Request, intent: string, token: Bytes, bearer: Bytes): Json {
    Obj([Member(SCHEMA, Str("dirextalk.connector-bootstrap-handoff")), Member(SCHEMA_VERSION, Num(1)),
         Member(STATE, Str("ready")), Member(OPERATION_ID, Str(r.operation)),
         Member(MANIFEST_DIGEST, Str(r.manifest)), Member(TARGET, Str(r.target)),
         Member(TENANT_ID, Str(r.host.tenant)), Member(HOST_ID, Str(r.host.host)),
         Member(INSTANCE_ID, Str(r.instance)), Member(ENROLLMENT_REQUEST_ID, Str(r.enrollmentRequest)),
         Member(ENROLLMENT_INTENT_ID, Str(intent)), Member(GENERATION, Num(r.generation)),
         Member(SPEC_REVISION, Num(r.specRevision)), Member(EXPIRES_AT_MILLIS, Num(r.expires)),
         Member(ENROLLMENT_TOKEN, SecretJson(token)), Member(MCP_BEARER, SecretJson(bearer))])
  }

  // ---- What the supervisor is to read ----

  function PlanFor(r: Request, intent: string, handoffDigest: string): Plan {
    Plan("dirextalk.connector-bootstrap-plan", 1, "prepared", r.operation, r.manifest, r.target,
         r.artifactVersion, r.artifactDigest, r.host, r.instance, r.adapter, handoffDigest, r.displayName,
         r.generation, r.specRevision, r.enrollmentRequest, intent, r.installation, r.agentDevice, r.binding,
         r.expires, r.origin, r.trust, r.profile, r.mcp)
  }

  function HandoffFor(r: Request, intent: string, token: Bytes, bearer: Bytes): Handoff {
    Handoff("dirextalk.connector-bootstrap-handoff", 1, "ready", r.operation, r.manifest, r.target,
            r.host.tenant, r.host.host, r.instance, r.enrollmentRequest, intent,
            r.generation, r.specRevision, r.expires, AsText(Secret.Quoted(token)), AsText(Secret.Quoted(bearer)))
  }

  /** Both programs give a plan the same members in the same order. */
  lemma IssuedPlanIsRead(r: Request, intent: string, handoffDigest: string)
    ensures IssuedPlan(r, intent, handoffDigest) == PlanJson(PlanFor(r, intent, handoffDigest))
  {
    assert IssuedTrust(r.trust) == TrustJson(r.trust) && IssuedMcp(r.mcp) == McpJson(r.mcp);
    assert IssuedConnector(r, intent, handoffDigest) == ConnectorJson(PlanFor(r, intent, handoffDigest));
  }

  /** And a handoff. */
  lemma IssuedHandoffIsRead(r: Request, intent: string, token: Bytes, bearer: Bytes)
    ensures IssuedHandoff(r, intent, token, bearer)
         == HandoffJson(HandoffFor(r, intent, token, bearer), SecretJson(token), SecretJson(bearer))
  {
  }

  lemma DigitLiteral(c: Byte)
    requires Secret.Position(c).Some?
    ensures Literal(c as char) && c < 0x80
  {
  }

  lemma Base64UrlLiteral(b: Bytes)
    ensures All(AsText(Secret.Base64Url(b)), Literal)
    ensures forall i :: 0 <= i < |Secret.Base64Url(b)| ==> Secret.Base64Url(b)[i] < 0x80
  {
    hide Literal, Secret.Base64Url, Secret.Position;
    forall i | 0 <= i < |Secret.Base64Url(b)|
      ensures Literal(Secret.Base64Url(b)[i] as char) && Secret.Base64Url(b)[i] < 0x80
    {
      Secret.OnlyDigits(b, i);
      DigitLiteral(Secret.Base64Url(b)[i]);
    }
  }

  /** The text of a secret's string is the quoted Base64URL that the supervisor decodes. */
  lemma SecretRead(b: Bytes)
    ensures Clean(SecretJson(b)) && Written(SecretJson(b)) == AsText(Secret.Quoted(b))
    ensures |b| == 32 ==> SpellsSecret(AsText(Secret.Quoted(b)))
  {
    hide Literal, Secret.Base64Url;
    Base64UrlLiteral(b);
    PlainQuote(AsText(Secret.Base64Url(b)));
    assert Written(SecretJson(b)) == AsText(Secret.Quoted(b));
    assert AsBytes(AsText(Secret.Quoted(b))) == Secret.Quoted(b);
  }

  /** The header an operator builds from a plan. */
  function HeaderFor(p: Plan, planDigest: string, preparedReceipt: Option<string>): Header {
    Header(p.operation, p.host.tenant, p.host.host, p.instance, p.target, p.expires, p.adapter, p.artifactDigest,
           planDigest, Some(p.trust.enrollmentCa), Some(p.trust.controlCa), Some(p.trust.issuerCa), preparedReceipt)
  }

  // ---- The characters of an issued plan ----

  lemma SchemaTame()
    ensures All("dirextalk.connector-bootstrap-plan", Tame)
  {
  }

  lemma ConstantsTame()
    ensures All("dirextalk.connector-bootstrap-plan", Tame) && All("prepared", Tame)
  {
    SchemaTame();
    NamesTame("prepared");
  }

  /** The issuer looks at thirteen strings, yet none of the plan's thirty-two holds a forbidden character. */
  lemma StringsAllowed(r: Request, p: Plan)
    requires NoForbidden(RequestStrings(r)) && p.displayName == r.displayName
    requires p.schema == "dirextalk.connector-bootstrap-plan" && Confined(p)
    ensures NoForbidden(PlanStrings(p))
  {
    hide Tame, Allowed;
    ConstantsTame();
    assert RequestStrings(r)[3] == r.displayName;
    var s := PlanStrings(p);
    forall k | 0 <= k < |s|
      ensures All(s[k], Allowed)
    {
      if k != 32 && s[k] != p.displayName {
        assert All(s[k], Tame);
        TameIsFine(s[k]);
      }
    }
  }

  // ---- Which plans need no escape ----

  lemma CleanTrust(t: Trust)
    requires ConfinedTrust(t)
    ensures Clean(TrustJson(t))
  {
    hide Tame, Literal;
    TameIsFine(t.enrollmentUrl);
    TameIsFine(t.enrollmentName);
    TameIsFine(t.enrollmentCa);
    TameIsFine(t.controlUrl);
    TameIsFine(t.controlName);
    TameIsFine(t.controlCa);
    TameIsFine(t.issuerCa);
    CleanEach(TrustJson(t).members);
  }

  lemma CleanMcp(m: Mcp)
    requires ConfinedMcp(m)
    ensures Clean(McpJson(m))
  {
    hide Tame, Literal;
    TameIsFine(m.name);
    TameIsFine(m.url);
    TameIsFine(m.node);
    TameIsFine(m.offlinePolicy);
    CleanEach(McpJson(m).members);
  }

  lemma CleanHost(p: Plan)
    requires Confined(p)
    ensures Clean(HostJson(p.host)) && Clean(ArtifactJson(p.artifactVersion, p.artifactDigest))
  {
    hide Tame, Literal, ConfinedTrust, ConfinedMcp;
    TameIsFine(p.host.tenant);
    TameIsFine(p.host.host);
    TameIsFine(p.host.owner);
    TameIsFine(p.host.credential);
    CleanEach(HostJson(p.host).members);
    TameIsFine(p.artifactVersion);
    TameIsFine(p.artifactDigest);
    CleanEach(ArtifactJson(p.artifactVersion, p.artifactDigest).members);
  }

  lemma CleanConnector(p: Plan)
    requires Confined(p)
    ensures Clean(ConnectorJson(p)) <==> All(p.displayName, Literal)
  {
    hide Tame, Literal, ConfinedTrust, ConfinedMcp, TrustJson, McpJson;
    TameIsFine(p.instance);
    TameIsFine(p.adapter);
    TameIsFine(p.handoffDigest);
    TameIsFine(p.enrollmentRequest);
    TameIsFine(p.enrollmentIntent);
    TameIsFine(p.installation);
    TameIsFine(p.agentDevice);
    TameIsFine(p.binding);
    TameIsFine(p.origin);
    TameIsFine(p.profile);
    CleanTrust(p.trust);
    CleanMcp(p.mcp);
    var members := ConnectorJson(p).members;
    CleanEach(members);
    assert members[3].value == Str(p.displayName);
  }

  /** An issued plan needs no escape exactly when its display name needs none. */
  lemma CleanPlan(p: Plan)
    requires p.schema == "dirextalk.connector-bootstrap-plan" && p.state == "prepared" && Confined(p)
    ensures Clean(PlanJson(p)) <==> All(p.displayName, Literal)
  {
    hide Tame, Literal, HostJson, ArtifactJson, ConnectorJson, ConfinedTrust, ConfinedMcp;
    ConstantsTame();
    TameIsFine(p.schema);
    TameIsFine(p.state);
    TameIsFine(p.operation);
    TameIsFine(p.manifest);
    TameIsFine(p.target);
    CleanHost(p);
    CleanConnector(p);
    var members := PlanJson(p).members;
    CleanEach(members);
    assert members[8].value == ConnectorJson(p);
  }

  lemma HandoffSchemaTame()
    ensures All("dirextalk.connector-bootstrap-handoff", Tame) && All("ready", Tame)
  {
    hide Tame;
    var a, b := "dirextalk.connector-bootstrap-", "handoff";
    PrefixTame();
    HandoffSuffixTame();
    Glue(a, b, Tame);
    assert "dirextalk.connector-bootstrap-handoff" == a + b;
  }

  lemma PrefixTame()
    ensures All("dirextalk.connector-bootstrap-", Tame)
  {
  }

  lemma RequestSchemaTame()
    ensures All("dirextalk.connector-bootstrap-issuance-request", Tame)
  {
    hide Tame;
    var a, b := "dirextalk.connector-bootstrap-", "issuance-request";
    PrefixTame();
    RequestSuffixTame();
    Glue(a, b, Tame);
    assert "dirextalk.connector-bootstrap-issuance-request" == a + b;
  }

  lemma RequestSuffixTame()
    ensures All("issuance-request", Tame)
  {
  }

  lemma HandoffSuffixTame()
    ensures All("handoff", Tame) && All("ready", Tame)
  {
  }

  /** The texts of an issued handoff. */
  predicate HandoffTexts(f: Handoff) {
    && f.schema == "dirextalk.connector-bootstrap-handoff" && f.state == "ready"
    && IsV7(f.operation) && IsDigestText(f.manifest) && f.target in TARGETS
    && IsV7(f.tenant) && IsV7(f.host) && IsV7(f.instance) && IsV7(f.enrollmentRequest) && IsV7(f.enrollmentIntent)
  }

  lemma CleanHandoff(f: Handoff, token: Json, bearer: Json)
    requires HandoffTexts(f) && Clean(token) && Clean(bearer)
    ensures Clean(HandoffJson(f, token, bearer))
  {
    hide Tame, Literal, All, IsV7, IsDigestText;
    HandoffSchemaTame();
    TameIsFine(f.schema);
    TameIsFine(f.state);
    V7Literal(f.operation);
    DigestTame(f.manifest);
    TameIsFine(f.manifest);
    NamesTame(f.target);
    TameIsFine(f.target);
    V7Literal(f.tenant);
    V7Literal(f.host);
    V7Literal(f.instance);
    V7Literal(f.enrollmentRequest);
    V7Literal(f.enrollmentIntent);
    CleanEach(HandoffJson(f, token, bearer).members);
  }

  lemma V7Literal(s: string)
    requires IsV7(s)
    ensures All(s, Literal)
  {
    hide Tame, Literal;
    V7Tame(s);
    TameIsFine(s);
  }

  // ---- Agreement ----

  /** A validated request gives its plan texts the supervisor takes. */
  lemma PlanTextsIssued(r: Request, now: int, intent: string, handoffDigest: string)
    requires WellTyped(r) && IssuerAccepts(r, now) && IsV7(intent) && IsDigestText(handoffDigest)
    ensures PlanTexts(PlanFor(r, intent, handoffDigest))
    ensures PlanWellFormed(PlanFor(r, intent, handoffDigest)) <==> Positive(r.expires)
  {
    hide IsV7, IsDigestText, IsIdentity, IsSemver, HttpsParts, EndpointParts, IsMcpName, ValidText;
  }

  lemma PlanValidIff(r: Request, now: int, intent: string, handoffDigest: string, receipt: Option<string>, sha: string -> string)
    requires WellTyped(r) && IssuerAccepts(r, now) && IsV7(intent) && IsDigestText(handoffDigest)
    ensures var p := PlanFor(r, intent, handoffDigest);
      var raw := Written(PlanJson(p));
      ValidatePlan(p, HeaderFor(p, sha(raw), receipt), raw, sha) <==> Positive(r.expires) && All(r.displayName, Literal)
  {
    hide IsV7, IsDigestText, PlanWellFormed, PlanTexts, PlanJson, Written, Confined, Literal, Clean, NoForbidden, WellTyped;
    var p := PlanFor(r, intent, handoffDigest);
    PlanTextsIssued(r, now, intent, handoffDigest);
    PlanConfined(p);
    CleanPlan(p);
    StringsAllowed(r, p);
  }

  /** The issued handoff text states the handoff the supervisor is to read, and repeats no member. */
  lemma HandoffStated(r: Request, now: int, intent: string, token: Bytes, bearer: Bytes)
    requires WellTyped(r) && IssuerAccepts(r, now) && IsV7(intent)
    ensures var j := IssuedHandoff(r, intent, token, bearer);
      && Clean(j) && Modest(j, MAX_NESTING) && Distinct(j)
      && StatesHandoff(Written(j), HandoffFor(r, intent, token, bearer), SecretJson(token), SecretJson(bearer))
  {
    hide IssuedHandoff, HandoffJson, Clean, Modest, Written, IsV7, IsDigestText, NoForbidden, ValidText;
    var f := HandoffFor(r, intent, token, bearer);
    IssuedHandoffIsRead(r, intent, token, bearer);
    SecretRead(token);
    SecretRead(bearer);
    CleanHandoff(f, SecretJson(token), SecretJson(bearer));
    ModestHandoff(f, SecretJson(token), SecretJson(bearer));
    DistinctHandoff(f, SecretJson(token), SecretJson(bearer));
  }

  /** The issued handoff text is read, well formed where the expiry is safe, and both its secrets decode. */
  lemma HandoffAccepted(env: Reader, r: Request, now: int, intent: string, token: Bytes, bearer: Bytes)
    requires Faithful(env) && WellTyped(r) && IssuerAccepts(r, now) && IsV7(intent) && |token| == 32 && |bearer| == 32
    ensures var handoff := Written(IssuedHandoff(r, intent, token, bearer));
      && env.noDuplicates(handoff) && env.handoff(handoff) == Some(HandoffFor(r, intent, token, bearer))
    ensures HandoffWellFormed(HandoffFor(r, intent, token, bearer)) <==> Positive(r.expires)
    ensures var f := HandoffFor(r, intent, token, bearer); SpellsSecret(f.enrollmentToken) && SpellsSecret(f.mcpBearer)
  {
    hide IssuedHandoff, Clean, Modest, Written, Distinct, StatesHandoff, SpellsSecret;
    hide IsV7, IsDigestText, IsIdentity, IsSemver, HttpsParts, EndpointParts, IsMcpName, ValidText, NoForbidden;
    HandoffStated(r, now, intent, token, bearer);
    SecretRead(token);
    SecretRead(bearer);
  }

  /** So is the issued plan text where the display name needs no escape. */
  lemma PlanNotRepeating(env: Reader, r: Request, now: int, intent: string, handoffDigest: string)
    requires Faithful(env) && WellTyped(r) && IssuerAccepts(r, now) && IsV7(intent) && IsDigestText(handoffDigest)
    requires All(r.displayName, Literal)
    ensures env.noDuplicates(Written(PlanJson(PlanFor(r, intent, handoffDigest))))
  {
    hide IsV7, IsDigestText, PlanTexts, PlanJson, Written, Confined, Literal, Clean, Modest, Distinct;
    hide NoForbidden, WellTyped, StatesHandoff, PlanWellFormed, IsSemver, HttpsParts, EndpointParts, IsMcpName, ValidText;
    var p := PlanFor(r, intent, handoffDigest);
    PlanTextsIssued(r, now, intent, handoffDigest);
    PlanConfined(p);
    CleanPlan(p);
    DistinctPlan(p);
    ModestPlan(p);
  }

  /**
  For every request the issuer validates and every faithful reader, the texts of its plan and ready
  handoff, under a header built from the plan, are accepted by the supervisor if and only if the
  expiry is a positive safe JSON number and the display name needs no escape.
  */
  lemma IssuedIsAcceptedIff(env: Reader, r: Request, now: int, intent: string, token: Bytes, bearer: Bytes, receipt: Option<string>)
    requires Faithful(env) && WellTyped(r) && IssuerAccepts(r, now) && IsV7(intent) && |token| == 32 && |bearer| == 32
    ensures IssuedAccepted(env, r, intent, token, bearer, receipt) <==> Positive(r.expires) && All(r.displayName, Literal)
  {
    hide WellTyped, IssuerAccepts, PlanTexts, Confined, IsV7, IsDigestText, PlanJson, Written, IssuedHandoff, IssuedPlan;
    hide ValidatePlan, Clean, Literal, Faithful, SpellsSecret, HandoffWellFormed;
    var handoff := Written(IssuedHandoff(r, intent, token, bearer));
    DigestWritten(env, handoff);
    var p := PlanFor(r, intent, env.sha(handoff));
    IssuedPlanIsRead(r, intent, env.sha(handoff));
    var raw := Written(PlanJson(p));
    var h := HeaderFor(p, env.sha(raw), receipt);
    PlanValidIff(r, now, intent, env.sha(handoff), receipt, env.sha);
    BackslashMarks(PlanJson(p));
    PlanTextsIssued(r, now, intent, env.sha(handoff));
    PlanConfined(p);
    CleanPlan(p);
    HandoffAccepted(env, r, now, intent, token, bearer);
    if Positive(r.expires) && All(r.displayName, Literal) {
      AcceptedAsIssued(env, r, now, intent, token, bearer, receipt);
    }
    forall q | Accepts(env, h, raw, handoff, q)
      ensures q == p
    {
      ValidStates(q, h, raw, env.sha);
      StatesOne(raw, p, q);
    }
  }

  /** And it is taken as the plan that was issued. */
  lemma AcceptedAsIssued(env: Reader, r: Request, now: int, intent: string, token: Bytes, bearer: Bytes, receipt: Option<string>)
    requires Faithful(env) && WellTyped(r) && IssuerAccepts(r, now) && IsV7(intent) && |token| == 32 && |bearer| == 32
    requires Positive(r.expires) && All(r.displayName, Literal)
    ensures var handoff := Written(IssuedHandoff(r, intent, token, bearer));
      var p := PlanFor(r, intent, env.sha(handoff));
      var raw := Written(IssuedPlan(r, intent, env.sha(handoff)));
      Accepts(env, HeaderFor(p, env.sha(raw), receipt), raw, handoff, p)
  {
    hide WellTyped, IssuerAccepts, PlanTexts, Confined, IsV7, IsDigestText, PlanJson, Written, IssuedHandoff, IssuedPlan;
    hide ValidatePlan, Clean, Literal, Faithful, SpellsSecret, HandoffWellFormed;
    var handoff := Written(IssuedHandoff(r, intent, token, bearer));
    DigestWritten(env, handoff);
    var p := PlanFor(r, intent, env.sha(handoff));
    IssuedPlanIsRead(r, intent, env.sha(handoff));
    PlanValidIff(r, now, intent, env.sha(handoff), receipt, env.sha);
    BackslashMarks(PlanJson(p));
    PlanTextsIssued(r, now, intent, env.sha(handoff));
    PlanConfined(p);
    CleanPlan(p);
    HandoffAccepted(env, r, now, intent, token, bearer);
    PlanNotRepeating(env, r, now, intent, env.sha(handoff));
  }

  /** The supervisor takes what is issued, under a header built from the plan, as stating some plan. */
  ghost predicate IssuedAccepted(env: Reader, r: Request, intent: string, token: Bytes, bearer: Bytes, receipt: Option<string>) {
    var handoff := Written(IssuedHandoff(r, intent, token, bearer));
    var raw := Written(IssuedPlan(r, intent, env.sha(handoff)));
    var h := HeaderFor(PlanFor(r, intent, env.sha(handoff)), env.sha(raw), receipt);
    exists q :: Accepts(env, h, raw, handoff, q)
  }

  lemma DigestWritten(env: Reader, text: string)
    requires Faithful(env)
    ensures IsDigestText(env.sha(text))
  {
  }

  /**
  A request file holds no backslash, so its display name needs no escape: what is issued for a
  validated one is accepted if and only if its expiry is a positive safe JSON number.
  */
  lemma ReadRequestIsAcceptedIff(env: Reader, r: Request, body: string, now: int, intent: string, token: Bytes, bearer: Bytes,
                                 receipt: Option<string>)
    requires Faithful(env) && WellTyped(r) && IssuerAccepts(r, now) && IsV7(intent) && |token| == 32 && |bearer| == 32
    requires '\\' !in body && Decodes(body, r.displayName)
    ensures IssuedAccepted(env, r, intent, token, bearer, receipt) <==> Positive(r.expires)
  {
    hide Faithful, WellTyped, IssuerAccepts, IssuedAccepted, IsV7, Literal;
    BackslashFreeIsLiteral(body, r.displayName);
    IssuedIsAcceptedIff(env, r, now, intent, token, bearer, receipt);
  }

  lemma ValidStates(q: Plan, h: Header, raw: string, sha: string -> string)
    requires ValidatePlan(q, h, raw, sha)
    ensures States(raw, q)
  {
  }

  // ---- What is accepted was issued ----

  /** The request a plan answers. */
  function RequestOf(p: Plan): Request {
    Request("dirextalk.connector-bootstrap-issuance-request", 1, p.operation, p.manifest, p.target,
            p.artifactVersion, p.artifactDigest, p.host, p.instance, p.adapter, p.displayName, p.generation, p.specRevision,
            p.enrollmentRequest, p.installation, p.agentDevice, p.binding, p.expires, p.origin, p.trust, p.profile, p.mcp)
  }

  lemma PlanAnswers(p: Plan)
    requires PlanWellFormed(p)
    ensures p == PlanFor(RequestOf(p), p.enrollmentIntent, p.handoffDigest)
    ensures WellTyped(RequestOf(p)) && IsV7(p.enrollmentIntent) && IsDigestText(p.handoffDigest)
    ensures Positive(p.generation) && Positive(p.specRevision) && Positive(p.expires)
    ensures NoForbidden(PlanStrings(p)) ==> RequestFits(RequestOf(p))
  {
    hide IsV7, IsDigestText, IsIdentity, IsSemver, HttpsParts, EndpointParts, IsMcpName, ValidText, NoForbidden, PlanStrings;
    if NoForbidden(PlanStrings(p)) {
      AllowedRequest(p);
    }
  }

  lemma AllowedRequest(p: Plan)
    requires NoForbidden(PlanStrings(p))
    ensures NoForbidden(RequestStrings(RequestOf(p)))
  {
    hide Allowed, Tame;
    RequestSchemaTame();
    TameIsFine("dirextalk.connector-bootstrap-issuance-request");
    var s, t := PlanStrings(p), RequestStrings(RequestOf(p));
    assert t[1] == s[3] && t[2] == s[4] && t[3] == s[13] && t[4] == s[19] && t[5] == s[20] && t[6] == s[21] && t[7] == s[22];
    assert t[8] == s[24] && t[9] == s[25] && t[10] == s[28] && t[11] == s[29] && t[12] == s[31];
    forall k | 0 <= k < |t|
      ensures All(t[k], Allowed)
    {
    }
  }

  lemma SecretSpelled(raw: string) returns (b: Bytes)
    requires SpellsSecret(raw)
    ensures |b| == 32 && raw == AsText(Secret.Quoted(b))
  {
    b :| |b| == 32 && AsBytes(raw) == Secret.Quoted(b);
    forall i | 0 <= i < |raw|
      ensures raw[i] == AsText(Secret.Quoted(b))[i]
    {
      assert AsBytes(raw)[i] == raw[i] as int;
    }
  }

  /**
  The converse of agreement.  Whatever the supervisor accepts is a plan text the issuer writes for a
  well-formed request, a handoff that repeats that request with two secrets, and the one header
  built from the plan: under a header that names anything else it is refused.
  */
  lemma AcceptedIsIssued(env: Reader, h: Header, raw: string, handoffRaw: string, p: Plan)
    requires Accepts(env, h, raw, handoffRaw, p)
    ensures var r := RequestOf(p);
      && env.noDuplicates(raw) && env.noDuplicates(handoffRaw)
      && WellTyped(r) && RequestFits(r) && All(r.displayName, Literal) && IsV7(p.enrollmentIntent)
      && Positive(r.generation) && Positive(r.specRevision) && Positive(r.expires)
      && raw == Written(IssuedPlan(r, p.enrollmentIntent, env.sha(handoffRaw)))
      && h == HeaderFor(PlanFor(r, p.enrollmentIntent, env.sha(handoffRaw)), env.sha(raw), h.preparedReceipt)
      && exists token: Bytes, bearer: Bytes :: |token| == 32 && |bearer| == 32
           && env.handoff(handoffRaw) == Some(HandoffFor(r, p.enrollmentIntent, token, bearer))
  {
    hide PlanWellFormed, NoForbidden, PlanStrings, RequestFits, WellTyped, Literal, Written, IssuedPlan, PlanJson, Clean;
    hide IsV7, IsDigestText, SpellsSecret, AsText, HandoffFor;
    var r, f := RequestOf(p), env.handoff(handoffRaw).value;
    PlanAnswers(p);
    IssuedPlanIsRead(r, p.enrollmentIntent, p.handoffDigest);
    PlanIsClean(p);
    var token := SecretSpelled(f.enrollmentToken);
    var bearer := SecretSpelled(f.mcpBearer);
    HandoffAnswers(f, p, h, handoffRaw, env.sha, token, bearer);
  }

  lemma PlanIsClean(p: Plan)
    requires PlanWellFormed(p) && Clean(PlanJson(p))
    ensures All(p.displayName, Literal)
  {
    hide Confined, Literal, PlanTexts, Clean, PlanJson;
    PlanSchema(p);
    PlanConfined(p);
    CleanPlan(p);
  }

  lemma PlanSchema(p: Plan)
    requires PlanWellFormed(p)
    ensures PlanTexts(p) && p.schema == "dirextalk.connector-bootstrap-plan" && p.state == "prepared"
  {
  }

  lemma HandoffAnswers(f: Handoff, p: Plan, h: Header, raw: string, sha: string -> string, token: Bytes, bearer: Bytes)
    requires HandoffWellFormed(f) && HandoffMatches(f, p, h, raw, sha)
    requires f.enrollmentToken == AsText(Secret.Quoted(token)) && f.mcpBearer == AsText(Secret.Quoted(bearer))
    ensures f == HandoffFor(RequestOf(p), p.enrollmentIntent, token, bearer)
  {
    hide IsV7, IsDigestText, AsText;
  }

  /** One pair of texts is accepted under one header, but for the receipt it names, and as one plan. */
  lemma AcceptedUnderOneHeader(env: Reader, h: Header, g: Header, raw: string, handoffRaw: string, p: Plan, q: Plan)
    requires Accepts(env, h, raw, handoffRaw, p) && Accepts(env, g, raw, handoffRaw, q)
    ensures p == q && g == h.(preparedReceipt := g.preparedReceipt)
  {
    hide Accepts, RequestFits, WellTyped, Literal, Written, IssuedPlan, IsV7;
    AcceptedStates(env, h, raw, handoffRaw, p);
    AcceptedStates(env, g, raw, handoffRaw, q);
    StatesOne(raw, p, q);
    AcceptedIsIssued(env, h, raw, handoffRaw, p);
    AcceptedIsIssued(env, g, raw, handoffRaw, q);
  }

  lemma AcceptedStates(env: Reader, h: Header, raw: string, handoffRaw: string, p: Plan)
    requires Accepts(env, h, raw, handoffRaw, p)
    ensures States(raw, p)
  {
  }
}
