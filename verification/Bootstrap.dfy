/**
The connector bootstrap plan between its two programs: the issuer validates a request and emits a
plan and a handoff, the host supervisor accepts them or not, and the receipts that follow pin them.
Texts are sequences of characters and a digest is its lower-case hexadecimal text.
*/
module Bootstrap {
  import opened Common
  import opened Text
  import opened BootstrapText
  import opened Json
  import Secret

  const MIN_TTL: int := 60_000
  const MAX_TTL: int := 600_000

  /** Objects within one another that the JSON reader takes. */
  const MAX_NESTING: nat := 127

  datatype Trust = Trust(
    enrollmentUrl: string, enrollmentName: string, enrollmentCa: string,
    controlUrl: string, controlName: string, controlCa: string, issuerCa: string)

  datatype Mcp = Mcp(name: string, url: string, node: string, maxRuns: nat, offlinePolicy: string)

  datatype Host = Host(tenant: string, host: string, owner: string, credential: string)

  datatype Plan = Plan(
    schema: string, schemaVersion: nat, state: string, operation: string, manifest: string, target: string,
    artifactVersion: string, artifactDigest: string, host: Host,
    instance: string, adapter: string, handoffDigest: string, displayName: string,
    generation: nat, specRevision: nat, enrollmentRequest: string, enrollmentIntent: string,
    installation: string, agentDevice: string, binding: string, expires: nat, origin: string,
    trust: Trust, profile: string, mcp: Mcp)

  // ---- Field names ----

  const ENROLLMENT_URL: Key := "enrollment_url"
  const ENROLLMENT_SERVER_NAME: Key := "enrollment_server_name"
  const ENROLLMENT_ROOT_CA_SHA256: Key := "enrollment_root_ca_sha256"
  const CONTROL_URL: Key := "control_url"
  const CONTROL_SERVER_NAME: Key := "control_server_name"
  const CONTROL_SERVER_ROOT_CA_SHA256: Key := "control_server_root_ca_sha256"
  const CONNECTOR_ISSUER_ROOT_CA_SHA256: Key := "connector_issuer_root_ca_sha256"
  const MCP_SERVER_NAME: Key := "mcp_server_name"
  const MCP_URL: Key := "mcp_url"
  const MCP_NODE_ID: Key := "mcp_node_id"
  const MAX_CONCURRENT_RUNS: Key := "max_concurrent_runs"
  const OFFLINE_POLICY: Key := "offline_policy"
  const TENANT_ID: Key := "tenant_id"
  const HOST_ID: Key := "host_id"
  const OWNER_ID: Key := "owner_id"
  const HOST_CREDENTIAL_ID: Key := "host_credential_id"
  const VERSION: Key := "version"
  const DIGEST: Key := "digest"
  const INSTANCE_ID: Key := "instance_id"
  const ADAPTER_KIND: Key := "adapter_kind"
  const HANDOFF_DIGEST: Key := "handoff_digest"
  const DISPLAY_NAME: Key := "display_name"
  const GENERATION: Key := "generation"
  const SPEC_REVISION: Key := "spec_revision"
  const ENROLLMENT_REQUEST_ID: Key := "enrollment_request_id"
  const ENROLLMENT_INTENT_ID: Key := "enrollment_intent_id"
  const INSTALLATION_ID: Key := "installation_id"
  const AGENT_DEVICE_ID: Key := "agent_device_id"
  const BINDING_ID: Key := "binding_id"
  const EXPIRES_AT_MILLIS: Key := "expires_at_millis"
  const SERVER_ORIGIN: Key := "server_origin"
  const TRUST: Key := "trust"
  const RUNTIME_PROFILE: Key := "runtime_profile"
  const REMOTE_MCP: Key := "remote_mcp"
  const SCHEMA: Key := "schema"
  const SCHEMA_VERSION: Key := "schema_version"
  const STATE: Key := "state"
  const OPERATION_ID: Key := "operation_id"
  const MANIFEST_DIGEST: Key := "manifest_digest"
  const TARGET: Key := "target"
  const CONNECTOR_ARTIFACT: Key := "connector_artifact"
  const HOST: Key := "host"
  const CONNECTOR: Key := "connector"
  const ENROLLMENT_TOKEN: Key := "enrollment_token"
  const MCP_BEARER: Key := "mcp_bearer"

  // ---- The plan's text ----

  function TrustJson(t: Trust): Json {
    Obj([Member(ENROLLMENT_URL, Str(t.enrollmentUrl)),
         Member(ENROLLMENT_SERVER_NAME, Str(t.enrollmentName)),
         Member(ENROLLMENT_ROOT_CA_SHA256, Str(t.enrollmentCa)),
         Member(CONTROL_URL, Str(t.controlUrl)),
         Member(CONTROL_SERVER_NAME, Str(t.controlName)),
         Member(CONTROL_SERVER_ROOT_CA_SHA256, Str(t.controlCa)),
         Member(CONNECTOR_ISSUER_ROOT_CA_SHA256, Str(t.issuerCa))])
  }

  function McpJson(m: Mcp): Json {
    Obj([Member(MCP_SERVER_NAME, Str(m.name)), Member(MCP_URL, Str(m.url)), Member(MCP_NODE_ID, Str(m.node)),
         Member(MAX_CONCURRENT_RUNS, Num(m.maxRuns)), Member(OFFLINE_POLICY, Str(m.offlinePolicy))])
  }

  function HostJson(h: Host): Json {
    Obj([Member(TENANT_ID, Str(h.tenant)), Member(HOST_ID, Str(h.host)),
         Member(OWNER_ID, Str(h.owner)), Member(HOST_CREDENTIAL_ID, Str(h.credential))])
  }

  function ArtifactJson(version: string, digest: string): Json {
    Obj([Member(VERSION, Str(version)), Member(DIGEST, Str(digest))])
  }

  function ConnectorJson(p: Plan): Json {
    Obj([Member(INSTANCE_ID, Str(p.instance)), Member(ADAPTER_KIND, Str(p.adapter)),
         Member(HANDOFF_DIGEST, Str(p.handoffDigest)), Member(DISPLAY_NAME, Str(p.displayName)),
         Member(GENERATION, Num(p.generation)), Member(SPEC_REVISION, Num(p.specRevision)),
         Member(ENROLLMENT_REQUEST_ID, Str(p.enrollmentRequest)),
         Member(ENROLLMENT_INTENT_ID, Str(p.enrollmentIntent)),
         Member(INSTALLATION_ID, Str(p.installation)), Member(AGENT_DEVICE_ID, Str(p.agentDevice)),
         Member(BINDING_ID, Str(p.binding)), Member(EXPIRES_AT_MILLIS, Num(p.expires)),
         Member(SERVER_ORIGIN, Str(p.origin)), Member(TRUST, TrustJson(p.trust)),
         Member(RUNTIME_PROFILE, Str(p.profile)), Member(REMOTE_MCP, McpJson(p.mcp))])
  }

  function PlanJson(p: Plan): Json {
    Obj([Member(SCHEMA, Str(p.schema)), Member(SCHEMA_VERSION, Num(p.schemaVersion)),
         Member(STATE, Str(p.state)), Member(OPERATION_ID, Str(p.operation)),
         Member(MANIFEST_DIGEST, Str(p.manifest)), Member(TARGET, Str(p.target)),
         Member(CONNECTOR_ARTIFACT, ArtifactJson(p.artifactVersion, p.artifactDigest)),
         Member(HOST, HostJson(p.host)), Member(CONNECTOR, ConnectorJson(p))])
  }

  lemma PlanJsonInjective(p: Plan, q: Plan)
    requires PlanJson(p) == PlanJson(q)
    ensures p == q
  {
    var a, b := PlanJson(p).members, PlanJson(q).members;
    assert a[0] == b[0] && a[1] == b[1] && a[2] == b[2] && a[3] == b[3] && a[4] == b[4] && a[5] == b[5];
    assert a[6] == b[6] && a[7] == b[7] && a[8] == b[8];
    ArtifactInjective(p.artifactVersion, p.artifactDigest, q.artifactVersion, q.artifactDigest);
    HostInjective(p.host, q.host);
    ConnectorInjective(p, q);
  }

  lemma ArtifactInjective(v: string, d: string, w: string, e: string)
    requires ArtifactJson(v, d) == ArtifactJson(w, e)
    ensures v == w && d == e
  {
    assert ArtifactJson(v, d).members[0] == ArtifactJson(w, e).members[0];
    assert ArtifactJson(v, d).members[1] == ArtifactJson(w, e).members[1];
  }

  lemma HostInjective(p: Host, q: Host)
    requires HostJson(p) == HostJson(q)
    ensures p == q
  {
    var a, b := HostJson(p).members, HostJson(q).members;
    assert a[0] == b[0] && a[1] == b[1] && a[2] == b[2] && a[3] == b[3];
  }

  lemma ConnectorInjective(p: Plan, q: Plan)
    requires ConnectorJson(p) == ConnectorJson(q)
    ensures p.(schema := q.schema, schemaVersion := q.schemaVersion, state := q.state, operation := q.operation,
               manifest := q.manifest, target := q.target, artifactVersion := q.artifactVersion,
               artifactDigest := q.artifactDigest, host := q.host) == q
  {
    var a, b := ConnectorJson(p).members, ConnectorJson(q).members;
    assert a[0] == b[0] && a[1] == b[1] && a[2] == b[2] && a[3] == b[3] && a[4] == b[4] && a[5] == b[5];
    assert a[6] == b[6] && a[7] == b[7] && a[8] == b[8] && a[9] == b[9] && a[10] == b[10] && a[11] == b[11];
    assert a[12] == b[12] && a[13] == b[13] && a[14] == b[14] && a[15] == b[15];
    var t, u := TrustJson(p.trust).members, TrustJson(q.trust).members;
    assert t[0] == u[0] && t[1] == u[1] && t[2] == u[2] && t[3] == u[3] && t[4] == u[4] && t[5] == u[5] && t[6] == u[6];
    var m, n := McpJson(p.mcp).members, McpJson(q.mcp).members;
    assert m[0] == n[0] && m[1] == n[1] && m[2] == n[2] && m[3] == n[3] && m[4] == n[4];
  }

  /**
  The plan a text states: it deserialises into borrowed strings, which rules escapes out, and
  serialises back to the same text.
  */
  ghost predicate States(raw: string, p: Plan) {
    Clean(PlanJson(p)) && raw == Written(PlanJson(p))
  }

  lemma StatesOne(raw: string, p: Plan, q: Plan)
    requires States(raw, p) && States(raw, q)
    ensures p == q
  {
    hide PlanJson, Written, Clean;
    WrittenInjective(PlanJson(p), PlanJson(q));
    PlanJsonInjective(p, q);
  }

  // ---- The supervisor ----

  /** The header fields a plan is compared with. */
  datatype Header = Header(
    operation: string, tenant: string, host: string, connector: string, platform: string, expiry: nat,
    adapter: string, release: string, planDigest: string,
    enrollmentCa: Option<string>, controlCa: Option<string>, issuerCa: Option<string>, preparedReceipt: Option<string>)

  predicate Positive(n: nat) { 0 < n <= MAX_SAFE_INTEGER }

  predicate ValidText(s: string, max: nat) { s != [] && Utf8Size(s) <= max }

  /** The texts of a plan by themselves. */
  predicate PlanTexts(p: Plan) {
    && p.schema == "dirextalk.connector-bootstrap-plan" && p.state == "prepared"
    && IsV7(p.operation) && IsDigestText(p.manifest) && p.target in TARGETS
    && IsSemver(p.artifactVersion) && IsDigestText(p.artifactDigest)
    && IsV7(p.host.tenant) && IsV7(p.host.host) && IsV7(p.host.credential) && IsIdentity(p.host.owner)
    && IsV7(p.instance) && IsV7(p.enrollmentRequest) && IsV7(p.enrollmentIntent)
    && IsV7(p.installation) && IsV7(p.agentDevice) && IsV7(p.binding)
    && IsDigestText(p.handoffDigest) && ValidText(p.displayName, 128)
    && IsOrigin(p.origin) && p.adapter in ADAPTERS && p.profile in PROFILES
    && TrustWellFormed(p.trust) && McpWellFormed(p.mcp)
  }

  /** The plan by itself. */
  predicate PlanWellFormed(p: Plan) {
    && p.schemaVersion == 1 && Positive(p.generation) && Positive(p.specRevision) && Positive(p.expires)
    && PlanTexts(p)
  }

  predicate TrustWellFormed(t: Trust) {
    && IsEndpoint(t.enrollmentUrl, t.enrollmentName) && IsDigestText(t.enrollmentCa)
    && IsEndpoint(t.controlUrl, t.controlName) && IsDigestText(t.controlCa) && IsDigestText(t.issuerCa)
  }

  predicate McpWellFormed(m: Mcp) {
    IsMcpName(m.name) && IsMcpUrl(m.url) && IsV7(m.node) && 0 < m.maxRuns <= 4096 && m.offlinePolicy == "queue"
  }

  /** The plan against the header and its own bytes. */
  predicate PlanMatches(p: Plan, h: Header, raw: string, sha: string -> string) {
    && h.enrollmentCa == Some(p.trust.enrollmentCa) && h.controlCa == Some(p.trust.controlCa)
    && h.issuerCa == Some(p.trust.issuerCa)
    && p.operation == h.operation && p.host.tenant == h.tenant && p.host.host == h.host && p.instance == h.connector
    && p.target == h.platform && p.expires == h.expiry && p.adapter == h.adapter && p.artifactDigest == h.release
    && sha(raw) == h.planDigest
  }

  function PlanStrings(p: Plan): seq<string> {
    [p.schema, p.operation, p.manifest, p.target, p.artifactVersion, p.artifactDigest,
     p.host.tenant, p.host.host, p.host.owner, p.host.credential,
     p.instance, p.adapter, p.handoffDigest, p.displayName, p.enrollmentRequest, p.enrollmentIntent,
     p.installation, p.agentDevice, p.binding, p.origin, p.profile,
     p.trust.enrollmentUrl, p.trust.enrollmentName, p.trust.enrollmentCa,
     p.trust.controlUrl, p.trust.controlName, p.trust.controlCa, p.trust.issuerCa,
     p.mcp.name, p.mcp.url, p.mcp.node, p.mcp.offlinePolicy, ""]
  }

  predicate NoForbidden(strings: seq<string>) {
    forall k :: 0 <= k < |strings| ==> All(strings[k], Allowed)
  }

  ghost predicate ValidatePlan(p: Plan, h: Header, raw: string, sha: string -> string) {
    States(raw, p) && PlanWellFormed(p) && PlanMatches(p, h, raw, sha) && NoForbidden(PlanStrings(p))
  }

  /** A handoff as the supervisor reads it; the two secrets are the raw texts of JSON values. */
  datatype Handoff = Handoff(
    schema: string, schemaVersion: nat, state: string, operation: string, manifest: string, target: string,
    tenant: string, host: string, instance: string, enrollmentRequest: string, enrollmentIntent: string,
    generation: nat, specRevision: nat, expires: nat, enrollmentToken: string, mcpBearer: string)

  function HandoffJson(f: Handoff, token: Json, bearer: Json): Json {
    Obj([Member(SCHEMA, Str(f.schema)), Member(SCHEMA_VERSION, Num(f.schemaVersion)),
         Member(STATE, Str(f.state)), Member(OPERATION_ID, Str(f.operation)),
         Member(MANIFEST_DIGEST, Str(f.manifest)), Member(TARGET, Str(f.target)),
         Member(TENANT_ID, Str(f.tenant)), Member(HOST_ID, Str(f.host)), Member(INSTANCE_ID, Str(f.instance)),
         Member(ENROLLMENT_REQUEST_ID, Str(f.enrollmentRequest)),
         Member(ENROLLMENT_INTENT_ID, Str(f.enrollmentIntent)),
         Member(GENERATION, Num(f.generation)), Member(SPEC_REVISION, Num(f.specRevision)),
         Member(EXPIRES_AT_MILLIS, Num(f.expires)),
         Member(ENROLLMENT_TOKEN, token), Member(MCP_BEARER, bearer)])
  }

  /** The handoff a text states when its members stand in the declared order and nothing is escaped. */
  ghost predicate StatesHandoff(raw: string, f: Handoff, token: Json, bearer: Json) {
    var j := HandoffJson(f, token, bearer);
    && f.schemaVersion < 256 && Clean(j) && Modest(j, MAX_NESTING) && raw == Written(j)
    && f.enrollmentToken == Written(token) && f.mcpBearer == Written(bearer)
  }

  /** Such a text states one handoff. */
  lemma StatesOneHandoff(raw: string, f: Handoff, token: Json, bearer: Json, g: Handoff, token': Json, bearer': Json)
    requires StatesHandoff(raw, f, token, bearer) && StatesHandoff(raw, g, token', bearer')
    ensures f == g
  {
    hide Written, Clean, Modest;
    WrittenInjective(HandoffJson(f, token, bearer), HandoffJson(g, token', bearer'));
    var a, b := HandoffJson(f, token, bearer).members, HandoffJson(g, token', bearer').members;
    assert a[0] == b[0] && a[1] == b[1] && a[2] == b[2] && a[3] == b[3] && a[4] == b[4] && a[5] == b[5];
    assert a[6] == b[6] && a[7] == b[7] && a[8] == b[8] && a[9] == b[9] && a[10] == b[10] && a[11] == b[11];
    assert a[12] == b[12] && a[13] == b[13] && a[14] == b[14] && a[15] == b[15];
  }

  predicate HandoffWellFormed(f: Handoff) {
    && f.schema == "dirextalk.connector-bootstrap-handoff" && f.schemaVersion == 1 && f.state == "ready"
    && IsV7(f.operation) && IsDigestText(f.manifest) && f.target in TARGETS
    && Positive(f.generation) && Positive(f.specRevision) && Positive(f.expires)
    && IsV7(f.tenant) && IsV7(f.host) && IsV7(f.instance) && IsV7(f.enrollmentRequest) && IsV7(f.enrollmentIntent)
  }

  predicate HandoffMatches(f: Handoff, p: Plan, h: Header, raw: string, sha: string -> string) {
    && f.operation == h.operation && f.tenant == h.tenant && f.host == h.host && f.expires == h.expiry
    && f.operation == p.operation && f.manifest == p.manifest && f.target == p.target
    && f.tenant == p.host.tenant && f.host == p.host.host && f.instance == p.instance
    && f.enrollmentRequest == p.enrollmentRequest && f.enrollmentIntent == p.enrollmentIntent
    && f.generation == p.generation && f.specRevision == p.specRevision && f.expires == p.expires
    && sha(raw) == p.handoffDigest
  }

  function AsBytes(s: string): Bytes
    requires All(s, Ascii)
  {
    seq(|s|, i requires 0 <= i < |s| => s[i] as int)
  }

  /** The raw text of a value is the quoted Base64URL of 32 bytes, which holds no character beyond ASCII. */
  ghost predicate SpellsSecret(raw: string) {
    All(raw, Ascii) && Secret.Canonical(AsBytes(raw))
  }

  /** `noDuplicates` and `handoff` stand for the JSON reader, `sha` for the digest of a text. */
  datatype Reader = Reader(noDuplicates: string -> bool, handoff: string -> Option<Handoff>, sha: string -> string)

  ghost predicate Accepts(env: Reader, h: Header, planRaw: string, handoffRaw: string, p: Plan) {
    && env.noDuplicates(planRaw) && '\\' !in planRaw && ValidatePlan(p, h, planRaw, env.sha)
    && env.noDuplicates(handoffRaw) && env.handoff(handoffRaw).Some?
    && var f := env.handoff(handoffRaw).value;
       && HandoffWellFormed(f) && HandoffMatches(f, p, h, handoffRaw, env.sha)
       && SpellsSecret(f.enrollmentToken) && SpellsSecret(f.mcpBearer)
  }

  /**
  What a JSON reader and a digest are relied on for, over every text: the text of a value without
  escapes is searched for repeated members of that value, the text of a handoff reads as that
  handoff, and a digest is written as a digest.
  */
  ghost predicate Faithful(env: Reader) {
    && (forall j :: Clean(j) && Modest(j, MAX_NESTING) ==> (env.noDuplicates(Written(j)) <==> Distinct(j)))
    && (forall raw, f, token, bearer :: StatesHandoff(raw, f, token, bearer) ==> env.handoff(raw) == Some(f))
    && (forall t :: IsDigestText(env.sha(t)))
  }

  // ---- The characters of a plan ----

  /** Every text of a plan but the display name is confined by its own check. */
  predicate Confined(p: Plan) {
    && All(p.operation, Tame) && All(p.manifest, Tame) && All(p.target, Tame)
    && All(p.artifactVersion, Tame) && All(p.artifactDigest, Tame)
    && All(p.host.tenant, Tame) && All(p.host.host, Tame) && All(p.host.owner, Tame) && All(p.host.credential, Tame)
    && All(p.instance, Tame) && All(p.adapter, Tame) && All(p.handoffDigest, Tame)
    && All(p.enrollmentRequest, Tame) && All(p.enrollmentIntent, Tame)
    && All(p.installation, Tame) && All(p.agentDevice, Tame) && All(p.binding, Tame)
    && All(p.origin, Tame) && All(p.profile, Tame) && ConfinedTrust(p.trust) && ConfinedMcp(p.mcp)
  }

  predicate ConfinedTrust(t: Trust) {
    && All(t.enrollmentUrl, Tame) && All(t.enrollmentName, Tame) && All(t.enrollmentCa, Tame)
    && All(t.controlUrl, Tame) && All(t.controlName, Tame) && All(t.controlCa, Tame) && All(t.issuerCa, Tame)
  }

  predicate ConfinedMcp(m: Mcp) {
    All(m.name, Tame) && All(m.url, Tame) && All(m.node, Tame) && All(m.offlinePolicy, Tame)
  }

  lemma TrustConfined(t: Trust)
    requires TrustWellFormed(t)
    ensures ConfinedTrust(t)
  {
    hide IsDns, EndpointParts, Tame;
    EndpointTame(t.enrollmentUrl, t.enrollmentName);
    EndpointTame(t.controlUrl, t.controlName);
    DnsTame(t.enrollmentName);
    DnsTame(t.controlName);
    DigestTame(t.enrollmentCa);
    DigestTame(t.controlCa);
    DigestTame(t.issuerCa);
  }

  lemma McpConfined(m: Mcp)
    requires McpWellFormed(m)
    ensures ConfinedMcp(m)
  {
    hide HttpsParts, Tame, IsV7;
    McpNameTame(m.name);
    AddressTame(m.url);
    V7Tame(m.node);
    NamesTame(m.offlinePolicy);
  }

  lemma PlanConfined(p: Plan)
    requires PlanTexts(p)
    ensures Confined(p)
  {
    hide IsV7, IsDigestText, IsIdentity, IsSemver, HttpsParts, Tame, ValidText;
    hide ConfinedTrust, ConfinedMcp, TrustWellFormed, McpWellFormed;
    V7Tame(p.operation);
    V7Tame(p.host.tenant);
    V7Tame(p.host.host);
    V7Tame(p.host.credential);
    V7Tame(p.instance);
    V7Tame(p.enrollmentRequest);
    V7Tame(p.enrollmentIntent);
    V7Tame(p.installation);
    V7Tame(p.agentDevice);
    V7Tame(p.binding);
    DigestTame(p.manifest);
    DigestTame(p.artifactDigest);
    DigestTame(p.handoffDigest);
    IdentityTame(p.host.owner);
    SemverTame(p.artifactVersion);
    AddressTame(p.origin);
    NamesTame(p.target);
    NamesTame(p.adapter);
    NamesTame(p.profile);
    TrustConfined(p.trust);
    McpConfined(p.mcp);
  }
}
