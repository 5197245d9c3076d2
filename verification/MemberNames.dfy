/** The member names of the bootstrap texts: no object gives one twice. */
module MemberNames {
  import opened Json
  import opened Bootstrap

  const TRUST_TAGS: seq<Tag> := [
    (14, 'e', 'e'), (22, 'e', 's'), (25, 'e', 'o'), (11, 'c', 'o'), (19, 'c', 'e'), (29, 'c', '_'),
    (31, 'c', 'r')]

  const MCP_TAGS: seq<Tag> := [
    (15, 'm', 'v'), (7, 'm', '_'), (11, 'm', 'o'), (19, 'm', 'r'), (14, 'o', '_')]

  const HOST_TAGS: seq<Tag> := [
    (9, 't', 'n'), (7, 'h', 't'), (8, 'o', 'r'), (18, 'h', 'e')]

  const ARTIFACT_TAGS: seq<Tag> := [
    (7, 'v', 's'), (6, 'd', 'e')]

  const CONNECTOR_TAGS: seq<Tag> := [
    (11, 'i', 'n'), (12, 'a', 'r'), (14, 'h', '_'), (12, 'd', 'y'), (10, 'g', 'a'), (13, 's', 'e'),
    (21, 'e', '_'), (20, 'e', '_'), (15, 'i', 'a'), (15, 'a', 'e'), (10, 'b', 'n'), (17, 'e', 'a'),
    (13, 's', '_'), (5, 't', 'u'), (15, 'r', '_'), (10, 'r', 'e')]

  const PLAN_TAGS: seq<Tag> := [
    (6, 's', 'e'), (14, 's', 'v'), (5, 's', 'a'), (12, 'o', 'i'), (15, 'm', 't'), (6, 't', 'g'),
    (18, 'c', '_'), (4, 'h', 's'), (9, 'c', 'e')]

  const HANDOFF_TAGS: seq<Tag> := [
    (6, 's', 'e'), (14, 's', 'v'), (5, 's', 'a'), (12, 'o', 'i'), (15, 'm', 't'), (6, 't', 'g'),
    (9, 't', 'n'), (7, 'h', 't'), (11, 'i', 'n'), (21, 'e', '_'), (20, 'e', '_'), (10, 'g', 'a'),
    (13, 's', 'e'), (17, 'e', 'a'), (16, 'e', 'n'), (10, 'm', 'e')]

  lemma TagsDiffer()
    ensures Different(TRUST_TAGS)
    ensures Different(MCP_TAGS)
    ensures Different(HOST_TAGS)
    ensures Different(ARTIFACT_TAGS)
    ensures Different(PLAN_TAGS)
  {
  }

  lemma ConnectorTagsDiffer()
    ensures Different(CONNECTOR_TAGS)
  {
  }

  lemma HandoffTagsDiffer()
    ensures Different(HANDOFF_TAGS)
  {
  }

  lemma TrustTagged(t: Trust)
    ensures Tagged(TrustJson(t).members, TRUST_TAGS)
  {
  }

  lemma McpTagged(m: Mcp)
    ensures Tagged(McpJson(m).members, MCP_TAGS)
  {
  }

  lemma HostTagged(h: Host)
    ensures Tagged(HostJson(h).members, HOST_TAGS)
  {
  }

  lemma ArtifactTagged(version: string, digest: string)
    ensures Tagged(ArtifactJson(version, digest).members, ARTIFACT_TAGS)
  {
  }

  lemma ConnectorKeys()
    ensures TagOf(INSTANCE_ID) == (11, 'i', 'n') && TagOf(ADAPTER_KIND) == (12, 'a', 'r')
    ensures TagOf(HANDOFF_DIGEST) == (14, 'h', '_') && TagOf(DISPLAY_NAME) == (12, 'd', 'y')
    ensures TagOf(GENERATION) == (10, 'g', 'a') && TagOf(SPEC_REVISION) == (13, 's', 'e')
    ensures TagOf(ENROLLMENT_REQUEST_ID) == (21, 'e', '_') && TagOf(ENROLLMENT_INTENT_ID) == (20, 'e', '_')
    ensures TagOf(INSTALLATION_ID) == (15, 'i', 'a') && TagOf(AGENT_DEVICE_ID) == (15, 'a', 'e')
    ensures TagOf(BINDING_ID) == (10, 'b', 'n') && TagOf(EXPIRES_AT_MILLIS) == (17, 'e', 'a')
    ensures TagOf(SERVER_ORIGIN) == (13, 's', '_') && TagOf(TRUST) == (5, 't', 'u')
    ensures TagOf(RUNTIME_PROFILE) == (15, 'r', '_') && TagOf(REMOTE_MCP) == (10, 'r', 'e')
  {
  }

  lemma ConnectorTagged(p: Plan)
    ensures Tagged(ConnectorJson(p).members, CONNECTOR_TAGS)
  {
    hide TagOf;
    ConnectorKeys();
  }

  lemma PlanTagged(p: Plan)
    ensures Tagged(PlanJson(p).members, PLAN_TAGS)
  {
  }

  lemma HandoffKeys()
    ensures TagOf(SCHEMA) == (6, 's', 'e') && TagOf(SCHEMA_VERSION) == (14, 's', 'v')
    ensures TagOf(STATE) == (5, 's', 'a') && TagOf(OPERATION_ID) == (12, 'o', 'i')
    ensures TagOf(MANIFEST_DIGEST) == (15, 'm', 't') && TagOf(TARGET) == (6, 't', 'g')
    ensures TagOf(TENANT_ID) == (9, 't', 'n') && TagOf(HOST_ID) == (7, 'h', 't')
    ensures TagOf(INSTANCE_ID) == (11, 'i', 'n') && TagOf(ENROLLMENT_REQUEST_ID) == (21, 'e', '_')
    ensures TagOf(ENROLLMENT_INTENT_ID) == (20, 'e', '_') && TagOf(GENERATION) == (10, 'g', 'a')
    ensures TagOf(SPEC_REVISION) == (13, 's', 'e') && TagOf(EXPIRES_AT_MILLIS) == (17, 'e', 'a')
    ensures TagOf(ENROLLMENT_TOKEN) == (16, 'e', 'n') && TagOf(MCP_BEARER) == (10, 'm', 'e')
  {
  }

  lemma HandoffTagged(f: Handoff, token: Json, bearer: Json)
    ensures Tagged(HandoffJson(f, token, bearer).members, HANDOFF_TAGS)
  {
    hide TagOf;
    HandoffKeys();
  }

  lemma DistinctTrust(t: Trust)
    ensures Distinct(TrustJson(t))
  {
    hide Tagged, Different;
    TrustTagged(t);
    TagsDiffer();
    DifferentTags(TrustJson(t).members, TRUST_TAGS);
    DistinctEach(TrustJson(t).members);
  }

  lemma DistinctMcp(m: Mcp)
    ensures Distinct(McpJson(m))
  {
    hide Tagged, Different;
    McpTagged(m);
    TagsDiffer();
    DifferentTags(McpJson(m).members, MCP_TAGS);
    DistinctEach(McpJson(m).members);
  }

  lemma DistinctHost(h: Host)
    ensures Distinct(HostJson(h))
  {
    hide Tagged, Different;
    HostTagged(h);
    TagsDiffer();
    DifferentTags(HostJson(h).members, HOST_TAGS);
    DistinctEach(HostJson(h).members);
  }

  lemma DistinctArtifact(version: string, digest: string)
    ensures Distinct(ArtifactJson(version, digest))
  {
    hide Tagged, Different;
    ArtifactTagged(version, digest);
    TagsDiffer();
    DifferentTags(ArtifactJson(version, digest).members, ARTIFACT_TAGS);
    DistinctEach(ArtifactJson(version, digest).members);
  }

  lemma DistinctConnector(p: Plan)
    ensures Distinct(ConnectorJson(p))
  {
    hide Tagged, Different, TrustJson, McpJson;
    DistinctTrust(p.trust);
    DistinctMcp(p.mcp);
    ConnectorTagged(p);
    ConnectorTagsDiffer();
    DifferentTags(ConnectorJson(p).members, CONNECTOR_TAGS);
    DistinctEach(ConnectorJson(p).members);
  }

  /** No object of a plan names a member twice. */
  lemma DistinctPlan(p: Plan)
    ensures Distinct(PlanJson(p))
  {
    hide Tagged, Different, ArtifactJson, HostJson, ConnectorJson;
    DistinctArtifact(p.artifactVersion, p.artifactDigest);
    DistinctHost(p.host);
    DistinctConnector(p);
    PlanTagged(p);
    TagsDiffer();
    DifferentTags(PlanJson(p).members, PLAN_TAGS);
    DistinctEach(PlanJson(p).members);
  }

  lemma DistinctHandoff(f: Handoff, token: Json, bearer: Json)
    requires Distinct(token) && Distinct(bearer)
    ensures Distinct(HandoffJson(f, token, bearer))
  {
    hide Tagged, Different;
    HandoffTagged(f, token, bearer);
    HandoffTagsDiffer();
    DifferentTags(HandoffJson(f, token, bearer).members, HANDOFF_TAGS);
    DistinctEach(HandoffJson(f, token, bearer).members);
  }

  // ---- Numbers and nesting ----

  predicate Fits64(n: nat) { n < 0x1_0000_0000_0000_0000 }

  lemma ModestParts(t: Trust, m: Mcp, depth: nat)
    requires depth >= 1 && Fits64(m.maxRuns)
    ensures Modest(TrustJson(t), depth) && Modest(McpJson(m), depth)
  {
    ModestEach(TrustJson(t).members, depth - 1);
    ModestEach(McpJson(m).members, depth - 1);
  }

  lemma ModestConnector(p: Plan, depth: nat)
    requires depth >= 2 && Fits64(p.generation) && Fits64(p.specRevision) && Fits64(p.expires) && Fits64(p.mcp.maxRuns)
    ensures Modest(ConnectorJson(p), depth)
  {
    hide TrustJson, McpJson;
    ModestParts(p.trust, p.mcp, depth - 1);
    ModestEach(ConnectorJson(p).members, depth - 1);
  }

  lemma ModestPlan(p: Plan)
    requires Fits64(p.schemaVersion) && Fits64(p.generation) && Fits64(p.specRevision) && Fits64(p.expires) && Fits64(p.mcp.maxRuns)
    ensures Modest(PlanJson(p), MAX_NESTING)
  {
    hide ConnectorJson;
    ModestConnector(p, MAX_NESTING - 1);
    ModestEach(ArtifactJson(p.artifactVersion, p.artifactDigest).members, MAX_NESTING - 2);
    ModestEach(HostJson(p.host).members, MAX_NESTING - 2);
    ModestEach(PlanJson(p).members, MAX_NESTING - 1);
  }

  lemma ModestHandoff(f: Handoff, token: Json, bearer: Json)
    requires Fits64(f.schemaVersion) && Fits64(f.generation) && Fits64(f.specRevision) && Fits64(f.expires)
    requires token.Str? && bearer.Str?
    ensures Modest(HandoffJson(f, token, bearer), MAX_NESTING)
  {
    ModestEach(HandoffJson(f, token, bearer).members, MAX_NESTING - 1);
  }
}
