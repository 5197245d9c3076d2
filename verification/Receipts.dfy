/** Prepared and finalized receipts, and what the bytes of a finalized one pin down. */
module Receipts {
  import opened Common
  import opened Text
  import opened BootstrapText
  import opened Json
  import opened Bootstrap
  import opened MemberNames
  import opened Agreement

  const PLAN_DIGEST: Key := "plan_digest"
  const CONNECTOR_ARTIFACT_VERSION: Key := "connector_artifact_version"
  const CONNECTOR_ARTIFACT_DIGEST: Key := "connector_artifact_digest"
  const CREDENTIAL_ID: Key := "credential_id"
  const CREDENTIAL_GENERATION: Key := "credential_generation"
  const CREDENTIAL_REVISION: Key := "credential_revision"
  const LEAF_FINGERPRINT_SHA256: Key := "leaf_fingerprint_sha256"
  const PREPARED_RECEIPT_SHA256: Key := "prepared_receipt_sha256"

  datatype Prepared = Prepared(
    schema: string, schemaVersion: nat, state: string, planDigest: string, operation: string, manifest: string,
    target: string, artifactVersion: string, artifactDigest: string, host: Host, instance: string, adapter: string,
    handoffDigest: string, generation: nat, specRevision: nat, enrollmentRequest: string, enrollmentIntent: string,
    installation: string, agentDevice: string, binding: string, credential: string,
    credentialGeneration: nat, credentialRevision: nat, leafFingerprint: string)

  function PreparedHead(r: Prepared): seq<Member> {
    [Member(SCHEMA, Str(r.schema)), Member(SCHEMA_VERSION, Num(r.schemaVersion)), Member(STATE, Str(r.state)),
     Member(PLAN_DIGEST, Str(r.planDigest)), Member(OPERATION_ID, Str(r.operation)),
     Member(MANIFEST_DIGEST, Str(r.manifest)), Member(TARGET, Str(r.target)),
     Member(CONNECTOR_ARTIFACT_VERSION, Str(r.artifactVersion)),
     Member(CONNECTOR_ARTIFACT_DIGEST, Str(r.artifactDigest)),
     Member(TENANT_ID, Str(r.host.tenant)), Member(HOST_ID, Str(r.host.host)),
     Member(OWNER_ID, Str(r.host.owner)), Member(HOST_CREDENTIAL_ID, Str(r.host.credential))]
  }

  function PreparedTail(r: Prepared): seq<Member> {
    [Member(INSTANCE_ID, Str(r.instance)), Member(ADAPTER_KIND, Str(r.adapter)),
     Member(HANDOFF_DIGEST, Str(r.handoffDigest)), Member(GENERATION, Num(r.generation)),
     Member(SPEC_REVISION, Num(r.specRevision)), Member(ENROLLMENT_REQUEST_ID, Str(r.enrollmentRequest)),
     Member(ENROLLMENT_INTENT_ID, Str(r.enrollmentIntent)), Member(INSTALLATION_ID, Str(r.installation)),
     Member(AGENT_DEVICE_ID, Str(r.agentDevice)), Member(BINDING_ID, Str(r.binding)),
     Member(CREDENTIAL_ID, Str(r.credential)), Member(CREDENTIAL_GENERATION, Num(r.credentialGeneration)),
     Member(CREDENTIAL_REVISION, Num(r.credentialRevision)), Member(LEAF_FINGERPRINT_SHA256, Str(r.leafFingerprint))]
  }

  function PreparedJson(r: Prepared): Json {
    Obj(PreparedHead(r) + PreparedTail(r))
  }

  /** Deserialises into borrowed strings and serialises back to the same text. */
  ghost predicate StatesPrepared(text: string, r: Prepared) {
    Clean(PreparedJson(r)) && text == Written(PreparedJson(r))
  }

  /** The receipt repeats the plan it was prepared from. */
  predicate PreparedFits(r: Prepared, p: Plan, planDigest: string) {
    && r.schema == "dirextalk.connector-bootstrap-receipt" && r.schemaVersion == 1 && r.state == "prepared"
    && r.planDigest == planDigest && r.operation == p.operation && r.manifest == p.manifest && r.target == p.target
    && r.artifactVersion == p.artifactVersion && r.artifactDigest == p.artifactDigest && r.host == p.host
    && r.instance == p.instance && r.adapter == p.adapter && r.handoffDigest == p.handoffDigest
    && r.generation == p.generation && r.specRevision == p.specRevision
    && r.enrollmentRequest == p.enrollmentRequest && r.enrollmentIntent == p.enrollmentIntent
    && r.installation == p.installation && r.agentDevice == p.agentDevice && r.binding == p.binding
    && IsV7(r.credential) && Positive(r.credentialGeneration) && Positive(r.credentialRevision)
    && r.credentialGeneration == p.generation && r.credentialRevision == p.specRevision && IsDigestText(r.leafFingerprint)
  }

  ghost predicate BindsPrepared(env: Reader, h: Header, planRaw: string, prepared: string, r: Prepared, p: Plan) {
    && env.noDuplicates(prepared) && StatesPrepared(prepared, r)
    && '\\' !in planRaw && ValidatePlan(p, h, planRaw, env.sha)
    && PreparedFits(r, p, env.sha(Written(PlanJson(p))))
  }

  datatype Finalized = Finalized(schema: string, schemaVersion: nat, state: string, preparedDigest: string)

  function FinalizedJson(f: Finalized): Json {
    Obj([Member(SCHEMA, Str(f.schema)), Member(SCHEMA_VERSION, Num(f.schemaVersion)), Member(STATE, Str(f.state)),
         Member(PREPARED_RECEIPT_SHA256, Str(f.preparedDigest))])
  }

  ghost predicate StatesFinalized(text: string, f: Finalized) {
    Clean(FinalizedJson(f)) && text == Written(FinalizedJson(f))
  }

  ghost predicate BindsFinalized(env: Reader, h: Header, planRaw: string, prepared: string, finalized: string) {
    && (exists r, p :: BindsPrepared(env, h, planRaw, prepared, r, p))
    && h.preparedReceipt == Some(env.sha(prepared))
    && env.noDuplicates(finalized)
    && exists f :: StatesFinalized(finalized, f) && FinalizedFits(f, env.sha(prepared))
  }

  predicate FinalizedFits(f: Finalized, preparedDigest: string) {
    && f.schema == "dirextalk.connector-bootstrap-finalized-receipt" && f.schemaVersion == 1 && f.state == "finalized"
    && f.preparedDigest == preparedDigest
  }

  lemma FinalizedOnce(text: string, f: Finalized, g: Finalized)
    requires StatesFinalized(text, f) && StatesFinalized(text, g)
    ensures f == g
  {
    hide Clean, Written;
    WrittenInjective(FinalizedJson(f), FinalizedJson(g));
    var a, b := FinalizedJson(f).members, FinalizedJson(g).members;
    assert a[0] == b[0] && a[1] == b[1] && a[2] == b[2] && a[3] == b[3];
  }

  lemma PreparedOnce(text: string, r: Prepared, s: Prepared)
    requires StatesPrepared(text, r) && StatesPrepared(text, s)
    ensures r == s
  {
    hide Clean, Written, PreparedHead, PreparedTail;
    HeadSize(r);
    HeadSize(s);
    WrittenInjective(PreparedJson(r), PreparedJson(s));
    var all := PreparedJson(r).members;
    assert PreparedHead(r) == all[..13] == PreparedHead(s) && PreparedTail(r) == all[13..] == PreparedTail(s);
    SameHead(r, s);
    SameTail(r, s);
  }

  lemma HeadSize(r: Prepared)
    ensures |PreparedHead(r)| == 13
  {
  }

  lemma SameHead(r: Prepared, s: Prepared)
    requires PreparedHead(r) == PreparedHead(s)
    ensures r.schema == s.schema && r.schemaVersion == s.schemaVersion && r.state == s.state && r.planDigest == s.planDigest
    ensures r.operation == s.operation && r.manifest == s.manifest && r.target == s.target
    ensures r.artifactVersion == s.artifactVersion && r.artifactDigest == s.artifactDigest && r.host == s.host
  {
    var a, b := PreparedHead(r), PreparedHead(s);
    assert a[0] == b[0] && a[1] == b[1] && a[2] == b[2] && a[3] == b[3] && a[4] == b[4] && a[5] == b[5] && a[6] == b[6];
    assert a[7] == b[7] && a[8] == b[8] && a[9] == b[9] && a[10] == b[10] && a[11] == b[11] && a[12] == b[12];
  }

  lemma SameTail(r: Prepared, s: Prepared)
    requires PreparedTail(r) == PreparedTail(s)
    ensures r.instance == s.instance && r.adapter == s.adapter && r.handoffDigest == s.handoffDigest
    ensures r.generation == s.generation && r.specRevision == s.specRevision
    ensures r.enrollmentRequest == s.enrollmentRequest && r.enrollmentIntent == s.enrollmentIntent
    ensures r.installation == s.installation && r.agentDevice == s.agentDevice && r.binding == s.binding
    ensures r.credential == s.credential && r.credentialGeneration == s.credentialGeneration
    ensures r.credentialRevision == s.credentialRevision && r.leafFingerprint == s.leafFingerprint
  {
    var a, b := PreparedTail(r), PreparedTail(s);
    assert a[0] == b[0] && a[1] == b[1] && a[2] == b[2] && a[3] == b[3] && a[4] == b[4] && a[5] == b[5] && a[6] == b[6];
    assert a[7] == b[7] && a[8] == b[8] && a[9] == b[9] && a[10] == b[10] && a[11] == b[11] && a[12] == b[12] && a[13] == b[13];
  }

  /** Two different texts with one digest. */
  predicate Collide(sha: string -> string, a: string, b: string) {
    a != b && sha(a) == sha(b)
  }

  /**
  Two validated requests that accept the same finalized receipt were prepared from the same
  material: same prepared receipt, plan bytes, handoff bytes and the three trust anchors, unless
  one of these pairs is a digest collision.
  */
  lemma ReceiptPinsMaterial(env: Reader, finalized: string,
                            h: Header, plan: string, handoff: string, prepared: string, p: Plan,
                            g: Header, plan': string, handoff': string, prepared': string, q: Plan)
    requires Accepts(env, h, plan, handoff, p) && Accepts(env, g, plan', handoff', q)
    requires BindsFinalized(env, h, plan, prepared, finalized) && BindsFinalized(env, g, plan', prepared', finalized)
    requires !Collide(env.sha, prepared, prepared') && !Collide(env.sha, plan, plan') && !Collide(env.sha, handoff, handoff')
    ensures prepared == prepared' && plan == plan' && handoff == handoff' && p == q
    ensures h.enrollmentCa == g.enrollmentCa && h.controlCa == g.controlCa && h.issuerCa == g.issuerCa
  {
    hide StatesFinalized, StatesPrepared, Written, PlanJson, Clean, PlanWellFormed, NoForbidden, HandoffWellFormed;
    var f :| StatesFinalized(finalized, f) && FinalizedFits(f, env.sha(prepared));
    var f' :| StatesFinalized(finalized, f') && FinalizedFits(f', env.sha(prepared'));
    FinalizedOnce(finalized, f, f');
    var r, x :| BindsPrepared(env, h, plan, prepared, r, x);
    var r', y :| BindsPrepared(env, g, plan', prepared', r', y);
    PreparedOnce(prepared, r, r');
    StatesOne(plan, p, x);
    StatesOne(plan', q, y);
    assert env.sha(plan) == r.planDigest == r'.planDigest == env.sha(plan');
    StatesOne(plan, p, q);
    assert env.sha(handoff) == p.handoffDigest == env.sha(handoff');
  }

  // ---- What a bound receipt says ----

  /** A prepared receipt is bound only if it is the one that repeats the plan. */
  lemma PreparedRepeats(env: Reader, h: Header, planRaw: string, prepared: string, r: Prepared, p: Plan)
    requires BindsPrepared(env, h, planRaw, prepared, r, p)
    ensures r == PreparedFor(p, env.sha(planRaw), r.credential, r.leafFingerprint)
    ensures prepared == Written(PreparedJson(r)) && IsV7(r.credential) && IsDigestText(r.leafFingerprint)
    ensures env.noDuplicates(prepared) && ValidatePlan(p, h, planRaw, env.sha)
  {
    hide Written, PlanJson, PreparedJson, Clean, IsV7, IsDigestText, PlanWellFormed, NoForbidden;
  }

  /** Its members are the plan's, under the same names. */
  lemma PreparedHeadRepeats(p: Plan, planDigest: string, credential: string, leaf: string)
    ensures var head, plan := PreparedHead(PreparedFor(p, planDigest, credential, leaf)), PlanJson(p).members;
      && head[4] == plan[3] && head[5] == plan[4] && head[6] == plan[5]
      && plan[6].value.Obj? && plan[7].value.Obj?
      && head[7].value == plan[6].value.members[0].value && head[8].value == plan[6].value.members[1].value
      && head[9..13] == plan[7].value.members
  {
    hide ConnectorJson;
  }

  /** The credential is of the connector's generation and revision. */
  lemma CredentialRepeats(p: Plan, planDigest: string, credential: string, leaf: string)
    ensures var tail := PreparedTail(PreparedFor(p, planDigest, credential, leaf));
      tail[11].value == tail[3].value && tail[12].value == tail[4].value
  {
  }

  /** And so are those of its connector. */
  lemma PreparedTailRepeats(p: Plan, planDigest: string, credential: string, leaf: string)
    ensures var tail, connector := PreparedTail(PreparedFor(p, planDigest, credential, leaf)), ConnectorJson(p).members;
      && tail[0] == connector[0] && tail[1] == connector[1] && tail[2] == connector[2]
      && tail[3] == connector[4] && tail[4] == connector[5] && tail[5] == connector[6] && tail[6] == connector[7]
      && tail[7] == connector[8] && tail[8] == connector[9] && tail[9] == connector[10]
  {
    hide TrustJson, McpJson;
    hide INSTANCE_ID, ADAPTER_KIND, HANDOFF_DIGEST, GENERATION, SPEC_REVISION, ENROLLMENT_REQUEST_ID, ENROLLMENT_INTENT_ID,
      INSTALLATION_ID, AGENT_DEVICE_ID, BINDING_ID, CREDENTIAL_ID, CREDENTIAL_GENERATION, CREDENTIAL_REVISION, LEAF_FINGERPRINT_SHA256;
  }

  /** A finalized receipt is bound only if it is the one that names the prepared one, as the header does. */
  lemma FinalizedNames(env: Reader, h: Header, planRaw: string, prepared: string, finalized: string)
    requires BindsFinalized(env, h, planRaw, prepared, finalized)
    ensures finalized == Written(FinalizedJson(FinalizedFor(env.sha(prepared)))) && h.preparedReceipt == Some(env.sha(prepared))
    ensures env.noDuplicates(finalized) && exists r, p :: BindsPrepared(env, h, planRaw, prepared, r, p)
  {
    hide Written, FinalizedJson, Clean, BindsPrepared;
    var f :| StatesFinalized(finalized, f) && FinalizedFits(f, env.sha(prepared));
    assert f == FinalizedFor(env.sha(prepared));
  }

  // ---- No member twice ----

  const HEAD_TAGS: seq<Tag> := [
    (6, 's', 'e'), (14, 's', 'v'), (5, 's', 'a'), (11, 'p', 'd'), (12, 'o', 'i'), (15, 'm', 't'),
    (6, 't', 'g'), (26, 'c', 'i'), (25, 'c', 't'), (9, 't', 'n'), (7, 'h', 't'), (8, 'o', 'r'),
    (18, 'h', 'e')]

  const TAIL_TAGS: seq<Tag> := [
    (11, 'i', 'n'), (12, 'a', 'r'), (14, 'h', '_'), (10, 'g', 'a'), (13, 's', 'e'), (21, 'e', '_'),
    (20, 'e', '_'), (15, 'i', 'a'), (15, 'a', 'e'), (10, 'b', 'n'), (13, 'c', 't'), (21, 'c', '_'),
    (19, 'c', 'l'), (23, 'l', 'p')]

  const FINALIZED_TAGS: seq<Tag> := [
    (6, 's', 'e'), (14, 's', 'v'), (5, 's', 'a'), (23, 'p', 'c')]

  lemma HeadKeys()
    ensures TagOf(SCHEMA) == (6, 's', 'e') && TagOf(SCHEMA_VERSION) == (14, 's', 'v')
    ensures TagOf(STATE) == (5, 's', 'a') && TagOf(PLAN_DIGEST) == (11, 'p', 'd')
    ensures TagOf(OPERATION_ID) == (12, 'o', 'i') && TagOf(MANIFEST_DIGEST) == (15, 'm', 't')
    ensures TagOf(TARGET) == (6, 't', 'g') && TagOf(CONNECTOR_ARTIFACT_VERSION) == (26, 'c', 'i')
    ensures TagOf(CONNECTOR_ARTIFACT_DIGEST) == (25, 'c', 't') && TagOf(TENANT_ID) == (9, 't', 'n')
    ensures TagOf(HOST_ID) == (7, 'h', 't') && TagOf(OWNER_ID) == (8, 'o', 'r')
    ensures TagOf(HOST_CREDENTIAL_ID) == (18, 'h', 'e')
  {
  }

  lemma TailKeys()
    ensures TagOf(INSTANCE_ID) == (11, 'i', 'n') && TagOf(ADAPTER_KIND) == (12, 'a', 'r')
    ensures TagOf(HANDOFF_DIGEST) == (14, 'h', '_') && TagOf(GENERATION) == (10, 'g', 'a')
    ensures TagOf(SPEC_REVISION) == (13, 's', 'e') && TagOf(ENROLLMENT_REQUEST_ID) == (21, 'e', '_')
    ensures TagOf(ENROLLMENT_INTENT_ID) == (20, 'e', '_') && TagOf(INSTALLATION_ID) == (15, 'i', 'a')
    ensures TagOf(AGENT_DEVICE_ID) == (15, 'a', 'e') && TagOf(BINDING_ID) == (10, 'b', 'n')
    ensures TagOf(CREDENTIAL_ID) == (13, 'c', 't') && TagOf(CREDENTIAL_GENERATION) == (21, 'c', '_')
    ensures TagOf(CREDENTIAL_REVISION) == (19, 'c', 'l') && TagOf(LEAF_FINGERPRINT_SHA256) == (23, 'l', 'p')
  {
  }

  lemma PreparedTagged(r: Prepared)
    ensures Tagged(PreparedHead(r), HEAD_TAGS) && Tagged(PreparedTail(r), TAIL_TAGS)
  {
    hide TagOf;
    HeadKeys();
    TailKeys();
  }

  lemma HeadTagsDiffer()
    ensures Different(HEAD_TAGS)
  {
  }

  lemma TailTagsDiffer()
    ensures Different(TAIL_TAGS)
  {
  }

  /** Head and tail share no tag. */
  predicate Apart(a: seq<Tag>, b: seq<Tag>) {
    forall i, k :: 0 <= i < |a| && 0 <= k < |b| ==> a[i] != b[k]
  }

  lemma TagsApart()
    ensures Apart(HEAD_TAGS, TAIL_TAGS)
  {
  }

  lemma DistinctPrepared(r: Prepared)
    ensures Distinct(PreparedJson(r))
  {
    hide TagOf, Tagged, Different, Apart, PreparedHead, PreparedTail;
    PreparedTagged(r);
    HeadTagsDiffer();
    TailTagsDiffer();
    TagsApart();
    JoinedTags(PreparedHead(r), PreparedTail(r), HEAD_TAGS, TAIL_TAGS);
    DifferentTags(PreparedHead(r) + PreparedTail(r), HEAD_TAGS + TAIL_TAGS);
    PlainMembers(r);
    DistinctEach(PreparedHead(r) + PreparedTail(r));
  }

  lemma JoinedTags(a: seq<Member>, b: seq<Member>, s: seq<Tag>, t: seq<Tag>)
    requires Tagged(a, s) && Tagged(b, t) && Different(s) && Different(t) && Apart(s, t)
    ensures Tagged(a + b, s + t) && Different(s + t)
  {
  }

  /** Every member of a prepared receipt is a string or a number of 64 bits. */
  lemma PlainMembers(r: Prepared)
    ensures forall i :: 0 <= i < |PreparedJson(r).members| ==> !PreparedJson(r).members[i].value.Obj?
  {
  }

  lemma FinalizedTagged(f: Finalized)
    ensures Tagged(FinalizedJson(f).members, FINALIZED_TAGS) && Different(FINALIZED_TAGS)
  {
  }

  lemma DistinctFinalized(f: Finalized)
    ensures Distinct(FinalizedJson(f))
  {
    hide Tagged, Different;
    FinalizedTagged(f);
    DifferentTags(FinalizedJson(f).members, FINALIZED_TAGS);
    DistinctEach(FinalizedJson(f).members);
  }

  lemma ModestPrepared(r: Prepared)
    requires Fits64(r.schemaVersion) && Fits64(r.generation) && Fits64(r.specRevision)
    requires Fits64(r.credentialGeneration) && Fits64(r.credentialRevision)
    ensures Modest(PreparedJson(r), MAX_NESTING)
  {
    ModestEach(PreparedJson(r).members, MAX_NESTING - 1);
  }

  lemma ModestFinalized(f: Finalized)
    requires Fits64(f.schemaVersion)
    ensures Modest(FinalizedJson(f), MAX_NESTING)
  {
    ModestEach(FinalizedJson(f).members, MAX_NESTING - 1);
  }

  // ---- The receipts of a validated plan are accepted ----

  function PreparedFor(p: Plan, planDigest: string, credential: string, leaf: string): Prepared {
    Prepared("dirextalk.connector-bootstrap-receipt", 1, "prepared", planDigest, p.operation, p.manifest, p.target,
             p.artifactVersion, p.artifactDigest, p.host, p.instance, p.adapter, p.handoffDigest,
             p.generation, p.specRevision, p.enrollmentRequest, p.enrollmentIntent,
             p.installation, p.agentDevice, p.binding, credential, p.generation, p.specRevision, leaf)
  }

  function FinalizedFor(preparedDigest: string): Finalized {
    Finalized("dirextalk.connector-bootstrap-finalized-receipt", 1, "finalized", preparedDigest)
  }

  lemma PrefixLiteral()
    ensures All("dirextalk.connector-bootstrap-", Literal)
  {
  }

  lemma SuffixesLiteral()
    ensures All("receipt", Literal) && All("finalized-receipt", Literal)
    ensures All("prepared", Literal) && All("finalized", Literal)
  {
  }

  lemma SchemasLiteral()
    ensures All("dirextalk.connector-bootstrap-receipt", Literal) && All("prepared", Literal)
    ensures All("dirextalk.connector-bootstrap-finalized-receipt", Literal) && All("finalized", Literal)
  {
    hide Literal;
    var a, b, c := "dirextalk.connector-bootstrap-", "receipt", "finalized-receipt";
    PrefixLiteral();
    SuffixesLiteral();
    Glue(a, b, Literal);
    Glue(a, c, Literal);
    assert "dirextalk.connector-bootstrap-receipt" == a + b;
    assert "dirextalk.connector-bootstrap-finalized-receipt" == a + c;
  }

  lemma CleanHead(p: Plan, planDigest: string, credential: string, leaf: string)
    requires Confined(p) && All(planDigest, Tame)
    ensures CleanAll(PreparedHead(PreparedFor(p, planDigest, credential, leaf)))
  {
    hide Tame, Literal, All, ConfinedTrust, ConfinedMcp;
    SchemasLiteral();
    TameIsFine(planDigest);
    TameIsFine(p.operation);
    TameIsFine(p.manifest);
    TameIsFine(p.target);
    TameIsFine(p.artifactVersion);
    TameIsFine(p.artifactDigest);
    TameIsFine(p.host.tenant);
    TameIsFine(p.host.host);
    TameIsFine(p.host.owner);
    TameIsFine(p.host.credential);
    CleanEach(PreparedHead(PreparedFor(p, planDigest, credential, leaf)));
  }

  lemma CleanTail(p: Plan, planDigest: string, credential: string, leaf: string)
    requires Confined(p) && All(credential, Tame) && All(leaf, Tame)
    ensures CleanAll(PreparedTail(PreparedFor(p, planDigest, credential, leaf)))
  {
    hide Tame, Literal, All, ConfinedTrust, ConfinedMcp;
    TameIsFine(credential);
    TameIsFine(leaf);
    TameIsFine(p.instance);
    TameIsFine(p.adapter);
    TameIsFine(p.handoffDigest);
    TameIsFine(p.enrollmentRequest);
    TameIsFine(p.enrollmentIntent);
    TameIsFine(p.installation);
    TameIsFine(p.agentDevice);
    TameIsFine(p.binding);
    CleanEach(PreparedTail(PreparedFor(p, planDigest, credential, leaf)));
  }

  lemma CleanPrepared(p: Plan, planDigest: string, credential: string, leaf: string)
    requires Confined(p) && All(planDigest, Tame) && All(credential, Tame) && All(leaf, Tame)
    ensures Clean(PreparedJson(PreparedFor(p, planDigest, credential, leaf)))
  {
    hide Confined, All, PreparedHead, PreparedTail, CleanAll;
    var r := PreparedFor(p, planDigest, credential, leaf);
    CleanHead(p, planDigest, credential, leaf);
    CleanTail(p, planDigest, credential, leaf);
    CleanAppend(PreparedHead(r), PreparedTail(r));
  }

  /** For every accepted request, the receipt repeating its plan is bound. */
  lemma PreparedIsBound(env: Reader, h: Header, plan: string, handoff: string, p: Plan, credential: string, leaf: string)
    requires Faithful(env) && Accepts(env, h, plan, handoff, p) && IsV7(credential) && IsDigestText(leaf)
    ensures var r := PreparedFor(p, env.sha(plan), credential, leaf);
      BindsPrepared(env, h, plan, Written(PreparedJson(r)), r, p)
  {
    hide PreparedJson, Written, PlanJson, Clean, NoForbidden, HandoffWellFormed, PlanTexts, Confined, IsV7, IsDigestText;
    hide Modest, Distinct, StatesHandoff, SpellsSecret;
    var r := PreparedFor(p, env.sha(plan), credential, leaf);
    PlanConfined(p);
    DigestTame(env.sha(plan));
    V7Tame(credential);
    DigestTame(leaf);
    CleanPrepared(p, env.sha(plan), credential, leaf);
    DistinctPrepared(r);
    ModestPrepared(r);
  }

  /** And so is the finalized receipt naming it, under a header that names it too. */
  lemma FinalizedIsBound(env: Reader, h: Header, plan: string, handoff: string, p: Plan, credential: string, leaf: string)
    requires Faithful(env) && Accepts(env, h, plan, handoff, p) && IsV7(credential) && IsDigestText(leaf)
    requires h.preparedReceipt == Some(env.sha(Written(PreparedJson(PreparedFor(p, env.sha(plan), credential, leaf)))))
    ensures var prepared := Written(PreparedJson(PreparedFor(p, env.sha(plan), credential, leaf)));
      BindsFinalized(env, h, plan, prepared, Written(FinalizedJson(FinalizedFor(env.sha(prepared)))))
  {
    hide PreparedJson, FinalizedJson, Written, Clean, Modest, Distinct, StatesHandoff, BindsPrepared, Accepts, IsV7, IsDigestText;
    var prepared := Written(PreparedJson(PreparedFor(p, env.sha(plan), credential, leaf)));
    var f := FinalizedFor(env.sha(prepared));
    PreparedIsBound(env, h, plan, handoff, p, credential, leaf);
    CleanFinalized(env.sha(prepared));
    DistinctFinalized(f);
    ModestFinalized(f);
    assert StatesFinalized(Written(FinalizedJson(f)), f) && FinalizedFits(f, env.sha(prepared));
  }

  lemma CleanFinalized(preparedDigest: string)
    requires IsDigestText(preparedDigest)
    ensures Clean(FinalizedJson(FinalizedFor(preparedDigest)))
  {
    DigestTame(preparedDigest);
    TameIsFine(preparedDigest);
    SchemasLiteral();
    CleanEach(FinalizedJson(FinalizedFor(preparedDigest)).members);
  }

  // ---- From a request to its finalized receipt ----

  /** Plan, handoff, prepared and finalized receipt of a request are all taken, under one header that names them. */
  ghost predicate Exchanged(env: Reader, r: Request, intent: string, token: Bytes, bearer: Bytes, credential: string, leaf: string) {
    var handoff := Written(IssuedHandoff(r, intent, token, bearer));
    var p := PlanFor(r, intent, env.sha(handoff));
    var plan := Written(IssuedPlan(r, intent, env.sha(handoff)));
    var prepared := Written(PreparedJson(PreparedFor(p, env.sha(plan), credential, leaf)));
    var h := HeaderFor(p, env.sha(plan), Some(env.sha(prepared)));
    && (exists q :: Accepts(env, h, plan, handoff, q))
    && BindsFinalized(env, h, plan, prepared, Written(FinalizedJson(FinalizedFor(env.sha(prepared)))))
  }

  /**
  For every request the issuer validates and every faithful reader, the whole exchange goes through
  if and only if the expiry is a positive safe JSON number and the display name needs no escape.
  */
  lemma ExchangedIff(env: Reader, r: Request, now: int, intent: string, token: Bytes, bearer: Bytes, credential: string, leaf: string)
    requires Faithful(env) && WellTyped(r) && IssuerAccepts(r, now) && IsV7(intent) && |token| == 32 && |bearer| == 32
    requires IsV7(credential) && IsDigestText(leaf)
    ensures Exchanged(env, r, intent, token, bearer, credential, leaf) <==> Positive(r.expires) && All(r.displayName, Literal)
  {
    hide Faithful, WellTyped, IssuerAccepts, IsV7, IsDigestText, Accepts, BindsFinalized, Written, Literal;
    hide IssuedHandoff, IssuedPlan, PlanFor, PlanJson, PreparedJson, FinalizedJson, PreparedFor, FinalizedFor;
    var handoff := Written(IssuedHandoff(r, intent, token, bearer));
    var p := PlanFor(r, intent, env.sha(handoff));
    var plan := Written(IssuedPlan(r, intent, env.sha(handoff)));
    var prepared := Written(PreparedJson(PreparedFor(p, env.sha(plan), credential, leaf)));
    var h := HeaderFor(p, env.sha(plan), Some(env.sha(prepared)));
    IssuedIsAcceptedIff(env, r, now, intent, token, bearer, Some(env.sha(prepared)));
    if Positive(r.expires) && All(r.displayName, Literal) {
      AcceptedAsIssued(env, r, now, intent, token, bearer, Some(env.sha(prepared)));
      FinalizedIsBound(env, h, plan, handoff, p, credential, leaf);
    }
  }
}
