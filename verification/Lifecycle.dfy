/**
From the issuing command to the supervisor: the texts of what a history of issuing processes
reports or publishes are accepted, and the requests that are validated but never reported.
*/
module Lifecycle {
  import opened Common
  import opened Text
  import opened BootstrapText
  import opened Json
  import opened Bootstrap
  import opened Agreement
  import opened PlanSizes
  import opened IssuedRequests
  import opened OversizedRequest
  import I = Issuance
  import Material

  /** The fields of a request that its handoff repeats. */
  function Facts(r: Request): seq<string> {
    [r.operation, r.manifest, r.target, r.host.tenant, r.host.host, r.instance, r.enrollmentRequest,
     Decimal(r.generation), Decimal(r.specRevision)]
  }

  /** A request as the issuing processes take it. */
  function Taken(r: Request): I.Request {
    I.Request(Facts(r), Written(RequestJson(r)), r.expires)
  }

  /** A validated request is within the window a process begins in. */
  lemma ValidatedBegins(r: Request, now: int)
    requires IssuerAccepts(r, now)
    ensures I.TtlOk(Taken(r).expiresAt, now) && r.generation == 1 && r.specRevision == 1
  {
    hide RequestFits, Written, RequestJson, Facts;
  }

  /** The processes judge the size of a plan by its actual text. */
  lemma PlanFitsIff(r: Request, intent: string, handoffDigest: string)
    requires r.schema == "dirextalk.connector-bootstrap-issuance-request" && r.schemaVersion == 1
    requires IsV7(intent) && IsDigestText(handoffDigest)
    ensures I.PlanFits(Taken(r)) <==> Size(IssuedPlan(r, intent, handoffDigest)) <= I.MAX_PLAN_BYTES
  {
    hide RequestJson, IssuedPlan, Written, Utf8Size, IsV7, IsDigestText;
    PlanSize(r, intent, handoffDigest);
  }

  /** What is generated is an intent identifier and two secrets. */
  predicate WellMade(m: I.Material) {
    IsV7(m.intent) && |m.token| == 32 && |m.bearer| == 32
  }

  function HandoffText(r: Request, m: I.Material): string {
    Written(IssuedHandoff(r, m.intent, m.token, m.bearer))
  }

  function PlanText(r: Request, plan: I.Plan): string {
    Written(IssuedPlan(r, plan.intent, plan.handoffDigest))
  }

  /** The digest of a handoff is that of its text. */
  ghost predicate Concrete(hs: I.Hashes, env: Reader) {
    forall r: Request, m: I.Material ::
      hs.handoff(I.Handoff(true, Facts(r), r.expires, m)) == env.sha(HandoffText(r, m))
  }

  /** What a committed row was committed with. */
  lemma SourceOf(hs: I.Hashes, actions: seq<I.Action>)
    requires I.MintsAll(actions, WellMade)
    ensures var s := I.Run(hs, I.Init, actions);
      s.row.Some? ==>
        var request := s.row.value.request;
        && s.source.Some? && WellMade(s.source.value.material)
        && s.source.value == I.Handoff(true, request.facts, request.expiresAt, s.source.value.material)
        && s.row.value.plan == I.Plan(request, s.source.value.material.intent, hs.handoff(s.source.value))
        && I.PlanFits(request) && 0 < request.expiresAt <= MAX_SAFE_INTEGER
  {
    hide I.Run, I.Apply, WellMade;
    I.InitSound(hs);
    I.Reachable(hs, I.Init, actions);
    I.RunKeepsMade(hs, I.Init, actions, WellMade);
    var s := I.Run(hs, I.Init, actions);
    if s.row.Some? {
      assert I.AsReady(s.source.value) == s.source.value;
    }
  }

  /** The texts of committed material are accepted exactly when the display name needs no escape, and fit a frame. */
  lemma CommittedIsAcceptedIff(hs: I.Hashes, env: Reader, actions: seq<I.Action>, r: Request, now: int, receipt: Option<string>)
    requires Faithful(env) && Concrete(hs, env) && WellTyped(r) && IssuerAccepts(r, now) && I.MintsAll(actions, WellMade)
    requires var s := I.Run(hs, I.Init, actions); s.row.Some? && s.row.value.request == Taken(r)
    ensures var s := I.Run(hs, I.Init, actions);
      && s.source.Some?
      && var m, plan := s.source.value.material, s.row.value.plan;
         && (IssuedAccepted(env, r, m.intent, m.token, m.bearer, receipt) <==> All(r.displayName, Literal))
         && plan.intent == m.intent && plan.handoffDigest == env.sha(HandoffText(r, m))
         && Utf8Size(PlanText(r, plan)) <= Material.MAX_FIELD_BYTES
         && Utf8Size(HandoffText(r, m)) <= Material.MAX_FIELD_BYTES
  {
    hide I.Run, I.MintsAll, Faithful, WellTyped, IssuedAccepted, IssuedPlan, IssuedHandoff, RequestJson, Written, Utf8Size;
    hide IsV7, IsDigestText, Literal, NoForbidden, IsSemver, IsOrigin, IsEndpoint, IsMcpName, IsMcpUrl, ValidText;
    SourceOf(hs, actions);
    var s := I.Run(hs, I.Init, actions);
    var m := s.source.value.material;
    assert s.source.value == I.Handoff(true, Facts(r), r.expires, m);
    IssuedIsAcceptedIff(env, r, now, m.intent, m.token, m.bearer, receipt);
    DigestWritten(env, HandoffText(r, m));
    PlanFitsIff(r, m.intent, env.sha(HandoffText(r, m)));
    HandoffSize(r, now, m.intent, m.token, m.bearer);
  }

  /**
  Over every history: whatever material some process has reported for a validated request, the texts
  of its plan and handoff are accepted by the supervisor if and only if the display name needs no
  escape.
  */
  lemma ReportedIsAcceptedIff(hs: I.Hashes, env: Reader, actions: seq<I.Action>, report: I.Report, r: Request, now: int,
                              receipt: Option<string>)
    requires Faithful(env) && Concrete(hs, env) && WellTyped(r) && IssuerAccepts(r, now) && I.MintsAll(actions, WellMade)
    requires var s := I.Run(hs, I.Init, actions); report in s.reports && s.row.Some? && s.row.value.request == Taken(r)
    ensures var m := report.material;
      IssuedAccepted(env, r, m.intent, m.token, m.bearer, receipt) <==> All(r.displayName, Literal)
  {
    hide I.Run, I.MintsAll, Faithful, Concrete, WellTyped, IssuerAccepts, IssuedAccepted, Taken, Literal, PlanText, HandoffText;
    CommittedIsAcceptedIff(hs, env, actions, r, now, receipt);
    I.InitSound(hs);
    I.Reachable(hs, I.Init, actions);
  }

  /** And a request file holds no backslash, so for the requests of the command they always are. */
  lemma ReportedIsAccepted(hs: I.Hashes, env: Reader, actions: seq<I.Action>, report: I.Report, r: Request, body: string, now: int,
                           receipt: Option<string>)
    requires Faithful(env) && Concrete(hs, env) && WellTyped(r) && IssuerAccepts(r, now) && I.MintsAll(actions, WellMade)
    requires var s := I.Run(hs, I.Init, actions); report in s.reports && s.row.Some? && s.row.value.request == Taken(r)
    requires '\\' !in body && Decodes(body, r.displayName)
    ensures var m := report.material; IssuedAccepted(env, r, m.intent, m.token, m.bearer, receipt)
  {
    hide I.Run, I.MintsAll, Faithful, Concrete, WellTyped, IssuerAccepts, IssuedAccepted, Taken, Literal;
    BackslashFreeIsLiteral(body, r.displayName);
    ReportedIsAcceptedIff(hs, env, actions, report, r, now, receipt);
  }

  /** The same of the very files on disk, in every reachable state. */
  lemma PublishedIsAcceptedIff(hs: I.Hashes, env: Reader, actions: seq<I.Action>, r: Request, now: int,
                               handoffPath: I.Path, planPath: I.Path, receipt: Option<string>)
    requires Faithful(env) && Concrete(hs, env) && WellTyped(r) && IssuerAccepts(r, now) && I.MintsAll(actions, WellMade)
    requires var s := I.Run(hs, I.Init, actions);
      && s.row.Some? && s.row.value.request == Taken(r)
      && handoffPath in s.handoffs && s.handoffs[handoffPath].ready && planPath in s.plans
    ensures var s := I.Run(hs, I.Init, actions);
      var plan, m := s.plans[planPath], s.handoffs[handoffPath].material;
      var raw, handoff := PlanText(r, plan), HandoffText(r, m);
      var h := HeaderFor(PlanFor(r, plan.intent, plan.handoffDigest), env.sha(raw), receipt);
      && ((exists q :: Accepts(env, h, raw, handoff, q)) <==> All(r.displayName, Literal))
      && Utf8Size(raw) <= Material.MAX_FIELD_BYTES && Utf8Size(handoff) <= Material.MAX_FIELD_BYTES
  {
    hide I.Run, I.MintsAll, Faithful, Concrete, WellTyped, IssuerAccepts, Taken, Literal, Accepts, Written, Utf8Size;
    hide IssuedPlan, IssuedHandoff, PlanFor;
    CommittedIsAcceptedIff(hs, env, actions, r, now, receipt);
    I.InitSound(hs);
    I.Reachable(hs, I.Init, actions);
    var s := I.Run(hs, I.Init, actions);
    assert I.AsReady(s.handoffs[handoffPath]) == s.handoffs[handoffPath];
  }

  // ---- Something is reported ----

  function SomeHashes(): I.Hashes {
    I.Hashes(_ => "", _ => "", _ => SomeDigest(), _ => "token", _ => "bearer")
  }

  /** The demands can be met: under these hashes a run for this request from the start reports. */
  lemma SomeRequestIsReported(pid: I.Pid, mint: I.Material)
    requires WellMade(mint)
    ensures Faithful(SomeReader()) && Concrete(SomeHashes(), SomeReader())
    ensures var p := I.Proc(Taken(SomeRequest()), "handoff", "plan", 0, I.Waiting);
      var actions := I.OneRun(pid, p, mint);
      var s := I.Run(SomeHashes(), I.Init, actions);
      && I.MintsAll(actions, WellMade) && s.reports == [I.Report(pid, mint, 0)]
      && s.row.Some? && s.row.value.request == Taken(SomeRequest())
  {
    hide WellMade, RequestJson, Facts, Written, Utf8Size, SomeDigest, SomeV7, HandoffText, I.Run, I.Undisturbed, Faithful;
    var p := I.Proc(Taken(SomeRequest()), "handoff", "plan", 0, I.Waiting);
    SomeReaderIsFaithful();
    SomeRequestShort();
    I.InitSound(SomeHashes());
    I.UndisturbedRun(SomeHashes(), I.Init, pid, p, mint);
    I.UndisturbedIsRun(SomeHashes(), I.Init, pid, p, mint);
  }

  // ---- Validated and never issued ----

  /** One millisecond beyond the safe integers. */
  lemma UnsafeExpiryIsStuck(hs: I.Hashes, pid: I.Pid, handoffPath: I.Path, planPath: I.Path, mint: I.Material, actions: seq<I.Action>)
    requires I.OnlyFor(actions, Taken(SomeRequest().(expires := MAX_SAFE_INTEGER + 1)))
    ensures var r, now := SomeRequest().(expires := MAX_SAFE_INTEGER + 1), MAX_SAFE_INTEGER + 1 - MIN_TTL;
      && WellTyped(r) && IssuerAccepts(r, now)
      && var p := I.Proc(Taken(r), handoffPath, planPath, now, I.Waiting); I.Stuck(hs, I.OneRun(pid, p, mint), p, mint, actions)
  {
    hide WellTyped, IssuerAccepts, SomeRequest, RequestJson, Facts, I.OnlyFor, I.Stuck, I.OneRun, I.PlanFits;
    var r, now := SomeRequest().(expires := MAX_SAFE_INTEGER + 1), MAX_SAFE_INTEGER + 1 - MIN_TTL;
    SomeRequestIsValidated(MAX_SAFE_INTEGER + 1);
    I.UnissuableIsStuck(hs, pid, I.Proc(Taken(r), handoffPath, planPath, now, I.Waiting), mint, actions);
  }

  /** A request file of the largest size that is read. */
  lemma OversizedPlanIsStuck(hs: I.Hashes, pid: I.Pid, handoffPath: I.Path, planPath: I.Path, mint: I.Material, actions: seq<I.Action>)
    requires I.OnlyFor(actions, Taken(LargestRequest()))
    ensures var r := LargestRequest();
      && WellTyped(r) && IssuerAccepts(r, 0) && Utf8Size(Taken(r).text) == 65_536
      && var p := I.Proc(Taken(r), handoffPath, planPath, 0, I.Waiting); I.Stuck(hs, I.OneRun(pid, p, mint), p, mint, actions)
  {
    hide WellTyped, RequestJson, Facts, I.OnlyFor, I.Stuck, I.OneRun, Utf8Size, Written, SomeRequest;
    hide IsSemver, IsOrigin, IsEndpoint, IsMcpName, IsMcpUrl, ValidText, NoForbidden;
    var r := LargestRequest();
    LargestRequestIsOversized(SomeV7(), SomeDigest());
    I.UnissuableIsStuck(hs, pid, I.Proc(Taken(r), handoffPath, planPath, 0, I.Waiting), mint, actions);
  }
}
