/**
Issuing connector bootstrap material for one (tenant, operation), as a state machine.

Any number of processes run the issuing command at once, with any requests, paths and clocks.
They share a lock file, one database row, the secret handoff file and the plan file.  One
action is one durable effect of one process, a process dying, or the environment losing a
handoff or plan file, so a sequence of actions is an interleaved, crash-ridden history.
*/
module Issuance {
  import opened Common
  import Text

  const MIN_TTL: int := 60000
  const MAX_TTL: int := 600000

  /** The largest plan text that is published. */
  const MAX_PLAN_BYTES: nat := 65_536

  /** How much longer the text of a plan is than that of its request, as `PlanSizes.PlanSize` shows. */
  const PLAN_ADDS: nat := 153

  type Pid = nat
  type Path = string
  type Digest = string

  /** `facts` are the fields the handoff repeats, `text` is the compact text of the whole request. */
  datatype Request = Request(facts: seq<string>, text: string, expiresAt: int)

  datatype Material = Material(intent: string, token: Bytes, bearer: Bytes)

  datatype Handoff = Handoff(ready: bool, facts: seq<string>, expiresAt: int, material: Material)

  datatype Plan = Plan(request: Request, intent: string, handoffDigest: Digest)

  datatype Row = Row(
    requestDigest: Digest, planDigest: Digest, handoffDigest: Digest, tokenDigest: Digest, bearerDigest: Digest,
    handoffPath: Path, planPath: Path, request: Request, plan: Plan,
    intent: string, expiresAt: int, createdAt: int)

  /** The digests in use; nothing below asks them to be injective. */
  datatype Hashes = Hashes(
    request: Request -> Digest, plan: Plan -> Digest, handoff: Handoff -> Digest,
    token: Bytes -> Digest, bearer: Bytes -> Digest)

  /** `Torn` is a lock file whose first write was cut short. */
  datatype LockFile = Empty | Torn | Bound(handoffPath: Path, planPath: Path, createdAt: int)

  datatype Pc =
    | Waiting
    | Locked
    | Timed(createdAt: int)
    | Loaded(createdAt: int, recovery: Option<Row>)
    | Holding(createdAt: int, recovery: Option<Row>, handoff: Handoff)
    | Matched(createdAt: int, recovery: Option<Row>, handoff: Handoff)
    | Committed(createdAt: int, handoff: Handoff)
    | Readied(createdAt: int, handoff: Handoff)

  datatype Proc = Proc(request: Request, handoffPath: Path, planPath: Path, now: int, pc: Pc)

  /** A process has ended well and reported this. */
  datatype Report = Report(pid: Pid, material: Material, createdAt: int)

  /** `minted`, `source` and `reports` are history: material generated, what was committed, who handed out what. */
  datatype State = State(
    lock: LockFile, holder: Option<Pid>, row: Option<Row>,
    handoffs: map<Path, Handoff>, plans: map<Path, Plan>, procs: map<Pid, Proc>,
    minted: seq<Material>, source: Option<Handoff>, reports: seq<Report>)

  datatype Action =
    | Begin(pid: Pid, request: Request, handoffPath: Path, planPath: Path, now: int)
    | Step(pid: Pid, mint: Material, torn: bool)
    | Die(pid: Pid)
    | LoseHandoff(path: Path)
    | LosePlan(path: Path)

  const Init := State(Empty, None, None, map[], map[], map[], [], None, [])

  predicate TtlOk(expiresAt: int, createdAt: int) {
    MIN_TTL <= expiresAt - createdAt <= MAX_TTL
  }

  predicate PlanFits(r: Request) {
    Text.Utf8Size(r.text) + PLAN_ADDS <= MAX_PLAN_BYTES
  }

  /** An enrollment takes no time beyond the safe integers. */
  predicate TimesFit(r: Request, createdAt: int) {
    createdAt <= MAX_SAFE_INTEGER && r.expiresAt <= MAX_SAFE_INTEGER
  }

  predicate Issuable(r: Request) {
    PlanFits(r) && r.expiresAt <= MAX_SAFE_INTEGER
  }

  function AsReady(h: Handoff): Handoff {
    h.(ready := true)
  }

  predicate ValidHandoff(hs: Hashes, h: Handoff, request: Request, createdAt: int) {
    && h.facts == request.facts && h.expiresAt == request.expiresAt && createdAt >= 0
    && hs.token(h.material.token) != hs.bearer(h.material.bearer)
  }

  /** The handoff digest is taken of the ready form, whatever the state on disk. */
  function PlanFor(hs: Hashes, request: Request, h: Handoff): Plan {
    Plan(request, h.material.intent, hs.handoff(AsReady(h)))
  }

  function RowFor(hs: Hashes, request: Request, handoffPath: Path, planPath: Path, createdAt: int, h: Handoff): Row {
    var plan := PlanFor(hs, request, h);
    Row(hs.request(request), hs.plan(plan), plan.handoffDigest, hs.token(h.material.token), hs.bearer(h.material.bearer),
        handoffPath, planPath, request, plan, h.material.intent, request.expiresAt, createdAt)
  }

  predicate MatchesRequest(hs: Hashes, r: Row, p: Proc) {
    r.requestDigest == hs.request(p.request) && r.request == p.request
    && r.handoffPath == p.handoffPath && r.planPath == p.planPath
  }

  predicate MatchesMaterial(hs: Hashes, r: Row, p: Proc, createdAt: int, h: Handoff) {
    var plan := PlanFor(hs, p.request, h);
    && r.plan == plan && r.planDigest == hs.plan(plan) && r.handoffDigest == plan.handoffDigest
    && r.tokenDigest == hs.token(h.material.token) && r.bearerDigest == hs.bearer(h.material.bearer)
    && r.intent == h.material.intent && r.createdAt == createdAt && r.expiresAt == p.request.expiresAt
  }

  /** The process is gone and with it the lock it held. */
  function Exit(s: State, pid: Pid): State {
    s.(procs := s.procs - {pid}, holder := if s.holder == Some(pid) then None else s.holder)
  }

  function At(s: State, pid: Pid, pc: Pc): State
    requires pid in s.procs
  {
    s.(procs := s.procs[pid := s.procs[pid].(pc := pc)])
  }

  function BindLock(s: State, pid: Pid, p: Proc, torn: bool): State
    requires pid in s.procs
  {
    if s.lock.Torn? || (s.lock.Empty? && torn) then
      Exit(if s.lock.Torn? then s else s.(lock := Torn), pid)
    else
      var s1 := if s.lock.Empty? then s.(lock := Bound(p.handoffPath, p.planPath, p.now)) else s;
      if s1.lock.handoffPath != p.handoffPath || s1.lock.planPath != p.planPath
         || !TtlOk(p.request.expiresAt, s1.lock.createdAt)
      then Exit(s1, pid)
      else At(s1, pid, Timed(s1.lock.createdAt))
  }

  function LoadRow(hs: Hashes, s: State, pid: Pid, p: Proc): State
    requires pid in s.procs && p.pc.Timed?
  {
    if s.row.Some? && !MatchesRequest(hs, s.row.value, p) then Exit(s, pid)
    else if s.row.None? && p.planPath in s.plans then Exit(s, pid)
    else At(s, pid, Loaded(p.pc.createdAt, s.row))
  }

  function AcquireHandoff(hs: Hashes, s: State, pid: Pid, p: Proc, mint: Material): State
    requires pid in s.procs && p.pc.Loaded?
  {
    if p.handoffPath in s.handoffs then
      var h := s.handoffs[p.handoffPath];
      if ValidHandoff(hs, h, p.request, p.pc.createdAt)
      then At(s, pid, Holding(p.pc.createdAt, p.pc.recovery, h)) else Exit(s, pid)
    else if p.pc.recovery.Some? then Exit(s, pid)
    else
      var h := Handoff(false, p.request.facts, p.request.expiresAt, mint);
      var s1 := s.(handoffs := s.handoffs[p.handoffPath := h], minted := s.minted + [mint]);
      if ValidHandoff(hs, h, p.request, p.pc.createdAt)
      then At(s1, pid, Holding(p.pc.createdAt, p.pc.recovery, h)) else Exit(s1, pid)
  }

  function CheckMaterial(hs: Hashes, s: State, pid: Pid, p: Proc): State
    requires pid in s.procs && p.pc.Holding?
  {
    if p.pc.recovery.Some? && !MatchesMaterial(hs, p.pc.recovery.value, p, p.pc.createdAt, p.pc.handoff) then Exit(s, pid)
    else if !PlanFits(p.request) then Exit(s, pid)
    else if p.planPath in s.plans && s.plans[p.planPath] != PlanFor(hs, p.request, p.pc.handoff) then Exit(s, pid)
    else At(s, pid, Matched(p.pc.createdAt, p.pc.recovery, p.pc.handoff))
  }

  /** One transaction: times within bounds, then the row is inserted if there is none, else an equal one is demanded. */
  function Commit(hs: Hashes, s: State, pid: Pid, p: Proc): State
    requires pid in s.procs && p.pc.Matched?
  {
    var row := RowFor(hs, p.request, p.handoffPath, p.planPath, p.pc.createdAt, p.pc.handoff);
    if !TimesFit(p.request, p.pc.createdAt) then Exit(s, pid)
    else if s.row.Some? && s.row.value != row then Exit(s, pid)
    else
      var s1 := if s.row.None? then s.(row := Some(row), source := Some(AsReady(p.pc.handoff))) else s;
      At(s1, pid, Committed(p.pc.createdAt, p.pc.handoff))
  }

  function PublishReady(s: State, pid: Pid, p: Proc): State
    requires pid in s.procs && p.pc.Committed?
  {
    At(s.(handoffs := s.handoffs[p.handoffPath := AsReady(p.pc.handoff)]), pid, Readied(p.pc.createdAt, p.pc.handoff))
  }

  function PublishPlan(hs: Hashes, s: State, pid: Pid, p: Proc): State
    requires pid in s.procs && p.pc.Readied?
  {
    var plan := PlanFor(hs, p.request, p.pc.handoff);
    if !PlanFits(p.request) then Exit(s, pid)
    else if p.planPath in s.plans && s.plans[p.planPath] != plan then Exit(s, pid)
    else Exit(s.(plans := s.plans[p.planPath := plan],
                 reports := s.reports + [Report(pid, p.pc.handoff.material, p.pc.createdAt)]), pid)
  }

  function StepProc(hs: Hashes, s: State, pid: Pid, mint: Material, torn: bool): State
    requires pid in s.procs
  {
    var p := s.procs[pid];
    match p.pc
    case Waiting => if s.holder.Some? then s else At(s.(holder := Some(pid)), pid, Locked)
    case Locked => BindLock(s, pid, p, torn)
    case Timed(_) => LoadRow(hs, s, pid, p)
    case Loaded(_, _) => AcquireHandoff(hs, s, pid, p, mint)
    case Holding(_, _, _) => CheckMaterial(hs, s, pid, p)
    case Matched(_, _, _) => Commit(hs, s, pid, p)
    case Committed(_, _) => PublishReady(s, pid, p)
    case Readied(_, _) => PublishPlan(hs, s, pid, p)
  }

  function Apply(hs: Hashes, s: State, a: Action): State {
    match a
    case Begin(pid, request, handoffPath, planPath, now) =>
      if pid in s.procs || !TtlOk(request.expiresAt, now) then s
      else s.(procs := s.procs[pid := Proc(request, handoffPath, planPath, now, Waiting)])
    case Step(pid, mint, torn) => if pid in s.procs then StepProc(hs, s, pid, mint, torn) else s
    case Die(pid) => Exit(s, pid)
    case LoseHandoff(path) => s.(handoffs := s.handoffs - {path})
    case LosePlan(path) => s.(plans := s.plans - {path})
  }

  function Run(hs: Hashes, s: State, actions: seq<Action>): State
    decreases |actions|
  {
    if actions == [] then s else Run(hs, Apply(hs, s, actions[0]), actions[1..])
  }

  // ---- What every reachable state satisfies ----

  /** The row records exactly the material of the handoff it was committed with. */
  ghost predicate RowSound(hs: Hashes, s: State) {
    s.row.Some? ==>
      var r := s.row.value;
      && s.lock == Bound(r.handoffPath, r.planPath, r.createdAt)
      && s.source.Some? && s.source.value.ready
      && r == RowFor(hs, r.request, r.handoffPath, r.planPath, r.createdAt, s.source.value)
      && ValidHandoff(hs, s.source.value, r.request, r.createdAt)
      && TtlOk(r.request.expiresAt, r.createdAt) && Issuable(r.request)
  }

  /** Files sit only at the bound paths, and once a row exists they carry its material. */
  ghost predicate FilesSound(hs: Hashes, s: State) {
    && (forall q :: q in s.handoffs ==> s.lock.Bound? && q == s.lock.handoffPath)
    && (forall q :: q in s.plans ==> s.lock.Bound? && q == s.lock.planPath)
    && (forall q :: q in s.handoffs && s.row.Some? ==> Some(AsReady(s.handoffs[q])) == s.source)
    && (forall q :: q in s.handoffs && s.handoffs[q].ready ==> s.row.Some?)
    && (forall q :: q in s.plans ==> s.row.Some? && s.plans[q] == s.row.value.plan)
    && (forall m :: m in s.reports ==>
          && s.row.Some? && s.source.Some?
          && m.material == s.source.value.material && m.createdAt == s.row.value.createdAt)
  }

  /** What the lock holder knows at each point of its run. */
  ghost predicate HolderSound(hs: Hashes, s: State, p: Proc) {
    && (!p.pc.Waiting? && !p.pc.Locked? ==>
          && s.lock == Bound(p.handoffPath, p.planPath, p.pc.createdAt)
          && TtlOk(p.request.expiresAt, p.pc.createdAt))
    && (p.pc.Loaded? || p.pc.Holding? || p.pc.Matched? ==>
          p.pc.recovery == s.row && (s.row.Some? ==> MatchesRequest(hs, s.row.value, p)))
    && (p.pc.Holding? || p.pc.Matched? || p.pc.Committed? || p.pc.Readied? ==>
          && ValidHandoff(hs, p.pc.handoff, p.request, p.pc.createdAt)
          && (s.row.Some? ==> s.source == Some(AsReady(p.pc.handoff)))
          && (forall q :: q in s.handoffs ==> AsReady(s.handoffs[q]) == AsReady(p.pc.handoff)))
    && (p.pc.Matched? ==> PlanFits(p.request))
    && (p.pc.Committed? || p.pc.Readied? ==>
          s.row == Some(RowFor(hs, p.request, p.handoffPath, p.planPath, p.pc.createdAt, p.pc.handoff)))
  }

  ghost predicate Inv(hs: Hashes, s: State) {
    && RowSound(hs, s) && FilesSound(hs, s)
    && (s.row.None? ==> s.source.None?)
    && (s.holder.Some? ==> s.holder.value in s.procs && HolderSound(hs, s, s.procs[s.holder.value]))
    && (forall pid :: pid in s.procs ==> (s.procs[pid].pc.Waiting? <==> s.holder != Some(pid)))
  }

  lemma ExitKeeps(hs: Hashes, s: State, pid: Pid)
    requires Inv(hs, s)
    ensures Inv(hs, Exit(s, pid))
  {
  }

  lemma BindLockKeeps(hs: Hashes, s: State, pid: Pid, torn: bool)
    requires Inv(hs, s) && pid in s.procs && s.procs[pid].pc.Locked?
    ensures Inv(hs, BindLock(s, pid, s.procs[pid], torn))
  {
    hide RowFor, PlanFor;
  }

  lemma LoadRowKeeps(hs: Hashes, s: State, pid: Pid)
    requires Inv(hs, s) && pid in s.procs && s.procs[pid].pc.Timed?
    ensures Inv(hs, LoadRow(hs, s, pid, s.procs[pid]))
  {
    hide RowFor, PlanFor;
  }

  lemma AcquireHandoffKeeps(hs: Hashes, s: State, pid: Pid, mint: Material)
    requires Inv(hs, s) && pid in s.procs && s.procs[pid].pc.Loaded?
    ensures Inv(hs, AcquireHandoff(hs, s, pid, s.procs[pid], mint))
    ensures var t := AcquireHandoff(hs, s, pid, s.procs[pid], mint);
      t.minted == if s.procs[pid].handoffPath !in s.handoffs && s.row.None? then s.minted + [mint] else s.minted
  {
    hide RowFor, PlanFor;
  }

  lemma CheckMaterialKeeps(hs: Hashes, s: State, pid: Pid)
    requires Inv(hs, s) && pid in s.procs && s.procs[pid].pc.Holding?
    ensures Inv(hs, CheckMaterial(hs, s, pid, s.procs[pid]))
  {
    hide PlanFits, ValidHandoff, TtlOk;
  }

  /** A row is the same whether its handoff is ready or not. */
  lemma ReadyRow(hs: Hashes, request: Request, handoffPath: Path, planPath: Path, createdAt: int, h: Handoff)
    ensures var r := RowFor(hs, request, handoffPath, planPath, createdAt, h);
      && r == RowFor(hs, request, handoffPath, planPath, createdAt, AsReady(h))
      && r.request == request && r.handoffPath == handoffPath && r.planPath == planPath && r.createdAt == createdAt
    ensures ValidHandoff(hs, h, request, createdAt) ==> ValidHandoff(hs, AsReady(h), request, createdAt)
  {
  }

  lemma CommitKeeps(hs: Hashes, s: State, pid: Pid)
    requires Inv(hs, s) && pid in s.procs && s.procs[pid].pc.Matched?
    ensures Inv(hs, Commit(hs, s, pid, s.procs[pid]))
  {
    hide TtlOk, RowFor, ValidHandoff, Exit;
    var p := s.procs[pid];
    ExitKeeps(hs, s, pid);
    ReadyRow(hs, p.request, p.handoffPath, p.planPath, p.pc.createdAt, p.pc.handoff);
  }

  lemma PublishReadyKeeps(hs: Hashes, s: State, pid: Pid)
    requires Inv(hs, s) && pid in s.procs && s.procs[pid].pc.Committed?
    ensures Inv(hs, PublishReady(s, pid, s.procs[pid]))
  {
  }

  lemma PublishPlanKeeps(hs: Hashes, s: State, pid: Pid)
    requires Inv(hs, s) && pid in s.procs && s.procs[pid].pc.Readied?
    ensures Inv(hs, PublishPlan(hs, s, pid, s.procs[pid]))
  {
  }

  lemma TakeLockKeeps(hs: Hashes, s: State, pid: Pid)
    requires Inv(hs, s) && pid in s.procs && s.procs[pid].pc.Waiting?
    ensures s.holder.None? ==> Inv(hs, At(s.(holder := Some(pid)), pid, Locked))
  {
    hide RowFor, PlanFor;
  }

  lemma BeginKeeps(hs: Hashes, s: State, pid: Pid, p: Proc)
    requires Inv(hs, s) && pid !in s.procs && p.pc.Waiting?
    ensures Inv(hs, s.(procs := s.procs[pid := p]))
  {
    hide RowFor, PlanFor;
  }

  lemma LossKeeps(hs: Hashes, s: State, path: Path)
    requires Inv(hs, s)
    ensures Inv(hs, s.(handoffs := s.handoffs - {path})) && Inv(hs, s.(plans := s.plans - {path}))
  {
    hide RowFor, PlanFor;
  }

  lemma StepKeeps(hs: Hashes, s: State, pid: Pid, mint: Material, torn: bool)
    requires Inv(hs, s) && pid in s.procs
    ensures Inv(hs, StepProc(hs, s, pid, mint, torn))
  {
    hide Inv, BindLock, LoadRow, AcquireHandoff, CheckMaterial, Commit, PublishReady, PublishPlan;
    match s.procs[pid].pc
    case Waiting => TakeLockKeeps(hs, s, pid);
    case Locked => BindLockKeeps(hs, s, pid, torn);
    case Timed(_) => LoadRowKeeps(hs, s, pid);
    case Loaded(_, _) => AcquireHandoffKeeps(hs, s, pid, mint);
    case Holding(_, _, _) => CheckMaterialKeeps(hs, s, pid);
    case Matched(_, _, _) => CommitKeeps(hs, s, pid);
    case Committed(_, _) => PublishReadyKeeps(hs, s, pid);
    case Readied(_, _) => PublishPlanKeeps(hs, s, pid);
  }

  lemma ApplyKeeps(hs: Hashes, s: State, a: Action)
    requires Inv(hs, s)
    ensures Inv(hs, Apply(hs, s, a))
  {
    hide Inv, StepProc, Exit;
    match a
    case Begin(pid, request, handoffPath, planPath, now) =>
      if pid !in s.procs { BeginKeeps(hs, s, pid, Proc(request, handoffPath, planPath, now, Waiting)); }
    case Step(pid, mint, torn) =>
      if pid in s.procs { StepKeeps(hs, s, pid, mint, torn); }
    case Die(pid) => ExitKeeps(hs, s, pid);
    case LoseHandoff(path) => LossKeeps(hs, s, path);
    case LosePlan(path) => LossKeeps(hs, s, path);
  }

  lemma {:induction false} Reachable(hs: Hashes, s: State, actions: seq<Action>)
    requires Inv(hs, s)
    ensures Inv(hs, Run(hs, s, actions))
    decreases |actions|
  {
    if actions != [] {
      ApplyKeeps(hs, s, actions[0]);
      Reachable(hs, Apply(hs, s, actions[0]), actions[1..]);
    }
  }

  lemma InitSound(hs: Hashes)
    ensures Inv(hs, Init)
  {
  }

  // ---- The promises ----

  /** A committed row is final, and so are the bound paths and creation time; nothing is minted beside it. */
  ghost predicate Frozen(s: State, t: State) {
    s.row.Some? ==> t.row == s.row && t.source == s.source && t.minted == s.minted && t.lock == s.lock
  }

  lemma StepFreezes(hs: Hashes, s: State, a: Action)
    requires Inv(hs, s)
    ensures Frozen(s, Apply(hs, s, a))
  {
    hide RowFor, PlanFor;
  }

  lemma {:induction false} CommittedForever(hs: Hashes, s: State, actions: seq<Action>)
    requires Inv(hs, s)
    ensures Frozen(s, Run(hs, s, actions))
    decreases |actions|
  {
    if actions != [] {
      ApplyKeeps(hs, s, actions[0]);
      StepFreezes(hs, s, actions[0]);
      CommittedForever(hs, Apply(hs, s, actions[0]), actions[1..]);
    }
  }

  /**
  Single issue, over every history: a row once there stays the only one and stops all minting,
  and every run that ever reports success has handed out the same material and creation time.
  */
  lemma SingleIssue(hs: Hashes, before: seq<Action>, after: seq<Action>)
    ensures Frozen(Run(hs, Init, before), Run(hs, Run(hs, Init, before), after))
    ensures forall m, n :: m in Run(hs, Init, before).reports && n in Run(hs, Init, before).reports ==>
              m.material == n.material && m.createdAt == n.createdAt
  {
    InitSound(hs);
    Reachable(hs, Init, before);
    CommittedForever(hs, Run(hs, Init, before), after);
  }

  /** In every reachable state a ready handoff or a plan on disk is backed by a row with its digests. */
  lemma IssuanceOrdering(hs: Hashes, actions: seq<Action>, path: Path)
    ensures var s := Run(hs, Init, actions);
            path in s.handoffs && s.handoffs[path].ready ==>
              && s.row.Some?
              && s.row.value.handoffDigest == hs.handoff(s.handoffs[path])
              && s.row.value.tokenDigest == hs.token(s.handoffs[path].material.token)
              && s.row.value.bearerDigest == hs.bearer(s.handoffs[path].material.bearer)
    ensures var s := Run(hs, Init, actions);
            path in s.plans ==>
              && s.row.Some? && s.row.value.plan == s.plans[path]
              && s.row.value.planDigest == hs.plan(s.plans[path])
  {
    InitSound(hs);
    Reachable(hs, Init, actions);
    var s := Run(hs, Init, actions);
    if path in s.handoffs && s.handoffs[path].ready {
      assert AsReady(s.handoffs[path]) == s.handoffs[path];
    }
  }

  /**
  Past taking the handoff nothing but a crash stops a run, except the two bounds: a plan that is too
  large, and an expiry no enrollment takes.  The recorded digests always match.
  */
  lemma NeverRefused(hs: Hashes, s: State, pid: Pid, mint: Material, torn: bool)
    requires Inv(hs, s) && pid in s.procs
    requires s.procs[pid].pc.Holding? || s.procs[pid].pc.Matched? || s.procs[pid].pc.Committed? || s.procs[pid].pc.Readied?
    ensures var t, p := Apply(hs, s, Step(pid, mint, torn)), s.procs[pid];
      && Inv(hs, t)
      && (p.pc.Holding? ==> t == if PlanFits(p.request) then At(s, pid, Matched(p.pc.createdAt, p.pc.recovery, p.pc.handoff))
                                 else Exit(s, pid))
      && (p.pc.Matched? ==> if p.request.expiresAt <= MAX_SAFE_INTEGER
                            then pid in t.procs && t.procs[pid].pc.Committed? else t == Exit(s, pid))
      && (p.pc.Committed? ==> pid in t.procs && t.procs[pid].pc.Readied?)
      && (p.pc.Readied? ==> t.reports == s.reports + [Report(pid, p.pc.handoff.material, p.pc.createdAt)])
  {
    ApplyKeeps(hs, s, Step(pid, mint, torn));
  }

  /**
  Column by column, what a committed row records: digests of the request and of the plan, handoff
  and secrets it was committed with, their intent and expiry, and paths and creation time of the lock.
  */
  lemma RowRecords(hs: Hashes, actions: seq<Action>)
    ensures var s := Run(hs, Init, actions);
      s.row.Some? ==>
        && s.source.Some?
        && var r, m := s.row.value, s.source.value.material;
           && r.requestDigest == hs.request(r.request) && r.planDigest == hs.plan(r.plan)
           && r.handoffDigest == r.plan.handoffDigest == hs.handoff(s.source.value) && s.source.value.ready
           && r.tokenDigest == hs.token(m.token) && r.bearerDigest == hs.bearer(m.bearer) && r.tokenDigest != r.bearerDigest
           && r.plan.request == r.request && s.source.value.facts == r.request.facts
           && r.intent == m.intent == r.plan.intent
           && r.expiresAt == r.request.expiresAt == s.source.value.expiresAt
           && s.lock == Bound(r.handoffPath, r.planPath, r.createdAt) && r.createdAt >= 0
           && MIN_TTL <= r.expiresAt - r.createdAt <= MAX_TTL
  {
    hide Run;
    InitSound(hs);
    Reachable(hs, Init, actions);
    var s := Run(hs, Init, actions);
    if s.row.Some? {
      assert AsReady(s.source.value) == s.source.value;
    }
  }

  /** Whatever request a row is of, some process began with it, at these paths and within its window. */
  ghost predicate Asked(actions: seq<Action>, r: Request, handoffPath: Path, planPath: Path) {
    exists i :: && 0 <= i < |actions| && actions[i].Begin? && actions[i].request == r
                && actions[i].handoffPath == handoffPath && actions[i].planPath == planPath
                && TtlOk(r.expiresAt, actions[i].now)
  }

  ghost predicate AllAsked(actions: seq<Action>, s: State) {
    && (forall pid :: pid in s.procs ==> Asked(actions, s.procs[pid].request, s.procs[pid].handoffPath, s.procs[pid].planPath))
    && (s.row.Some? ==> Asked(actions, s.row.value.request, s.row.value.handoffPath, s.row.value.planPath))
  }

  lemma AskedOnce(actions: seq<Action>, more: seq<Action>, r: Request, handoffPath: Path, planPath: Path)
    requires Asked(actions, r, handoffPath, planPath)
    ensures Asked(actions + more, r, handoffPath, planPath)
  {
    var i :| && 0 <= i < |actions| && actions[i].Begin? && actions[i].request == r
             && actions[i].handoffPath == handoffPath && actions[i].planPath == planPath && TtlOk(r.expiresAt, actions[i].now);
    assert (actions + more)[i] == actions[i];
  }

  /** The processes are those there were, each with the request and paths it had. */
  ghost predicate SameAsks(s: State, t: State) {
    forall pid :: pid in t.procs ==> pid in s.procs && t.procs[pid].(pc := Waiting) == s.procs[pid].(pc := Waiting)
  }

  lemma MoveSameAsks(s: State, t: State, pid: Pid, pc: Pc)
    requires t.procs == s.procs
    ensures SameAsks(s, t) && SameAsks(s, Exit(t, pid)) && (pid in t.procs ==> SameAsks(s, At(t, pid, pc)))
    ensures Exit(t, pid).row == t.row && (pid in t.procs ==> At(t, pid, pc).row == t.row)
  {
  }

  lemma ProcSameAsks(hs: Hashes, s: State, pid: Pid, mint: Material, torn: bool)
    requires pid in s.procs
    ensures var t, p := StepProc(hs, s, pid, mint, torn), s.procs[pid];
      && SameAsks(s, t)
      && (t.row == s.row || (t.row.Some? && t.row.value.request == p.request
                             && t.row.value.handoffPath == p.handoffPath && t.row.value.planPath == p.planPath))
  {
    hide PlanFor, MatchesRequest, MatchesMaterial, ValidHandoff, PlanFits, TimesFit, TtlOk, At, Exit, SameAsks;
    var p := s.procs[pid];
    MoveSameAsks(s, s, pid, Waiting);
    match p.pc {
      case Waiting => MoveSameAsks(s, s.(holder := Some(pid)), pid, Locked);
      case Locked =>
        MoveSameAsks(s, s.(lock := Torn), pid, Waiting);
        MoveSameAsks(s, s.(lock := Bound(p.handoffPath, p.planPath, p.now)), pid, Timed(p.now));
        if s.lock.Bound? { MoveSameAsks(s, s, pid, Timed(s.lock.createdAt)); }
      case Timed(createdAt) => MoveSameAsks(s, s, pid, Loaded(createdAt, s.row));
      case Loaded(createdAt, recovery) =>
        var h := Handoff(false, p.request.facts, p.request.expiresAt, mint);
        var s1 := s.(handoffs := s.handoffs[p.handoffPath := h], minted := s.minted + [mint]);
        MoveSameAsks(s, s1, pid, Holding(createdAt, recovery, h));
        if p.handoffPath in s.handoffs { MoveSameAsks(s, s, pid, Holding(createdAt, recovery, s.handoffs[p.handoffPath])); }
      case Holding(createdAt, recovery, h) => MoveSameAsks(s, s, pid, Matched(createdAt, recovery, h));
      case Matched(createdAt, _, h) =>
        var row := RowFor(hs, p.request, p.handoffPath, p.planPath, createdAt, h);
        MoveSameAsks(s, s, pid, Committed(createdAt, h));
        MoveSameAsks(s, s.(row := Some(row), source := Some(AsReady(h))), pid, Committed(createdAt, h));
      case Committed(createdAt, h) =>
        MoveSameAsks(s, s.(handoffs := s.handoffs[p.handoffPath := AsReady(h)]), pid, Readied(createdAt, h));
      case Readied(createdAt, h) =>
        MoveSameAsks(s, s.(plans := s.plans[p.planPath := PlanFor(hs, p.request, h)],
                           reports := s.reports + [Report(pid, h.material, createdAt)]), pid, Waiting);
    }
  }

  /** A step brings in no request but the one it begins. */
  lemma StepBringsNone(hs: Hashes, s: State, a: Action)
    ensures var t := Apply(hs, s, a);
      && (forall pid :: pid in t.procs ==>
            || (pid in s.procs && t.procs[pid].(pc := Waiting) == s.procs[pid].(pc := Waiting))
            || (a.Begin? && t.procs[pid] == Proc(a.request, a.handoffPath, a.planPath, a.now, Waiting)
                && TtlOk(a.request.expiresAt, a.now)))
      && (t.row != s.row ==> a.Step? && a.pid in s.procs && t.row.Some? && t.row.value.request == s.procs[a.pid].request
                             && t.row.value.handoffPath == s.procs[a.pid].handoffPath && t.row.value.planPath == s.procs[a.pid].planPath)
  {
    hide StepProc, TtlOk;
    if a.Step? && a.pid in s.procs {
      ProcSameAsks(hs, s, a.pid, a.mint, a.torn);
    }
  }

  lemma {:induction false} RequestsAreAsked(hs: Hashes, actions: seq<Action>)
    ensures AllAsked(actions, Run(hs, Init, actions))
    decreases |actions|
  {
    hide Apply, Asked;
    if actions != [] {
      var front, last := actions[..|actions| - 1], actions[|actions| - 1];
      RequestsAreAsked(hs, front);
      assert actions == front + [last];
      RunOn(hs, Init, front, [last]);
      var s := Run(hs, Init, front);
      assert Run(hs, s, [last]) == Apply(hs, s, last) by { assert [last][1..] == []; }
      StepBringsNone(hs, s, last);
      var t := Apply(hs, s, last);
      forall pid | pid in t.procs
        ensures Asked(actions, t.procs[pid].request, t.procs[pid].handoffPath, t.procs[pid].planPath)
      {
        if pid in s.procs && t.procs[pid].(pc := Waiting) == s.procs[pid].(pc := Waiting) {
          AskedOnce(front, [last], s.procs[pid].request, s.procs[pid].handoffPath, s.procs[pid].planPath);
        } else {
          AskedLast(actions);
        }
      }
      if t.row.Some? {
        if t.row == s.row {
          AskedOnce(front, [last], s.row.value.request, s.row.value.handoffPath, s.row.value.planPath);
        } else {
          var p := s.procs[last.pid];
          AskedOnce(front, [last], p.request, p.handoffPath, p.planPath);
        }
      }
    }
  }

  lemma AskedLast(actions: seq<Action>)
    requires actions != [] && actions[|actions| - 1].Begin?
    ensures var a := actions[|actions| - 1];
      TtlOk(a.request.expiresAt, a.now) ==> Asked(actions, a.request, a.handoffPath, a.planPath)
  {
  }

  // ---- One undisturbed run ----

  function Steps(hs: Hashes, s: State, pid: Pid, mint: Material, n: nat): State {
    if n == 0 then s else Apply(hs, Steps(hs, s, pid, mint, n - 1), Step(pid, mint, false))
  }

  /** Eight steps of a run that begins in `s`, nobody else moving. */
  function Undisturbed(hs: Hashes, s: State, pid: Pid, p: Proc, mint: Material): State {
    Steps(hs, Apply(hs, s, Begin(pid, p.request, p.handoffPath, p.planPath, p.now)), pid, mint, 8)
  }

  function CreatedAt(s: State, p: Proc): int {
    if s.lock.Bound? then s.lock.createdAt else p.now
  }

  predicate LockFits(s: State, p: Proc) {
    && !s.lock.Torn?
    && (s.lock.Bound? ==> s.lock.handoffPath == p.handoffPath && s.lock.planPath == p.planPath)
    && TtlOk(p.request.expiresAt, CreatedAt(s, p))
  }

  predicate RowFits(s: State, p: Proc) {
    s.row.Some? ==> s.row.value.request == p.request
  }

  /** The handoff on disk, or one of fresh material. */
  function HandoffOf(s: State, p: Proc, mint: Material): Handoff {
    if p.handoffPath in s.handoffs then s.handoffs[p.handoffPath]
    else Handoff(false, p.request.facts, p.request.expiresAt, mint)
  }

  /** With a row the file must be there; without one, the file decides if there is one and the fresh material otherwise. */
  predicate HandoffFits(hs: Hashes, s: State, p: Proc, mint: Material) {
    if s.row.Some? then p.handoffPath in s.handoffs
    else ValidHandoff(hs, HandoffOf(s, p, mint), p.request, CreatedAt(s, p))
  }

  /**
  What a caller can check beforehand: its own time window, size and expiry of its request, the lock
  file, the row and the handoff file.
  */
  predicate Retryable(hs: Hashes, s: State, p: Proc, mint: Material) {
    && TtlOk(p.request.expiresAt, p.now) && Issuable(p.request)
    && LockFits(s, p) && RowFits(s, p) && HandoffFits(hs, s, p, mint)
  }

  /** The run gets as far as minting: every earlier check passes, and there is neither row nor handoff. */
  predicate Mints(s: State, p: Proc) {
    TtlOk(p.request.expiresAt, p.now) && LockFits(s, p) && s.row.None? && p.handoffPath !in s.handoffs
  }

  /** The lock file is bound by the first run that gets to it. */
  function Bind(s: State, p: Proc): State {
    if s.lock.Empty? && TtlOk(p.request.expiresAt, p.now) then s.(lock := Bound(p.handoffPath, p.planPath, p.now)) else s
  }

  /** All that a refused run leaves: the binding of an empty lock file, and a handoff it minted. */
  function Refused(s: State, p: Proc, mint: Material): State {
    var t := Bind(s, p);
    if Mints(s, p)
    then t.(handoffs := t.handoffs[p.handoffPath := HandoffOf(s, p, mint)], minted := t.minted + [mint])
    else t
  }

  /** What a run that succeeds leaves beyond that: the row, the ready handoff, the plan and its report. */
  function Issued(hs: Hashes, s: State, pid: Pid, p: Proc, mint: Material): State {
    var t, h := Refused(s, p, mint), HandoffOf(s, p, mint);
    var row := RowFor(hs, p.request, p.handoffPath, p.planPath, CreatedAt(s, p), h);
    t.(row := Some(row), source := Some(AsReady(h)),
       handoffs := t.handoffs[p.handoffPath := AsReady(h)], plans := t.plans[p.planPath := row.plan],
       reports := t.reports + [Report(pid, h.material, CreatedAt(s, p))])
  }

  ghost predicate Completed(t: State, request: Request, handoffPath: Path, planPath: Path) {
    && t.row.Some? && t.row.value.request == request && t.source.Some?
    && handoffPath in t.handoffs && t.handoffs[handoffPath].ready && t.handoffs[handoffPath] == t.source.value
    && planPath in t.plans && t.plans[planPath] == t.row.value.plan
    && t.holder.None?
  }

  lemma GoneDoesNothing(hs: Hashes, s: State, pid: Pid, mint: Material)
    requires pid !in s.procs
    ensures Apply(hs, s, Step(pid, mint, false)) == s
  {
  }

  lemma {:induction false} GoneStaysGone(hs: Hashes, s: State, pid: Pid, mint: Material, n: nat, m: nat)
    requires n <= m && pid !in Steps(hs, s, pid, mint, n).procs
    ensures Steps(hs, s, pid, mint, m) == Steps(hs, s, pid, mint, n)
  {
    hide Apply;
    if n < m {
      GoneStaysGone(hs, s, pid, mint, n, m - 1);
      GoneDoesNothing(hs, Steps(hs, s, pid, mint, n), pid, mint);
    }
  }

  /** `s` with this process in it, holding the lock. */
  function Busy(s: State, pid: Pid, p: Proc, pc: Pc): State {
    s.(holder := Some(pid), procs := s.procs[pid := p.(pc := pc)])
  }

  function Next(hs: Hashes, s: State, pid: Pid, mint: Material): State {
    Apply(hs, s, Step(pid, mint, false))
  }

  /** Nobody holds the lock and the process is new. */
  ghost predicate Calm(hs: Hashes, s: State, pid: Pid) {
    Inv(hs, s) && s.holder.None? && pid !in s.procs
  }

  lemma MovesOn(s: State, pid: Pid, p: Proc, pc: Pc, to: Pc)
    requires s.holder.None? && pid !in s.procs
    ensures At(Busy(s, pid, p, pc), pid, to) == Busy(s, pid, p, to)
    ensures Exit(Busy(s, pid, p, pc), pid) == s
  {
    assert s.procs[pid := p.(pc := pc)][pid := p.(pc := to)] == s.procs[pid := p.(pc := to)];
    assert s.procs[pid := p.(pc := pc)] - {pid} == s.procs;
  }

  lemma TakesLock(hs: Hashes, s: State, pid: Pid, p: Proc, mint: Material)
    requires Calm(hs, s, pid)
    ensures Next(hs, s.(procs := s.procs[pid := p.(pc := Waiting)]), pid, mint) == Busy(s, pid, p, Locked)
  {
    assert s.procs[pid := p.(pc := Waiting)][pid := p.(pc := Locked)] == s.procs[pid := p.(pc := Locked)];
  }

  lemma BindsLock(hs: Hashes, s: State, pid: Pid, p: Proc, mint: Material)
    requires Calm(hs, s, pid) && TtlOk(p.request.expiresAt, p.now)
    ensures Next(hs, Busy(s, pid, p, Locked), pid, mint) ==
      if LockFits(s, p) then Busy(Bind(s, p), pid, p, Timed(CreatedAt(s, p))) else Bind(s, p)
  {
    hide At, Exit, Inv;
    var to := Timed(CreatedAt(s, p));
    MovesOn(s, pid, p, Locked, to);
    MovesOn(Bind(s, p), pid, p, Locked, to);
    assert Busy(Bind(s, p), pid, p, Locked) == Busy(s, pid, p, Locked).(lock := Bind(s, p).lock);
  }

  lemma LoadsRow(hs: Hashes, s: State, pid: Pid, p: Proc, mint: Material)
    requires Calm(hs, s, pid) && s.lock.Bound? && s.lock.handoffPath == p.handoffPath && s.lock.planPath == p.planPath
    ensures Next(hs, Busy(s, pid, p, Timed(s.lock.createdAt)), pid, mint) ==
      if RowFits(s, p) then Busy(s, pid, p, Loaded(s.lock.createdAt, s.row)) else s
  {
    hide At, Exit;
    MovesOn(s, pid, p, Timed(s.lock.createdAt), Loaded(s.lock.createdAt, s.row));
  }

  lemma TakesHandoff(hs: Hashes, s: State, pid: Pid, p: Proc, mint: Material)
    requires Calm(hs, s, pid) && LockFits(s, p) && s.lock.Bound? && RowFits(s, p) && TtlOk(p.request.expiresAt, p.now)
    ensures Next(hs, Busy(s, pid, p, Loaded(s.lock.createdAt, s.row)), pid, mint) ==
      if HandoffFits(hs, s, p, mint)
      then Busy(Refused(s, p, mint), pid, p, Holding(s.lock.createdAt, s.row, HandoffOf(s, p, mint)))
      else Refused(s, p, mint)
  {
    hide At, Exit, RowFor, PlanFor;
    var from, to := Loaded(s.lock.createdAt, s.row), Holding(s.lock.createdAt, s.row, HandoffOf(s, p, mint));
    MovesOn(s, pid, p, from, to);
    var t := Refused(s, p, mint);
    MovesOn(t, pid, p, from, to);
    assert Busy(t, pid, p, from) == Busy(s, pid, p, from).(handoffs := t.handoffs, minted := t.minted);
  }

  lemma Finishes(hs: Hashes, s: State, pid: Pid, p: Proc, mint: Material, h: Handoff)
    requires s.holder.None? && pid !in s.procs && s.lock.Bound? && Issuable(p.request)
    requires Inv(hs, Busy(s, pid, p, Holding(s.lock.createdAt, s.row, h)))
    ensures var row := RowFor(hs, p.request, p.handoffPath, p.planPath, s.lock.createdAt, h);
      Steps(hs, Busy(s, pid, p, Holding(s.lock.createdAt, s.row, h)), pid, mint, 4) ==
        s.(row := Some(row), source := Some(AsReady(h)),
           handoffs := s.handoffs[p.handoffPath := AsReady(h)], plans := s.plans[p.planPath := row.plan],
           reports := s.reports + [Report(pid, h.material, s.lock.createdAt)])
  {
    hide At, Exit, Inv, RowFor, PlanFor, Apply;
    var created := s.lock.createdAt;
    var row := RowFor(hs, p.request, p.handoffPath, p.planPath, created, h);
    var b0 := Busy(s, pid, p, Holding(created, s.row, h));
    Checked(hs, s, pid, p, mint, h);
    var b1 := Next(hs, b0, pid, mint);
    Commits(hs, s, pid, p, mint, h);
    var b2 := Next(hs, b1, pid, mint);
    var s2 := s.(row := Some(row), source := Some(AsReady(h)));
    Readies(hs, s2, pid, p, mint, h);
    var b3 := Next(hs, b2, pid, mint);
    var s3 := s2.(handoffs := s2.handoffs[p.handoffPath := AsReady(h)]);
    Publishes(hs, s3, pid, p, mint, h);
    assert Steps(hs, b0, pid, mint, 0) == b0;
    assert Steps(hs, b0, pid, mint, 1) == b1;
    assert Steps(hs, b0, pid, mint, 2) == b2;
    assert Steps(hs, b0, pid, mint, 3) == b3;
    PlanOfRow(hs, p, created, h);
  }

  /** A request that is not issuable stops here, and nothing has changed since the handoff was taken. */
  lemma Stops(hs: Hashes, s: State, pid: Pid, p: Proc, mint: Material, h: Handoff)
    requires s.holder.None? && pid !in s.procs && s.lock.Bound? && !Issuable(p.request)
    requires Inv(hs, Busy(s, pid, p, Holding(s.lock.createdAt, s.row, h)))
    ensures Steps(hs, Busy(s, pid, p, Holding(s.lock.createdAt, s.row, h)), pid, mint, 4) == s
  {
    hide At, Exit, Inv, RowFor, PlanFor, Apply;
    var holding, matched := Holding(s.lock.createdAt, s.row, h), Matched(s.lock.createdAt, s.row, h);
    var b0 := Busy(s, pid, p, holding);
    NeverRefused(hs, b0, pid, mint, false);
    MovesOn(s, pid, p, holding, matched);
    assert Steps(hs, b0, pid, mint, 0) == b0;
    var b1 := Next(hs, b0, pid, mint);
    assert Steps(hs, b0, pid, mint, 1) == b1;
    if PlanFits(p.request) {
      assert b1 == Busy(s, pid, p, matched);
      NeverRefused(hs, b1, pid, mint, false);
      MovesOn(s, pid, p, matched, matched);
      assert Steps(hs, b0, pid, mint, 2) == Next(hs, b1, pid, mint) == s;
      GoneStaysGone(hs, b0, pid, mint, 2, 4);
    } else {
      assert b1 == s;
      GoneStaysGone(hs, b0, pid, mint, 1, 4);
    }
  }

  lemma PlanOfRow(hs: Hashes, p: Proc, createdAt: int, h: Handoff)
    ensures RowFor(hs, p.request, p.handoffPath, p.planPath, createdAt, h).plan == PlanFor(hs, p.request, h)
  {
  }

  lemma Checked(hs: Hashes, s: State, pid: Pid, p: Proc, mint: Material, h: Handoff)
    requires s.holder.None? && pid !in s.procs && s.lock.Bound? && PlanFits(p.request)
    requires Inv(hs, Busy(s, pid, p, Holding(s.lock.createdAt, s.row, h)))
    ensures Next(hs, Busy(s, pid, p, Holding(s.lock.createdAt, s.row, h)), pid, mint) ==
      Busy(s, pid, p, Matched(s.lock.createdAt, s.row, h))
    ensures Inv(hs, Busy(s, pid, p, Matched(s.lock.createdAt, s.row, h)))
  {
    hide At, Exit, RowFor, PlanFor, Inv;
    var b := Busy(s, pid, p, Holding(s.lock.createdAt, s.row, h));
    NeverRefused(hs, b, pid, mint, false);
    MovesOn(s, pid, p, Holding(s.lock.createdAt, s.row, h), Matched(s.lock.createdAt, s.row, h));
  }

  lemma Commits(hs: Hashes, s: State, pid: Pid, p: Proc, mint: Material, h: Handoff)
    requires s.holder.None? && pid !in s.procs && s.lock.Bound? && Issuable(p.request)
    requires Inv(hs, Busy(s, pid, p, Matched(s.lock.createdAt, s.row, h)))
    ensures var row := RowFor(hs, p.request, p.handoffPath, p.planPath, s.lock.createdAt, h);
      var t := Busy(s.(row := Some(row), source := Some(AsReady(h))), pid, p, Committed(s.lock.createdAt, h));
      Next(hs, Busy(s, pid, p, Matched(s.lock.createdAt, s.row, h)), pid, mint) == t && Inv(hs, t)
  {
    var created := s.lock.createdAt;
    var row := RowFor(hs, p.request, p.handoffPath, p.planPath, created, h);
    var b := Busy(s, pid, p, Matched(created, s.row, h));
    hide At, Exit, RowFor, PlanFor;
    ApplyKeeps(hs, b, Step(pid, mint, false));
    NeverRefused(hs, b, pid, mint, false);
    MovesOn(s, pid, p, Matched(created, s.row, h), Committed(created, h));
    var s1 := s.(row := Some(row), source := Some(AsReady(h)));
    MovesOn(s1, pid, p, Matched(created, s.row, h), Committed(created, h));
    assert Busy(s1, pid, p, Matched(created, s.row, h)) == b.(row := Some(row), source := Some(AsReady(h)));
  }

  lemma Readies(hs: Hashes, s: State, pid: Pid, p: Proc, mint: Material, h: Handoff)
    requires s.holder.None? && pid !in s.procs && s.lock.Bound?
    requires Inv(hs, Busy(s, pid, p, Committed(s.lock.createdAt, h)))
    ensures var t := Busy(s.(handoffs := s.handoffs[p.handoffPath := AsReady(h)]), pid, p, Readied(s.lock.createdAt, h));
      Next(hs, Busy(s, pid, p, Committed(s.lock.createdAt, h)), pid, mint) == t && Inv(hs, t)
  {
    hide At, Exit, RowFor, PlanFor, Inv;
    var b := Busy(s, pid, p, Committed(s.lock.createdAt, h));
    NeverRefused(hs, b, pid, mint, false);
    var s1 := s.(handoffs := s.handoffs[p.handoffPath := AsReady(h)]);
    MovesOn(s1, pid, p, Committed(s.lock.createdAt, h), Readied(s.lock.createdAt, h));
    assert Busy(s1, pid, p, Committed(s.lock.createdAt, h)) == b.(handoffs := s1.handoffs);
  }

  lemma Publishes(hs: Hashes, s: State, pid: Pid, p: Proc, mint: Material, h: Handoff)
    requires s.holder.None? && pid !in s.procs && s.lock.Bound?
    requires Inv(hs, Busy(s, pid, p, Readied(s.lock.createdAt, h)))
    ensures Next(hs, Busy(s, pid, p, Readied(s.lock.createdAt, h)), pid, mint) ==
      s.(plans := s.plans[p.planPath := PlanFor(hs, p.request, h)],
         reports := s.reports + [Report(pid, h.material, s.lock.createdAt)])
  {
    hide At, Exit, RowFor, PlanFor, Inv;
    var b := Busy(s, pid, p, Readied(s.lock.createdAt, h));
    NeverRefused(hs, b, pid, mint, false);
    var s1 := s.(plans := s.plans[p.planPath := PlanFor(hs, p.request, h)],
                 reports := s.reports + [Report(pid, h.material, s.lock.createdAt)]);
    MovesOn(s, pid, p, b.procs[pid].pc, Waiting);
    MovesOn(s1, pid, p, b.procs[pid].pc, Waiting);
    assert Busy(s1, pid, p, b.procs[pid].pc) == b.(plans := s1.plans, reports := s1.reports);
  }

  lemma {:induction false} StepsOn(hs: Hashes, s: State, pid: Pid, mint: Material, m: nat, n: nat)
    ensures Steps(hs, s, pid, mint, m + n) == Steps(hs, Steps(hs, s, pid, mint, m), pid, mint, n)
    decreases n
  {
    hide Apply;
    if n > 0 {
      StepsOn(hs, s, pid, mint, m, n - 1);
    }
  }

  lemma {:induction false} StepsKeep(hs: Hashes, s: State, pid: Pid, mint: Material, n: nat)
    requires Inv(hs, s)
    ensures Inv(hs, Steps(hs, s, pid, mint, n))
  {
    hide Inv, Apply;
    if n > 0 {
      StepsKeep(hs, s, pid, mint, n - 1);
      ApplyKeeps(hs, Steps(hs, s, pid, mint, n - 1), Step(pid, mint, false));
    }
  }

  lemma CalmAgain(hs: Hashes, s: State, pid: Pid, p: Proc, pc: Pc)
    requires Inv(hs, Busy(s, pid, p, pc)) && s.holder.None? && pid !in s.procs
    ensures Calm(hs, s, pid)
  {
    ExitKeeps(hs, Busy(s, pid, p, pc), pid);
    MovesOn(s, pid, p, pc, Waiting);
  }

  lemma BoundRun(hs: Hashes, s: State, pid: Pid, p: Proc, mint: Material)
    requires Calm(hs, s, pid) && LockFits(s, p) && s.lock.Bound? && TtlOk(p.request.expiresAt, p.now)
    requires Inv(hs, Busy(s, pid, p, Timed(s.lock.createdAt)))
    ensures Steps(hs, Busy(s, pid, p, Timed(s.lock.createdAt)), pid, mint, 6) ==
      if RowFits(s, p) && HandoffFits(hs, s, p, mint) && Issuable(p.request) then Issued(hs, s, pid, p, mint)
      else if RowFits(s, p) then Refused(s, p, mint) else s
  {
    hide Apply, Inv, HandoffFits, Busy, RowFor, PlanFor;
    var created := s.lock.createdAt;
    var b := Busy(s, pid, p, Timed(created));
    assert Steps(hs, b, pid, mint, 0) == b;
    LoadsRow(hs, s, pid, p, mint);
    var b1 := Next(hs, b, pid, mint);
    assert Steps(hs, b, pid, mint, 1) == b1;
    if RowFits(s, p) {
      TakesHandoff(hs, s, pid, p, mint);
      var b2 := Next(hs, b1, pid, mint);
      assert Steps(hs, b, pid, mint, 2) == b2;
      StepsKeep(hs, b, pid, mint, 2);
      if HandoffFits(hs, s, p, mint) {
        StepsOn(hs, b, pid, mint, 2, 4);
        if Issuable(p.request) {
          Finishes(hs, Refused(s, p, mint), pid, p, mint, HandoffOf(s, p, mint));
        } else {
          Stops(hs, Refused(s, p, mint), pid, p, mint, HandoffOf(s, p, mint));
        }
      } else {
        GoneStaysGone(hs, b, pid, mint, 2, 6);
      }
    } else {
      GoneStaysGone(hs, b, pid, mint, 1, 6);
    }
  }

  /**
  Started where nobody holds the lock and left alone, a run ends in exactly one of two ways.  If and
  only if it is retryable it reports, and row, ready handoff and plan are in place.  Otherwise it may
  leave the lock file bound and a handoff of fresh material behind, and nothing else is changed.
  */
  lemma UndisturbedRun(hs: Hashes, s: State, pid: Pid, p: Proc, mint: Material)
    requires Calm(hs, s, pid)
    ensures var t := Undisturbed(hs, s, pid, p, mint);
      && Inv(hs, t)
      && (Retryable(hs, s, p, mint) <==> t.reports != s.reports)
      && (Retryable(hs, s, p, mint) ==> t == Issued(hs, s, pid, p, mint) && Completed(t, p.request, p.handoffPath, p.planPath))
      && (!Retryable(hs, s, p, mint) ==> t == Refused(s, p, mint))
  {
    hide Apply, Inv, HandoffFits, Busy, RowFor, PlanFor;
    var s0 := Apply(hs, s, Begin(pid, p.request, p.handoffPath, p.planPath, p.now));
    assert Steps(hs, s0, pid, mint, 0) == s0;
    ApplyKeeps(hs, s, Begin(pid, p.request, p.handoffPath, p.planPath, p.now));
    StepsKeep(hs, s0, pid, mint, 8);
    Begins(hs, s, pid, p);
    if TtlOk(p.request.expiresAt, p.now) {
      TakesLock(hs, s, pid, p, mint);
      assert Steps(hs, s0, pid, mint, 1) == Busy(s, pid, p, Locked);
      BindsLock(hs, s, pid, p, mint);
      var b := Next(hs, Busy(s, pid, p, Locked), pid, mint);
      assert Steps(hs, s0, pid, mint, 2) == b;
      StepsKeep(hs, s0, pid, mint, 2);
      if LockFits(s, p) {
        StepsOn(hs, s0, pid, mint, 2, 6);
        CalmAgain(hs, Bind(s, p), pid, p, Timed(CreatedAt(s, p)));
        BoundRun(hs, Bind(s, p), pid, p, mint);
        BindingAlone(hs, s, p, mint);
        IssuedIsComplete(hs, s, pid, p, mint);
      } else {
        GoneStaysGone(hs, s0, pid, mint, 2, 8);
      }
    } else {
      GoneStaysGone(hs, s0, pid, mint, 0, 8);
    }
  }

  lemma Begins(hs: Hashes, s: State, pid: Pid, p: Proc)
    requires pid !in s.procs
    ensures Apply(hs, s, Begin(pid, p.request, p.handoffPath, p.planPath, p.now)) ==
      if TtlOk(p.request.expiresAt, p.now) then s.(procs := s.procs[pid := p.(pc := Waiting)]) else s
  {
  }

  lemma IssuedIsComplete(hs: Hashes, s: State, pid: Pid, p: Proc, mint: Material)
    requires s.holder.None?
    ensures Completed(Issued(hs, s, pid, p, mint), p.request, p.handoffPath, p.planPath)
  {
  }

  /** Binding the lock changes none of the later answers. */
  lemma BindingAlone(hs: Hashes, s: State, p: Proc, mint: Material)
    requires TtlOk(p.request.expiresAt, p.now) && LockFits(s, p)
    ensures var b := Bind(s, p);
      && b.lock.Bound? && LockFits(b, p) && CreatedAt(b, p) == CreatedAt(s, p) && Bind(b, p) == b
      && (HandoffFits(hs, b, p, mint) <==> HandoffFits(hs, s, p, mint))
  {
  }

  /** The exact request, retried within its window while lock and handoff survive, always completes. */
  lemma ExactRetry(hs: Hashes, s: State, pid: Pid, p: Proc, mint: Material)
    requires Calm(hs, s, pid)
    requires s.row.Some? && p.request == s.row.value.request && TtlOk(p.request.expiresAt, p.now)
    requires p.handoffPath == s.row.value.handoffPath && p.planPath == s.row.value.planPath
    requires p.handoffPath in s.handoffs
    ensures var t := Undisturbed(hs, s, pid, p, mint);
      && Completed(t, p.request, p.handoffPath, p.planPath) && t.row == s.row && t.minted == s.minted
      && t.reports == s.reports + [Report(pid, s.source.value.material, s.row.value.createdAt)]
  {
    UndisturbedRun(hs, s, pid, p, mint);
    hide Undisturbed, RowFor, PlanFor;
    StepsFreeze(hs, s, pid, p, mint);
    assert AsReady(HandoffOf(s, p, mint)) == s.source.value;
  }

  lemma StepsFreeze(hs: Hashes, s: State, pid: Pid, p: Proc, mint: Material)
    requires Inv(hs, s)
    ensures Frozen(s, Undisturbed(hs, s, pid, p, mint))
  {
    hide Inv, Apply, RowFor, PlanFor;
    var s0 := Apply(hs, s, Begin(pid, p.request, p.handoffPath, p.planPath, p.now));
    StepFreezes(hs, s, Begin(pid, p.request, p.handoffPath, p.planPath, p.now));
    ApplyKeeps(hs, s, Begin(pid, p.request, p.handoffPath, p.planPath, p.now));
    var n := 0;
    while n < 8
      invariant n <= 8 && Inv(hs, Steps(hs, s0, pid, mint, n)) && Frozen(s, Steps(hs, s0, pid, mint, n))
    {
      StepFreezes(hs, Steps(hs, s0, pid, mint, n), Step(pid, mint, false));
      ApplyKeeps(hs, Steps(hs, s0, pid, mint, n), Step(pid, mint, false));
      n := n + 1;
    }
  }

  // ---- An undisturbed run is a history ----

  /** Beginning and eight steps. */
  function OneRun(pid: Pid, p: Proc, mint: Material): seq<Action> {
    [Begin(pid, p.request, p.handoffPath, p.planPath, p.now)] + seq(8, _ => Step(pid, mint, false))
  }

  lemma {:induction false} RunOn(hs: Hashes, s: State, a: seq<Action>, b: seq<Action>)
    ensures Run(hs, s, a + b) == Run(hs, Run(hs, s, a), b)
    decreases |a|
  {
    hide Apply;
    if a == [] {
      assert a + b == b;
    } else {
      RunOn(hs, Apply(hs, s, a[0]), a[1..], b);
      assert (a + b)[1..] == a[1..] + b;
    }
  }

  lemma {:induction false} StepsAreRun(hs: Hashes, s: State, pid: Pid, mint: Material, n: nat)
    ensures Steps(hs, s, pid, mint, n) == Run(hs, s, seq(n, _ => Step(pid, mint, false)))
  {
    hide Apply;
    if n > 0 {
      StepsAreRun(hs, s, pid, mint, n - 1);
      var front, last := seq(n - 1, _ => Step(pid, mint, false)), Step(pid, mint, false);
      assert seq(n, _ => Step(pid, mint, false)) == front + [last];
      RunOn(hs, s, front, [last]);
      assert Run(hs, Run(hs, s, front), [last]) == Apply(hs, Run(hs, s, front), last) by {
        assert [last][1..] == [];
      }
    }
  }

  lemma UndisturbedIsRun(hs: Hashes, s: State, pid: Pid, p: Proc, mint: Material)
    ensures Undisturbed(hs, s, pid, p, mint) == Run(hs, s, OneRun(pid, p, mint))
  {
    hide Apply;
    var begin := Begin(pid, p.request, p.handoffPath, p.planPath, p.now);
    StepsAreRun(hs, Apply(hs, s, begin), pid, mint, 8);
    assert OneRun(pid, p, mint)[1..] == seq(8, _ => Step(pid, mint, false));
  }

  // ---- The torn lock ----

  lemma ReportedIsCommitted(hs: Hashes, s: State)
    requires Inv(hs, s) && s.reports != []
    ensures s.row.Some?
  {
    assert s.reports[0] in s.reports;
  }

  /** A first lock write cut short is never repaired: the operation stays refused for good. */
  lemma {:induction false} TornForever(hs: Hashes, s: State, actions: seq<Action>)
    requires Inv(hs, s) && s.lock.Torn?
    ensures var t := Run(hs, s, actions); t.lock.Torn? && t.row.None? && t.reports == []
    decreases |actions|
  {
    if actions == [] {
      assert s.row.None?;
      if s.reports != [] { ReportedIsCommitted(hs, s); }
    } else {
      ApplyKeeps(hs, s, actions[0]);
      TornForever(hs, Apply(hs, s, actions[0]), actions[1..]);
    }
  }

  /** And it happens: any first run can tear the lock with its second step, after which nothing is ever issued. */
  lemma FirstRunTears(hs: Hashes, pid: Pid, p: Proc, mint: Material, actions: seq<Action>)
    requires TtlOk(p.request.expiresAt, p.now)
    ensures var torn := [Begin(pid, p.request, p.handoffPath, p.planPath, p.now), Step(pid, mint, false), Step(pid, mint, true)];
      var t := Run(hs, Init, torn + actions); t.lock.Torn? && t.row.None? && t.reports == []
  {
    var torn := [Begin(pid, p.request, p.handoffPath, p.planPath, p.now), Step(pid, mint, false), Step(pid, mint, true)];
    var s1 := Apply(hs, Init, torn[0]);
    var s2 := Apply(hs, s1, torn[1]);
    var s3 := Apply(hs, s2, torn[2]);
    assert s3.lock.Torn?;
    InitSound(hs);
    ApplyKeeps(hs, Init, torn[0]);
    ApplyKeeps(hs, s1, torn[1]);
    ApplyKeeps(hs, s2, torn[2]);
    TornForever(hs, s3, actions);
    var all := torn + actions;
    assert all[1..][1..][1..] == actions && all[0] == torn[0] && all[1..][0] == torn[1] && all[1..][1..][0] == torn[2];
    assert Run(hs, Init, all) == Run(hs, s1, all[1..]) == Run(hs, s2, all[1..][1..]) == Run(hs, s3, actions);
  }

  // ---- Requests that cannot be issued ----

  /** What is committed, let alone reported, has a plan that fits and a safe expiry. */
  lemma CommittedIsIssuable(hs: Hashes, actions: seq<Action>)
    ensures var s := Run(hs, Init, actions);
      && (s.reports != [] ==> s.row.Some?)
      && (s.row.Some? ==> Issuable(s.row.value.request) && TtlOk(s.row.value.request.expiresAt, s.row.value.createdAt))
  {
    hide Run;
    InitSound(hs);
    Reachable(hs, Init, actions);
    var s := Run(hs, Init, actions);
    if s.reports != [] {
      ReportedIsCommitted(hs, s);
    }
  }

  /** Nobody asks for anything but this request. */
  predicate OnlyFor(actions: seq<Action>, request: Request) {
    forall i :: 0 <= i < |actions| && actions[i].Begin? ==> actions[i].request == request
  }

  ghost predicate Unissued(s: State, request: Request) {
    s.row.None? && forall pid :: pid in s.procs ==> s.procs[pid].request == request
  }

  lemma StepLeavesUnissued(hs: Hashes, s: State, request: Request, a: Action)
    requires Inv(hs, s) && Unissued(s, request) && !Issuable(request) && (a.Begin? ==> a.request == request)
    ensures Unissued(Apply(hs, s, a), request) && (s.lock.Bound? ==> Apply(hs, s, a).lock == s.lock)
  {
    hide RowFor, PlanFor;
  }

  lemma {:induction false} StaysUnissued(hs: Hashes, s: State, request: Request, actions: seq<Action>)
    requires Inv(hs, s) && Unissued(s, request) && !Issuable(request) && OnlyFor(actions, request)
    ensures var t := Run(hs, s, actions); t.row.None? && t.reports == [] && (s.lock.Bound? ==> t.lock == s.lock)
    decreases |actions|
  {
    hide Apply, Inv;
    if actions == [] {
      if s.reports != [] { ReportedIsCommitted(hs, s); }
    } else {
      ApplyKeeps(hs, s, actions[0]);
      StepLeavesUnissued(hs, s, request, actions[0]);
      assert OnlyFor(actions[1..], request) by {
        forall i | 0 <= i < |actions[1..]| && actions[1..][i].Begin?
          ensures actions[1..][i].request == request
        {
          assert actions[1..][i] == actions[i + 1];
        }
      }
      StaysUnissued(hs, Apply(hs, s, actions[0]), request, actions[1..]);
    }
  }

  /** One history leaves the lock file bound and a handoff minted; continued, nothing is ever committed or reported. */
  ghost predicate Stuck(hs: Hashes, first: seq<Action>, p: Proc, mint: Material, more: seq<Action>) {
    var s := Run(hs, Init, first);
    var t := Run(hs, s, more);
    && s.lock == Bound(p.handoffPath, p.planPath, p.now) && s.minted == [mint]
    && s.handoffs == map[p.handoffPath := Handoff(false, p.request.facts, p.request.expiresAt, mint)]
    && t.lock == s.lock && t.row.None? && t.reports == []
  }

  /**
  A request whose plan is too large, or whose expiry is not safe, is taken up all the same: its
  first run binds the lock file and mints a handoff, and then it is refused, as is every other run
  for it, whatever happens.
  */
  lemma UnissuableIsStuck(hs: Hashes, pid: Pid, p: Proc, mint: Material, actions: seq<Action>)
    requires TtlOk(p.request.expiresAt, p.now) && !Issuable(p.request) && OnlyFor(actions, p.request)
    ensures Stuck(hs, OneRun(pid, p, mint), p, mint, actions)
  {
    hide Undisturbed, Run, OneRun;
    UndisturbedIsRun(hs, Init, pid, p, mint);
    InitSound(hs);
    UndisturbedRun(hs, Init, pid, p, mint);
    StaysUnissued(hs, Undisturbed(hs, Init, pid, p, mint), p.request, actions);
  }

  // ---- Where material comes from ----

  ghost predicate MintsAll(actions: seq<Action>, ok: Material -> bool) {
    forall i :: 0 <= i < |actions| && actions[i].Step? ==> ok(actions[i].mint)
  }

  predicate Carries(pc: Pc, ok: Material -> bool) {
    pc.Holding? || pc.Matched? || pc.Committed? || pc.Readied? ==> ok(pc.handoff.material)
  }

  /** Every handoff, on disk, in hand or committed, is of such material. */
  ghost predicate AllMade(s: State, ok: Material -> bool) {
    && (forall q :: q in s.handoffs ==> ok(s.handoffs[q].material))
    && (s.source.Some? ==> ok(s.source.value.material))
    && (forall pid :: pid in s.procs ==> Carries(s.procs[pid].pc, ok))
  }

  lemma MoveKeepsMade(s: State, pid: Pid, pc: Pc, ok: Material -> bool)
    requires AllMade(s, ok)
    ensures AllMade(Exit(s, pid), ok) && (pid in s.procs && Carries(pc, ok) ==> AllMade(At(s, pid, pc), ok))
  {
  }

  lemma ProcKeepsMade(hs: Hashes, s: State, pid: Pid, mint: Material, torn: bool, ok: Material -> bool)
    requires AllMade(s, ok) && pid in s.procs && ok(mint)
    ensures AllMade(StepProc(hs, s, pid, mint, torn), ok)
  {
    hide RowFor, PlanFor, MatchesRequest, MatchesMaterial, ValidHandoff, TtlOk, PlanFits, TimesFit, At, Exit;
    var p := s.procs[pid];
    assert Carries(p.pc, ok);
    MoveKeepsMade(s, pid, Waiting, ok);
    match p.pc {
      case Waiting => MoveKeepsMade(s.(holder := Some(pid)), pid, Locked, ok);
      case Locked =>
        var bound := s.(lock := Bound(p.handoffPath, p.planPath, p.now));
        MoveKeepsMade(s.(lock := Torn), pid, Waiting, ok);
        MoveKeepsMade(bound, pid, Timed(p.now), ok);
        if s.lock.Bound? { MoveKeepsMade(s, pid, Timed(s.lock.createdAt), ok); }
      case Timed(createdAt) => MoveKeepsMade(s, pid, Loaded(createdAt, s.row), ok);
      case Loaded(_, _) => TakeKeepsMade(hs, s, pid, mint, ok);
      case Holding(createdAt, recovery, h) => MoveKeepsMade(s, pid, Matched(createdAt, recovery, h), ok);
      case Matched(createdAt, _, h) =>
        var row := RowFor(hs, p.request, p.handoffPath, p.planPath, createdAt, h);
        MoveKeepsMade(s, pid, Committed(createdAt, h), ok);
        MoveKeepsMade(s.(row := Some(row), source := Some(AsReady(h))), pid, Committed(createdAt, h), ok);
      case Committed(createdAt, h) =>
        MoveKeepsMade(s.(handoffs := s.handoffs[p.handoffPath := AsReady(h)]), pid, Readied(createdAt, h), ok);
      case Readied(createdAt, h) =>
        MoveKeepsMade(s.(plans := s.plans[p.planPath := PlanFor(hs, p.request, h)],
                         reports := s.reports + [Report(pid, h.material, createdAt)]), pid, Waiting, ok);
    }
  }

  lemma TakeKeepsMade(hs: Hashes, s: State, pid: Pid, mint: Material, ok: Material -> bool)
    requires AllMade(s, ok) && pid in s.procs && s.procs[pid].pc.Loaded? && ok(mint)
    ensures AllMade(AcquireHandoff(hs, s, pid, s.procs[pid], mint), ok)
  {
    hide ValidHandoff, At, Exit;
    var p := s.procs[pid];
    MoveKeepsMade(s, pid, Waiting, ok);
    if p.handoffPath in s.handoffs {
      MoveKeepsMade(s, pid, Holding(p.pc.createdAt, p.pc.recovery, s.handoffs[p.handoffPath]), ok);
    } else {
      var h := Handoff(false, p.request.facts, p.request.expiresAt, mint);
      var s1 := s.(handoffs := s.handoffs[p.handoffPath := h], minted := s.minted + [mint]);
      MoveKeepsMade(s1, pid, Holding(p.pc.createdAt, p.pc.recovery, h), ok);
    }
  }

  lemma StepKeepsMade(hs: Hashes, s: State, a: Action, ok: Material -> bool)
    requires AllMade(s, ok) && (a.Step? ==> ok(a.mint))
    ensures AllMade(Apply(hs, s, a), ok)
  {
    hide StepProc, Exit, TtlOk;
    match a
    case Step(pid, mint, torn) => if pid in s.procs { ProcKeepsMade(hs, s, pid, mint, torn, ok); }
    case Die(pid) => MoveKeepsMade(s, pid, Waiting, ok);
    case _ =>
  }

  /** So it has whatever all minted material has. */
  lemma {:induction false} RunKeepsMade(hs: Hashes, s: State, actions: seq<Action>, ok: Material -> bool)
    requires AllMade(s, ok) && MintsAll(actions, ok)
    ensures AllMade(Run(hs, s, actions), ok)
    decreases |actions|
  {
    hide Apply;
    if actions != [] {
      StepKeepsMade(hs, s, actions[0], ok);
      assert MintsAll(actions[1..], ok) by {
        forall i | 0 <= i < |actions[1..]| && actions[1..][i].Step?
          ensures ok(actions[1..][i].mint)
        {
          assert actions[1..][i] == actions[i + 1];
        }
      }
      RunKeepsMade(hs, Apply(hs, s, actions[0]), actions[1..], ok);
    }
  }
}
