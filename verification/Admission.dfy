/**
The admission gate: a semaphore of global permits and a mutex-guarded map of per-source counters.
The gate itself is a class; its use by many threads at once is a state machine over the atomic
steps, in any interleaving.
*/
module Admission {
  import opened Common

  type Source = nat

  // ---- The critical sections ----

  function Counter(counts: map<Source, nat>, source: Source): nat {
    if source in counts then counts[source] else 0
  }

  /** Counters after `source` asks for a slot: the entry is made before the limit is looked at. */
  function Registered(counts: map<Source, nat>, source: Source, limit: nat): map<Source, nat> {
    counts[source := Counter(counts, source) + if Counter(counts, source) < limit then 1 else 0]
  }

  /** Counters after `source` gives a slot back: saturating, and an empty entry is dropped. */
  function Unregistered(counts: map<Source, nat>, source: Source): map<Source, nat> {
    if source !in counts then counts
    else if counts[source] <= 1 then counts - {source}
    else counts[source := counts[source] - 1]
  }

  class AdmissionGate {
    const globalLimit: nat
    const perSourceLimit: nat
    var available: nat
    var perSource: map<Source, nat>

    constructor (globalLimit: nat, perSourceLimit: nat)
      ensures this.globalLimit == globalLimit && this.perSourceLimit == perSourceLimit
      ensures available == globalLimit && perSource == map[]
    {
      this.globalLimit, this.perSourceLimit := globalLimit, perSourceLimit;
      available, perSource := globalLimit, map[];
    }

    method TakeGlobal() returns (taken: bool)
      modifies this`available
      ensures taken <==> old(available) > 0
      ensures available == old(available) - if taken then 1 else 0
    {
      taken := available > 0;
      if taken { available := available - 1; }
    }

    method Register(source: Source) returns (admitted: bool)
      modifies this`perSource
      ensures admitted <==> Counter(old(perSource), source) < perSourceLimit
      ensures perSource == Registered(old(perSource), source, perSourceLimit)
    {
      if source !in perSource { perSource := perSource[source := 0]; }
      if perSource[source] >= perSourceLimit { return false; }
      perSource := perSource[source := perSource[source] + 1];
      return true;
    }

    method Unregister(source: Source)
      modifies this`perSource
      ensures perSource == Unregistered(old(perSource), source)
    {
      if source in perSource {
        var current := perSource[source];
        current := if current >= 1 then current - 1 else 0;
        perSource := perSource[source := current];
        if current == 0 { perSource := perSource - {source}; }
      }
    }

    method ReleaseGlobal()
      modifies this`available
      ensures available == old(available) + 1
    {
      available := available + 1;
    }

    /** One caller with no other in between; a refusal gives the global permit back. */
    method TryAcquire(source: Source) returns (admitted: bool)
      modifies this
      ensures admitted <==> old(available) > 0 && Counter(old(perSource), source) < perSourceLimit
      ensures available == old(available) - if admitted then 1 else 0
      ensures perSource == if old(available) > 0 then Registered(old(perSource), source, perSourceLimit) else old(perSource)
    {
      var taken := TakeGlobal();
      if !taken { return false; }
      admitted := Register(source);
      if !admitted { ReleaseGlobal(); }
    }

    method Drop(source: Source)
      modifies this
      ensures available == old(available) + 1 && perSource == Unregistered(old(perSource), source)
    {
      Unregister(source);
      ReleaseGlobal();
    }
  }

  /** A permit taken and dropped by one caller leaves the gate as it was. */
  method AcquireThenDrop(gate: AdmissionGate, source: Source) returns (admitted: bool)
    requires forall s :: s in gate.perSource ==> gate.perSource[s] > 0
    modifies gate
    ensures admitted ==> gate.available == old(gate.available) && gate.perSource == old(gate.perSource)
  {
    admitted := gate.TryAcquire(source);
    if admitted { gate.Drop(source); }
  }

  // ---- Many threads ----

  /** Where a caller stands while it holds a global permit. */
  datatype Phase =
    | Taken(source: Source)
    | Live(source: Source)
    | Refused(source: Source)
    | Leaving(source: Source)

  datatype State = State(available: nat, counts: map<Source, nat>, holders: map<nat, Phase>)

  datatype Limits = Limits(global: nat, perSource: nat)

  datatype Action =
    | Take(caller: nat, source: Source)
    | Enter(caller: nat)
    | Leave(caller: nat)
    | Release(caller: nat)

  function Initial(limits: Limits): State {
    State(limits.global, map[], map[])
  }

  /** One atomic step; an action whose caller is elsewhere changes nothing. */
  function Step(limits: Limits, s: State, action: Action): State {
    match action
    case Take(c, source) =>
      if c !in s.holders && s.available > 0
      then s.(available := s.available - 1, holders := s.holders[c := Taken(source)])
      else s
    case Enter(c) =>
      if c in s.holders && s.holders[c].Taken? then
        var source := s.holders[c].source;
        var phase := if Counter(s.counts, source) < limits.perSource then Live(source) else Refused(source);
        s.(counts := Registered(s.counts, source, limits.perSource), holders := s.holders[c := phase])
      else s
    case Leave(c) =>
      if c in s.holders && s.holders[c].Live? then
        var source := s.holders[c].source;
        s.(counts := Unregistered(s.counts, source), holders := s.holders[c := Leaving(source)])
      else s
    case Release(c) =>
      if c in s.holders && (s.holders[c].Refused? || s.holders[c].Leaving?)
      then s.(available := s.available + 1, holders := s.holders - {c})
      else s
  }

  function Run(limits: Limits, s: State, actions: seq<Action>): State {
    if actions == [] then s else Step(limits, Run(limits, s, actions[..|actions| - 1]), actions[|actions| - 1])
  }

  /** The callers holding a live permit of a source. */
  function Permits(s: State, source: Source): set<nat> {
    set c | c in s.holders && s.holders[c] == Live(source)
  }

  function AllPermits(s: State): set<nat> {
    set c | c in s.holders && s.holders[c].Live?
  }

  predicate Tracks(limits: Limits, s: State, source: Source) {
    && Counter(s.counts, source) == |Permits(s, source)| <= limits.perSource
    && (source in s.counts && s.counts[source] == 0 ==> limits.perSource == 0)
  }

  ghost predicate Inv(limits: Limits, s: State) {
    && |s.holders.Keys| + s.available == limits.global
    && forall source :: Tracks(limits, s, source)
  }

  lemma StepKeepsCount(limits: Limits, s: State, action: Action)
    requires |s.holders.Keys| + s.available == limits.global
    ensures |Step(limits, s, action).holders.Keys| + Step(limits, s, action).available == limits.global
  {
    hide Registered, Unregistered, Counter;
    var t := Step(limits, s, action);
    if t != s {
      match action {
        case Take(c, _) =>
          assert t.holders.Keys == s.holders.Keys + {c};
        case Release(c) =>
          assert t.holders.Keys == s.holders.Keys - {c};
        case _ =>
          assert t.holders.Keys == s.holders.Keys;
      }
    }
  }

  lemma TakeKeepsTrack(limits: Limits, s: State, c: nat, origin: Source, source: Source)
    requires Tracks(limits, s, source)
    ensures Tracks(limits, Step(limits, s, Take(c, origin)), source)
  {
    assert Permits(Step(limits, s, Take(c, origin)), source) == Permits(s, source);
  }

  lemma EnterKeepsTrack(limits: Limits, s: State, c: nat, source: Source)
    requires Tracks(limits, s, source)
    ensures Tracks(limits, Step(limits, s, Enter(c)), source)
  {
    var t := Step(limits, s, Enter(c));
    if t != s && t.holders[c] == Live(source) {
      assert Permits(t, source) == Permits(s, source) + {c} && c !in Permits(s, source);
    } else {
      assert Permits(t, source) == Permits(s, source);
    }
  }

  lemma LeaveKeepsTrack(limits: Limits, s: State, c: nat, source: Source)
    requires Tracks(limits, s, source)
    ensures Tracks(limits, Step(limits, s, Leave(c)), source)
  {
    var t := Step(limits, s, Leave(c));
    if c in s.holders && s.holders[c] == Live(source) {
      assert Permits(t, source) == Permits(s, source) - {c} && c in Permits(s, source);
    } else {
      assert Permits(t, source) == Permits(s, source);
    }
  }

  lemma ReleaseKeepsTrack(limits: Limits, s: State, c: nat, source: Source)
    requires Tracks(limits, s, source)
    ensures Tracks(limits, Step(limits, s, Release(c)), source)
  {
    assert Permits(Step(limits, s, Release(c)), source) == Permits(s, source);
  }

  lemma StepKeepsTrack(limits: Limits, s: State, action: Action, source: Source)
    requires Tracks(limits, s, source)
    ensures Tracks(limits, Step(limits, s, action), source)
  {
    match action {
      case Take(c, origin) => TakeKeepsTrack(limits, s, c, origin, source);
      case Enter(c) => EnterKeepsTrack(limits, s, c, source);
      case Leave(c) => LeaveKeepsTrack(limits, s, c, source);
      case Release(c) => ReleaseKeepsTrack(limits, s, c, source);
    }
  }

  lemma StepKeeps(limits: Limits, s: State, action: Action)
    requires Inv(limits, s)
    ensures Inv(limits, Step(limits, s, action))
  {
    StepKeepsCount(limits, s, action);
    forall source
      ensures Tracks(limits, Step(limits, s, action), source)
    {
      StepKeepsTrack(limits, s, action, source);
    }
  }

  lemma {:induction false} Reachable(limits: Limits, actions: seq<Action>)
    ensures Inv(limits, Run(limits, Initial(limits), actions))
  {
    if actions == [] {
      forall source
        ensures Tracks(limits, Initial(limits), source)
      {
        assert Permits(Initial(limits), source) == {};
      }
    } else {
      Reachable(limits, actions[..|actions| - 1]);
      StepKeeps(limits, Run(limits, Initial(limits), actions[..|actions| - 1]), actions[|actions| - 1]);
    }
  }

  // ---- What holds in every reachable state ----

  ghost function SumOver(counts: map<Source, nat>, keys: set<Source>): nat
    decreases |keys|
  {
    if keys == {} then 0
    else
      var k :| k in keys;
      Counter(counts, k) + SumOver(counts, keys - {k})
  }

  /** The callers holding a live permit of one of the sources. */
  function PermitsOf(s: State, keys: set<Source>): set<nat> {
    set c | c in s.holders && s.holders[c].Live? && s.holders[c].source in keys
  }

  lemma {:induction false} SumIsPermits(limits: Limits, s: State, keys: set<Source>)
    requires Inv(limits, s)
    ensures SumOver(s.counts, keys) == |PermitsOf(s, keys)|
    decreases |keys|
  {
    hide Inv;
    if keys == {} {
      assert PermitsOf(s, keys) == {};
    } else {
      var k :| k in keys && SumOver(s.counts, keys) == Counter(s.counts, k) + SumOver(s.counts, keys - {k});
      SumIsPermits(limits, s, keys - {k});
      SplitPermits(s, keys, k);
      TracksOne(limits, s, k);
    }
  }

  lemma TracksOne(limits: Limits, s: State, source: Source)
    requires Inv(limits, s)
    ensures Tracks(limits, s, source)
  {
  }

  lemma SplitPermits(s: State, keys: set<Source>, k: Source)
    requires k in keys
    ensures |PermitsOf(s, keys)| == |Permits(s, k)| + |PermitsOf(s, keys - {k})|
  {
    assert PermitsOf(s, keys) == Permits(s, k) + PermitsOf(s, keys - {k});
    assert Permits(s, k) !! PermitsOf(s, keys - {k});
  }

  /** Counters are the live permits and within bounds; their sum is within the permits in use. */
  lemma Conservation(limits: Limits, actions: seq<Action>, source: Source)
    ensures var s := Run(limits, Initial(limits), actions);
      && Counter(s.counts, source) == |Permits(s, source)| <= limits.perSource
      && SumOver(s.counts, s.counts.Keys) == |AllPermits(s)| <= |s.holders.Keys| <= limits.global
      && |s.holders.Keys| == limits.global - s.available
  {
    hide Run;
    var s := Run(limits, Initial(limits), actions);
    Reachable(limits, actions);
    TracksOne(limits, s, source);
    SumIsPermits(limits, s, s.counts.Keys);
    forall c | c in AllPermits(s)
      ensures s.holders[c].source in s.counts
    {
      assert c in Permits(s, s.holders[c].source);
      TracksOne(limits, s, s.holders[c].source);
    }
    assert AllPermits(s) == PermitsOf(s, s.counts.Keys);
    Subset(AllPermits(s), s.holders.Keys);
  }

  /** A permit is to be had exactly while fewer than the global limit are out. */
  lemma TakesIff(limits: Limits, actions: seq<Action>, caller: nat, source: Source)
    requires caller !in Run(limits, Initial(limits), actions).holders
    ensures var s, t := Run(limits, Initial(limits), actions), Run(limits, Initial(limits), actions + [Take(caller, source)]);
      if |s.holders.Keys| < limits.global then t.holders == s.holders[caller := Taken(source)] else t == s
  {
    hide Run;
    Reachable(limits, actions);
    RunOne(limits, actions, Take(caller, source));
  }

  /** And it is admitted exactly while its source has fewer live permits than the per-source limit. */
  lemma AdmitsIff(limits: Limits, actions: seq<Action>, caller: nat, source: Source)
    requires var s := Run(limits, Initial(limits), actions); caller in s.holders && s.holders[caller] == Taken(source)
    ensures var s, t := Run(limits, Initial(limits), actions), Run(limits, Initial(limits), actions + [Enter(caller)]);
      t.holders == s.holders[caller := if |Permits(s, source)| < limits.perSource then Live(source) else Refused(source)]
  {
    hide Run;
    Reachable(limits, actions);
    TracksOne(limits, Run(limits, Initial(limits), actions), source);
    RunOne(limits, actions, Enter(caller));
  }

  /** A whole visit, admitted or refused, leaves the gate as it found it. */
  lemma VisitLeavesNothing(limits: Limits, actions: seq<Action>, caller: nat, source: Source)
    requires limits.perSource > 0 && caller !in Run(limits, Initial(limits), actions).holders
    ensures Run(limits, Initial(limits), actions + [Take(caller, source), Enter(caller), Leave(caller), Release(caller)])
         == Run(limits, Initial(limits), actions)
  {
    hide Run, Inv;
    Reachable(limits, actions);
    var s := Run(limits, Initial(limits), actions);
    TracksOne(limits, s, source);
    var first, second, third, fourth := Take(caller, source), Enter(caller), Leave(caller), Release(caller);
    RunOne(limits, actions, first);
    RunOne(limits, actions + [first], second);
    RunOne(limits, actions + [first] + [second], third);
    RunOne(limits, actions + [first] + [second] + [third], fourth);
    assert actions + [first] + [second] + [third] + [fourth] == actions + [first, second, third, fourth];
    VisitSteps(limits, s, caller, source);
  }

  lemma VisitSteps(limits: Limits, s: State, caller: nat, source: Source)
    requires limits.perSource > 0 && caller !in s.holders && Tracks(limits, s, source)
    ensures Step(limits, Step(limits, Step(limits, Step(limits, s,
              Take(caller, source)), Enter(caller)), Leave(caller)), Release(caller)) == s
  {
    hide Permits;
    if s.available > 0 {
      var t := Step(limits, Step(limits, s, Take(caller, source)), Enter(caller));
      var u := Step(limits, t, Leave(caller));
      assert u.counts == s.counts;
      assert u.holders - {caller} == s.holders;
    }
  }

  /** The saturating subtraction never saturates: a leaving caller is counted. */
  lemma NeverSaturates(limits: Limits, actions: seq<Action>, caller: nat)
    requires var s := Run(limits, Initial(limits), actions); caller in s.holders && s.holders[caller].Live?
    ensures var s := Run(limits, Initial(limits), actions);
      s.holders[caller].source in s.counts && s.counts[s.holders[caller].source] >= 1
  {
    var s := Run(limits, Initial(limits), actions);
    Reachable(limits, actions);
    assert caller in Permits(s, s.holders[caller].source);
    assert Tracks(limits, s, s.holders[caller].source);
  }

  /** The map holds the sources with a live permit and no others. */
  ghost predicate Exact(s: State) {
    forall source :: source in s.counts <==> exists c :: c in s.holders && s.holders[c] == Live(source)
  }

  lemma ExactWithLimit(limits: Limits, actions: seq<Action>)
    requires limits.perSource > 0
    ensures Exact(Run(limits, Initial(limits), actions))
  {
    var s := Run(limits, Initial(limits), actions);
    Reachable(limits, actions);
    forall source
      ensures source in s.counts <==> exists c :: c in s.holders && s.holders[c] == Live(source)
    {
      assert Tracks(limits, s, source);
      if source in s.counts {
        assert |Permits(s, source)| > 0;
        var c :| c in Permits(s, source);
      }
      forall c | c in s.holders && s.holders[c] == Live(source)
        ensures source in s.counts
      {
        assert c in Permits(s, source);
      }
    }
  }

  lemma {:induction false} NothingWithoutPermits(limits: Limits, actions: seq<Action>)
    requires limits.global == 0
    ensures Run(limits, Initial(limits), actions) == Initial(limits)
  {
    if actions != [] {
      NothingWithoutPermits(limits, actions[..|actions| - 1]);
    }
  }

  /**
  A zero per-source limit leaves an entry behind for every refused source, even once everyone has
  left; that is the only way the map and the live permits part.
  */
  lemma ExactIff(limits: Limits)
    ensures (forall actions :: Exact(Run(limits, Initial(limits), actions))) <==> limits.perSource > 0 || limits.global == 0
  {
    if limits.perSource > 0 {
      forall actions
        ensures Exact(Run(limits, Initial(limits), actions))
      {
        ExactWithLimit(limits, actions);
      }
    } else if limits.global == 0 {
      forall actions
        ensures Exact(Run(limits, Initial(limits), actions))
      {
        NothingWithoutPermits(limits, actions);
      }
    } else {
      ZeroLimitLeavesEntry(limits, 7, []);
    }
  }

  /** One refused connection puts its source in the map, and then it stays there whatever happens. */
  lemma ZeroLimitLeavesEntry(limits: Limits, source: Source, more: seq<Action>)
    requires limits.perSource == 0 && limits.global > 0
    ensures var s := Run(limits, Initial(limits), [Take(0, source), Enter(0), Release(0)]);
      s.holders == map[] && s.counts == map[source := 0]
    ensures var s := Run(limits, Initial(limits), [Take(0, source), Enter(0), Release(0)] + more);
      source in s.counts && s.counts[source] == 0 && !Exact(s)
  {
    var first, second, third := Take(0, source), Enter(0), Release(0);
    RunOne(limits, [], first);
    RunOne(limits, [first], second);
    RunOne(limits, [first, second], third);
    assert [] + [first] == [first] && [first] + [second] == [first, second];
    assert [first, second] + [third] == [first, second, third];
    EntryStays(limits, [first, second, third], source, more);
  }

  /** Under a zero limit nobody is ever admitted, so nothing ever removes an entry. */
  lemma {:induction false} EntryStays(limits: Limits, actions: seq<Action>, source: Source, more: seq<Action>)
    requires limits.perSource == 0 && source in Run(limits, Initial(limits), actions).counts
    ensures var s := Run(limits, Initial(limits), actions + more);
      source in s.counts && s.counts[source] == 0 && !Exact(s)
    decreases |more|
  {
    hide Run;
    if more == [] {
      assert actions + more == actions;
    } else {
      var front, last := more[..|more| - 1], more[|more| - 1];
      EntryStays(limits, actions, source, front);
      assert (actions + front) + [last] == actions + more;
      RunOne(limits, actions + front, last);
      NobodyLive(limits, actions + front);
    }
    NobodyLive(limits, actions + more);
  }

  lemma NobodyLive(limits: Limits, actions: seq<Action>)
    requires limits.perSource == 0
    ensures var s := Run(limits, Initial(limits), actions);
      && (forall c :: c in s.holders ==> !s.holders[c].Live?)
      && (forall source :: source in s.counts ==> s.counts[source] == 0)
  {
    hide Run;
    Reachable(limits, actions);
    var s := Run(limits, Initial(limits), actions);
    forall c | c in s.holders
      ensures !s.holders[c].Live?
    {
      if s.holders[c].Live? {
        Counted(limits, s, c);
      }
    }
    forall source | source in s.counts
      ensures s.counts[source] == 0
    {
      TracksOne(limits, s, source);
    }
  }

  lemma Counted(limits: Limits, s: State, c: nat)
    requires Inv(limits, s) && c in s.holders && s.holders[c].Live?
    ensures limits.perSource > 0
  {
    assert c in Permits(s, s.holders[c].source);
    TracksOne(limits, s, s.holders[c].source);
  }

  lemma RunOne(limits: Limits, actions: seq<Action>, action: Action)
    ensures Run(limits, Initial(limits), actions + [action]) == Step(limits, Run(limits, Initial(limits), actions), action)
  {
    assert (actions + [action])[..|actions|] == actions;
  }

  /** Once every caller has left, the gate is as new. */
  lemma Quiescent(limits: Limits, actions: seq<Action>)
    requires limits.perSource > 0 && Run(limits, Initial(limits), actions).holders == map[]
    ensures Run(limits, Initial(limits), actions) == Initial(limits)
  {
    Reachable(limits, actions);
    ExactWithLimit(limits, actions);
    assert Run(limits, Initial(limits), actions).counts == map[];
  }
}
