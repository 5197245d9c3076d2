/**
Connector plans and their handoffs: a plan is sorted in place and checked for repeats, a pending
handoff is generated from it, and a handoff found later is checked against the plan.  Identifiers
are numbers in their own order; fresh identifiers and secrets are parameters.
*/
module PlanNormalise {
  import opened Common

  const MAX_CONNECTORS: nat := 16
  const MIN_TTL: int := 60_000
  const MAX_TTL: int := 600_000
  const I64_MIN: int := -0x8000_0000_0000_0000
  const I64_MAX: int := 0x7fff_ffff_ffff_ffff

  datatype Connector = Connector(id: nat, adapter: nat, request: nat, maxConcurrency: nat, ttl: int)

  // ---- Sorting by identifier ----

  /** Stable insertion: after every connector with the same identifier. */
  function Insert(c: Connector, sorted: seq<Connector>): seq<Connector> {
    if sorted == [] then [c]
    else if sorted[|sorted| - 1].id <= c.id then sorted + [c]
    else Insert(c, sorted[..|sorted| - 1]) + [sorted[|sorted| - 1]]
  }

  function SortById(s: seq<Connector>): seq<Connector> {
    if s == [] then [] else Insert(s[|s| - 1], SortById(s[..|s| - 1]))
  }

  predicate Ordered(s: seq<Connector>) {
    forall i, j :: 0 <= i < j < |s| ==> s[i].id <= s[j].id
  }

  predicate StrictlyOrdered(s: seq<Connector>) {
    forall i, j :: 0 <= i < j < |s| ==> s[i].id < s[j].id
  }

  lemma {:induction false} InsertAdds(c: Connector, s: seq<Connector>)
    ensures multiset(Insert(c, s)) == multiset(s) + multiset{c}
  {
    if s != [] && s[|s| - 1].id > c.id {
      var front, last := s[..|s| - 1], s[|s| - 1];
      InsertAdds(c, front);
      assert s == front + [last];
    }
  }

  lemma {:induction false} InsertBounded(c: Connector, s: seq<Connector>, bound: nat)
    requires c.id <= bound && forall i :: 0 <= i < |s| ==> s[i].id <= bound
    ensures forall i :: 0 <= i < |Insert(c, s)| ==> Insert(c, s)[i].id <= bound
  {
    if s != [] && s[|s| - 1].id > c.id {
      InsertBounded(c, s[..|s| - 1], bound);
    }
  }

  lemma {:induction false} InsertSorts(c: Connector, s: seq<Connector>)
    requires Ordered(s)
    ensures Ordered(Insert(c, s))
  {
    if s != [] && s[|s| - 1].id > c.id {
      InsertSorts(c, s[..|s| - 1]);
      InsertBounded(c, s[..|s| - 1], s[|s| - 1].id);
    }
  }

  lemma {:induction false} SortSorts(s: seq<Connector>)
    ensures Ordered(SortById(s)) && multiset(SortById(s)) == multiset(s)
  {
    hide Insert, Ordered;
    if s == [] {
      EmptyOrdered();
    } else {
      var front, last := s[..|s| - 1], s[|s| - 1];
      SortSorts(front);
      InsertSorts(last, SortById(front));
      InsertAdds(last, SortById(front));
      assert s == front + [last];
    }
  }

  lemma EmptyOrdered()
    ensures Ordered([])
  {
  }

  /** A multiset with distinct identifiers has one strictly sorted arrangement. */
  lemma {:induction false} OneArrangement(a: seq<Connector>, b: seq<Connector>)
    requires StrictlyOrdered(a) && StrictlyOrdered(b) && multiset(a) == multiset(b)
    ensures a == b
  {
    hide StrictlyOrdered;
    assert |a| == |multiset(a)| == |multiset(b)| == |b|;
    if a != [] {
      var n := |a| - 1;
      LastIsGreatest(a, b);
      LastIsGreatest(b, a);
      WithoutLast(a);
      WithoutLast(b);
      OneArrangement(a[..n], b[..n]);
      assert a == a[..n] + [a[n]] && b == b[..n] + [b[n]];
    }
  }

  lemma WithoutLast(s: seq<Connector>)
    requires s != [] && StrictlyOrdered(s)
    ensures var n := |s| - 1; StrictlyOrdered(s[..n]) && multiset(s[..n]) == multiset(s) - multiset{s[n]}
  {
    assert s == s[..|s| - 1] + [s[|s| - 1]];
  }

  lemma LastIsGreatest(a: seq<Connector>, b: seq<Connector>)
    requires StrictlyOrdered(a) && StrictlyOrdered(b) && multiset(a) == multiset(b) && a != [] && b != []
    ensures b[|b| - 1].id <= a[|a| - 1].id && (b[|b| - 1].id == a[|a| - 1].id ==> b[|b| - 1] == a[|a| - 1])
  {
    assert b[|b| - 1] in multiset(b);
    assert b[|b| - 1] in multiset(a);
    var k :| 0 <= k < |a| && a[k] == b[|b| - 1];
  }

  // ---- Plans ----

  predicate ConnectorFits(c: Connector) {
    c.maxConcurrency != 0 && MIN_TTL <= c.ttl <= MAX_TTL
  }

  /** No two connectors share an identifier or a request. */
  predicate NoRepeats(s: seq<Connector>) {
    forall i, j :: 0 <= i < j < |s| ==> s[i].id != s[j].id && s[i].request != s[j].request
  }

  predicate Acceptable(s: seq<Connector>) {
    0 < |s| <= MAX_CONNECTORS && NoRepeats(s) && forall i :: 0 <= i < |s| ==> ConnectorFits(s[i])
  }

  /** Header fields are kept as one value, the schema check as its result. */
  class Plan {
    const schemaFits: bool
    const subject: nat
    var connectors: seq<Connector>

    constructor (schemaFits: bool, subject: nat, connectors: seq<Connector>)
      ensures this.schemaFits == schemaFits && this.subject == subject && this.connectors == connectors
    {
      this.schemaFits, this.subject, this.connectors := schemaFits, subject, connectors;
    }

    method ValidateAndSort() returns (ok: bool)
      modifies this
      ensures ok <==> schemaFits && Acceptable(old(connectors))
      ensures connectors == if schemaFits && 0 < |old(connectors)| <= MAX_CONNECTORS
                            then SortById(old(connectors)) else old(connectors)
      ensures ok ==> StrictlyOrdered(connectors) && Acceptable(connectors)
    {
      if !schemaFits || |connectors| == 0 || |connectors| > MAX_CONNECTORS { return false; }
      SortSorts(connectors);
      SameMembers(connectors, SortById(connectors));
      connectors := SortById(connectors);
      ok := Check(connectors);
    }
  }

  /** The loop over the sorted connectors with its two sets. */
  method Check(connectors: seq<Connector>) returns (ok: bool)
    requires 0 < |connectors| <= MAX_CONNECTORS && Ordered(connectors)
    ensures ok <==> Acceptable(connectors)
    ensures ok ==> StrictlyOrdered(connectors)
  {
    var ids, requests := {}, {};
    var i := 0;
    while i < |connectors|
      invariant 0 <= i <= |connectors|
      invariant NoRepeats(connectors[..i]) && forall j :: 0 <= j < i ==> ConnectorFits(connectors[j])
      invariant ids == set j | 0 <= j < i :: connectors[j].id
      invariant requests == set j | 0 <= j < i :: connectors[j].request
    {
      var c := connectors[i];
      if c.maxConcurrency == 0 || !(MIN_TTL <= c.ttl <= MAX_TTL) || c.id in ids || c.request in requests {
        return false;
      }
      ids, requests := ids + {c.id}, requests + {c.request};
      i := i + 1;
    }
    assert connectors[..i] == connectors;
    return true;
  }

  /** What is asked of a plan does not depend on the order of its connectors. */
  lemma SameMembers(a: seq<Connector>, b: seq<Connector>)
    requires multiset(a) == multiset(b)
    ensures |a| == |b| && (Acceptable(a) <==> Acceptable(b))
  {
    assert |a| == |multiset(a)| == |multiset(b)| == |b|;
    if Acceptable(a) { CarriesOver(a, b); }
    if Acceptable(b) { CarriesOver(b, a); }
  }

  lemma CarriesOver(a: seq<Connector>, b: seq<Connector>)
    requires multiset(a) == multiset(b) && |a| == |b| && Acceptable(a)
    ensures Acceptable(b)
  {
    forall i | 0 <= i < |b|
      ensures ConnectorFits(b[i])
    {
      var k := Found(a, b[i], b, i);
    }
    forall i, j | 0 <= i < j < |b|
      ensures b[i].id != b[j].id && b[i].request != b[j].request
    {
      var k := Found(a, b[i], b, i);
      var l := Found(a, b[j], b, j);
      if k == l {
        Twice(b, i, j);
        Once(a, k);
      }
    }
  }

  lemma Found(a: seq<Connector>, c: Connector, b: seq<Connector>, i: nat) returns (k: nat)
    requires multiset(a) == multiset(b) && i < |b| && b[i] == c
    ensures k < |a| && a[k] == c
  {
    assert c in multiset(b);
    assert c in multiset(a);
    k :| 0 <= k < |a| && a[k] == c;
  }

  lemma Twice(s: seq<Connector>, i: nat, j: nat)
    requires i < j < |s| && s[i] == s[j]
    ensures multiset(s)[s[i]] >= 2
  {
    assert s == s[..j] + [s[j]] + s[j + 1..];
    assert s[i] in s[..j];
  }

  /** Without repeats every connector occurs once. */
  lemma Once(s: seq<Connector>, k: nat)
    requires NoRepeats(s) && k < |s|
    ensures multiset(s)[s[k]] == 1
  {
    assert s == s[..k] + [s[k]] + s[k + 1..];
    assert s[k] !in s[..k] && s[k] !in s[k + 1..];
  }

  /** Any arrangement of an accepted plan's connectors normalises to the same strictly sorted list. */
  lemma OrderIndependent(a: seq<Connector>, b: seq<Connector>)
    requires multiset(a) == multiset(b) && Acceptable(a)
    ensures Acceptable(b) && SortById(a) == SortById(b) && StrictlyOrdered(SortById(a))
  {
    SameMembers(a, b);
    SortSorts(a);
    SortSorts(b);
    SameMembers(a, SortById(a));
    SameMembers(b, SortById(b));
    OneArrangement(SortById(a), SortById(b));
  }

  /** A normalised plan is its own normal form. */
  lemma NormalisedTwice(s: seq<Connector>)
    requires Acceptable(s)
    ensures SortById(SortById(s)) == SortById(s)
  {
    SortSorts(s);
    OrderIndependent(s, SortById(s));
  }

  // ---- Handoffs ----

  datatype Entry = Entry(
    id: nat, adapter: nat, request: nat, intent: nat, generation: nat, specRevision: nat,
    maxConcurrency: nat, ttl: int, expires: int, token: Bytes)

  datatype HandoffState = Pending | Ready

  datatype Handoff = Handoff(schemaFits: bool, subject: nat, state: HandoffState, entries: seq<Entry>)

  datatype Verdict = Valid | Conflict | Expired | Malformed

  function Checked(n: int): Option<int> {
    if I64_MIN <= n <= I64_MAX then Some(n) else None
  }

  function EntryFor(c: Connector, created: int, intent: nat, token: Bytes): Entry {
    Entry(c.id, c.adapter, c.request, intent, 1, 1, c.maxConcurrency, c.ttl, created + c.ttl, token)
  }

  /** The loop over the connectors; fails where an expiry overflows. */
  method GeneratePending(subject: nat, connectors: seq<Connector>, created: int, intents: seq<nat>, tokens: seq<Bytes>)
    returns (r: Option<Handoff>)
    requires |intents| == |connectors| == |tokens|
    requires I64_MIN <= created <= I64_MAX && forall i :: 0 <= i < |connectors| ==> I64_MIN <= connectors[i].ttl <= I64_MAX
    ensures r.Some? <==> forall i :: 0 <= i < |connectors| ==> Checked(created + connectors[i].ttl).Some?
    ensures r.Some? ==> r.value == Generated(subject, connectors, created, intents, tokens)
  {
    var entries: seq<Entry> := [];
    for i := 0 to |connectors|
      invariant |entries| == i
      invariant forall j :: 0 <= j < i ==>
        Checked(created + connectors[j].ttl).Some? && entries[j] == EntryFor(connectors[j], created, intents[j], tokens[j])
    {
      var expires := Checked(created + connectors[i].ttl);
      if expires.None? { return None; }
      var c := connectors[i];
      entries := entries + [Entry(c.id, c.adapter, c.request, intents[i], 1, 1, c.maxConcurrency, c.ttl, expires.value, tokens[i])];
    }
    return Some(Handoff(true, subject, Pending, entries));
  }

  function Generated(subject: nat, connectors: seq<Connector>, created: int, intents: seq<nat>, tokens: seq<Bytes>): Handoff
    requires |intents| == |connectors| == |tokens|
  {
    Handoff(true, subject, Pending,
            seq(|connectors|, i requires 0 <= i < |connectors| => EntryFor(connectors[i], created, intents[i], tokens[i])))
  }

  predicate EntryFits(e: Entry, c: Connector, created: int) {
    && e.id == c.id && e.adapter == c.adapter && e.request == c.request
    && e.generation == 1 && e.specRevision == 1 && e.maxConcurrency == c.maxConcurrency && e.ttl == c.ttl
    && e.expires - e.ttl == created && 0 <= created <= I64_MAX
  }

  /** Intents and tokens, these by digest, are pairwise distinct. */
  predicate Distinct(entries: seq<Entry>, digest: Bytes -> Bytes) {
    forall i, j :: 0 <= i < j < |entries| ==>
      entries[i].intent != entries[j].intent && digest(entries[i].token) != digest(entries[j].token)
  }

  /** One creation time explains every entry. */
  predicate Fits(h: Handoff, subject: nat, connectors: seq<Connector>, digest: Bytes -> Bytes) {
    && h.schemaFits && h.subject == subject && |h.entries| == |connectors|
    && Distinct(h.entries, digest)
    && forall i :: 0 <= i < |h.entries| ==>
         EntryFits(h.entries[i], connectors[i], h.entries[0].expires - h.entries[0].ttl)
  }

  predicate Unexpired(h: Handoff, now: int) {
    h.state.Pending? ==> forall i :: 0 <= i < |h.entries| ==> now < h.entries[i].expires
  }

  predicate HeadFits(h: Handoff, subject: nat, connectors: seq<Connector>) {
    h.schemaFits && h.subject == subject && |h.entries| == |connectors|
  }

  /** The first `n` entries fit and repeat nothing. */
  predicate FitUpTo(h: Handoff, connectors: seq<Connector>, digest: Bytes -> Bytes, n: nat)
    requires n <= |h.entries| == |connectors|
  {
    && Distinct(h.entries[..n], digest)
    && forall j :: 0 <= j < n ==> EntryFits(h.entries[j], connectors[j], h.entries[0].expires - h.entries[0].ttl)
  }

  predicate FreshUpTo(h: Handoff, now: int, n: nat)
    requires n <= |h.entries|
  {
    h.state.Pending? ==> forall j :: 0 <= j < n ==> now < h.entries[j].expires
  }

  /** All entries before `k` are in order, and entry `k` fails in this way. */
  predicate Faulty(h: Handoff, connectors: seq<Connector>, now: int, digest: Bytes -> Bytes, k: int, v: Verdict)
    requires |h.entries| == |connectors|
  {
    && 0 <= k < |h.entries| && FitUpTo(h, connectors, digest, k) && FreshUpTo(h, now, k)
    && match v
       case Malformed => Checked(h.entries[k].expires - h.entries[k].ttl).None?
       case Conflict => Checked(h.entries[k].expires - h.entries[k].ttl).Some? && !FitUpTo(h, connectors, digest, k + 1)
       case Expired => FitUpTo(h, connectors, digest, k + 1) && !FreshUpTo(h, now, k + 1)
       case Valid => false
  }

  /** One entry at most is the first at fault, and its fault is one. */
  lemma FaultyOnce(h: Handoff, connectors: seq<Connector>, now: int, digest: Bytes -> Bytes, k: int, v: Verdict, l: int, w: Verdict)
    requires |h.entries| == |connectors|
    requires Faulty(h, connectors, now, digest, k, v) && Faulty(h, connectors, now, digest, l, w)
    ensures k == l && v == w
  {
    if k < l {
      NotBefore(h, connectors, now, digest, k, v, l);
    } else if l < k {
      NotBefore(h, connectors, now, digest, l, w, k);
    }
    if k == l && (v.Malformed? || w.Malformed?) {
      FittingIsChecked(h, connectors, digest, k);
    }
  }

  lemma NotBefore(h: Handoff, connectors: seq<Connector>, now: int, digest: Bytes -> Bytes, k: int, v: Verdict, l: nat)
    requires |h.entries| == |connectors| && Faulty(h, connectors, now, digest, k, v) && l <= |h.entries|
    ensures FitUpTo(h, connectors, digest, l) && FreshUpTo(h, now, l) ==> l <= k
  {
    if k < l && FitUpTo(h, connectors, digest, l) && FreshUpTo(h, now, l) {
      assert h.entries[..l][..k + 1] == h.entries[..k + 1];
      assert FitUpTo(h, connectors, digest, k + 1);
      FittingIsChecked(h, connectors, digest, k);
    }
  }

  lemma FittingIsChecked(h: Handoff, connectors: seq<Connector>, digest: Bytes -> Bytes, k: int)
    requires |h.entries| == |connectors| && 0 <= k < |h.entries|
    ensures FitUpTo(h, connectors, digest, k + 1) ==> Checked(h.entries[k].expires - h.entries[k].ttl).Some?
  {
  }

  /** The first entry at fault decides the verdict. */
  method ValidateHandoff(h: Handoff, subject: nat, connectors: seq<Connector>, now: int, digest: Bytes -> Bytes)
    returns (v: Verdict)
    requires forall i :: 0 <= i < |h.entries| ==>
      I64_MIN <= h.entries[i].expires <= I64_MAX && I64_MIN <= h.entries[i].ttl <= I64_MAX
    ensures v.Valid? <==> Fits(h, subject, connectors, digest) && Unexpired(h, now)
    ensures if HeadFits(h, subject, connectors)
      then v.Valid? || exists k :: Faulty(h, connectors, now, digest, k, v)
      else v.Conflict?
    ensures v.Expired? ==> !Unexpired(h, now)
    ensures v.Malformed? ==> exists i :: 0 <= i < |h.entries| && Checked(h.entries[i].expires - h.entries[i].ttl).None?
  {
    if !h.schemaFits || h.subject != subject || |h.entries| != |connectors| { return Conflict; }
    var intents, digests := {}, {};
    var shared: Option<int> := None;
    for i := 0 to |connectors|
      invariant intents == set j | 0 <= j < i :: h.entries[j].intent
      invariant digests == set j | 0 <= j < i :: digest(h.entries[j].token)
      invariant FitUpTo(h, connectors, digest, i) && FreshUpTo(h, now, i)
      invariant shared == if i == 0 then None else Some(h.entries[0].expires - h.entries[0].ttl)
    {
      var e, c := h.entries[i], connectors[i];
      var created := Checked(e.expires - e.ttl);
      if created.None? {
        assert Faulty(h, connectors, now, digest, i, Malformed);
        return Malformed;
      }
      if e.id != c.id || e.adapter != c.adapter || e.request != c.request || e.generation != 1 || e.specRevision != 1
         || e.maxConcurrency != c.maxConcurrency || e.ttl != c.ttl || created.value < 0
         || (shared.Some? && shared.value != created.value) || e.intent in intents || digest(e.token) in digests
      {
        assert Faulty(h, connectors, now, digest, i, Conflict);
        return Conflict;
      }
      intents, digests := intents + {e.intent}, digests + {digest(e.token)};
      shared := created;
      assert FitUpTo(h, connectors, digest, i + 1);
      if h.state.Pending? && now >= e.expires {
        assert Faulty(h, connectors, now, digest, i, Expired);
        return Expired;
      }
    }
    return Valid;
  }

  /**
  What is generated with distinct intents and tokens fits its plan, stays valid exactly until its
  earliest expiry, and tells its creation time from every entry; marking it ready ends the expiry.
  */
  lemma GeneratedFits(subject: nat, connectors: seq<Connector>, created: int, intents: seq<nat>, tokens: seq<Bytes>,
                      now: int, digest: Bytes -> Bytes)
    requires |intents| == |connectors| == |tokens| && 0 <= created <= I64_MAX
    requires forall i, j :: 0 <= i < j < |intents| ==> intents[i] != intents[j] && digest(tokens[i]) != digest(tokens[j])
    ensures var h := Generated(subject, connectors, created, intents, tokens);
      && Fits(h, subject, connectors, digest)
      && (Unexpired(h, now) <==> forall i :: 0 <= i < |connectors| ==> now < created + connectors[i].ttl)
      && (forall i :: 0 <= i < |h.entries| ==> h.entries[i].expires - h.entries[i].ttl == created)
      && Fits(h.(state := Ready), subject, connectors, digest) && Unexpired(h.(state := Ready), now)
  {
    var h := Generated(subject, connectors, created, intents, tokens);
    assert forall i :: 0 <= i < |connectors| ==> h.entries[i].expires == created + connectors[i].ttl;
  }

  /** A handoff that fits a plan was generated from it, but for the time, the intents and the tokens. */
  lemma FitsIsGenerated(h: Handoff, subject: nat, connectors: seq<Connector>, digest: Bytes -> Bytes)
    requires Fits(h, subject, connectors, digest) && connectors != []
    ensures var created := h.entries[0].expires - h.entries[0].ttl;
      h.(state := Pending) == Generated(subject, connectors, created,
        seq(|h.entries|, i requires 0 <= i < |h.entries| => h.entries[i].intent),
        seq(|h.entries|, i requires 0 <= i < |h.entries| => h.entries[i].token))
  {
    var created := h.entries[0].expires - h.entries[0].ttl;
    var intents := seq(|h.entries|, i requires 0 <= i < |h.entries| => h.entries[i].intent);
    var tokens := seq(|h.entries|, i requires 0 <= i < |h.entries| => h.entries[i].token);
    var g := Generated(subject, connectors, created, intents, tokens);
    forall i | 0 <= i < |connectors|
      ensures h.entries[i] == g.entries[i]
    {
      assert EntryFits(h.entries[i], connectors[i], created);
    }
    assert h.entries == g.entries;
  }

  /** The plan can be read off a handoff that fits it. */
  lemma PlanRecovered(h: Handoff, subject: nat, connectors: seq<Connector>, digest: Bytes -> Bytes)
    requires Fits(h, subject, connectors, digest)
    ensures h.subject == subject
    ensures connectors == seq(|h.entries|, i requires 0 <= i < |h.entries| =>
      var e := h.entries[i]; Connector(e.id, e.adapter, e.request, e.maxConcurrency, e.ttl))
    ensures forall i :: 0 <= i < |h.entries| ==> h.entries[i].generation == 1 && h.entries[i].specRevision == 1
  {
    forall i | 0 <= i < |connectors|
      ensures h.entries[i].generation == 1 && h.entries[i].specRevision == 1
      ensures var e := h.entries[i]; connectors[i] == Connector(e.id, e.adapter, e.request, e.maxConcurrency, e.ttl)
    {
      assert EntryFits(h.entries[i], connectors[i], h.entries[0].expires - h.entries[0].ttl);
    }
  }

  /** What is generated from an accepted plan is valid for at least one minute and at most ten. */
  lemma PendingWindow(subject: nat, connectors: seq<Connector>, created: int, intents: seq<nat>, tokens: seq<Bytes>, now: int)
    requires |intents| == |connectors| == |tokens| && Acceptable(connectors)
    ensures var h := Generated(subject, connectors, created, intents, tokens);
      (now < created + 60_000 ==> Unexpired(h, now)) && (now >= created + 600_000 ==> !Unexpired(h, now))
  {
    var h := Generated(subject, connectors, created, intents, tokens);
    assert forall i :: 0 <= i < |connectors| ==> h.entries[i].expires == created + connectors[i].ttl;
    assert ConnectorFits(connectors[0]) && 0 < |h.entries|;
    assert h.entries[0].expires <= created + 600_000;
  }
}
