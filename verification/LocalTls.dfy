/**
The local TLS bootstrap: runs of it share one output directory, each may fail or crash between any
two file-system steps, and any number may overlap.  Files are bytes.  What a run generates and what
the certificate checks answer are parameters; that a check never joins artifacts of two runs is a
named hypothesis about them.
*/
module LocalTls {
  import opened Common

  type Generation = nat

  /**
  What each run generates for each slot, and the checks of the validation: an authority certificate,
  a certificate under an authority, a certificate for a node, a private key for a certificate.
  */
  datatype Crypto = Crypto(
    generated: (Generation, nat) -> Bytes,
    authority: Bytes -> bool,
    verifies: (Bytes, Bytes) -> bool,
    names: (Bytes, nat) -> bool,
    fits: (Bytes, Bytes) -> bool)

  datatype Outcome =
    | Created
    | AlreadyPresent(read: seq<Bytes>)
    | Failed

  datatype Pc =
    | Inspect
    | Reading(read: seq<Bytes>)
    | Create
    | Recheck
    | InspectAgain
    | Armed
    | Restrict
    | Writing(next: nat)
    | Publishing(next: nat)
    | Finishing
    | Cleaning
    | Done(outcome: Outcome)
    | Crashed

  /**
  The output directory: whether it exists, its artifacts by slot, and the staging directories
  inside it, each with the artifacts it still holds.
  */
  datatype Disk = Disk(made: bool, files: map<nat, Bytes>, staging: map<Generation, map<nat, Bytes>>)

  datatype State = State(disk: Disk, runs: map<Generation, Pc>)

  datatype Action =
    | Spawn(r: Generation)
    | Advance(r: Generation)
    | Fail(r: Generation)
    | Crash(r: Generation)

  // ---- One run ----

  /** Slot 0 is the authority; then certificate and key of each of three nodes. */
  const SLOTS: set<nat> := {0, 1, 2, 3, 4, 5, 6}

  /** The slots of the certificates; each key is in the slot after. */
  const CERTIFICATES: set<nat> := {1, 3, 5}

  datatype Listing = Missing | Empty | Full | Partial

  function List(d: Disk): Listing {
    if !d.made then Missing
    else if d.staging != map[] then Partial
    else if d.files == map[] then Empty
    else if d.files.Keys == SLOTS then Full
    else Partial
  }

  /** What the validation asks of the next file, given those before it. */
  predicate Checks(c: Crypto, read: seq<Bytes>, file: Bytes) {
    var i := |read|;
    if i == 0 then c.authority(file)
    else if i in CERTIFICATES then c.verifies(file, read[0]) && c.names(file, i)
    else c.fits(file, read[i - 1])
  }

  /** One read of the validation. */
  function Read(c: Crypto, files: map<nat, Bytes>, read: seq<Bytes>): Pc {
    var i := |read|;
    if i !in files || !Checks(c, read, files[i]) then Done(Failed)
    else if i == 6 then Done(AlreadyPresent(read + [files[i]]))
    else Reading(read + [files[i]])
  }

  /** Where a step takes a run. */
  function NextPc(c: Crypto, d: Disk, r: Generation, pc: Pc): Pc {
    match pc
    case Inspect =>
      (match List(d)
       case Missing => Create
       case Empty => InspectAgain
       case Full => Reading([])
       case Partial => Done(Failed))
    case Reading(read) => Read(c, d.files, read)
    case Create => if d.made then Recheck else InspectAgain
    case Recheck => if List(d).Empty? then InspectAgain else Done(Failed)
    case InspectAgain => if List(d).Empty? then Armed else Done(Failed)
    case Armed => if r in d.staging then Done(Failed) else Restrict
    case Restrict => if r in d.staging then Writing(0) else Done(Failed)
    case Writing(n) => if r !in d.staging then Cleaning else if n == 6 then Publishing(0) else Writing(n + 1)
    case Publishing(n) =>
      if r !in d.staging || n !in d.staging[r] then Cleaning else if n == 6 then Finishing else Publishing(n + 1)
    case Finishing => if r in d.staging && d.staging[r] == map[] then Done(Created) else Cleaning
    case Cleaning => Done(Failed)
    case Done(_) => pc
    case Crashed => pc
  }

  /** What a step does to the directory. */
  function NextDisk(c: Crypto, d: Disk, r: Generation, pc: Pc): Disk {
    match pc
    case Create => d.(made := true)
    case Armed => if r in d.staging then d else d.(staging := d.staging[r := map[]])
    case Writing(n) =>
      if r in d.staging then
        var held: map<nat, Bytes> := d.staging[r][n := c.generated(r, n)];
        d.(staging := d.staging[r := held])
      else d
    case Publishing(n) =>
      if r in d.staging && n in d.staging[r]
      then d.(files := d.files[n := d.staging[r][n]], staging := d.staging[r := d.staging[r] - {n}]) else d
    case Finishing => if r in d.staging && d.staging[r] == map[] then d.(staging := d.staging - {r}) else d
    case Cleaning => d.(staging := d.staging - {r})
    case _ => d
  }

  /**
  Where a failing call takes a run: once the staging directory has its permissions, to the guard
  that removes it; before that, straight to the failure.
  */
  function Fault(pc: Pc): Pc {
    match pc
    case Writing(_) => Cleaning
    case Publishing(_) => Cleaning
    case Finishing => Cleaning
    case Done(_) => pc
    case Crashed => pc
    case _ => Done(Failed)
  }

  // ---- All runs ----

  function Apply(c: Crypto, s: State, a: Action): State {
    match a
    case Spawn(r) => if r in s.runs then s else s.(runs := s.runs[r := Inspect])
    case Advance(r) =>
      if r in s.runs
      then State(NextDisk(c, s.disk, r, s.runs[r]), s.runs[r := NextPc(c, s.disk, r, s.runs[r])]) else s
    case Fail(r) => if r in s.runs then s.(runs := s.runs[r := Fault(s.runs[r])]) else s
    case Crash(r) => if r in s.runs && !s.runs[r].Done? then s.(runs := s.runs[r := Crashed]) else s
  }

  function Run(c: Crypto, s: State, actions: seq<Action>): State {
    if actions == [] then s else Apply(c, Run(c, s, actions[..|actions| - 1]), actions[|actions| - 1])
  }

  const START: State := State(Disk(false, map[], map[]), map[])

  lemma {:induction false} Compose(c: Crypto, s: State, a: seq<Action>, b: seq<Action>)
    ensures Run(c, s, a + b) == Run(c, Run(c, s, a), b)
    decreases |b|
  {
    if b == [] {
      assert a + b == a;
    } else {
      Compose(c, s, a, b[..|b| - 1]);
      assert (a + b)[..|a + b| - 1] == a + b[..|b| - 1];
    }
  }

  // ---- The hypotheses ----

  predicate Signed(c: Crypto, r: Generation, q: Generation, i: nat) {
    c.verifies(c.generated(r, i), c.generated(q, 0))
  }

  predicate Keyed(c: Crypto, r: Generation, q: Generation, i: nat) {
    c.fits(c.generated(r, i + 1), c.generated(q, i))
  }

  /** A certificate verifies under the authority, and a key fits a certificate, of its own run only. */
  ghost predicate Genuine(c: Crypto) {
    && (forall r, q, i :: i in CERTIFICATES && Signed(c, r, q, i) ==> r == q)
    && (forall r, q, i :: i in CERTIFICATES && Keyed(c, r, q, i) ==> r == q)
  }

  /** What a run generates passes the checks. */
  ghost predicate Working(c: Crypto) {
    && (forall r :: c.authority(c.generated(r, 0)))
    && (forall r, i :: i in CERTIFICATES ==> Signed(c, r, r, i) && Keyed(c, r, r, i))
    && (forall r, i :: i in CERTIFICATES ==> c.names(c.generated(r, i), i))
  }

  // ---- The invariant ----

  function Range(from: nat, to: nat): set<nat> {
    set i | i in SLOTS && from <= i < to
  }

  /** The artifacts a run generates for these slots. */
  function Made(c: Crypto, r: Generation, slots: set<nat>): map<nat, Bytes> {
    map i | i in slots :: c.generated(r, i)
  }

  /** What a run's position says about it and its staging directory. */
  predicate Sound(c: Crypto, d: Disk, r: Generation, pc: Pc) {
    match pc
    case Reading(read) => |read| < 7 && r !in d.staging
    case Done(AlreadyPresent(read)) => |read| == 7 && r !in d.staging
    case Restrict => r in d.staging && d.staging[r] == map[]
    case Writing(n) => n < 7 && r in d.staging && d.staging[r] == Made(c, r, Range(0, n))
    case Publishing(n) => n < 7 && r in d.staging && d.staging[r] == Made(c, r, Range(n, 7))
    case Finishing => r in d.staging && d.staging[r] == map[]
    case Cleaning => true
    case Crashed => true
    case Done(Failed) => true
    case InspectAgain => d.made && r !in d.staging
    case Armed => d.made && r !in d.staging
    case _ => r !in d.staging
  }

  /** A run that has published something is past writing. */
  predicate Past(pc: Pc) {
    pc.Publishing? || pc.Finishing? || pc.Cleaning? || pc.Done? || pc.Crashed?
  }

  /** A run that is past writing generated this for that slot. */
  predicate From(c: Crypto, runs: map<Generation, Pc>, g: Generation, i: nat, file: Bytes) {
    g in runs && Past(runs[g]) && file == c.generated(g, i)
  }

  function ReadBy(pc: Pc): seq<Bytes> {
    match pc
    case Reading(read) => read
    case Done(AlreadyPresent(read)) => read
    case _ => []
  }

  /** The first artifacts of a run, by slot. */
  function FirstOf(c: Crypto, g: Generation, n: nat): seq<Bytes> {
    seq(n, i requires 0 <= i < n => c.generated(g, i))
  }

  /** All of these are what one run generated. */
  predicate Whole(c: Crypto, runs: map<Generation, Pc>, g: Generation, read: seq<Bytes>) {
    forall i :: 0 <= i < |read| ==> From(c, runs, g, i, read[i])
  }

  /** What the validation has found of the files read so far. */
  predicate Validated(c: Crypto, read: seq<Bytes>) {
    && (|read| > 0 ==> c.authority(read[0]))
    && (forall i :: i in CERTIFICATES && i < |read| ==> c.verifies(read[i], read[0]) && c.names(read[i], i))
    && (forall i :: i in CERTIFICATES && i + 1 < |read| ==> c.fits(read[i + 1], read[i]))
  }

  ghost predicate OneRun(c: Crypto, runs: map<Generation, Pc>, read: seq<Bytes>) {
    exists g :: Whole(c, runs, g, read)
  }

  /** Every file is what some run generated for its slot, and what a validation has read is of one run. */
  ghost predicate Inv(c: Crypto, s: State) {
    && (forall r :: r in s.runs ==> Sound(c, s.disk, r, s.runs[r]))
    && (forall r :: r in s.disk.staging ==> r in s.runs)
    && (forall i :: i in s.disk.files ==> i in SLOTS && exists g :: From(c, s.runs, g, i, s.disk.files[i]))
    && (forall r :: r in s.runs ==> OneRun(c, s.runs, ReadBy(s.runs[r])) && Validated(c, ReadBy(s.runs[r])))
    && (!s.disk.made ==> s.disk.files == map[] && s.disk.staging == map[])
  }

  lemma StepKeepsOwn(c: Crypto, d: Disk, r: Generation, pc: Pc)
    requires Sound(c, d, r, pc)
    ensures Sound(c, NextDisk(c, d, r, pc), r, NextPc(c, d, r, pc))
  {
    match pc {
      case Restrict => assert Made(c, r, Range(0, 0)) == map[];
      case Writing(n) => OneWritten(c, r, n);
      case Publishing(n) => OneMoved(c, r, n);
      case _ =>
    }
  }

  lemma OneWritten(c: Crypto, r: Generation, n: nat)
    requires n < 7
    ensures Made(c, r, Range(0, n))[n := c.generated(r, n)] == Made(c, r, Range(0, n + 1))
  {
    assert Range(0, n + 1) == Range(0, n) + {n};
  }

  lemma OneMoved(c: Crypto, r: Generation, n: nat)
    requires n < 7
    ensures n in Made(c, r, Range(n, 7)) && Made(c, r, Range(n, 7))[n] == c.generated(r, n)
    ensures Made(c, r, Range(n, 7)) - {n} == Made(c, r, Range(n + 1, 7)) && Made(c, r, Range(7, 7)) == map[]
  {
    assert Range(n + 1, 7) == Range(n, 7) - {n} && n in Range(n, 7);
  }

  /** A step touches its own staging directory only, and files only by publishing what it generated. */
  lemma StepEffect(c: Crypto, d: Disk, r: Generation, pc: Pc, q: Generation)
    requires Sound(c, d, r, pc)
    ensures var e := NextDisk(c, d, r, pc);
      && (q != r ==> (q in e.staging <==> q in d.staging) && (q in d.staging ==> e.staging[q] == d.staging[q]))
      && (d.made ==> e.made)
      && (forall i :: i in e.files ==>
            (i in d.files && e.files[i] == d.files[i]) || (pc == Publishing(i) && e.files[i] == c.generated(r, i)))
  {
    if pc.Publishing? {
      OneMoved(c, r, pc.next);
    }
  }

  /** A run only ever moves on from being past writing, so what it generated stays its own. */
  lemma FromStays(c: Crypto, s: State, a: Action, g: Generation, i: nat, file: Bytes)
    requires From(c, s.runs, g, i, file)
    ensures From(c, Apply(c, s, a).runs, g, i, file)
  {
  }

  lemma OneRunStays(c: Crypto, s: State, a: Action, read: seq<Bytes>)
    requires OneRun(c, s.runs, read)
    ensures OneRun(c, Apply(c, s, a).runs, read)
  {
    hide Apply, From;
    var g :| Whole(c, s.runs, g, read);
    forall i | 0 <= i < |read|
      ensures From(c, Apply(c, s, a).runs, g, i, read[i])
    {
      FromStays(c, s, a, g, i, read[i]);
    }
    assert Whole(c, Apply(c, s, a).runs, g, read);
  }

  /** The heart of it: a file that passes the check is of the run the files before it are of. */
  lemma PassedIsSame(c: Crypto, runs: map<Generation, Pc>, g: Generation, read: seq<Bytes>, q: Generation, file: Bytes)
    requires Genuine(c) && 0 < |read| < 7 && Whole(c, runs, g, read) && From(c, runs, q, |read|, file) && Checks(c, read, file)
    ensures g == q
  {
    var i := |read|;
    assert From(c, runs, g, 0, read[0]) && From(c, runs, g, i - 1, read[i - 1]);
    if i in CERTIFICATES {
      assert Signed(c, q, g, i);
    } else {
      assert i - 1 in CERTIFICATES && Keyed(c, q, g, i - 1);
    }
  }

  /** One more file that passes its check. */
  lemma ValidatedMore(c: Crypto, read: seq<Bytes>, file: Bytes)
    requires |read| < 7 && Validated(c, read) && Checks(c, read, file)
    ensures Validated(c, read + [file])
  {
    var more := read + [file];
    forall i | i in CERTIFICATES && i < |more|
      ensures c.verifies(more[i], more[0]) && c.names(more[i], i)
    {
      if i < |read| { assert more[i] == read[i]; }
    }
    forall i | i in CERTIFICATES && i + 1 < |more|
      ensures c.fits(more[i + 1], more[i])
    {
      if i + 1 < |read| { assert more[i] == read[i] && more[i + 1] == read[i + 1]; }
    }
  }

  lemma ReadKeeps(c: Crypto, s: State, read: seq<Bytes>)
    requires Genuine(c) && Inv(c, s) && |read| < 7 && OneRun(c, s.runs, read) && Validated(c, read)
    ensures OneRun(c, s.runs, ReadBy(Read(c, s.disk.files, read)))
    ensures Validated(c, ReadBy(Read(c, s.disk.files, read)))
  {
    hide From, Checks, Sound, Validated;
    var i := |read|;
    var next := ReadBy(Read(c, s.disk.files, read));
    if next == [] {
      assert Whole(c, s.runs, 0, next);
      NothingValidated(c);
    } else {
      var file := s.disk.files[i];
      ValidatedMore(c, read, file);
      var q :| From(c, s.runs, q, i, file);
      var g :| Whole(c, s.runs, g, read);
      if i > 0 {
        PassedIsSame(c, s.runs, g, read, q, file);
      }
      assert Whole(c, s.runs, q, next);
    }
  }

  lemma NothingValidated(c: Crypto)
    ensures Validated(c, [])
  {
  }

  lemma ApplyKeeps(c: Crypto, s: State, a: Action)
    requires Genuine(c) && Inv(c, s)
    ensures Inv(c, Apply(c, s, a))
  {
    hide NextDisk, NextPc, Sound, From, Genuine, OneRun, Validated;
    if a.Advance? && a.r in s.runs {
      AdvanceKeeps(c, s, a.r);
    } else {
      var t := Apply(c, s, a);
      forall r | r in t.runs
        ensures Sound(c, t.disk, r, t.runs[r]) && OneRun(c, t.runs, ReadBy(t.runs[r])) && Validated(c, ReadBy(t.runs[r]))
      {
        if r == a.r {
          OtherKeeps(c, s, a);
        } else {
          OneRunStays(c, s, a, ReadBy(s.runs[r]));
        }
      }
      forall i | i in t.disk.files
        ensures exists g :: From(c, t.runs, g, i, t.disk.files[i])
      {
        var g :| From(c, s.runs, g, i, s.disk.files[i]);
        FromStays(c, s, a, g, i, s.disk.files[i]);
      }
    }
  }

  lemma OtherKeeps(c: Crypto, s: State, a: Action)
    requires Inv(c, s) && !a.Advance?
    ensures a.r in Apply(c, s, a).runs ==>
      && Sound(c, s.disk, a.r, Apply(c, s, a).runs[a.r])
      && OneRun(c, Apply(c, s, a).runs, ReadBy(Apply(c, s, a).runs[a.r]))
      && Validated(c, ReadBy(Apply(c, s, a).runs[a.r]))
  {
    hide Validated;
    var t := Apply(c, s, a);
    NothingValidated(c);
    if a.r in t.runs {
      if a.r in s.runs {
        OneRunStays(c, s, a, ReadBy(s.runs[a.r]));
      }
      assert Whole(c, t.runs, 0, []);
    }
  }

  lemma AdvanceKeeps(c: Crypto, s: State, r: Generation)
    requires Genuine(c) && Inv(c, s) && r in s.runs
    ensures Inv(c, Apply(c, s, Advance(r)))
  {
    hide NextDisk, NextPc, Sound, From, Genuine, OneRun, Validated;
    var t, pc := Apply(c, s, Advance(r)), s.runs[r];
    forall q | q in t.runs
      ensures Sound(c, t.disk, q, t.runs[q]) && OneRun(c, t.runs, ReadBy(t.runs[q])) && Validated(c, ReadBy(t.runs[q]))
    {
      if q == r {
        StepKeepsOwn(c, s.disk, r, pc);
        StepReads(c, s, r);
      } else {
        StepEffect(c, s.disk, r, pc, q);
        Elsewhere(c, s.disk, t.disk, q, s.runs[q]);
        OneRunStays(c, s, Advance(r), ReadBy(s.runs[q]));
      }
    }
    forall q | q in t.disk.staging
      ensures q in t.runs
    {
      StepEffect(c, s.disk, r, pc, q);
    }
    forall i | i in t.disk.files
      ensures i in SLOTS && exists g :: From(c, t.runs, g, i, t.disk.files[i])
    {
      FileKeeps(c, s, r, i);
    }
    Unmade(c, s.disk, r, pc);
  }

  lemma FileKeeps(c: Crypto, s: State, r: Generation, i: nat)
    requires Inv(c, s) && r in s.runs && i in Apply(c, s, Advance(r)).disk.files
    ensures var t := Apply(c, s, Advance(r)); i in SLOTS && exists g :: From(c, t.runs, g, i, t.disk.files[i])
  {
    hide NextDisk, NextPc, Sound;
    var t := Apply(c, s, Advance(r));
    StepEffect(c, s.disk, r, s.runs[r], r);
    if i in s.disk.files && t.disk.files[i] == s.disk.files[i] {
      var g :| From(c, s.runs, g, i, s.disk.files[i]);
      FromStays(c, s, Advance(r), g, i, s.disk.files[i]);
    } else {
      Publisher(c, s.disk, r, i);
      assert From(c, t.runs, r, i, t.disk.files[i]);
    }
  }

  lemma Publisher(c: Crypto, d: Disk, r: Generation, i: nat)
    requires Sound(c, d, r, Publishing(i))
    ensures i in SLOTS && Past(NextPc(c, d, r, Publishing(i)))
  {
  }

  lemma StepReads(c: Crypto, s: State, r: Generation)
    requires Genuine(c) && Inv(c, s) && r in s.runs
    ensures var t := Apply(c, s, Advance(r)); OneRun(c, t.runs, ReadBy(t.runs[r])) && Validated(c, ReadBy(t.runs[r]))
  {
    hide Genuine, Read, Sound, From, OneRun, Validated;
    var t := Apply(c, s, Advance(r));
    if s.runs[r].Reading? {
      ReadsSeven(c, s.disk, r, s.runs[r]);
      ReadKeeps(c, s, s.runs[r].read);
      OneRunStays(c, s, Advance(r), ReadBy(t.runs[r]));
    } else if s.runs[r].Done? {
      OneRunStays(c, s, Advance(r), ReadBy(s.runs[r]));
    } else {
      NothingRead(c, t.runs);
      NothingValidated(c);
    }
  }

  lemma ReadsSeven(c: Crypto, d: Disk, r: Generation, pc: Pc)
    requires Sound(c, d, r, pc) && pc.Reading?
    ensures |pc.read| < 7
  {
  }

  lemma NothingRead(c: Crypto, runs: map<Generation, Pc>)
    ensures OneRun(c, runs, [])
  {
    assert Whole(c, runs, 0, []);
  }

  lemma Elsewhere(c: Crypto, d: Disk, e: Disk, q: Generation, pc: Pc)
    requires Sound(c, d, q, pc) && (d.made ==> e.made)
    requires (q in e.staging <==> q in d.staging) && (q in d.staging ==> e.staging[q] == d.staging[q])
    ensures Sound(c, e, q, pc)
  {
  }

  lemma Unmade(c: Crypto, d: Disk, r: Generation, pc: Pc)
    requires Sound(c, d, r, pc) && (!d.made ==> d.files == map[] && d.staging == map[])
    ensures var e := NextDisk(c, d, r, pc); !e.made ==> e.files == map[] && e.staging == map[]
  {
  }

  lemma {:induction false} RunKeeps(c: Crypto, s: State, actions: seq<Action>)
    requires Genuine(c) && Inv(c, s)
    ensures Inv(c, Run(c, s, actions))
  {
    hide Inv, Genuine;
    if actions != [] {
      RunKeeps(c, s, actions[..|actions| - 1]);
      ApplyKeeps(c, Run(c, s, actions[..|actions| - 1]), actions[|actions| - 1]);
    }
  }

  lemma Reachable(c: Crypto, actions: seq<Action>)
    requires Genuine(c)
    ensures Inv(c, Run(c, START, actions))
  {
    assert Inv(c, START);
    RunKeeps(c, START, actions);
  }

  predicate Present(s: State, r: Generation) {
    r in s.runs && s.runs[r].Done? && s.runs[r].outcome.AlreadyPresent?
  }

  /**
  However runs overlap, fail and crash: whoever reports a present set has read exactly the seven
  artifacts of one run.
  */
  lemma NeverMixed(c: Crypto, actions: seq<Action>, r: Generation)
    requires Genuine(c) && Present(Run(c, START, actions), r)
    ensures var s := Run(c, START, actions);
      && (exists g :: g in s.runs && s.runs[r].outcome.read == FirstOf(c, g, 7))
      && Validated(c, s.runs[r].outcome.read)
  {
    hide Run, Validated;
    Reachable(c, actions);
    var s := Run(c, START, actions);
    var read := s.runs[r].outcome.read;
    assert Sound(c, s.disk, r, s.runs[r]) && OneRun(c, s.runs, ReadBy(s.runs[r]));
    var g :| Whole(c, s.runs, g, read);
    assert From(c, s.runs, g, 0, read[0]);
    assert read == FirstOf(c, g, 7) by {
      forall i | 0 <= i < 7
        ensures read[i] == c.generated(g, i)
      {
        assert From(c, s.runs, g, i, read[i]);
      }
    }
  }

  // ---- A staging directory left behind ----

  predicate LeftBehind(s: State, r: Generation) {
    r in s.disk.staging && r in s.runs && (s.runs[r].Crashed? || s.runs[r] == Done(Failed))
  }

  /**
  A crash at any point between creating the staging directory and removing it leaves it behind, and
  so does a failure to restrict its permissions, as nothing guards the directory yet.
  */
  lemma CrashLeavesStaging(c: Crypto, s: State, r: Generation)
    requires Inv(c, s) && r in s.runs
    requires s.runs[r].Restrict? || s.runs[r].Writing? || s.runs[r].Publishing? || s.runs[r].Finishing?
    ensures LeftBehind(Apply(c, s, Crash(r)), r)
    ensures s.runs[r].Restrict? ==> LeftBehind(Apply(c, s, Fail(r)), r)
  {
    assert Sound(c, s.disk, r, s.runs[r]);
  }

  /** A run that has not yet seen the directory empty or full. */
  predicate Early(s: State, r: Generation) {
    r in s.runs ==> s.runs[r] in {Inspect, Create, Recheck, InspectAgain, Done(Failed), Crashed}
  }

  lemma BlockedStep(c: Crypto, s: State, a: Action, dead: Generation, r: Generation)
    requires Inv(c, s) && LeftBehind(s, dead) && Early(s, r)
    ensures LeftBehind(Apply(c, s, a), dead) && Early(Apply(c, s, a), r)
  {
    hide NextDisk;
    if a.Advance? && a.r in s.runs {
      StepEffect(c, s.disk, a.r, s.runs[a.r], dead);
      Idle(c, s.disk, a.r, s.runs[a.r]);
    }
  }

  lemma Idle(c: Crypto, d: Disk, r: Generation, pc: Pc)
    ensures pc.Done? || pc.Crashed? ==> NextDisk(c, d, r, pc) == d
  {
  }

  /**
  A run that crashes before its staging directory is gone blocks every later one for good: none
  that inspects afterwards reports the set as present or created, in any interleaving.
  */
  lemma {:induction false} CrashNeverReportedComplete(c: Crypto, s: State, actions: seq<Action>, dead: Generation, r: Generation)
    requires Genuine(c) && Inv(c, s) && LeftBehind(s, dead) && Early(s, r)
    ensures LeftBehind(Run(c, s, actions), dead) && Early(Run(c, s, actions), r)
  {
    hide Apply, Genuine, Inv, LeftBehind, Early;
    if actions != [] {
      var front := actions[..|actions| - 1];
      CrashNeverReportedComplete(c, s, front, dead, r);
      RunKeeps(c, s, front);
      BlockedStep(c, Run(c, s, front), actions[|actions| - 1], dead, r);
    }
  }

  // ---- When a reported set is the one on disk ----

  ghost predicate OneGeneration(c: Crypto, files: map<nat, Bytes>) {
    exists g :: files == Made(c, g, SLOTS)
  }

  /** No run has seen the directory empty and still to create its staging directory. */
  ghost predicate NoneArmed(s: State) {
    forall r :: r in s.runs ==> s.runs[r] != Armed
  }

  ghost predicate Settled(s: State) {
    s.disk.made && s.disk.staging == map[] && s.disk.files.Keys == SLOTS && NoneArmed(s)
  }

  /** How far a reader of these files can be. */
  predicate Reader(pc: Pc, files: map<nat, Bytes>) {
    match pc
    case Reading(read) => |read| < 7 && Begins(read, files)
    case Done(AlreadyPresent(read)) => |read| == 7 && Begins(read, files)
    case Done(Failed) => true
    case Crashed => true
    case _ => false
  }

  predicate Begins(read: seq<Bytes>, files: map<nat, Bytes>) {
    forall i :: 0 <= i < |read| ==> i in files && read[i] == files[i]
  }

  lemma SettledStep(c: Crypto, d: Disk, r: Generation, pc: Pc)
    requires Sound(c, d, r, pc) && pc != Armed && d.made && d.staging == map[] && d.files != map[]
    ensures NextDisk(c, d, r, pc) == d && NextPc(c, d, r, pc) != Armed
  {
  }

  /** Some files and no staging directory, and no run is about to make one. */
  ghost predicate Occupied(s: State) {
    s.disk.made && s.disk.staging == map[] && s.disk.files != map[] && NoneArmed(s)
  }

  /** Where a run can be that began on an incomplete set. */
  predicate Refused(s: State, r: Generation) {
    r in s.runs ==> s.runs[r] in {Inspect, Done(Failed), Crashed}
  }

  lemma OccupiedApply(c: Crypto, s: State, a: Action)
    requires Inv(c, s) && Occupied(s)
    ensures Occupied(Apply(c, s, a)) && Apply(c, s, a).disk == s.disk
  {
    hide NextDisk, NextPc, Sound, Validated, OneRun, From;
    if a.Advance? && a.r in s.runs {
      SettledStep(c, s.disk, a.r, s.runs[a.r]);
    }
  }

  lemma RefusedApply(c: Crypto, s: State, a: Action, r: Generation)
    requires Occupied(s) && s.disk.files.Keys != SLOTS && Refused(s, r)
    ensures Refused(Apply(c, s, a), r)
  {
    hide NextDisk;
  }

  /**
  A directory with some files in it, whole set or not, is never written to by a run that has yet to
  inspect it, and on an incomplete set a new run only fails.
  */
  lemma {:induction false} OccupiedIsKept(c: Crypto, s: State, actions: seq<Action>, r: Generation)
    requires Genuine(c) && Inv(c, s) && Occupied(s)
    ensures var t := Run(c, s, actions); t.disk == s.disk && Occupied(t)
    ensures s.disk.files.Keys != SLOTS && r !in s.runs ==> Refused(Run(c, s, actions), r)
  {
    hide Apply, Inv, Occupied, Genuine;
    if actions != [] {
      var front := actions[..|actions| - 1];
      OccupiedIsKept(c, s, front, r);
      RunKeeps(c, s, front);
      OccupiedApply(c, Run(c, s, front), actions[|actions| - 1]);
      if s.disk.files.Keys != SLOTS && r !in s.runs {
        RefusedApply(c, Run(c, s, front), actions[|actions| - 1], r);
      }
    }
  }

  lemma ReaderStep(c: Crypto, d: Disk, r: Generation, pc: Pc)
    requires Reader(pc, d.files)
    ensures Reader(NextPc(c, d, r, pc), d.files)
  {
  }

  lemma SettledApply(c: Crypto, s: State, a: Action, r: Generation)
    requires Inv(c, s) && Settled(s) && r in s.runs && Reader(s.runs[r], s.disk.files)
    ensures var t := Apply(c, s, a);
      Settled(t) && t.disk.files == s.disk.files && r in t.runs && Reader(t.runs[r], s.disk.files)
  {
    hide NextDisk, NextPc, Reader, Sound, Validated, OneRun, From;
    assert 0 in SLOTS && s.disk.files != map[];
    if a.Advance? && a.r in s.runs {
      SettledStep(c, s.disk, a.r, s.runs[a.r]);
    }
    ReaderStep(c, s.disk, r, s.runs[r]);
    ReaderStops(s.runs[r], s.disk.files);
  }

  lemma {:induction false} SettledRun(c: Crypto, s: State, actions: seq<Action>, r: Generation)
    requires Genuine(c) && Inv(c, s) && Settled(s) && r in s.runs && Reader(s.runs[r], s.disk.files)
    ensures var t := Run(c, s, actions);
      Inv(c, t) && Settled(t) && t.disk.files == s.disk.files && r in t.runs && Reader(t.runs[r], s.disk.files)
  {
    hide Apply, Reader, Inv, Settled, Genuine;
    RunKeeps(c, s, actions);
    if actions != [] {
      var front := actions[..|actions| - 1];
      SettledRun(c, s, front, r);
      SettledApply(c, Run(c, s, front), actions[|actions| - 1], r);
    }
  }

  lemma ReaderStops(pc: Pc, files: map<nat, Bytes>)
    requires Reader(pc, files)
    ensures Reader(Crashed, files) && Reader(Fault(pc), files)
  {
  }

  lemma ReadsOneRun(c: Crypto, s: State, r: Generation)
    requires Inv(c, s) && r in s.runs
    ensures OneRun(c, s.runs, ReadBy(s.runs[r]))
  {
    hide Sound, Validated, OneRun, From;
  }

  /** What was read whole, and is still there, is of one generation. */
  lemma ReadIsOneGeneration(c: Crypto, s: State, r: Generation)
    requires Inv(c, s) && Present(s, r) && Reader(s.runs[r], s.disk.files) && s.disk.files.Keys == SLOTS
    ensures OneGeneration(c, s.disk.files)
  {
    hide Inv;
    var read := s.runs[r].outcome.read;
    ReadsOneRun(c, s, r);
    var g :| Whole(c, s.runs, g, read);
    forall i | i in SLOTS
      ensures s.disk.files[i] == c.generated(g, i)
    {
      assert From(c, s.runs, g, i, read[i]);
    }
    assert s.disk.files == Made(c, g, SLOTS);
  }

  // ---- Runs by themselves ----

  function Advances(r: Generation, n: nat): seq<Action> {
    seq(n, _ => Advance(r))
  }

  /** Directory and position of a run after `n` steps of its own. */
  function Alone(c: Crypto, d: Disk, r: Generation, pc: Pc, n: nat): (Disk, Pc) {
    if n == 0 then (d, pc)
    else
      var (e, at) := Alone(c, d, r, pc, n - 1);
      (NextDisk(c, e, r, at), NextPc(c, e, r, at))
  }

  lemma {:induction false} AloneRuns(c: Crypto, s: State, r: Generation, n: nat)
    requires r in s.runs
    ensures var (d, pc) := Alone(c, s.disk, r, s.runs[r], n); Run(c, s, Advances(r, n)) == State(d, s.runs[r := pc])
  {
    hide NextDisk, NextPc;
    if n == 0 {
      assert s.runs[r := s.runs[r]] == s.runs;
    } else {
      AloneRuns(c, s, r, n - 1);
      assert Advances(r, n)[..n - 1] == Advances(r, n - 1);
      var (d, pc) := Alone(c, s.disk, r, s.runs[r], n - 1);
      assert s.runs[r := pc][r := NextPc(c, d, r, pc)] == s.runs[r := NextPc(c, d, r, pc)];
    }
  }

  lemma {:induction false} AloneOn(c: Crypto, d: Disk, r: Generation, pc: Pc, m: nat, n: nat)
    ensures Alone(c, d, r, pc, m + n) == Alone(c, Alone(c, d, r, pc, m).0, r, Alone(c, d, r, pc, m).1, n)
    decreases n
  {
    hide NextDisk, NextPc;
    if n > 0 {
      AloneOn(c, d, r, pc, m, n - 1);
    }
  }

  function Staged(c: Crypto, d: Disk, r: Generation, slots: set<nat>): Disk {
    d.(staging := d.staging[r := Made(c, r, slots)])
  }

  lemma WriteStep(c: Crypto, d: Disk, r: Generation, n: nat)
    requires n < 7
    ensures NextDisk(c, Staged(c, d, r, Range(0, n)), r, Writing(n)) == Staged(c, d, r, Range(0, n + 1))
    ensures NextPc(c, Staged(c, d, r, Range(0, n)), r, Writing(n)) == if n == 6 then Publishing(0) else Writing(n + 1)
  {
    hide Range, Made;
    OneWritten(c, r, n);
    var before, after := Made(c, r, Range(0, n)), Made(c, r, Range(0, n + 1));
    assert d.staging[r := before][r := after] == d.staging[r := after];
  }

  lemma {:induction false} Writes(c: Crypto, d: Disk, r: Generation, n: nat)
    requires n <= 7
    ensures Alone(c, Staged(c, d, r, Range(0, 0)), r, Writing(0), n) ==
      (Staged(c, d, r, Range(0, n)), if n == 7 then Publishing(0) else Writing(n))
  {
    hide Staged, Range, NextDisk, NextPc;
    if n > 0 {
      Writes(c, d, r, n - 1);
      WriteStep(c, d, r, n - 1);
    }
  }

  function Overlaid(c: Crypto, files: map<nat, Bytes>, r: Generation, n: nat): map<nat, Bytes> {
    map i | i in files.Keys + Range(0, n) :: if i in Range(0, n) then c.generated(r, i) else files[i]
  }

  /** The first `n` files of `r` published and the others staged. */
  function Shared(c: Crypto, d: Disk, r: Generation, n: nat): Disk {
    Staged(c, d, r, Range(n, 7)).(files := Overlaid(c, d.files, r, n))
  }

  lemma OneOver(c: Crypto, files: map<nat, Bytes>, r: Generation, n: nat)
    requires n < 7
    ensures Overlaid(c, files, r, n + 1) == Overlaid(c, files, r, n)[n := c.generated(r, n)]
  {
    assert Range(0, n + 1) == Range(0, n) + {n};
  }

  lemma PublishStep(c: Crypto, d: Disk, r: Generation, n: nat)
    requires n < 7
    ensures NextDisk(c, Shared(c, d, r, n), r, Publishing(n)) == Shared(c, d, r, n + 1)
    ensures NextPc(c, Shared(c, d, r, n), r, Publishing(n)) == if n == 6 then Finishing else Publishing(n + 1)
  {
    hide Range, Overlaid, Made;
    OneMoved(c, r, n);
    OneOver(c, d.files, r, n);
    var before, after := Made(c, r, Range(n, 7)), Made(c, r, Range(n + 1, 7));
    assert d.staging[r := before][r := after] == d.staging[r := after];
  }

  lemma Unshared(c: Crypto, d: Disk, r: Generation)
    ensures Staged(c, d, r, Range(0, 7)) == Shared(c, d, r, 0)
  {
    assert Range(0, 0) == {} && Overlaid(c, d.files, r, 0) == d.files;
  }

  lemma {:induction false} Publishes(c: Crypto, d: Disk, r: Generation, n: nat)
    requires n <= 7
    ensures Alone(c, Shared(c, d, r, 0), r, Publishing(0), n) ==
      (Shared(c, d, r, n), if n == 7 then Finishing else Publishing(n))
  {
    hide Shared, NextDisk, NextPc;
    if n > 0 {
      Publishes(c, d, r, n - 1);
      PublishStep(c, d, r, n - 1);
    }
  }

  lemma Stages(c: Crypto, d: Disk, r: Generation)
    requires r !in d.staging
    ensures Alone(c, d, r, Armed, 2) == (Staged(c, d, r, Range(0, 0)), Writing(0))
  {
    assert Made(c, r, Range(0, 0)) == map[];
    assert Alone(c, d, r, Armed, 0) == (d, Armed);
    assert Alone(c, d, r, Armed, 1) == (d.(staging := d.staging[r := map[]]), Restrict);
  }

  /** From an armed run: its directory, seven files, and as many of them published as asked. */
  lemma ArmedPublishes(c: Crypto, d: Disk, r: Generation, n: nat)
    requires r !in d.staging && n <= 7
    ensures Alone(c, d, r, Armed, 9 + n) == (Shared(c, d, r, n), if n == 7 then Finishing else Publishing(n))
  {
    hide Range, Overlaid, Shared, NextDisk, NextPc, Staged;
    Unshared(c, d, r);
    Stages(c, d, r);
    AloneOn(c, d, r, Armed, 2, 7);
    Writes(c, d, r, 7);
    AloneOn(c, d, r, Armed, 9, n);
    Publishes(c, d, r, n);
  }

  /** A run's own artifacts pass the checks one after the other. */
  lemma OwnPass(c: Crypto, g: Generation, n: nat)
    requires Working(c) && n < 7
    ensures Checks(c, FirstOf(c, g, n), c.generated(g, n))
  {
    var read := FirstOf(c, g, n);
    if n in CERTIFICATES {
      assert Signed(c, g, g, n) && read[0] == c.generated(g, 0);
    } else if n > 0 {
      assert n - 1 in CERTIFICATES && Keyed(c, g, g, n - 1) && read[n - 1] == c.generated(g, n - 1);
    }
  }

  lemma {:induction false} Reads(c: Crypto, d: Disk, g: Generation, r: Generation, n: nat)
    requires Working(c) && d.files == Made(c, g, SLOTS) && n <= 7
    ensures var read := FirstOf(c, g, n);
      Alone(c, d, r, Reading([]), n) == (d, if n == 7 then Done(AlreadyPresent(read)) else Reading(read))
  {
    if n == 0 {
      assert FirstOf(c, g, 0) == [];
    } else {
      hide Working, Checks;
      Reads(c, d, g, r, n - 1);
      OwnPass(c, g, n - 1);
      assert n - 1 in SLOTS && d.files[n - 1] == c.generated(g, n - 1);
      assert FirstOf(c, g, n) == FirstOf(c, g, n - 1) + [d.files[n - 1]];
    }
  }

  /** An armed run can put its own files over a set that another has just reported as present. */
  lemma ArmedMixes(c: Crypto, s: State, r: Generation, b: Generation) returns (actions: seq<Action>)
    requires Genuine(c) && Working(c) && Inv(c, s) && s.disk.staging == map[] && OneGeneration(c, s.disk.files)
    requires r in s.runs && s.runs[r] == Reading([]) && b in s.runs && s.runs[b] == Armed
    ensures Present(Run(c, s, actions), r) && !OneGeneration(c, Run(c, s, actions).disk.files)
  {
    hide NextDisk, NextPc, Alone, Range, Sound, Genuine, Working, Inv, Overlaid, Made, FirstOf;
    var g :| s.disk.files == Made(c, g, SLOTS);
    AloneRuns(c, s, r, 7);
    Reads(c, s.disk, g, r, 7);
    var t := Run(c, s, Advances(r, 7));
    AloneRuns(c, t, b, 10);
    ArmedPublishes(c, s.disk, b, 1);
    Compose(c, s, Advances(r, 7), Advances(b, 10));
    actions := Advances(r, 7) + Advances(b, 10);
    OfAPastRun(c, s, g);
    Overlays(c, g, b);
  }

  /** The run a set on disk is of has got past writing. */
  lemma OfAPastRun(c: Crypto, s: State, g: Generation)
    requires Genuine(c) && Working(c) && Inv(c, s) && s.disk.files == Made(c, g, SLOTS)
    ensures g in s.runs && Past(s.runs[g])
  {
    assert 0 in SLOTS && 0 in s.disk.files && 1 in CERTIFICATES;
    var q :| From(c, s.runs, q, 0, s.disk.files[0]);
    assert Signed(c, g, g, 1) && Signed(c, g, q, 1);
  }

  /** Were the overlay of one generation, its authority would verify a certificate of another's. */
  lemma OverlaySigned(c: Crypto, g: Generation, b: Generation, h: Generation)
    requires Working(c) && Overlaid(c, Made(c, g, SLOTS), b, 1) == Made(c, h, SLOTS)
    ensures Signed(c, g, b, 1)
  {
    var files := Overlaid(c, Made(c, g, SLOTS), b, 1);
    assert 0 in Range(0, 1) && 1 !in Range(0, 1) && 0 in SLOTS && 1 in SLOTS && 1 in CERTIFICATES;
    assert files[0] == c.generated(b, 0) && files[1] == c.generated(g, 1);
    assert Signed(c, h, h, 1);
  }

  lemma Overlays(c: Crypto, g: Generation, b: Generation)
    requires Genuine(c) && Working(c) && g != b
    ensures !OneGeneration(c, Overlaid(c, Made(c, g, SLOTS), b, 1))
  {
    hide Working, Signed, Overlaid, Made;
    if OneGeneration(c, Overlaid(c, Made(c, g, SLOTS), b, 1)) {
      var h :| Overlaid(c, Made(c, g, SLOTS), b, 1) == Made(c, h, SLOTS);
      OverlaySigned(c, g, b, h);
    }
  }

  /**
  A run that is about to validate a full directory reports only what then stays on disk, unless
  another run is armed: then there is an interleaving in which it reports a set that gets mixed.
  */
  lemma ReportedIsOnDiskIff(c: Crypto, s: State, r: Generation)
    requires Genuine(c) && Working(c) && Inv(c, s)
    requires s.disk.made && s.disk.staging == map[] && OneGeneration(c, s.disk.files)
    requires r in s.runs && s.runs[r] == Reading([])
    ensures (forall actions :: Present(Run(c, s, actions), r) ==> OneGeneration(c, Run(c, s, actions).disk.files)) <==> NoneArmed(s)
  {
    hide Run, Inv, Genuine, Working;
    if NoneArmed(s) {
      forall actions | Present(Run(c, s, actions), r)
        ensures OneGeneration(c, Run(c, s, actions).disk.files)
      {
        SettledRun(c, s, actions, r);
        ReadIsOneGeneration(c, Run(c, s, actions), r);
      }
    } else {
      var b :| b in s.runs && s.runs[b] == Armed;
      var actions := ArmedMixes(c, s, r, b);
    }
  }

  /** A mixed directory is never reported while no run is armed. */
  lemma MixedIsRefused(c: Crypto, s: State, actions: seq<Action>, r: Generation)
    requires Genuine(c) && Inv(c, s) && Settled(s)
    requires r in s.runs && s.runs[r] == Reading([]) && !OneGeneration(c, s.disk.files)
    ensures !Present(Run(c, s, actions), r)
  {
    hide Run, Inv, Genuine;
    SettledRun(c, s, actions, r);
    if Present(Run(c, s, actions), r) {
      ReadIsOneGeneration(c, Run(c, s, actions), r);
    }
  }

  /** A run alone on an empty or missing directory creates a full set of its own. */
  lemma SoloCreates(c: Crypto, d: Disk, r: Generation)
    requires d.files == map[] && d.staging == map[]
    ensures Alone(c, d, r, Inspect, if d.made then 19 else 20) == (Disk(true, Made(c, r, SLOTS), map[]), Done(Created))
  {
    hide NextDisk, NextPc, Shared, Made;
    var armed := d.(made := true);
    Arms(c, d, r);
    ArmedPublishes(c, armed, r, 7);
    AloneOn(c, d, r, Inspect, if d.made then 2 else 3, 16);
    Finishes(c, armed, r);
  }

  lemma Arms(c: Crypto, d: Disk, r: Generation)
    requires d.files == map[] && d.staging == map[]
    ensures Alone(c, d, r, Inspect, if d.made then 2 else 3) == (d.(made := true), Armed)
  {
    assert Alone(c, d, r, Inspect, 0) == (d, Inspect);
    assert Alone(c, d, r, Inspect, 1) == (d, if d.made then InspectAgain else Create);
    assert Alone(c, d, r, Inspect, 2) == (d.(made := true), if d.made then Armed else InspectAgain);
  }

  lemma Finishes(c: Crypto, d: Disk, r: Generation)
    requires d.files == map[] && d.staging == map[]
    ensures NextPc(c, Shared(c, d, r, 7), r, Finishing) == Done(Created)
    ensures NextDisk(c, Shared(c, d, r, 7), r, Finishing) == Disk(d.made, Made(c, r, SLOTS), map[])
  {
    assert Range(7, 7) == {} && Range(0, 7) == SLOTS;
    assert Made(c, r, Range(7, 7)) == map[];
    assert Overlaid(c, d.files, r, 7) == Made(c, r, SLOTS);
    assert Shared(c, d, r, 7).staging - {r} == map[];
  }

  // ---- A run that fails ----

  lemma HasStaging(c: Crypto, s: State, r: Generation)
    requires Inv(c, s) && r in s.runs && (s.runs[r].Writing? || s.runs[r].Publishing? || s.runs[r].Finishing?)
    ensures r in s.disk.staging
  {
    hide Validated, OneRun, From;
    assert Sound(c, s.disk, r, s.runs[r]);
  }

  lemma TwoActions(c: Crypto, s: State, a: Action, b: Action)
    ensures Run(c, s, [a, b]) == Apply(c, Apply(c, s, a), b)
  {
    hide Apply;
    var actions := [a, b];
    assert actions[..|actions| - 1] == [a] && [a][..|[a]| - 1] == [];
    assert Run(c, s, [a]) == Apply(c, s, a);
  }

  /** After a failed call the guard removes the run's own staging directory and touches nothing else. */
  lemma FailureCleansUp(c: Crypto, s: State, r: Generation)
    requires Inv(c, s) && r in s.runs && (s.runs[r].Writing? || s.runs[r].Publishing? || s.runs[r].Finishing?)
    ensures r in s.disk.staging
    ensures Run(c, s, [Fail(r), Advance(r)]) ==
      State(s.disk.(staging := map q | q in s.disk.staging && q != r :: s.disk.staging[q]), s.runs[r := Done(Failed)])
  {
    hide Inv, Run;
    HasStaging(c, s, r);
    TwoActions(c, s, Fail(r), Advance(r));
    assert s.runs[r := Cleaning][r := Done(Failed)] == s.runs[r := Done(Failed)];
    assert s.disk.staging - {r} == map q | q in s.disk.staging && q != r :: s.disk.staging[q];
  }

  /** Alone from the start, a run has written `n` files and published none. */
  lemma SoloWrites(c: Crypto, a: Generation, n: nat)
    requires n <= 7
    ensures Run(c, START, [Spawn(a)] + Advances(a, 5 + n)) ==
      State(Disk(true, map[], map[a := Made(c, a, Range(0, n))]), map[a := if n == 7 then Publishing(0) else Writing(n)])
  {
    hide NextDisk, NextPc, Alone, Made, Run, Range;
    var armed := Disk(true, map[], map[]);
    Arms(c, START.disk, a);
    Stages(c, armed, a);
    Writes(c, armed, a, n);
    AloneOn(c, armed, a, Armed, 2, n);
    AloneOn(c, START.disk, a, Inspect, 3, 2 + n);
    SpawnRuns(c, START, a, 5 + n);
  }

  /**
  Whenever a run alone fails before its first rename, it leaves an empty directory, and the next run
  alone creates its own full set.
  */
  lemma FailureIsRetried(c: Crypto, a: Generation, b: Generation, n: nat)
    requires Genuine(c) && a != b && n <= 7
    ensures var s := Run(c, START, [Spawn(a)] + Advances(a, 5 + n) + [Fail(a), Advance(a)]);
      && s == State(Disk(true, map[], map[]), map[a := Done(Failed)])
      && Run(c, s, [Spawn(b)] + Advances(b, 19)) ==
           State(Disk(true, Made(c, b, SLOTS), map[]), map[a := Done(Failed), b := Done(Created)])
  {
    hide NextDisk, NextPc, Alone, Made, Run, Inv, Genuine, Advances;
    var started := [Spawn(a)] + Advances(a, 5 + n);
    SoloWrites(c, a, n);
    Reachable(c, started);
    var at := Run(c, START, started);
    FailureCleansUp(c, at, a);
    Compose(c, START, started, [Fail(a), Advance(a)]);
    var s := Run(c, START, started + [Fail(a), Advance(a)]);
    assert s.disk.staging == map[] && s.runs == map[a := Done(Failed)];
    SoloCreates(c, s.disk, b);
    SpawnRuns(c, s, b, 19);
  }

  /** The next run alone reports that set and leaves it as it is. */
  lemma SoloConfirms(c: Crypto, d: Disk, g: Generation, r: Generation)
    requires Working(c) && d.made && d.staging == map[] && d.files == Made(c, g, SLOTS)
    ensures Alone(c, d, r, Inspect, 8) == (d, Done(AlreadyPresent(FirstOf(c, g, 7))))
  {
    hide Working, FirstOf, NextDisk, NextPc;
    SeesFull(c, d, g, r);
    AloneOn(c, d, r, Inspect, 1, 7);
    Reads(c, d, g, r, 7);
  }

  lemma SeesFull(c: Crypto, d: Disk, g: Generation, r: Generation)
    requires d.made && d.staging == map[] && d.files == Made(c, g, SLOTS)
    ensures Alone(c, d, r, Inspect, 1) == (d, Reading([]))
  {
    assert Alone(c, d, r, Inspect, 0) == (d, Inspect);
    assert 0 in SLOTS && 0 in d.files && d.files.Keys == SLOTS;
  }

  // ---- The interleaving that mixes, from the start ----

  /** `b` sees the directory empty, `a` creates a full set, and `r` starts to validate it. */
  function Prelude(a: Generation, b: Generation, r: Generation): seq<Action> {
    [Spawn(b)] + Advances(b, 3) + ([Spawn(a)] + Advances(a, 19)) + ([Spawn(r)] + Advances(r, 1))
  }

  lemma SpawnRuns(c: Crypto, s: State, r: Generation, n: nat)
    requires r !in s.runs
    ensures var (d, pc) := Alone(c, s.disk, r, Inspect, n); Run(c, s, [Spawn(r)] + Advances(r, n)) == State(d, s.runs[r := pc])
  {
    hide NextDisk, NextPc;
    var t := s.(runs := s.runs[r := Inspect]);
    assert [Spawn(r)][..0] == [];
    assert Run(c, s, [Spawn(r)]) == t;
    Compose(c, s, [Spawn(r)], Advances(r, n));
    AloneRuns(c, t, r, n);
    var (d, pc) := Alone(c, s.disk, r, Inspect, n);
    assert t.runs[r := pc] == s.runs[r := pc];
  }

  lemma PreludeRuns(c: Crypto, a: Generation, b: Generation, r: Generation)
    requires a != b && a != r && b != r
    ensures Run(c, START, Prelude(a, b, r)) ==
      State(Disk(true, Made(c, a, SLOTS), map[]), map[b := Armed, a := Done(Created), r := Reading([])])
  {
    hide NextDisk, NextPc, Alone, Made, Run;
    var first, second, third := [Spawn(b)] + Advances(b, 3), [Spawn(a)] + Advances(a, 19), [Spawn(r)] + Advances(r, 1);
    Compose(c, START, first + second, third);
    Compose(c, START, first, second);
    Arms(c, START.disk, b);
    SpawnRuns(c, START, b, 3);
    var s := Run(c, START, first);
    assert s == State(Disk(true, map[], map[]), map[b := Armed]);
    SoloCreates(c, s.disk, a);
    SpawnRuns(c, s, a, 19);
    var t := Run(c, s, second);
    SeesFull(c, t.disk, a, r);
    SpawnRuns(c, t, r, 1);
  }

  /** So a history from the start has a run report a set that is mixed in the end. */
  lemma MixedAfterReport(c: Crypto, a: Generation, b: Generation, r: Generation) returns (actions: seq<Action>)
    requires Genuine(c) && Working(c) && a != b && a != r && b != r
    ensures Present(Run(c, START, actions), r) && !OneGeneration(c, Run(c, START, actions).disk.files)
  {
    hide Run, Inv, Genuine, Working, Made;
    var s := Run(c, START, Prelude(a, b, r));
    PreludeRuns(c, a, b, r);
    Reachable(c, Prelude(a, b, r));
    var more := ArmedMixes(c, s, r, b);
    Compose(c, START, Prelude(a, b, r), more);
    actions := Prelude(a, b, r) + more;
  }

  // ---- The hypotheses can be met ----

  /** Artifacts that name their run and slot. */
  function Named(r: Generation, i: nat): Bytes {
    seq(r, _ => 0) + [1] + seq(i, _ => 0)
  }

  function RunOf(file: Bytes): nat {
    if file == [] || file[0] == 1 then 0 else 1 + RunOf(file[1..])
  }

  lemma {:induction false} RunOfNamed(r: Generation, i: nat)
    ensures RunOf(Named(r, i)) == r
  {
    if r > 0 {
      RunOfNamed(r - 1, i);
      assert Named(r, i)[1..] == Named(r - 1, i);
    }
  }

  const NAMED: Crypto := Crypto(
    (r, i) => Named(r, i), _ => true, (x, y) => RunOf(x) == RunOf(y), (_, _) => true, (x, y) => RunOf(x) == RunOf(y))

  lemma NamedIsGenuine()
    ensures Genuine(NAMED) && Working(NAMED)
  {
    hide Named, RunOf;
    forall r, i
      ensures RunOf(Named(r, i)) == r
    {
      RunOfNamed(r, i);
    }
  }
}
