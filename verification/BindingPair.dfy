/**
Publication of the bootstrap binding and its request as a pair that survives crashes.

Each procedure keeps the shape it has in the program.  They promise nothing about a
directory some other writer has disturbed, so what they guarantee is stated for disks that
were `Sound` before the call; the empty disk is sound, and so is what every run leaves,
however the run ends.
*/
module BindingPair {
  import opened Common
  import opened CrashingDirectory

  const MAX_JSON_BYTES: nat := 65536

  datatype Error = File | FilePermissions | BindingConflict

  /** A procedure ends normally, reports an error, or never reports because it died. */
  datatype Outcome<+T> = Ok(value: T) | Err(error: Error) | Crashed {
    predicate IsFailure() { !Ok? }

    function PropagateFailure<U>(): Outcome<U>
      requires IsFailure()
    {
      if Err? then Err(error) else Crashed
    }

    function Extract(): T
      requires Ok?
    {
      value
    }
  }

  function Heard<T>(r: Sys<T>, error: Error): Outcome<T> {
    match r
    case Done(v) => Ok(v)
    case Failed => Err(error)
    case Died => Crashed
  }

  /** A temporary name beside a published one is a second name of the same inode. */
  ghost predicate Staged(s: Slot) {
    s.temp.Some? && s.final.Some? ==> s.shared
  }

  ghost predicate Sound(k: Disk) {
    Ordered(k) && Staged(SlotOf(k, Binding)) && Staged(SlotOf(k, Request))
  }

  function Exactly(bytes: Bytes): Slot {
    Slot(None, Some(bytes), false)
  }

  /** A published output that a later run with the same bytes will recognise. */
  ghost predicate Recognisable(s: Slot, bytes: Bytes) {
    s.final == Some(bytes) && |bytes| <= MAX_JSON_BYTES
  }

  ghost predicate Untouched(k: Disk, k': Disk, f: File)
    requires WellFormed(k) && WellFormed(k')
  {
    SlotOf(k', f) == SlotOf(k, f)
  }

  method ExactRootOutput(d: Directory, f: File, expected: Bytes) returns (r: Outcome<bool>)
    requires WellFormed(d.disk)
    modifies d`fates
    ensures old(d.Clean()) ==> d.Clean() && !r.Crashed?
    ensures r == Ok(true) ==>
              && Recognisable(SlotOf(d.disk, f), expected)
              && d.disk.inodes[d.disk.entries[Final(f)]].nlink == 1
    ensures r == Ok(false) ==> SlotOf(d.disk, f).final == None
    ensures old(d.Clean()) && SlotOf(d.disk, f).final == None ==> r == Ok(false)
    ensures (&& old(d.Clean())
             && Recognisable(SlotOf(d.disk, f), expected)
             && d.disk.inodes[d.disk.entries[Final(f)]].nlink == 1) ==> r == Ok(true)
  {
    var st := d.StatOf(Final(f));
    var before :- Heard(st, File);
    if before.None? {
      return Ok(false);
    }
    if before.value.size > MAX_JSON_BYTES {
      return Err(File);
    }
    if before.value.nlink != 1 {
      return Err(FilePermissions);
    }
    var rd := d.Read(Final(f));
    var bytes :- Heard(rd, File);
    if bytes != expected {
      return Err(BindingConflict);
    }
    return Ok(true);
  }

  /** Removing the temporary name leaves the published bytes alone. */
  method RemoveTemp(d: Directory, f: File) returns (r: Sys<()>)
    requires WellFormed(d.disk)
    modifies d
    ensures WellFormed(d.disk)
    ensures old(d.Clean()) ==> d.Clean() && !r.Died? && (r.Done? <==> SlotOf(old(d.disk), f).temp.Some?)
    ensures old(FailOnce(d.fates)) ==>
              FailOnce(d.fates) && !r.Died? && (r.Failed? && SlotOf(old(d.disk), f).temp.Some? ==> d.Clean())
    ensures !r.Done? ==> d.disk == old(d.disk)
    ensures Ordered(old(d.disk)) ==>
              && Ordered(d.disk)
              && Untouched(old(d.disk), d.disk, Other(f))
              && (r.Done? ==> SlotOf(d.disk, f) == Slot(None, SlotOf(old(d.disk), f).final, false))
  {
    ghost var before := d.disk;
    r := d.Unlink(Temp(f));
    if Ordered(before) && r.Done? {
      UnlinkedTemp(before, f);
    }
  }

  /** The link counts recovery inspects tell a linked temporary file from an unlinked one. */
  lemma LinkCounts(k: Disk, f: File)
    requires Ordered(k)
    ensures Temp(f) in k.entries ==>
              k.inodes[k.entries[Temp(f)]].nlink == if SlotOf(k, f).shared then 2 else 1
    ensures Final(f) in k.entries ==>
              k.inodes[k.entries[Final(f)]].nlink == if SlotOf(k, f).shared then 2 else 1
    ensures SlotOf(k, f).shared ==>
              k.entries[Temp(f)] == k.entries[Final(f)] && SlotOf(k, f).temp == SlotOf(k, f).final
  {
  }

  ghost predicate Recoverable(s: Slot, expected: Bytes) {
    s.shared ==> Recognisable(s, expected)
  }

  method Recover(d: Directory, f: File, expected: Bytes) returns (r: Outcome<()>)
    requires WellFormed(d.disk)
    modifies d
    ensures WellFormed(d.disk)
    ensures old(d.Clean()) ==> d.Clean() && !r.Crashed?
    ensures Ordered(old(d.disk)) ==>
              && Ordered(d.disk)
              && Untouched(old(d.disk), d.disk, Other(f))
              && (|| d.disk == old(d.disk)
                  || SlotOf(d.disk, f) == Slot(None, SlotOf(old(d.disk), f).final, false))
    ensures Ordered(old(d.disk)) && r.Ok? ==>
              && SlotOf(d.disk, f) == Slot(None, SlotOf(old(d.disk), f).final, false)
              && Recoverable(SlotOf(old(d.disk), f), expected)
    // Undisturbed, recovery fails only on linked bytes that are not the expected ones.
    ensures old(d.Clean()) && Ordered(old(d.disk)) && Staged(SlotOf(old(d.disk), f)) ==>
              (r.Ok? <==> Recoverable(SlotOf(old(d.disk), f), expected))
    // Without a temporary name there is nothing to recover.
    ensures SlotOf(old(d.disk), f).temp == None ==>
              d.disk == old(d.disk) && (old(FailOnce(d.fates)) ==> FailOnce(d.fates) && !r.Crashed?)
  {
    hide FailOnce;
    ghost var before := d.disk;
    if Ordered(before) {
      LinkCounts(before, f);
    }
    var st := d.StatOf(Temp(f));
    var found :- Heard(st, File);
    if found.None? {
      return Ok(());
    }
    var metadata := found.value;
    if !(1 <= metadata.nlink <= 2) {
      return Err(FilePermissions);
    }
    if metadata.nlink == 1 {
      st := d.StatOf(Final(f));
      if st.Died? {
        return Crashed;
      }
      if st.Failed? || st.value.Some? {
        return Err(FilePermissions);
      }
      var gone := RemoveTemp(d, f);
      return Heard(gone, File);
    }
    r := RecoverLinked(d, f, expected, metadata);
  }

  /** The half of recovery for a temporary name with two links. */
  method RecoverLinked(d: Directory, f: File, expected: Bytes, metadata: Stat) returns (r: Outcome<()>)
    requires WellFormed(d.disk) && Temp(f) in d.disk.entries && metadata.ino == d.disk.entries[Temp(f)]
    modifies d
    ensures WellFormed(d.disk)
    ensures old(d.Clean()) ==> d.Clean() && !r.Crashed?
    ensures Ordered(old(d.disk)) ==>
              && Ordered(d.disk)
              && Untouched(old(d.disk), d.disk, Other(f))
              && (|| d.disk == old(d.disk)
                  || SlotOf(d.disk, f) == Slot(None, SlotOf(old(d.disk), f).final, false))
    ensures Ordered(old(d.disk)) && r.Ok? ==>
              && SlotOf(d.disk, f) == Slot(None, SlotOf(old(d.disk), f).final, false)
              && Recognisable(SlotOf(old(d.disk), f), expected)
    ensures (&& old(d.Clean()) && Ordered(old(d.disk)) && SlotOf(old(d.disk), f).shared
             && Recognisable(SlotOf(old(d.disk), f), expected)) ==> r.Ok?
  {
    hide FailOnce;
    ghost var before := d.disk;
    if Ordered(before) {
      LinkCounts(before, f);
    }
    var st := d.StatOf(Final(f));
    var final :- Heard(st, FilePermissions);
    if final.None? || final.value.nlink != 2 || final.value.ino != metadata.ino {
      return Err(FilePermissions);
    }
    var rd := d.Read(Temp(f));
    var bytes :- Heard(rd, File);
    if |bytes| > MAX_JSON_BYTES {
      return Err(File);
    }
    if bytes != expected {
      return Err(BindingConflict);
    }
    var gone := RemoveTemp(d, f);
    var _ :- Heard(gone, File);
    if Ordered(before) {
      LinkCounts(d.disk, f);
    }
    var sync := d.Sync();
    var _ :- Heard(sync, File);
    var published :- ExactRootOutput(d, f, expected);
    if published {
      return Ok(());
    }
    return Err(File);
  }

  /** Create, write and flush the temporary file, link it into place, drop the temporary name. */
  method Stage(d: Directory, f: File, bytes: Bytes) returns (r: Outcome<()>)
    requires WellFormed(d.disk)
    modifies d
    ensures WellFormed(d.disk)
    ensures old(d.Clean()) ==> d.Clean() && !r.Crashed?
    ensures Ordered(old(d.disk)) && SlotOf(old(d.disk), f) == Slot(None, None, false) ==>
              && Ordered(d.disk)
              && Untouched(old(d.disk), d.disk, Other(f))
              && SlotOf(d.disk, f).final in {None, Some(bytes)}
              && Staged(SlotOf(d.disk, f))
              && (r.Ok? ==> SlotOf(d.disk, f) == Exactly(bytes))
              && (old(d.Clean()) ==> r.Ok?)
              && (old(FailOnce(d.fates)) ==> !r.Crashed? && (r.Err? ==> d.Clean()))
  {
    hide FailOnce;
    ghost var start := d.disk;
    ghost var unused := Ordered(start) && SlotOf(start, f) == Slot(None, None, false);
    var made := d.Create(Temp(f));
    var ino :- Heard(made, File);
    if unused { CreatedTemp(start, f); }
    ghost var empty := d.disk;
    var written, kept := d.Write(ino, bytes);
    if unused { AppendedTemp(empty, f, kept); }
    var _ :- Heard(written, File);
    var sync := d.Sync();
    var _ :- Heard(sync, File);
    ghost var full := d.disk;
    var linked := d.HardLink(Temp(f), Final(f));
    var _ :- Heard(linked, File);
    if unused { LinkedFinal(full, f); }
    var gone := RemoveTemp(d, f);
    var _ :- Heard(gone, File);
    sync := d.Sync();
    return Heard(sync, File);
  }

  /** Publishes one output whose final name is free; both callers have just checked that. */
  method Publish(d: Directory, f: File, bytes: Bytes) returns (r: Outcome<()>)
    requires WellFormed(d.disk)
    modifies d
    ensures WellFormed(d.disk)
    ensures old(d.Clean()) ==> d.Clean() && !r.Crashed?
    ensures Ordered(old(d.disk)) && SlotOf(old(d.disk), f).final == None ==>
              && Ordered(d.disk)
              && Untouched(old(d.disk), d.disk, Other(f))
              && SlotOf(d.disk, f).final in {None, Some(bytes)}
              && Staged(SlotOf(d.disk, f))
              && (r.Ok? ==> SlotOf(d.disk, f) == Exactly(bytes))
              && (old(d.Clean()) ==> r.Ok?)
    // An error cleans up: if only one call has failed, no temporary name is left.
    ensures Ordered(old(d.disk)) && SlotOf(old(d.disk), f) == Slot(None, None, false) && old(FailOnce(d.fates)) ==>
              !r.Crashed? && SlotOf(d.disk, f).temp == None
  {
    hide FailOnce;
    var _ :- Recover(d, f, bytes);
    r := Stage(d, f, bytes);
    if r.Err? {
      var cleanup := RemoveTemp(d, f);
      if cleanup.Died? {
        r := Crashed;
      }
    }
  }

  /** A published binding has beside it the request of one run invoked with both. */
  ghost predicate Whole(k: Disk, invoked: set<(Bytes, Bytes)>)
    requires WellFormed(k)
  {
    SlotOf(k, Binding).final.Some? ==>
      && SlotOf(k, Request).final.Some?
      && (SlotOf(k, Binding).final.value, SlotOf(k, Request).final.value) in invoked
  }

  /** The disks from which an undisturbed run with these bytes ends well. */
  ghost predicate Admissible(k: Disk, binding: Bytes, request: Bytes)
    requires WellFormed(k)
  {
    && (SlotOf(k, Request).final.Some? ==> Recognisable(SlotOf(k, Request), request))
    && (SlotOf(k, Binding).final.Some? ==>
          SlotOf(k, Request).final.Some? && Recognisable(SlotOf(k, Binding), binding))
  }

  /** Published files stay published with the bytes they had. */
  ghost predicate Kept(k: Disk, k': Disk) {
    && WellFormed(k) && WellFormed(k')
    && (SlotOf(k, Binding).final.Some? ==> SlotOf(k', Binding).final == SlotOf(k, Binding).final)
    && (SlotOf(k, Request).final.Some? ==> SlotOf(k', Request).final == SlotOf(k, Request).final)
  }

  /** The first half of a run: recovery of both files, then which of them are published. */
  method RecoverPair(d: Directory, binding: Bytes, request: Bytes) returns (r: Outcome<(bool, bool)>)
    requires WellFormed(d.disk)
    modifies d
    ensures WellFormed(d.disk)
    ensures old(d.Clean()) ==> d.Clean() && !r.Crashed?
    ensures Sound(old(d.disk)) ==>
              && Sound(d.disk)
              && SlotOf(d.disk, Binding).final == SlotOf(old(d.disk), Binding).final
              && SlotOf(d.disk, Request).final == SlotOf(old(d.disk), Request).final
    ensures Sound(old(d.disk)) && r.Ok? ==>
              && SlotOf(d.disk, Binding) == (if r.value.0 then Exactly(binding) else Slot(None, None, false))
              && SlotOf(d.disk, Request) == (if r.value.1 then Exactly(request) else Slot(None, None, false))
              && (r.value.0 ==> |binding| <= MAX_JSON_BYTES) && (r.value.1 ==> |request| <= MAX_JSON_BYTES)
    ensures Sound(old(d.disk)) && old(d.Clean()) ==>
              (r.Ok? <==>
                && (SlotOf(old(d.disk), Binding).final.Some? ==> Recognisable(SlotOf(old(d.disk), Binding), binding))
                && (SlotOf(old(d.disk), Request).final.Some? ==> Recognisable(SlotOf(old(d.disk), Request), request)))
  {
    hide FailOnce, AllProceed, Ordered;
    var _ :- Recover(d, Request, request);
    var _ :- Recover(d, Binding, binding);
    if Ordered(d.disk) {
      LinkCounts(d.disk, Binding);
      LinkCounts(d.disk, Request);
    }
    var bindingExists :- ExactRootOutput(d, Binding, binding);
    var requestExists :- ExactRootOutput(d, Request, request);
    return Ok((bindingExists, requestExists));
  }

  method PublishPair(d: Directory, binding: Bytes, request: Bytes, ghost invoked: set<(Bytes, Bytes)>)
    returns (r: Outcome<()>)
    requires WellFormed(d.disk)
    modifies d
    ensures WellFormed(d.disk)
    ensures old(d.Clean()) ==> d.Clean() && !r.Crashed?
    // However the run ends, a published file keeps its bytes ...
    ensures Sound(old(d.disk)) ==> Sound(d.disk) && Kept(old(d.disk), d.disk)
    ensures Sound(old(d.disk)) ==>
              && SlotOf(d.disk, Binding).final in {SlotOf(old(d.disk), Binding).final, Some(binding)}
              && SlotOf(d.disk, Request).final in {SlotOf(old(d.disk), Request).final, Some(request)}
    // ... and a binding is never left without the request of its own run.
    ensures Sound(old(d.disk)) && Whole(old(d.disk), invoked) ==> Whole(d.disk, invoked + {(binding, request)})
    ensures Sound(old(d.disk)) && r.Ok? ==>
              SlotOf(d.disk, Binding) == Exactly(binding) && SlotOf(d.disk, Request) == Exactly(request)
    // An undisturbed run succeeds exactly on the admissible disks.
    ensures Sound(old(d.disk)) && old(d.Clean()) ==> (r.Ok? <==> Admissible(old(d.disk), binding, request))
  {
    hide FailOnce, AllProceed;
    var published :- RecoverPair(d, binding, request);
    match published {
      case (true, true) =>
        var sync := d.Sync();
        return Heard(sync, File);
      case (true, false) =>
        return Err(BindingConflict);
      case (false, true) =>
        r := Publish(d, Binding, binding);
      case (false, false) =>
        var _ :- Publish(d, Request, request);
        r := Publish(d, Binding, binding);
    }
  }

  /** One run of the publisher: what it was asked to publish and what befell its calls. */
  datatype Invocation = Invocation(binding: Bytes, request: Bytes, fates: seq<Fate>)

  ghost function Pairs(runs: seq<Invocation>): set<(Bytes, Bytes)> {
    set i | 0 <= i < |runs| :: (runs[i].binding, runs[i].request)
  }

  /**
  Any sequence of runs, one after the other because each holds the directory lock, with any
  inputs, errors and crashes, started on a directory with neither output.  `disks[i]` is the
  disk run i found and the last one is what remains.
  */
  method Campaign(d: Directory, runs: seq<Invocation>) returns (ghost disks: seq<Disk>)
    requires d.disk == Disk(map[], map[], 0)
    modifies d
    ensures |disks| == |runs| + 1 && disks[|runs|] == d.disk
    ensures forall i :: 0 <= i < |disks| ==> Sound(disks[i]) && Whole(disks[i], Pairs(runs[..i]))
    ensures forall i, j :: 0 <= i <= j < |disks| ==> Kept(disks[i], disks[j])
  {
    disks := [d.disk];
    for n := 0 to |runs|
      invariant |disks| == n + 1 && disks[n] == d.disk
      invariant forall i :: 0 <= i <= n ==> Sound(disks[i]) && Whole(disks[i], Pairs(runs[..i]))
      invariant forall i, j :: 0 <= i <= j <= n ==> Kept(disks[i], disks[j])
    {
      d.fates := runs[n].fates;
      var _ := PublishPair(d, runs[n].binding, runs[n].request, Pairs(runs[..n]));
      assert Pairs(runs[..n + 1]) == Pairs(runs[..n]) + {(runs[n].binding, runs[n].request)} by {
        assert runs[..n + 1] == runs[..n] + [runs[n]];
      }
      disks := disks + [d.disk];
    }
  }

  /**
  After any number of failed or crashed runs with one and the same pair, each within the size
  bound, one undisturbed run reports success and leaves just the two files, one link each.
  */
  method Converge(d: Directory, runs: seq<Invocation>, binding: Bytes, request: Bytes) returns (r: Outcome<()>)
    requires d.disk == Disk(map[], map[], 0)
    requires |binding| <= MAX_JSON_BYTES && |request| <= MAX_JSON_BYTES
    requires forall i :: 0 <= i < |runs| ==> runs[i].binding == binding && runs[i].request == request
    modifies d
    ensures r.Ok? && Sound(d.disk)
    ensures SlotOf(d.disk, Binding) == Exactly(binding) && SlotOf(d.disk, Request) == Exactly(request)
    ensures d.disk.inodes[d.disk.entries[Final(Binding)]].nlink == 1
    ensures d.disk.inodes[d.disk.entries[Final(Request)]].nlink == 1
  {
    for n := 0 to |runs|
      invariant Sound(d.disk)
      invariant SlotOf(d.disk, Binding).final in {None, Some(binding)}
      invariant SlotOf(d.disk, Request).final in {None, Some(request)}
      invariant SlotOf(d.disk, Binding).final.Some? ==> SlotOf(d.disk, Request).final.Some?
    {
      d.fates := runs[n].fates;
      var _ := PublishPair(d, binding, request, {(binding, request)});
    }
    d.fates := [];
    r := PublishPair(d, binding, request, {});
    LinkCounts(d.disk, Binding);
    LinkCounts(d.disk, Request);
  }

  /**
  The size bound in `Converge` is needed: bytes above it can be published once, and from then
  on the very run that published them is refused.
  */
  method OversizedRequestSticks(d: Directory, binding: Bytes, request: Bytes) returns (first: Outcome<()>, again: Outcome<()>)
    requires d.disk == Disk(map[], map[], 0)
    requires |request| > MAX_JSON_BYTES
    modifies d
    ensures first.Ok? && !again.Ok?
  {
    d.fates := [];
    first := PublishPair(d, binding, request, {});
    again := PublishPair(d, binding, request, {});
  }
}
