/**
One directory holding the two bootstrap outputs and their deterministic temporary names,
together with the system calls the publisher makes on it.

Every call draws its fate first.  `Proceed` lets it happen, `Fail` makes the call report an
error, `Crash` kills the process.  Only a write can be half done when it fails or crashes;
every other call is atomic.  Once the fates run out all calls proceed, so quantifying over
`fates` quantifies over every way a run can be cut short.
*/
module CrashingDirectory {
  import opened Common

  datatype File = Binding | Request

  function Other(f: File): File { if f == Binding then Request else Binding }

  datatype Name = Final(file: File) | Temp(file: File)

  datatype Inode = Inode(content: Bytes, nlink: nat)

  datatype Disk = Disk(entries: map<Name, nat>, inodes: map<nat, Inode>, next: nat)

  datatype Fate = Proceed | Fail(partial: nat) | Crash(partial: nat)

  datatype Stat = Stat(ino: nat, nlink: nat, size: nat)

  /** What a system call reports to its caller; a dead caller hears nothing. */
  datatype Sys<+T> = Done(value: T) | Failed | Died

  /** The two names of one output: the bytes behind each, and whether they are one inode. */
  datatype Slot = Slot(temp: Option<Bytes>, final: Option<Bytes>, shared: bool)

  ghost predicate AllProceed(fates: seq<Fate>) {
    forall i :: 0 <= i < |fates| ==> fates[i].Proceed?
  }

  /** At most one call fails, and the process does not die. */
  ghost predicate FailOnce(fates: seq<Fate>) {
    fates == [] || (fates[0].Proceed? && FailOnce(fates[1..])) || (fates[0].Fail? && AllProceed(fates[1..]))
  }

  lemma {:induction false} CleanFailsOnce(fates: seq<Fate>)
    requires AllProceed(fates)
    ensures FailOnce(fates)
  {
    if fates != [] {
      CleanFailsOnce(fates[1..]);
    }
  }

  predicate WellFormed(k: Disk) {
    && (forall n :: n in k.entries ==> k.entries[n] in k.inodes)
    && (forall i :: i in k.inodes ==> i < k.next)
  }

  predicate SameInode(k: Disk, m: Name, n: Name) {
    m in k.entries && n in k.entries && k.entries[m] == k.entries[n]
  }

  /** The link count of a name is the number of names of its output that share its inode. */
  ghost predicate Counted(k: Disk, n: Name, twin: Name)
    requires WellFormed(k)
  {
    n in k.entries ==> k.inodes[k.entries[n]].nlink == if SameInode(k, n, twin) then 2 else 1
  }

  /** Link counts are true, and the two outputs never share an inode. */
  ghost predicate Ordered(k: Disk) {
    && WellFormed(k)
    && Counted(k, Final(Binding), Temp(Binding)) && Counted(k, Temp(Binding), Final(Binding))
    && Counted(k, Final(Request), Temp(Request)) && Counted(k, Temp(Request), Final(Request))
    && !SameInode(k, Final(Binding), Final(Request)) && !SameInode(k, Final(Binding), Temp(Request))
    && !SameInode(k, Temp(Binding), Final(Request)) && !SameInode(k, Temp(Binding), Temp(Request))
  }

  function Content(k: Disk, n: Name): Option<Bytes>
    requires WellFormed(k)
  {
    if n in k.entries then Some(k.inodes[k.entries[n]].content) else None
  }

  function SlotOf(k: Disk, f: File): Slot
    requires WellFormed(k)
  {
    Slot(Content(k, Temp(f)), Content(k, Final(f)), SameInode(k, Temp(f), Final(f)))
  }

  function Created(k: Disk, n: Name): Disk {
    Disk(k.entries[n := k.next], k.inodes[k.next := Inode([], 1)], k.next + 1)
  }

  function Appended(k: Disk, ino: nat, bytes: Bytes): Disk
    requires ino in k.inodes
  {
    k.(inodes := k.inodes[ino := k.inodes[ino].(content := k.inodes[ino].content + bytes)])
  }

  function Linked(k: Disk, source: Name, target: Name): Disk
    requires WellFormed(k) && source in k.entries
  {
    var ino := k.entries[source];
    k.(entries := k.entries[target := ino],
       inodes := k.inodes[ino := k.inodes[ino].(nlink := k.inodes[ino].nlink + 1)])
  }

  function Unlinked(k: Disk, n: Name): Disk
    requires WellFormed(k) && n in k.entries
  {
    var ino := k.entries[n];
    var nlink := k.inodes[ino].nlink;
    k.(entries := k.entries - {n},
       inodes := k.inodes[ino := k.inodes[ino].(nlink := if nlink == 0 then 0 else nlink - 1)])
  }

  lemma CreatedTemp(k: Disk, f: File)
    requires Ordered(k) && SlotOf(k, f) == Slot(None, None, false)
    ensures Ordered(Created(k, Temp(f)))
    ensures SlotOf(Created(k, Temp(f)), f) == Slot(Some([]), None, false)
    ensures SlotOf(Created(k, Temp(f)), Other(f)) == SlotOf(k, Other(f))
  {
  }

  lemma AppendedTemp(k: Disk, f: File, bytes: Bytes)
    requires Ordered(k) && SlotOf(k, f) == Slot(Some([]), None, false)
    ensures Ordered(Appended(k, k.entries[Temp(f)], bytes))
    ensures SlotOf(Appended(k, k.entries[Temp(f)], bytes), f) == Slot(Some(bytes), None, false)
    ensures SlotOf(Appended(k, k.entries[Temp(f)], bytes), Other(f)) == SlotOf(k, Other(f))
  {
    assert [] + bytes == bytes;
  }

  lemma LinkedFinal(k: Disk, f: File)
    requires Ordered(k) && SlotOf(k, f).temp.Some? && SlotOf(k, f).final.None?
    ensures Ordered(Linked(k, Temp(f), Final(f)))
    ensures SlotOf(Linked(k, Temp(f), Final(f)), f) == Slot(SlotOf(k, f).temp, SlotOf(k, f).temp, true)
    ensures SlotOf(Linked(k, Temp(f), Final(f)), Other(f)) == SlotOf(k, Other(f))
  {
  }

  lemma UnlinkedTemp(k: Disk, f: File)
    requires Ordered(k) && SlotOf(k, f).temp.Some?
    ensures Ordered(Unlinked(k, Temp(f)))
    ensures SlotOf(Unlinked(k, Temp(f)), f) == Slot(None, SlotOf(k, f).final, false)
    ensures SlotOf(Unlinked(k, Temp(f)), Other(f)) == SlotOf(k, Other(f))
  {
  }

  class Directory {
    var disk: Disk
    var fates: seq<Fate>

    constructor ()
      ensures disk == Disk(map[], map[], 0) && fates == []
    {
      disk, fates := Disk(map[], map[], 0), [];
    }

    ghost predicate Clean()
      reads this
    {
      AllProceed(fates)
    }

    method Draw() returns (fate: Fate)
      modifies this`fates
      ensures fate == if old(fates) == [] then Proceed else old(fates)[0]
      ensures fates == if old(fates) == [] then [] else old(fates)[1..]
      ensures old(Clean()) ==> Clean() && fate.Proceed?
      ensures old(FailOnce(fates)) ==> FailOnce(fates) && !fate.Crash? && (fate.Fail? ==> Clean())
    {
      if FailOnce(fates) && fates != [] && fates[0].Fail? { CleanFailsOnce(fates[1..]); }
      if fates == [] {
        fate := Proceed;
      } else {
        fate, fates := fates[0], fates[1..];
      }
    }

    method StatOf(n: Name) returns (r: Sys<Option<Stat>>)
      requires WellFormed(disk)
      modifies this`fates
      ensures old(Clean()) ==> Clean() && r.Done?
      ensures old(FailOnce(fates)) ==> FailOnce(fates) && !r.Died? && (r.Failed? ==> Clean())
      ensures r.Done? ==> r.value ==
                          if n !in disk.entries then None
                          else
                            var ino := disk.entries[n];
                            Some(Stat(ino, disk.inodes[ino].nlink, |disk.inodes[ino].content|))
    {
      var fate := Draw();
      match fate {
        case Proceed =>
          if n in disk.entries {
            var ino := disk.entries[n];
            r := Done(Some(Stat(ino, disk.inodes[ino].nlink, |disk.inodes[ino].content|)));
          } else {
            r := Done(None);
          }
        case Fail(_) => r := Failed;
        case Crash(_) => r := Died;
      }
    }

    method Read(n: Name) returns (r: Sys<Bytes>)
      requires WellFormed(disk)
      modifies this`fates
      ensures old(Clean()) ==> Clean() && !r.Died? && (r.Done? <==> n in disk.entries)
      ensures old(FailOnce(fates)) ==> FailOnce(fates) && !r.Died? && (r.Failed? && n in disk.entries ==> Clean())
      ensures r.Done? ==> Content(disk, n) == Some(r.value)
    {
      var fate := Draw();
      match fate {
        case Proceed => r := if n in disk.entries then Done(disk.inodes[disk.entries[n]].content) else Failed;
        case Fail(_) => r := Failed;
        case Crash(_) => r := Died;
      }
    }

    /** Exclusive creation: an existing name makes it fail. */
    method Create(n: Name) returns (r: Sys<nat>)
      requires WellFormed(disk)
      modifies this
      ensures WellFormed(disk)
      ensures old(Clean()) ==> Clean() && !r.Died? && (r.Done? <==> n !in old(disk).entries)
      ensures old(FailOnce(fates)) ==> FailOnce(fates) && !r.Died? && (r.Failed? && n !in old(disk).entries ==> Clean())
      ensures r.Done? ==> n !in old(disk).entries && disk == Created(old(disk), n) && r.value == disk.entries[n]
      ensures !r.Done? ==> disk == old(disk)
    {
      var fate := Draw();
      match fate {
        case Proceed =>
          if n in disk.entries {
            r := Failed;
          } else {
            r := Done(disk.next);
            disk := Created(disk, n);
          }
        case Fail(_) => r := Failed;
        case Crash(_) => r := Died;
      }
    }

    /** Appends to an open file; a failed or interrupted write leaves some prefix behind. */
    method Write(ino: nat, bytes: Bytes) returns (r: Sys<()>, ghost kept: Bytes)
      requires WellFormed(disk) && ino in disk.inodes
      modifies this
      ensures WellFormed(disk)
      ensures old(Clean()) ==> Clean() && r.Done?
      ensures old(FailOnce(fates)) ==> FailOnce(fates) && !r.Died? && (r.Failed? ==> Clean())
      ensures kept <= bytes && (r.Done? ==> kept == bytes) && disk == Appended(old(disk), ino, kept)
    {
      var fate := Draw();
      var k := |bytes|;
      match fate {
        case Proceed => r := Done(());
        case Fail(partial) =>
          k := if partial < |bytes| then partial else |bytes|;
          r := Failed;
        case Crash(partial) =>
          k := if partial < |bytes| then partial else |bytes|;
          r := Died;
      }
      kept := bytes[..k];
      disk := Appended(disk, ino, bytes[..k]);
    }

    method HardLink(source: Name, target: Name) returns (r: Sys<()>)
      requires WellFormed(disk)
      modifies this
      ensures WellFormed(disk)
      ensures old(Clean()) ==>
                && Clean() && !r.Died?
                && (r.Done? <==> source in old(disk).entries && target !in old(disk).entries)
      ensures old(FailOnce(fates)) ==> FailOnce(fates) && !r.Died? && (r.Failed? && source in old(disk).entries && target !in old(disk).entries ==> Clean())
      ensures r.Done? ==> && source in old(disk).entries && target !in old(disk).entries
                          && disk == Linked(old(disk), source, target)
      ensures !r.Done? ==> disk == old(disk)
    {
      var fate := Draw();
      match fate {
        case Proceed =>
          if source in disk.entries && target !in disk.entries {
            disk := Linked(disk, source, target);
            r := Done(());
          } else {
            r := Failed;
          }
        case Fail(_) => r := Failed;
        case Crash(_) => r := Died;
      }
    }

    method Unlink(n: Name) returns (r: Sys<()>)
      requires WellFormed(disk)
      modifies this
      ensures WellFormed(disk)
      ensures old(Clean()) ==> Clean() && !r.Died? && (r.Done? <==> n in old(disk).entries)
      ensures old(FailOnce(fates)) ==> FailOnce(fates) && !r.Died? && (r.Failed? && n in old(disk).entries ==> Clean())
      ensures r.Done? ==> n in old(disk).entries && disk == Unlinked(old(disk), n)
      ensures !r.Done? ==> disk == old(disk)
    {
      var fate := Draw();
      match fate {
        case Proceed =>
          if n in disk.entries {
            disk := Unlinked(disk, n);
            r := Done(());
          } else {
            r := Failed;
          }
        case Fail(_) => r := Failed;
        case Crash(_) => r := Died;
      }
    }

    /** Flushing a file or its directory: nothing a later process can see, but it may fail. */
    method Sync() returns (r: Sys<()>)
      modifies this`fates
      ensures old(Clean()) ==> Clean() && r.Done?
      ensures old(FailOnce(fates)) ==> FailOnce(fates) && !r.Died? && (r.Failed? ==> Clean())
    {
      var fate := Draw();
      match fate {
        case Proceed => r := Done(());
        case Fail(_) => r := Failed;
        case Crash(_) => r := Died;
      }
    }
  }
}
