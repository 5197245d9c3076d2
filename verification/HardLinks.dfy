/**
Hard links of an exported archive: normalising a link's target, and resolving every link to the
content at the end of its chain with memoisation in the file table.
*/
module HardLinks {
  import opened Common

  // ---- Target normalisation ----

  /** A POSIX path as its parts; an absolute one has the part `/` first, `.` and the empty text have none. */
  datatype PosixPath = PosixPath(empty: bool, absolute: bool, parts: seq<string>)

  /** Where the names of the parts lead, step by step; None once a `..` has nothing to climb from. */
  function Walk(from: seq<string>, parts: seq<string>): Option<seq<string>> {
    if parts == [] then Some(from)
    else
      var at :- Walk(from, parts[..|parts| - 1]);
      var part := parts[|parts| - 1];
      if part == "." then Some(at)
      else if part != ".." then Some(at + [part])
      else if at == [] then None
      else Some(at[..|at| - 1])
  }

  /** Names gone down less names climbed up. */
  function Depth(parts: seq<string>): int {
    if parts == [] then 0
    else
      Depth(parts[..|parts| - 1])
      + (if parts[|parts| - 1] == "." then 0 else if parts[|parts| - 1] == ".." then -1 else 1)
  }

  lemma {:induction false} WalkDepth(from: seq<string>, parts: seq<string>)
    ensures Walk(from, parts).Some? <==> forall k :: 0 <= k <= |parts| ==> |from| + Depth(parts[..k]) >= 0
    ensures Walk(from, parts).Some? ==> |Walk(from, parts).value| == |from| + Depth(parts)
  {
    assert parts[..|parts|] == parts;
    if parts == [] {
    } else {
      var front := parts[..|parts| - 1];
      WalkDepth(from, front);
      assert forall k :: 0 <= k <= |front| ==> front[..k] == parts[..k];
      if Walk(from, parts).Some? {
        forall k | 0 <= k <= |parts|
          ensures |from| + Depth(parts[..k]) >= 0
        {
          if k < |parts| {
            assert |from| + Depth(front[..k]) >= 0;
          }
        }
      }
      if forall k :: 0 <= k <= |parts| ==> |from| + Depth(parts[..k]) >= 0 {
        forall k | 0 <= k <= |front|
          ensures |from| + Depth(front[..k]) >= 0
        {
          assert |from| + Depth(parts[..k]) >= 0;
        }
        assert |from| + Depth(parts[..|parts|]) >= 0;
      }
    }
  }

  lemma {:induction false} WalkStaysPlain(from: seq<string>, parts: seq<string>)
    requires ".." !in from && "." !in from && Walk(from, parts).Some?
    ensures ".." !in Walk(from, parts).value && "." !in Walk(from, parts).value
  {
    if parts != [] {
      WalkStaysPlain(from, parts[..|parts| - 1]);
    }
  }

  /** Normalising in two legs is normalising at once, so a normal form is its own. */
  lemma {:induction false} WalkTwice(from: seq<string>, a: seq<string>, b: seq<string>)
    ensures Walk(from, a + b) == if Walk(from, a).None? then None else Walk(Walk(from, a).value, b)
    decreases |b|
  {
    if b == [] {
      assert a + b == a;
    } else {
      WalkTwice(from, a, b[..|b| - 1]);
      assert (a + b)[..|a + b| - 1] == a + b[..|b| - 1];
    }
  }

  lemma {:induction false} WalkPlain(from: seq<string>, parts: seq<string>)
    requires ".." !in parts && "." !in parts
    ensures Walk(from, parts) == Some(from + parts)
  {
    if parts == [] {
      assert from + parts == from;
    } else {
      var front, last := parts[..|parts| - 1], parts[|parts| - 1];
      WalkPlain(from, front);
      assert last in parts;
      assert from + parts == from + front + [last];
    }
  }

  /** A name and a `..` after it cancel, wherever they stand. */
  lemma WalkCancels(from: seq<string>, a: seq<string>, name: string, b: seq<string>)
    requires name != "." && name != ".."
    ensures Walk(from, a + [name, ".."] + b) == Walk(from, a + b)
    ensures Walk(from, a + ["."] + b) == Walk(from, a + b)
  {
    WalkTwice(from, a, b);
    WalkTwice(from, a + [name, ".."], b);
    WalkTwice(from, a, [name, ".."]);
    WalkTwice(from, a + ["."], b);
    WalkTwice(from, a, ["."]);
    if Walk(from, a).Some? {
      var at := Walk(from, a).value;
      assert [name, ".."][..1] == [name] && [name][..0] == [] && ["."][..0] == [];
      assert (at + [name])[..|at|] == at;
    }
  }

  /** A relative hard link's target without `.` leads to it; `a/b/../c` leads to `a/c`. */
  lemma WalkExample()
    ensures Walk([], ["a", "b", "..", "c"]) == Some(["a", "c"])
  {
    WalkCancels([], ["a"], "b", ["c"]);
    assert ["a"] + ["b", ".."] + ["c"] == ["a", "b", "..", "c"] && ["a"] + ["c"] == ["a", "c"];
    WalkPlain([], ["a", "c"]);
    assert [] + ["a", "c"] == ["a", "c"];
  }

  method SafeLinkTarget(parent: seq<string>, target: PosixPath, symlink: bool) returns (r: Option<seq<string>>)
    ensures r == if target.empty || (target.absolute && !symlink) then None
                 else Walk(if target.absolute || !symlink then [] else parent, target.parts)
    ensures !symlink && !target.empty && !target.absolute ==>
      (r.Some? <==> forall k :: 0 <= k <= |target.parts| ==> Depth(target.parts[..k]) >= 0)
    ensures !symlink && r.Some? ==> ".." !in r.value && Walk([], r.value) == r
  {
    hide Depth;
    if target.empty || (target.absolute && !symlink) { return None; }
    var parts := if target.absolute || !symlink then [] else parent;
    ghost var start := parts;
    var i := 0;
    while i < |target.parts|
      invariant 0 <= i <= |target.parts|
      invariant Walk(start, target.parts[..i]) == Some(parts)
    {
      var part := target.parts[i];
      assert target.parts[..i + 1][..i] == target.parts[..i];
      if part == ".." {
        if parts == [] {
          Climbs(start, target.parts, i);
          if !symlink { WalkDepth([], target.parts); }
          return None;
        }
        parts := parts[..|parts| - 1];
      } else if part != "." {
        parts := parts + [part];
      }
      i := i + 1;
    }
    assert target.parts[..|target.parts|] == target.parts;
    if !symlink {
      WalkDepth([], target.parts);
      WalkStaysPlain([], target.parts);
      WalkPlain([], parts);
      assert [] + parts == parts;
    }
    return Some(parts);
  }

  /** A walk that has failed stays failed. */
  lemma Climbs(from: seq<string>, parts: seq<string>, i: nat)
    requires i < |parts| && Walk(from, parts[..i]) == Some([]) && parts[i] == ".."
    ensures Walk(from, parts).None?
  {
    assert parts[..i + 1][..i] == parts[..i];
    assert Walk(from, parts[..i + 1]).None?;
    WalkTwice(from, parts[..i + 1], parts[i + 1..]);
    assert parts == parts[..i + 1] + parts[i + 1..];
  }

  // ---- Resolution ----

  type Name = string

  /** `n` links after `name` stands a regular file with this content. */
  predicate Ends(files: map<Name, Bytes>, links: map<Name, Name>, name: Name, n: nat, content: Bytes)
    decreases n
  {
    if name in files then n == 0 && files[name] == content
    else n > 0 && name in links && Ends(files, links, links[name], n - 1, content)
  }

  ghost predicate EndsIn(files: map<Name, Bytes>, links: map<Name, Name>, name: Name, content: Bytes) {
    exists n: nat :: Ends(files, links, name, n, content)
  }

  /** `k` links lead from one name to another, none of them passing a file. */
  predicate Leads(files: map<Name, Bytes>, links: map<Name, Name>, name: Name, k: nat, to: Name)
    decreases k
  {
    if k == 0 then name == to
    else name !in files && name in links && Leads(files, links, links[name], k - 1, to)
  }

  ghost predicate Awaits(files: map<Name, Bytes>, links: map<Name, Name>, name: Name, other: Name) {
    exists k: nat :: k > 0 && Leads(files, links, name, k, other)
  }

  lemma {:induction false} EndsOnce(files: map<Name, Bytes>, links: map<Name, Name>, name: Name, m: nat, n: nat, b: Bytes, c: Bytes)
    requires Ends(files, links, name, m, b) && Ends(files, links, name, n, c)
    ensures m == n && b == c
    decreases n
  {
    if name !in files {
      EndsOnce(files, links, links[name], m - 1, n - 1, b, c);
    }
  }

  lemma {:induction false} EndsAlong(files: map<Name, Bytes>, links: map<Name, Name>, name: Name, k: nat, to: Name, n: nat, c: Bytes)
    requires Leads(files, links, name, k, to) && Ends(files, links, name, n, c)
    ensures n >= k && Ends(files, links, to, n - k, c)
    decreases k
  {
    if k > 0 {
      EndsAlong(files, links, links[name], k - 1, to, n - 1, c);
    }
  }

  /** A chain that comes back to a name reaches no file. */
  lemma CycleHasNoEnd(files: map<Name, Bytes>, links: map<Name, Name>, name: Name, k: nat, c: Bytes)
    requires k > 0 && Leads(files, links, name, k, name)
    ensures !EndsIn(files, links, name, c)
  {
    if EndsIn(files, links, name, c) {
      var n: nat :| Ends(files, links, name, n, c);
      EndsAlong(files, links, name, k, name, n, c);
      EndsOnce(files, links, name, n, n - k, c, c);
    }
  }

  lemma {:induction false} LeadsOn(files: map<Name, Bytes>, links: map<Name, Name>, name: Name, k: nat, to: Name)
    requires Leads(files, links, name, k, to) && to !in files && to in links
    ensures Leads(files, links, name, k + 1, links[to])
    decreases k
  {
    if k > 0 {
      LeadsOn(files, links, links[name], k - 1, to);
    }
  }

  class Export {
    const originals: map<Name, Bytes>
    const hardlinks: map<Name, Name>
    var files: map<Name, Bytes>
    var resolving: set<Name>

    constructor (files: map<Name, Bytes>, hardlinks: map<Name, Name>)
      ensures originals == this.files == files && this.hardlinks == hardlinks && resolving == {} && Valid()
    {
      originals, this.hardlinks := files, hardlinks;
      this.files, resolving := files, {};
      new;
      forall name | name in files
        ensures EndsIn(files, hardlinks, name, files[name])
      {
        assert Ends(files, hardlinks, name, 0, files[name]);
      }
    }

    /** The table holds the originals, and every entry is the end of its name's chain. */
    ghost predicate Valid()
      reads this
    {
      && originals.Keys <= files.Keys
      && (forall name :: name in files ==> EndsIn(originals, hardlinks, name, files[name]))
      && resolving <= hardlinks.Keys
    }

    /** Everything being resolved waits for `name`. */
    ghost predicate Waiting(name: Name)
      reads this
    {
      forall r :: r in resolving ==> Awaits(originals, hardlinks, r, name)
    }

    method Resolve(name: Name) returns (content: Option<Bytes>)
      requires Valid() && Waiting(name)
      modifies this
      ensures Valid()
      ensures forall c :: content == Some(c) <==> EndsIn(originals, hardlinks, name, c)
      ensures forall f :: f in old(files) ==> f in files && files[f] == old(files[f])
      ensures forall f :: f in files && f !in old(files) ==> f in hardlinks
      ensures content.Some? ==> resolving == old(resolving) && name in files && files[name] == content.value
      decreases |hardlinks.Keys - resolving|
    {
      if name in files {
        OneEnd(name, files[name]);
        return Some(files[name]);
      }
      if name in resolving || name !in hardlinks {
        NoEnd(name);
        return None;
      }
      var next := hardlinks[name];
      ghost var was := resolving;
      resolving := resolving + {name};
      WaitFor(name, was);
      assert hardlinks.Keys - resolving < hardlinks.Keys - was;
      Fewer(hardlinks.Keys - resolving, hardlinks.Keys - was);
      content := Resolve(next);
      OneMore(name);
      if content.None? { return; }
      resolving := resolving - {name};
      files := files[name := content.value];
      assert resolving == was;
    }

    lemma OneEnd(name: Name, content: Bytes)
      requires EndsIn(originals, hardlinks, name, content)
      ensures forall c :: content == c <==> EndsIn(originals, hardlinks, name, c)
    {
      forall c | EndsIn(originals, hardlinks, name, c)
        ensures c == content
      {
        var m: nat :| Ends(originals, hardlinks, name, m, c);
        var n: nat :| Ends(originals, hardlinks, name, n, content);
        EndsOnce(originals, hardlinks, name, m, n, c, content);
      }
    }

    lemma NoEnd(name: Name)
      requires Valid() && Waiting(name) && name !in files && (name in resolving || name !in hardlinks)
      ensures forall c :: !EndsIn(originals, hardlinks, name, c)
    {
      forall c
        ensures !EndsIn(originals, hardlinks, name, c)
      {
        if name in hardlinks {
          var k: nat :| k > 0 && Leads(originals, hardlinks, name, k, name);
          CycleHasNoEnd(originals, hardlinks, name, k, c);
        }
      }
    }

    /** Whoever waited for a name waits for its target, and so does the name. */
    lemma WaitFor(name: Name, was: set<Name>)
      requires name in hardlinks && name !in originals && resolving == was + {name}
      requires forall r :: r in was ==> Awaits(originals, hardlinks, r, name)
      ensures Waiting(hardlinks[name])
    {
      forall r | r in resolving
        ensures Awaits(originals, hardlinks, r, hardlinks[name])
      {
        if r in was {
          var k: nat :| k > 0 && Leads(originals, hardlinks, r, k, name);
          LeadsOn(originals, hardlinks, r, k, name);
          assert k + 1 > 0 && Leads(originals, hardlinks, r, k + 1, hardlinks[name]);
        } else {
          assert Leads(originals, hardlinks, name, 1, hardlinks[name]);
        }
      }
    }

    lemma OneMore(name: Name)
      requires name in hardlinks && name !in originals
      ensures forall c :: EndsIn(originals, hardlinks, name, c) <==> EndsIn(originals, hardlinks, hardlinks[name], c)
    {
      forall c
        ensures EndsIn(originals, hardlinks, name, c) <==> EndsIn(originals, hardlinks, hardlinks[name], c)
      {
        if EndsIn(originals, hardlinks, name, c) {
          var n: nat :| Ends(originals, hardlinks, name, n, c);
          assert Ends(originals, hardlinks, hardlinks[name], n - 1, c);
        }
        if EndsIn(originals, hardlinks, hardlinks[name], c) {
          var n: nat :| Ends(originals, hardlinks, hardlinks[name], n, c);
          assert Ends(originals, hardlinks, name, n + 1, c);
        }
      }
    }

    /** All links in any order. */
    method ResolveAll(order: seq<Name>) returns (ok: bool)
      requires Valid() && resolving == {} && files == originals
      requires forall name :: name in order <==> name in hardlinks
      modifies this
      ensures ok <==> forall name :: name in hardlinks ==> exists c :: EndsIn(originals, hardlinks, name, c)
      ensures ok ==> Complete(originals, hardlinks, files)
    {
      var i := 0;
      while i < |order|
        invariant 0 <= i <= |order| && Valid() && resolving == {}
        invariant forall j :: 0 <= j < i ==> order[j] in files
        invariant forall f :: f in files ==> f in originals || f in hardlinks
      {
        var content := Resolve(order[i]);
        if content.None? {
          assert order[i] in hardlinks;
          return false;
        }
        i := i + 1;
      }
      forall name | name in hardlinks
        ensures name in files
      {
        var j :| 0 <= j < |order| && order[j] == name;
      }
      assert files.Keys == originals.Keys + hardlinks.Keys;
      return true;
    }
  }

  lemma Fewer(a: set<Name>, b: set<Name>)
    requires a < b
    ensures |a| < |b|
  {
    var x :| x in b && x !in a;
    Subset(a, b - {x});
  }

  /** Every name of the export with the content at the end of its chain. */
  ghost predicate Complete(originals: map<Name, Bytes>, links: map<Name, Name>, files: map<Name, Bytes>) {
    && files.Keys == originals.Keys + links.Keys
    && forall name :: name in files ==> EndsIn(originals, links, name, files[name])
  }

  /** There is one complete table, so the order of resolution does not show. */
  lemma CompleteOnce(originals: map<Name, Bytes>, links: map<Name, Name>, a: map<Name, Bytes>, b: map<Name, Bytes>)
    requires Complete(originals, links, a) && Complete(originals, links, b)
    ensures a == b
  {
    forall name | name in a
      ensures a[name] == b[name]
    {
      var m: nat :| Ends(originals, links, name, m, a[name]);
      var n: nat :| Ends(originals, links, name, n, b[name]);
      EndsOnce(originals, links, name, m, n, a[name], b[name]);
    }
  }
}
