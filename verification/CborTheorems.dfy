/** Decoding accepts exactly the canonical encodings, with matching limits on both sides. */
module CborTheorems {
  import opened Common
  import opened CanonicalCbor

  // ---- Sorting by encoded key ----

  lemma {:induction false} LexAsymmetric(a: Bytes, b: Bytes)
    requires LexLess(a, b)
    ensures !LexLess(b, a) && a != b
  {
    if a != [] && a[0] == b[0] {
      LexAsymmetric(a[1..], b[1..]);
    }
  }

  lemma {:induction false} LexTotal(a: Bytes, b: Bytes)
    ensures a == b || LexLess(a, b) || LexLess(b, a)
  {
    if a != [] && b != [] && a[0] == b[0] {
      LexTotal(a[1..], b[1..]);
      assert a == [a[0]] + a[1..] && b == [b[0]] + b[1..];
    }
  }

  /** After `k` common bytes the one text ends or has the smaller byte. */
  ghost predicate LessAt(a: Bytes, b: Bytes, k: int) {
    0 <= k <= |a| && k < |b| && a[..k] == b[..k] && (k == |a| || a[k] < b[k])
  }

  lemma LessShift(a: Bytes, b: Bytes, k: nat)
    requires a != [] && b != [] && a[0] == b[0]
    ensures LessAt(a, b, k + 1) <==> LessAt(a[1..], b[1..], k)
  {
    if k < |a| && k < |b| {
      assert a[..k + 1] == [a[0]] + a[1..][..k] && b[..k + 1] == [b[0]] + b[1..][..k];
      assert a[1..][..k] == a[..k + 1][1..] && b[1..][..k] == b[..k + 1][1..];
    }
  }

  lemma {:induction false} LexAt(a: Bytes, b: Bytes) returns (k: nat)
    requires LexLess(a, b)
    ensures LessAt(a, b, k)
  {
    if a == [] || a[0] < b[0] {
      k := 0;
    } else {
      var j := LexAt(a[1..], b[1..]);
      LessShift(a, b, j);
      k := j + 1;
    }
  }

  lemma {:induction false} AtLex(a: Bytes, b: Bytes, k: nat)
    requires LessAt(a, b, k)
    ensures LexLess(a, b)
  {
    if k > 0 {
      assert a[0] == a[..k][0] == b[..k][0] == b[0];
      LessShift(a, b, k - 1);
      AtLex(a[1..], b[1..], k - 1);
    }
  }

  /** The first byte that differs decides, and a proper prefix comes first. */
  lemma LexExact(a: Bytes, b: Bytes)
    ensures LexLess(a, b) <==> exists k :: LessAt(a, b, k)
  {
    hide LexLess, LessAt;
    if LexLess(a, b) {
      var k := LexAt(a, b);
    }
    if exists k :: LessAt(a, b, k) {
      var k :| LessAt(a, b, k);
      Natural(a, b, k);
      AtLex(a, b, k);
    }
  }

  lemma Natural(a: Bytes, b: Bytes, k: int)
    requires LessAt(a, b, k)
    ensures k >= 0
  {
  }

  ghost predicate Ascending(es: seq<Entry>) {
    forall i :: 0 <= i < |es| - 1 ==> LexLess(es[i].key.bytes, es[i + 1].key.bytes)
  }

  ghost predicate Unordered(a: Entry, b: Entry) {
    LexLess(b.key.bytes, a.key.bytes)
  }

  ghost predicate Sorted(es: seq<Entry>) {
    forall i :: 0 <= i < |es| - 1 ==> !Unordered(es[i], es[i + 1])
  }

  lemma {:induction false} InsertKeepsSorted(e: Entry, s: seq<Entry>)
    requires Sorted(s)
    ensures Sorted(Insert(e, s)) && multiset(Insert(e, s)) == multiset(s) + multiset{e}
    ensures Insert(e, s)[0] == e || (s != [] && Insert(e, s)[0] == s[0])
  {
    if s == [] || !LexLess(s[0].key.bytes, e.key.bytes) {
    } else {
      InsertKeepsSorted(e, s[1..]);
      LexAsymmetric(s[0].key.bytes, e.key.bytes);
      assert s == [s[0]] + s[1..];
      assert s[1..] != [] ==> !Unordered(s[0], s[1]);
    }
  }

  lemma {:induction false} SortSorts(s: seq<Entry>)
    ensures Sorted(Sort(s)) && multiset(Sort(s)) == multiset(s) && |Sort(s)| == |s|
  {
    hide Insert, Unordered;
    if s != [] {
      SortSorts(s[1..]);
      InsertKeepsSorted(s[0], Sort(s[1..]));
      assert s == [s[0]] + s[1..];
    }
    assert |Sort(s)| == |multiset(Sort(s))| && |s| == |multiset(s)|;
  }

  /** Without equal keys the sorted order is strict, and strict order is left alone by sorting. */
  lemma SortedDistinctAscends(s: seq<Entry>)
    requires Sorted(s) && !HasTwins(s)
    ensures Ascending(s)
  {
    forall i | 0 <= i < |s| - 1
      ensures LexLess(s[i].key.bytes, s[i + 1].key.bytes)
    {
      LexTotal(s[i].key.bytes, s[i + 1].key.bytes);
      assert !Unordered(s[i], s[i + 1]);
    }
  }

  lemma {:induction false} SortAscending(s: seq<Entry>)
    requires Ascending(s)
    ensures Sort(s) == s && !HasTwins(s)
  {
    if s != [] {
      SortAscending(s[1..]);
      assert s == [s[0]] + s[1..];
      if |s| > 1 {
        LexAsymmetric(s[0].key.bytes, s[1].key.bytes);
      }
    }
    forall i | 0 <= i < |s| - 1
      ensures s[i].key.bytes != s[i + 1].key.bytes
    {
      LexAsymmetric(s[i].key.bytes, s[i + 1].key.bytes);
    }
  }

  // ---- Canonical forms are stable ----

  lemma {:induction false} CanonAllOf(items: seq<Value>, forms: seq<Form>)
    requires |items| == |forms| && forall i :: 0 <= i < |items| ==> Canon(items[i]) == Some(forms[i])
    ensures CanonAll(items) == Some(forms)
  {
    if items != [] {
      CanonAllOf(items[1..], forms[1..]);
      assert forms == [forms[0]] + forms[1..];
    }
  }

  lemma {:induction false} CanonEntriesOf(entries: seq<Pair>, es: seq<Entry>)
    requires |entries| == |es| && forall i :: 0 <= i < |es| ==> CanonPair(entries[i]) == Some(es[i])
    ensures CanonEntries(entries) == Some(es)
  {
    if es != [] {
      CanonEntriesOf(entries[1..], es[1..]);
      assert es == [es[0]] + es[1..];
    }
  }

  lemma {:induction false} CanonAllAt(items: seq<Value>, i: nat)
    requires CanonAll(items).Some? && i < |items|
    ensures Canon(items[i]) == Some(CanonAll(items).value[i])
  {
    if i > 0 {
      CanonAllAt(items[1..], i - 1);
    }
  }

  lemma {:induction false} CanonEntriesAt(entries: seq<Pair>, i: nat)
    requires CanonEntries(entries).Some? && i < |entries|
    ensures CanonPair(entries[i]) == Some(CanonEntries(entries).value[i])
  {
    if i > 0 {
      CanonEntriesAt(entries[1..], i - 1);
    }
  }

  ghost predicate Stable(f: Form) {
    Canon(f.value) == Some(f)
  }

  ghost predicate StableEntry(e: Entry) {
    Stable(e.key) && Stable(e.value)
  }

  lemma SortKeepsStable(es: seq<Entry>)
    requires forall i :: 0 <= i < |es| ==> StableEntry(es[i])
    ensures |Sort(es)| == |es| && forall i :: 0 <= i < |es| ==> StableEntry(Sort(es)[i])
  {
    SortSorts(es);
    forall i | 0 <= i < |es|
      ensures StableEntry(Sort(es)[i])
    {
      assert Sort(es)[i] in multiset(Sort(es));
      assert Sort(es)[i] in es;
    }
  }

  /** The canonical form of a canonical form is itself. */
  lemma {:induction false} CanonStable(v: Value)
    requires Canon(v).Some?
    ensures Stable(Canon(v).value)
    decreases v, 1
  {
    match v
    case Array(items) => CanonAllStable(items);
      var forms := CanonAll(items).value;
      CanonAllOf(Values(forms), forms);
    case Map(entries) => CanonEntriesStable(entries);
      var es := CanonEntries(entries).value;
      var sorted := Sort(es);
      SortKeepsStable(es);
      CanonEntriesOf(Pairs(sorted), sorted);
      SortSorts(es);
      SortedDistinctAscends(sorted);
      SortAscending(sorted);
    case _ =>
  }

  lemma {:induction false} CanonAllStable(items: seq<Value>)
    requires CanonAll(items).Some?
    ensures forall i :: 0 <= i < |items| ==> Stable(CanonAll(items).value[i])
    decreases items, 0
  {
    forall i | 0 <= i < |items|
      ensures Stable(CanonAll(items).value[i])
    {
      CanonAllAt(items, i);
      CanonStable(items[i]);
    }
  }

  lemma {:induction false} CanonPairStable(p: Pair)
    requires CanonPair(p).Some?
    ensures StableEntry(CanonPair(p).value)
    decreases p, 1
  {
    CanonStable(p.key);
    CanonStable(p.value);
  }

  lemma {:induction false} CanonEntriesStable(entries: seq<Pair>)
    requires CanonEntries(entries).Some?
    ensures forall i :: 0 <= i < |entries| ==> StableEntry(CanonEntries(entries).value[i])
    decreases entries, 0
  {
    forall i | 0 <= i < |entries|
      ensures StableEntry(CanonEntries(entries).value[i])
    {
      CanonEntriesAt(entries, i);
      CanonPairStable(entries[i]);
    }
  }

  // ---- Whatever parses is canonical ----

  /** The form read from `input[pos..end]` when `spent` items were charged at this depth. */
  ghost predicate ReadsForm(input: Bytes, pos: nat, end: nat, depth: nat, spent: int, v: Value, f: Form) {
    && pos <= end <= |input|
    && Canon(v) == Some(f) && f.value == v && f.bytes == input[pos..end]
    && f.items == spent && depth + f.height <= MAX_DEPTH
  }

  /** The same for consecutive members of a container whose members sit at `depth`. */
  ghost predicate ReadsForms(input: Bytes, pos: nat, end: nat, depth: nat, spent: int, forms: seq<Form>) {
    && pos <= end <= |input|
    && Concat(forms) == input[pos..end] && TotalItems(forms) == spent
    && depth + Deepest(forms) <= MAX_DEPTH + 1
  }

  lemma SimpleSound(input: Bytes, max: nat, pos: nat, depth: nat, items: nat)
    requires pos < |input| && Parse(input, max, pos, depth, items).Some? && input[pos] / 32 == 7
    ensures var r := Parse(input, max, pos, depth, items).value;
            && Canon(r.value).Some? && r.items <= MAX_TOTAL_ITEMS
            && ReadsForm(input, pos, r.pos, depth, r.items - items, r.value, Canon(r.value).value)
  {
    assert input[pos..pos + 1] == [input[pos]];
  }

  lemma ScalarSound(input: Bytes, max: nat, pos: nat, depth: nat, items: nat)
    requires pos < |input| && Parse(input, max, pos, depth, items).Some? && input[pos] / 32 < 4
    ensures var r := Parse(input, max, pos, depth, items).value;
            && Canon(r.value).Some? && r.items <= MAX_TOTAL_ITEMS
            && ReadsForm(input, pos, r.pos, depth, r.items - items, r.value, Canon(r.value).value)
  {
    ReadHeadSound(input, pos);
    var (n, next) := ReadArgument(input, pos + 1, input[pos] % 32).value;
    var r := Parse(input, max, pos, depth, items).value;
    assert input[pos..r.pos] == input[pos..next] + input[next..r.pos];
  }

  lemma {:induction false} ParseSound(input: Bytes, max: nat, pos: nat, depth: nat, items: nat)
    returns (f: Form)
    requires pos <= |input| && Parse(input, max, pos, depth, items).Some?
    ensures var r := Parse(input, max, pos, depth, items).value;
            ReadsForm(input, pos, r.pos, depth, r.items - items, r.value, f) && r.items <= MAX_TOTAL_ITEMS
    decreases |input| - pos, 1
  {
    var r := Parse(input, max, pos, depth, items).value;
    if input[pos] / 32 == 7 {
      f := Canon(r.value).value;
      SimpleSound(input, max, pos, depth, items);
    } else if input[pos] / 32 < 4 {
      f := Canon(r.value).value;
      ScalarSound(input, max, pos, depth, items);
    } else if input[pos] / 32 == 4 {
      f := ArraySound(input, max, pos, depth, items);
    } else {
      f := MapSound(input, max, pos, depth, items);
    }
  }

  lemma {:induction false} ArraySound(input: Bytes, max: nat, pos: nat, depth: nat, items: nat)
    returns (f: Form)
    requires pos < |input| && Parse(input, max, pos, depth, items).Some? && input[pos] / 32 == 4
    ensures var r := Parse(input, max, pos, depth, items).value;
            ReadsForm(input, pos, r.pos, depth, r.items - items, r.value, f) && r.items <= MAX_TOTAL_ITEMS
    decreases |input| - pos, 0
  {
    hide Parse, ParseItems, ReadArgument, Canon, CanonAll, Values, Concat, TotalItems, Deepest, Head;
    ArrayParsed(input, max, pos, depth, items);
    var r := Parse(input, max, pos, depth, items).value;
    var (n, next) := ReadArgument(input, pos + 1, input[pos] % 32).value;
    var forms := ParseItemsSound(input, max, next, depth + 1, items + 1, n);
    f := Container(4, n, forms, r.value);
    ContainerReads(input, pos, next, r.pos, n, f, forms);
    CanonOfArray(r.value, forms);
  }

  lemma ArrayParsed(input: Bytes, max: nat, pos: nat, depth: nat, items: nat)
    requires pos < |input| && Parse(input, max, pos, depth, items).Some? && input[pos] / 32 == 4
    ensures depth <= MAX_DEPTH && items + 1 <= MAX_TOTAL_ITEMS && ReadArgument(input, pos + 1, input[pos] % 32).Some?
    ensures var (n, next) := ReadArgument(input, pos + 1, input[pos] % 32).value;
      var members := ParseItems(input, max, next, depth + 1, items + 1, n);
      && n <= MAX_CONTAINER_ENTRIES && members.Some?
      && Parse(input, max, pos, depth, items).value ==
         Parsed(Array(members.value.value), members.value.pos, members.value.items)
  {
    hide ReadArgument, ParseItems;
  }

  lemma CanonOfArray(v: Value, forms: seq<Form>)
    requires v.Array? && |v.items| <= MAX_CONTAINER_ENTRIES && CanonAll(v.items) == Some(forms) && Values(forms) == v.items
    ensures Canon(v) == Some(Container(4, |v.items|, forms, v))
  {
  }

  lemma {:induction false} MapSound(input: Bytes, max: nat, pos: nat, depth: nat, items: nat)
    returns (f: Form)
    requires pos < |input| && Parse(input, max, pos, depth, items).Some? && input[pos] / 32 == 5
    ensures var r := Parse(input, max, pos, depth, items).value;
            ReadsForm(input, pos, r.pos, depth, r.items - items, r.value, f) && r.items <= MAX_TOTAL_ITEMS
    decreases |input| - pos, 0
  {
    hide Parse, ParseEntries, ReadArgument, Canon, CanonEntries, Pairs, Spread, Ascending, Concat, TotalItems, Deepest, Head;
    MapParsed(input, max, pos, depth, items);
    var r := Parse(input, max, pos, depth, items).value;
    var (n, next) := ReadArgument(input, pos + 1, input[pos] % 32).value;
    var es := ParseEntriesSound(input, max, next, depth + 1, items + 1, n, None);
    f := Container(5, n, Spread(es), r.value);
    ContainerReads(input, pos, next, r.pos, n, f, Spread(es));
    CanonOfMap(r.value, es);
  }

  lemma MapParsed(input: Bytes, max: nat, pos: nat, depth: nat, items: nat)
    requires pos < |input| && Parse(input, max, pos, depth, items).Some? && input[pos] / 32 == 5
    ensures depth <= MAX_DEPTH && items + 1 <= MAX_TOTAL_ITEMS && ReadArgument(input, pos + 1, input[pos] % 32).Some?
    ensures var (n, next) := ReadArgument(input, pos + 1, input[pos] % 32).value;
      var members := ParseEntries(input, max, next, depth + 1, items + 1, n, None);
      && n <= MAX_CONTAINER_ENTRIES && members.Some?
      && Parse(input, max, pos, depth, items).value ==
         Parsed(Map(members.value.value), members.value.pos, members.value.items)
  {
    hide ReadArgument, ParseEntries;
  }

  lemma CanonOfMap(v: Value, es: seq<Entry>)
    requires v.Map? && |v.entries| <= MAX_CONTAINER_ENTRIES && CanonEntries(v.entries) == Some(es) && Pairs(es) == v.entries
    requires Ascending(es)
    ensures Canon(v) == Some(Container(5, |v.entries|, Spread(es), v))
  {
    SortAscending(es);
  }

  lemma ContainerReads(input: Bytes, pos: nat, next: nat, end: nat, n: U64, f: Form, members: seq<Form>)
    requires pos < next <= end <= |input| && ReadArgument(input, pos + 1, input[pos] % 32) == Some((n, next))
    requires f == Container(input[pos] / 32, n, members, f.value) && Concat(members) == input[next..end]
    ensures f.bytes == input[pos..end]
  {
    ReadHeadSound(input, pos);
    assert input[pos..end] == input[pos..next] + input[next..end];
  }

  lemma {:induction false} ParseItemsSound(input: Bytes, max: nat, pos: nat, depth: nat, items: nat, n: nat)
    returns (forms: seq<Form>)
    requires pos <= |input| && ParseItems(input, max, pos, depth, items, n).Some? && items <= MAX_TOTAL_ITEMS
    requires depth <= MAX_DEPTH + 1
    ensures var r := ParseItems(input, max, pos, depth, items, n).value;
            && CanonAll(r.value) == Some(forms) && Values(forms) == r.value
            && ReadsForms(input, pos, r.pos, depth, r.items - items, forms) && r.items <= MAX_TOTAL_ITEMS
    decreases |input| - pos, 2
  {
    hide Parse, ReadArgument, Canon;
    if n == 0 {
      forms := [];
    } else {
      var first := Parse(input, max, pos, depth, items).value;
      var f := ParseSound(input, max, pos, depth, items);
      var rest := ParseItemsSound(input, max, first.pos, depth, first.items, n - 1);
      forms := [f] + rest;
      var r := ParseItems(input, max, pos, depth, items, n).value;
      assert r.value[1..] == ParseItems(input, max, first.pos, depth, first.items, n - 1).value.value;
      ItemReads(input, pos, first.pos, r.pos, depth, f, rest);
    }
  }

  lemma ItemReads(input: Bytes, pos: nat, next: nat, end: nat, depth: nat, f: Form, rest: seq<Form>)
    requires pos <= next <= end <= |input| && f.bytes == input[pos..next] && Concat(rest) == input[next..end]
    requires depth + f.height <= MAX_DEPTH && depth + Deepest(rest) <= MAX_DEPTH + 1
    ensures ReadsForms(input, pos, end, depth, f.items + TotalItems(rest), [f] + rest)
  {
    assert ([f] + rest)[1..] == rest;
    assert input[pos..end] == input[pos..next] + input[next..end];
  }

  lemma NothingReads(input: Bytes, pos: nat, depth: nat)
    requires pos <= |input| && depth <= MAX_DEPTH + 1
    ensures ReadsForms(input, pos, pos, depth, 0, Spread([])) && Ascending([])
  {
  }

  lemma EntryAscends(e: Entry, rest: seq<Entry>)
    requires Ascending(rest) && (rest != [] ==> LexLess(e.key.bytes, rest[0].key.bytes))
    ensures Ascending([e] + rest)
  {
    hide LexLess;
    var es := [e] + rest;
    forall i | 0 <= i < |es| - 1 ensures LexLess(es[i].key.bytes, es[i + 1].key.bytes) {
      if i > 0 {
        assert LexLess(rest[i - 1].key.bytes, rest[i - 1 + 1].key.bytes);
      }
    }
  }

  lemma {:induction false} ParseEntriesSound(
    input: Bytes, max: nat, pos: nat, depth: nat, items: nat, n: nat, previous: Option<Bytes>)
    returns (es: seq<Entry>)
    requires pos <= |input| && ParseEntries(input, max, pos, depth, items, n, previous).Some? && items <= MAX_TOTAL_ITEMS
    requires depth <= MAX_DEPTH + 1
    ensures var r := ParseEntries(input, max, pos, depth, items, n, previous).value;
            && CanonEntries(r.value) == Some(es) && Pairs(es) == r.value && Ascending(es)
            && (es != [] && previous.Some? ==> LexLess(previous.value, es[0].key.bytes))
            && ReadsForms(input, pos, r.pos, depth, r.items - items, Spread(es)) && r.items <= MAX_TOTAL_ITEMS
    decreases |input| - pos, 2
  {
    hide Parse, ReadArgument, Canon, LexLess, Concat, TotalItems, Deepest, Ascending;
    if n == 0 {
      es := [];
      NothingReads(input, pos, depth);
    } else {
      var key := Parse(input, max, pos, depth, items).value;
      var value := Parse(input, max, key.pos, depth, key.items).value;
      var k := ParseSound(input, max, pos, depth, items);
      var v := ParseSound(input, max, key.pos, depth, key.items);
      var rest := ParseEntriesSound(input, max, value.pos, depth, value.items, n - 1, Some(input[pos..key.pos]));
      es := [Entry(k, v)] + rest;
      var r := ParseEntries(input, max, pos, depth, items, n, previous).value;
      var tail := ParseEntries(input, max, value.pos, depth, value.items, n - 1, Some(input[pos..key.pos])).value;
      assert r.value[1..] == tail.value && r.value[0] == Pair(key.value, value.value);
      EntryReads(input, pos, key.pos, value.pos, r.pos, depth, Entry(k, v), rest);
      EntryAscends(Entry(k, v), rest);
    }
  }

  lemma EntryReads(input: Bytes, pos: nat, mid: nat, next: nat, end: nat, depth: nat, e: Entry, rest: seq<Entry>)
    requires pos <= mid <= next <= end <= |input|
    requires e.key.bytes == input[pos..mid] && e.value.bytes == input[mid..next] && Concat(Spread(rest)) == input[next..end]
    requires depth + e.key.height <= MAX_DEPTH && depth + e.value.height <= MAX_DEPTH
    requires depth + Deepest(Spread(rest)) <= MAX_DEPTH + 1
    ensures ReadsForms(input, pos, end, depth, e.key.items + e.value.items + TotalItems(Spread(rest)), Spread([e] + rest))
  {
    assert ([e] + rest)[1..] == rest;
    var forms := Spread([e] + rest);
    assert forms == [e.key, e.value] + Spread(rest);
    assert forms[1..] == [e.value] + Spread(rest) && forms[1..][1..] == Spread(rest);
    assert input[pos..end] == input[pos..mid] + (input[mid..next] + input[next..end]);
  }

  // ---- Every canonical form parses ----

  lemma {:induction false} ConcatLength(forms: seq<Form>)
    requires forall i :: 0 <= i < |forms| ==> Canon(forms[i].value) == Some(forms[i])
    ensures |Concat(forms)| >= |forms|
  {
    if forms != [] {
      ConcatLength(forms[1..]);
    }
  }

  lemma {:induction false} SpreadStable(es: seq<Entry>)
    requires forall i :: 0 <= i < |es| ==> StableEntry(es[i])
    ensures |Spread(es)| == 2 * |es| && forall i :: 0 <= i < |Spread(es)| ==> Stable(Spread(es)[i])
  {
    if es != [] {
      SpreadStable(es[1..]);
    }
  }

  /** A value already in decoded form lists its map entries in sorted order. */
  lemma NormalMapSorted(v: Value)
    requires v.Map? && Canon(v).Some? && Canon(v).value.value == v
    ensures CanonEntries(v.entries).Some?
    ensures var es := CanonEntries(v.entries).value;
            && Sort(es) == es && Pairs(es) == v.entries && Ascending(es)
            && forall i :: 0 <= i < |es| ==> StableEntry(es[i])
  {
    hide Insert, LexLess, Concat, TotalItems, Deepest, Spread, Head;
    var es := CanonEntries(v.entries).value;
    CanonEntriesStable(v.entries);
    SortKeepsStable(es);
    SortSorts(es);
    SortedDistinctAscends(Sort(es));
    forall i | 0 <= i < |es|
      ensures es[i] == Sort(es)[i]
    {
      CanonEntriesAt(v.entries, i);
      assert v.entries[i] == Pairs(Sort(es))[i];
    }
  }

  /** `f` lies in the input at `pos` and fits the remaining depth, items and bytes. */
  ghost predicate Lies(input: Bytes, max: nat, pos: nat, depth: nat, items: nat, f: Form) {
    && pos + |f.bytes| <= |input| && input[pos..pos + |f.bytes|] == f.bytes
    && depth + f.height <= MAX_DEPTH && items + f.items <= MAX_TOTAL_ITEMS && |f.bytes| <= max
  }

  ghost predicate LieAll(input: Bytes, max: nat, pos: nat, depth: nat, items: nat, forms: seq<Form>) {
    && pos + |Concat(forms)| <= |input| && input[pos..pos + |Concat(forms)|] == Concat(forms)
    && depth + Deepest(forms) <= MAX_DEPTH + 1 && items + TotalItems(forms) <= MAX_TOTAL_ITEMS
    && |Concat(forms)| <= max
  }

  lemma FirstLies(input: Bytes, max: nat, pos: nat, depth: nat, items: nat, forms: seq<Form>)
    requires LieAll(input, max, pos, depth, items, forms) && forms != []
    ensures Lies(input, max, pos, depth, items, forms[0])
    ensures LieAll(input, max, pos + |forms[0].bytes|, depth, items + forms[0].items, forms[1..])
    ensures pos + |Concat(forms)| == pos + |forms[0].bytes| + |Concat(forms[1..])|
  {
    var whole := input[pos..pos + |Concat(forms)|];
    assert whole[..|forms[0].bytes|] == input[pos..pos + |forms[0].bytes|];
    assert whole[|forms[0].bytes|..] == input[pos + |forms[0].bytes|..pos + |Concat(forms)|];
  }

  lemma ContainerLies(input: Bytes, max: nat, pos: nat, depth: nat, items: nat, major: Major, n: U64, members: seq<Form>, v: Value)
    requires Lies(input, max, pos, depth, items, Container(major, n, members, v))
    ensures LieAll(input, max, pos + |Head(major, n)|, depth + 1, items + 1, members)
    ensures pos < |input| && input[pos] / 32 == major
    ensures ReadArgument(input, pos + 1, input[pos] % 32) == Some((n, pos + |Head(major, n)|))
  {
    var f := Container(major, n, members, v);
    var h := |Head(major, n)|;
    var whole := input[pos..pos + |f.bytes|];
    assert whole[..h] == input[pos..pos + h];
    assert whole[h..] == input[pos + h..pos + |f.bytes|];
    ReadHeadUndoes(input, pos, major, n);
  }

  lemma NumberUndoes(v: Value, input: Bytes, max: nat, pos: nat, depth: nat, items: nat)
    requires v.Unsigned? || v.Negative?
    requires Canon(v).Some? && Lies(input, max, pos, depth, items, Canon(v).value)
    ensures Parse(input, max, pos, depth, items) == Some(Parsed(v, pos + |Canon(v).value.bytes|, items + 1))
  {
    if v.Unsigned? {
      ReadHeadUndoes(input, pos, 0, v.n);
    } else {
      ReadHeadUndoes(input, pos, 1, -1 - v.i);
    }
  }

  lemma StringUndoes(v: Value, input: Bytes, max: nat, pos: nat, depth: nat, items: nat)
    requires v.ByteString? || v.Text?
    requires Canon(v).Some? && Lies(input, max, pos, depth, items, Canon(v).value)
    ensures Parse(input, max, pos, depth, items) == Some(Parsed(v, pos + |Canon(v).value.bytes|, items + 1))
  {
    if v.ByteString? {
      PayloadUndoes(input, pos, 2, v.bytes);
    } else {
      PayloadUndoes(input, pos, 3, v.text);
    }
  }

  lemma LeafUndoes(v: Value, input: Bytes, max: nat, pos: nat, depth: nat, items: nat)
    requires Canon(v).Some? && Lies(input, max, pos, depth, items, Canon(v).value) && !v.Array? && !v.Map?
    ensures Parse(input, max, pos, depth, items) == Some(Parsed(v, pos + |Canon(v).value.bytes|, items + 1))
  {
    if v.Unsigned? || v.Negative? {
      NumberUndoes(v, input, max, pos, depth, items);
    } else if v.ByteString? || v.Text? {
      StringUndoes(v, input, max, pos, depth, items);
    } else {
      assert input[pos] == input[pos..pos + 1][0] == Canon(v).value.bytes[0];
    }
  }

  lemma PayloadUndoes(input: Bytes, pos: nat, major: Major, c: Bytes)
    requires |c| < 0x1_0000_0000_0000_0000
    requires pos + |Head(major, |c|)| + |c| <= |input|
    requires input[pos..pos + |Head(major, |c|)| + |c|] == Head(major, |c|) + c
    ensures var next := pos + |Head(major, |c|)|;
            && input[pos] / 32 == major && input[next..next + |c|] == c
            && ReadArgument(input, pos + 1, input[pos] % 32) == Some((|c|, next))
  {
    var h := |Head(major, |c|)|;
    var whole := input[pos..pos + h + |c|];
    assert whole[..h] == input[pos..pos + h];
    assert whole[h..] == input[pos + h..pos + h + |c|];
    ReadHeadUndoes(input, pos, major, |c|);
  }

  lemma ArrayParses(input: Bytes, max: nat, pos: nat, depth: nat, items: nat, n: U64, next: nat, r: Parsed<seq<Value>>)
    requires pos < next <= |input| && depth <= MAX_DEPTH && items < MAX_TOTAL_ITEMS && n <= max && n <= MAX_CONTAINER_ENTRIES
    requires input[pos] / 32 == 4 && ReadArgument(input, pos + 1, input[pos] % 32) == Some((n, next))
    requires ParseItems(input, max, next, depth + 1, items + 1, n) == Some(r)
    ensures Parse(input, max, pos, depth, items) == Some(Parsed(Array(r.value), r.pos, r.items))
  {
  }

  lemma MapParses(input: Bytes, max: nat, pos: nat, depth: nat, items: nat, n: U64, next: nat, r: Parsed<seq<Pair>>)
    requires pos < next <= |input| && depth <= MAX_DEPTH && items < MAX_TOTAL_ITEMS && n <= max && n <= MAX_CONTAINER_ENTRIES
    requires input[pos] / 32 == 5 && ReadArgument(input, pos + 1, input[pos] % 32) == Some((n, next))
    requires ParseEntries(input, max, next, depth + 1, items + 1, n, None) == Some(r)
    ensures Parse(input, max, pos, depth, items) == Some(Parsed(Map(r.value), r.pos, r.items))
  {
  }

  /** A stable form lying in the input is what the parser reads there. */
  lemma {:induction false} ParseUndoes(f: Form, input: Bytes, max: nat, pos: nat, depth: nat, items: nat)
    requires Stable(f) && Lies(input, max, pos, depth, items, f)
    ensures Parse(input, max, pos, depth, items) == Some(Parsed(f.value, pos + |f.bytes|, items + f.items))
    decreases f.value, 2
  {
    if f.value.Array? {
      ArrayUndoes(f, input, max, pos, depth, items);
    } else if f.value.Map? {
      MapUndoes(f, input, max, pos, depth, items);
    } else {
      LeafUndoes(f.value, input, max, pos, depth, items);
    }
  }

  lemma StableArray(f: Form) returns (forms: seq<Form>)
    requires Stable(f) && f.value.Array?
    ensures Values(forms) == f.value.items && forall i :: 0 <= i < |forms| ==> Stable(forms[i])
    ensures |forms| <= MAX_CONTAINER_ENTRIES && f == Container(4, |forms|, forms, f.value)
  {
    forms := CanonAll(f.value.items).value;
    CanonAllStable(f.value.items);
  }

  lemma StableMap(f: Form) returns (es: seq<Entry>)
    requires Stable(f) && f.value.Map?
    ensures Pairs(es) == f.value.entries && Ascending(es) && forall i :: 0 <= i < |es| ==> StableEntry(es[i])
    ensures |es| <= MAX_CONTAINER_ENTRIES && f == Container(5, |es|, Spread(es), f.value)
  {
    NormalMapSorted(f.value);
    es := CanonEntries(f.value.entries).value;
  }

  lemma {:induction false} ArrayUndoes(f: Form, input: Bytes, max: nat, pos: nat, depth: nat, items: nat)
    requires Stable(f) && f.value.Array? && Lies(input, max, pos, depth, items, f)
    ensures Parse(input, max, pos, depth, items) == Some(Parsed(f.value, pos + |f.bytes|, items + f.items))
    decreases f.value, 1
  {
    hide Parse, ParseItems, Canon, ReadArgument;
    var forms := StableArray(f);
    var n := |forms|;
    var next := pos + |Head(4, n)|;
    ContainerLies(input, max, pos, depth, items, 4, n, forms, f.value);
    ConcatLength(forms);
    ItemsUndo(forms, input, max, next, depth + 1, items + 1);
    ArrayParses(input, max, pos, depth, items, n, next,
                Parsed(f.value.items, next + |Concat(forms)|, items + 1 + TotalItems(forms)));
  }

  lemma {:induction false} MapUndoes(f: Form, input: Bytes, max: nat, pos: nat, depth: nat, items: nat)
    requires Stable(f) && f.value.Map? && Lies(input, max, pos, depth, items, f)
    ensures Parse(input, max, pos, depth, items) == Some(Parsed(f.value, pos + |f.bytes|, items + f.items))
    decreases f.value, 1
  {
    hide Parse, ParseEntries, Canon, ReadArgument;
    var es := StableMap(f);
    var forms := Spread(es);
    var n := |es|;
    var next := pos + |Head(5, n)|;
    ContainerLies(input, max, pos, depth, items, 5, n, forms, f.value);
    SpreadStable(es);
    ConcatLength(forms);
    EntriesUndo(es, input, max, next, depth + 1, items + 1, None);
    MapParses(input, max, pos, depth, items, n, next,
              Parsed(f.value.entries, next + |Concat(forms)|, items + 1 + TotalItems(forms)));
  }

  lemma {:induction false} ItemsUndo(forms: seq<Form>, input: Bytes, max: nat, pos: nat, depth: nat, items: nat)
    requires forall i :: 0 <= i < |forms| ==> Stable(forms[i])
    requires LieAll(input, max, pos, depth, items, forms)
    ensures ParseItems(input, max, pos, depth, items, |forms|)
            == Some(Parsed(Values(forms), pos + |Concat(forms)|, items + TotalItems(forms)))
    decreases Values(forms), 0
  {
    hide Parse, Canon, ReadArgument;
    if forms != [] {
      FirstLies(input, max, pos, depth, items, forms);
      assert Values(forms)[0] == forms[0].value && Values(forms)[1..] == Values(forms[1..]);
      ParseUndoes(forms[0], input, max, pos, depth, items);
      ItemsUndo(forms[1..], input, max, pos + |forms[0].bytes|, depth, items + forms[0].items);
    }
  }

  lemma PairLies(input: Bytes, max: nat, pos: nat, depth: nat, items: nat, e: Entry, rest: seq<Form>)
    requires LieAll(input, max, pos, depth, items, [e.key, e.value] + rest)
    ensures Lies(input, max, pos, depth, items, e.key)
    ensures Lies(input, max, pos + |e.key.bytes|, depth, items + e.key.items, e.value)
    ensures LieAll(input, max, pos + |e.key.bytes| + |e.value.bytes|, depth, items + e.key.items + e.value.items, rest)
    ensures |Concat([e.key, e.value] + rest)| == |e.key.bytes| + |e.value.bytes| + |Concat(rest)|
    ensures TotalItems([e.key, e.value] + rest) == e.key.items + e.value.items + TotalItems(rest)
  {
    var forms := [e.key, e.value] + rest;
    assert forms[1..] == [e.value] + rest && forms[1..][1..] == rest;
    FirstLies(input, max, pos, depth, items, forms);
    FirstLies(input, max, pos + |e.key.bytes|, depth, items + e.key.items, forms[1..]);
  }

  /** Reading one more entry in front of a list of entries. */
  lemma EntryParses(
    input: Bytes, max: nat, pos: nat, depth: nat, items: nat, n: nat, previous: Option<Bytes>,
    key: Parsed<Value>, value: Parsed<Value>, rest: Parsed<seq<Pair>>)
    requires pos <= |input| && Parse(input, max, pos, depth, items) == Some(key)
    requires previous.Some? ==> LexLess(previous.value, input[pos..key.pos])
    requires Parse(input, max, key.pos, depth, key.items) == Some(value)
    requires ParseEntries(input, max, value.pos, depth, value.items, n, Some(input[pos..key.pos])) == Some(rest)
    ensures ParseEntries(input, max, pos, depth, items, n + 1, previous)
            == Some(Parsed([Pair(key.value, value.value)] + rest.value, rest.pos, rest.items))
  {
  }

  lemma {:induction false} PairUndoes(p: Pair, input: Bytes, max: nat, pos: nat, depth: nat, items: nat, e: Entry)
    requires StableEntry(e) && p == Pair(e.key.value, e.value.value)
    requires Lies(input, max, pos, depth, items, e.key)
    requires Lies(input, max, pos + |e.key.bytes|, depth, items + e.key.items, e.value)
    ensures Parse(input, max, pos, depth, items) == Some(Parsed(p.key, pos + |e.key.bytes|, items + e.key.items))
    ensures Parse(input, max, pos + |e.key.bytes|, depth, items + e.key.items)
            == Some(Parsed(p.value, pos + |e.key.bytes| + |e.value.bytes|, items + e.key.items + e.value.items))
    decreases p, 1
  {
    hide Parse, Canon;
    ParseUndoes(e.key, input, max, pos, depth, items);
    ParseUndoes(e.value, input, max, pos + |e.key.bytes|, depth, items + e.key.items);
  }

  lemma {:induction false} EntriesUndo(
    es: seq<Entry>, input: Bytes, max: nat, pos: nat, depth: nat, items: nat, previous: Option<Bytes>)
    requires Ascending(es) && forall i :: 0 <= i < |es| ==> StableEntry(es[i])
    requires es != [] && previous.Some? ==> LexLess(previous.value, es[0].key.bytes)
    requires LieAll(input, max, pos, depth, items, Spread(es))
    ensures ParseEntries(input, max, pos, depth, items, |es|, previous)
            == Some(Parsed(Pairs(es), pos + |Concat(Spread(es))|, items + TotalItems(Spread(es))))
    decreases Pairs(es), 1
  {
    hide Parse, Canon, ReadArgument, LexLess;
    if es != [] {
      MoreEntriesUndo(es, input, max, pos, depth, items, previous);
    }
  }

  lemma {:induction false} MoreEntriesUndo(
    es: seq<Entry>, input: Bytes, max: nat, pos: nat, depth: nat, items: nat, previous: Option<Bytes>)
    requires es != [] && Ascending(es) && forall i :: 0 <= i < |es| ==> StableEntry(es[i])
    requires previous.Some? ==> LexLess(previous.value, es[0].key.bytes)
    requires LieAll(input, max, pos, depth, items, Spread(es))
    ensures ParseEntries(input, max, pos, depth, items, |es|, previous)
            == Some(Parsed(Pairs(es), pos + |Concat(Spread(es))|, items + TotalItems(Spread(es))))
    decreases Pairs(es), 0
  {
    hide Parse, ParseEntries, Canon, ReadArgument, LexLess, Concat, TotalItems, Deepest;
    var e := es[0];
    var more := Spread(es[1..]);
    var mid := pos + |e.key.bytes|;
    var next := mid + |e.value.bytes|;
    var spent := items + e.key.items + e.value.items;
    assert Pairs(es)[0] == Pair(e.key.value, e.value.value) && Pairs(es)[1..] == Pairs(es[1..]);
    PairLies(input, max, pos, depth, items, e, more);
    PairUndoes(Pairs(es)[0], input, max, pos, depth, items, e);
    EntriesUndo(es[1..], input, max, next, depth, spent, Some(e.key.bytes));
    EntryParses(input, max, pos, depth, items, |es| - 1, previous,
                Parsed(e.key.value, mid, items + e.key.items), Parsed(e.value.value, next, spent),
                Parsed(Pairs(es[1..]), next + |Concat(more)|, spent + TotalItems(more)));
  }

  // ---- The codec as its callers see it ----

  function Encode(v: Value, max: nat): Option<Bytes> {
    match Canon(v)
    case Some(f) =>
      if f.height <= MAX_DEPTH && f.items <= MAX_TOTAL_ITEMS && |f.bytes| <= max then Some(f.bytes) else None
    case None => None
  }

  function Decode(b: Bytes, max: nat): Option<Value> {
    if max == 0 || |b| > max then None
    else
      var r := Parse(b, max, 0, 0, 0);
      if r.None? || r.value.pos != |b| then None else Some(r.value.value)
  }

  /**
  The decoder accepts bytes as a value exactly when those bytes are that value's encoding and
  the value lists its maps in canonical order.  So re-encoding what was decoded gives the bytes
  back, no two byte strings decode to one value, and every encoding decodes.
  */
  lemma DecodeIffEncoded(b: Bytes, max: nat, v: Value)
    ensures Decode(b, max) == Some(v) <==> Encode(v, max) == Some(b) && Canon(v).value.value == v
  {
    if Decode(b, max) == Some(v) {
      var f := ParseSound(b, max, 0, 0, 0);
      assert b[0..|b|] == b;
    }
    if Encode(v, max) == Some(b) && Canon(v).value.value == v {
      assert b[0..0 + |b|] == b;
      EncodingNotEmpty(v);
      ParseUndoes(Canon(v).value, b, max, 0, 0, 0);
    }
  }

  lemma EncodingNotEmpty(v: Value)
    requires Canon(v).Some?
    ensures Canon(v).value.bytes != []
  {
  }

  /** Encoding any value and decoding it gives the value with its maps in canonical order. */
  lemma EncodeThenDecode(v: Value, max: nat)
    requires Encode(v, max).Some?
    ensures Decode(Encode(v, max).value, max) == Some(Canon(v).value.value)
  {
    CanonStable(v);
    DecodeIffEncoded(Encode(v, max).value, max, Canon(v).value.value);
  }

  // ---- Examples of appendix A of RFC 8949 ----

  lemma WideExamples()
    ensures BigEndian(0x18, 1) == [0x18] && BigEndian(0xff, 1) == [0xff]
    ensures BigEndian(1000, 2) == [0x03, 0xe8] && BigEndian(999, 2) == [0x03, 0xe7]
  {
    assert BigEndian(3, 1) == [3];
  }

  lemma HeadExamples()
    ensures Head(0, 0) == [0x00] && Head(0, 23) == [0x17] && Head(0, 24) == [0x18, 0x18] && Head(0, 255) == [0x18, 0xff]
    ensures Head(0, 1000) == [0x19, 0x03, 0xe8] && Head(1, 999) == [0x39, 0x03, 0xe7]
    ensures Head(2, 4) == [0x44] && Head(3, 1) == [0x61] && Head(4, 3) == [0x83] && Head(5, 2) == [0xa2]
  {
    hide BigEndian;
    WideExamples();
    NoWidth();
  }

  lemma NoWidth()
    ensures forall n :: BigEndian(n, 0) == []
  {
  }

  lemma Examples(b: Bytes, t: Utf8)
    requires |b| == 4 && |t| == 1
    ensures Encode(Unsigned(24), 10) == Some([0x18, 0x18]) && Encode(Negative(-1000), 10) == Some([0x39, 0x03, 0xe7])
    ensures Encode(ByteString(b), 10) == Some([0x44] + b) && Encode(Text(t), 10) == Some([0x61] + t)
    ensures Encode(Bool(false), 10) == Some([0xf4]) && Encode(Bool(true), 10) == Some([0xf5]) && Encode(Null, 10) == Some([0xf6])
  {
    HeadExamples();
  }

  lemma SmallNumber(n: U64)
    requires n < 24
    ensures Canon(Unsigned(n)) == Some(Leaf([n], Unsigned(n)))
  {
    assert Head(0, n) == [n];
  }

  /** A container of one-byte members is its head and those bytes. */
  lemma ContainerBytes(v: Value, f: Form, major: Major, n: U64, members: seq<Form>)
    requires Canon(v) == Some(f) && f.bytes == Head(major, n) + Concat(members)
    requires f.items == 1 + TotalItems(members) && f.height == Deepest(members) && |members| < 10
    requires forall i :: 0 <= i < |members| ==> |members[i].bytes| == 1 && members[i].items == 1 && members[i].height == 0
    ensures Encode(v, 100) == Some(Head(major, n) + Concat(members)) && |Concat(members)| == |members|
    ensures forall i :: 0 <= i < |members| ==> Concat(members)[i] == members[i].bytes[0]
  {
    hide Canon, Concat, TotalItems, Deepest;
    SingleBytes(members);
  }

  lemma ArrayExample()
    ensures Encode(Array([Unsigned(1), Unsigned(2), Unsigned(3)]), 100) == Some([0x83, 1, 2, 3])
  {
    hide Canon, CanonAll, Concat, TotalItems, Deepest, Encode, Head;
    HeadExamples();
    SmallNumber(1);
    SmallNumber(2);
    SmallNumber(3);
    var items := [Unsigned(1), Unsigned(2), Unsigned(3)];
    var forms := [Leaf([1], items[0]), Leaf([2], items[1]), Leaf([3], items[2])];
    CanonAllOf(items, forms);
    assert Values(forms) == items;
    CanonOfArray(Array(items), forms);
    ContainerBytes(Array(items), Container(4, 3, forms, Array(items)), 4, 3, forms);
    assert Concat(forms) == [1, 2, 3] && [0x83] + [1, 2, 3] == [0x83, 1, 2, 3];
    assert Head(4, 3) + Concat(forms) == [0x83, 1, 2, 3];
  }

  /** A map given in another order is written in order. */
  lemma MapExample()
    ensures Encode(Map([Pair(Unsigned(3), Unsigned(4)), Pair(Unsigned(1), Unsigned(2))]), 100) == Some([0xa2, 1, 2, 3, 4])
  {
    hide Concat, TotalItems, Deepest, Encode, Head, Sort, Spread, LexLess, CanonEntries;
    HeadExamples();
    SmallNumber(1);
    SmallNumber(2);
    SmallNumber(3);
    SmallNumber(4);
    var pairs := [Pair(Unsigned(3), Unsigned(4)), Pair(Unsigned(1), Unsigned(2))];
    var x, y := Entry(Leaf([3], Unsigned(3)), Leaf([4], Unsigned(4))), Entry(Leaf([1], Unsigned(1)), Leaf([2], Unsigned(2)));
    CanonEntriesOf(pairs, [x, y]);
    TwoSorted(x, y);
    var forms := [y.key, y.value, x.key, x.value];
    assert Canon(Map(pairs)) == Some(Container(5, 2, forms, Map(Pairs([y, x]))));
    ContainerBytes(Map(pairs), Container(5, 2, forms, Map(Pairs([y, x]))), 5, 2, forms);
    assert Concat(forms) == [1, 2, 3, 4];
    assert Head(5, 2) + Concat(forms) == [0xa2, 1, 2, 3, 4];
  }

  lemma TwoSorted(x: Entry, y: Entry)
    requires x.key.bytes == [3] && y.key.bytes == [1]
    ensures Sort([x, y]) == [y, x] && !HasTwins([y, x]) && Spread([y, x]) == [y.key, y.value, x.key, x.value]
  {
    assert [x, y][1..] == [y] && [y][1..] == [] && Sort([]) == [] && Sort([y]) == [y];
    assert LexLess(y.key.bytes, x.key.bytes);
    assert Insert(x, []) == [x];
    assert Sort([x, y]) == Insert(x, [y]) == [y, x];
    assert [y, x][1..] == [x] && [x][1..] == [] && Spread([x]) == [x.key, x.value];
  }

  lemma {:induction false} SingleBytes(forms: seq<Form>)
    requires forall i :: 0 <= i < |forms| ==> |forms[i].bytes| == 1 && forms[i].items == 1 && forms[i].height == 0
    ensures |Concat(forms)| == |forms| && forall i :: 0 <= i < |forms| ==> Concat(forms)[i] == forms[i].bytes[0]
    ensures TotalItems(forms) == |forms| && Deepest(forms) <= 1
  {
    if forms != [] {
      SingleBytes(forms[1..]);
    }
  }
}
