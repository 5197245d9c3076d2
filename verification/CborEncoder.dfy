/**
The encoder as it runs: an output buffer and an item count, a second encoder for every map key,
and limits checked along the way.  It succeeds exactly when the one canonical form exists and fits,
and then appends it.
*/
module CborEncoder {
  import opened Common
  import opened CanonicalCbor
  import opened CborTheorems

  /** The canonical form exists and stays within depth, items and bytes from here on. */
  predicate Fits(v: Value, depth: nat, items: nat, size: nat, max: nat) {
    && Canon(v).Some? && depth + Canon(v).value.height <= MAX_DEPTH
    && items + Canon(v).value.items <= MAX_TOTAL_ITEMS && size + |Canon(v).value.bytes| <= max
  }

  // ---- Sums over members ----

  lemma ConcatCons(f: Form, forms: seq<Form>)
    ensures Concat([f] + forms) == f.bytes + Concat(forms)
  {
    assert ([f] + forms)[1..] == forms;
  }

  lemma Associates(a: Bytes, b: Bytes, c: Bytes)
    ensures a + (b + c) == a + b + c
  {
  }

  lemma {:induction false} AppendBytes(a: seq<Form>, b: seq<Form>)
    ensures Concat(a + b) == Concat(a) + Concat(b)
  {
    NoBytes();
    hide Concat;
    if a == [] {
      assert a + b == b;
    } else {
      AppendBytes(a[1..], b);
      ConcatCons(a[0], a[1..] + b);
      ConcatCons(a[0], a[1..]);
      assert a + b == [a[0]] + (a[1..] + b) && a == [a[0]] + a[1..];
      Associates(a[0].bytes, Concat(a[1..]), Concat(b));
    }
  }

  lemma {:induction false} Append(a: seq<Form>, b: seq<Form>)
    ensures |Concat(a + b)| == |Concat(a)| + |Concat(b)| && TotalItems(a + b) == TotalItems(a) + TotalItems(b)
    ensures Deepest(a + b) == if Deepest(a) >= Deepest(b) then Deepest(a) else Deepest(b)
  {
    AppendBytes(a, b);
    hide Concat;
    if a == [] {
      assert a + b == b;
    } else {
      Append(a[1..], b);
      assert (a + b)[1..] == a[1..] + b;
    }
  }

  lemma NoBytes()
    ensures Concat([]) == []
  {
  }

  lemma One(f: Form)
    ensures Concat([f]) == f.bytes && TotalItems([f]) == f.items && Deepest([f]) == 1 + f.height
  {
    assert [f][1..] == [];
  }

  /** A prefix and the next member stay within the whole. */
  lemma Within(forms: seq<Form>, i: nat)
    requires i < |forms|
    ensures |Concat(forms[..i])| + |forms[i].bytes| <= |Concat(forms)|
    ensures TotalItems(forms[..i]) + forms[i].items <= TotalItems(forms)
    ensures 1 + forms[i].height <= Deepest(forms)
  {
    Append(forms[..i], forms[i..]);
    Append([forms[i]], forms[i + 1..]);
    One(forms[i]);
    assert forms == forms[..i] + forms[i..] && forms[i..] == [forms[i]] + forms[i + 1..];
  }

  lemma OneMore(forms: seq<Form>, f: Form)
    ensures Concat(forms + [f]) == Concat(forms) + f.bytes && TotalItems(forms + [f]) == TotalItems(forms) + f.items
    ensures Deepest(forms + [f]) == if Deepest(forms) >= 1 + f.height then Deepest(forms) else 1 + f.height
  {
    AppendBytes(forms, [f]);
    Append(forms, [f]);
    One(f);
  }

  // ---- Arrays ----

  /** If the array fits, so does its next element after those already written. */
  lemma ElementFits(v: Value, depth: nat, items: nat, size: nat, max: nat, forms: seq<Form>)
    requires v.Array? && Fits(v, depth, items, size, max) && |forms| < |v.items|
    requires forall j :: 0 <= j < |forms| ==> Canon(v.items[j]) == Some(forms[j])
    ensures Fits(v.items[|forms|], depth + 1, items + 1 + TotalItems(forms),
                 size + |Head(4, |v.items|)| + |Concat(forms)|, max)
  {
    hide Canon, CanonAll, Concat, TotalItems, Deepest, Head;
    ArrayForm(v);
    var members, n := CanonAll(v.items).value, |forms|;
    forall j | 0 <= j < |v.items|
      ensures Canon(v.items[j]) == Some(members[j])
    {
      CanonAllAt(v.items, j);
    }
    assert forms == members[..n];
    Within(members, n);
  }

  lemma ArrayForm(v: Value)
    requires v.Array?
    ensures Canon(v).Some? <==> |v.items| <= MAX_CONTAINER_ENTRIES && CanonAll(v.items).Some?
    ensures Canon(v).Some? ==>
      Canon(v).value == Container(4, |v.items|, CanonAll(v.items).value, Array(Values(CanonAll(v.items).value)))
  {
  }

  // ---- Maps ----

  /** A key as its own encoder left it, and the entry whose value is still to be encoded. */
  datatype Keyed = Keyed(bytes: Bytes, entry: Pair)

  function InsertKeyed(k: Keyed, s: seq<Keyed>): seq<Keyed> {
    if s == [] || !LexLess(s[0].bytes, k.bytes) then [k] + s else [s[0]] + InsertKeyed(k, s[1..])
  }

  function SortKeyed(s: seq<Keyed>): seq<Keyed> {
    if s == [] then [] else InsertKeyed(s[0], SortKeyed(s[1..]))
  }

  predicate TwinKeys(s: seq<Keyed>) {
    exists i :: 0 <= i < |s| - 1 && s[i].bytes == s[i + 1].bytes
  }

  predicate Matches(k: Keyed, e: Entry) {
    k.bytes == e.key.bytes && Canon(k.entry.value) == Some(e.value)
  }

  predicate Aligned(ks: seq<Keyed>, es: seq<Entry>) {
    |ks| == |es| && forall j :: 0 <= j < |ks| ==> Matches(ks[j], es[j])
  }

  lemma AlignedTail(ks: seq<Keyed>, es: seq<Entry>)
    requires Aligned(ks, es) && ks != []
    ensures Matches(ks[0], es[0]) && Aligned(ks[1..], es[1..])
  {
  }

  lemma AlignedCons(k: Keyed, e: Entry, ks: seq<Keyed>, es: seq<Entry>)
    requires Matches(k, e) && Aligned(ks, es)
    ensures Aligned([k] + ks, [e] + es)
  {
  }

  lemma {:induction false} InsertAligned(k: Keyed, e: Entry, ks: seq<Keyed>, es: seq<Entry>)
    requires Matches(k, e) && Aligned(ks, es)
    ensures Aligned(InsertKeyed(k, ks), Insert(e, es))
  {
    hide Aligned, Canon;
    if ks == [] {
      EmptyAligned(ks, es);
      AlignedCons(k, e, ks, es);
    } else {
      SameSize(ks, es);
      AlignedTail(ks, es);
      if LexLess(ks[0].bytes, k.bytes) {
        InsertAligned(k, e, ks[1..], es[1..]);
        AlignedCons(ks[0], es[0], InsertKeyed(k, ks[1..]), Insert(e, es[1..]));
      } else {
        AlignedCons(k, e, ks, es);
      }
    }
  }

  lemma SameSize(ks: seq<Keyed>, es: seq<Entry>)
    requires Aligned(ks, es)
    ensures |ks| == |es|
  {
  }

  lemma EmptyAligned(ks: seq<Keyed>, es: seq<Entry>)
    requires Aligned(ks, es) && ks == []
    ensures es == []
  {
  }

  /** Sorting keys with their values is sorting the entries. */
  lemma {:induction false} SortAligned(ks: seq<Keyed>, es: seq<Entry>)
    requires Aligned(ks, es)
    ensures Aligned(SortKeyed(ks), Sort(es))
  {
    hide Aligned, Canon;
    SameSize(ks, es);
    if ks != [] {
      AlignedTail(ks, es);
      SortAligned(ks[1..], es[1..]);
      InsertAligned(ks[0], es[0], SortKeyed(ks[1..]), Sort(es[1..]));
    }
  }

  lemma {:induction false} InsertHas(k: Keyed, s: seq<Keyed>)
    ensures forall x :: x in InsertKeyed(k, s) <==> x == k || x in s
    ensures |InsertKeyed(k, s)| == |s| + 1
  {
    if s != [] && LexLess(s[0].bytes, k.bytes) {
      InsertHas(k, s[1..]);
      assert s == [s[0]] + s[1..];
    }
  }

  lemma {:induction false} SortHas(s: seq<Keyed>)
    ensures forall x :: x in SortKeyed(s) <==> x in s
    ensures |SortKeyed(s)| == |s|
  {
    if s != [] {
      SortHas(s[1..]);
      InsertHas(s[0], SortKeyed(s[1..]));
      assert s == [s[0]] + s[1..];
    }
  }

  // Sorting changes no sum over the members of a map.

  lemma {:induction false} InsertSums(e: Entry, s: seq<Entry>)
    ensures |Concat(Spread(Insert(e, s)))| == |Concat(Spread([e] + s))|
    ensures TotalItems(Spread(Insert(e, s))) == TotalItems(Spread([e] + s))
    ensures Deepest(Spread(Insert(e, s))) == Deepest(Spread([e] + s))
  {
    hide Concat, TotalItems, Deepest, Spread, LexLess;
    SpreadCons(e, s);
    if s != [] && LexLess(s[0].key.bytes, e.key.bytes) {
      InsertSums(e, s[1..]);
      SpreadCons(e, s[1..]);
      SpreadCons(s[0], Insert(e, s[1..]));
      SpreadCons(s[0], s[1..]);
      assert s == [s[0]] + s[1..];
    }
  }

  lemma SpreadCons(e: Entry, s: seq<Entry>)
    ensures |Concat(Spread([e] + s))| == |e.key.bytes| + |e.value.bytes| + |Concat(Spread(s))|
    ensures TotalItems(Spread([e] + s)) == e.key.items + e.value.items + TotalItems(Spread(s))
    ensures Deepest(Spread([e] + s)) == Max(1 + e.key.height, Max(1 + e.value.height, Deepest(Spread(s))))
  {
    assert ([e] + s)[1..] == s;
    Append([e.key, e.value], Spread(s));
    Append([e.key], [e.value]);
    assert [e.key] + [e.value] == [e.key, e.value];
    One(e.key);
    One(e.value);
  }

  function Max(a: nat, b: nat): nat { if a >= b then a else b }

  lemma {:induction false} SortSums(s: seq<Entry>)
    ensures |Concat(Spread(Sort(s)))| == |Concat(Spread(s))|
    ensures TotalItems(Spread(Sort(s))) == TotalItems(Spread(s)) && Deepest(Spread(Sort(s))) == Deepest(Spread(s))
  {
    if s != [] {
      SortSums(s[1..]);
      InsertSums(s[0], Sort(s[1..]));
      SpreadCons(s[0], Sort(s[1..]));
      SpreadCons(s[0], s[1..]);
      assert s == [s[0]] + s[1..];
    }
  }

  function Keys(es: seq<Entry>): (fs: seq<Form>)
    ensures |fs| == |es| && forall j :: 0 <= j < |es| ==> fs[j] == es[j].key
  {
    seq(|es|, j requires 0 <= j < |es| => es[j].key)
  }

  function Vals(es: seq<Entry>): (fs: seq<Form>)
    ensures |fs| == |es| && forall j :: 0 <= j < |es| ==> fs[j] == es[j].value
  {
    seq(|es|, j requires 0 <= j < |es| => es[j].value)
  }

  /** Keys and values make up the members. */
  lemma {:induction false} SplitSums(es: seq<Entry>)
    ensures |Concat(Spread(es))| == |Concat(Keys(es))| + |Concat(Vals(es))|
    ensures TotalItems(Spread(es)) == TotalItems(Keys(es)) + TotalItems(Vals(es))
    ensures Deepest(Spread(es)) == Max(Deepest(Keys(es)), Deepest(Vals(es)))
  {
    if es != [] {
      SplitSums(es[1..]);
      SpreadCons(es[0], es[1..]);
      assert es == [es[0]] + es[1..] && Keys(es)[1..] == Keys(es[1..]) && Vals(es)[1..] == Vals(es[1..]);
    }
  }

  lemma KeysCons(e: Entry, s: seq<Entry>)
    ensures |Concat(Keys([e] + s))| == |e.key.bytes| + |Concat(Keys(s))|
    ensures TotalItems(Keys([e] + s)) == e.key.items + TotalItems(Keys(s))
    ensures Deepest(Keys([e] + s)) == Max(1 + e.key.height, Deepest(Keys(s)))
  {
    assert Keys([e] + s) == [e.key] + Keys(s);
    Append([e.key], Keys(s));
    One(e.key);
  }

  lemma {:induction false} InsertKeySums(e: Entry, s: seq<Entry>)
    ensures TotalItems(Keys(Insert(e, s))) == TotalItems(Keys([e] + s))
    ensures Deepest(Keys(Insert(e, s))) == Deepest(Keys([e] + s))
  {
    hide Concat, TotalItems, Deepest, LexLess;
    KeysCons(e, s);
    if s != [] && LexLess(s[0].key.bytes, e.key.bytes) {
      InsertKeySums(e, s[1..]);
      KeysCons(e, s[1..]);
      KeysCons(s[0], Insert(e, s[1..]));
      KeysCons(s[0], s[1..]);
      assert s == [s[0]] + s[1..];
    }
  }

  lemma {:induction false} SortKeySums(s: seq<Entry>)
    ensures TotalItems(Keys(Sort(s))) == TotalItems(Keys(s)) && Deepest(Keys(Sort(s))) == Deepest(Keys(s))
  {
    hide TotalItems, Deepest;
    if s != [] {
      SortKeySums(s[1..]);
      InsertKeySums(s[0], Sort(s[1..]));
      KeysCons(s[0], Sort(s[1..]));
      KeysCons(s[0], s[1..]);
      assert s == [s[0]] + s[1..];
    }
  }

  lemma MapForm(v: Value)
    requires v.Map?
    ensures Canon(v).Some? <==>
      |v.entries| <= MAX_CONTAINER_ENTRIES && CanonEntries(v.entries).Some? && !HasTwins(Sort(CanonEntries(v.entries).value))
    ensures Canon(v).Some? ==>
      var es := Sort(CanonEntries(v.entries).value);
      Canon(v).value == Container(5, |v.entries|, Spread(es), Map(Pairs(es)))
  {
  }

  /** What a fitting map says about its members. */
  lemma MapBounds(v: Value, depth: nat, items: nat, size: nat, max: nat)
    requires v.Map? && Fits(v, depth, items, size, max)
    ensures var es := CanonEntries(v.entries).value;
      && CanonEntries(v.entries).Some? && depth + Deepest(Spread(Sort(es))) <= MAX_DEPTH
      && depth + Deepest(Keys(es)) <= MAX_DEPTH
      && items + 1 + TotalItems(Keys(es)) <= items + 1 + TotalItems(Spread(es)) <= MAX_TOTAL_ITEMS
      && size + |Concat(Keys(es))| <= max
      && size + |Head(5, |v.entries|)| + |Concat(Spread(Sort(es)))| <= max
  {
    hide Canon;
    MapForm(v);
    var es := CanonEntries(v.entries).value;
    SortSums(es);
    SplitSums(es);
  }

  /** If the map fits, so does its next key by itself, and so do all keys up to it. */
  lemma KeyFits(v: Value, depth: nat, items: nat, size: nat, max: nat, forms: seq<Form>)
    requires v.Map? && Fits(v, depth, items, size, max) && |forms| < |v.entries|
    requires forall j :: 0 <= j < |forms| ==> Canon(v.entries[j].key) == Some(forms[j])
    ensures Fits(v.entries[|forms|].key, depth + 1, 0, 0, max)
    ensures var f := Canon(v.entries[|forms|].key).value;
      items + 1 + TotalItems(forms) + f.items <= MAX_TOTAL_ITEMS && size + |Concat(forms)| + |f.bytes| <= max
  {
    hide Canon;
    MapBounds(v, depth, items, size, max);
    var es, n := CanonEntries(v.entries).value, |forms|;
    forall j | 0 <= j < |v.entries|
      ensures Canon(v.entries[j].key) == Some(es[j].key)
    {
      CanonEntriesAt(v.entries, j);
    }
    assert forms == Keys(es)[..n];
    Within(Keys(es), n);
  }

  lemma MapMissing(v: Value, ks: seq<Keyed>, forms: seq<Form>)
    requires v.Map? && |ks| == |v.entries| == |forms|
    requires forall j :: 0 <= j < |ks| ==> Canon(v.entries[j].key) == Some(forms[j]) && ks[j] == Keyed(forms[j].bytes, v.entries[j])
    ensures CanonEntries(v.entries).Some? <==> forall j :: 0 <= j < |ks| ==> Canon(ks[j].entry.value).Some?
    ensures CanonEntries(v.entries).Some? ==>
      Aligned(ks, CanonEntries(v.entries).value) && Keys(CanonEntries(v.entries).value) == forms
  {
    hide Canon;
    if CanonEntries(v.entries).Some? {
      var es := CanonEntries(v.entries).value;
      forall j | 0 <= j < |ks|
        ensures Matches(ks[j], es[j]) && es[j].key == forms[j]
      {
        CanonEntriesAt(v.entries, j);
      }
    }
    if forall j :: 0 <= j < |ks| ==> Canon(ks[j].entry.value).Some? {
      AllPairs(v.entries);
    }
  }

  lemma {:induction false} AllPairs(entries: seq<Pair>)
    requires forall j :: 0 <= j < |entries| ==> Canon(entries[j].key).Some? && Canon(entries[j].value).Some?
    ensures CanonEntries(entries).Some?
  {
    hide Canon;
    if entries != [] {
      AllPairs(entries[1..]);
    }
  }

  lemma AlignedTwins(ks: seq<Keyed>, es: seq<Entry>)
    requires Aligned(ks, es)
    ensures TwinKeys(ks) <==> HasTwins(es)
  {
    if TwinKeys(ks) {
      var i :| 0 <= i < |ks| - 1 && ks[i].bytes == ks[i + 1].bytes;
      assert es[i].key.bytes == es[i + 1].key.bytes;
    }
    if HasTwins(es) {
      var i :| 0 <= i < |es| - 1 && es[i].key.bytes == es[i + 1].key.bytes;
      assert ks[i].bytes == ks[i + 1].bytes;
    }
  }

  // ---- The encoder ----

  class Encoder {
    const max: nat
    var output: Bytes
    var items: nat

    constructor (max: nat)
      ensures this.max == max && output == [] && items == 0
    {
      this.max, output, items := max, [], 0;
    }

    predicate Bounded()
      reads this
    {
      |output| <= max && items <= MAX_TOTAL_ITEMS
    }

    method Write(bytes: Bytes) returns (ok: bool)
      modifies `output
      ensures ok <==> |old(output)| + |bytes| <= max
      ensures output == if ok then old(output) + bytes else old(output)
    {
      if |output| + |bytes| > max { return false; }
      output := output + bytes;
      return true;
    }

    method ChargeItems(count: nat) returns (ok: bool)
      modifies `items
      ensures items == old(items) + count && (ok <==> items <= MAX_TOTAL_ITEMS)
    {
      items := items + count;
      return items <= MAX_TOTAL_ITEMS;
    }

    /** The shortest form, marker and argument in separate writes when it is long. */
    method WriteHead(major: Major, n: U64) returns (ok: bool)
      modifies `output
      ensures ok <==> |old(output)| + |Head(major, n)| <= max
      ensures ok ==> output == old(output) + Head(major, n)
    {
      if n < 24 {
        assert Head(major, n) == [major * 32 + n];
        ok := Write([major * 32 + n]);
      } else if n < 0x100 {
        assert BigEndian(n, 1) == BigEndian(n / 256, 0) + [n % 256] == [n];
        assert Head(major, n) == [major * 32 + 24, n];
        ok := Write([major * 32 + 24, n]);
      } else {
        ok := Write([major * 32 + Info(n)]);
        if !ok { return; }
        ok := Write(BigEndian(n, Width(n)));
        assert old(output) + [major * 32 + Info(n)] + BigEndian(n, Width(n)) == old(output) + Head(major, n);
      }
    }

    method EncodeValue(v: Value, depth: nat) returns (ok: bool)
      requires Bounded()
      modifies this
      ensures ok <==> Fits(v, depth, old(items), old(|output|), max)
      ensures ok ==> Bounded() && output == old(output) + Canon(v).value.bytes && items == old(items) + Canon(v).value.items
      decreases v, 2
    {
      if depth > MAX_DEPTH { return false; }
      match v {
        case Array(_) => ok := EncodeArray(v, depth);
        case Map(_) => ok := EncodeMap(v, depth);
        case _ => ok := EncodeLeaf(v, depth);
      }
    }

    method EncodeLeaf(v: Value, depth: nat) returns (ok: bool)
      requires Bounded() && depth <= MAX_DEPTH && !v.Array? && !v.Map?
      modifies this
      ensures ok <==> Fits(v, depth, old(items), old(|output|), max)
      ensures ok ==> Bounded() && output == old(output) + Canon(v).value.bytes && items == old(items) + Canon(v).value.items
    {
      ok := ChargeItems(1);
      if !ok { return; }
      match v {
        case Unsigned(n) => ok := WriteHead(0, n);
        case Negative(i) =>
          if i >= 0 { return false; }
          ok := WriteHead(1, -1 - i);
        case ByteString(b) => ok := WriteString(2, b);
        case Text(t) => ok := WriteString(3, t);
        case Bool(flag) => ok := Write([if flag then 0xf5 else 0xf4]);
        case Null => ok := Write([0xf6]);
      }
    }

    method WriteString(major: Major, b: Bytes) returns (ok: bool)
      modifies `output
      ensures ok <==> |b| < 0x1_0000_0000_0000_0000 && |old(output)| + |Head(major, |b|)| + |b| <= max
      ensures ok ==> output == old(output) + (Head(major, |b|) + b)
    {
      if |b| >= 0x1_0000_0000_0000_0000 { return false; }
      ok := WriteHead(major, |b|);
      if !ok { return; }
      ok := Write(b);
      assert old(output) + Head(major, |b|) + b == old(output) + (Head(major, |b|) + b);
    }

    method EncodeArray(v: Value, depth: nat) returns (ok: bool)
      requires Bounded() && depth <= MAX_DEPTH && v.Array?
      modifies this
      ensures ok <==> Fits(v, depth, old(items), old(|output|), max)
      ensures ok ==> Bounded() && output == old(output) + Canon(v).value.bytes && items == old(items) + Canon(v).value.items
      decreases v, 1
    {
      hide Canon, Fits;
      ok := ChargeItems(1);
      ArrayRefused(v, depth, old(items), old(|output|), max);
      if !ok { return; }
      if |v.items| > MAX_CONTAINER_ENTRIES { return false; }
      ok := WriteHead(4, |v.items|);
      if !ok { return; }
      ghost var forms: seq<Form> := [];
      ghost var start := output;
      assert start + [] == start;
      for i := 0 to |v.items|
        invariant Bounded() && |forms| == i
        invariant forall j :: 0 <= j < i ==> Canon(v.items[j]) == Some(forms[j])
        invariant items == old(items) + 1 + TotalItems(forms) && output == start + Concat(forms)
        invariant depth + Deepest(forms) <= MAX_DEPTH
      {
        if Fits(v, depth, old(items), old(|output|), max) {
          ElementFits(v, depth, old(items), old(|output|), max, forms);
        }
        ok := EncodeValue(v.items[i], depth + 1);
        if !ok { return; }
        ElementForm(v.items[i], depth + 1, old(items) + 1 + TotalItems(forms), |start| + |Concat(forms)|, max);
        OneMore(forms, Canon(v.items[i]).value);
        forms := forms + [Canon(v.items[i]).value];
      }
      ok := true;
      CanonAllOf(v.items, forms);
      ArrayDone(v, forms, depth, old(items), old(|output|), max);
      assert output == old(output) + (Head(4, |v.items|) + Concat(forms));
    }

    /** One key through an encoder of its own, with the same byte limit and a fresh item count. */
    method EncodeKey(p: Pair, depth: nat) returns (ok: bool, bytes: Bytes, count: nat)
      ensures ok <==> Fits(p.key, depth, 0, 0, max)
      ensures ok ==> bytes == Canon(p.key).value.bytes && count == Canon(p.key).value.items
      decreases p, 3
    {
      var encoder := new Encoder(max);
      ok := encoder.EncodeValue(p.key, depth);
      bytes, count := encoder.output, encoder.items;
      assert ok ==> [] + Canon(p.key).value.bytes == Canon(p.key).value.bytes;
    }

    method EncodeMap(v: Value, depth: nat) returns (ok: bool)
      requires Bounded() && depth <= MAX_DEPTH && v.Map?
      modifies this
      ensures ok <==> Fits(v, depth, old(items), old(|output|), max)
      ensures ok ==> Bounded() && output == old(output) + Canon(v).value.bytes && items == old(items) + Canon(v).value.items
      decreases v, 1
    {
      hide Canon, Fits, CanonEntries, Aligned, TwinKeys, HasTwins;
      ok := ChargeItems(1);
      MapRefused(v, depth, old(items), old(|output|), max);
      if !ok { return; }
      if |v.entries| > MAX_CONTAINER_ENTRIES { return false; }
      ghost var forms: seq<Form>;
      var keyed;
      ok, keyed, forms := EncodeKeys(v, depth, old(items));
      if !ok { return; }
      var sorted := SortKeyed(keyed);
      SortHas(keyed);
      Sources(v, keyed, sorted);
      ghost var good, es := CanonEntries(v.entries).Some?, if CanonEntries(v.entries).Some? then CanonEntries(v.entries).value else [];
      MapMissing(v, keyed, forms);
      if good {
        SortAligned(keyed, es);
        AlignedTwins(sorted, Sort(es));
      }
      if Fits(v, depth, old(items), old(|output|), max) { NeedsEntries(v, depth, old(items), old(|output|), max); }
      if TwinKeys(sorted) { return false; }
      ok := WriteHead(5, |sorted|);
      if !ok { return; }
      ghost var start := output;
      ok := EncodeSorted(v, depth, sorted, good, Sort(es));
      AllThere(keyed, sorted);
      if good { MapDone(v, es, depth, old(items), old(|output|), max); }
      assert ok ==> output == old(output) + (Head(5, |sorted|) + Concat(Spread(Sort(es))));
    }

    /** The first loop: every key in turn, charged and counted before anything is written. */
    method EncodeKeys(v: Value, depth: nat, ghost before: nat)
      returns (ok: bool, keyed: seq<Keyed>, ghost forms: seq<Form>)
      requires Bounded() && depth <= MAX_DEPTH && v.Map? && items == before + 1
      modifies `items
      ensures !ok ==> !Fits(v, depth, before, |output|, max)
      ensures ok ==> Bounded() && |keyed| == |forms| == |v.entries| && items == before + 1 + TotalItems(forms)
      ensures ok ==> depth + Deepest(forms) <= MAX_DEPTH
      ensures ok ==> forall j :: 0 <= j < |keyed| ==>
        Canon(v.entries[j].key) == Some(forms[j]) && keyed[j] == Keyed(forms[j].bytes, v.entries[j])
      decreases v, 0
    {
      hide Canon, Fits;
      keyed, forms := [], [];
      var pending := 0;
      for i := 0 to |v.entries|
        invariant Bounded() && |keyed| == |forms| == i
        invariant items == before + 1 + TotalItems(forms) && pending == |Concat(forms)|
        invariant depth + Deepest(forms) <= MAX_DEPTH
        invariant forall j :: 0 <= j < i ==>
          Canon(v.entries[j].key) == Some(forms[j]) && keyed[j] == Keyed(forms[j].bytes, v.entries[j])
      {
        if Fits(v, depth, before, |output|, max) {
          KeyFits(v, depth, before, |output|, max, forms);
        }
        var bytes, count;
        ok, bytes, count := EncodeKey(v.entries[i], depth + 1);
        if !ok { return; }
        ElementForm(v.entries[i].key, depth + 1, 0, 0, max);
        OneMore(forms, Canon(v.entries[i].key).value);
        forms := forms + [Canon(v.entries[i].key).value];
        ok := ChargeItems(count);
        if !ok { return; }
        pending := pending + |bytes|;
        if |output| + pending > max { ok := false; return; }
        keyed := keyed + [Keyed(bytes, v.entries[i])];
      }
      ok := true;
    }

    /** The value of one entry in place. */
    method EncodeEntry(p: Pair, depth: nat) returns (ok: bool)
      requires Bounded()
      modifies this
      ensures ok <==> Fits(p.value, depth, old(items), old(|output|), max)
      ensures ok ==> Bounded() && output == old(output) + Canon(p.value).value.bytes && items == old(items) + Canon(p.value).value.items
      decreases p, 3
    {
      ok := EncodeValue(p.value, depth);
    }

    /** A key as it is and its value after it. */
    method PutEntry(k: Keyed, depth: nat) returns (ok: bool)
      requires Bounded()
      modifies this
      ensures ok <==> && Canon(k.entry.value).Some? && depth + Canon(k.entry.value).value.height <= MAX_DEPTH
                      && old(items) + Canon(k.entry.value).value.items <= MAX_TOTAL_ITEMS
                      && old(|output|) + |k.bytes| + |Canon(k.entry.value).value.bytes| <= max
      ensures ok ==> Bounded() && output == old(output) + k.bytes + Canon(k.entry.value).value.bytes
      ensures ok ==> items == old(items) + Canon(k.entry.value).value.items
      decreases k.entry, 4
    {
      hide Canon;
      ok := Write(k.bytes);
      if !ok { return; }
      ok := EncodeEntry(k.entry, depth);
    }

    /** The second loop: keys as they are, values encoded after them. */
    method EncodeSorted(v: Value, depth: nat, sorted: seq<Keyed>, ghost good: bool, ghost es: seq<Entry>) returns (ok: bool)
      requires Bounded() && depth <= MAX_DEPTH && v.Map? && forall j :: 0 <= j < |sorted| ==> sorted[j].entry in v.entries
      requires good ==> Aligned(sorted, es)
      modifies this
      ensures ok ==> Bounded() && forall j :: 0 <= j < |sorted| ==> Canon(sorted[j].entry.value).Some?
      ensures good ==> (ok <==> Room(es, depth, old(items), old(|output|), max))
      ensures good && ok ==> output == old(output) + Concat(Spread(es)) && items == old(items) + TotalItems(Vals(es))
      decreases v, 0
    {
      hide Canon, Fits, Concat, TotalItems, Deepest, Spread, Vals;
      NoMembers();
      assert es[..0] == [];
      assert old(output) + [] == old(output);
      for i := 0 to |sorted|
        invariant Bounded() && forall j :: 0 <= j < i ==> Canon(sorted[j].entry.value).Some?
        invariant good ==> output == old(output) + Concat(Spread(es[..i])) && items == old(items) + TotalItems(Vals(es[..i]))
        invariant good ==> depth + Deepest(Vals(es[..i])) <= MAX_DEPTH
      {
        if good {
          NextEntry(es, i);
          if Room(es, depth, old(items), old(|output|), max) { RoomForNext(es, i, depth, old(items), old(|output|), max); }
        }
        ok := PutEntry(sorted[i], depth + 1);
        if !ok { return; }
      }
      ok := true;
      if good { assert es[..|sorted|] == es; }
    }
  }

  /** What the values of sorted entries need. */
  predicate Room(es: seq<Entry>, depth: nat, items: nat, size: nat, max: nat) {
    && depth + Deepest(Vals(es)) <= MAX_DEPTH
    && items + TotalItems(Vals(es)) <= MAX_TOTAL_ITEMS && size + |Concat(Spread(es))| <= max
  }

  lemma NoMembers()
    ensures Concat(Spread([])) == [] && TotalItems(Vals([])) == 0 && Deepest(Vals([])) == 0
  {
  }

  /** One entry more in every sum. */
  lemma NextEntry(es: seq<Entry>, i: nat)
    requires i < |es|
    ensures Concat(Spread(es[..i + 1])) == Concat(Spread(es[..i])) + es[i].key.bytes + es[i].value.bytes
    ensures TotalItems(Vals(es[..i + 1])) == TotalItems(Vals(es[..i])) + es[i].value.items
    ensures Deepest(Vals(es[..i + 1])) == Max(Deepest(Vals(es[..i])), 1 + es[i].value.height)
  {
    assert es[..i + 1] == es[..i] + [es[i]];
    SpreadAppend(es[..i], [es[i]]);
    AppendBytes(Spread(es[..i]), Spread([es[i]]));
    assert [es[i]][1..] == [] && Spread([es[i]]) == [es[i].key, es[i].value] == [es[i].key] + [es[i].value];
    AppendBytes([es[i].key], [es[i].value]);
    One(es[i].key);
    One(es[i].value);
    assert Vals(es[..i + 1]) == Vals(es[..i]) + [es[i].value];
    OneMore(Vals(es[..i]), es[i].value);
  }

  lemma {:induction false} SpreadAppend(a: seq<Entry>, b: seq<Entry>)
    ensures Spread(a + b) == Spread(a) + Spread(b)
  {
    if a == [] {
      assert a + b == b;
    } else {
      SpreadAppend(a[1..], b);
      assert (a + b)[1..] == a[1..] + b;
    }
  }

  lemma RoomForNext(es: seq<Entry>, i: nat, depth: nat, items: nat, size: nat, max: nat)
    requires i < |es| && Room(es, depth, items, size, max)
    ensures size + |Concat(Spread(es[..i]))| + |es[i].key.bytes| + |es[i].value.bytes| <= max
    ensures items + TotalItems(Vals(es[..i])) + es[i].value.items <= MAX_TOTAL_ITEMS
    ensures depth + 1 + es[i].value.height <= MAX_DEPTH
  {
    Within(Vals(es), i);
    assert Vals(es)[..i] == Vals(es[..i]);
    NextEntry(es, i);
    SpreadAppend(es[..i + 1], es[i + 1..]);
    AppendBytes(Spread(es[..i + 1]), Spread(es[i + 1..]));
    assert es == es[..i + 1] + es[i + 1..];
  }

  lemma MapRefused(v: Value, depth: nat, items: nat, size: nat, max: nat)
    requires v.Map?
    ensures Fits(v, depth, items, size, max) ==>
      && |v.entries| <= MAX_CONTAINER_ENTRIES && items + 1 <= MAX_TOTAL_ITEMS
      && size + |Head(5, |v.entries|)| <= max
  {
    if Fits(v, depth, items, size, max) {
      MapForm(v);
    }
  }

  lemma NeedsEntries(v: Value, depth: nat, items: nat, size: nat, max: nat)
    requires v.Map? && Fits(v, depth, items, size, max)
    ensures CanonEntries(v.entries).Some? && !HasTwins(Sort(CanonEntries(v.entries).value))
  {
    MapForm(v);
  }

  lemma AllThere(ks: seq<Keyed>, sorted: seq<Keyed>)
    requires forall k :: k in ks ==> k in sorted
    ensures (forall j :: 0 <= j < |sorted| ==> Canon(sorted[j].entry.value).Some?) ==>
      forall j :: 0 <= j < |ks| ==> Canon(ks[j].entry.value).Some?
  {
    forall j | 0 <= j < |ks|
      ensures exists i :: 0 <= i < |sorted| && sorted[i] == ks[j]
    {
      assert ks[j] in sorted;
    }
  }

  lemma Sources(v: Value, ks: seq<Keyed>, sorted: seq<Keyed>)
    requires v.Map? && (forall k :: k in sorted ==> k in ks) && |ks| == |v.entries|
    requires forall j :: 0 <= j < |ks| ==> ks[j].entry == v.entries[j]
    ensures forall j :: 0 <= j < |sorted| ==> sorted[j].entry in v.entries
  {
    forall j | 0 <= j < |sorted|
      ensures sorted[j].entry in v.entries
    {
      assert sorted[j] in ks;
      var k :| 0 <= k < |ks| && ks[k] == sorted[j];
      assert v.entries[k] == sorted[j].entry;
    }
  }

  lemma MapDone(v: Value, es: seq<Entry>, depth: nat, items: nat, size: nat, max: nat)
    requires v.Map? && |v.entries| <= MAX_CONTAINER_ENTRIES && CanonEntries(v.entries) == Some(es) && !HasTwins(Sort(es))
    ensures Canon(v).Some? && Canon(v).value.bytes == Head(5, |v.entries|) + Concat(Spread(Sort(es)))
    ensures Canon(v).value.items == 1 + TotalItems(Keys(es)) + TotalItems(Vals(Sort(es)))
    ensures Fits(v, depth, items, size, max) <==>
      && depth + Max(Deepest(Keys(es)), Deepest(Vals(Sort(es)))) <= MAX_DEPTH
      && items + Canon(v).value.items <= MAX_TOTAL_ITEMS && size + |Canon(v).value.bytes| <= max
  {
    MapForm(v);
    SplitSums(Sort(es));
    SortKeySums(es);
  }

  /** The entry point returns what `Encode` says. */
  method EncodeDeterministic(v: Value, max: nat) returns (r: Option<Bytes>)
    ensures r == Encode(v, max)
  {
    if Canon(v).Some? { EncodingNotEmpty(v); }
    if max == 0 { return None; }
    var encoder := new Encoder(max);
    var ok := encoder.EncodeValue(v, 0);
    if !ok { return None; }
    assert [] + Canon(v).value.bytes == Canon(v).value.bytes;
    return Some(encoder.output);
  }

  lemma ArrayRefused(v: Value, depth: nat, items: nat, size: nat, max: nat)
    requires v.Array?
    ensures Fits(v, depth, items, size, max) ==>
      |v.items| <= MAX_CONTAINER_ENTRIES && items + 1 <= MAX_TOTAL_ITEMS && size + |Head(4, |v.items|)| <= max
  {
  }

  lemma ElementForm(v: Value, depth: nat, items: nat, size: nat, max: nat)
    requires Fits(v, depth, items, size, max)
    ensures Canon(v).Some? && depth + Canon(v).value.height <= MAX_DEPTH
  {
  }

  lemma ArrayDone(v: Value, forms: seq<Form>, depth: nat, items: nat, size: nat, max: nat)
    requires v.Array? && |v.items| <= MAX_CONTAINER_ENTRIES && CanonAll(v.items) == Some(forms)
    ensures Canon(v).Some? && Canon(v).value.bytes == Head(4, |v.items|) + Concat(forms)
    ensures Canon(v).value.items == 1 + TotalItems(forms)
    ensures Fits(v, depth, items, size, max) <==>
      && depth + Deepest(forms) <= MAX_DEPTH && items + 1 + TotalItems(forms) <= MAX_TOTAL_ITEMS
      && size + |Head(4, |v.items|)| + |Concat(forms)| <= max
  {
  }
}
