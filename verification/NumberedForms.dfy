/** How large and how deep the encodings of numbered maps get. */
module NumberedForms {
  import opened Common
  import opened CanonicalCbor
  import opened CborTheorems
  import opened GroupCodec

  /** Encodes, lists its maps in canonical order, and keeps within these bounds. */
  ghost predicate Tidy(v: Value, height: nat, items: nat, size: nat) {
    && Canon(v).Some? && Canon(v).value.value == v
    && Canon(v).value.height <= height && Canon(v).value.items <= items && |Canon(v).value.bytes| <= size
  }

  ghost predicate AllTidy(fields: seq<Value>, height: nat, items: nat, size: nat) {
    forall i :: 0 <= i < |fields| ==> Tidy(fields[i], height, items, size)
  }

  /** The encoded sizes of these values together. */
  ghost function Sizes(fields: seq<Value>): nat {
    if fields == [] then 0
    else (if Canon(fields[0]).Some? then |Canon(fields[0]).value.bytes| else 0) + Sizes(fields[1..])
  }

  // ---- Leaves ----

  lemma NumberTidy(n: U64)
    ensures Tidy(Unsigned(n), 0, 1, 9)
  {
  }

  lemma NullTidy()
    ensures Tidy(Null, 0, 1, 1)
  {
  }

  lemma HeadSize(major: Major, n: U64)
    ensures |Head(major, n)| == 1 + Width(n)
  {
  }

  lemma TextTidy(t: Utf8)
    requires |t| < 256
    ensures Tidy(Text(t), 0, 1, |t| + 2)
  {
    HeadSize(3, |t|);
  }

  lemma BytesTidy(b: Bytes)
    requires |b| < 0x1_0000_0000
    ensures Tidy(ByteString(b), 0, 1, |b| + 5) && (|b| < 256 ==> Tidy(ByteString(b), 0, 1, |b| + 2))
    ensures |b| < |Canon(ByteString(b)).value.bytes|
  {
    HeadSize(2, |b|);
  }

  // ---- Numbered maps ----

  lemma KeyForm(i: nat)
    requires i < 23
    ensures Canon(KeyOf(i)) == Some(Leaf([i + 1], KeyOf(i)))
  {
    assert Head(0, i + 1) == [i + 1];
  }

  /** The entries of a numbered map, which stand in canonical order already. */
  ghost function Entries(fields: seq<Value>): (es: seq<Entry>)
    requires |fields| <= 23 && forall i :: 0 <= i < |fields| ==> Canon(fields[i]).Some?
    ensures |es| == |fields|
    ensures forall i :: 0 <= i < |es| ==> es[i] == Entry(Leaf([i + 1], KeyOf(i)), Canon(fields[i]).value)
  {
    seq(|fields|, i requires 0 <= i < |fields| => Entry(Leaf([i + 1], KeyOf(i)), Canon(fields[i]).value))
  }

  lemma EntriesAscend(fields: seq<Value>)
    requires |fields| <= 23 && forall i :: 0 <= i < |fields| ==> Canon(fields[i]).Some?
    ensures Ascending(Entries(fields))
  {
  }

  lemma NumberedCanon(fields: seq<Value>)
    requires |fields| <= 23
    requires forall i :: 0 <= i < |fields| ==> Canon(fields[i]).Some? && Canon(fields[i]).value.value == fields[i]
    ensures Canon(NumberedMap(fields)) == Some(Container(5, |fields|, Spread(Entries(fields)), NumberedMap(fields)))
  {
    hide Canon, CanonEntries, Spread, LexLess, KeyOf;
    var v, es := NumberedMap(fields), Entries(fields);
    forall i | 0 <= i < |fields|
      ensures CanonPair(v.entries[i]) == Some(es[i])
    {
      KeyForm(i);
    }
    CanonEntriesOf(v.entries, es);
    assert Pairs(es) == v.entries;
    EntriesAscend(fields);
    CanonOfMap(v, es);
  }

  ghost function ValueSizes(es: seq<Entry>): nat {
    if es == [] then 0 else |es[0].value.bytes| + ValueSizes(es[1..])
  }

  lemma {:induction false} SpreadTotals(es: seq<Entry>, height: nat, items: nat)
    requires forall i :: 0 <= i < |es| ==> |es[i].key.bytes| == 1 && es[i].key.items == 1 && es[i].key.height == 0
    requires forall i :: 0 <= i < |es| ==> es[i].value.items <= items && es[i].value.height <= height
    ensures |Concat(Spread(es))| == |es| + ValueSizes(es)
    ensures TotalItems(Spread(es)) <= |es| * (1 + items) && Deepest(Spread(es)) <= height + 1
  {
    if es != [] {
      SpreadTotals(es[1..], height, items);
      var rest := Spread(es[1..]);
      assert Spread(es)[1..] == [es[0].value] + rest && ([es[0].value] + rest)[1..] == rest;
      assert |es| * (1 + items) == (1 + items) + |es[1..]| * (1 + items);
    }
  }

  lemma {:induction false} SameSizes(es: seq<Entry>, fields: seq<Value>)
    requires |es| == |fields| && forall i :: 0 <= i < |es| ==> Canon(fields[i]) == Some(es[i].value)
    ensures ValueSizes(es) == Sizes(fields)
  {
    if es != [] {
      SameSizes(es[1..], fields[1..]);
    }
  }

  /** A numbered map of tidy fields is tidy, and its size is what its fields and their numbers take. */
  lemma NumberedTidy(fields: seq<Value>, height: nat, items: nat, size: nat)
    requires |fields| <= 23 && AllTidy(fields, height, items, size)
    ensures Tidy(NumberedMap(fields), height + 1, 1 + |fields| * (1 + items), 1 + |fields| + Sizes(fields))
    ensures |Canon(NumberedMap(fields)).value.bytes| == 1 + |fields| + Sizes(fields)
  {
    hide Canon, Concat, TotalItems, Deepest, Spread;
    NumberedCanon(fields);
    var es := Entries(fields);
    SpreadTotals(es, height, items);
    SameSizes(es, fields);
    HeadSize(5, |fields|);
  }

  lemma {:induction false} SizesWithin(fields: seq<Value>, size: nat)
    requires forall i :: 0 <= i < |fields| ==> Canon(fields[i]).Some? && |Canon(fields[i]).value.bytes| <= size
    ensures Sizes(fields) <= |fields| * size
  {
    hide Canon;
    if fields != [] {
      SizesWithin(fields[1..], size);
      var n := |fields| - 1;
      assert (n + 1) * size == n * size + size;
    }
  }

  lemma {:induction false} SizesApart(fields: seq<Value>, k: nat)
    requires k < |fields| && Canon(fields[k]).Some?
    ensures Sizes(fields) == Sizes(fields[..k]) + |Canon(fields[k]).value.bytes| + Sizes(fields[k + 1..])
  {
    if k == 0 {
      assert fields[..0] == [];
    } else {
      SizesApart(fields[1..], k - 1);
      assert fields[..k][1..] == fields[1..][..k - 1] && fields[1..][k - 1 + 1..] == fields[k + 1..];
    }
  }

  /** Fields of one size bound. */
  lemma UniformTidy(fields: seq<Value>, height: nat, items: nat, size: nat)
    requires |fields| <= 23 && AllTidy(fields, height, items, size)
    ensures Tidy(NumberedMap(fields), height + 1, 1 + |fields| * (1 + items), 1 + |fields| + |fields| * size)
  {
    hide Canon;
    NumberedTidy(fields, height, items, size);
    SizesWithin(fields, size);
  }

  // ---- The bytes of a scope ----

  lemma TextForm(t: Utf8)
    requires 24 <= |t| < 256
    ensures Canon(Text(t)) == Some(Leaf([0x78, |t|] + t, Text(t)))
  {
    assert BigEndian(|t|, 1) == [|t|];
    assert Head(3, |t|) == [0x78, |t|];
  }

  /** A map of two entries: kind 1 is a private conversation, kind 2 a public channel; then the identifier's text. */
  lemma ScopeBytes(s: Scope)
    requires 24 <= |s.id| < 256
    ensures Encode(ScopeValue(s), 300) == Some([0xa2, 1, if s.PrivateConversation? then 1 else 2, 2, 0x78, |s.id|] + s.id)
  {
    hide Canon, NumberedMap, Concat, Spread, TotalItems, Deepest, Head, BigEndian;
    var kind: U64 := if s.PrivateConversation? then 1 else 2;
    var fields := [Unsigned(kind), Text(s.id)];
    SmallNumber(kind);
    TextForm(s.id);
    NumberedCanon(fields);
    var es := Entries(fields);
    var forms := [Leaf([1], KeyOf(0)), Leaf([kind], Unsigned(kind)), Leaf([2], KeyOf(1)), Leaf([0x78, |s.id|] + s.id, Text(s.id))];
    TwoSpread(es, forms);
    HeadExamples();
    FourParts(kind, s.id);
    assert Canon(ScopeValue(s)).value.bytes == [0xa2] + Concat(forms);
  }

  lemma FourParts(kind: Byte, id: Bytes)
    requires |id| < 256
    ensures [0xa2] + ([1] + [kind] + [2] + ([0x78, |id|] + id)) == [0xa2, 1, kind, 2, 0x78, |id|] + id
  {
  }

  lemma TwoSpread(es: seq<Entry>, forms: seq<Form>)
    requires |es| == 2 && forms == [es[0].key, es[0].value, es[1].key, es[1].value]
    requires forall i :: 0 <= i < 4 ==> forms[i].items == 1 && forms[i].height == 0
    ensures Spread(es) == forms && TotalItems(forms) == 4 && Deepest(forms) == 1
    ensures Concat(forms) == forms[0].bytes + forms[1].bytes + forms[2].bytes + forms[3].bytes
  {
    assert es[1..][1..] == [] && Spread(es[1..]) == [es[1].key, es[1].value];
    assert forms[1..][1..] == forms[2..] && forms[2..][1..] == forms[3..] && forms[3..][1..] == [];
    assert Concat(forms[3..]) == forms[3].bytes && TotalItems(forms[3..]) == 1 && Deepest(forms[3..]) == 1;
    assert Concat(forms[2..]) == forms[2].bytes + forms[3].bytes && TotalItems(forms[2..]) == 2 && Deepest(forms[2..]) == 1;
    assert Concat(forms[1..]) == forms[1].bytes + (forms[2].bytes + forms[3].bytes) && TotalItems(forms[1..]) == 3;
    assert Deepest(forms[1..]) == 1;
  }
}
