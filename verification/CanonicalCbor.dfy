/**
The restricted deterministic CBOR profile behind every signed or hashed contract.

`Canon` gives the one encoding of a value together with the value as a decoder would return
it, that is with every map in the order of its encoded keys.  `Parse` is the decoder.
*/
module CanonicalCbor {
  import opened Common

  const MAX_DEPTH: nat := 32
  const MAX_CONTAINER_ENTRIES: nat := 4096
  const MAX_TOTAL_ITEMS: nat := 65536

  type U64 = x: int | 0 <= x < 0x1_0000_0000_0000_0000
  type I64 = x: int | -0x8000_0000_0000_0000 <= x < 0x8000_0000_0000_0000

  /** Well-formed UTF-8, table 3-7 of the Unicode standard: no overlong forms, no surrogates. */
  predicate IsUtf8(b: Bytes) {
    if b == [] then true
    else if b[0] < 0x80 then IsUtf8(b[1..])
    else if 0xc2 <= b[0] <= 0xdf then |b| >= 2 && Tail(b[1]) && IsUtf8(b[2..])
    else if 0xe0 <= b[0] <= 0xef then
      && |b| >= 3 && Tail(b[1]) && Tail(b[2])
      && (b[0] == 0xe0 ==> b[1] >= 0xa0) && (b[0] == 0xed ==> b[1] <= 0x9f)
      && IsUtf8(b[3..])
    else if 0xf0 <= b[0] <= 0xf4 then
      && |b| >= 4 && Tail(b[1]) && Tail(b[2]) && Tail(b[3])
      && (b[0] == 0xf0 ==> b[1] >= 0x90) && (b[0] == 0xf4 ==> b[1] <= 0x8f)
      && IsUtf8(b[4..])
    else false
  }

  predicate Tail(x: Byte) { 0x80 <= x <= 0xbf }

  type Utf8 = b: Bytes | IsUtf8(b)

  datatype Value =
    | Unsigned(n: U64)
    | Negative(i: I64)
    | ByteString(bytes: Bytes)
    | Text(text: Utf8)
    | Array(items: seq<Value>)
    | Map(entries: seq<Pair>)
    | Bool(flag: bool)
    | Null

  datatype Pair = Pair(key: Value, value: Value)

  // ---- Heads: a major type and a shortest-form argument ----

  function BigEndian(n: nat, width: nat): (b: Bytes)
    ensures |b| == width
  {
    if width == 0 then [] else BigEndian(n / 256, width - 1) + [n % 256]
  }

  function FromBigEndian(b: Bytes): (n: nat) {
    if b == [] then 0 else FromBigEndian(b[..|b| - 1]) * 256 + b[|b| - 1]
  }

  function Power256(width: nat): (p: nat)
    ensures p >= 1
  {
    if width == 0 then 1 else 256 * Power256(width - 1)
  }

  lemma {:induction false} BigEndianRoundTrip(n: nat, width: nat)
    requires n < Power256(width)
    ensures FromBigEndian(BigEndian(n, width)) == n
  {
    if width > 0 {
      BigEndianRoundTrip(n / 256, width - 1);
      assert BigEndian(n, width)[..width - 1] == BigEndian(n / 256, width - 1);
    }
  }

  lemma {:induction false} FromBigEndianRoundTrip(b: Bytes)
    ensures FromBigEndian(b) < Power256(|b|) && BigEndian(FromBigEndian(b), |b|) == b
  {
    if b != [] {
      FromBigEndianRoundTrip(b[..|b| - 1]);
      assert b == b[..|b| - 1] + [b[|b| - 1]];
    }
  }

  lemma Powers()
    ensures Power256(1) == 0x100 && Power256(2) == 0x1_0000 && Power256(4) == 0x1_0000_0000
    ensures Power256(8) == 0x1_0000_0000_0000_0000
  {
    assert Power256(3) == 0x100_0000;
    assert Power256(5) == 0x100_0000_0000;
    assert Power256(6) == 0x1_0000_0000_0000;
    assert Power256(7) == 0x100_0000_0000_0000;
  }

  type Major = m: nat | m < 8

  /** How many bytes of argument follow the initial byte of a shortest-form head. */
  function Width(n: U64): nat {
    if n < 24 then 0 else if n < 0x100 then 1 else if n < 0x1_0000 then 2 else if n < 0x1_0000_0000 then 4 else 8
  }

  function Info(n: U64): (info: nat)
    ensures info < 28
  {
    if n < 24 then n else if n < 0x100 then 24 else if n < 0x1_0000 then 25 else if n < 0x1_0000_0000 then 26 else 27
  }

  function Head(major: Major, n: U64): (b: Bytes)
    ensures 1 <= |b| <= 9 && b[0] / 32 == major
  {
    [major * 32 + Info(n)] + BigEndian(n, Width(n))
  }

  /** The argument announced by `info`, and where it ends; longer forms of small numbers are refused. */
  function ReadArgument(input: Bytes, pos: nat, info: nat): (r: Option<(U64, nat)>)
    requires pos <= |input|
    ensures r.Some? ==> pos <= r.value.1 <= |input|
  {
    if info < 24 then Some((info, pos))
    else if info == 24 then ReadWide(input, pos, 1, 24)
    else if info == 25 then ReadWide(input, pos, 2, 0x100)
    else if info == 26 then ReadWide(input, pos, 4, 0x1_0000)
    else if info == 27 then ReadWide(input, pos, 8, 0x1_0000_0000)
    else None
  }

  function ReadWide(input: Bytes, pos: nat, width: nat, least: nat): (r: Option<(U64, nat)>)
    requires pos <= |input| && width <= 8
    ensures r.Some? ==> r.value.1 == pos + width <= |input|
  {
    if pos + width > |input| then None
    else
      var n := FromBigEndian(input[pos..pos + width]);
      WideFits(input[pos..pos + width]);
      if n < least then None else Some((n, pos + width))
  }

  lemma WideFits(b: Bytes)
    requires |b| <= 8
    ensures FromBigEndian(b) < 0x1_0000_0000_0000_0000
  {
    FromBigEndianRoundTrip(b);
    Powers();
    PowerGrows(|b|, 8);
  }

  lemma {:induction false} PowerGrows(m: nat, n: nat)
    requires m <= n
    ensures Power256(m) <= Power256(n)
  {
    if m < n {
      PowerGrows(m, n - 1);
    }
  }

  lemma WidthFits(n: U64)
    ensures n < Power256(Width(n)) || n < 24
  {
    Powers();
  }

  lemma ReadWideUndoes(input: Bytes, pos: nat, n: U64)
    requires Width(n) > 0 && pos + Width(n) <= |input| && input[pos..pos + Width(n)] == BigEndian(n, Width(n))
    ensures ReadArgument(input, pos, Info(n)) == Some((n, pos + Width(n)))
  {
    WidthFits(n);
    BigEndianRoundTrip(n, Width(n));
  }

  lemma ReadWideSound(input: Bytes, pos: nat, width: nat, least: nat)
    requires pos <= |input| && (width, least) in {(1, 24), (2, 0x100), (4, 0x1_0000), (8, 0x1_0000_0000)}
    requires ReadWide(input, pos, width, least).Some?
    ensures var n := ReadWide(input, pos, width, least).value.0;
            Width(n) == width && input[pos..pos + width] == BigEndian(n, width)
  {
    Powers();
    FromBigEndianRoundTrip(input[pos..pos + width]);
  }

  lemma ReadArgumentSound(input: Bytes, pos: nat, info: nat)
    requires pos <= |input| && ReadArgument(input, pos, info).Some?
    ensures var (n, end) := ReadArgument(input, pos, info).value;
            info == Info(n) && input[pos..end] == BigEndian(n, Width(n))
  {
    if info == 24 {
      ReadWideSound(input, pos, 1, 24);
    } else if info == 25 {
      ReadWideSound(input, pos, 2, 0x100);
    } else if info == 26 {
      ReadWideSound(input, pos, 4, 0x1_0000);
    } else if info == 27 {
      ReadWideSound(input, pos, 8, 0x1_0000_0000);
    }
  }

  /** What was read is a shortest-form head ... */
  lemma ReadHeadSound(input: Bytes, pos: nat)
    requires pos < |input| && ReadArgument(input, pos + 1, input[pos] % 32).Some?
    ensures var (n, end) := ReadArgument(input, pos + 1, input[pos] % 32).value;
            pos < end <= |input| && input[pos..end] == Head(input[pos] / 32, n)
  {
    ReadArgumentSound(input, pos + 1, input[pos] % 32);
    var (n, end) := ReadArgument(input, pos + 1, input[pos] % 32).value;
    assert input[pos..end] == [input[pos]] + input[pos + 1..end];
  }

  /** ... and every such head is read back. */
  lemma ReadHeadUndoes(input: Bytes, pos: nat, major: Major, n: U64)
    requires pos + |Head(major, n)| <= |input| && input[pos..pos + |Head(major, n)|] == Head(major, n)
    ensures input[pos] / 32 == major && input[pos] % 32 == Info(n)
    ensures ReadArgument(input, pos + 1, Info(n)) == Some((n, pos + |Head(major, n)|))
  {
    var head := Head(major, n);
    assert input[pos] == head[0];
    assert input[pos + 1..pos + 1 + Width(n)] == input[pos..pos + |head|][1..] == head[1..] == BigEndian(n, Width(n));
    if n >= 24 {
      ReadWideUndoes(input, pos + 1, n);
    }
  }

  // ---- The canonical form of a value ----

  /** An encoding, the value a decoder makes of it, and what it costs in items and depth. */
  datatype Form = Form(bytes: Bytes, value: Value, items: nat, height: nat)

  datatype Entry = Entry(key: Form, value: Form)

  predicate LexLess(a: Bytes, b: Bytes) {
    if b == [] then false
    else if a == [] then true
    else a[0] < b[0] || (a[0] == b[0] && LexLess(a[1..], b[1..]))
  }

  function Insert(e: Entry, s: seq<Entry>): seq<Entry> {
    if s == [] || !LexLess(s[0].key.bytes, e.key.bytes) then [e] + s else [s[0]] + Insert(e, s[1..])
  }

  /** Stable sort by encoded key. */
  function Sort(s: seq<Entry>): seq<Entry> {
    if s == [] then [] else Insert(s[0], Sort(s[1..]))
  }

  predicate HasTwins(s: seq<Entry>) {
    exists i :: 0 <= i < |s| - 1 && s[i].key.bytes == s[i + 1].key.bytes
  }

  function Concat(forms: seq<Form>): Bytes {
    if forms == [] then [] else forms[0].bytes + Concat(forms[1..])
  }

  function TotalItems(forms: seq<Form>): nat {
    if forms == [] then 0 else forms[0].items + TotalItems(forms[1..])
  }

  /** Levels below a container with these members. */
  function Deepest(forms: seq<Form>): nat {
    if forms == [] then 0
    else if 1 + forms[0].height > Deepest(forms[1..]) then 1 + forms[0].height
    else Deepest(forms[1..])
  }

  function Values(forms: seq<Form>): (vs: seq<Value>)
    ensures |vs| == |forms| && forall i :: 0 <= i < |vs| ==> vs[i] == forms[i].value
  {
    if forms == [] then [] else [forms[0].value] + Values(forms[1..])
  }

  function Pairs(es: seq<Entry>): (ps: seq<Pair>)
    ensures |ps| == |es| && forall i :: 0 <= i < |ps| ==> ps[i] == Pair(es[i].key.value, es[i].value.value)
  {
    if es == [] then [] else [Pair(es[0].key.value, es[0].value.value)] + Pairs(es[1..])
  }

  /** The members of a map in wire order: key, value, key, value. */
  function Spread(es: seq<Entry>): seq<Form> {
    if es == [] then [] else [es[0].key, es[0].value] + Spread(es[1..])
  }

  function Leaf(bytes: Bytes, v: Value): Form {
    Form(bytes, v, 1, 0)
  }

  function Container(major: Major, count: U64, members: seq<Form>, v: Value): Form {
    Form(Head(major, count) + Concat(members), v, 1 + TotalItems(members), Deepest(members))
  }

  function Canon(v: Value): Option<Form>
    decreases v, 1
  {
    match v
    case Unsigned(n) => Some(Leaf(Head(0, n), v))
    case Negative(i) => if i >= 0 then None else Some(Leaf(Head(1, -1 - i), v))
    case ByteString(b) =>
      if |b| >= 0x1_0000_0000_0000_0000 then None else Some(Leaf(Head(2, |b|) + b, v))
    case Text(t) =>
      if |t| >= 0x1_0000_0000_0000_0000 then None else Some(Leaf(Head(3, |t|) + t, v))
    case Array(items) =>
      if |items| > MAX_CONTAINER_ENTRIES then None
      else
        var members := CanonAll(items);
        if members.None? then None
        else Some(Container(4, |items|, members.value, Array(Values(members.value))))
    case Map(entries) =>
      if |entries| > MAX_CONTAINER_ENTRIES then None
      else
        var es := CanonEntries(entries);
        if es.None? || HasTwins(Sort(es.value)) then None
        else Some(Container(5, |entries|, Spread(Sort(es.value)), Map(Pairs(Sort(es.value)))))
    case Bool(flag) => Some(Leaf([if flag then 0xf5 else 0xf4], v))
    case Null => Some(Leaf([0xf6], v))
  }

  function CanonAll(items: seq<Value>): (r: Option<seq<Form>>)
    ensures r.Some? ==> |r.value| == |items|
    decreases items, 0
  {
    if items == [] then Some([])
    else
      var first := Canon(items[0]);
      var rest := CanonAll(items[1..]);
      if first.None? || rest.None? then None else Some([first.value] + rest.value)
  }

  function CanonPair(p: Pair): Option<Entry>
    decreases p, 1
  {
    var key := Canon(p.key);
    var value := Canon(p.value);
    if key.None? || value.None? then None else Some(Entry(key.value, value.value))
  }

  function CanonEntries(entries: seq<Pair>): (r: Option<seq<Entry>>)
    ensures r.Some? ==> |r.value| == |entries|
    decreases entries, 0
  {
    if entries == [] then Some([])
    else
      var first := CanonPair(entries[0]);
      var rest := CanonEntries(entries[1..]);
      if first.None? || rest.None? then None else Some([first.value] + rest.value)
  }

  // ---- The decoder ----

  datatype Parsed<T> = Parsed(value: T, pos: nat, items: nat)

  function Parse(input: Bytes, max: nat, pos: nat, depth: nat, items: nat): (r: Option<Parsed<Value>>)
    requires pos <= |input|
    ensures r.Some? ==> pos < r.value.pos <= |input|
    decreases |input| - pos, 0
  {
    if depth > MAX_DEPTH || items + 1 > MAX_TOTAL_ITEMS || pos == |input| then None
    else
      var major := input[pos] / 32;
      var info := input[pos] % 32;
      if major == 7 then
        if info == 20 then Some(Parsed(Bool(false), pos + 1, items + 1))
        else if info == 21 then Some(Parsed(Bool(true), pos + 1, items + 1))
        else if info == 22 then Some(Parsed(Null, pos + 1, items + 1))
        else None
      else
        var argument := ReadArgument(input, pos + 1, info);
        if major == 6 || argument.None? then None
        else
          var (n, next) := argument.value;
          if major == 0 then Some(Parsed(Unsigned(n), next, items + 1))
          else if major == 1 then
            if n >= 0x8000_0000_0000_0000 then None else Some(Parsed(Negative(-1 - n), next, items + 1))
          else if n > max then None
          else if major == 2 || major == 3 then
            if next + n > |input| then None
            else if major == 2 then Some(Parsed(ByteString(input[next..next + n]), next + n, items + 1))
            else if IsUtf8(input[next..next + n]) then Some(Parsed(Text(input[next..next + n]), next + n, items + 1))
            else None
          else if n > MAX_CONTAINER_ENTRIES then None
          else if major == 4 then
            var members := ParseItems(input, max, next, depth + 1, items + 1, n);
            if members.None? then None
            else Some(Parsed(Array(members.value.value), members.value.pos, members.value.items))
          else
            var members := ParseEntries(input, max, next, depth + 1, items + 1, n, None);
            if members.None? then None
            else Some(Parsed(Map(members.value.value), members.value.pos, members.value.items))
  }

  function ParseItems(input: Bytes, max: nat, pos: nat, depth: nat, items: nat, n: nat): (r: Option<Parsed<seq<Value>>>)
    requires pos <= |input|
    ensures r.Some? ==> pos <= r.value.pos <= |input| && |r.value.value| == n
    decreases |input| - pos, 1
  {
    if n == 0 then Some(Parsed([], pos, items))
    else
      var first := Parse(input, max, pos, depth, items);
      if first.None? then None
      else
        var rest := ParseItems(input, max, first.value.pos, depth, first.value.items, n - 1);
        if rest.None? then None
        else Some(Parsed([first.value.value] + rest.value.value, rest.value.pos, rest.value.items))
  }

  function ParseEntries(input: Bytes, max: nat, pos: nat, depth: nat, items: nat, n: nat, previous: Option<Bytes>)
    : (r: Option<Parsed<seq<Pair>>>)
    requires pos <= |input|
    ensures r.Some? ==> pos <= r.value.pos <= |input| && |r.value.value| == n
    decreases |input| - pos, 1
  {
    if n == 0 then Some(Parsed([], pos, items))
    else
      var key := Parse(input, max, pos, depth, items);
      if key.None? || (previous.Some? && !LexLess(previous.value, input[pos..key.value.pos])) then None
      else
        var value := Parse(input, max, key.value.pos, depth, key.value.items);
        if value.None? then None
        else
          var rest := ParseEntries(input, max, value.value.pos, depth, value.value.items, n - 1, Some(input[pos..key.value.pos]));
          if rest.None? then None
          else Some(Parsed([Pair(key.value.value, value.value.value)] + rest.value.value, rest.value.pos, rest.value.items))
  }
}
