/** The decoder as it runs: a position and an item count that every read advances. */
module CborParser {
  import opened Common
  import opened CanonicalCbor
  import opened CborTheorems

  /** Members already read in front of those still to come. */
  function Joined<T>(done: seq<T>, rest: Option<Parsed<seq<T>>>): Option<Parsed<seq<T>>> {
    if rest.None? then None else Some(Parsed(done + rest.value.value, rest.value.pos, rest.value.items))
  }

  lemma JoinedNothing<T>(rest: Option<Parsed<seq<T>>>)
    ensures Joined([], rest) == rest
  {
    if rest.Some? {
      assert [] + rest.value.value == rest.value.value;
    }
  }

  lemma JoinedMore<T>(done: seq<T>, v: T, rest: Option<Parsed<seq<T>>>)
    ensures Joined(done, Joined([v], rest)) == Joined(done + [v], rest)
  {
    if rest.Some? {
      assert done + ([v] + rest.value.value) == done + [v] + rest.value.value;
    }
  }

  class Parser {
    const input: Bytes
    const max: nat
    var position: nat
    var items: nat

    constructor (input: Bytes, max: nat)
      ensures this.input == input && this.max == max && position == 0 && items == 0
    {
      this.input, this.max, position, items := input, max, 0, 0;
    }

    method ReadByte() returns (r: Option<Byte>)
      requires position <= |input|
      modifies `position
      ensures position <= |input|
      ensures r == if old(position) < |input| then Some(input[old(position)]) else None
      ensures position == old(position) + if r.Some? then 1 else 0
    {
      if position == |input| { return None; }
      r := Some(input[position]);
      position := position + 1;
    }

    method ReadExact(length: nat) returns (r: Option<Bytes>)
      requires position <= |input|
      modifies `position
      ensures position <= |input|
      ensures r.Some? <==> old(position) + length <= |input|
      ensures r.Some? ==> r.value == input[old(position)..old(position) + length] && position == old(position) + length
    {
      if position + length > |input| { return None; }
      r := Some(input[position..position + length]);
      position := position + length;
    }

    /** An argument of this many bytes; the next shorter form must not do. */
    method ReadWidth(width: nat, least: nat) returns (r: Option<U64>)
      requires position <= |input| && width <= 8
      modifies `position
      ensures position <= |input|
      ensures ReadWide(input, old(position), width, least) == if r.Some? then Some((r.value, position)) else None
    {
      var bytes := ReadExact(width);
      if bytes.None? { return None; }
      WideFits(bytes.value);
      var n := FromBigEndian(bytes.value);
      if n < least { return None; }
      return Some(n);
    }

    method ReadHead(info: nat) returns (r: Option<U64>)
      requires position <= |input|
      modifies `position
      ensures position <= |input|
      ensures ReadArgument(input, old(position), info) == if r.Some? then Some((r.value, position)) else None
    {
      if info < 24 { return Some(info); }
      if info == 24 {
        r := ReadWidth(1, 24);
      } else if info == 25 {
        r := ReadWidth(2, 0x100);
      } else if info == 26 {
        r := ReadWidth(4, 0x1_0000);
      } else if info == 27 {
        r := ReadWidth(8, 0x1_0000_0000);
      } else {
        r := None;
      }
    }

    /** Agrees with `Parse` on value, position and items. */
    ghost predicate Read(expected: Option<Parsed<Value>>, r: Option<Value>)
      reads this
    {
      match expected
      case None => r.None?
      case Some(p) => r == Some(p.value) && position == p.pos && items == p.items
    }

    method ParseValue(depth: nat) returns (r: Option<Value>)
      requires position <= |input|
      modifies `position, `items
      ensures position <= |input|
      ensures Read(Parse(input, max, old(position), depth, old(items)), r)
      decreases |input| - position, 1
    {
      if depth > MAX_DEPTH { return None; }
      items := items + 1;
      if items > MAX_TOTAL_ITEMS { return None; }
      var initial := ReadByte();
      if initial.None? { return None; }
      var major, info := initial.value / 32, initial.value % 32;
      if major == 7 {
        return if info == 20 then Some(Bool(false)) else if info == 21 then Some(Bool(true))
          else if info == 22 then Some(Null) else None;
      }
      if major == 6 { return None; }
      var argument := ReadHead(info);
      if argument.None? { return None; }
      var n := argument.value;
      if major == 0 { return Some(Unsigned(n)); }
      if major == 1 {
        if n >= 0x8000_0000_0000_0000 { return None; }
        return Some(Negative(-1 - n));
      }
      if n > max { return None; }
      if major == 2 || major == 3 {
        var bytes := ReadExact(n);
        if bytes.None? { return None; }
        if major == 2 { return Some(ByteString(bytes.value)); }
        if !IsUtf8(bytes.value) { return None; }
        return Some(Text(bytes.value));
      }
      if n > MAX_CONTAINER_ENTRIES { return None; }
      if major == 4 {
        var values := ParseArray(depth, n);
        if values.None? { return None; }
        return Some(Array(values.value));
      }
      var entries := ParseMap(depth, n);
      if entries.None? { return None; }
      return Some(Map(entries.value));
    }

    ghost predicate ReadAll<T>(expected: Option<Parsed<seq<T>>>, r: Option<seq<T>>)
      reads this
    {
      match expected
      case None => r.None?
      case Some(p) => r == Some(p.value) && position == p.pos && items == p.items
    }

    method ParseArray(depth: nat, n: nat) returns (r: Option<seq<Value>>)
      requires position <= |input|
      modifies `position, `items
      ensures position <= |input|
      ensures ReadAll(ParseItems(input, max, old(position), depth + 1, old(items), n), r)
      decreases |input| - position, 2
    {
      var values: seq<Value> := [];
      JoinedNothing(ParseItems(input, max, position, depth + 1, items, n));
      for i := 0 to n
        invariant old(position) <= position <= |input|
        invariant ParseItems(input, max, old(position), depth + 1, old(items), n) ==
          Joined(values, ParseItems(input, max, position, depth + 1, items, n - i))
      {
        var value := ParseValue(depth + 1);
        if value.None? { return None; }
        JoinedMore(values, value.value, ParseItems(input, max, position, depth + 1, items, n - i - 1));
        values := values + [value.value];
      }
      assert values + [] == values;
      return Some(values);
    }

    method ParseMap(depth: nat, n: nat) returns (r: Option<seq<Pair>>)
      requires position <= |input|
      modifies `position, `items
      ensures position <= |input|
      ensures ReadAll(ParseEntries(input, max, old(position), depth + 1, old(items), n, None), r)
      decreases |input| - position, 2
    {
      hide Parse, LexLess;
      var previous: Option<Bytes> := None;
      var entries: seq<Pair> := [];
      JoinedNothing(ParseEntries(input, max, position, depth + 1, items, n, previous));
      for i := 0 to n
        invariant old(position) <= position <= |input|
        invariant ParseEntries(input, max, old(position), depth + 1, old(items), n, None) ==
          Joined(entries, ParseEntries(input, max, position, depth + 1, items, n - i, previous))
      {
        var start := position;
        var key := ParseValue(depth + 1);
        if key.None? { return None; }
        var spelled := input[start..position];
        if previous.Some? && !LexLess(previous.value, spelled) { return None; }
        previous := Some(spelled);
        var value := ParseValue(depth + 1);
        if value.None? { return None; }
        ghost var rest := ParseEntries(input, max, position, depth + 1, items, n - i - 1, previous);
        JoinedMore(entries, Pair(key.value, value.value), rest);
        entries := entries + [Pair(key.value, value.value)];
      }
      assert entries + [] == entries;
      return Some(entries);
    }
  }

  /** The entry point returns what `Decode` says. */
  method DecodeDeterministic(input: Bytes, max: nat) returns (r: Option<Value>)
    ensures r == Decode(input, max)
  {
    if max == 0 || |input| > max { return None; }
    var parser := new Parser(input, max);
    r := parser.ParseValue(0);
    if r.Some? && parser.position != |input| { return None; }
  }
}
