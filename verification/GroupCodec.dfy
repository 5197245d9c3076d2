/**
The field conventions of the group node's canonical values and its signed action proofs.
Identifiers are represented by their canonical text, which is what parsing them demands and
what printing them gives back.
*/
module GroupCodec {
  import opened Common
  import opened CanonicalCbor

  const MIN_UTC_MILLIS: int := -62135596800000
  const MAX_UTC_MILLIS: int := 253402300799999

  // ---- Numbered maps ----

  /** Exactly `n` entries keyed 1, 2, ... n in that order; their values. */
  function ExactFields(v: Value, n: nat): (r: Option<seq<Value>>)
    ensures r.Some? ==> |r.value| == n
  {
    if v.Map? && |v.entries| == n && (forall i :: 0 <= i < n ==> v.entries[i].key == KeyOf(i))
    then Some(seq(n, i requires 0 <= i < n => v.entries[i].value))
    else None
  }

  /** Fields are numbered from one; a number that does not fit 64 bits saturates. */
  function KeyOf(i: nat): Value {
    Unsigned(if i + 1 < 0x1_0000_0000_0000_0000 then i + 1 else 0xffff_ffff_ffff_ffff)
  }

  function NumberedMap(values: seq<Value>): Value {
    Map(seq(|values|, i requires 0 <= i < |values| => Pair(KeyOf(i), values[i])))
  }

  lemma ExactFieldsUndoes(v: Value, n: nat, fields: seq<Value>)
    ensures ExactFields(v, n) == Some(fields) <==> v == NumberedMap(fields) && |fields| == n
  {
    if ExactFields(v, n) == Some(fields) {
      forall i | 0 <= i < n
        ensures v.entries[i] == NumberedMap(fields).entries[i]
      {
        assert fields[i] == v.entries[i].value;
      }
      assert v.entries == NumberedMap(fields).entries;
    }
    if v == NumberedMap(fields) && |fields| == n {
      assert forall i :: 0 <= i < n ==> v.entries[i].value == fields[i];
      assert ExactFields(v, n).value == fields;
    }
  }

  lemma NumberedMapInjective(a: seq<Value>, b: seq<Value>)
    requires NumberedMap(a) == NumberedMap(b)
    ensures a == b
  {
    ExactFieldsUndoes(NumberedMap(a), |a|, a);
    ExactFieldsUndoes(NumberedMap(a), |NumberedMap(b).entries|, b);
  }

  /** The value under this key of a numbered map. */
  function Under(v: Value, key: nat): Option<Value>
    requires 0 < key < 100
  {
    if v.Map? && key <= |v.entries| && v.entries[key - 1].key == Unsigned(key) then Some(v.entries[key - 1].value) else None
  }

  predicate Size(v: Value, n: nat) { v.Map? && |v.entries| == n }

  lemma UnderNumbered(fields: seq<Value>)
    requires |fields| < 100
    ensures Size(NumberedMap(fields), |fields|)
    ensures forall k :: 0 < k <= |fields| ==> Under(NumberedMap(fields), k) == Some(fields[k - 1])
  {
  }

  // ---- Scalars ----

  predicate IsLowerHex(c: Byte) { '0' as int <= c <= '9' as int || 'a' as int <= c <= 'f' as int }

  /** Hyphenated lower-case UUID of version 7 and the RFC 4122 variant. */
  predicate IsUuid7(t: Bytes) {
    && |t| == 36
    && (forall i :: 0 <= i < 36 ==> if i in {8, 13, 18, 23} then t[i] == '-' as int else IsLowerHex(t[i]))
    && t[14] == '7' as int
    && t[19] in {'8' as int, '9' as int, 'a' as int, 'b' as int}
  }

  predicate IsBase32(c: Byte) { 'a' as int <= c <= 'z' as int || '2' as int <= c <= '7' as int }

  /** `dtx?1` and 52 Base32 digits whose last four bits are zero. */
  predicate IsPublicId(kind: char, t: Bytes)
    requires kind as int < 256
  {
    && |t| == 57
    && t[..5] == ['d' as int, 't' as int, 'x' as int, kind as int, '1' as int]
    && (forall i :: 5 <= i < 57 ==> IsBase32(t[i]))
    && t[56] in {'a' as int, 'q' as int}
  }

  function ParseText(v: Value, min: nat, max: nat): Option<Utf8> {
    if v.Text? && min <= |v.text| <= max then Some(v.text) else None
  }

  function ParseUuid(v: Value): Option<Utf8> {
    if v.Text? && IsUuid7(v.text) then Some(v.text) else None
  }

  function ParseIdentity(v: Value): Option<Utf8> {
    if v.Text? && IsPublicId('i', v.text) then Some(v.text) else None
  }

  function ParseBytes(v: Value, n: nat): Option<Bytes> {
    if v.ByteString? && |v.bytes| == n then Some(v.bytes) else None
  }

  function ParseDigest(v: Value): Option<Bytes> {
    ParseBytes(v, 32)
  }

  function ParseSafeUint(v: Value): Option<nat> {
    if v.Unsigned? && v.n <= MAX_SAFE_INTEGER then Some(v.n) else None
  }

  function ParseRevision(v: Value): Option<nat> {
    var n :- ParseSafeUint(v);
    if n == 0 then None else Some(n)
  }

  function ParseUtc(v: Value): Option<int> {
    var millis :- match v
      case Unsigned(n) => if n < 0x8000_0000_0000_0000 then Some(n as int) else None
      case Negative(i) => Some(i as int)
      case _ => None;
    if MIN_UTC_MILLIS <= millis <= MAX_UTC_MILLIS then Some(millis) else None
  }

  function UtcValue(millis: int): Value
    requires MIN_UTC_MILLIS <= millis <= MAX_UTC_MILLIS
  {
    if millis >= 0 then Unsigned(millis) else Negative(millis)
  }

  /** `Negative` of a non-negative number is not encodable, so no decoder produces it. */
  predicate Genuine(v: Value) {
    v.Negative? ==> v.i < 0
  }

  lemma UtcExact(v: Value, millis: int)
    ensures ParseUtc(v) == Some(millis) && Genuine(v)
            <==> MIN_UTC_MILLIS <= millis <= MAX_UTC_MILLIS && v == UtcValue(millis)
  {
  }

  datatype Scope = PrivateConversation(id: Utf8) | PublicChannel(id: Utf8)

  predicate ValidScope(s: Scope) {
    match s
    case PrivateConversation(id) => IsUuid7(id)
    case PublicChannel(id) => IsPublicId('c', id)
  }

  function ScopeValue(s: Scope): Value {
    match s
    case PrivateConversation(id) => NumberedMap([Unsigned(1), Text(id)])
    case PublicChannel(id) => NumberedMap([Unsigned(2), Text(id)])
  }

  function ParseScope(v: Value): Option<Scope> {
    var fields :- ExactFields(v, 2);
    if !fields[1].Text? then None
    else if fields[0] == Unsigned(1) && IsUuid7(fields[1].text) then Some(PrivateConversation(fields[1].text))
    else if fields[0] == Unsigned(2) && IsPublicId('c', fields[1].text) then Some(PublicChannel(fields[1].text))
    else None
  }

  lemma ScopeExact(v: Value, s: Scope)
    ensures ParseScope(v) == Some(s) <==> v == ScopeValue(s) && ValidScope(s)
  {
    if ParseScope(v) == Some(s) {
      var fields := ExactFields(v, 2).value;
      ExactFieldsUndoes(v, 2, fields);
      assert fields == [fields[0], fields[1]];
    }
    if v == ScopeValue(s) && ValidScope(s) {
      ExactFieldsUndoes(v, 2, if s.PrivateConversation? then [Unsigned(1), Text(s.id)] else [Unsigned(2), Text(s.id)]);
    }
  }

  lemma ScopeValueInjective(s: Scope, t: Scope)
    requires ScopeValue(s) == ScopeValue(t)
    ensures s == t
  {
    var a := if s.PrivateConversation? then [Unsigned(1), Text(s.id)] else [Unsigned(2), Text(s.id)];
    var b := if t.PrivateConversation? then [Unsigned(1), Text(t.id)] else [Unsigned(2), Text(t.id)];
    NumberedMapInjective(a, b);
    assert a[0] == b[0] && a[1] == b[1];
  }
}
