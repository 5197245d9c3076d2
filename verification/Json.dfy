/** Compact JSON as the encoders write it: members in declaration order, strings escaped. */
module Json {
  import opened Common
  import opened Text
  import opened BootstrapText

  datatype Json = Str(text: string) | Num(n: nat) | Obj(members: seq<Member>)

  /** Field names, none of which needs an escape. */
  type Key = s: string | All(s, Literal)

  datatype Member = Member(key: Key, value: Json)

  function HexChar(n: nat): char
    requires n < 16
  {
    if n < 10 then '0' + n as char else 'a' + (n - 10) as char
  }

  function Escape(c: char): string {
    if Literal(c) then [c]
    else if c == '"' || c == '\\' then ['\\', c]
    else if c == '\U{8}' then "\\b"
    else if c == '\t' then "\\t"
    else if c == '\n' then "\\n"
    else if c == '\U{c}' then "\\f"
    else if c == '\r' then "\\r"
    else "\\u00" + [HexChar(c as int / 16), HexChar(c as int % 16)]
  }

  function Escaped(s: string): string {
    if s == [] then [] else Escape(s[0]) + Escaped(s[1..])
  }

  function Quote(s: string): string {
    "\"" + Escaped(s) + "\""
  }

  function Written(j: Json): string
    decreases j, 1
  {
    match j
    case Str(s) => Quote(s)
    case Num(n) => Decimal(n)
    case Obj(members) => "{" + Texts(members) + "}"
  }

  function MemberText(m: Member): string
    decreases m, 1
  {
    Quote(m.key) + ":" + Written(m.value)
  }

  function Texts(members: seq<Member>): string
    decreases members, 0
  {
    if members == [] then []
    else if |members| == 1 then MemberText(members[0])
    else MemberText(members[0]) + "," + Texts(members[1..])
  }

  lemma MemberExamples()
    ensures MemberText(Member("a", Num(7))) == "\"a\":7" && MemberText(Member("b", Str("x"))) == "\"b\":\"x\""
  {
    assert Escaped("a") == "a" && Escaped("b") == "b" && Escaped("x") == "x" && Decimal(7) == "7";
  }

  /** Members in order and without blanks. */
  lemma WrittenExample()
    ensures Written(Obj([Member("a", Num(7)), Member("b", Str("x"))])) == "{" + "\"a\":7" + "," + "\"b\":\"x\"" + "}"
  {
    hide MemberText;
    var a, b := Member("a", Num(7)), Member("b", Str("x"));
    MemberExamples();
    assert [a, b][1..] == [b];
    assert Texts([a, b]) == MemberText(a) + "," + MemberText(b);
  }

  /** No string, key or value, needs an escape. */
  predicate Clean(j: Json)
    decreases j, 1
  {
    match j
    case Str(s) => All(s, Literal)
    case Num(_) => true
    case Obj(members) => CleanAll(members)
  }

  predicate CleanMember(m: Member)
    decreases m, 1
  {
    Clean(m.value)
  }

  predicate CleanAll(members: seq<Member>)
    decreases members, 0
  {
    members == [] || (CleanMember(members[0]) && CleanAll(members[1..]))
  }

  lemma {:induction false} CleanEach(members: seq<Member>)
    ensures CleanAll(members) <==> forall i :: 0 <= i < |members| ==> CleanMember(members[i])
  {
    if members != [] {
      CleanEach(members[1..]);
      assert forall i :: 1 <= i < |members| ==> members[i] == members[1..][i - 1];
    }
  }

  lemma {:induction false} CleanAppend(a: seq<Member>, b: seq<Member>)
    requires CleanAll(a) && CleanAll(b)
    ensures CleanAll(a + b)
  {
    CleanEach(a);
    CleanEach(b);
    CleanEach(a + b);
  }

  lemma {:induction false} EscapedPlain(s: string)
    ensures '\\' in Escaped(s) <==> !All(s, Literal)
    ensures All(s, Literal) ==> Escaped(s) == s
  {
    if s != [] {
      EscapedPlain(s[1..]);
      assert All(s, Literal) <==> Literal(s[0]) && All(s[1..], Literal) by {
        assert forall i :: 1 <= i < |s| ==> s[i] == s[1..][i - 1];
        assert forall i :: 0 <= i < |s[1..]| ==> s[1..][i] == s[i + 1];
      }
      assert Literal(s[0]) <==> '\\' !in Escape(s[0]) by { EscapeMarks(s[0]); }
    }
  }

  lemma EscapeMarks(c: char)
    ensures '\\' in Escape(c) <==> !Literal(c)
  {
    if !Literal(c) {
      assert Escape(c)[0] == '\\';
    }
  }

  lemma {:induction false} DecimalPlain(n: nat)
    ensures '\\' !in Decimal(n)
  {
    if n >= 10 {
      DecimalPlain(n / 10);
    }
  }

  /** A text has a backslash exactly when some string in it needs an escape. */
  lemma {:induction false} BackslashMarks(j: Json)
    ensures '\\' !in Written(j) <==> Clean(j)
    decreases j, 1
  {
    match j {
      case Str(s) => EscapedPlain(s);
      case Num(n) => DecimalPlain(n);
      case Obj(members) => BackslashMarksAll(members);
    }
  }

  lemma BackslashMarksMember(m: Member)
    ensures '\\' !in MemberText(m) <==> CleanMember(m)
    decreases m, 1
  {
    EscapedPlain(m.key);
    BackslashMarks(m.value);
  }

  lemma {:induction false} BackslashMarksAll(members: seq<Member>)
    ensures '\\' !in Texts(members) <==> CleanAll(members)
    decreases members, 0
  {
    if members != [] {
      BackslashMarksMember(members[0]);
      BackslashMarksAll(members[1..]);
    }
  }

  // ---- Reading a string back ----

  function HexValue(c: char): Option<nat> {
    if '0' <= c <= '9' then Some((c - '0') as nat)
    else if 'a' <= c <= 'f' then Some((c - 'a') as nat + 10)
    else if 'A' <= c <= 'F' then Some((c - 'A') as nat + 10)
    else None
  }

  /** Four hexadecimal digits. */
  function Unit(s: string): (r: Option<nat>)
    requires |s| == 4
    ensures r.Some? ==> r.value < 0x1_0000
  {
    var a, b, c, d := HexValue(s[0]), HexValue(s[1]), HexValue(s[2]), HexValue(s[3]);
    if a.None? || b.None? || c.None? || d.None? then None
    else Some(a.value * 0x1000 + b.value * 0x100 + c.value * 0x10 + d.value)
  }

  /** The character an escape stands for and the length of the escape (section 7 of RFC 8259). */
  function ReadEscape(body: string): (r: Option<(char, nat)>)
    requires body != [] && body[0] == '\\'
    ensures r.Some? ==> 2 <= r.value.1 <= |body|
  {
    if |body| < 2 then None
    else if body[1] == '"' || body[1] == '\\' || body[1] == '/' then Some((body[1], 2))
    else if body[1] == 'b' then Some(('\U{8}', 2))
    else if body[1] == 'f' then Some(('\U{c}', 2))
    else if body[1] == 'n' then Some(('\n', 2))
    else if body[1] == 'r' then Some(('\r', 2))
    else if body[1] == 't' then Some(('\t', 2))
    else if body[1] != 'u' || |body| < 6 then None
    else
      var high := Unit(body[2..6]);
      if high.None? then None
      else if high.value < 0xd800 || 0xe000 <= high.value then Some((high.value as char, 6))
      else if 0xdc00 <= high.value || |body| < 12 || body[6..8] != "\\u" then None
      else
        var low := Unit(body[8..12]);
        if low.None? || !(0xdc00 <= low.value < 0xe000) then None
        else Some(((0x1_0000 + (high.value - 0xd800) * 0x400 + (low.value - 0xdc00)) as char, 12))
  }

  /** `s` is what the inside of a JSON string reads as. */
  predicate Decodes(body: string, s: string)
    decreases |body|
  {
    if body == [] then s == []
    else if s == [] then false
    else if body[0] == '\\' then
      var e := ReadEscape(body);
      e.Some? && s[0] == e.value.0 && Decodes(body[e.value.1..], s[1..])
    else Literal(body[0]) && s[0] == body[0] && Decodes(body[1..], s[1..])
  }

  lemma HexCharRead(n: nat)
    requires n < 16
    ensures HexValue(HexChar(n)) == Some(n)
  {
  }

  lemma EscapeRead(c: char, rest: string)
    ensures Literal(c) ==> Escape(c) == [c]
    ensures !Literal(c) ==> Escape(c)[0] == '\\' && ReadEscape(Escape(c) + rest) == Some((c, |Escape(c)|))
  {
    if !Literal(c) && |Escape(c)| == 6 {
      var n := c as int;
      HexCharRead(n / 16);
      HexCharRead(n % 16);
      var body := Escape(c) + rest;
      assert body[2..6] == ['0', '0', HexChar(n / 16), HexChar(n % 16)];
      assert Unit(body[2..6]) == Some(n);
    }
  }

  /** Whatever is written inside a string reads back as that string. */
  lemma {:induction false} EscapedReads(s: string)
    ensures Decodes(Escaped(s), s)
  {
    if s != [] {
      EscapedReads(s[1..]);
      var rest := Escaped(s[1..]);
      EscapeRead(s[0], rest);
      var body := Escape(s[0]) + rest;
      assert body[|Escape(s[0])|..] == rest && body[0] == Escape(s[0])[0];
    }
  }

  /** And a body reads as one string. */
  lemma {:induction false} DecodesOnce(body: string, s: string, t: string)
    requires Decodes(body, s) && Decodes(body, t)
    ensures s == t
    decreases |body|
  {
    if body != [] {
      var n := if body[0] == '\\' then ReadEscape(body).value.1 else 1;
      DecodesOnce(body[n..], s[1..], t[1..]);
      assert s == [s[0]] + s[1..] && t == [t[0]] + t[1..];
    }
  }

  // ---- A clean text says one thing ----

  predicate NoDigitFirst(r: string) { r == [] || !IsDigit(r[0]) }

  lemma PlainQuote(s: string)
    requires All(s, Literal)
    ensures Quote(s) == "\"" + (s + "\"") && '"' !in s
  {
    EscapedPlain(s);
  }

  lemma QuoteUnique(s: string, t: string, r: string, u: string)
    requires All(s, Literal) && All(t, Literal) && Quote(s) + r == Quote(t) + u
    ensures s == t && r == u
  {
    hide Quote, Literal, Find;
    PlainQuote(s);
    PlainQuote(t);
    var a, b := s + "\"" + r, t + "\"" + u;
    assert a == (Quote(s) + r)[1..] && b == (Quote(t) + u)[1..];
    FindAt(a, '"', |s|);
    FindAt(b, '"', |t|);
    assert s == a[..|s|] && t == b[..|t|] && r == a[|s| + 1..] && u == b[|t| + 1..];
  }

  lemma Overlap(m: string, r: string, n: string, u: string)
    requires m + r == n + u && |m| < |n|
    ensures r != [] && r[0] == n[|m|]
  {
    assert (m + r)[|m|] == r[0] && (n + u)[|m|] == n[|m|];
  }

  lemma NumberUnique(m: string, n: string, r: string, u: string)
    requires AllDigits(m) && AllDigits(n) && NoDigitFirst(r) && NoDigitFirst(u) && m + r == n + u
    ensures m == n && r == u
  {
    var a := m + r;
    if |m| < |n| {
      Overlap(m, r, n, u);
    } else if |n| < |m| {
      Overlap(n, u, m, r);
    }
    assert m == a[..|m|] && n == a[..|n|] && r == a[|m|..] && u == a[|n|..];
  }

  /** The first character tells the kind. */
  lemma FirstTells(j: Json)
    ensures Written(j) != []
    ensures j.Str? <==> Written(j)[0] == '"'
    ensures j.Obj? <==> Written(j)[0] == '{'
  {
    if j.Num? {
      DecimalIsPlain(j.n);
      assert IsDigit(Written(j)[0]);
    }
  }

  /** A clean value is determined by any text it begins, so by its own. */
  lemma {:induction false} WrittenUnique(j: Json, k: Json, r: string, u: string)
    requires Clean(j) && Clean(k) && NoDigitFirst(r) && NoDigitFirst(u) && Written(j) + r == Written(k) + u
    ensures j == k && r == u
    decreases j, 1
  {
    FirstTells(j);
    FirstTells(k);
    assert Written(j)[0] == (Written(j) + r)[0] == (Written(k) + u)[0] == Written(k)[0];
    match j {
      case Str(s) => QuoteUnique(s, k.text, r, u);
      case Num(n) =>
        DecimalIsPlain(n);
        DecimalIsPlain(k.n);
        NumberUnique(Decimal(n), Decimal(k.n), r, u);
      case Obj(members) =>
        var a, b := Texts(members) + "}" + r, Texts(k.members) + "}" + u;
        assert Written(j) + r == "{" + a && Written(k) + u == "{" + b;
        assert a == (Written(j) + r)[1..] && b == (Written(k) + u)[1..];
        TextsUnique(members, k.members, r, u);
    }
  }

  lemma MemberUnique(m: Member, n: Member, r: string, u: string)
    requires CleanMember(m) && CleanMember(n) && NoDigitFirst(r) && NoDigitFirst(u)
    requires MemberText(m) + r == MemberText(n) + u
    ensures m == n && r == u
    decreases m, 1
  {
    hide Quote, Written;
    var a, b := ":" + Written(m.value) + r, ":" + Written(n.value) + u;
    assert MemberText(m) + r == Quote(m.key) + a && MemberText(n) + u == Quote(n.key) + b;
    QuoteUnique(m.key, n.key, a, b);
    assert Written(m.value) + r == a[1..] && Written(n.value) + u == b[1..];
    WrittenUnique(m.value, n.value, r, u);
  }

  /** What follows the first member: more members, or the closing brace. */
  function After(members: seq<Member>, r: string): string
    requires members != []
  {
    (if |members| == 1 then "}" else "," + Texts(members[1..]) + "}") + r
  }

  lemma FirstMember(members: seq<Member>, r: string)
    requires members != []
    ensures Texts(members) + "}" + r == MemberText(members[0]) + After(members, r)
    ensures (Texts(members) + "}" + r)[0] == '"' && NoDigitFirst(After(members, r))
  {
  }

  lemma {:induction false} TextsUnique(m: seq<Member>, n: seq<Member>, r: string, u: string)
    requires CleanAll(m) && CleanAll(n) && Texts(m) + "}" + r == Texts(n) + "}" + u
    ensures m == n && r == u
    decreases m, 0
  {
    hide MemberText, CleanMember;
    if m != [] { FirstMember(m, r); } else { assert (Texts(m) + "}" + r)[0] == '}'; }
    if n != [] { FirstMember(n, u); } else { assert (Texts(n) + "}" + u)[0] == '}'; }
    if m == [] {
      assert r == (Texts(m) + "}" + r)[1..] && u == (Texts(n) + "}" + u)[1..];
    } else {
      MemberUnique(m[0], n[0], After(m, r), After(n, u));
      assert (|m| == 1 <==> After(m, r)[0] == '}') && (|n| == 1 <==> After(n, u)[0] == '}');
      if |m| == 1 {
        assert r == After(m, r)[1..] && u == After(n, u)[1..];
      } else {
        assert Texts(m[1..]) + "}" + r == After(m, r)[1..] && Texts(n[1..]) + "}" + u == After(n, u)[1..];
        TextsUnique(m[1..], n[1..], r, u);
        assert m == [m[0]] + m[1..] && n == [n[0]] + n[1..];
      }
    }
  }

  lemma WrittenInjective(j: Json, k: Json)
    requires Clean(j) && Clean(k) && Written(j) == Written(k)
    ensures j == k
  {
    assert Written(j) + [] == Written(j) && Written(k) + [] == Written(k);
    WrittenUnique(j, k, [], []);
  }

  // ---- Repeated members ----

  /** No two members of an object share a name. */
  predicate NoTwins(members: seq<Member>) {
    forall i, k :: 0 <= i < k < |members| ==> members[i].key != members[k].key
  }

  /** At no depth does an object name a member twice. */
  predicate Distinct(j: Json)
    decreases j, 1
  {
    match j
    case Obj(members) => NoTwins(members) && DistinctAll(members)
    case _ => true
  }

  predicate DistinctMember(m: Member)
    decreases m, 1
  {
    Distinct(m.value)
  }

  predicate DistinctAll(members: seq<Member>)
    decreases members, 0
  {
    members == [] || (DistinctMember(members[0]) && DistinctAll(members[1..]))
  }

  lemma {:induction false} DistinctEach(members: seq<Member>)
    ensures DistinctAll(members) <==> forall i :: 0 <= i < |members| ==> DistinctMember(members[i])
  {
    if members != [] {
      DistinctEach(members[1..]);
      assert forall i :: 1 <= i < |members| ==> members[i] == members[1..][i - 1];
    }
  }

  /** `o` is `j` or stands somewhere within it. */
  ghost predicate Within(o: Json, j: Json)
    decreases j, 1
  {
    o == j || (j.Obj? && WithinSome(o, j.members))
  }

  ghost predicate WithinMember(o: Json, m: Member)
    decreases m, 1
  {
    Within(o, m.value)
  }

  ghost predicate WithinSome(o: Json, members: seq<Member>)
    decreases members, 0
  {
    members != [] && (WithinMember(o, members[0]) || WithinSome(o, members[1..]))
  }

  /** A value repeats no member exactly if no object within it has two members of one name. */
  lemma {:induction false} DistinctExact(j: Json)
    ensures Distinct(j) <==> forall o :: Within(o, j) && o.Obj? ==> NoTwins(o.members)
    decreases j, 1
  {
    hide NoTwins;
    if j.Obj? {
      DistinctSome(j.members);
      if forall o :: Within(o, j) && o.Obj? ==> NoTwins(o.members) {
        assert Within(j, j);
        forall o | WithinSome(o, j.members) && o.Obj?
          ensures NoTwins(o.members)
        {
          assert Within(o, j);
        }
      }
    }
  }

  lemma {:induction false} DistinctOne(m: Member)
    ensures DistinctMember(m) <==> forall o :: WithinMember(o, m) && o.Obj? ==> NoTwins(o.members)
    decreases m, 1
  {
    DistinctExact(m.value);
  }

  lemma {:induction false} DistinctSome(members: seq<Member>)
    ensures DistinctAll(members) <==> forall o :: WithinSome(o, members) && o.Obj? ==> NoTwins(o.members)
    decreases members, 0
  {
    hide NoTwins;
    if members != [] {
      DistinctOne(members[0]);
      DistinctSome(members[1..]);
      if forall o :: WithinSome(o, members) && o.Obj? ==> NoTwins(o.members) {
        forall o | (WithinMember(o, members[0]) || WithinSome(o, members[1..])) && o.Obj?
          ensures NoTwins(o.members)
        {
          assert WithinSome(o, members);
        }
      }
    }
  }

  /** The visitor: a set of names per object, and every value visited in turn. */
  method RejectDuplicates(j: Json) returns (ok: bool)
    ensures ok <==> Distinct(j)
    decreases j, 3
  {
    if !j.Obj? { return true; }
    var seen: set<Key> := {};
    DistinctEach(j.members);
    for i := 0 to |j.members|
      invariant seen == set k | 0 <= k < i :: j.members[k].key
      invariant NoTwins(j.members[..i]) && forall k :: 0 <= k < i ==> DistinctMember(j.members[k])
    {
      if j.members[i].key in seen { return false; }
      seen := seen + {j.members[i].key};
      ok := RejectInMember(j.members[i]);
      if !ok { return; }
    }
    assert j.members[..|j.members|] == j.members;
    return true;
  }

  method RejectInMember(m: Member) returns (ok: bool)
    ensures ok <==> DistinctMember(m)
    decreases m, 4
  {
    ok := RejectDuplicates(m.value);
  }

  /** Length, first and middle character, which tell the names of one object apart. */
  type Tag = (nat, char, char)

  function TagOf(key: string): Tag {
    if key == [] then (0, ' ', ' ') else (|key|, key[0], key[|key| / 2])
  }

  predicate Tagged(members: seq<Member>, tags: seq<Tag>) {
    |members| == |tags| && forall i :: 0 <= i < |tags| ==> TagOf(members[i].key) == tags[i]
  }

  predicate Different(tags: seq<Tag>) {
    forall i, k :: 0 <= i < k < |tags| ==> tags[i] != tags[k]
  }

  lemma DifferentTags(members: seq<Member>, tags: seq<Tag>)
    requires Tagged(members, tags) && Different(tags)
    ensures NoTwins(members)
  {
    forall i, k | 0 <= i < k < |members|
      ensures members[i].key != members[k].key
    {
      assert tags[i] != tags[k];
    }
  }

  // ---- What a reader can be relied on for ----

  /** Numbers of at most 64 bits, and no more nested objects than this. */
  predicate Modest(j: Json, depth: nat)
    decreases j, 1
  {
    match j
    case Str(_) => true
    case Num(n) => n < 0x1_0000_0000_0000_0000
    case Obj(members) => depth > 0 && ModestAll(members, depth - 1)
  }

  predicate ModestMember(m: Member, depth: nat)
    decreases m, 1
  {
    Modest(m.value, depth)
  }

  predicate ModestAll(members: seq<Member>, depth: nat)
    decreases members, 0
  {
    members == [] || (ModestMember(members[0], depth) && ModestAll(members[1..], depth))
  }

  lemma {:induction false} ModestEach(members: seq<Member>, depth: nat)
    ensures ModestAll(members, depth) <==> forall i :: 0 <= i < |members| ==> ModestMember(members[i], depth)
  {
    if members != [] {
      ModestEach(members[1..], depth);
      assert forall i :: 1 <= i < |members| ==> members[i] == members[1..][i - 1];
    }
  }
}
