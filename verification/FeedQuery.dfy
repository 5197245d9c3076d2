/** The query of the MLS commit feed: parsed strictly, printed canonically. */
module FeedQuery {
  import opened Common
  import opened Text

  const U64_LIMIT: nat := 0x1_0000_0000_0000_0000
  const MAX_PAGE: nat := 64
  const AFTER: string := "after_epoch="
  const LIMIT: string := "limit="

  datatype Query = Query(after: nat, limit: nat, target: string)

  // ---- The query ----

  function Canonical(after: nat, limit: nat): string {
    AFTER + Decimal(after) + "&" + LIMIT + Decimal(limit)
  }

  lemma CanonicalExample()
    ensures Canonical(7, 50) == "after_epoch=7&limit=50"
  {
    assert Decimal(7) == "7" && Decimal(5) == "5" && Decimal(50) == "50";
  }

  /** The two numbers as every check but the last lets them through. */
  function Numbers(query: string): Option<(nat, nat)> {
    var parameters := Split(query, '&');
    var _ :- Need(|parameters| == 2);
    var after :- StripPrefix(parameters[0], AFTER);
    var limit :- StripPrefix(parameters[1], LIMIT);
    if !Plain(after) || !Plain(limit) then None
    else
      var a :- ParseNumber(after, U64_LIMIT);
      var l :- ParseNumber(limit, U64_LIMIT);
      if a <= MAX_SAFE_INTEGER && 1 <= l <= MAX_PAGE then Some((a, l)) else None
  }

  function Parse(path: string, query: Option<string>, expected: string): Option<Query> {
    var _ :- Need(path == expected);
    var text :- query;
    var numbers :- Numbers(text);
    var canonical := Canonical(numbers.0, numbers.1);
    var _ :- Need(text == canonical);
    Some(Query(numbers.0, numbers.1, expected + "?" + canonical))
  }

  lemma NoAmpersand(prefix: string, t: string)
    requires '&' !in prefix && AllDigits(t)
    ensures '&' !in prefix + t
  {
  }

  lemma NumbersArePrinted(query: string)
    requires Numbers(query).Some?
    ensures var (after, limit) := Numbers(query).value;
      query == Canonical(after, limit) && after <= MAX_SAFE_INTEGER && 1 <= limit <= MAX_PAGE
  {
    hide Split, Decimal, Value;
    var p := Split(query, '&');
    assert p == [p[0], p[1]];
    SplitTwo(query, '&', p[0], p[1]);
    var a, l := p[0][|AFTER|..], p[1][|LIMIT|..];
    PlainIsDecimal(a);
    PlainIsDecimal(l);
    assert p[0] == AFTER + a && p[1] == LIMIT + l;
    Glued(a, l);
  }

  lemma Glued(a: string, l: string)
    ensures AFTER + a + "&" + LIMIT + l == (AFTER + a) + "&" + (LIMIT + l)
  {
  }

  lemma PrintedAreNumbers(after: nat, limit: nat)
    requires after <= MAX_SAFE_INTEGER && 1 <= limit <= MAX_PAGE
    ensures Numbers(Canonical(after, limit)) == Some((after, limit))
  {
    hide Split, Decimal, Value;
    var x, y := AFTER + Decimal(after), LIMIT + Decimal(limit);
    DecimalIsPlain(after);
    DecimalIsPlain(limit);
    NoAmpersand(AFTER, Decimal(after));
    NoAmpersand(LIMIT, Decimal(limit));
    Glued(Decimal(after), Decimal(limit));
    SplitTwo(Canonical(after, limit), '&', x, y);
    assert x[|AFTER|..] == Decimal(after) && y[|LIMIT|..] == Decimal(limit);
  }

  /** The digit, leading-zero and range checks alone already admit nothing but printed queries. */
  lemma NumbersExact(query: string, after: nat, limit: nat)
    ensures Numbers(query) == Some((after, limit)) <==>
      query == Canonical(after, limit) && after <= MAX_SAFE_INTEGER && 1 <= limit <= MAX_PAGE
  {
    hide Numbers, Canonical;
    if Numbers(query).Some? {
      NumbersArePrinted(query);
    }
    if after <= MAX_SAFE_INTEGER && 1 <= limit <= MAX_PAGE {
      PrintedAreNumbers(after, limit);
    }
  }

  /** The final comparison with the re-printed query never refuses anything. */
  lemma ReprintImplied(query: string)
    requires Numbers(query).Some?
    ensures query == Canonical(Numbers(query).value.0, Numbers(query).value.1)
  {
    NumbersExact(query, Numbers(query).value.0, Numbers(query).value.1);
  }

  /** Accepted queries are exactly the printed ones in range, under the expected path. */
  lemma ParseExact(path: string, query: Option<string>, expected: string, q: Query)
    ensures Parse(path, query, expected) == Some(q) <==>
      && path == expected && q.after <= MAX_SAFE_INTEGER && 1 <= q.limit <= MAX_PAGE
      && query == Some(Canonical(q.after, q.limit)) && q.target == expected + "?" + Canonical(q.after, q.limit)
  {
    hide Numbers, Canonical;
    if query.Some? {
      NumbersExact(query.value, q.after, q.limit);
    }
  }
}
