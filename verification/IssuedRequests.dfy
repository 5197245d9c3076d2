/** Validated requests: one whose texts are accepted, and one whose texts are not. */
module IssuedRequests {
  import opened Common
  import opened Text
  import opened BootstrapText
  import opened Json
  import opened Bootstrap
  import opened Agreement

  function SomeV7(): (s: string)
    ensures IsV7(s)
  {
    seq(36, i requires 0 <= i < 36 => if i in {8, 13, 18, 23} then '-' else if i == 14 then '7' else '8')
  }

  function SomeDigest(): (s: string)
    ensures IsDigestText(s)
  {
    seq(64, _ => 'a')
  }

  function SomeIdentity(): (s: string)
    ensures IsIdentity(s)
  {
    "dtxi1" + seq(52, _ => 'a')
  }

  lemma NoSeparator(s: string, c: char)
    requires c !in s
    ensures Find(s, c) == |s| && Split(s, c) == [s] && SplitOnce(s, c).None?
  {
  }

  lemma SomeVersion()
    ensures IsSemver("1.0.0")
  {
    var v := "1.0.0";
    NoSeparator(v, '+');
    NoSeparator(v, '-');
    FindAt(v, '.', 1);
    assert v[..1] == "1" && v[2..] == "0.0";
    FindAt("0.0", '.', 1);
    assert "0.0"[..1] == "0" && "0.0"[2..] == "0";
    NoSeparator("0", '.');
    assert Split("0.0", '.') == ["0", "0"];
    assert Split(v, '.') == ["1", "0", "0"];
  }

  lemma SomeHost()
    ensures IsDns("a")
  {
    NoSeparator("a", '.');
  }

  lemma SomeAddresses()
    ensures IsOrigin("https://a") && IsMcpUrl("https://a/mcp") && IsEndpoint("https://a", "a")
  {
    SomeHost();
    hide IsDns;
    assert "https://a"[8..] == "a" && "https://a/mcp"[8..] == "a/mcp";
    NoSeparator("a", '/');
    NoSeparator("a", ':');
    FindAt("a/mcp", '/', 1);
    assert "a/mcp"[..1] == "a" && "a/mcp"[1..] == "/mcp";
    assert "a"[..1] == "a" && "a"[1..] == "";
  }

  function SomeRequest(): Request {
    var id := SomeV7();
    Request("dirextalk.connector-bootstrap-issuance-request", 1, id, SomeDigest(), "linux-amd64", "1.0.0", SomeDigest(),
            Host(id, id, SomeIdentity(), id), id, "codex", "a", 1, 1, id, id, id, id, 60_000, "https://a",
            Trust("https://a", "a", SomeDigest(), "https://a", "a", SomeDigest(), SomeDigest()), "safe",
            Mcp("a", "https://a/mcp", id, 1, "queue"))
  }

  lemma SomeStringsAllowed()
    ensures NoForbidden(RequestStrings(SomeRequest()))
  {
    RequestSchemaTame();
    SomeVersion();
    SomeHost();
    SomeAddresses();
    hide IsSemver, IsDns, HttpsParts, EndpointParts, Tame, Allowed;
    TameIsFine("dirextalk.connector-bootstrap-issuance-request");
    NamesTame("linux-amd64");
    TameIsFine("linux-amd64");
    SemverTame("1.0.0");
    TameIsFine("1.0.0");
    DnsTame("a");
    TameIsFine("a");
    AddressTame("https://a");
    TameIsFine("https://a");
    AddressTame("https://a/mcp");
    TameIsFine("https://a/mcp");
    NamesTame("safe");
    TameIsFine("safe");
    NamesTame("queue");
    TameIsFine("queue");
  }

  /** It is validated when it expires in a minute, whenever that is. */
  lemma SomeRequestIsValidated(expires: nat)
    requires expires <= I64_MAX
    ensures WellTyped(SomeRequest().(expires := expires)) && IssuerAccepts(SomeRequest().(expires := expires), expires - MIN_TTL)
    ensures All(SomeRequest().displayName, Literal)
  {
    hide IsV7, IsDigestText, IsIdentity, SomeV7, SomeDigest, SomeIdentity, IsSemver, HttpsParts, EndpointParts, NoForbidden;
    SomeVersion();
    SomeAddresses();
    SomeStringsAllowed();
    assert RequestStrings(SomeRequest().(expires := expires)) == RequestStrings(SomeRequest());
    assert Utf8Size("a") <= 128 by { assert "a"[..0] == ""; }
  }

  // ---- A faithful reader ----

  ghost predicate Repeats(raw: string) {
    exists j :: raw == Written(j) && Clean(j) && !Distinct(j)
  }

  ghost function ReadHandoff(raw: string): Option<Handoff> {
    if exists f, token, bearer :: StatesHandoff(raw, f, token, bearer)
    then var f, token, bearer :| StatesHandoff(raw, f, token, bearer); Some(f)
    else None
  }

  ghost function SomeReader(): Reader {
    Reader(raw => !Repeats(raw), raw => ReadHandoff(raw), _ => SomeDigest())
  }

  lemma RepeatsWritten(j: Json)
    requires Clean(j)
    ensures Repeats(Written(j)) <==> !Distinct(j)
  {
    hide Written, Clean, Distinct;
    if Repeats(Written(j)) {
      var k :| Written(j) == Written(k) && Clean(k) && !Distinct(k);
      WrittenInjective(j, k);
    }
  }

  lemma HandoffReadBack(raw: string, f: Handoff, token: Json, bearer: Json)
    requires StatesHandoff(raw, f, token, bearer)
    ensures ReadHandoff(raw) == Some(f)
  {
    hide StatesHandoff;
    var g, token', bearer' :| StatesHandoff(raw, g, token', bearer') && ReadHandoff(raw) == Some(g);
    StatesOneHandoff(raw, f, token, bearer, g, token', bearer');
  }

  /** The demands on a reader can be met. */
  lemma SomeReaderIsFaithful()
    ensures Faithful(SomeReader())
  {
    hide Written, Clean, Modest, Distinct, Repeats, ReadHandoff, StatesHandoff, IsDigestText, SomeDigest;
    forall j | Clean(j)
      ensures Repeats(Written(j)) <==> !Distinct(j)
    {
      RepeatsWritten(j);
    }
    forall raw, f, token, bearer | StatesHandoff(raw, f, token, bearer)
      ensures ReadHandoff(raw) == Some(f)
    {
      HandoffReadBack(raw, f, token, bearer);
    }
  }

  // ---- Accepted and refused ----

  /** There are such requests: this one is validated, and what is issued for it is accepted. */
  lemma SomeRequestIsIssued(token: Bytes, bearer: Bytes)
    requires |token| == 32 && |bearer| == 32
    ensures WellTyped(SomeRequest()) && IssuerAccepts(SomeRequest(), 0)
    ensures Faithful(SomeReader()) && IssuedAccepted(SomeReader(), SomeRequest(), SomeV7(), token, bearer, None)
  {
    hide WellTyped, IssuerAccepts, Faithful, IssuedAccepted, IsV7, SomeV7, Literal, SomeReader;
    assert SomeRequest().(expires := 60_000) == SomeRequest();
    SomeRequestIsValidated(60_000);
    SomeReaderIsFaithful();
    IssuedIsAcceptedIff(SomeReader(), SomeRequest(), 0, SomeV7(), token, bearer, None);
  }

  /**
  The same request expiring one millisecond beyond the safe numbers is validated too, a minute
  before, but texts written for it are refused by every faithful reader.
  */
  lemma UnsafeExpiryIsRefused(env: Reader, intent: string, token: Bytes, bearer: Bytes, receipt: Option<string>)
    requires Faithful(env) && IsV7(intent) && |token| == 32 && |bearer| == 32
    ensures var r := SomeRequest().(expires := MAX_SAFE_INTEGER + 1);
      && WellTyped(r) && IssuerAccepts(r, MAX_SAFE_INTEGER + 1 - MIN_TTL)
      && !IssuedAccepted(env, r, intent, token, bearer, receipt)
  {
    hide WellTyped, IssuerAccepts, Faithful, IssuedAccepted, IsV7, SomeRequest, Literal;
    SomeRequestIsValidated(MAX_SAFE_INTEGER + 1);
    var r := SomeRequest().(expires := MAX_SAFE_INTEGER + 1);
    IssuedIsAcceptedIff(env, r, MAX_SAFE_INTEGER + 1 - MIN_TTL, intent, token, bearer, receipt);
  }
}
