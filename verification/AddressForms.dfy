/** What the validators of versions and addresses admit, as printed forms. */
module AddressForms {
  import opened Common
  import opened Text
  import opened BootstrapText

  // ---- Addresses ----

  /** No character of a host name is one that separates the parts of an address. */
  lemma DnsPlain(host: string, c: char)
    requires IsDns(host) && !DnsChar(c)
    ensures c !in host
  {
  }

  lemma DnsSeparators(host: string)
    requires IsDns(host)
    ensures '/' !in host && ':' !in host && '@' !in host && '#' !in host && '?' !in host && Trimmed(host)
  {
    DnsPlain(host, '/');
    DnsPlain(host, ':');
    DnsPlain(host, '@');
    DnsPlain(host, '#');
    DnsPlain(host, '?');
    assert DnsChar(host[0]) && DnsChar(host[|host| - 1]);
  }

  /** An address without a port: host, then this path. */
  lemma AddressExact(v: string, path: string)
    requires path == "" || path == "/mcp"
    ensures (HttpsParts(v).Some? && HttpsParts(v).value.1 == path) <==> exists host :: IsDns(host) && v == HTTPS + host + path
  {
    hide IsDns;
    if HttpsParts(v).Some? && HttpsParts(v).value.1 == path {
      var host := HttpsParts(v).value.0;
      assert v == HTTPS + v[|HTTPS|..] && v[|HTTPS|..] == host + path;
      assert v == HTTPS + host + path;
    }
    if exists host :: IsDns(host) && v == HTTPS + host + path {
      var host :| IsDns(host) && v == HTTPS + host + path;
      AddressParts(host, path);
      assert v[|HTTPS|..] == host + path;
    }
  }

  lemma AddressParts(host: string, path: string)
    requires IsDns(host) && (path == "" || path == "/mcp")
    ensures var rest := host + path; Find(rest, '/') == |host| && rest[..|host|] == host && rest[|host|..] == path
    ensures PlainRest(host + path) && host != [] && ':' !in host
  {
    DnsSeparators(host);
    FindAt(host + path, '/', |host|);
  }

  /** An origin is the scheme and a host, an MCP address has the fixed path after it. */
  lemma OriginExact(v: string)
    ensures IsOrigin(v) <==> exists host :: IsDns(host) && v == HTTPS + host
    ensures IsMcpUrl(v) <==> exists host :: IsDns(host) && v == HTTPS + host + "/mcp"
  {
    hide IsDns, HttpsParts;
    AddressExact(v, "");
    AddressExact(v, "/mcp");
    assert forall host :: HTTPS + host + "" == HTTPS + host;
  }

  /** A port that is not the default one. */
  predicate PortFits(port: nat) { 0 < port < 0x1_0000 && port != 443 }

  function PortText(port: Option<nat>): string {
    if port.Some? then ":" + Decimal(port.value) else ""
  }

  function Endpoint(host: string, port: Option<nat>, slash: bool): string {
    HTTPS + (host + PortText(port)) + if slash then "/" else ""
  }

  lemma DefaultPort()
    ensures Decimal(443) == "443"
  {
    assert Decimal(44) == "44" && Decimal(4) == "4";
  }

  lemma PortExact(text: string)
    ensures IsPort(text) <==> exists n :: PortFits(n) && text == Decimal(n)
  {
    DefaultPort();
    if IsPort(text) {
      PlainIsDecimal(text);
      assert PortFits(Value(text)) && text == Decimal(Value(text));
    }
    if exists n :: PortFits(n) && text == Decimal(n) {
      var n :| PortFits(n) && text == Decimal(n);
      DecimalIsPlain(n);
      DecimalIsPlain(443);
    }
  }

  lemma {:induction false} DigitsPlain(n: nat, c: char)
    requires !IsDigit(c)
    ensures c !in Decimal(n)
  {
    DecimalIsPlain(n);
  }

  /** Scheme, host, a port other than the default if any, and at most a slash. */
  lemma EndpointExact(v: string, name: string)
    ensures IsEndpoint(v, name) <==>
      IsDns(name) && exists port: Option<nat>, slash: bool :: (port.Some? ==> PortFits(port.value)) && v == Endpoint(name, port, slash)
  {
    hide IsDns, IsPort, Decimal, Endpoint;
    if IsEndpoint(v, name) {
      EndpointIsPrinted(v, name);
    }
    if IsDns(name) && exists port: Option<nat>, slash: bool :: (port.Some? ==> PortFits(port.value)) && v == Endpoint(name, port, slash) {
      var port: Option<nat>, slash: bool :| (port.Some? ==> PortFits(port.value)) && v == Endpoint(name, port, slash);
      PrintedIsEndpoint(name, port, slash);
    }
  }

  lemma AuthorityIsPrinted(authority: string, name: string)
    requires var colon := SplitOnce(authority, ':');
      if colon.Some? then colon.value.0 == name && IsPort(colon.value.1) else authority == name
    ensures exists port: Option<nat> :: (port.Some? ==> PortFits(port.value)) && authority == name + PortText(port)
  {
    hide IsPort, Decimal;
    var colon := SplitOnce(authority, ':');
    if colon.Some? {
      PortExact(colon.value.1);
      var n :| PortFits(n) && colon.value.1 == Decimal(n);
      assert authority == name + PortText(Some(n));
    } else {
      assert authority == name + PortText(None);
    }
  }

  lemma EndpointIsPrinted(v: string, name: string)
    requires IsEndpoint(v, name)
    ensures exists port: Option<nat>, slash: bool :: (port.Some? ==> PortFits(port.value)) && v == Endpoint(name, port, slash)
  {
    hide IsDns, IsPort, PortText, SplitOnce, Find;
    var rest := v[|HTTPS|..];
    var i := Find(rest, '/');
    var authority, path := rest[..i], rest[i..];
    AuthorityIsPrinted(authority, name);
    var port: Option<nat> :| (port.Some? ==> PortFits(port.value)) && authority == name + PortText(port);
    assert v == HTTPS + rest && rest == authority + path && path == if path == "/" then "/" else "";
    assert v == Endpoint(name, port, path == "/");
  }

  lemma PrintedIsAuthority(name: string, port: Option<nat>)
    requires IsDns(name) && (port.Some? ==> PortFits(port.value))
    ensures var authority := name + PortText(port);
      && PlainRest(authority) && '/' !in authority
      && var colon := SplitOnce(authority, ':');
         if port.Some? then colon == Some((name, Decimal(port.value))) && IsPort(Decimal(port.value))
         else colon == None && authority == name
  {
    hide IsDns, IsPort, Decimal, Find;
    var authority := name + PortText(port);
    DnsSeparators(name);
    if port.Some? {
      DigitsPlain(port.value, '/');
      DigitsPlain(port.value, '@');
      DigitsPlain(port.value, '#');
      DigitsPlain(port.value, '?');
      PortExact(Decimal(port.value));
      FindAt(authority, ':', |name|);
      assert authority[..|name|] == name && authority[|name| + 1..] == Decimal(port.value);
    } else {
      FindAt(authority, ':', |authority|);
      assert authority == name;
    }
  }

  lemma PrintedIsEndpoint(name: string, port: Option<nat>, slash: bool)
    requires IsDns(name) && (port.Some? ==> PortFits(port.value))
    ensures IsEndpoint(Endpoint(name, port, slash), name)
  {
    hide IsDns, IsPort, PortText, SplitOnce, Find;
    var authority, path := name + PortText(port), if slash then "/" else "";
    var v, rest := Endpoint(name, port, slash), authority + path;
    assert v[|HTTPS|..] == rest && HTTPS <= v;
    PrintedIsAuthority(name, port);
    DnsSeparators(name);
    DnsNotEmpty(name);
    FindAt(rest, '/', |authority|);
    assert rest[..|authority|] == authority && rest[|authority|..] == path;
  }

  lemma DnsNotEmpty(name: string)
    requires IsDns(name)
    ensures name != []
  {
  }

  // ---- Versions ----

  function Core(a: nat, b: nat, c: nat): string {
    Decimal(a) + ("." + (Decimal(b) + ("." + Decimal(c))))
  }

  function After(mark: char, suffix: Option<string>): string {
    if suffix.Some? then [mark] + suffix.value else []
  }

  lemma NumericExact(x: string)
    ensures IsNumeric(x) <==> exists n: nat :: x == Decimal(n)
  {
    if IsNumeric(x) {
      if x == "0" {
        assert x == Decimal(0);
      } else {
        PlainIsDecimal(x);
        assert x == Decimal(Value(x));
      }
    }
    if exists n: nat :: x == Decimal(n) {
      var n: nat :| x == Decimal(n);
      DecimalIsPlain(n);
      if x[0] == '0' { assert n == 0; }
    }
  }

  lemma SplitsApart(x: string, c: char, rest: string)
    requires c !in x
    ensures Split(x + ([c] + rest), c) == [x] + Split(rest, c)
  {
    FindAt(x + ([c] + rest), c, |x|);
    assert (x + ([c] + rest))[..|x|] == x && (x + ([c] + rest))[|x| + 1..] == rest;
  }

  lemma NotSplit(x: string, c: char)
    requires c !in x
    ensures Split(x, c) == [x] && SplitOnce(x, c) == None
  {
    FindAt(x, c, |x|);
  }

  lemma CoreIsCore(a: nat, b: nat, c: nat)
    ensures IsCore(Core(a, b, c)) && '-' !in Core(a, b, c) && '+' !in Core(a, b, c)
  {
    hide Decimal, Split, IsNumeric;
    DigitsPlain(a, '.');
    DigitsPlain(b, '.');
    DigitsPlain(c, '.');
    SplitsApart(Decimal(a), '.', Decimal(b) + ("." + Decimal(c)));
    SplitsApart(Decimal(b), '.', Decimal(c));
    NotSplit(Decimal(c), '.');
    assert Split(Core(a, b, c), '.') == [Decimal(a), Decimal(b), Decimal(c)];
    NumericExact(Decimal(a));
    NumericExact(Decimal(b));
    NumericExact(Decimal(c));
    DigitsPlain(a, '-');
    DigitsPlain(b, '-');
    DigitsPlain(c, '-');
    DigitsPlain(a, '+');
    DigitsPlain(b, '+');
    DigitsPlain(c, '+');
  }

  lemma SplitFirst(s: string, c: char)
    ensures |Split(s, c)| == 1 ==> Split(s, c) == [s]
    ensures |Split(s, c)| > 1 ==> Find(s, c) < |s| && Split(s, c) == [s[..Find(s, c)]] + Split(s[Find(s, c) + 1..], c)
  {
    hide Find;
  }

  lemma CoreIsPrinted(s: string)
    requires IsCore(s)
    ensures exists a, b, c :: s == Core(a, b, c)
  {
    hide Decimal, IsNumeric, Split, Find;
    var i := Find(s, '.');
    SplitFirst(s, '.');
    var rest := s[i + 1..];
    assert |Split(rest, '.')| == 2;
    var j := Find(rest, '.');
    SplitFirst(rest, '.');
    var last := rest[j + 1..];
    assert |Split(last, '.')| == 1;
    SplitFirst(last, '.');
    assert Split(s, '.') == [s[..i], rest[..j], last];
    assert IsNumeric(Split(s, '.')[0]) && IsNumeric(Split(s, '.')[1]) && IsNumeric(Split(s, '.')[2]);
    NumericExact(s[..i]);
    NumericExact(rest[..j]);
    NumericExact(last);
    var a: nat :| s[..i] == Decimal(a);
    var b: nat :| rest[..j] == Decimal(b);
    var c: nat :| last == Decimal(c);
    assert s == s[..i] + ("." + rest) && rest == rest[..j] + ("." + last);
    assert s == Core(a, b, c);
  }

  predicate SuffixFits(suffix: Option<string>) { suffix.Some? ==> IsSuffix(suffix.value) }

  predicate SuffixMark(c: char) { SuffixChar(c) || c == '.' }

  lemma SuffixPlain(s: string)
    requires IsSuffix(s)
    ensures '+' !in s
  {
    var parts := Split(s, '.');
    forall k | 0 <= k < |parts|
      ensures All(parts[k], SuffixMark)
    {
      Widen(parts[k], SuffixChar, SuffixMark);
    }
    SplitCovers(s, '.', SuffixMark);
  }

  lemma MarkFound(head: string, mark: char, suffix: Option<string>)
    requires mark !in head
    ensures SplitOnce(head + After(mark, suffix), mark) == if suffix.Some? then Some((head, suffix.value)) else None
  {
    hide Find;
    var s := head + After(mark, suffix);
    assert forall j :: 0 <= j < |head| ==> s[j] == head[j];
    FindAt(s, mark, |head|);
    if suffix.Some? {
      assert s[..|head|] == head && s[|head| + 1..] == suffix.value;
    }
  }

  lemma Once(s: string, mark: char)
    ensures var parts := SplitOnce(s, mark);
      s == if parts.Some? then parts.value.0 + After(mark, Some(parts.value.1)) else s + After(mark, None)
  {
  }

  lemma ReleaseExact(s: string)
    ensures IsRelease(s) <==> exists a, b, c, pre :: SuffixFits(pre) && s == Core(a, b, c) + After('-', pre)
  {
    hide IsCore, IsSuffix, Core, Find;
    if IsRelease(s) {
      Once(s, '-');
      var dash := SplitOnce(s, '-');
      var core := if dash.Some? then dash.value.0 else s;
      var pre := if dash.Some? then Some(dash.value.1) else None;
      CoreIsPrinted(core);
      var a, b, c :| core == Core(a, b, c);
      assert SuffixFits(pre) && s == Core(a, b, c) + After('-', pre);
    }
    if exists a, b, c, pre :: SuffixFits(pre) && s == Core(a, b, c) + After('-', pre) {
      var a, b, c, pre :| SuffixFits(pre) && s == Core(a, b, c) + After('-', pre);
      CoreIsCore(a, b, c);
      MarkFound(Core(a, b, c), '-', pre);
      if pre.None? { assert s == Core(a, b, c); }
    }
  }

  predicate Version(v: string, a: nat, b: nat, c: nat, pre: Option<string>, build: Option<string>) {
    SuffixFits(pre) && SuffixFits(build) && v == Core(a, b, c) + After('-', pre) + After('+', build)
  }

  /** Three decimal numbers, a pre-release and a build. */
  lemma SemverExact(v: string)
    ensures IsSemver(v) <==> exists a, b, c, pre, build :: Version(v, a, b, c, pre, build)
  {
    hide IsCore, IsSuffix, Core, Find, IsRelease;
    if IsSemver(v) {
      Once(v, '+');
      var plus := SplitOnce(v, '+');
      var release := if plus.Some? then plus.value.0 else v;
      var build := if plus.Some? then Some(plus.value.1) else None;
      ReleaseExact(release);
      var a, b, c, pre :| SuffixFits(pre) && release == Core(a, b, c) + After('-', pre);
      assert Version(v, a, b, c, pre, build);
    }
    if exists a, b, c, pre, build :: Version(v, a, b, c, pre, build) {
      var a, b, c, pre, build :| Version(v, a, b, c, pre, build);
      var release := Core(a, b, c) + After('-', pre);
      CoreIsCore(a, b, c);
      if pre.Some? { SuffixPlain(pre.value); }
      if build.Some? { SuffixPlain(build.value); }
      ReleaseExact(release);
      MarkFound(release, '+', build);
      if build.None? { assert v == release; }
    }
  }
}
