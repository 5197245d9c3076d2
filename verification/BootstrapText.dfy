/**
The texts of a connector bootstrap as issuer and supervisor both check them, and which characters
such a text can contain.
*/
module BootstrapText {
  import opened Common
  import opened Text

  /** Visible ASCII that needs no JSON escape and that no encoder escapes for safety. */
  predicate Tame(c: char) {
    '!' <= c <= '~' && c != '"' && c != '\\' && c != '<' && c != '>' && c != '&'
  }

  /** Not one of the characters that Go's JSON encoder escapes and Rust's does not. */
  predicate Allowed(c: char) {
    c != '<' && c != '>' && c != '&' && c != '\U{2028}' && c != '\U{2029}'
  }

  /** Written as it is inside a JSON string (section 7 of RFC 8259). */
  predicate Literal(c: char) {
    c != '"' && c != '\\' && c >= ' '
  }

  lemma TameIsFine(s: string)
    requires All(s, Tame)
    ensures All(s, Allowed) && All(s, Literal)
  {
  }

  // ---- Identifiers and digests ----

  predicate LowerHex(c: char) { '0' <= c <= '9' || 'a' <= c <= 'f' }

  predicate IsDigestText(s: string) { |s| == 64 && All(s, LowerHex) }

  predicate IsV7(s: string) {
    && |s| == 36 && s[14] == '7' && '8' <= s[19] <= 'b'
    && forall i :: 0 <= i < 36 ==> if i in {8, 13, 18, 23} then s[i] == '-' else LowerHex(s[i])
  }

  predicate IsIdentity(s: string) {
    && |s| == 57 && s[..5] == "dtxi1" && s[56] in {'a', 'q'}
    && forall i :: 5 <= i < 57 ==> 'a' <= s[i] <= 'z' || '2' <= s[i] <= '7'
  }

  const ADAPTERS: set<string> := {"codex", "openclaw_acp", "eino", "rig", "claude_code", "custom_acp", "hermes_acp"}
  const TARGETS: set<string> := {"linux-amd64", "linux-arm64"}
  const PROFILES: set<string> := {"default", "safe"}

  lemma DigestTame(s: string)
    requires IsDigestText(s)
    ensures All(s, Tame)
  {
  }

  lemma V7Tame(s: string)
    requires IsV7(s)
    ensures All(s, Tame)
  {
    forall i | 0 <= i < |s|
      ensures Tame(s[i])
    {
      assert i in {8, 13, 18, 23} || LowerHex(s[i]);
    }
  }

  lemma IdentityTame(s: string)
    requires IsIdentity(s)
    ensures All(s, Tame)
  {
    forall i | 0 <= i < |s|
      ensures Tame(s[i])
    {
      if i < 5 { assert s[i] == s[..5][i]; }
    }
  }

  lemma NamesTame(s: string)
    requires s in ADAPTERS || s in TARGETS || s in PROFILES || s == "queue" || s == "prepared"
    ensures All(s, Tame)
  {
  }

  // ---- Versions ----

  predicate IsNumeric(x: string) {
    x != [] && (x == "0" || (x[0] != '0' && AllDigits(x)))
  }

  predicate SuffixChar(c: char) {
    IsDigit(c) || 'a' <= c <= 'z' || 'A' <= c <= 'Z' || c == '-'
  }

  predicate IsSuffix(s: string) {
    s != [] && forall k :: 0 <= k < |Split(s, '.')| ==> Split(s, '.')[k] != [] && All(Split(s, '.')[k], SuffixChar)
  }

  predicate IsCore(main: string) {
    |Split(main, '.')| == 3 && forall k :: 0 <= k < 3 ==> IsNumeric(Split(main, '.')[k])
  }

  /** `main` and, after the first dash, a pre-release. */
  predicate IsRelease(s: string) {
    var dash := SplitOnce(s, '-');
    if dash.Some? then IsCore(dash.value.0) && IsSuffix(dash.value.1) else IsCore(s)
  }

  predicate IsSemver(v: string) {
    var plus := SplitOnce(v, '+');
    if plus.Some? then '+' !in plus.value.1 && IsRelease(plus.value.0) && IsSuffix(plus.value.1) else IsRelease(v)
  }

  lemma Widen(s: string, p: char -> bool, q: char -> bool)
    requires All(s, p) && forall c :: p(c) ==> q(c)
    ensures All(s, q)
  {
  }

  lemma SuffixTame(s: string)
    requires IsSuffix(s)
    ensures All(s, Tame)
  {
    forall k | 0 <= k < |Split(s, '.')|
      ensures All(Split(s, '.')[k], Tame)
    {
      Widen(Split(s, '.')[k], SuffixChar, Tame);
    }
    SplitCovers(s, '.', Tame);
  }

  lemma CoreTame(s: string)
    requires IsCore(s)
    ensures All(s, Tame)
  {
    forall k | 0 <= k < |Split(s, '.')|
      ensures All(Split(s, '.')[k], Tame)
    {
      assert IsNumeric(Split(s, '.')[k]);
    }
    SplitCovers(s, '.', Tame);
  }

  lemma OnceCovers(s: string, c: char, p: char -> bool)
    requires SplitOnce(s, c).Some? && All(SplitOnce(s, c).value.0, p) && p(c) && All(SplitOnce(s, c).value.1, p)
    ensures All(s, p)
  {
    Around(s, Find(s, c), p);
  }

  lemma ReleaseTame(s: string)
    requires IsRelease(s)
    ensures All(s, Tame)
  {
    hide IsCore, IsSuffix;
    var dash := SplitOnce(s, '-');
    if dash.Some? {
      CoreTame(dash.value.0);
      SuffixTame(dash.value.1);
      OnceCovers(s, '-', Tame);
    } else {
      CoreTame(s);
    }
  }

  lemma SemverTame(v: string)
    requires IsSemver(v)
    ensures All(v, Tame)
  {
    hide IsRelease, IsSuffix;
    var plus := SplitOnce(v, '+');
    if plus.Some? {
      ReleaseTame(plus.value.0);
      SuffixTame(plus.value.1);
      OnceCovers(v, '+', Tame);
    } else {
      ReleaseTame(v);
    }
  }

  // ---- Hosts and addresses ----

  predicate DnsChar(c: char) { 'a' <= c <= 'z' || IsDigit(c) || c == '.' || c == '-' }

  predicate IsLabel(x: string) {
    0 < |x| <= 63 && x[0] != '-' && x[|x| - 1] != '-'
  }

  predicate IsDns(v: string) {
    && 0 < |v| <= 253 && All(v, DnsChar)
    && forall k :: 0 <= k < |Split(v, '.')| ==> IsLabel(Split(v, '.')[k])
  }

  const HTTPS: string := "https://"

  predicate PlainRest(rest: string) { '@' !in rest && '#' !in rest && '?' !in rest }

  /** Host and path of an address without a port. */
  function HttpsParts(v: string): Option<(string, string)> {
    var rest :- StripPrefix(v, HTTPS);
    var _ :- Need(PlainRest(rest));
    var slash := Find(rest, '/');
    var host, path := rest[..slash], rest[slash..];
    var _ :- Need(host != [] && ':' !in host && IsDns(host));
    Some((host, path))
  }

  predicate IsPort(port: string) {
    && port != [] && port != "443" && port[0] != '0' && AllDigits(port) && ParseNumber(port, 0x1_0000).Some?
  }

  /** Host and path of an address that may name a port other than the default. */
  function EndpointParts(v: string): Option<(string, string)> {
    var rest :- StripPrefix(v, HTTPS);
    var _ :- Need(PlainRest(rest));
    var slash := Find(rest, '/');
    var authority, path := rest[..slash], rest[slash..];
    var colon := SplitOnce(authority, ':');
    var host := if colon.Some? then colon.value.0 else authority;
    var _ :- Need(host != [] && IsDns(host));
    var _ :- Need(colon.Some? ==> IsPort(colon.value.1));
    Some((host, path))
  }

  predicate IsSpace(c: char) {
    c in {'\t', '\n', '\U{b}', '\U{c}', '\r', ' ', '\U{85}', '\U{a0}', '\U{1680}', '\U{2028}', '\U{2029}', '\U{202f}', '\U{205f}', '\U{3000}'}
    || '\U{2000}' <= c <= '\U{200a}'
  }

  predicate Trimmed(s: string) {
    s != [] ==> !IsSpace(s[0]) && !IsSpace(s[|s| - 1])
  }

  predicate IsOrigin(v: string) {
    HttpsParts(v).Some? && HttpsParts(v).value.1 == ""
  }

  predicate IsMcpUrl(v: string) {
    HttpsParts(v).Some? && HttpsParts(v).value.1 == "/mcp"
  }

  predicate IsEndpoint(v: string, name: string) {
    && EndpointParts(v).Some? && EndpointParts(v).value.1 in {"", "/"}
    && EndpointParts(v).value.0 == name && Trimmed(name) && IsDns(name)
  }

  predicate McpChar(c: char) { 'a' <= c <= 'z' || IsDigit(c) || c == '_' || c == '-' }

  predicate IsMcpName(v: string) {
    0 < |v| <= 64 && ('a' <= v[0] <= 'z' || IsDigit(v[0])) && All(v, McpChar)
  }

  lemma DnsTame(v: string)
    requires IsDns(v)
    ensures All(v, Tame)
  {
    Widen(v, DnsChar, Tame);
  }

  lemma McpNameTame(v: string)
    requires IsMcpName(v)
    ensures All(v, Tame)
  {
    Widen(v, McpChar, Tame);
  }

  lemma Glue(a: string, b: string, p: char -> bool)
    requires All(a, p) && All(b, p)
    ensures All(a + b, p)
  {
  }

  lemma PathTame(v: string)
    requires v in {"", "/", "/mcp"}
    ensures All(v, Tame)
  {
  }

  lemma SchemeTame()
    ensures All(HTTPS, Tame)
  {
  }

  lemma AddressTame(v: string)
    requires HttpsParts(v).Some? && HttpsParts(v).value.1 in {"", "/mcp"}
    ensures All(v, Tame)
  {
    hide IsDns, Tame;
    var (host, path) := HttpsParts(v).value;
    DnsTame(host);
    PathTame(path);
    SchemeTame();
    Glue(host, path, Tame);
    Glue(HTTPS, host + path, Tame);
    assert v == HTTPS + (host + path);
  }

  lemma EndpointTame(v: string, name: string)
    requires IsEndpoint(v, name)
    ensures All(v, Tame)
  {
    hide IsDns, Tame, IsPort;
    var rest := v[|HTTPS|..];
    var slash := Find(rest, '/');
    var authority, path := rest[..slash], rest[slash..];
    AuthorityTame(authority, name);
    PathTame(path);
    SchemeTame();
    Glue(authority, path, Tame);
    Glue(HTTPS, authority + path, Tame);
    assert v == HTTPS + (authority + path);
  }

  lemma AuthorityTame(authority: string, host: string)
    requires IsDns(host)
    requires var colon := SplitOnce(authority, ':');
      if colon.Some? then colon.value.0 == host && IsPort(colon.value.1) else authority == host
    ensures All(authority, Tame)
  {
    DnsTame(host);
    var colon := SplitOnce(authority, ':');
    if colon.Some? {
      Widen(colon.value.1, IsDigit, Tame);
      OnceCovers(authority, ':', Tame);
    }
  }
}
