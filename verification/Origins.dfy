/** Hosts and origins as every redirect decision compares them, and the printed origin of a
    refused hop. netip.ParseAddr is a parameter: a partial function from host text to an
    address with its zone. */
module Origins {
  import opened Prelude
  import opened Text

  datatype Addr = Addr(ip: nat, zone: string)

  type AddrParser = string -> Option<Addr>

  /** What net/url reports of a URL: Scheme, Hostname() and Port(). */
  datatype URL = URL(scheme: string, host: string, port: string)

  /** A host's identity: an IP literal by its address, a name by its folded text. */
  datatype HostKey = Address(addr: Addr) | Name(name: string)

  /** The origin tuple of section 4 of RFC 6454; port is 0 where neither the URL nor its
      scheme gives one. */
  datatype OriginKey = OriginKey(host: HostKey, scheme: string, port: nat)

  function HostKeyOf(parse: AddrParser, hostname: string): Option<HostKey> {
    if hostname == "" then None
    else
      match parse(hostname)
      case Some(a) => Some(Address(a))
      case None => Some(Name(Lower(hostname)))
  }

  function DefaultPort(scheme: string): string {
    if scheme == "http" then "80" else if scheme == "https" then "443" else ""
  }

  /** strconv.ParseUint(port, 10, 16). */
  function ParsePort(port: string): Option<nat> {
    if port != "" && AllDigits(port) && NumberOf(port) <= 0xFFFF then Some(NumberOf(port)) else None
  }

  function OriginKeyOf(parse: AddrParser, u: Option<URL>): Option<OriginKey> {
    match u
    case None => None
    case Some(u) =>
      match HostKeyOf(parse, u.host)
      case None => None
      case Some(host) =>
        var scheme := Lower(u.scheme);
        var port := if u.port == "" then DefaultPort(scheme) else u.port;
        if port == "" then Some(OriginKey(host, scheme, 0))
        else
          match ParsePort(port)
          case None => None
          case Some(n) => Some(OriginKey(host, scheme, n))
  }

  // ---- Two URLs of one origin ----

  /** Two host texts name one host: by address and zone, or by folded name. */
  predicate OneHost(parse: AddrParser, a: string, b: string) {
    a != "" && b != "" &&
    match parse(a)
    case Some(addr) => parse(b) == Some(addr)
    case None => parse(b) == None && Lower(a) == Lower(b)
  }

  /** The URL has a host and a port a dialer reaches, or none. */
  predicate HasOrigin(u: Option<URL>) {
    u.Some? && u.value.host != "" && (u.value.port == "" || IsPort(u.value.port))
  }

  predicate IsPort(port: string) {
    port != "" && AllDigits(port) && NumberOf(port) <= 65535
  }

  /** The port a request to the URL dials: its own, else the scheme's, else 0 for none. */
  function EffectivePort(u: URL): nat
    requires u.port == "" || IsPort(u.port)
  {
    if u.port != "" then NumberOf(u.port)
    else if Lower(u.scheme) == "http" then 80
    else if Lower(u.scheme) == "https" then 443
    else 0
  }

  /** Two URLs have one origin (section 4 of RFC 6454): one host, scheme and effective port. */
  predicate OneOrigin(parse: AddrParser, a: Option<URL>, b: Option<URL>) {
    HasOrigin(a) && HasOrigin(b) && OneHost(parse, a.value.host, b.value.host) &&
    Lower(a.value.scheme) == Lower(b.value.scheme) && EffectivePort(a.value) == EffectivePort(b.value)
  }

  lemma DefaultPortsAreNumbers()
    ensures AllDigits("80") && AllDigits("443") && NumberOf("80") == 80 && NumberOf("443") == 443
  {
    NumeralReadsBack(80);
    NumeralReadsBack(443);
    assert Numeral(80) == "80";
    assert Numeral(44) == "44";
    assert Numeral(443) == "443";
  }

  /** An origin key is the host, scheme and effective port of its URL, and there is one exactly for
      a URL that has an origin. */
  lemma OriginIsHostSchemePort(parse: AddrParser, u: Option<URL>)
    ensures OriginKeyOf(parse, u).Some? <==> HasOrigin(u)
    ensures HasOrigin(u) ==>
              var key := OriginKeyOf(parse, u).value;
              && Some(key.host) == HostKeyOf(parse, u.value.host)
              && key.scheme == Lower(u.value.scheme) && key.port == EffectivePort(u.value)
  {
    DefaultPortsAreNumbers();
  }

  /** Two origin keys are equal exactly for two URLs of one origin, and their hosts exactly for two
      URLs of one host. */
  lemma OriginKeysCompare(parse: AddrParser, a: Option<URL>, b: Option<URL>)
    ensures var from, to := OriginKeyOf(parse, a), OriginKeyOf(parse, b);
            && (from.Some? && from == to <==> OneOrigin(parse, a, b))
            && (from.Some? && to.Some? && from.value.host == to.value.host <==>
                HasOrigin(a) && HasOrigin(b) && OneHost(parse, a.value.host, b.value.host))
  {
    OriginIsHostSchemePort(parse, a);
    OriginIsHostSchemePort(parse, b);
    if HasOrigin(a) && HasOrigin(b) {
      HostIdentity(parse, a.value.host, b.value.host);
    }
  }

  // ---- Printing ----

  /** The authority originOf writes: the host, in brackets when it has a colon, and the port
      when it is not the scheme's default. */
  function Authority(u: URL): string {
    var host := if ':' in u.host then "[" + u.host + "]" else u.host;
    if u.port != "" && u.port != DefaultPort(Lower(u.scheme)) then host + ":" + u.port else host
  }

  /** originOf, before percent-escaping. */
  function OriginOf(u: Option<URL>): string {
    match u
    case None => ""
    case Some(u) =>
      (if u.scheme == "" then "" else Lower(u.scheme) + ":") +
      (if Authority(u) == "" then "" else "//" + Authority(u))
  }

  // ---- Reading back ----

  predicate ValidOptionalPort(port: string) {
    port == "" || (port[0] == ':' && AllDigits(port[1..]))
  }

  predicate IsBracketed(s: string) {
    |s| >= 2 && s[0] == '[' && s[|s| - 1] == ']'
  }

  /** How net/url splits an authority into Hostname() and Port(). */
  function SplitHostPort(authority: string): (string, string) {
    var colon := LastIndex(authority, ':');
    var (host, port) :=
      if colon.Some? && ValidOptionalPort(authority[colon.value..])
      then (authority[..colon.value], authority[colon.value + 1..])
      else (authority, "");
    (if IsBracketed(host) then host[1..|host| - 1] else host, port)
  }

  lemma LastIndexAt(s: string, c: char, i: nat)
    requires i < |s| && s[i] == c && c !in s[i + 1..]
    ensures LastIndex(s, c) == Some(i)
  {
    var r := LastIndex(s, c);
    assert r.Some?;
  }

  lemma AuthorityWithPort(host: string, port: string)
    requires AllDigits(port) && port != ""
    ensures SplitHostPort(host + ":" + port) == (if IsBracketed(host) then host[1..|host| - 1] else host, port)
  {
    var a := host + ":" + port;
    assert a[|host|] == ':' && a[|host| + 1..] == port;
    LastIndexAt(a, ':', |host|);
    assert a[|host|..][1..] == port && a[..|host|] == host;
  }

  lemma AuthorityWithoutPort(host: string)
    requires ':' in host ==> IsBracketed(host)
    ensures SplitHostPort(host) == (if IsBracketed(host) then host[1..|host| - 1] else host, "")
  {
    var colon := LastIndex(host, ':');
    if colon.Some? {
      var tail := host[colon.value..];
      assert tail[|tail| - 1] == ']' && tail[1..][|tail| - 2] == ']';
      assert !ValidOptionalPort(tail);
    }
  }

  /** A host that has no colon but stands in brackets loses them on the way. */
  predicate LosesBrackets(u: URL) {
    ':' !in u.host && IsBracketed(u.host)
  }

  lemma AuthorityReadsBack(parse: AddrParser, u: URL)
    requires OriginKeyOf(parse, Some(u)).Some?
    ensures var (host, port) := SplitHostPort(Authority(u));
            && (host == u.host <==> !LosesBrackets(u))
            && (port == if u.port == DefaultPort(Lower(u.scheme)) then "" else u.port)
            && (!LosesBrackets(u) ==>
                  OriginKeyOf(parse, Some(URL(Lower(u.scheme), host, port))) == OriginKeyOf(parse, Some(u)))
  {
    var host := if ':' in u.host then "[" + u.host + "]" else u.host;
    if u.port != "" && u.port != DefaultPort(Lower(u.scheme)) {
      AuthorityWithPort(host, u.port);
    } else {
      AuthorityWithoutPort(host);
    }
    if ':' in u.host {
      assert host[1..|host| - 1] == u.host;
    }
    LowerIsIdempotent(u.scheme);
  }

  /** Printing a valid origin and splitting it again gives back the host exactly when the host
      is not a bracketed text without a colon; then the whole origin comes back. What is printed is
      the folded scheme and that authority, and no port that the scheme implies. */
  lemma PrintedOriginReadsBack(parse: AddrParser, u: URL)
    requires HasOrigin(Some(u))
    ensures OriginOf(Some(u)) == (if u.scheme == "" then "" else Lower(u.scheme) + ":") + "//" + Authority(u)
    ensures var (host, port) := SplitHostPort(Authority(u));
            && (host == u.host <==> !LosesBrackets(u))
            && port == (if (Lower(u.scheme), u.port) in {("http", "80"), ("https", "443")} then "" else u.port)
            && (!LosesBrackets(u) ==> OneOrigin(parse, Some(URL(Lower(u.scheme), host, port)), Some(u)))
  {
    var (host, port) := SplitHostPort(Authority(u));
    OriginIsHostSchemePort(parse, Some(u));
    AuthorityReadsBack(parse, u);
    AuthorityIsPrinted(u);
    OriginKeysCompare(parse, Some(URL(Lower(u.scheme), host, port)), Some(u));
  }

  /** A URL with a host prints as its folded scheme and its authority, and no URL as nothing. */
  lemma AuthorityIsPrinted(u: URL)
    requires u.host != ""
    ensures OriginOf(Some(u)) == (if u.scheme == "" then "" else Lower(u.scheme) + ":") + "//" + Authority(u)
    ensures OriginOf(None) == ""
  {
    var printed := if u.scheme == "" then "" else Lower(u.scheme) + ":";
    assert printed + ("//" + Authority(u)) == printed + "//" + Authority(u);
  }

  /** Host names compare without regard to ASCII case, and never as addresses. */
  lemma HostIdentity(parse: AddrParser, a: string, b: string)
    requires a != "" && b != ""
    ensures HostKeyOf(parse, a) == HostKeyOf(parse, b) <==>
            (parse(a).Some? && parse(a) == parse(b)) || (parse(a).None? && parse(b).None? && Lower(a) == Lower(b))
  {
  }
}
