/** The redirect policy as a step system: options folded into a policy, one check per hop, and
    what every chain of followed hops keeps. */
module Redirects {
  import opened Prelude
  import opened Text
  import opened Origins

  const REDIRECT_CAP: int := 5

  datatype RedirectOption =
    | AllowedHosts(hosts: seq<string>)
    | AllowedSuffixes(suffixes: seq<string>)
    | MaxHops(n: int)
    | SameHost(same: bool)
    | SameOrigin(same: bool)
    | AllowSchemeDowngrade(allow: bool)
    | PreserveMethod(preserve: bool)

  datatype Config = Config(
    allowedHosts: seq<string>, allowedSuffixes: seq<string>, maxHops: int,
    sameHost: bool, sameOrigin: bool, allowSchemeDowngrade: bool, preserveMethod: bool)

  const NO_OPTIONS: Config := Config([], [], 0, false, false, false, false)

  function Apply(c: Config, o: Option<RedirectOption>): Config {
    match o
    case None => c
    case Some(AllowedHosts(hosts)) => c.(allowedHosts := hosts)
    case Some(AllowedSuffixes(suffixes)) => c.(allowedSuffixes := suffixes)
    case Some(MaxHops(n)) => c.(maxHops := n)
    case Some(SameHost(same)) => c.(sameHost := same)
    case Some(SameOrigin(same)) => c.(sameOrigin := same)
    case Some(AllowSchemeDowngrade(allow)) => c.(allowSchemeDowngrade := allow)
    case Some(PreserveMethod(preserve)) => c.(preserveMethod := preserve)
  }

  /** The options in order, a later one of a kind overriding an earlier. */
  function Fold(opts: seq<Option<RedirectOption>>): Config {
    if opts == [] then NO_OPTIONS else Apply(Fold(opts[..|opts| - 1]), opts[|opts| - 1])
  }

  // ---- The compiled allowlist ----

  predicate MatchesSuffix(k: HostKey, suffix: string)
    requires suffix != ""
  {
    k.Name? && k.name != "" && (k.name == suffix[1..] || HasSuffix(k.name, suffix))
  }

  /** The domain a suffix entry stands for: trimmed, folded, without one leading dot. */
  function Domain(entry: string): string {
    var s := Lower(TrimSpace(entry));
    if s != "" && s[0] == '.' then s[1..] else s
  }

  function UsableSuffixes(entries: seq<string>): (out: seq<string>)
    ensures forall s :: s in out ==> |s| > 1 && s[0] == '.'
  {
    if entries == [] then []
    else
      var init := UsableSuffixes(entries[..|entries| - 1]);
      var d := Domain(entries[|entries| - 1]);
      if d == "" then init else init + ["." + d]
  }

  /** An entry stands for its folded text, with the space around it and then one leading dot taken
      off. */
  lemma DomainExactly(before: string, text: string, after: string)
    requires AllSpace(before) && AllSpace(after)
    requires text != [] ==> !IsSpace(text[0]) && !IsSpace(text[|text| - 1])
    ensures Domain(before + text + after) == Lower(if text != [] && text[0] == '.' then text[1..] else text)
  {
    TrimSpaceExactly(before, text, after);
    if text != [] {
      FoldingKeepsDots(text);
    }
  }

  lemma FoldingKeepsDots(text: string)
    requires text != []
    ensures Lower(text)[0] == '.' <==> text[0] == '.'
    ensures Lower(text)[1..] == Lower(text[1..])
  {
  }

  /** normalizeSuffixes: anchors each entry at a dot, folds it, and drops what has no label. */
  method NormalizeSuffixes(suffixes: seq<string>) returns (out: seq<string>)
    ensures out == UsableSuffixes(suffixes)
  {
    out := [];
    for i := 0 to |suffixes|
      invariant out == UsableSuffixes(suffixes[..i])
    {
      var s := TrimSpace(suffixes[i]);
      if !(s != "" && s[0] == '.') {
        s := "." + s;
      }
      assert suffixes[..i + 1][..i] == suffixes[..i];
      assert "." + Domain(suffixes[i]) == Lower(s);
      if |s| > 1 {
        var folded := AsciiLower(s);
        out := out + [folded];
      }
    }
    assert suffixes[..|suffixes|] == suffixes;
  }

  function HostKeys(parse: AddrParser, hosts: seq<string>): seq<HostKey> {
    if hosts == [] then []
    else
      var init := HostKeys(parse, hosts[..|hosts| - 1]);
      match HostKeyOf(parse, hosts[|hosts| - 1])
      case Some(k) => init + [k]
      case None => init
  }

  method HostKeysOf(parse: AddrParser, hosts: seq<string>) returns (out: seq<HostKey>)
    ensures out == HostKeys(parse, hosts)
  {
    out := [];
    for i := 0 to |hosts|
      invariant out == HostKeys(parse, hosts[..i])
    {
      assert hosts[..i + 1][..i] == hosts[..i];
      var k := HostKeyOf(parse, hosts[i]);
      if k.Some? {
        out := out + [k.value];
      }
    }
    assert hosts[..|hosts|] == hosts;
  }

  predicate RedirectAllowed(k: HostKey, allowedHosts: seq<HostKey>, suffixes: seq<string>)
    requires forall s :: s in suffixes ==> s != ""
  {
    k in allowedHosts || exists s :: s in suffixes && MatchesSuffix(k, s)
  }

  /** The plain rule for a non-empty target host. */
  ghost predicate PlainlyAllowed(parse: AddrParser, target: string, hosts: seq<string>, entries: seq<string>) {
    match parse(target)
    case Some(a) =>
      exists h :: h in hosts && h != "" && parse(h) == Some(a)
    case None =>
      || (exists h :: h in hosts && h != "" && parse(h) == None && Lower(h) == Lower(target))
      || (exists e :: e in entries && UnderDomain(Lower(target), Domain(e)))
  }

  predicate UnderDomain(name: string, domain: string) {
    domain != "" && (name == domain || HasSuffix(name, "." + domain))
  }

  lemma UnderDomainExactly(name: string, domain: string)
    ensures UnderDomain(name, domain) <==>
            domain != "" && (name == domain || exists sub: string :: name == sub + "." + domain)
  {
    HasSuffixExactly(name, "." + domain);
    assert forall sub: string :: sub + "." + domain == sub + ("." + domain);
  }

  lemma {:induction false} HostKeysAreEntries(parse: AddrParser, hosts: seq<string>, k: HostKey)
    ensures k in HostKeys(parse, hosts) <==> exists h :: h in hosts && HostKeyOf(parse, h) == Some(k)
  {
    if hosts != [] {
      var n := |hosts| - 1;
      HostKeysAreEntries(parse, hosts[..n], k);
      assert hosts == hosts[..n] + [hosts[n]];
    }
  }

  /** suffix is what the entry compiles to. */
  predicate Anchors(entry: string, suffix: string) {
    Domain(entry) != "" && suffix == "." + Domain(entry)
  }

  lemma OneMoreEntry(entries: seq<string>, suffix: string)
    requires entries != []
    ensures var n := |entries| - 1;
            suffix in UsableSuffixes(entries) <==>
              suffix in UsableSuffixes(entries[..n]) || Anchors(entries[n], suffix)
  {
  }

  lemma {:induction false} SuffixHasEntry(entries: seq<string>, suffix: string) returns (entry: string)
    requires suffix in UsableSuffixes(entries)
    ensures entry in entries && Anchors(entry, suffix)
  {
    var n := |entries| - 1;
    OneMoreEntry(entries, suffix);
    if Anchors(entries[n], suffix) {
      entry := entries[n];
    } else {
      entry := SuffixHasEntry(entries[..n], suffix);
    }
  }

  lemma {:induction false} EntryHasSuffix(entries: seq<string>, entry: string, suffix: string)
    requires entry in entries && Anchors(entry, suffix)
    ensures suffix in UsableSuffixes(entries)
  {
    var n := |entries| - 1;
    OneMoreEntry(entries, suffix);
    if entry != entries[n] {
      EntryHasSuffix(entries[..n], entry, suffix);
    }
  }

  /** The compiled allowlist decides exactly the plain rule: an IP literal by address and zone,
      a name by its folded text, a suffix by whole labels and never for an IP literal. */
  lemma AllowlistIsPlainRule(parse: AddrParser, target: string, hosts: seq<string>, entries: seq<string>)
    requires target != ""
    ensures RedirectAllowed(HostKeyOf(parse, target).value, HostKeys(parse, hosts), UsableSuffixes(entries)) <==>
            PlainlyAllowed(parse, target, hosts, entries)
  {
    var k := HostKeyOf(parse, target).value;
    HostKeysAreEntries(parse, hosts, k);
    forall h | h in hosts && h != ""
      ensures HostKeyOf(parse, h) == Some(k) <==>
              (parse(h).Some? && parse(h) == parse(target)) ||
              (parse(h).None? && parse(target).None? && Lower(h) == Lower(target))
    {
      HostIdentity(parse, h, target);
    }
    forall e: string | Domain(e) != ""
      ensures MatchesSuffix(k, "." + Domain(e)) <==> k.Name? && UnderDomain(Lower(target), Domain(e))
    {
      assert ("." + Domain(e))[1..] == Domain(e);
    }
    if s :| s in UsableSuffixes(entries) && MatchesSuffix(k, s) {
      var e := SuffixHasEntry(entries, s);
    }
    if e :| e in entries && UnderDomain(Lower(target), Domain(e)) {
      EntryHasSuffix(entries, e, "." + Domain(e));
      assert "." + Domain(e) in UsableSuffixes(entries);
    }
  }

  // ---- One hop ----

  datatype Request = Request(method_: string, url: Option<URL>)

  datatype Reason = NotAllowed | OtherOrigin | Downgrade | TooMany

  datatype Decision = Follow | Refuse(reason: Reason, origin: string) | UseLastResponse

  datatype Policy =
    | RefuseEvery
    | Resolved(
        allowedHosts: seq<HostKey>, suffixes: seq<string>, maxHops: int,
        sameHost: bool, sameOrigin: bool, allowDowngrade: bool, preserveMethod: bool)

  predicate ValidPolicy(p: Policy) {
    p.Resolved? ==> p.maxHops > 0 && forall s :: s in p.suffixes ==> s != ""
  }

  function Compile(parse: AddrParser, c: Config): (p: Policy)
    ensures ValidPolicy(p)
  {
    if c.allowedHosts == [] && c.allowedSuffixes == [] && !c.sameHost && !c.sameOrigin then RefuseEvery
    else
      Resolved(
        HostKeys(parse, c.allowedHosts), UsableSuffixes(c.allowedSuffixes),
        if c.maxHops <= 0 then REDIRECT_CAP else c.maxHops,
        c.sameHost, c.sameOrigin, c.allowSchemeDowngrade, c.preserveMethod)
  }

  /** RedirectPolicyFunc: applies the options one by one and compiles the result. */
  method RedirectPolicyFunc(parse: AddrParser, opts: seq<Option<RedirectOption>>) returns (p: Policy)
    ensures p == Compile(parse, Fold(opts))
  {
    var cfg := NO_OPTIONS;
    for i := 0 to |opts|
      invariant cfg == Fold(opts[..i])
    {
      assert opts[..i + 1][..i] == opts[..i];
      cfg := Apply(cfg, opts[i]);
    }
    assert opts[..|opts|] == opts;
    if cfg.allowedHosts == [] && cfg.allowedSuffixes == [] && !cfg.sameHost && !cfg.sameOrigin {
      return RefuseEvery;
    }
    var hosts := HostKeysOf(parse, cfg.allowedHosts);
    var suffixes := NormalizeSuffixes(cfg.allowedSuffixes);
    p := Resolved(
      hosts, suffixes, if cfg.maxHops <= 0 then REDIRECT_CAP else cfg.maxHops,
      cfg.sameHost, cfg.sameOrigin, cfg.allowSchemeDowngrade, cfg.preserveMethod);
  }

  function EffectiveMethod(m: string): string {
    if m == "" then "GET" else m
  }

  predicate MethodChanged(req: Request, via: seq<Request>) {
    via == [] || EffectiveMethod(req.method_) != EffectiveMethod(via[0].method_)
  }

  /** Schemes are ASCII, so strings.EqualFold is equality after folding. */
  predicate IsSchemeDowngrade(from: string, to: string) {
    Lower(from) == "https" && Lower(to) == "http"
  }

  predicate TargetAllowed(parse: AddrParser, p: Policy, target: Option<URL>, orig: Option<URL>)
    requires p.Resolved? && ValidPolicy(p)
  {
    match OriginKeyOf(parse, target)
    case None => false
    case Some(to) =>
      var from := OriginKeyOf(parse, orig);
      var onOrigHost := from.Some? && to.host == from.value.host;
      if p.sameOrigin && onOrigHost then to == from.value
      else if RedirectAllowed(to.host, p.allowedHosts, p.suffixes) then true
      else p.sameHost && onOrigHost
  }

  /** The CheckRedirect of a policy, given every request sent so far. */
  function Check(parse: AddrParser, p: Policy, req: Request, via: seq<Request>): Decision
    requires ValidPolicy(p)
  {
    if p.RefuseEvery? then Refuse(NotAllowed, OriginOf(req.url))
    else if |via| > p.maxHops then Refuse(TooMany, OriginOf(req.url))
    else
      var orig := if via == [] then None else via[0].url;
      if !TargetAllowed(parse, p, req.url, orig) then Refuse(OtherOrigin, OriginOf(req.url))
      else if !p.allowDowngrade && orig.Some? && IsSchemeDowngrade(orig.value.scheme, req.url.value.scheme)
      then Refuse(Downgrade, OriginOf(req.url))
      else if p.preserveMethod && MethodChanged(req, via) then UseLastResponse
      else Follow
  }

  // ---- Whole chains ----

  /** The requests net/http sends for one call: the caller's, then every hop the policy lets it
      follow, each judged against all the requests sent before it. */
  ghost predicate Chain(parse: AddrParser, p: Policy, sent: seq<Request>)
    requires ValidPolicy(p)
  {
    sent != [] && forall i :: 1 <= i < |sent| ==> Check(parse, p, sent[i], sent[..i]) == Follow
  }

  predicate OnOriginalHost(parse: AddrParser, r: Request, original: Request) {
    HasOrigin(r.url) && HasOrigin(original.url) && OneHost(parse, r.url.value.host, original.url.value.host)
  }

  /** Two methods net/http sends alike: an empty one is GET. */
  predicate OneMethod(a: string, b: string) {
    a == b || (a == "" && b == "GET") || (a == "GET" && b == "")
  }

  predicate OverHTTPS(r: Request) {
    r.url.Some? && Lower(r.url.value.scheme) == "https"
  }

  predicate OverHTTP(r: Request) {
    r.url.Some? && Lower(r.url.value.scheme) == "http"
  }

  lemma HopIsJudgedAgainstTheOriginal(parse: AddrParser, p: Policy, sent: seq<Request>, i: nat)
    requires ValidPolicy(p) && Chain(parse, p, sent) && 1 <= i < |sent|
    ensures p.Resolved? && i <= p.maxHops && Check(parse, p, sent[i], sent[..i]) == Follow
    ensures TargetAllowed(parse, p, sent[i].url, sent[0].url)
    ensures !p.allowDowngrade ==> !(OverHTTPS(sent[0]) && OverHTTP(sent[i]))
    ensures p.preserveMethod ==> OneMethod(sent[i].method_, sent[0].method_)
  {
    assert sent[..i][0] == sent[0];
  }

  /** No chain follows more than maxHops hops, and a policy without any permission follows
      none. */
  lemma HopsAreBounded(parse: AddrParser, p: Policy, sent: seq<Request>)
    requires ValidPolicy(p) && Chain(parse, p, sent)
    ensures |sent| - 1 <= if p.RefuseEvery? then 0 else p.maxHops
  {
    if |sent| > 1 {
      HopIsJudgedAgainstTheOriginal(parse, p, sent, |sent| - 1);
    }
  }

  /** Under WithSameOrigin every request to the original host goes to its scheme and effective port
      as well, and with no allowlist every hop is to that host. */
  lemma SameOriginIsKept(parse: AddrParser, p: Policy, sent: seq<Request>, i: nat)
    requires ValidPolicy(p) && Chain(parse, p, sent) && i < |sent|
    requires p.Resolved? && p.sameOrigin
    ensures OnOriginalHost(parse, sent[i], sent[0]) ==> OneOrigin(parse, sent[i].url, sent[0].url)
    ensures i > 0 && p.allowedHosts == [] && p.suffixes == [] ==> OneOrigin(parse, sent[i].url, sent[0].url)
  {
    OriginKeysCompare(parse, sent[i].url, sent[0].url);
    if i > 0 {
      HopIsJudgedAgainstTheOriginal(parse, p, sent, i);
    }
  }

  /** Every host a chain reaches is the original one or plainly on the caller's allowlist; the
      original host only counts when WithSameHost or WithSameOrigin named it. */
  lemma OnlyPermittedHostsAreReached(parse: AddrParser, c: Config, sent: seq<Request>, i: nat)
    requires Chain(parse, Compile(parse, c), sent) && 1 <= i < |sent|
    ensures sent[i].url.Some? && sent[i].url.value.host != ""
    ensures PlainlyAllowed(parse, sent[i].url.value.host, c.allowedHosts, c.allowedSuffixes) ||
            ((c.sameHost || c.sameOrigin) && OnOriginalHost(parse, sent[i], sent[0]))
  {
    HopIsJudgedAgainstTheOriginal(parse, Compile(parse, c), sent, i);
    OriginIsHostSchemePort(parse, sent[i].url);
    OriginKeysCompare(parse, sent[i].url, sent[0].url);
    AllowlistIsPlainRule(parse, sent[i].url.value.host, c.allowedHosts, c.allowedSuffixes);
  }

  /** Unless downgrades are allowed, a chain begun on https never reaches http. */
  lemma SchemeIsNotDowngraded(parse: AddrParser, p: Policy, sent: seq<Request>, i: nat)
    requires ValidPolicy(p) && Chain(parse, p, sent) && i < |sent|
    requires p.Resolved? && !p.allowDowngrade && OverHTTPS(sent[0])
    ensures !OverHTTP(sent[i])
  {
    if i > 0 {
      HopIsJudgedAgainstTheOriginal(parse, p, sent, i);
    }
  }

  /** Under WithPreserveMethod every request keeps the original method, whatever statuses the
      hops came from. */
  lemma MethodIsPreserved(parse: AddrParser, p: Policy, sent: seq<Request>, i: nat)
    requires ValidPolicy(p) && Chain(parse, p, sent) && i < |sent|
    requires p.Resolved? && p.preserveMethod
    ensures OneMethod(sent[i].method_, sent[0].method_)
  {
    if i > 0 {
      HopIsJudgedAgainstTheOriginal(parse, p, sent, i);
    }
  }

  // ---- Every decision ----

  /** The options permit some target. */
  predicate Permits(c: Config) {
    c.allowedHosts != [] || c.allowedSuffixes != [] || c.sameHost || c.sameOrigin
  }

  function HopCap(c: Config): int {
    if c.maxHops <= 0 then 5 else c.maxHops
  }

  /** The target is one the options permit, read against the original request alone: under
      WithSameOrigin a hop to its host must keep its scheme and port too. Without an original, or
      without its URL, the permissions that name it permit nothing. */
  ghost predicate MayLand(parse: AddrParser, c: Config, req: Request, via: seq<Request>) {
    var onOriginalHost := via != [] && OnOriginalHost(parse, req, via[0]);
    HasOrigin(req.url) &&
    if c.sameOrigin && onOriginalHost then OneOrigin(parse, req.url, via[0].url)
    else
      PlainlyAllowed(parse, req.url.value.host, c.allowedHosts, c.allowedSuffixes) || (c.sameHost && onOriginalHost)
  }

  predicate Downgrades(req: Request, via: seq<Request>) {
    via != [] && OverHTTPS(via[0]) && OverHTTP(req)
  }

  /** Without an original no method can be vouched for. */
  predicate KeepsMethod(req: Request, via: seq<Request>) {
    via != [] && OneMethod(req.method_, via[0].method_)
  }

  lemma TargetAllowedExactly(parse: AddrParser, c: Config, req: Request, via: seq<Request>)
    requires Permits(c)
    ensures TargetAllowed(parse, Compile(parse, c), req.url, if via == [] then None else via[0].url) <==>
            MayLand(parse, c, req, via)
  {
    OriginIsHostSchemePort(parse, req.url);
    OriginKeysCompare(parse, req.url, if via == [] then None else via[0].url);
    if HasOrigin(req.url) {
      AllowlistIsPlainRule(parse, req.url.value.host, c.allowedHosts, c.allowedSuffixes);
    }
  }

  /** Every decision, in its order: no permission, too many hops, a target not permitted, a
      downgrade, a changed method; only then is the hop followed. Each refusal names the origin of
      the target it refused. */
  lemma DecidedExactly(parse: AddrParser, c: Config, req: Request, via: seq<Request>)
    ensures Check(parse, Compile(parse, c), req, via) ==
            if !Permits(c) then Refuse(NotAllowed, OriginOf(req.url))
            else if |via| > HopCap(c) then Refuse(TooMany, OriginOf(req.url))
            else if !MayLand(parse, c, req, via) then Refuse(OtherOrigin, OriginOf(req.url))
            else if !c.allowSchemeDowngrade && Downgrades(req, via) then Refuse(Downgrade, OriginOf(req.url))
            else if c.preserveMethod && !KeepsMethod(req, via) then UseLastResponse
            else Follow
  {
    if Permits(c) {
      TargetAllowedExactly(parse, c, req, via);
    }
  }

  /** A hop is followed exactly when every rule of the caller's options holds. */
  lemma FollowedExactly(parse: AddrParser, c: Config, req: Request, via: seq<Request>)
    ensures Check(parse, Compile(parse, c), req, via) == Follow <==>
            && Permits(c) && |via| <= HopCap(c) && MayLand(parse, c, req, via)
            && (c.allowSchemeDowngrade || !Downgrades(req, via))
            && (c.preserveMethod ==> KeepsMethod(req, via))
  {
    DecidedExactly(parse, c, req, via);
  }

  // ---- Options ----

  predicate SameKind(a: RedirectOption, b: RedirectOption) {
    || (a.AllowedHosts? && b.AllowedHosts?) || (a.AllowedSuffixes? && b.AllowedSuffixes?)
    || (a.MaxHops? && b.MaxHops?) || (a.SameHost? && b.SameHost?) || (a.SameOrigin? && b.SameOrigin?)
    || (a.AllowSchemeDowngrade? && b.AllowSchemeDowngrade?) || (a.PreserveMethod? && b.PreserveMethod?)
  }

  /** What the caller asked for with o is in force. */
  predicate InForce(c: Config, o: RedirectOption) {
    match o
    case AllowedHosts(hosts) => c.allowedHosts == hosts
    case AllowedSuffixes(suffixes) => c.allowedSuffixes == suffixes
    case MaxHops(n) => c.maxHops == n
    case SameHost(same) => c.sameHost == same
    case SameOrigin(same) => c.sameOrigin == same
    case AllowSchemeDowngrade(allow) => c.allowSchemeDowngrade == allow
    case PreserveMethod(preserve) => c.preserveMethod == preserve
  }

  /** Later options win: the last of each kind is the one in force, whatever surrounds it. */
  lemma {:induction false} LaterOptionWins(opts: seq<Option<RedirectOption>>, o: RedirectOption,
        later: seq<Option<RedirectOption>>)
    requires forall x :: x in later ==> x.None? || !SameKind(x.value, o)
    ensures InForce(Fold(opts + [Some(o)] + later), o)
  {
    var all := opts + [Some(o)] + later;
    if later == [] {
      assert all[..|all| - 1] == opts;
    } else {
      LaterOptionWins(opts, o, later[..|later| - 1]);
      assert all[..|all| - 1] == opts + [Some(o)] + later[..|later| - 1];
      assert all[|all| - 1] == later[|later| - 1];
      assert later[|later| - 1] in later;
    }
  }

  /** What no option of its kind sets is not permitted; the hop cap is then five. */
  lemma {:induction false} UnsetIsNotPermitted(opts: seq<Option<RedirectOption>>, o: RedirectOption)
    requires InForce(Config([], [], 0, false, false, false, false), o)
    requires forall x :: x in opts ==> x.None? || !SameKind(x.value, o)
    ensures InForce(Fold(opts), o)
  {
    if opts != [] {
      assert opts[|opts| - 1] in opts;
      UnsetIsNotPermitted(opts[..|opts| - 1], o);
    }
  }
}
