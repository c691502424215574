/**
  What an Ingress means for a request, and the proof that the emitted virtual hosts mean the same.

  The specification side below never mentions Envoy domains, routes or cluster names:
  it looks for the first rule with the authority's host and the first path entry that matches.
 */
module Routing {
  import opened Text
  import opened Kube
  import opened Envoy
  import opened Translator

  // ---- Specification semantics ----

  /** An authority (section 7.2 of RFC 9110) names `host`, alone or followed by ":" and a port. */
  predicate HostMatches(host: string, authority: string) {
    authority == host || host + ":" < authority
  }

  predicate RuleMatches(rule: Rule, authority: string) {
    exists h | h in rule.hosts :: HostMatches(h, authority)
  }

  /** The first rule that serves the authority. */
  function FirstRule(rules: seq<Rule>, authority: string): (first: Option<nat>)
    ensures first.Some? ==> first.value < |rules| && RuleMatches(rules[first.value], authority)
    ensures first.Some? ==> forall k | 0 <= k < first.value :: !RuleMatches(rules[k], authority)
    ensures first.None? ==> forall k | 0 <= k < |rules| :: !RuleMatches(rules[k], authority)
  {
    if rules == [] then None
    else
      var before := FirstRule(rules[..|rules| - 1], authority);
      if before.Some? then before
      else if RuleMatches(rules[|rules| - 1], authority) then Some(|rules| - 1)
      else None
  }

  /** The request's path starts with the entry's, or with "/" when the entry names none, and its headers are as asked. */
  predicate PathMatches(path: HTTPPath, req: Request) {
    && (if path.path == "" then "/" <= req.path else path.path <= req.path)
    && (forall h | h in path.headers ::
          h in req.headers && (path.headers[h] != "" ==> req.headers[h] == path.headers[h]))
  }

  function FirstPath(paths: seq<HTTPPath>, req: Request, from: nat): (first: Option<nat>)
    requires from <= |paths|
    ensures first.Some? ==> from <= first.value < |paths| && PathMatches(paths[first.value], req)
    ensures first.Some? ==> forall k | from <= k < first.value :: !PathMatches(paths[k], req)
    ensures first.None? ==> forall k | from <= k < |paths| :: !PathMatches(paths[k], req)
    decreases |paths| - from
  {
    if from == |paths| then None
    else if PathMatches(paths[from], req) then Some(from)
    else FirstPath(paths, req, from + 1)
  }

  /** The services of a path entry in spec order, with their weights, reached inside one region. */
  function PathBackends(path: HTTPPath, region: Region): seq<Option<Backend>> {
    seq(|path.splits|, s requires 0 <= s < |path.splits| =>
      Some(Backend(path.splits[s].service, region.name, ToUint32(path.splits[s].percent), path.splits[s].appendHeaders)))
  }

  /** How the answer names rule `r` of the ingress `n`. */
  function RuleLabel(n: Name, r: nat): string {
    "(" + n.namespace + "/" + n.name + ").Rules[" + Decimal(r) + "]"
  }

  /** The rule wants plain requests redirected to HTTPS, and the deployment does not leave that to others. */
  predicate AsksRedirect(cfg: Settings, ing: Ingress, rule: Rule) {
    ing.redirectHTTP && rule.visibility.ExternalIP? && !cfg.httpOptionDisabled
  }

  function AskedRewrite(path: HTTPPath): Option<string> {
    if |path.rewriteHost| > 0 then Some(path.rewriteHost) else None
  }

  function RuleAnswer(cfg: Settings, ing: Ingress, r: nat, region: Region, req: Request): Answer
    requires r < |ing.rules|
  {
    var rule, host := ing.rules[r], RuleLabel(ing.name, r);
    match FirstPath(rule.paths, req, 0)
    case None => NoRoute(host)
    case Some(p) =>
      if AsksRedirect(cfg, ing, rule) then Redirected(host, p)
      else Forwarded(host, p, PathBackends(rule.paths[p], region), AskedRewrite(rule.paths[p]), rule.paths[p].appendHeaders)
  }

  /** What `ing` asks for, for a request that arrives in `region`. */
  function SpecAnswer(cfg: Settings, ing: Ingress, region: Region, req: Request): Answer {
    match FirstRule(ing.rules, req.authority)
    case None => NoHost
    case Some(r) => RuleAnswer(cfg, ing, r, region, req)
  }

  // ---- Hosts, domains and authorities ----

  /** Rank every matching domain of a plain host has: one number per authority. */
  function AuthorityRank(authority: string): nat {
    if ':' in authority then |Before(authority, ':')| + 2 else |authority| + 1
  }

  /** A plain host matches an authority only as the part before its first colon. */
  lemma HostIsAuthorityPrefix(host: string, authority: string)
    requires Plain(host) && HostMatches(host, authority)
    ensures host == Before(authority, ':')
  {
    if authority != host {
      assert host + [':'] <= authority;
      BeforeIs(host, ':', authority);
    }
  }

  /** Every authority belongs to at most one plain host. */
  lemma AuthorityHasOneHost(h1: string, h2: string, authority: string)
    requires Plain(h1) && Plain(h2) && HostMatches(h1, authority) && HostMatches(h2, authority)
    ensures h1 == h2
  {
    HostIsAuthorityPrefix(h1, authority);
    HostIsAuthorityPrefix(h2, authority);
  }

  /** Envoy's view of the two domains emitted for one host. */
  lemma HostDomainRanks(host: string, authority: string)
    requires Plain(host)
    ensures DomainRank(host, authority) == (if authority == host then AuthorityRank(authority) else 0)
    ensures DomainRank(host + ":*", authority) == (if host + ":" < authority then AuthorityRank(authority) else 0)
  {
    if host != "" {
      assert host[|host| - 1] in host;
    }
    var wild := host + ":*";
    assert wild[..|wild| - 1] == host + ":";
    if host + ":" < authority {
      assert host + [':'] <= authority;
      assert authority[|host|] == ':';
      BeforeIs(host, ':', authority);
    }
  }

  lemma {:induction false} RuleRank(hosts: seq<string>, authority: string)
    requires forall h | h in hosts :: Plain(h)
    ensures HostRank(Domains(hosts), authority)
         == if exists h | h in hosts :: HostMatches(h, authority) then AuthorityRank(authority) else 0
  {
    if hosts != [] {
      var init, last := hosts[..|hosts| - 1], hosts[|hosts| - 1];
      RuleRank(init, authority);
      HostDomainRanks(last, authority);
      var d := Domains(init);
      assert Domains(hosts) == d + [last] + [last + ":*"];
      assert (d + [last] + [last + ":*"])[..|d| + 1] == d + [last];
      assert (d + [last])[..|d|] == d;
      assert hosts == init + [last];
    }
  }

  lemma {:induction false} DomainsOfHosts(hosts: seq<string>, d: string)
    ensures d in Domains(hosts) <==> exists h | h in hosts :: d == h || d == h + ":*"
  {
    if hosts != [] {
      var init, last := hosts[..|hosts| - 1], hosts[|hosts| - 1];
      DomainsOfHosts(init, d);
      assert hosts == init + [last];
      assert Domains(hosts) == Domains(init) + [last, last + ":*"];
      if h :| h in hosts && (d == h || d == h + ":*") {
        assert h in init || h == last;
      }
      if d in Domains(init) {
        var h :| h in init && (d == h || d == h + ":*");
        assert h in hosts;
      } else if d in Domains(hosts) {
        assert last in hosts && d in [last, last + ":*"];
      }
    }
  }

  predicate Common(a: seq<string>, b: seq<string>) {
    exists x | x in a :: x in b
  }

  /** Plain hosts never spell the same domain in two ways. */
  lemma DomainNamesOneHost(g: string, h: string, d: string)
    requires Plain(g) && Plain(h) && (d == g || d == g + ":*") && (d == h || d == h + ":*")
    ensures g == h
  {
    WildcardIsNotPlain(g);
    WildcardIsNotPlain(h);
    assert (g + ":*")[..|g|] == g && (h + ":*")[..|h|] == h;
  }

  lemma WildcardIsNotPlain(h: string)
    ensures !Plain(h + ":*")
  {
    assert (h + ":*")[|h|] == ':';
  }

  /** Two plain host lists share a domain exactly when they share a host. */
  lemma DomainsOverlapIffHostsDo(a: seq<string>, b: seq<string>)
    requires (forall h | h in a :: Plain(h)) && (forall h | h in b :: Plain(h))
    ensures Common(Domains(a), Domains(b)) <==> Common(a, b)
  {
    if Common(Domains(a), Domains(b)) {
      var d :| d in Domains(a) && d in Domains(b);
      DomainsOfHosts(a, d);
      DomainsOfHosts(b, d);
      var h :| h in a && (d == h || d == h + ":*");
      var g :| g in b && (d == g || d == g + ":*");
      DomainNamesOneHost(g, h, d);
      assert h in b;
    }
    if Common(a, b) {
      var h :| h in a && h in b;
      DomainsOfHosts(a, h);
      DomainsOfHosts(b, h);
    }
  }

  // ---- Selecting a virtual host ----

  function FirstHost(hosts: seq<VirtualHost>, authority: string): Option<VirtualHost> {
    if hosts == [] then None
    else
      var before := FirstHost(hosts[..|hosts| - 1], authority);
      if before.Some? then before
      else if HostRank(hosts[|hosts| - 1].domains, authority) > 0 then Some(hosts[|hosts| - 1])
      else None
  }

  predicate EvenRanks(hosts: seq<VirtualHost>, authority: string) {
    forall k | 0 <= k < |hosts| :: HostRank(hosts[k].domains, authority) in {0, AuthorityRank(authority)}
  }

  /** When all matches rank alike, Envoy's best host is simply the first one. */
  lemma {:induction false} BestIsFirst(hosts: seq<VirtualHost>, authority: string)
    requires EvenRanks(hosts, authority)
    ensures BestHost(hosts, authority) == FirstHost(hosts, authority)
  {
    if hosts != [] {
      var init := hosts[..|hosts| - 1];
      assert forall k | 0 <= k < |init| :: init[k] == hosts[k];
      BestIsFirst(init, authority);
      var best := BestHost(init, authority);
      if best.Some? {
        var k :| 0 <= k < |init| && init[k] == best.value;
        assert HostRank(hosts[k].domains, authority) == AuthorityRank(authority);
      }
    }
  }

  lemma {:induction false} FirstHostConcat(a: seq<VirtualHost>, b: seq<VirtualHost>, authority: string)
    ensures FirstHost(a + b, authority) == (if FirstHost(a, authority).Some? then FirstHost(a, authority) else FirstHost(b, authority))
  {
    if b == [] {
      assert a + b == a;
    } else {
      var init := b[..|b| - 1];
      assert (a + b)[..|a + b| - 1] == a + init;
      FirstHostConcat(a, init, authority);
    }
  }

  lemma RuleHostRank(cfg: Settings, ing: Ingress, r: nat, i: nat, authority: string)
    requires Admitted(ing) && r < |ing.rules| && i < |cfg.regions|
    ensures HostRank(RuleHost(cfg, ing, r, i).domains, authority)
         == if RuleMatches(ing.rules[r], authority) then AuthorityRank(authority) else 0
  {
    assert AdmittedRule(ing.rules[r]);
    RuleRank(ing.rules[r].hosts, authority);
  }

  /** Among one ingress's hosts, the first match is the first matching rule. */
  lemma {:induction false} FirstHostIsFirstRule(cfg: Settings, ing: Ingress, k: nat, i: nat, authority: string)
    requires Admitted(ing) && k <= |ing.rules| && i < |cfg.regions|
    ensures FirstHost(InternalHosts(cfg, ing, k, i), authority) ==
      match FirstRule(ing.rules[..k], authority)
      case None => None
      case Some(r) => Some(RuleHost(cfg, ing, r, i))
  {
    if k > 0 {
      assert InternalHosts(cfg, ing, k, i)[..k - 1] == InternalHosts(cfg, ing, k - 1, i);
      assert ing.rules[..k][..k - 1] == ing.rules[..k - 1];
      FirstHostIsFirstRule(cfg, ing, k - 1, i, authority);
      RuleHostRank(cfg, ing, k - 1, i, authority);
    }
  }

  // ---- Answers of one rule ----

  /** A region-suffixed cluster name determines its service and its region. */
  lemma ClusterNameRoundTrip(service: Name, region: Region)
    requires PlainName(service) && Plain(region.name)
    ensures ParseClusterName(ClusterName(service, region)) == Some((service, region.name))
  {
    var tail := service.name + ['_'] + region.name;
    assert ClusterName(service, region) == service.namespace + ['/'] + tail;
    SplitHead(service.namespace, '/', tail);
    SplitWhole(tail, '/');
    SplitHead(service.name, '_', region.name);
    SplitWhole(region.name, '_');
    assert Text.Split(tail, '_') == [service.name, region.name];
    assert Text.Split(ClusterName(service, region), '/') == [service.namespace, tail];
  }

  lemma BackendsReadBack(path: HTTPPath, region: Region)
    requires Plain(region.name) && forall s | 0 <= s < |path.splits| :: PlainName(path.splits[s].service)
    ensures var weights := Weights(path.splits, region);
      seq(|weights|, k requires 0 <= k < |weights| => ReadBackend(weights[k])) == PathBackends(path, region)
  {
    forall s | 0 <= s < |path.splits|
      ensures ReadBackend(Weight(path.splits[s], region)) == PathBackends(path, region)[s]
    {
      ClusterNameRoundTrip(path.splits[s].service, region);
    }
  }

  lemma RouteMatchesPath(route: Route, path: HTTPPath, req: Request)
    requires route.prefix == PathPrefix(path) && route.matchers == Matchers(path.headers)
    ensures RouteMatches(route, req) == PathMatches(path, req)
  {
    if RouteMatches(route, req) {
      forall h | h in path.headers ensures h in req.headers && (path.headers[h] != "" ==> req.headers[h] == path.headers[h]) {
        assert h in route.matchers;
      }
    }
  }

  lemma {:induction false} FirstRouteIsFirstPath(routes: seq<Route>, paths: seq<HTTPPath>, req: Request, from: nat)
    requires |routes| == |paths| && from <= |paths|
    requires forall k | 0 <= k < |paths| :: RouteMatches(routes[k], req) == PathMatches(paths[k], req)
    ensures FirstRoute(routes, req, from) == FirstPath(paths, req, from)
    decreases |paths| - from
  {
    if from < |paths| {
      FirstRouteIsFirstPath(routes, paths, req, from + 1);
    }
  }

  /** One rule's virtual host answers as the rule asks, except for redirects outside region 0. */
  lemma RuleHostAnswer(cfg: Settings, ing: Ingress, r: nat, i: nat, req: Request)
    requires Admitted(ing) && ValidRegions(cfg.regions) && r < |ing.rules| && i < |cfg.regions|
    ensures HostAnswer(RuleHost(cfg, ing, r, i), req) ==
      if AsksRedirect(cfg, ing, ing.rules[r]) && i > 0 then NoRoute(RuleLabel(ing.name, r))
      else RuleAnswer(cfg, ing, r, cfg.regions[i], req)
  {
    var rule, host := ing.rules[r], RuleHost(cfg, ing, r, i);
    if !(AsksRedirect(cfg, ing, rule) && i > 0) {
      forall k | 0 <= k < |rule.paths| ensures RouteMatches(host.routes[k], req) == PathMatches(rule.paths[k], req) {
        RouteMatchesPath(host.routes[k], rule.paths[k], req);
      }
      FirstRouteIsFirstPath(host.routes, rule.paths, req, 0);
      var hit := FirstPath(rule.paths, req, 0);
      if hit.Some? {
        assert AdmittedRule(rule);
        BackendsReadBack(rule.paths[hit.value], cfg.regions[i]);
      }
    }
  }

  // ---- Aggregating the installed ingresses ----

  const STATUS_DOMAIN := "internalkourier"

  const STATUS_CLUSTER := "service_stats"

  /** The readiness host appended to every internal route configuration. */
  function StatusHost(): VirtualHost {
    VirtualHost(STATUS_DOMAIN, [STATUS_DOMAIN],
                [Route("gateway_ready", "/ready", map[], Forward([ClusterWeight(STATUS_CLUSTER, 100, map[])], None), map[])])
  }

  function Gather(order: seq<Name>, hosts: map<Name, seq<VirtualHost>>): seq<VirtualHost> {
    if order == [] then []
    else
      var n := order[|order| - 1];
      Gather(order[..|order| - 1], hosts) + (if n in hosts then hosts[n] else [])
  }

  predicate ShareHost(a: Ingress, b: Ingress) {
    exists r, s | 0 <= r < |a.rules| && 0 <= s < |b.rules| :: Common(a.rules[r].hosts, b.rules[s].hosts)
  }

  /** A consistent set of installed ingresses: admitted, filed under their own names, no host in two of them. */
  predicate Consistent(specs: map<Name, Ingress>) {
    && (forall n | n in specs :: Admitted(specs[n]) && specs[n].name == n)
    && (forall m, n | m in specs && n in specs && m != n :: !ShareHost(specs[m], specs[n]))
  }

  function HostsPerName(cfg: Settings, specs: map<Name, Ingress>, i: nat): map<Name, seq<VirtualHost>>
    requires i < |cfg.regions|
  {
    map n | n in specs :: InternalHosts(cfg, specs[n], |specs[n].rules|, i)
  }

  predicate Serves(ing: Ingress, authority: string) {
    FirstRule(ing.rules, authority).Some?
  }

  /** An authority is served by at most one installed ingress. */
  lemma AuthorityHasOneIngress(specs: map<Name, Ingress>, m: Name, n: Name, authority: string)
    requires Consistent(specs) && m in specs && n in specs
    requires Serves(specs[m], authority) && Serves(specs[n], authority)
    ensures m == n
  {
    var r, s := FirstRule(specs[m].rules, authority).value, FirstRule(specs[n].rules, authority).value;
    var a, b := specs[m].rules[r], specs[n].rules[s];
    var h :| h in a.hosts && HostMatches(h, authority);
    var g :| g in b.hosts && HostMatches(g, authority);
    assert AdmittedRule(a) && AdmittedRule(b);
    AuthorityHasOneHost(h, g, authority);
    assert Common(a.hosts, b.hosts);
  }

  /** Gathering in any order finds exactly the serving ingress's first rule. */
  lemma {:induction false} GatherFinds(cfg: Settings, specs: map<Name, Ingress>, order: seq<Name>, i: nat, authority: string)
    requires Consistent(specs) && i < |cfg.regions|
    ensures var found := FirstHost(Gather(order, HostsPerName(cfg, specs, i)), authority);
      && (forall n | n in order && n in specs && Serves(specs[n], authority) ::
            found == Some(RuleHost(cfg, specs[n], FirstRule(specs[n].rules, authority).value, i)))
      && ((forall n | n in order && n in specs :: !Serves(specs[n], authority)) ==> found.None?)
  {
    if order != [] {
      var hosts := HostsPerName(cfg, specs, i);
      var init, last := order[..|order| - 1], order[|order| - 1];
      assert order == init + [last];
      GatherFinds(cfg, specs, init, i, authority);
      if last in specs {
        FirstHostConcat(Gather(init, hosts), hosts[last], authority);
        assert specs[last].rules[..|specs[last].rules|] == specs[last].rules;
        FirstHostIsFirstRule(cfg, specs[last], |specs[last].rules|, i, authority);
        if Serves(specs[last], authority) {
          forall n | n in order && n in specs && Serves(specs[n], authority) ensures n == last {
            AuthorityHasOneIngress(specs, n, last, authority);
          }
        }
      } else {
        assert Gather(order, hosts) == Gather(init, hosts);
      }
    }
  }

  lemma {:induction false} GatherEven(cfg: Settings, specs: map<Name, Ingress>, order: seq<Name>, i: nat, authority: string)
    requires Consistent(specs) && i < |cfg.regions|
    ensures EvenRanks(Gather(order, HostsPerName(cfg, specs, i)), authority)
  {
    if order != [] {
      GatherEven(cfg, specs, order[..|order| - 1], i, authority);
      var n := order[|order| - 1];
      if n in specs {
        forall r | 0 <= r < |specs[n].rules| ensures HostRank(RuleHost(cfg, specs[n], r, i).domains, authority) in {0, AuthorityRank(authority)} {
          RuleHostRank(cfg, specs[n], r, i, authority);
        }
      }
    }
  }

  /** One region's internal route configuration, gathered in `order`. */
  function InternalConfig(cfg: Settings, specs: map<Name, Ingress>, order: seq<Name>, i: nat): seq<VirtualHost>
    requires i < |cfg.regions|
  {
    Gather(order, HostsPerName(cfg, specs, i)) + [StatusHost()]
  }

  ghost predicate Enumerates(order: seq<Name>, specs: map<Name, Ingress>) {
    forall n :: n in order <==> n in specs
  }

  /** A rule whose redirect only exists in region 0 while the request is in another region. */
  predicate LostRedirect(cfg: Settings, ing: Ingress, i: nat, authority: string) {
    && i > 0
    && var r := FirstRule(ing.rules, authority); r.Some? && AsksRedirect(cfg, ing, ing.rules[r.value])
  }

  lemma StatusRank(authority: string)
    ensures HostRank(StatusHost().domains, authority) == if authority == STATUS_DOMAIN then AuthorityRank(authority) else 0
  {
    assert StatusHost().domains[..0] == [];
    assert STATUS_DOMAIN[|STATUS_DOMAIN| - 1] != '*';
    assert ':' !in STATUS_DOMAIN;
  }

  /** Envoy picks the first host of the configuration that matches. */
  lemma ConfigPicksFirst(cfg: Settings, specs: map<Name, Ingress>, order: seq<Name>, i: nat, authority: string)
    requires Consistent(specs) && i < |cfg.regions|
    ensures BestHost(InternalConfig(cfg, specs, order, i), authority) ==
      var found := FirstHost(Gather(order, HostsPerName(cfg, specs, i)), authority);
      if found.Some? then found else if authority == STATUS_DOMAIN then Some(StatusHost()) else None
  {
    var gathered := Gather(order, HostsPerName(cfg, specs, i));
    GatherEven(cfg, specs, order, i, authority);
    StatusRank(authority);
    var config := InternalConfig(cfg, specs, order, i);
    forall k | 0 <= k < |config| ensures HostRank(config[k].domains, authority) in {0, AuthorityRank(authority)} {
      if k < |gathered| {
        assert config[k] == gathered[k];
      }
    }
    BestIsFirst(config, authority);
    FirstHostConcat(gathered, [StatusHost()], authority);
    assert [StatusHost()][..0] == [];
  }

  /**
    Meaning preservation: whatever order the installed map is ranged over, a region's internal
    route configuration answers every request as the installed ingress that serves it asks.
    The one exception, stated exactly, is a redirect requested outside region 0.
   */
  lemma ConfigMeansSpecs(cfg: Settings, specs: map<Name, Ingress>, order: seq<Name>, i: nat, req: Request, n: Name)
    requires Consistent(specs) && ValidRegions(cfg.regions) && i < |cfg.regions| && Enumerates(order, specs)
    requires n in specs && Serves(specs[n], req.authority)
    ensures var answer, asked := ConfigAnswer(InternalConfig(cfg, specs, order, i), req), SpecAnswer(cfg, specs[n], cfg.regions[i], req);
      && (!LostRedirect(cfg, specs[n], i, req.authority) ==> answer == asked)
      && (LostRedirect(cfg, specs[n], i, req.authority) ==> answer.NoRoute?)
      && (answer == asked <==> !LostRedirect(cfg, specs[n], i, req.authority) || asked.NoRoute?)
  {
    ConfigPicksFirst(cfg, specs, order, i, req.authority);
    GatherFinds(cfg, specs, order, i, req.authority);
    RuleHostAnswer(cfg, specs[n], FirstRule(specs[n].rules, req.authority).value, i, req);
  }

  /** What a request no ingress serves gets: the readiness route under the readiness domain, otherwise nothing. */
  function UnservedAnswer(req: Request): Answer {
    if req.authority != "internalkourier" then NoHost
    else if "/ready" <= req.path then Forwarded("internalkourier", 0, [None], None, map[])
    else NoRoute("internalkourier")
  }

  lemma NoSlashNoBackend(w: ClusterWeight)
    requires '/' !in w.name
    ensures ReadBackend(w) == None
  {
    SplitWhole(w.name, '/');
  }

  lemma OneRouteAnswer(name: string, domains: seq<string>, route: Route, w: ClusterWeight, req: Request)
    requires route.matchers == map[] && route.action == Forward([w], None) && '/' !in w.name
    ensures HostAnswer(VirtualHost(name, domains, [route]), req)
         == if route.prefix <= req.path then Forwarded(name, 0, [None], None, route.addHeaders) else NoRoute(name)
  {
    NoSlashNoBackend(w);
    assert FirstRoute([route], req, 1) == None;
    assert RouteMatches(route, req) <==> route.prefix <= req.path;
  }

  lemma StatusAnswer(req: Request)
    requires req.authority == STATUS_DOMAIN
    ensures HostAnswer(StatusHost(), req) == UnservedAnswer(req)
  {
    var w := ClusterWeight(STATUS_CLUSTER, 100, map[]);
    OneRouteAnswer(STATUS_DOMAIN, [STATUS_DOMAIN], Route("gateway_ready", "/ready", map[], Forward([w], None), map[]), w, req);
  }

  /** A request no installed ingress serves reaches the readiness host or nothing. */
  lemma ConfigServesNothingElse(cfg: Settings, specs: map<Name, Ingress>, order: seq<Name>, i: nat, req: Request)
    requires Consistent(specs) && i < |cfg.regions| && Enumerates(order, specs)
    requires forall n | n in specs :: !Serves(specs[n], req.authority)
    ensures ConfigAnswer(InternalConfig(cfg, specs, order, i), req) == UnservedAnswer(req)
  {
    ConfigPicksFirst(cfg, specs, order, i, req.authority);
    GatherFinds(cfg, specs, order, i, req.authority);
    if req.authority == STATUS_DOMAIN {
      StatusAnswer(req);
    }
  }

  // ---- Rule names ----

  lemma CutAt(a: string, sep: char, x: string, b: string, y: string)
    requires sep !in a && sep !in b && a + [sep] + x == b + [sep] + y
    ensures a == b && x == y
  {
    BeforeIs(a, sep, a + [sep] + x);
    BeforeIs(b, sep, b + [sep] + y);
    assert (a + [sep] + x)[|a| + 1..] == x && (b + [sep] + y)[|b| + 1..] == y;
  }

  lemma DigitTail(a: string, d: string, k: nat)
    requires (forall c | c in d :: IsDigit(c)) && |a| <= k < |a + d|
    ensures IsDigit((a + d)[k])
  {
    assert (a + d)[k] == d[k - |a|] && d[k - |a|] in d;
  }

  /** A text that ends in digits after a non-digit can be cut there in one way only. */
  lemma CutDigits(a: string, d: string, b: string, e: string)
    requires a != "" && b != "" && !IsDigit(a[|a| - 1]) && !IsDigit(b[|b| - 1])
    requires (forall c | c in d :: IsDigit(c)) && (forall c | c in e :: IsDigit(c)) && a + d == b + e
    ensures a == b && d == e
  {
    assert (a + d)[|a| - 1] == a[|a| - 1] && (b + e)[|b| - 1] == b[|b| - 1];
    forall k | |a| <= k < |a + d| ensures IsDigit((a + d)[k]) {
      DigitTail(a, d, k);
    }
    forall k | |b| <= k < |b + e| ensures IsDigit((b + e)[k]) {
      DigitTail(b, e, k);
    }
    assert |a| == |b|;
    assert (a + d)[..|a|] == a && (b + e)[..|b|] == b;
    assert (a + d)[|a|..] == d && (b + e)[|b|..] == e;
  }

  /** No two rules, of one ingress or of two, are named alike. */
  lemma RuleLabelIsUnique(m: Name, q: nat, n: Name, r: nat)
    requires PlainName(m) && PlainName(n)
    ensures RuleLabel(m, q) == RuleLabel(n, r) <==> m == n && q == r
  {
    if RuleLabel(m, q) == RuleLabel(n, r) {
      var x, y := m.name + ").Rules[", n.name + ").Rules[";
      LabelParts(m, q);
      LabelParts(n, r);
      CutAt("(" + m.namespace, '/', x + Decimal(q) + "]", "(" + n.namespace, y + Decimal(r) + "]");
      DropLast(x + Decimal(q), y + Decimal(r), ']');
      SameTail(m, q, n, r);
      assert ("(" + m.namespace)[1..] == m.namespace && ("(" + n.namespace)[1..] == n.namespace;
    }
  }

  lemma LabelParts(n: Name, r: nat)
    ensures RuleLabel(n, r) == ("(" + n.namespace) + ['/'] + (n.name + ").Rules[" + Decimal(r) + "]")
  {
  }

  lemma SameTail(m: Name, q: nat, n: Name, r: nat)
    requires m.name + ").Rules[" + Decimal(q) == n.name + ").Rules[" + Decimal(r)
    ensures m.name == n.name && q == r
  {
    DecimalReadsBack(q);
    DecimalReadsBack(r);
    CutDigits(m.name + ").Rules[", Decimal(q), n.name + ").Rules[", Decimal(r));
    DropTail(m.name, n.name, ").Rules[");
  }

  lemma DropLast(a: string, b: string, c: char)
    requires a + [c] == b + [c]
    ensures a == b
  {
    assert (a + [c])[..|a|] == a && (b + [c])[..|b|] == b;
  }

  lemma DropTail(a: string, b: string, tail: string)
    requires a + tail == b + tail
    ensures a == b
  {
    assert |a| == |b| && (a + tail)[..|a|] == a && (b + tail)[..|b|] == b;
  }
}
