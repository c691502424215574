/** When an emitted route configuration repeats a domain, which Envoy refuses. */
module UniqueDomains {
  import opened Text
  import opened Kube
  import opened Envoy
  import opened Translator
  import opened Routing
  import opened Protocol
  import opened RunTheorems

  /** All domains of a route configuration, host by host. */
  function ConfigDomains(hosts: seq<VirtualHost>): seq<string> {
    if hosts == [] then [] else ConfigDomains(hosts[..|hosts| - 1]) + hosts[|hosts| - 1].domains
  }

  /** All hosts of an ingress, rule by rule. */
  function RuleHosts(rules: seq<Rule>): seq<string> {
    if rules == [] then [] else RuleHosts(rules[..|rules| - 1]) + rules[|rules| - 1].hosts
  }

  function AllHosts(order: seq<Name>, specs: map<Name, Ingress>): seq<string> {
    if order == [] then []
    else
      var n := order[|order| - 1];
      AllHosts(order[..|order| - 1], specs) + (if n in specs then RuleHosts(specs[n].rules) else [])
  }

  // ---- Up to case ----

  function LowerChar(c: char): char {
    if 'A' <= c <= 'Z' then (c as int + 32) as char else c
  }

  /** Envoy compares domains, and the authorities they are matched with, in lower case. */
  function Lower(s: string): string {
    seq(|s|, k requires 0 <= k < |s| => LowerChar(s[k]))
  }

  function LowerAll(hosts: seq<string>): seq<string> {
    seq(|hosts|, k requires 0 <= k < |hosts| => Lower(hosts[k]))
  }

  /** Capital letters become small ones, 32 further on; everything else stays. */
  lemma LowerFolds(s: string, k: nat)
    requires k < |s|
    ensures |Lower(s)| == |s|
    ensures Lower(s)[k] as int == s[k] as int + (if s[k] in "ABCDEFGHIJKLMNOPQRSTUVWXYZ" then 32 else 0)
  {
    var capitals := "ABCDEFGHIJKLMNOPQRSTUVWXYZ";
    assert forall j | 0 <= j < 26 :: capitals[j] as int == 'A' as int + j;
    if 'A' <= s[k] <= 'Z' {
      assert capitals[s[k] as int - 'A' as int] == s[k];
    }
  }

  lemma LowerConcat(a: seq<string>, b: seq<string>)
    ensures LowerAll(a + b) == LowerAll(a) + LowerAll(b)
  {
  }

  lemma LowerWildcard(h: string)
    ensures Lower(h + ":*") == Lower(h) + ":*"
  {
  }

  lemma {:induction false} LowerDomains(hosts: seq<string>)
    ensures LowerAll(Domains(hosts)) == Domains(LowerAll(hosts))
  {
    if hosts != [] {
      var init, last := hosts[..|hosts| - 1], hosts[|hosts| - 1];
      LowerDomains(init);
      LowerWildcard(last);
      LowerConcat(Domains(init), [last, last + ":*"]);
      assert LowerAll(hosts)[..|hosts| - 1] == LowerAll(init);
      assert LowerAll([last, last + ":*"]) == [Lower(last), Lower(last) + ":*"];
    }
  }

  lemma LowerIsPlain(h: string)
    requires Plain(h)
    ensures Plain(Lower(h))
  {
    forall c | c in Lower(h) ensures c !in ":/_*" {
      var k :| 0 <= k < |h| && Lower(h)[k] == c;
      assert h[k] in h;
    }
  }

  /** No host occurs twice in the ingress, and none is the readiness domain, up to case. */
  predicate Tidy(ing: Ingress) {
    Distinct(LowerAll(RuleHosts(ing.rules))) && STATUS_DOMAIN !in LowerAll(RuleHosts(ing.rules))
  }

  /** No host of `a` is a host of `b`, up to case. */
  predicate Apart(a: Ingress, b: Ingress) {
    forall h | h in LowerAll(RuleHosts(a.rules)) :: h !in LowerAll(RuleHosts(b.rules))
  }

  // ---- Domains in order ----

  lemma {:induction false} ConfigConcat(a: seq<VirtualHost>, b: seq<VirtualHost>)
    ensures ConfigDomains(a + b) == ConfigDomains(a) + ConfigDomains(b)
  {
    if b == [] {
      assert a + b == a;
    } else {
      assert (a + b)[..|a + b| - 1] == a + b[..|b| - 1];
      ConfigConcat(a, b[..|b| - 1]);
    }
  }

  lemma {:induction false} DomainsConcat(a: seq<string>, b: seq<string>)
    ensures Domains(a + b) == Domains(a) + Domains(b)
  {
    if b == [] {
      assert a + b == a;
    } else {
      assert (a + b)[..|a + b| - 1] == a + b[..|b| - 1];
      DomainsConcat(a, b[..|b| - 1]);
    }
  }

  /** One ingress's virtual hosts list its hosts' domains, in order. */
  lemma {:induction false} InternalDomains(cfg: Settings, ing: Ingress, k: nat, i: nat)
    requires k <= |ing.rules| && i < |cfg.regions|
    ensures ConfigDomains(InternalHosts(cfg, ing, k, i)) == Domains(RuleHosts(ing.rules[..k]))
  {
    if k > 0 {
      InternalDomains(cfg, ing, k - 1, i);
      assert InternalHosts(cfg, ing, k, i)[..k - 1] == InternalHosts(cfg, ing, k - 1, i);
      assert ing.rules[..k][..k - 1] == ing.rules[..k - 1];
      DomainsConcat(RuleHosts(ing.rules[..k - 1]), ing.rules[k - 1].hosts);
    }
  }

  lemma {:induction false} GatheredDomains(cfg: Settings, specs: map<Name, Ingress>, order: seq<Name>, i: nat)
    requires i < |cfg.regions|
    ensures ConfigDomains(Gather(order, HostsPerName(cfg, specs, i))) == Domains(AllHosts(order, specs))
  {
    if order != [] {
      var hosts, init, n := HostsPerName(cfg, specs, i), order[..|order| - 1], order[|order| - 1];
      GatheredDomains(cfg, specs, init, i);
      if n in specs {
        ConfigConcat(Gather(init, hosts), hosts[n]);
        InternalDomains(cfg, specs[n], |specs[n].rules|, i);
        assert specs[n].rules[..|specs[n].rules|] == specs[n].rules;
        DomainsConcat(AllHosts(init, specs), RuleHosts(specs[n].rules));
      } else {
        assert Gather(order, hosts) == Gather(init, hosts);
        assert AllHosts(order, specs) == AllHosts(init, specs);
      }
    }
  }

  /** Plain hosts repeat a domain exactly when they repeat a host. */
  lemma {:induction false} DistinctDomainsIff(hosts: seq<string>)
    requires forall h | h in hosts :: Plain(h)
    ensures Distinct(Domains(hosts)) <==> Distinct(hosts)
  {
    if hosts != [] {
      var init, last := hosts[..|hosts| - 1], hosts[|hosts| - 1];
      assert hosts == init + [last];
      DistinctDomainsIff(init);
      DistinctConcat(init, [last]);
      var own := [last, last + ":*"];
      assert own[0] != own[1];
      DistinctConcat(Domains(init), own);
      assert (forall x | x in Domains(init) :: x !in own) <==> last !in init by {
        OnlyOwnDomains(init, last);
      }
    }
  }

  lemma OnlyOwnDomains(hosts: seq<string>, h: string)
    requires Plain(h) && forall g | g in hosts :: Plain(g)
    ensures h in hosts <==> exists d | d in Domains(hosts) :: d in [h, h + ":*"]
  {
    if h in hosts {
      DomainsOfHosts(hosts, h);
    }
    if d :| d in Domains(hosts) && d in [h, h + ":*"] {
      DomainsOfHosts(hosts, d);
      var g :| g in hosts && (d == g || d == g + ":*");
      DomainNamesOneHost(g, h, d);
    }
  }

  lemma {:induction false} RuleHostsMembers(rules: seq<Rule>, h: string)
    ensures h in RuleHosts(rules) <==> exists r | 0 <= r < |rules| :: h in rules[r].hosts
  {
    if rules != [] {
      var init := rules[..|rules| - 1];
      RuleHostsMembers(init, h);
      assert forall r | 0 <= r < |init| :: init[r] == rules[r];
    }
  }

  lemma {:induction false} AllHostsMembers(order: seq<Name>, specs: map<Name, Ingress>, h: string)
    ensures h in LowerAll(AllHosts(order, specs)) <==> exists n | n in order :: n in specs && h in LowerAll(RuleHosts(specs[n].rules))
  {
    if order != [] {
      var init, last := order[..|order| - 1], order[|order| - 1];
      assert order == init + [last];
      AllHostsMembers(init, specs, h);
      if last in specs {
        LowerConcat(AllHosts(init, specs), RuleHosts(specs[last].rules));
      } else {
        assert AllHosts(order, specs) == AllHosts(init, specs);
      }
    }
  }

  predicate AllAdmitted(specs: map<Name, Ingress>) {
    forall n | n in specs :: Admitted(specs[n])
  }

  lemma RuleHostsPlain(ing: Ingress, h: string)
    requires Admitted(ing) && h in RuleHosts(ing.rules)
    ensures Plain(h)
  {
    RuleHostsMembers(ing.rules, h);
    var r :| 0 <= r < |ing.rules| && h in ing.rules[r].hosts;
    assert AdmittedRule(ing.rules[r]);
  }

  lemma AllHostsPlain(order: seq<Name>, specs: map<Name, Ingress>)
    requires AllAdmitted(specs)
    ensures forall h | h in LowerAll(AllHosts(order, specs)) :: Plain(h)
  {
    forall h | h in LowerAll(AllHosts(order, specs)) ensures Plain(h) {
      AllHostsMembers(order, specs, h);
      var n :| n in order && n in specs && h in LowerAll(RuleHosts(specs[n].rules));
      var k :| 0 <= k < |RuleHosts(specs[n].rules)| && LowerAll(RuleHosts(specs[n].rules))[k] == h;
      RuleHostsPlain(specs[n], RuleHosts(specs[n].rules)[k]);
      LowerIsPlain(RuleHosts(specs[n].rules)[k]);
    }
  }

  /** The ingresses named in `order` are each tidy inside and apart from each other. */
  predicate DistinctInside(order: seq<Name>, specs: map<Name, Ingress>) {
    forall n | n in order && n in specs :: Distinct(LowerAll(RuleHosts(specs[n].rules)))
  }

  predicate PairwiseApart(order: seq<Name>, specs: map<Name, Ingress>) {
    forall m, n | m in order && n in order && m in specs && n in specs && m != n :: Apart(specs[m], specs[n])
  }

  lemma ApartBothWays(a: Ingress, b: Ingress)
    ensures Apart(a, b) <==> Apart(b, a)
  {
  }

  /** The last ingress is apart from all earlier ones exactly when none of its hosts is among theirs. */
  lemma LastApartIff(init: seq<Name>, last: Name, specs: map<Name, Ingress>)
    requires last in specs
    ensures (forall n | n in init && n in specs :: Apart(specs[n], specs[last]))
       <==> (forall h | h in LowerAll(AllHosts(init, specs)) :: h !in LowerAll(RuleHosts(specs[last].rules)))
  {
    var own := LowerAll(RuleHosts(specs[last].rules));
    if forall n | n in init && n in specs :: Apart(specs[n], specs[last]) {
      forall h | h in LowerAll(AllHosts(init, specs)) ensures h !in own {
        AllHostsMembers(init, specs, h);
      }
    }
    if forall h | h in LowerAll(AllHosts(init, specs)) :: h !in own {
      forall n, h | n in init && n in specs && h in LowerAll(RuleHosts(specs[n].rules)) ensures h !in own {
        AllHostsMembers(init, specs, h);
      }
    }
  }

  lemma OneMoreApart(init: seq<Name>, last: Name, specs: map<Name, Ingress>)
    requires last !in init && last in specs
    ensures PairwiseApart(init + [last], specs) <==>
      PairwiseApart(init, specs) && forall n | n in init && n in specs :: Apart(specs[n], specs[last])
  {
    var all := init + [last];
    assert last in all && forall n | n in init :: n in all;
    if PairwiseApart(init, specs) && forall n | n in init && n in specs :: Apart(specs[n], specs[last]) {
      forall m, n | m in all && n in all && m in specs && n in specs && m != n ensures Apart(specs[m], specs[n]) {
        if m == last {
          ApartBothWays(specs[n], specs[last]);
        }
      }
    }
  }

  lemma {:induction false} DistinctHostsIff(order: seq<Name>, specs: map<Name, Ingress>)
    requires Distinct(order)
    ensures Distinct(LowerAll(AllHosts(order, specs))) <==> DistinctInside(order, specs) && PairwiseApart(order, specs)
  {
    if order != [] {
      var init, last := order[..|order| - 1], order[|order| - 1];
      assert order == init + [last];
      DistinctConcat(init, [last]);
      DistinctHostsIff(init, specs);
      if last in specs {
        LowerConcat(AllHosts(init, specs), RuleHosts(specs[last].rules));
        DistinctConcat(LowerAll(AllHosts(init, specs)), LowerAll(RuleHosts(specs[last].rules)));
        LastApartIff(init, last, specs);
        OneMoreApart(init, last, specs);
      } else {
        assert AllHosts(order, specs) == AllHosts(init, specs);
      }
    }
  }

  /** Every installed ingress is tidy, and no two share a host up to case. */
  predicate Accepted(specs: map<Name, Ingress>) {
    (forall n | n in specs :: Tidy(specs[n])) && forall m, n | m in specs && n in specs && m != n :: Apart(specs[m], specs[n])
  }

  /**
    A region's internal configuration repeats no domain, so that Envoy accepts it, if and only if every
    installed ingress names each of its hosts once, none of them is the readiness domain, and no two
    ingresses share a host, all up to case.
   */
  lemma ConfigDomainsDistinctIff(cfg: Settings, specs: map<Name, Ingress>, order: seq<Name>, i: nat)
    requires AllAdmitted(specs) && Distinct(order) && Enumerates(order, specs) && i < |cfg.regions|
    ensures Distinct(LowerAll(ConfigDomains(InternalConfig(cfg, specs, order, i)))) <==> Accepted(specs)
  {
    var hosts := LowerAll(AllHosts(order, specs));
    LowerConfigDomains(cfg, specs, order, i);
    AllHostsPlain(order, specs);
    DistinctConcat(Domains(hosts), [STATUS_DOMAIN]);
    DistinctDomainsIff(hosts);
    StatusDomainIffHost(hosts);
    DistinctHostsIff(order, specs);
    AcceptedIff(specs, order);
  }

  lemma LowerConfigDomains(cfg: Settings, specs: map<Name, Ingress>, order: seq<Name>, i: nat)
    requires i < |cfg.regions|
    ensures LowerAll(ConfigDomains(InternalConfig(cfg, specs, order, i))) == Domains(LowerAll(AllHosts(order, specs))) + [STATUS_DOMAIN]
  {
    InternalConfigDomains(cfg, specs, order, i);
    LowerConcat(Domains(AllHosts(order, specs)), [STATUS_DOMAIN]);
    LowerDomains(AllHosts(order, specs));
    StatusIsLower();
  }

  lemma StatusIsLower()
    ensures LowerAll([STATUS_DOMAIN]) == [STATUS_DOMAIN]
  {
    assert forall k | 0 <= k < |STATUS_DOMAIN| :: LowerChar(STATUS_DOMAIN[k]) == STATUS_DOMAIN[k];
    assert Lower(STATUS_DOMAIN) == STATUS_DOMAIN;
  }

  /** What holds along an enumeration holds of the installed ingresses. */
  lemma AcceptedIff(specs: map<Name, Ingress>, order: seq<Name>)
    requires Enumerates(order, specs)
    ensures Accepted(specs) <==>
      DistinctInside(order, specs) && PairwiseApart(order, specs) && STATUS_DOMAIN !in LowerAll(AllHosts(order, specs))
  {
    AllHostsMembers(order, specs, STATUS_DOMAIN);
  }

  lemma InternalConfigDomains(cfg: Settings, specs: map<Name, Ingress>, order: seq<Name>, i: nat)
    requires i < |cfg.regions|
    ensures ConfigDomains(InternalConfig(cfg, specs, order, i)) == Domains(AllHosts(order, specs)) + [STATUS_DOMAIN]
  {
    GatheredDomains(cfg, specs, order, i);
    ConfigConcat(Gather(order, HostsPerName(cfg, specs, i)), [StatusHost()]);
    assert ConfigDomains([StatusHost()]) == [STATUS_DOMAIN] by {
      assert [StatusHost()][..0] == [] && ConfigDomains([StatusHost()][..0]) == [];
    }
  }

  lemma StatusDomainIffHost(hosts: seq<string>)
    ensures STATUS_DOMAIN in Domains(hosts) <==> STATUS_DOMAIN in hosts
  {
    DomainsOfHosts(hosts, STATUS_DOMAIN);
    assert ':' !in STATUS_DOMAIN;
    forall h | h in hosts ensures STATUS_DOMAIN != h + ":*" {
      assert (h + ":*")[|h|] == ':';
    }
  }

  /** The same for every snapshot of every run. */
  lemma {:induction false} SnapshotDomainsDistinctIff(cfg: Settings, run: seq<Label>, j: nat, i: nat)
    requires ValidRegions(cfg.regions) && j < |Run(cfg, run).taken| && i < |cfg.regions|
    ensures i < |Run(cfg, run).taken[j].snapshot.internal|
    ensures Distinct(LowerAll(ConfigDomains(Run(cfg, run).taken[j].snapshot.internal[i]))) <==> Accepted(SpecsAt(Run(cfg, run), j))
  {
    SnapshotIsAtomic(cfg, run, j, i);
    ConfigDomainsDistinctIff(cfg, SpecsAt(Run(cfg, run), j), Run(cfg, run).taken[j].look.order, i);
  }
}
