/** Collapsing SNI matches that share a certificate source, in place, on shared objects. */
module SniDedup {
  import opened Text
  import opened Kube

  /** An SNI match on the heap; cached translations keep pointing at it between snapshots. */
  class SNIMatch {
    var hosts: seq<string>
    const source: Name

    constructor (hosts: seq<string>, source: Name)
      ensures this.hosts == hosts && this.source == source
    {
      this.hosts, this.source := hosts, source;
    }
  }

  /** `dedupedSNIMatch`: the first match of a source, and its hosts as a set for fast lookup. */
  class Deduped {
    const sniMatch: SNIMatch
    var hosts: set<string>

    constructor (sniMatch: SNIMatch)
      ensures this.sniMatch == sniMatch && hosts == SetOf(sniMatch.hosts)
    {
      this.sniMatch := sniMatch;
      hosts := SetOf(sniMatch.hosts);
    }
  }

  function SetOf(s: seq<string>): set<string> {
    set x | x in s
  }

  /** `hosts` appended to `kept`, each new host once. */
  function Merge(kept: seq<string>, hosts: seq<string>): seq<string> {
    if hosts == [] then kept
    else
      var before, last := Merge(kept, hosts[..|hosts| - 1]), hosts[|hosts| - 1];
      if last in before then before else before + [last]
  }

  lemma {:induction false} MergeIsUnion(kept: seq<string>, hosts: seq<string>)
    ensures SetOf(Merge(kept, hosts)) == SetOf(kept) + SetOf(hosts) && kept <= Merge(kept, hosts)
  {
    if hosts != [] {
      var init, last := hosts[..|hosts| - 1], hosts[|hosts| - 1];
      MergeIsUnion(kept, init);
      assert hosts == init + [last];
      assert SetOf(hosts) == SetOf(init) + {last};
      var before := Merge(kept, init);
      assert last !in before ==> SetOf(before + [last]) == SetOf(before) + {last};
    }
  }

  /** `x` occurs in `hosts`, and no `y` before it. */
  predicate ComesFirst(hosts: seq<string>, x: string, y: string) {
    exists a | 0 <= a < |hosts| :: hosts[a] == x && y !in hosts[..a]
  }

  lemma FirstStaysFirst(init: seq<string>, last: string, x: string, y: string)
    requires ComesFirst(init, x, y)
    ensures ComesFirst(init + [last], x, y)
  {
    var a :| 0 <= a < |init| && init[a] == x && y !in init[..a];
    assert (init + [last])[..a] == init[..a] && (init + [last])[a] == x;
  }

  lemma OldBeforeNew(init: seq<string>, last: string, x: string)
    requires x in init && last !in init
    ensures ComesFirst(init + [last], x, last)
  {
    var a :| 0 <= a < |init| && init[a] == x;
    assert (init + [last])[..a] == init[..a] && (init + [last])[a] == x;
  }

  /** The part of the merged list behind the kept one. */
  function Added(kept: seq<string>, hosts: seq<string>): seq<string> {
    var all := Merge(kept, hosts);
    if |kept| <= |all| then all[|kept|..] else []
  }

  lemma AddedStep(kept: seq<string>, hosts: seq<string>)
    requires hosts != []
    ensures var init, last := hosts[..|hosts| - 1], hosts[|hosts| - 1];
      Added(kept, hosts) == if last in kept || last in init then Added(kept, init) else Added(kept, init) + [last]
  {
    var init, last := hosts[..|hosts| - 1], hosts[|hosts| - 1];
    MergeIsUnion(kept, init);
    assert last in Merge(kept, init) <==> last in SetOf(kept) + SetOf(init);
  }

  lemma {:induction false} AddedMembers(kept: seq<string>, hosts: seq<string>, x: string)
    ensures x in Added(kept, hosts) <==> x in hosts && x !in kept
  {
    if hosts == [] {
      assert Added(kept, hosts) == [];
    } else {
      var init, last := hosts[..|hosts| - 1], hosts[|hosts| - 1];
      assert hosts == init + [last];
      AddedMembers(kept, init, x);
      AddedStep(kept, hosts);
    }
  }

  lemma {:induction false} AddedDistinct(kept: seq<string>, hosts: seq<string>)
    ensures Distinct(Added(kept, hosts))
  {
    if hosts == [] {
      assert Added(kept, hosts) == [];
    } else {
      var init, last := hosts[..|hosts| - 1], hosts[|hosts| - 1];
      AddedDistinct(kept, init);
      AddedStep(kept, hosts);
      AddedMembers(kept, init, last);
      if last !in Added(kept, init) {
        DistinctAppend(Added(kept, init), last);
      }
    }
  }

  lemma {:induction false} AddedInOrder(kept: seq<string>, hosts: seq<string>, i: nat, j: nat)
    requires i < j < |Added(kept, hosts)|
    ensures ComesFirst(hosts, Added(kept, hosts)[i], Added(kept, hosts)[j])
  {
    assert hosts != [];
    var init, last := hosts[..|hosts| - 1], hosts[|hosts| - 1];
    var before := Added(kept, init);
    assert hosts == init + [last];
    AddedStep(kept, hosts);
    if j < |before| {
      AddedInOrder(kept, init, i, j);
      FirstStaysFirst(init, last, before[i], before[j]);
    } else {
      assert before[i] in before;
      AddedMembers(kept, init, before[i]);
      OldBeforeNew(init, last, before[i]);
    }
  }

  /** Behind the kept hosts comes every missing host, once, in the order of first occurrence. */
  lemma {:induction false} MergeAppendsMissing(kept: seq<string>, hosts: seq<string>)
    ensures Merge(kept, hosts) == kept + Added(kept, hosts)
    ensures Distinct(Added(kept, hosts)) && forall x :: x in Added(kept, hosts) <==> x in hosts && x !in kept
    ensures forall i, j | 0 <= i < j < |Added(kept, hosts)| :: ComesFirst(hosts, Added(kept, hosts)[i], Added(kept, hosts)[j])
  {
    MergeIsUnion(kept, hosts);
    AddedDistinct(kept, hosts);
    forall x ensures x in Added(kept, hosts) <==> x in hosts && x !in kept {
      AddedMembers(kept, hosts, x);
    }
    forall i, j | 0 <= i < j < |Added(kept, hosts)| ensures ComesFirst(hosts, Added(kept, hosts)[i], Added(kept, hosts)[j]) {
      AddedInOrder(kept, hosts, i, j);
    }
  }

  /** A list without repetitions stays one. */
  lemma MergeStaysDistinct(kept: seq<string>, hosts: seq<string>)
    requires Distinct(kept)
    ensures Distinct(Merge(kept, hosts))
  {
    MergeAppendsMissing(kept, hosts);
    DistinctConcat(kept, Added(kept, hosts));
  }

  /** Merging hosts that are all present changes nothing. */
  lemma {:induction false} MergeOfPresent(kept: seq<string>, hosts: seq<string>)
    requires forall h | h in hosts :: h in kept
    ensures Merge(kept, hosts) == kept
  {
    if hosts != [] {
      MergeOfPresent(kept, hosts[..|hosts| - 1]);
      assert hosts[|hosts| - 1] in hosts;
    }
  }

  // ---- Host lists on the heap ----

  type HostLists = map<SNIMatch, seq<string>>

  ghost function ListsOf(ms: seq<SNIMatch>): HostLists
    reads ms
  {
    map o | o in ms :: o.hosts
  }

  ghost predicate Covers(lists: HostLists, ms: seq<SNIMatch>) {
    forall o | o in ms :: o in lists
  }

  ghost function UnionOf(ms: seq<SNIMatch>, lists: HostLists, source: Name): set<string>
    requires Covers(lists, ms)
  {
    set o, h | o in ms && o.source == source && h in lists[o] :: h
  }

  /** The hosts of every match in `ms` with the given certificate source. */
  ghost function HostsOf(ms: seq<SNIMatch>, source: Name): set<string>
    reads ms
  {
    UnionOf(ms, ListsOf(ms), source)
  }

  ghost function Sources(ms: seq<SNIMatch>): set<Name> {
    set o | o in ms :: o.source
  }

  /** `o` is the first match of its source in `ms`. */
  ghost predicate Leads(ms: seq<SNIMatch>, o: SNIMatch) {
    exists k | 0 <= k < |ms| :: ms[k] == o && forall j | 0 <= j < k :: ms[j].source != o.source
  }

  lemma LeaderIsUnique(ms: seq<SNIMatch>, a: SNIMatch, b: SNIMatch)
    requires Leads(ms, a) && Leads(ms, b) && a.source == b.source
    ensures a == b
  {
  }

  lemma LeadsStep(done: seq<SNIMatch>, m: SNIMatch, o: SNIMatch)
    ensures Leads(done + [m], o) <==> Leads(done, o) || (o == m && m.source !in Sources(done))
  {
    var all := done + [m];
    if Leads(all, o) {
      var k :| 0 <= k < |all| && all[k] == o && forall j | 0 <= j < k :: all[j].source != o.source;
      assert forall j | 0 <= j < |done| :: all[j] == done[j];
    }
    if Leads(done, o) {
      var k :| 0 <= k < |done| && done[k] == o && forall j | 0 <= j < k :: done[j].source != o.source;
      assert all[k] == o && forall j | 0 <= j < k :: all[j] == done[j];
    }
    if o == m && m.source !in Sources(done) {
      assert all[|done|] == m && forall j | 0 <= j < |done| :: all[j] == done[j] && done[j] in done;
    }
  }

  /** The first match's list of a source, with every later match of the source merged into it. */
  ghost function Collapsed(done: seq<SNIMatch>, lists: HostLists, source: Name): seq<string>
    requires Covers(lists, done)
  {
    if done == [] then []
    else
      var init, last := done[..|done| - 1], done[|done| - 1];
      if last.source != source then Collapsed(init, lists, source)
      else if source !in Sources(init) then lists[last]
      else Merge(Collapsed(init, lists, source), lists[last])
  }

  lemma CollapsedStep(done: seq<SNIMatch>, lists: HostLists, m: SNIMatch, source: Name)
    requires Covers(lists, done + [m]) && Covers(lists, done)
    ensures Collapsed(done + [m], lists, source) ==
      if m.source != source then Collapsed(done, lists, source)
      else if source !in Sources(done) then lists[m]
      else Merge(Collapsed(done, lists, source), lists[m])
  {
    assert (done + [m])[..|done|] == done;
  }

  lemma {:induction false} CollapsedUnion(done: seq<SNIMatch>, lists: HostLists, source: Name)
    requires Covers(lists, done)
    ensures SetOf(Collapsed(done, lists, source)) == UnionOf(done, lists, source)
  {
    if done != [] {
      var init, last := done[..|done| - 1], done[|done| - 1];
      assert done == init + [last];
      CollapsedUnion(init, lists, source);
      UnionStep(init, lists, last, source);
      if last.source == source {
        if source in Sources(init) {
          MergeIsUnion(Collapsed(init, lists, source), lists[last]);
        } else {
          assert UnionOf(init, lists, source) == {};
        }
      }
    }
  }

  lemma UnionStep(done: seq<SNIMatch>, lists: HostLists, m: SNIMatch, source: Name)
    requires Covers(lists, done + [m]) && Covers(lists, done)
    ensures UnionOf(done + [m], lists, source) == UnionOf(done, lists, source) + (if m.source == source then SetOf(lists[m]) else {})
  {
  }

  lemma CollapsedHasAll(done: seq<SNIMatch>, lists: HostLists, o: SNIMatch)
    requires Covers(lists, done) && o in done
    ensures forall h | h in lists[o] :: h in Collapsed(done, lists, o.source)
  {
    CollapsedUnion(done, lists, o.source);
    forall h | h in lists[o] ensures h in Collapsed(done, lists, o.source) {
      assert h in UnionOf(done, lists, o.source);
      assert h in SetOf(Collapsed(done, lists, o.source));
    }
  }

  /** The host lists after folding `done`, from the lists before: only the first match of each source has changed. */
  ghost function After(ms: seq<SNIMatch>, lists: HostLists, done: seq<SNIMatch>): HostLists
    requires Covers(lists, ms) && Covers(lists, done)
  {
    map o | o in ms :: if Leads(done, o) then Collapsed(done, lists, o.source) else lists[o]
  }

  lemma LeaderIsMember(done: seq<SNIMatch>, o: SNIMatch)
    requires Leads(done, o)
    ensures o in done && o.source in Sources(done)
  {
  }

  /** Consuming a first match changes nothing. */
  lemma AfterNew(ms: seq<SNIMatch>, lists: HostLists, done: seq<SNIMatch>, m: SNIMatch)
    requires Covers(lists, ms) && Covers(lists, done) && m in ms && m.source !in Sources(done)
    ensures After(ms, lists, done + [m]) == After(ms, lists, done)
  {
    forall o | o in ms ensures After(ms, lists, done + [m])[o] == After(ms, lists, done)[o] {
      LeadsStep(done, m, o);
      CollapsedStep(done, lists, m, o.source);
      if Leads(done, o) {
        LeaderIsMember(done, o);
      }
    }
  }

  /** Consuming a later match merges its hosts into the first match of its source. */
  lemma AfterMore(ms: seq<SNIMatch>, lists: HostLists, done: seq<SNIMatch>, m: SNIMatch, first: SNIMatch)
    requires Covers(lists, ms) && Covers(lists, done) && m in ms && first in ms && first.source == m.source && Leads(done, first)
    ensures var before := After(ms, lists, done); After(ms, lists, done + [m]) == before[first := Merge(before[first], before[m])]
  {
    var before := After(ms, lists, done);
    LeaderIsMember(done, first);
    MergedAlike(ms, lists, done, m, first);
    forall o | o in ms ensures After(ms, lists, done + [m])[o] == if o == first then Merge(before[first], before[m]) else before[o] {
      LeadsStep(done, m, o);
      CollapsedStep(done, lists, m, o.source);
      if Leads(done, o) && o.source == m.source {
        LeaderIsUnique(done, o, first);
      }
    }
  }

  /** It makes no difference whether the match has already been changed by the fold. */
  lemma MergedAlike(ms: seq<SNIMatch>, lists: HostLists, done: seq<SNIMatch>, m: SNIMatch, first: SNIMatch)
    requires Covers(lists, ms) && Covers(lists, done) && m in ms && first in ms && first.source == m.source && Leads(done, first)
    ensures var kept := Collapsed(done, lists, m.source); Merge(kept, After(ms, lists, done)[m]) == Merge(kept, lists[m])
  {
    var kept := Collapsed(done, lists, m.source);
    if Leads(done, m) {
      LeaderIsMember(done, m);
      CollapsedHasAll(done, lists, m);
      MergeOfPresent(kept, kept);
      MergeOfPresent(kept, lists[m]);
    }
  }

  class SniMatches {
    var states: map<Name, Deduped>

    constructor ()
      ensures states == map[] && Valid()
    {
      states := map[];
    }

    /** One entry per source, and every lookup set equals its match's host list. */
    ghost predicate Valid()
      reads this, states.Values, set d | d in states.Values :: d.sniMatch
    {
      forall s | s in states :: states[s].sniMatch.source == s && states[s].hosts == SetOf(states[s].sniMatch.hosts)
    }

    /** What consuming a match of this source may change. */
    ghost function Footprint(source: Name): set<object>
      reads this
    {
      if source in states then {this, states[source], states[source].sniMatch} else {this}
    }

    /** `consume`. */
    method Consume(m: SNIMatch)
      requires Valid()
      modifies Footprint(m.source)
      ensures Valid()
      ensures m.source in old(states) ==>
        states == old(states) && states[m.source].sniMatch.hosts == Merge(old(states[m.source].sniMatch.hosts), old(m.hosts))
      ensures m.source in old(states) && (forall h | h in old(m.hosts) :: h in old(states[m.source].sniMatch.hosts)) ==>
        states[m.source].sniMatch.hosts == old(states[m.source].sniMatch.hosts)
      ensures m.source in old(states) && Distinct(old(states[m.source].sniMatch.hosts)) ==> Distinct(states[m.source].sniMatch.hosts)
      ensures m.source !in old(states) ==>
        && m.source in states && fresh(states[m.source]) && states == old(states)[m.source := states[m.source]]
        && states[m.source].sniMatch == m && m.hosts == old(m.hosts)
    {
      if m.source !in states {
        var state := new Deduped(m);
        states := states[m.source := state];
        return;
      }
      var state, todo := states[m.source], m.hosts;
      ghost var kept := state.sniMatch.hosts;
      for k := 0 to |todo|
        invariant states == old(states) && state == states[m.source]
        invariant state.sniMatch.hosts == Merge(kept, todo[..k]) && state.hosts == SetOf(state.sniMatch.hosts)
        invariant forall s | s in states && s != m.source ::
          states[s].sniMatch.source == s && states[s].hosts == SetOf(states[s].sniMatch.hosts)
      {
        assert todo[..k + 1][..k] == todo[..k];
        var host := todo[k];
        if host !in state.hosts {
          state.sniMatch.hosts := state.sniMatch.hosts + [host];
          state.hosts := state.hosts + {host};
        }
      }
      assert todo[..|todo|] == todo;
      ConsumedList(kept, todo);
    }
  }

  lemma ConsumedList(kept: seq<string>, hosts: seq<string>)
    ensures (forall h | h in hosts :: h in kept) ==> Merge(kept, hosts) == kept
    ensures Distinct(kept) ==> Distinct(Merge(kept, hosts))
  {
    if forall h | h in hosts :: h in kept {
      MergeOfPresent(kept, hosts);
    }
    if Distinct(kept) {
      MergeStaysDistinct(kept, hosts);
    }
  }

  /** The collection after folding `done`, a prefix of `ms` that started with the host lists `lists`. */
  ghost predicate Folded(snis: SniMatches, ms: seq<SNIMatch>, lists: HostLists, done: seq<SNIMatch>)
    reads snis, snis.states.Values, set d | d in snis.states.Values :: d.sniMatch
    reads ms
  {
    && snis.Valid() && snis.states.Keys == Sources(done) && Covers(lists, ms) && Covers(lists, done)
    && (forall s | s in snis.states :: snis.states[s].sniMatch in ms && Leads(done, snis.states[s].sniMatch))
    && ListsOf(ms) == After(ms, lists, done)
  }

  lemma SourcesStep(done: seq<SNIMatch>, m: SNIMatch)
    ensures Sources(done + [m]) == Sources(done) + {m.source}
  {
  }

  /** Consuming the first match of a source. */
  method ConsumeFirst(snis: SniMatches, ms: seq<SNIMatch>, ghost lists: HostLists, ghost done: seq<SNIMatch>, m: SNIMatch)
    requires Folded(snis, ms, lists, done) && m in ms && m.source !in snis.states
    modifies snis
    ensures Folded(snis, ms, lists, done + [m])
    ensures m.source in snis.states && fresh(snis.states[m.source]) && snis.states == old(snis.states)[m.source := snis.states[m.source]]
  {
    ghost var before := ListsOf(ms);
    SourcesStep(done, m);
    AfterNew(ms, lists, done, m);
    snis.Consume(m);
    assert ListsOf(ms) == before;
    forall s | s in snis.states ensures Leads(done + [m], snis.states[s].sniMatch) {
      LeadsStep(done, m, snis.states[s].sniMatch);
    }
  }

  /** What consuming a further match does to the host lists of all matches. */
  method ConsumeInto(snis: SniMatches, ms: seq<SNIMatch>, m: SNIMatch)
    requires snis.Valid() && m in ms && m.source in snis.states && snis.states[m.source].sniMatch in ms
    modifies snis.Footprint(m.source)
    ensures snis.Valid() && snis.states == old(snis.states)
    ensures var first := snis.states[m.source].sniMatch;
      ListsOf(ms) == old(ListsOf(ms))[first := Merge(old(ListsOf(ms))[first], old(ListsOf(ms))[m])]
  {
    ghost var first := snis.states[m.source].sniMatch;
    snis.Consume(m);
  }

  /** Consuming a further match of a source. */
  method ConsumeFurther(snis: SniMatches, ms: seq<SNIMatch>, ghost lists: HostLists, ghost done: seq<SNIMatch>, m: SNIMatch)
    requires Folded(snis, ms, lists, done) && m in ms && m.source in snis.states
    modifies snis.Footprint(m.source)
    ensures Folded(snis, ms, lists, done + [m]) && snis.states == old(snis.states)
  {
    SourcesStep(done, m);
    AfterMore(ms, lists, done, m, snis.states[m.source].sniMatch);
    forall s | s in snis.states ensures Leads(done + [m], snis.states[s].sniMatch) {
      LeadsStep(done, m, snis.states[s].sniMatch);
    }
    ConsumeInto(snis, ms, m);
  }

  /** Consuming one more match; `own` are the entries the collection has created so far. */
  method ConsumeNext(snis: SniMatches, ms: seq<SNIMatch>, ghost lists: HostLists, ghost done: seq<SNIMatch>, m: SNIMatch,
                     ghost own: set<Deduped>)
    returns (ghost grown: set<Deduped>)
    requires Folded(snis, ms, lists, done) && m in ms && Owns(snis, own)
    modifies snis, own, ms
    ensures Folded(snis, ms, lists, done + [m])
    ensures own <= grown && fresh(grown - own) && Owns(snis, grown)
  {
    if m.source in snis.states {
      ConsumeFurther(snis, ms, lists, done, m);
      grown := own;
    } else {
      ConsumeFirst(snis, ms, lists, done, m);
      grown := own + {snis.states[m.source]};
    }
  }

  ghost predicate Owns(snis: SniMatches, own: set<Deduped>)
    reads snis
  {
    forall s | s in snis.states :: snis.states[s] in own
  }

  /** The loop over all matches. */
  method FoldAll(ms: seq<SNIMatch>) returns (snis: SniMatches)
    modifies ms
    ensures fresh(snis) && Folded(snis, ms, old(ListsOf(ms)), ms)
  {
    snis := new SniMatches();
    ghost var lists, own: set<Deduped> := ListsOf(ms), {};
    assert After(ms, lists, []) == lists;
    for i := 0 to |ms|
      invariant fresh(snis) && fresh(own) && Owns(snis, own)
      invariant Folded(snis, ms, lists, ms[..i])
    {
      PrefixStep(ms, i);
      own := ConsumeNext(snis, ms, lists, ms[..i], ms[i], own);
    }
    assert ms[..|ms|] == ms;
  }

  lemma PrefixStep<T>(s: seq<T>, i: nat)
    requires i < |s|
    ensures s[..i + 1] == s[..i] + [s[i]] && s[i] in s
  {
  }

  /**
    Folding any list of matches, in any order and with any sharing, yields one entry per source: its
    first match, which now has the union of that source's hosts. No other match is touched.
   */
  method ConsumeAll(ms: seq<SNIMatch>) returns (snis: SniMatches)
    modifies ms
    ensures fresh(snis) && snis.Valid()
    ensures snis.states.Keys == Sources(ms)
    ensures forall s | s in snis.states :: snis.states[s].sniMatch in ms && Leads(ms, snis.states[s].sniMatch)
    ensures forall s | s in snis.states :: SetOf(snis.states[s].sniMatch.hosts) == old(HostsOf(ms, s))
    ensures ListsOf(ms) == After(ms, old(ListsOf(ms)), ms)
  {
    ghost var lists := ListsOf(ms);
    snis := FoldAll(ms);
    forall s | s in snis.states ensures SetOf(snis.states[s].sniMatch.hosts) == UnionOf(ms, lists, s) {
      assert ListsOf(ms)[snis.states[s].sniMatch] == snis.states[s].sniMatch.hosts;
      LeaderHasUnion(ms, lists, snis.states[s].sniMatch);
    }
  }

  lemma LeaderHasUnion(ms: seq<SNIMatch>, lists: HostLists, o: SNIMatch)
    requires Covers(lists, ms) && o in ms && Leads(ms, o)
    ensures SetOf(After(ms, lists, ms)[o]) == UnionOf(ms, lists, o.source)
  {
    CollapsedUnion(ms, lists, o.source);
  }

  /** The first match of `source` in `ms` is among `rest`. */
  ghost predicate LeaderSurvives(ms: seq<SNIMatch>, rest: seq<SNIMatch>, source: Name) {
    exists o | o in rest :: o.source == source && Leads(ms, o)
  }

  /** Folding survivors: with the first match of a source all hosts of the source come back. */
  lemma SurvivingUnion(ms: seq<SNIMatch>, lists: HostLists, rest: seq<SNIMatch>, source: Name)
    requires Covers(lists, ms) && forall o | o in rest :: o in ms
    ensures Covers(After(ms, lists, ms), rest)
    ensures UnionOf(rest, After(ms, lists, ms), source)
         == if LeaderSurvives(ms, rest, source) then UnionOf(ms, lists, source) else UnionOf(rest, lists, source)
  {
    var after := After(ms, lists, ms);
    CollapsedUnion(ms, lists, source);
    if LeaderSurvives(ms, rest, source) {
      var o :| o in rest && o.source == source && Leads(ms, o);
      assert SetOf(after[o]) == UnionOf(ms, lists, source);
      forall x | x in rest && x.source == source ensures SetOf(after[x]) <= UnionOf(ms, lists, source) {
      }
      forall h ensures h in UnionOf(rest, after, source) <==> h in UnionOf(ms, lists, source) {
        if h in UnionOf(rest, after, source) {
          var x :| x in rest && x.source == source && h in after[x];
          assert h in SetOf(after[x]);
        }
        if h in UnionOf(ms, lists, source) {
          assert h in SetOf(after[o]);
        }
      }
    } else {
      assert forall x | x in rest && x.source == source :: after[x] == lists[x];
    }
  }

  /**
    When hosts linger: after folding `ms`, folding the survivors `rest` lists exactly the survivors' own
    hosts for a source if and only if the first match of that source is gone, or the others had no
    further hosts anyway.
   */
  method FoldSurvivors(ms: seq<SNIMatch>, rest: seq<SNIMatch>) returns (snis: SniMatches)
    requires forall o | o in rest :: o in ms
    modifies ms, rest
    ensures fresh(snis) && snis.Valid() && snis.states.Keys == Sources(rest)
    ensures forall s | s in snis.states ::
      SetOf(snis.states[s].sniMatch.hosts) == (if LeaderSurvives(ms, rest, s) then old(HostsOf(ms, s)) else old(HostsOf(rest, s)))
    ensures forall s | s in snis.states ::
      SetOf(snis.states[s].sniMatch.hosts) == old(HostsOf(rest, s))
      <==> !LeaderSurvives(ms, rest, s) || old(HostsOf(ms, s)) == old(HostsOf(rest, s))
  {
    ghost var lists := ListsOf(ms);
    forall s ensures UnionOf(rest, lists, s) == HostsOf(rest, s) {
    }
    var first := ConsumeAll(ms);
    ghost var after := ListsOf(ms);
    forall s
      ensures HostsOf(rest, s) == if LeaderSurvives(ms, rest, s) then UnionOf(ms, lists, s) else UnionOf(rest, lists, s)
    {
      SurvivingUnion(ms, lists, rest, s);
      assert HostsOf(rest, s) == UnionOf(rest, after, s);
    }
    ghost var between := map s | s in Sources(rest) :: HostsOf(rest, s);
    snis := ConsumeAll(rest);
    assert forall s | s in snis.states :: SetOf(snis.states[s].sniMatch.hosts) == between[s];
  }

  /** A first match that has all hosts of its source takes nothing from the others. */
  lemma {:induction false} SaturatedStays(done: seq<SNIMatch>, lists: HostLists, o: SNIMatch)
    requires Covers(lists, done) && Leads(done, o)
    requires forall x, h | x in done && x.source == o.source && h in lists[x] :: h in lists[o]
    ensures Collapsed(done, lists, o.source) == lists[o]
  {
    var init, last := done[..|done| - 1], done[|done| - 1];
    assert done == init + [last];
    LeadsStep(init, last, o);
    if Leads(init, o) {
      LeaderIsMember(init, o);
      SaturatedStays(init, lists, o);
      if last.source == o.source {
        MergeOfPresent(lists[o], lists[last]);
      }
    }
  }

  /** After one fold, a second fold in any order leaves the first matches of the first fold as they are. */
  lemma SecondFoldKeeps(ms: seq<SNIMatch>, lists: HostLists, again: seq<SNIMatch>, o: SNIMatch)
    requires Covers(lists, ms) && (forall x :: x in ms <==> x in again) && Leads(ms, o)
    ensures o in ms && Covers(After(ms, lists, ms), again)
    ensures After(again, After(ms, lists, ms), again)[o] == After(ms, lists, ms)[o]
  {
    var once := After(ms, lists, ms);
    LeaderIsMember(ms, o);
    if Leads(again, o) {
      forall x, h | x in again && x.source == o.source && h in once[x] ensures h in once[o] {
        CollapsedHasAll(ms, lists, x);
        if Leads(ms, x) {
          LeaderIsUnique(ms, x, o);
        }
      }
      SaturatedStays(again, once, o);
    }
  }

  /**
    Folding the already mutated objects again, in any order, gives every source the same hosts, and leaves
    the lists of the first fold's first matches as they were.
   */
  method FoldAgain(ms: seq<SNIMatch>, again: seq<SNIMatch>) returns (snis: SniMatches)
    requires forall o :: o in ms <==> o in again
    modifies ms, again
    ensures fresh(snis) && snis.Valid() && snis.states.Keys == Sources(ms)
    ensures forall s | s in snis.states :: SetOf(snis.states[s].sniMatch.hosts) == old(HostsOf(ms, s))
    ensures forall o | o in ms && Leads(ms, o) :: o.hosts == Collapsed(ms, old(ListsOf(ms)), o.source)
  {
    ghost var lists := ListsOf(ms);
    var first := ConsumeAll(ms);
    ghost var once := ListsOf(ms);
    assert ListsOf(again) == once;
    snis := ConsumeAll(again);
    assert Sources(again) == Sources(ms);
    forall o | o in ms && Leads(ms, o) ensures o.hosts == Collapsed(ms, lists, o.source) {
      SecondFoldKeeps(ms, lists, again, o);
      assert ListsOf(again)[o] == After(again, once, again)[o];
    }
    forall s | s in snis.states ensures SetOf(snis.states[s].sniMatch.hosts) == UnionOf(ms, lists, s) {
      AllSurvive(ms, again, s);
      SurvivingUnion(ms, lists, again, s);
    }
  }

  lemma AllSurvive(ms: seq<SNIMatch>, again: seq<SNIMatch>, source: Name)
    requires (forall o :: o in ms <==> o in again) && source in Sources(ms)
    ensures LeaderSurvives(ms, again, source)
  {
    var o := LeaderOf(ms, source);
    LeaderIsMember(ms, o);
  }

  lemma {:induction false} LeaderOf(ms: seq<SNIMatch>, source: Name) returns (o: SNIMatch)
    requires source in Sources(ms)
    ensures Leads(ms, o) && o.source == source
  {
    var init, last := ms[..|ms| - 1], ms[|ms| - 1];
    assert ms == init + [last];
    if source in Sources(init) {
      o := LeaderOf(init, source);
    } else {
      SourcesStep(init, last);
      o := last;
    }
    LeadsStep(init, last, o);
  }

  /** `list`: one match per certificate source. */
  method List(snis: SniMatches) returns (matches: seq<SNIMatch>)
    requires snis.Valid()
    ensures |matches| == |snis.states|
    ensures Sources(matches) == snis.states.Keys
    ensures forall k | 0 <= k < |matches| :: matches[k].source in snis.states && matches[k] == snis.states[matches[k].source].sniMatch
  {
    var order := RangeOver(snis.states.Keys);
    matches := [];
    for k := 0 to |order|
      invariant |matches| == k
      invariant forall j | 0 <= j < k :: matches[j].source == order[j] && order[j] in snis.states && matches[j] == snis.states[order[j]].sniMatch
    {
      assert order[k] in order;
      matches := matches + [snis.states[order[k]].sniMatch];
    }
    forall s | s in snis.states ensures s in Sources(matches) {
      assert s in order;
      var k :| 0 <= k < |order| && order[k] == s;
      assert matches[k] in matches;
    }
  }

  /** The smallest case: of two matches the second is deleted; the first then lists its host, and so a stranger's unless they agree. */
  method DeletedHostsLinger(source: Name, mine: string, theirs: string) returns (listed: set<string>)
    ensures listed == {mine, theirs}
    ensures listed == {mine} <==> mine == theirs
  {
    var survivor := new SNIMatch([mine], source);
    var deleted := new SNIMatch([theirs], source);
    var ms, rest := [survivor, deleted], [survivor];
    assert ms[0] == survivor && survivor in rest && Leads(ms, survivor);
    assert SetOf([mine]) == {mine} && SetOf([theirs]) == {theirs};
    assert ms[1] == deleted && ListsOf(ms)[survivor] == [mine] && ListsOf(ms)[deleted] == [theirs];
    assert mine in HostsOf(ms, source) && theirs in HostsOf(ms, source);
    assert HostsOf(ms, source) == {mine, theirs};
    assert rest[0] in rest && source in Sources(rest);
    var after := FoldSurvivors(ms, rest);
    listed := after.states[source].hosts;
  }
}
