/** internal/k8s: the watcher's pod table and policy lists, and the rule list it publishes. */
module Watcher {
  import opened Text
  import opened Policy
  import opened Totals

  datatype RuleSpec = RuleSpec(host: string, port: nat, verbs: seq<string>, paths: seq<string>, ttl: int,
                               maxBodyBytes: int, varyHeaders: seq<string>, cacheBody: bool)

  /** `selector` is the converted pod selector, `None` where the conversion reports an error. */
  datatype CachePolicy = CachePolicy(namespace: string, name: string, selector: Option<Selector>, rules: seq<RuleSpec>)

  type PolicyLists = map<string, seq<CachePolicy>>

  datatype EventType = Added | Modified | Deleted | OtherType
  /** `policy` is `None` where the object cannot be decoded. */
  datatype Event = Event(kind: EventType, policy: Option<CachePolicy>)

  datatype PodMeta = PodMeta(namespace: string, labels: Labels)

  // ----- one namespace's list -----------------------------------------------------------------

  function Find(ps: seq<CachePolicy>, name: string): Option<CachePolicy> {
    if |ps| == 0 then None
    else if ps[0].name == name then Some(ps[0])
    else Find(ps[1..], name)
  }

  predicate UniqueNames(ps: seq<CachePolicy>) {
    forall i, j :: 0 <= i < j < |ps| ==> ps[i].name != ps[j].name
  }

  function ListOf(m: PolicyLists, namespace: string): seq<CachePolicy> {
    if namespace in m then m[namespace] else []
  }

  function Upsert(ps: seq<CachePolicy>, cp: CachePolicy): seq<CachePolicy> {
    if |ps| == 0 then [cp]
    else if ps[0].name == cp.name then [cp] + ps[1..]
    else [ps[0]] + Upsert(ps[1..], cp)
  }

  function Drop(ps: seq<CachePolicy>, name: string): seq<CachePolicy> {
    if |ps| == 0 then []
    else if ps[0].name == name then ps[1..]
    else [ps[0]] + Drop(ps[1..], name)
  }

  lemma {:induction false} FindFrom(ps: seq<CachePolicy>, i: nat, name: string)
    requires i < |ps| && ps[i].name == name
    requires forall j :: 0 <= j < i ==> ps[j].name != name
    ensures Find(ps, name) == Some(ps[i])
    ensures forall cp: CachePolicy :: cp.name == name ==> Upsert(ps, cp) == ps[i := cp]
    ensures Drop(ps, name) == ps[..i] + ps[i + 1..]
  {
    if i > 0 {
      FindFrom(ps[1..], i - 1, name);
      forall cp: CachePolicy | cp.name == name ensures Upsert(ps, cp) == ps[i := cp] {
        assert Upsert(ps[1..], cp) == ps[1..][i - 1 := cp];
      }
      assert ps[1..][..i - 1] == ps[1..i] && ps[1..][i..] == ps[i + 1..];
    }
  }

  lemma {:induction false} FindNone(ps: seq<CachePolicy>, name: string)
    requires forall j :: 0 <= j < |ps| ==> ps[j].name != name
    ensures Find(ps, name) == None
    ensures forall cp: CachePolicy :: cp.name == name ==> Upsert(ps, cp) == ps + [cp]
    ensures Drop(ps, name) == ps
  {
    if |ps| > 0 {
      FindNone(ps[1..], name);
    }
  }

  /** An upsert acts on the list as on a map, and keeps names unique. */
  lemma {:induction false} UpsertActsAsMap(ps: seq<CachePolicy>, cp: CachePolicy, name: string)
    ensures Find(Upsert(ps, cp), name) == if name == cp.name then Some(cp) else Find(ps, name)
    ensures forall q :: q in Upsert(ps, cp) ==> q == cp || q in ps
    ensures UniqueNames(ps) ==> UniqueNames(Upsert(ps, cp))
  {
    if |ps| > 0 && ps[0].name != cp.name {
      var t := Upsert(ps[1..], cp);
      UpsertActsAsMap(ps[1..], cp, name);
      assert Upsert(ps, cp)[1..] == t;
      if UniqueNames(ps) {
        assert UniqueNames(ps[1..]);
        forall j | 0 <= j < |t| ensures t[j].name != ps[0].name {
          assert t[j] in t;
          if t[j] != cp {
            var k :| 0 <= k < |ps[1..]| && ps[1..][k] == t[j];
          }
        }
      }
    }
  }

  /** A removal acts as on a map only because names are unique. */
  lemma {:induction false} DropActsAsMap(ps: seq<CachePolicy>, name': string, name: string)
    requires UniqueNames(ps)
    ensures Find(Drop(ps, name'), name) == if name == name' then None else Find(ps, name)
    ensures forall q :: q in Drop(ps, name') ==> q in ps
    ensures UniqueNames(Drop(ps, name'))
  {
    if |ps| > 0 {
      assert UniqueNames(ps[1..]);
      if ps[0].name == name' {
        FindNone(ps[1..], name');
      } else {
        var t := Drop(ps[1..], name');
        DropActsAsMap(ps[1..], name', name);
        assert Drop(ps, name')[1..] == t;
        forall j | 0 <= j < |t| ensures t[j].name != ps[0].name {
          assert t[j] in t;
          var k :| 0 <= k < |ps[1..]| && ps[1..][k] == t[j];
        }
      }
    }
  }

  // ----- all lists ------------------------------------------------------------------------------

  /** The policy known under a namespace and a name: the map the lists stand for. */
  function Lookup(m: PolicyLists, namespace: string, name: string): Option<CachePolicy> {
    Find(ListOf(m, namespace), name)
  }

  ghost predicate Consistent(m: PolicyLists) {
    forall ns :: ns in m ==> UniqueNames(m[ns]) && forall i :: 0 <= i < |m[ns]| ==> m[ns][i].namespace == ns
  }

  function Handle(m: PolicyLists, ev: Event): PolicyLists {
    if ev.policy.None? then m
    else
      var cp := ev.policy.value;
      match ev.kind
      case Added => m[cp.namespace := Upsert(ListOf(m, cp.namespace), cp)]
      case Modified => m[cp.namespace := Upsert(ListOf(m, cp.namespace), cp)]
      case Deleted =>
        if Find(ListOf(m, cp.namespace), cp.name).Some?
        then m[cp.namespace := Drop(ListOf(m, cp.namespace), cp.name)] else m
      case OtherType => m
  }

  /** What one event says about a (namespace, name): nothing, gone, or its new policy. */
  function Says(ev: Event, namespace: string, name: string): Option<Option<CachePolicy>> {
    if ev.policy.None? || ev.policy.value.namespace != namespace || ev.policy.value.name != name then None
    else match ev.kind
      case Added => Some(ev.policy)
      case Modified => Some(ev.policy)
      case Deleted => Some(None)
      case OtherType => None
  }

  lemma {:induction false} HandleActsAsMap(m: PolicyLists, ev: Event)
    requires Consistent(m)
    ensures Consistent(Handle(m, ev))
    ensures forall ns, name :: Lookup(Handle(m, ev), ns, name) ==
              match Says(ev, ns, name) case Some(v) => v case None => Lookup(m, ns, name)
  {
    if ev.policy.Some? {
      var cp := ev.policy.value;
      var ps := ListOf(m, cp.namespace);
      forall name
        ensures Find(Upsert(ps, cp), name) == if name == cp.name then Some(cp) else Find(ps, name)
        ensures Find(Drop(ps, cp.name), name) == if name == cp.name then None else Find(ps, name)
      {
        UpsertActsAsMap(ps, cp, name);
        DropActsAsMap(ps, cp.name, name);
      }
      UpsertActsAsMap(ps, cp, cp.name);
      DropActsAsMap(ps, cp.name, cp.name);
      forall q | q in Upsert(ps, cp) || q in Drop(ps, cp.name) ensures q.namespace == cp.namespace {
        if q != cp {
          var k :| 0 <= k < |ps| && ps[k] == q;
        }
      }
    }
  }

  function Relist(items: seq<Option<CachePolicy>>): PolicyLists {
    if |items| == 0 then map[]
    else
      var m := Relist(items[..|items| - 1]);
      match items[|items| - 1]
      case None => m
      case Some(cp) => m[cp.namespace := ListOf(m, cp.namespace) + [cp]]
  }

  /** The API server lists every object once. */
  predicate ListedOnce(items: seq<Option<CachePolicy>>) {
    forall i, j :: 0 <= i < j < |items| && items[i].Some? && items[j].Some? ==>
      items[i].value.namespace != items[j].value.namespace || items[i].value.name != items[j].value.name
  }

  function FindItem(items: seq<Option<CachePolicy>>, namespace: string, name: string): Option<CachePolicy> {
    if |items| == 0 then None
    else
      var last := items[|items| - 1];
      if last.Some? && last.value.namespace == namespace && last.value.name == name then last
      else FindItem(items[..|items| - 1], namespace, name)
  }

  lemma {:induction false} FindAppend(ps: seq<CachePolicy>, cp: CachePolicy, name: string)
    ensures Find(ps + [cp], name) ==
      if Find(ps, name).Some? then Find(ps, name) else if cp.name == name then Some(cp) else None
  {
    if |ps| > 0 {
      assert (ps + [cp])[1..] == ps[1..] + [cp];
      FindAppend(ps[1..], cp, name);
    }
  }

  lemma {:induction false} FindIsMember(ps: seq<CachePolicy>, name: string)
    ensures Find(ps, name).None? <==> forall i :: 0 <= i < |ps| ==> ps[i].name != name
    ensures Find(ps, name).Some? ==> Find(ps, name).value in ps && Find(ps, name).value.name == name
  {
    if |ps| > 0 && ps[0].name != name {
      FindIsMember(ps[1..], name);
      assert forall i :: 0 < i < |ps| ==> ps[i] == ps[1..][i - 1];
    }
  }

  lemma {:induction false} FindItemNone(items: seq<Option<CachePolicy>>, namespace: string, name: string)
    requires forall i :: 0 <= i < |items| && items[i].Some? ==>
      items[i].value.namespace != namespace || items[i].value.name != name
    ensures FindItem(items, namespace, name).None?
  {
    if |items| > 0 {
      FindItemNone(items[..|items| - 1], namespace, name);
    }
  }

  lemma {:induction false} RelistIsTheList(items: seq<Option<CachePolicy>>)
    requires ListedOnce(items)
    ensures Consistent(Relist(items))
    ensures forall ns, name :: Lookup(Relist(items), ns, name) == FindItem(items, ns, name)
  {
    if |items| > 0 {
      var n := |items| - 1;
      var m := Relist(items[..n]);
      RelistIsTheList(items[..n]);
      if items[n].Some? {
        var cp := items[n].value;
        var ps := ListOf(m, cp.namespace);
        FindItemNone(items[..n], cp.namespace, cp.name);
        assert Lookup(m, cp.namespace, cp.name).None?;
        FindIsMember(ps, cp.name);
        forall name { FindAppend(ps, cp, name); }
      }
    }
  }

  // ----- which policies are held -------------------------------------------------------------------

  predicate Holds(m: PolicyLists, q: CachePolicy) {
    q.namespace in m && q in m[q.namespace]
  }

  lemma {:induction false} HoldsIffFound(m: PolicyLists, q: CachePolicy)
    requires Consistent(m)
    ensures Holds(m, q) <==> Lookup(m, q.namespace, q.name) == Some(q)
  {
    var ps := ListOf(m, q.namespace);
    FindIsMember(ps, q.name);
    if Holds(m, q) {
      var i :| 0 <= i < |ps| && ps[i] == q;
      FindFrom(ps, i, q.name);
    }
  }

  predicate SameName(q: CachePolicy, cp: CachePolicy) {
    q.namespace == cp.namespace && q.name == cp.name
  }

  /** The policies held after an event about `cp`. */
  predicate HeldAfter(m: PolicyLists, kind: EventType, cp: CachePolicy, q: CachePolicy) {
    if !SameName(q, cp) || kind == OtherType then Holds(m, q) else kind != Deleted && q == cp
  }

  /** Added and modified policies are there, and no other of their name; deleted ones are not; the rest
      stays. */
  lemma {:induction false} EventEffect(m: PolicyLists, ev: Event)
    requires Consistent(m)
    ensures Consistent(Handle(m, ev))
    ensures ev.policy.Some? ==> forall q :: Holds(Handle(m, ev), q) <==> HeldAfter(m, ev.kind, ev.policy.value, q)
    ensures ev.policy.None? ==> Handle(m, ev) == m
  {
    HandleActsAsMap(m, ev);
    if ev.policy.Some? {
      forall q ensures Holds(Handle(m, ev), q) <==> HeldAfter(m, ev.kind, ev.policy.value, q) {
        HoldsIffFound(m, q);
        HoldsIffFound(Handle(m, ev), q);
        assert Lookup(Handle(m, ev), q.namespace, q.name) ==
               match Says(ev, q.namespace, q.name) case Some(v) => v case None => Lookup(m, q.namespace, q.name);
      }
    }
  }

  lemma {:induction false} FindItemIff(items: seq<Option<CachePolicy>>, q: CachePolicy)
    requires ListedOnce(items)
    ensures FindItem(items, q.namespace, q.name) == Some(q) <==> Some(q) in items
  {
    if |items| > 0 {
      var n := |items| - 1;
      FindItemIff(items[..n], q);
      assert items == items[..n] + [items[n]];
      if items[n].Some? && SameName(items[n].value, q) {
        assert forall i :: 0 <= i < n ==> items[i] != Some(q);
      }
    }
  }

  /** After a relist the policies held are the listed ones. */
  lemma {:induction false} RelistEffect(items: seq<Option<CachePolicy>>)
    requires ListedOnce(items)
    ensures Consistent(Relist(items)) && forall q :: Holds(Relist(items), q) <==> Some(q) in items
  {
    RelistIsTheList(items);
    forall q ensures Holds(Relist(items), q) <==> Some(q) in items {
      HoldsIffFound(Relist(items), q);
      FindItemIff(items, q);
      assert Lookup(Relist(items), q.namespace, q.name) == FindItem(items, q.namespace, q.name);
    }
  }

  // ----- every run -------------------------------------------------------------------------------

  datatype Step = Listed(items: seq<Option<CachePolicy>>) | Watched(ev: Event)

  function Run(m: PolicyLists, steps: seq<Step>): PolicyLists {
    if |steps| == 0 then m
    else match steps[|steps| - 1]
      case Listed(items) => Relist(items)
      case Watched(ev) => Handle(Run(m, steps[..|steps| - 1]), ev)
  }

  /** The last word of a history about a (namespace, name), read backwards to the last list. */
  function LastWord(steps: seq<Step>, namespace: string, name: string): Option<Option<CachePolicy>> {
    if |steps| == 0 then None
    else match steps[|steps| - 1]
      case Listed(items) => Some(FindItem(items, namespace, name))
      case Watched(ev) =>
        var v := Says(ev, namespace, name);
        if v.Some? then v else LastWord(steps[..|steps| - 1], namespace, name)
  }

  /** After any history of lists and events the lists hold exactly what was last said about every
      policy, once each and in its own namespace. */
  lemma {:induction false} ListsRefineMap(m: PolicyLists, steps: seq<Step>)
    requires Consistent(m)
    requires forall i :: 0 <= i < |steps| && steps[i].Listed? ==> ListedOnce(steps[i].items)
    ensures Consistent(Run(m, steps))
    ensures forall ns, name :: Lookup(Run(m, steps), ns, name) ==
              match LastWord(steps, ns, name) case Some(v) => v case None => Lookup(m, ns, name)
  {
    if |steps| > 0 {
      var n := |steps| - 1;
      match steps[n]
      case Listed(items) => RelistIsTheList(items);
      case Watched(ev) =>
        ListsRefineMap(m, steps[..n]);
        HandleActsAsMap(Run(m, steps[..n]), ev);
    }
  }

  // ----- the published rules ---------------------------------------------------------------------

  function SelectorLen(sel: Option<Selector>): nat {
    if sel.None? then 0 else |sel.value|
  }

  function RuleFrom(namespace: string, sel: Selector, r: RuleSpec): Rule {
    Rule(namespace, Some(sel), r.host, r.port, r.verbs, r.paths, r.ttl, r.cacheBody, r.varyHeaders, r.maxBodyBytes)
  }

  function RulesOfPolicy(namespace: string, cp: CachePolicy): (r: seq<Rule>)
    ensures cp.selector.Some? ==> |r| == |cp.rules|
    ensures cp.selector.Some? ==> forall i :: 0 <= i < |r| ==> r[i] == RuleFrom(namespace, cp.selector.value, cp.rules[i])
    ensures cp.selector.None? ==> r == []
  {
    if cp.selector.None? then []
    else seq(|cp.rules|, i requires 0 <= i < |cp.rules| => RuleFrom(namespace, cp.selector.value, cp.rules[i]))
  }

  function RulesOfList(namespace: string, ps: seq<CachePolicy>): seq<Rule> {
    if |ps| == 0 then []
    else RulesOfList(namespace, ps[..|ps| - 1]) + RulesOfPolicy(namespace, ps[|ps| - 1])
  }

  ghost function ListContent(namespace: string, ps: seq<CachePolicy>): multiset<Rule> {
    multiset(RulesOfList(namespace, ps))
  }

  /** All rules of all policies with a convertible selector. */
  ghost function AllRules(m: PolicyLists): multiset<Rule> {
    Gathered(m, ListContent)
  }

  predicate MostSpecificFirst(rules: seq<Rule>) {
    forall i, j :: 0 <= i < j < |rules| ==> SelectorLen(rules[i].podSelector) >= SelectorLen(rules[j].podSelector)
  }

  method InsertBySelector(r: seq<Rule>, x: Rule) returns (r': seq<Rule>)
    requires MostSpecificFirst(r)
    ensures MostSpecificFirst(r') && multiset(r') == multiset(r) + multiset{x}
  {
    var n, k := SelectorLen(x.podSelector), 0;
    while k < |r| && SelectorLen(r[k].podSelector) >= n
      invariant 0 <= k <= |r|
      invariant forall j :: 0 <= j < k ==> SelectorLen(r[j].podSelector) >= n
    {
      k := k + 1;
    }
    r' := InsertAt(r, k, x);
    forall i, j | 0 <= i < j < |r'| ensures SelectorLen(r'[i].podSelector) >= SelectorLen(r'[j].podSelector) {
      if i == k {
        assert k < |r|;
      }
    }
  }

  /** `sort.Slice`: which of the possible orders comes out is not promised. */
  method SortBySelector(rules: seq<Rule>) returns (r: seq<Rule>)
    ensures MostSpecificFirst(r) && multiset(r) == multiset(rules)
  {
    r := [];
    for i := 0 to |rules|
      invariant MostSpecificFirst(r) && multiset(r) == multiset(rules[..i])
    {
      assert rules[..i + 1] == rules[..i] + [rules[i]];
      r := InsertBySelector(r, rules[i]);
    }
    assert rules[..|rules|] == rules;
  }

  /** The match is a matching rule of some policy, and none with more requirements matches. */
  ghost predicate BestMatch(all: multiset<Rule>, result: Option<Rule>, namespace: string, labels: Labels,
                            host: string, port: nat, verb: string, path: string) {
    match result
    case None => forall r :: r in all ==> !RuleMatches(r, namespace, labels, StripPort(host), port, verb, path)
    case Some(best) =>
      && best in all
      && RuleMatches(best, namespace, labels, StripPort(host), port, verb, path)
      && forall r :: r in all && RuleMatches(r, namespace, labels, StripPort(host), port, verb, path) ==>
           (if r.podSelector.Some? then |r.podSelector.value| else 0)
           <= if best.podSelector.Some? then |best.podSelector.value| else 0
  }

  lemma {:induction false} PublishedMatchIsBest(rules: seq<Rule>, all: multiset<Rule>, namespace: string, labels: Labels,
                             host: string, port: nat, verb: string, path: string)
    requires multiset(rules) == all && MostSpecificFirst(rules)
    ensures BestMatch(all, Match(rules, namespace, labels, host, port, verb, path),
                      namespace, labels, host, port, verb, path)
  {
    StripIff(host, StripPort(host));
    MatchIsFirst(rules, namespace, labels, host, StripPort(host), port, verb, path);
    assert forall r :: r in all <==> r in rules;
    var m := Match(rules, namespace, labels, host, port, verb, path);
    if m.Some? {
      var i: nat :| FirstAt(rules, i, namespace, labels, StripPort(host), port, verb, path) && rules[i] == m.value;
      forall r | r in all && RuleMatches(r, namespace, labels, StripPort(host), port, verb, path)
        ensures SelectorLen(r.podSelector) <= SelectorLen(m.value.podSelector)
      {
        FirstIsMostSpecific(rules, i, r, namespace, labels, StripPort(host), port, verb, path);
      }
    }
  }

  lemma {:induction false} FirstIsMostSpecific(rules: seq<Rule>, i: nat, r: Rule, namespace: string, labels: Labels,
                                               host: string, port: nat, verb: string, path: string)
    requires MostSpecificFirst(rules) && FirstAt(rules, i, namespace, labels, host, port, verb, path)
    requires r in rules && RuleMatches(r, namespace, labels, host, port, verb, path)
    ensures SelectorLen(r.podSelector) <= SelectorLen(rules[i].podSelector)
  {
    var j :| 0 <= j < |rules| && rules[j] == r;
  }

  // ----- the watcher object ----------------------------------------------------------------------

  class PolicyWatcher {
    var podMeta: map<string, PodMeta>
    var polMap: PolicyLists
    var published: seq<Rule>     // argument of the last onChange
    var trigger: bool            // the one-slot wake-up channel holds a token

    ghost predicate Valid()
      reads this
    {
      Consistent(polMap)
    }

    /** The published rules are those of the lists, most specific first. */
    ghost predicate UpToDate()
      reads this
    {
      multiset(published) == AllRules(polMap) && MostSpecificFirst(published)
    }

    constructor ()
      ensures Valid() && polMap == map[] && podMeta == map[] && !trigger && UpToDate()
    {
      podMeta, polMap, published, trigger := map[], map[], [], false;
    }

    method OnPodAdd(ip: string, namespace: string, labels: Labels)
      modifies `podMeta, `trigger
      ensures podMeta == if ip == "" then old(podMeta) else old(podMeta)[ip := PodMeta(namespace, labels)]
      ensures trigger == (old(trigger) || ip != "")
    {
      if ip == "" {
        return;
      }
      podMeta := podMeta[ip := PodMeta(namespace, labels)];
      trigger := true;
    }

    method OnPodDelete(ip: string)
      modifies `podMeta, `trigger
      ensures podMeta == old(podMeta) - {ip} && trigger
    {
      podMeta := podMeta - {ip};
      trigger := true;
    }

    method NamespaceLookup(ip: string) returns (namespace: string, labels: Labels)
      ensures if ip in podMeta then namespace == podMeta[ip].namespace && labels == podMeta[ip].labels
              else namespace == "" && labels == map[]
    {
      if ip !in podMeta {
        return "", map[];
      }
      return podMeta[ip].namespace, podMeta[ip].labels;
    }

    /** Lists of namespaces are visited in whatever order, then sorted. */
    method Rebuild()
      modifies `published, `trigger
      ensures UpToDate() && trigger
    {
      var snapshot := polMap;
      var rules: seq<Rule> := [];
      while snapshot != map[]
        invariant multiset(rules) + AllRules(snapshot) == AllRules(polMap)
        decreases |snapshot|
      {
        var ns :| ns in snapshot;
        GatheredRemove(snapshot, ListContent, ns);
        var cps := snapshot[ns];
        var more := CollectRules(ns, cps);
        rules := rules + more;
        snapshot := snapshot - {ns};
      }
      rules := SortBySelector(rules);
      published := rules;
      trigger := true;
    }

    method CollectRules(ns: string, cps: seq<CachePolicy>) returns (rules: seq<Rule>)
      ensures rules == RulesOfList(ns, cps)
    {
      rules := [];
      for i := 0 to |cps|
        invariant rules == RulesOfList(ns, cps[..i])
      {
        assert cps[..i + 1][..i] == cps[..i];
        var cp := cps[i];
        if cp.selector.None? {
          continue;
        }
        ghost var before := rules;
        for j := 0 to |cp.rules|
          invariant rules == before + RulesOfPolicy(ns, cp)[..j]
        {
          rules := rules + [RuleFrom(ns, cp.selector.value, cp.rules[j])];
        }
        assert RulesOfPolicy(ns, cp)[..|cp.rules|] == RulesOfPolicy(ns, cp);
      }
      assert cps[..|cps|] == cps;
    }

    /** Replace the policy of that name in place, or append. */
    method UpsertPolicy(cp: CachePolicy)
      modifies `polMap
      ensures polMap == old(polMap)[cp.namespace := Upsert(ListOf(old(polMap), cp.namespace), cp)]
    {
      var policies := ListOf(polMap, cp.namespace);
      for i := 0 to |policies|
        invariant forall j :: 0 <= j < i ==> policies[j].name != cp.name
      {
        if policies[i].name == cp.name {
          FindFrom(policies, i, cp.name);
          policies := policies[i := cp];
          polMap := polMap[cp.namespace := policies];
          return;
        }
      }
      FindNone(policies, cp.name);
      policies := policies + [cp];
      polMap := polMap[cp.namespace := policies];
    }

    /** Shift the tail of the list over the removed policy. */
    method DeletePolicy(cp: CachePolicy)
      modifies `polMap
      ensures polMap == Handle(old(polMap), Event(Deleted, Some(cp)))
    {
      var policies := ListOf(polMap, cp.namespace);
      for i := 0 to |policies|
        invariant forall j :: 0 <= j < i ==> policies[j].name != cp.name
      {
        if policies[i].name == cp.name {
          FindFrom(policies, i, cp.name);
          polMap := polMap[cp.namespace := policies[..i] + policies[i + 1..]];
          return;
        }
      }
      FindNone(policies, cp.name);
    }

    method HandlePolicyEvent(ev: Event)
      requires Valid()
      modifies `polMap, `published, `trigger
      ensures Valid() && polMap == Handle(old(polMap), ev)
      ensures ev.policy.Some? ==> forall q :: Holds(polMap, q) <==> HeldAfter(old(polMap), ev.kind, ev.policy.value, q)
      ensures ev.policy.Some? ==> UpToDate() && trigger
      ensures ev.policy.None? ==> published == old(published) && trigger == old(trigger)
    {
      EventEffect(polMap, ev);
      if ev.policy.None? {
        return;
      }
      var cp := ev.policy.value;
      match ev.kind {
        case Added => UpsertPolicy(cp);
        case Modified => UpsertPolicy(cp);
        case Deleted => DeletePolicy(cp);
        case OtherType =>
      }
      Rebuild();
    }

    /** The list step: build the lists anew from what the API server returned. */
    method ListPolicies(items: seq<Option<CachePolicy>>)
      requires ListedOnce(items)
      modifies `polMap, `published, `trigger
      ensures Valid() && polMap == Relist(items)
      ensures forall q :: Holds(polMap, q) <==> Some(q) in items
      ensures UpToDate() && trigger
    {
      var newMap: PolicyLists := map[];
      for i := 0 to |items|
        invariant newMap == Relist(items[..i])
      {
        assert items[..i + 1][..i] == items[..i];
        if items[i].None? {
          continue;
        }
        var cp := items[i].value;
        newMap := newMap[cp.namespace := ListOf(newMap, cp.namespace) + [cp]];
      }
      assert items[..|items|] == items;
      RelistEffect(items);
      polMap := newMap;
      Rebuild();
    }

    /** A request is answered by the most specific matching rule of any policy. */
    lemma MatchIsBest(namespace: string, labels: Labels, host: string, port: nat, verb: string, path: string)
      requires UpToDate()
      ensures BestMatch(AllRules(polMap), Match(published, namespace, labels, host, port, verb, path),
                        namespace, labels, host, port, verb, path)
    {
      PublishedMatchIsBest(published, AllRules(polMap), namespace, labels, host, port, verb, path);
    }
  }

  /** The rules an enforcer or a request can meet are exactly those of the policies on record. */
  lemma {:induction false} RuleIffOnRecord(m: PolicyLists, r: Rule)
    requires Consistent(m)
    ensures r in AllRules(m) <==>
      exists ns, name, i :: 0 <= i && OnRecord(m, ns, name, i, r)
  {
    GatheredMember(m, ListContent, r);
    if r in AllRules(m) {
      var ns :| ns in m && r in ListContent(ns, m[ns]);
      var k, i := RuleInList(ns, m[ns], r);
      FindFrom(m[ns], k, m[ns][k].name);
      assert OnRecord(m, ns, m[ns][k].name, i, r);
    }
    if ns, name, i :| 0 <= i && OnRecord(m, ns, name, i, r) {
      FindIsMember(m[ns], name);
      var k :| 0 <= k < |m[ns]| && m[ns][k] == Lookup(m, ns, name).value;
      ListHoldsRules(ns, m[ns], k, i);
      assert r == RuleFrom(ns, m[ns][k].selector.value, m[ns][k].rules[i]);
    }
  }

  predicate OnRecord(m: PolicyLists, ns: string, name: string, i: int, r: Rule) {
    var cp := Lookup(m, ns, name);
    && cp.Some? && cp.value.selector.Some? && 0 <= i < |cp.value.rules|
    && r.namespace == ns && r.podSelector == cp.value.selector && Carries(r, cp.value.rules[i])
  }

  /** A rule has everything its specification says. */
  predicate Carries(r: Rule, spec: RuleSpec) {
    && r.host == spec.host && r.port == spec.port && r.verbs == spec.verbs && r.paths == spec.paths
    && r.ttl == spec.ttl && r.maxBodyBytes == spec.maxBodyBytes
    && r.varyHeaders == spec.varyHeaders && r.cacheBody == spec.cacheBody
  }

  /** Each policy adds each of its rules once. */
  lemma {:induction false} ListAddsRules(ns: string, ps: seq<CachePolicy>, cp: CachePolicy)
    ensures var before, after := RulesOfList(ns, ps), RulesOfList(ns, ps + [cp]);
            && |after| == |before| + (if cp.selector.Some? then |cp.rules| else 0)
            && after[..|before|] == before
            && forall i :: |before| <= i < |after| ==>
                 after[i].namespace == ns && after[i].podSelector == cp.selector && Carries(after[i], cp.rules[i - |before|])
  {
    assert (ps + [cp])[..|ps|] == ps;
  }

  lemma {:induction false} RuleInList(ns: string, ps: seq<CachePolicy>, r: Rule) returns (k: nat, i: nat)
    requires r in RulesOfList(ns, ps)
    ensures k < |ps| && ps[k].selector.Some? && i < |ps[k].rules|
    ensures r == RuleFrom(ns, ps[k].selector.value, ps[k].rules[i])
  {
    var n := |ps| - 1;
    if r in RulesOfPolicy(ns, ps[n]) {
      k := n;
      i :| 0 <= i < |ps[n].rules| && RulesOfPolicy(ns, ps[n])[i] == r;
    } else {
      k, i := RuleInList(ns, ps[..n], r);
    }
  }

  lemma {:induction false} ListHoldsRules(ns: string, ps: seq<CachePolicy>, k: nat, i: nat)
    requires k < |ps| && ps[k].selector.Some? && i < |ps[k].rules|
    ensures RuleFrom(ns, ps[k].selector.value, ps[k].rules[i]) in RulesOfList(ns, ps)
  {
    var n := |ps| - 1;
    if k == n {
      assert RulesOfPolicy(ns, ps[n])[i] in RulesOfPolicy(ns, ps[n]);
    } else {
      ListHoldsRules(ns, ps[..n], k, i);
    }
  }
}
