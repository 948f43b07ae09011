/** internal/iface/iface.go and `enforceOnce` of internal/podveth/enforce.go as the calls run when
    nothing interrupts them; `Links` and `Enforcer` interleave their steps. */
module LinkManager {
  import opened Text
  import opened Policy
  import opened Watcher
  import opened Totals
  import opened Links
  import Enforcer

  /** What the kernel answers to an attach: an error at the ingress hook, an error at the egress
      hook, or two links. */
  datatype Answer = Refused | HalfRefused | Granted
  type Answers = map<int, Answer>

  function AnswerFor(answers: Answers, idx: int): Answer {
    if idx in answers then answers[idx] else Refused
  }

  /** Link descriptors handed out so far (all below `next`), and the Close calls made. */
  datatype Ledger = Ledger(next: Link, closed: multiset<Link>)

  ghost function Below(n: nat): (s: set<Link>)
    ensures forall l: Link :: l in s <==> l < n
  {
    if n == 0 then {} else Below(n - 1) + {n - 1}
  }

  ghost function Books(links: map<int, seq<Link>>, ledger: Ledger): Places {
    Places([], links, [], Below(ledger.next), ledger.closed)
  }

  /** Every descriptor handed out is in the map, once, or has been closed, once. */
  ghost predicate Accounted(links: map<int, seq<Link>>, ledger: Ledger) {
    Balanced(Books(links, ledger))
  }

  /** The ledger after an attach: an egress refusal costs the ingress link, which is closed at once. */
  ghost function LedgerAfter(ledger: Ledger, answer: Answer): Ledger {
    match answer
    case Refused => ledger
    case HalfRefused => Ledger(ledger.next + 1, ledger.closed + multiset{ledger.next})
    case Granted => Ledger(ledger.next + 2, ledger.closed)
  }

  lemma {:induction false} HalfAttachAccounted(links: map<int, seq<Link>>, ledger: Ledger, ledger': Ledger)
    requires Accounted(links, ledger) && ledger' == LedgerAfter(ledger, HalfRefused)
    ensures Accounted(links, ledger')
  {
    var p := Books(links, ledger);
    OpenBalanced(p, ledger.next);
    CloseBalanced(Open(p, ledger.next));
    assert CloseHead(Open(p, ledger.next)) == Books(links, ledger');
  }

  lemma {:induction false} AttachAccounted(links: map<int, seq<Link>>, ledger: Ledger, idx: int,
                                           links': map<int, seq<Link>>, ledger': Ledger)
    requires Accounted(links, ledger) && idx !in links
    requires links' == links[idx := [ledger.next, ledger.next + 1]] && ledger' == LedgerAfter(ledger, Granted)
    ensures Accounted(links', ledger')
  {
    var p := Books(links, ledger);
    OpenPairBalanced(p, ledger.next);
    StoreBalanced(OpenPair(p, ledger.next), idx);
    assert Store(OpenPair(p, ledger.next), idx) == Books(links', ledger');
  }

  ghost function OpenPair(p: Places, l: Link): Places {
    p.(hand := [l, l + 1], created := p.created + {l} + {l + 1})
  }

  lemma {:induction false} OpenPairBalanced(p: Places, l: Link)
    requires Balanced(p) && p.hand == [] && l !in p.created && l + 1 !in p.created
    ensures Balanced(OpenPair(p, l))
  {
    OpenBalanced(p, l);
    OpenBalanced(Open(p, l), l + 1);
    assert Open(Open(p, l), l + 1) == OpenPair(p, l);
  }

  lemma {:induction false} AfterAttach(links: map<int, seq<Link>>, ledger: Ledger, idx: int, answer: Answer,
                                       links': map<int, seq<Link>>, ledger': Ledger)
    requires Accounted(links, ledger) && idx !in links
    requires links' == if answer.Granted? then links[idx := [ledger.next, ledger.next + 1]] else links
    requires ledger' == LedgerAfter(ledger, answer)
    ensures Accounted(links', ledger')
  {
    if answer.HalfRefused? {
      HalfAttachAccounted(links, ledger, ledger');
    } else if answer.Granted? {
      AttachAccounted(links, ledger, idx, links', ledger');
    }
  }

  lemma {:induction false} DetachAccounted(links: map<int, seq<Link>>, ledger: Ledger, idx: int,
                                           links': map<int, seq<Link>>, ledger': Ledger)
    requires Accounted(links, ledger) && idx in links
    requires links' == links - {idx} && ledger' == ClosedToo(ledger, links[idx])
    ensures Accounted(links', ledger')
  {
    GatheredRemove(links, LinkContent, idx);
    assert Whereabouts(Books(links', ledger')) == Whereabouts(Books(links, ledger));
  }

  ghost function ClosedToo(ledger: Ledger, ls: seq<Link>): Ledger {
    ledger.(closed := ledger.closed + multiset(ls))
  }

  /** The keys a reconciliation ends with: what is wanted and was there or could be attached. */
  ghost function Attached(before: set<int>, desired: set<int>, answers: Answers): set<int> {
    set idx | idx in desired && (idx in before || AnswerFor(answers, idx).Granted?)
  }

  /** The keys while `todo` is still to be attached. */
  ghost function AttachedSoFar(before: set<int>, desired: set<int>, todo: set<int>, answers: Answers): set<int> {
    before + Attached(before, desired - todo, answers)
  }

  lemma {:induction false} OneMoreAttached(before: set<int>, desired: set<int>, todo: set<int>, idx: int, answers: Answers)
    requires idx in todo && todo <= desired
    ensures AttachedSoFar(before, desired, todo - {idx}, answers)
         == AttachedSoFar(before, desired, todo, answers)
            + if idx in before || AnswerFor(answers, idx).Granted? then {idx} else {}
  {}

  /** What is left once the indices of `gone` that are not desired have been detached. */
  ghost function Kept(links: map<int, seq<Link>>, gone: set<int>, desired: set<int>): map<int, seq<Link>> {
    links - (gone - desired)
  }

  lemma {:induction false} OneFewerKept(links: map<int, seq<Link>>, current: set<int>, desired: set<int>, todo: set<int>, idx: int)
    requires idx in todo && todo <= current
    ensures Kept(links, current - (todo - {idx}), desired)
         == if idx in desired then Kept(links, current - todo, desired) else Kept(links, current - todo, desired) - {idx}
  {}

  ghost predicate Untouched(before: map<int, seq<Link>>, after: map<int, seq<Link>>) {
    forall k :: k in before ==> k in after && after[k] == before[k]
  }

  class Manager {
    var links: map<int, seq<Link>>
    var ledger: Ledger

    ghost predicate Valid() reads this {
      Accounted(links, ledger)
    }

    constructor ()
      ensures Valid() && links == map[]
    {
      links := map[];
      ledger := Ledger(0, multiset{});
    }

    method AttachTCX(answer: Answer) returns (pair: Option<seq<Link>>)
      modifies this`ledger
      ensures pair == if answer.Granted? then Some([old(ledger).next, old(ledger).next + 1]) else None
      ensures ledger == LedgerAfter(old(ledger), answer)
    {
      if answer.Refused? { return None; }
      var ing := ledger.next;
      if answer.HalfRefused? {
        ledger := Ledger(ledger.next + 1, ledger.closed + multiset{ing});
        return None;
      }
      var egr := ing + 1;
      ledger := ledger.(next := ledger.next + 2);
      return Some([ing, egr]);
    }

    method AttachIndex(idx: int, answer: Answer) returns (ok: bool)
      requires Valid()
      modifies this
      ensures Valid()
      ensures ok == (idx in old(links) || answer.Granted?)
      ensures links.Keys == old(links.Keys) + if ok then {idx} else {}
      ensures Untouched(old(links), links)
    {
      if idx in links { return true; }
      var pair := AttachTCX(answer);
      ok := pair.Some?;
      if ok { links := links[idx := pair.value]; }
      AfterAttach(old(links), old(ledger), idx, answer, links, ledger);
    }

    method CloseAll(ls: seq<Link>)
      modifies this`ledger
      ensures ledger == ClosedToo(old(ledger), ls)
    {
      for i := 0 to |ls|
        invariant ledger == ClosedToo(old(ledger), ls[..i])
      {
        assert ls[..i + 1] == ls[..i] + [ls[i]];
        ledger := ledger.(closed := ledger.closed + multiset{ls[i]});
      }
      assert ls[..|ls|] == ls;
    }

    /** The links are out of the map before the first of them is closed. */
    method Detach(idx: int)
      requires Valid()
      modifies this
      ensures Valid()
      ensures links == old(links) - {idx}
      ensures ledger == if idx in old(links) then ClosedToo(old(ledger), old(links)[idx]) else old(ledger)
    {
      if idx !in links {
        assert links - {idx} == links;
        return;
      }
      var ls := links[idx];
      links := links - {idx};
      CloseAll(ls);
      DetachAccounted(old(links), old(ledger), idx, links, ledger);
    }

    method AttachMissing(desired: set<int>, answers: Answers)
      requires Valid()
      modifies this
      ensures Valid()
      ensures links.Keys == old(links.Keys) + Attached(old(links.Keys), desired, answers)
      ensures Untouched(old(links), links)
    {
      var current := links.Keys;
      var todo := desired;
      while todo != {}
        invariant Valid()
        invariant todo <= desired
        invariant links.Keys == AttachedSoFar(current, desired, todo, answers)
        invariant Untouched(old(links), links)
        decreases |todo|
      {
        var idx :| idx in todo;
        if idx !in current {
          var _ := AttachIndex(idx, AnswerFor(answers, idx));
        }
        OneMoreAttached(current, desired, todo, idx, answers);
        todo := todo - {idx};
      }
      assert desired - todo == desired;
    }

    method DetachUnwanted(current: set<int>, desired: set<int>)
      requires Valid()
      modifies this
      ensures Valid()
      ensures links == Kept(old(links), current, desired)
    {
      var todo := current;
      while todo != {}
        invariant Valid() && todo <= current
        invariant links == Kept(old(links), current - todo, desired)
        decreases |todo|
      {
        assert exists k: int :: k in todo;
        var idx :| idx in todo;
        if idx !in desired {
          Detach(idx);
        }
        OneFewerKept(old(links), current, desired, todo, idx);
        todo := todo - {idx};
      }
    }

    /** Afterwards exactly the wanted interfaces are attached, but for those the kernel refused;
        links that stay are not touched; and every other link ever opened has been closed once. */
    method Reconcile(desired: set<int>, answers: Answers)
      requires Valid()
      modifies this
      ensures Valid()
      ensures links.Keys == Attached(old(links.Keys), desired, answers)
      ensures forall k :: k in links <==> k in desired && (k in old(links) || (k in answers && answers[k].Granted?))
      ensures forall k :: k in old(links) && k in desired ==> links[k] == old(links[k])
    {
      var current := links.Keys;
      AttachMissing(desired, answers);
      DetachUnwanted(current, desired);
    }
  }

  /** One round: `resolved` is what Resolve returned, `None` for an error, which must not detach
      anything. */
  method EnforceOnce(resolved: Option<map<string, int>>, pods: map<string, PodMeta>, rules: seq<Rule>,
                     manager: Manager, answers: Answers)
    requires manager.Valid()
    modifies manager
    ensures manager.Valid()
    ensures resolved.None? ==> manager.links == old(manager.links) && manager.ledger == old(manager.ledger)
    ensures resolved.Some? ==>
              && var wanted := Enforcer.CoveredVeths(resolved.value, resolved.value.Keys, pods, rules);
              && manager.links.Keys == Attached(old(manager.links.Keys), wanted, answers)
              && forall k :: k in old(manager.links) && k in wanted ==> manager.links[k] == old(manager.links[k])
    ensures resolved.Some? ==> forall k ::
              k in manager.links <==> Enforcer.Wanted(resolved.value, pods, rules, k)
                                      && (k in old(manager.links) || (k in answers && answers[k].Granted?))
  {
    if resolved.None? { return; }
    var desired := WantedVeths(resolved.value, pods, rules);
    Enforcer.CoveredIsWanted(resolved.value, pods, rules);
    manager.Reconcile(desired, answers);
  }

  method WantedVeths(mapped: map<string, int>, pods: map<string, PodMeta>, rules: seq<Rule>) returns (desired: set<int>)
    ensures desired == Enforcer.CoveredVeths(mapped, mapped.Keys, pods, rules)
    ensures forall veth :: veth in desired <==> Enforcer.Wanted(mapped, pods, rules, veth)
  {
    desired := {};
    var todo := mapped.Keys;
    while todo != {}
      invariant todo <= mapped.Keys
      invariant desired == Enforcer.CoveredVeths(mapped, mapped.Keys - todo, pods, rules)
      decreases |todo|
    {
      var ip :| ip in todo;
      var meta := Enforcer.NamespaceOf(pods, ip);
      assert mapped.Keys - (todo - {ip}) == mapped.Keys - todo + {ip};
      if meta.namespace != "" && IsCovered(rules, meta) {
        desired := desired + {mapped[ip]};
      }
      todo := todo - {ip};
    }
    assert mapped.Keys - todo == mapped.Keys;
    Enforcer.CoveredIsWanted(mapped, pods, rules);
  }

  predicate IsCovered(rules: seq<Rule>, meta: PodMeta) {
    Covered(rules, meta.namespace, meta.labels)
  }
}
