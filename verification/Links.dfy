/** internal/iface: the link manager. `Reconcile` (one caller) and the netlink watcher's `detach`
    run concurrently; every step below is one critical section or one kernel call. */
module Links {
  import opened Totals

  type Link = nat    // an open TCX link descriptor

  datatype Phase = Returned | Attaching | Opening | HalfOpen | Inserting | Aborting | Detaching | Closing

  /** Where the links are. */
  datatype Places = Places(
    hand: seq<Link>,            // held by the caller of Reconcile, outside the map
    links: map<int, seq<Link>>, // the manager's map
    netHand: seq<Link>,         // taken out by the netlink watcher, to be closed
    created: set<Link>,         // every link ever opened
    closed: multiset<Link>)     // every Close call

  datatype Manager = Manager(
    phase: Phase,               // where the caller of Reconcile is
    desired: set<int>,          // argument of the last Reconcile
    current: set<int>,          // its copy of the keys
    todo: set<int>,             // what its current loop has still to visit
    idx: int,                   // the index being attached
    at: Places,
    failed: set<int>,           // attaches that failed since Reconcile was called
    deleted: set<int>)          // interfaces whose deletion was seen since then

  function New(): Manager {
    Manager(Returned, {}, {}, {}, 0, Places([], map[], [], {}, multiset{}), {}, {})
  }

  datatype Action =
    | Call(wanted: set<int>)           // Reconcile copies the keys of the map
    | Pick(ifindex: int)               // next desired index, up to the check in attachIndex
    | OpenIngress(ok: bool, link: Link)
    | OpenEgress(ok: bool, link: Link)
    | Insert
    | Abort                            // close the ingress link of a half-done attach
    | StartDetach
    | Detach(ifindex: int)             // next index of the copy
    | CloseOne
    | Return
    | LinkDeleted(ifindex: int)        // netlink: take the links out of the map
    | NetlinkClose

  // moves of links

  function Open(p: Places, l: Link): Places {
    p.(hand := p.hand + [l], created := p.created + {l})
  }

  function Store(p: Places, idx: int): Places {
    p.(links := p.links[idx := p.hand], hand := [])
  }

  function Take(p: Places, idx: int): Places
    requires idx in p.links
  {
    p.(hand := p.hand + p.links[idx], links := p.links - {idx})
  }

  function NetTake(p: Places, idx: int): Places
    requires idx in p.links
  {
    p.(netHand := p.netHand + p.links[idx], links := p.links - {idx})
  }

  function CloseHead(p: Places): Places
    requires |p.hand| > 0
  {
    p.(closed := p.closed + multiset{p.hand[0]}, hand := p.hand[1..])
  }

  function NetCloseHead(p: Places): Places
    requires |p.netHand| > 0
  {
    p.(closed := p.closed + multiset{p.netHand[0]}, netHand := p.netHand[1..])
  }

  /** A step that is not enabled changes nothing. */
  function Apply(m: Manager, a: Action): Manager {
    match a
    case Call(wanted) =>
      if !m.phase.Returned? then m
      else m.(phase := Attaching, desired := wanted, current := m.at.links.Keys, todo := wanted, failed := {}, deleted := {})
    case Pick(idx) =>
      if !m.phase.Attaching? || idx !in m.todo then m
      else if idx in m.current || idx in m.at.links then m.(todo := m.todo - {idx})
      else m.(phase := Opening, todo := m.todo - {idx}, idx := idx)
    case OpenIngress(ok, l) =>
      if !m.phase.Opening? || l in m.at.created then m
      else if !ok then m.(phase := Attaching, failed := m.failed + {m.idx})
      else m.(phase := HalfOpen, at := Open(m.at, l))
    case OpenEgress(ok, l) =>
      if !m.phase.HalfOpen? || l in m.at.created then m
      else if !ok then m.(phase := Aborting, failed := m.failed + {m.idx})
      else m.(phase := Inserting, at := Open(m.at, l))
    case Insert =>
      if !m.phase.Inserting? then m else m.(phase := Attaching, at := Store(m.at, m.idx))
    case Abort =>
      if !m.phase.Aborting? || m.at.hand == [] then m else m.(phase := Attaching, at := CloseHead(m.at))
    case StartDetach =>
      if !m.phase.Attaching? || m.todo != {} then m else m.(phase := Detaching, todo := m.current)
    case Detach(idx) =>
      if !m.phase.Detaching? || idx !in m.todo then m
      else if idx in m.desired || idx !in m.at.links then m.(todo := m.todo - {idx})
      else m.(phase := Closing, todo := m.todo - {idx}, at := Take(m.at, idx))
    case CloseOne =>
      if !m.phase.Closing? then m
      else if m.at.hand == [] then m.(phase := Detaching)
      else m.(at := CloseHead(m.at))
    case Return => if !m.phase.Detaching? || m.todo != {} then m else m.(phase := Returned)
    case LinkDeleted(idx) =>
      if idx in m.at.links
      then m.(at := NetTake(m.at, idx), deleted := m.deleted + {idx})
      else m.(deleted := m.deleted + {idx})
    case NetlinkClose =>
      if m.at.netHand == [] then m else m.(at := NetCloseHead(m.at))
  }

  function Run(actions: seq<Action>): Manager {
    if |actions| == 0 then New() else Apply(Run(actions[..|actions| - 1]), actions[|actions| - 1])
  }

  // ----- what Reconcile achieves ------------------------------------------------------------------

  predicate Attach(p: Phase) {
    p.Attaching? || p.Opening? || p.HalfOpen? || p.Inserting? || p.Aborting?
  }

  /** An attach whose outcome is open. */
  predicate InFlight(p: Phase) {
    p.Opening? || p.HalfOpen? || p.Inserting?
  }

  /** What the caller of Reconcile holds, by phase; an attached interface has its two links. */
  ghost predicate HandFits(m: Manager) {
    && (m.phase.Returned? || m.phase.Attaching? || m.phase.Opening? || m.phase.Detaching? ==> m.at.hand == [])
    && (m.phase.HalfOpen? || m.phase.Aborting? ==> |m.at.hand| == 1)
    && (m.phase.Inserting? ==> |m.at.hand| == 2)
    && forall idx :: idx in m.at.links ==> |m.at.links[idx]| == 2
  }

  lemma {:induction false} HandStep(m: Manager, a: Action)
    requires HandFits(m)
    ensures HandFits(Apply(m, a))
  {}

  /** An index counts as failed only by a refusal of the kernel, and as deleted only by netlink. */
  lemma {:induction false} HistoryStep(m: Manager, a: Action)
    ensures forall i :: i in Apply(m, a).failed ==> i in m.failed || (i == m.idx && (a.OpenIngress? || a.OpenEgress?) && !a.ok)
    ensures forall i :: i in Apply(m, a).deleted ==> i in m.deleted || a == LinkDeleted(i)
  {}

  ghost predicate Progress(m: Manager) {
    && (InFlight(m.phase) ==> m.idx !in m.at.links && m.idx in m.desired)
    && (Attach(m.phase) ==>
          && m.todo <= m.desired
          && m.current <= m.at.links.Keys + m.deleted
          && m.at.links.Keys <= m.current + m.desired
          && m.desired <= m.at.links.Keys + m.todo + m.failed + m.deleted + (if InFlight(m.phase) then {m.idx} else {}))
    && (m.phase.Detaching? || m.phase.Closing? ==>
          m.at.links.Keys <= m.todo + m.desired && m.desired <= m.at.links.Keys + m.failed + m.deleted)
    && (m.phase.Returned? ==>
          m.at.links.Keys <= m.desired && m.desired <= m.at.links.Keys + m.failed + m.deleted)
  }

  lemma {:induction false} ProgressStep(m: Manager, a: Action)
    requires Progress(m)
    ensures Progress(Apply(m, a))
  {}

  // ----- every link has one owner -------------------------------------------------------------------

  ghost function LinkContent(idx: int, ls: seq<Link>): multiset<Link> {
    multiset(ls)
  }

  /** All places a link can be, with multiplicities. */
  ghost function Whereabouts(p: Places): multiset<Link> {
    multiset(p.hand) + multiset(p.netHand) + Gathered(p.links, LinkContent) + p.closed
  }

  lemma MultisetOfHead(h: seq<Link>)
    requires |h| > 0
    ensures multiset(h) == multiset{h[0]} + multiset(h[1..])
  {
    assert h == [h[0]] + h[1..];
  }

  /** The books balance: every created link is in one place. */
  ghost predicate Balanced(p: Places) {
    Whereabouts(p) == multiset(p.created)
  }

  lemma {:induction false} OpenBalanced(p: Places, l: Link)
    requires Balanced(p) && l !in p.created
    ensures Balanced(Open(p, l))
  {
    assert Whereabouts(Open(p, l)) == Whereabouts(p) + multiset{l};
    assert multiset(p.created + {l}) == multiset(p.created) + multiset{l};
  }

  lemma {:induction false} StoreBalanced(p: Places, idx: int)
    requires Balanced(p) && idx !in p.links
    ensures Balanced(Store(p, idx))
  {
    GatheredInsert(p.links, LinkContent, idx, p.hand);
    assert Whereabouts(Store(p, idx)) == Whereabouts(p);
  }

  lemma {:induction false} TakeBalanced(p: Places, idx: int)
    requires Balanced(p) && idx in p.links
    ensures Balanced(Take(p, idx))
  {
    GatheredRemove(p.links, LinkContent, idx);
    assert Whereabouts(Take(p, idx)) == Whereabouts(p);
  }

  lemma {:induction false} NetTakeBalanced(p: Places, idx: int)
    requires Balanced(p) && idx in p.links
    ensures Balanced(NetTake(p, idx))
  {
    GatheredRemove(p.links, LinkContent, idx);
    assert Whereabouts(NetTake(p, idx)) == Whereabouts(p);
  }

  lemma {:induction false} CloseBalanced(p: Places)
    requires Balanced(p) && |p.hand| > 0
    ensures Balanced(CloseHead(p))
  {
    MultisetOfHead(p.hand);
    assert Whereabouts(CloseHead(p)) == Whereabouts(p);
  }

  lemma {:induction false} NetCloseBalanced(p: Places)
    requires Balanced(p) && |p.netHand| > 0
    ensures Balanced(NetCloseHead(p))
  {
    MultisetOfHead(p.netHand);
    assert Whereabouts(NetCloseHead(p)) == Whereabouts(p);
  }

  lemma {:induction false} BalancedStep(m: Manager, a: Action)
    requires Balanced(m.at) && Progress(m)
    ensures Balanced(Apply(m, a).at)
  {
    var p := Apply(m, a).at;
    if p != m.at {
      match a {
        case Insert => StoreBalanced(m.at, m.idx);
        case Detach(idx) => TakeBalanced(m.at, idx);
        case LinkDeleted(idx) => NetTakeBalanced(m.at, idx);
        case OpenIngress(ok, l) => OpenBalanced(m.at, l);
        case OpenEgress(ok, l) => OpenBalanced(m.at, l);
        case Abort => CloseBalanced(m.at);
        case CloseOne => CloseBalanced(m.at);
        case NetlinkClose => NetCloseBalanced(m.at);
      }
    }
  }

  // ----- every run ----------------------------------------------------------------------------------

  lemma {:induction false} EveryRun(actions: seq<Action>)
    ensures Progress(Run(actions)) && Balanced(Run(actions).at) && HandFits(Run(actions))
  {
    if |actions| > 0 {
      var before, a := actions[..|actions| - 1], actions[|actions| - 1];
      EveryRun(before);
      ProgressStep(Run(before), a);
      BalancedStep(Run(before), a);
      HandStep(Run(before), a);
    }
  }

  /** At every step of every run, every link ever opened is in exactly one place: the hands of the
      caller of Reconcile, the map, the netlink watcher's hands, or closed; and closed once at most. */
  lemma {:induction false} EveryLinkHasOneOwner(actions: seq<Action>, l: Link)
    ensures var m := Run(actions);
            multiset(m.at.hand)[l] + multiset(m.at.netHand)[l] + Gathered(m.at.links, LinkContent)[l] + m.at.closed[l]
            == if l in m.at.created then 1 else 0
  {
    EveryRun(actions);
    var m := Run(actions);
    assert Whereabouts(m.at)[l] == multiset(m.at.created)[l];
  }

  /** When Reconcile has returned, the keys of the map are desired, and a desired index is missing
      only because its attach failed or its interface was deleted since the call. Every interface on the
      map has its two links, and no link is left behind in the caller's hands. */
  lemma {:induction false} ReconcileOutcome(actions: seq<Action>)
    requires Run(actions).phase.Returned?
    ensures var m := Run(actions);
            && m.at.links.Keys <= m.desired && m.desired - m.failed - m.deleted <= m.at.links.Keys
            && m.at.hand == [] && forall idx :: idx in m.at.links ==> |m.at.links[idx]| == 2
  {
    EveryRun(actions);
  }
}
