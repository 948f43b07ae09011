/** A run of three equal requests in which a fresh entry is deleted by a request that had found its
    predecessor expired. */
module LostEntry {
  import opened Text
  import opened Http
  import opened CacheKey
  import opened Vary
  import opened CacheControl
  import opened Policy
  import opened Store
  import opened Totals
  import opened Protocol
  import opened Freshness
  import opened Transparency
  import opened Settled
  import opened Gap
  import opened Scenarios

  const TTL := 5

  /** A rule for everything, a request without headers, and a response without headers. */
  const R := Rule("", None, "*", 0, [], [], TTL, false, [], 0)
  const Q := Request("h", "", "GET", "/", "/", map[], "")
  const C := Call(Q, "", 80, "", map[])
  const Answer := Response(200, map[], "HTTP/1.1", "")

  function X(at: int): Exchange {
    Exchange(Sent(Q), 80, R, Answer, at)
  }

  function E(at: int): Entry {
    Entry(200, map[], "HTTP/1.1", "", at, TTL)
  }

  function K(lim: Limits): string {
    KeyUnder(Q, 80, R, [], lim)
  }

  lemma {:induction false} RuleMatchesAll(lim: Limits)
    ensures Classify([R], C, lim) == Matched(R)
  {
    assert Passes(R, "", map[], StripPort(HostOf(C)), 80, "GET", "/");
  }

  lemma {:induction false} NoDirectives()
    ensures DirectivesOf(Q.headers) == map[] && LookupAllowed(Q)
    ensures VaryLine(Answer) == "" && !Bypassed(Q, Answer)
  {}

  lemma {:induction false} NothingVaries(at: int)
    ensures StoreNames(X(at)) == [] && EntryOf(X(at)) == E(at)
  {
    NoDirectives();
    assert DirectivesOf(Answer.headers) == map[];
  }

  lemma {:induction false} SameKey(at: int, lim: Limits)
    ensures StoreKey(X(at), lim) == K(lim)
  {
    NothingVaries(at);
    assert Pairs(Sent(Q), []) == Pairs(Q, []);
  }

  lemma {:induction false} NoBytes(at: int)
    ensures Size(E(at)) == 0
  {}

  lemma {:induction false} MayStore(entries: map<string, Entry>, at: int, lim: Limits)
    requires entries == map[]
    ensures SetMay(entries, StoreKey(X(at), lim), EntryOf(X(at)), lim.maxBytes, map[K(lim) := E(at)])
  {
    SameKey(at, lim);
    NothingVaries(at);
    NoBytes(at);
    assert map[K(lim) := E(at)] - {K(lim)} == map[];
  }

  // ----- the run -----------------------------------------------------------------------------------------

  function Waiting(pc: Pc): Proc {
    Proc(C, Q, pc)
  }

  function Sending(pc: Pc): Proc {
    Proc(C, Sent(Q), pc)
  }

  const Stored := Sending(Replied(Relayed(Miss(Answer))))

  function Begin(): State {
    State(Shared(0, [R], map[], map[], {}, {}), Procs(Waiting(Arrived), Waiting(Arrived), Waiting(Arrived)))
  }

  const Arrivals := [SwapPolicy([R]), Arrive(0, C), Arrive(1, C), Arrive(2, C)]

  lemma {:induction false} RunArrivals(lim: Limits)
    ensures Run(0, Arrivals, lim) == Begin()
  {
    assert Arrivals == [] + [SwapPolicy([R])] + [Arrive(0, C)] + [Arrive(1, C)] + [Arrive(2, C)];
    RunOneMore(0, [], SwapPolicy([R]), lim);
    RunOneMore(0, [] + [SwapPolicy([R])], Arrive(0, C), lim);
    RunOneMore(0, [] + [SwapPolicy([R])] + [Arrive(0, C)], Arrive(1, C), lim);
    RunOneMore(0, [] + [SwapPolicy([R])] + [Arrive(0, C)] + [Arrive(1, C)], Arrive(2, C), lim);
  }

  /** A request that has arrived gets to the read of the store. */
  lemma {:induction false} Looks(actions: seq<Action>, s: State, p: nat, pc: Pc, lim: Limits)
    requires Run(0, actions, lim) == s && p in s.procs && s.procs[p] == Waiting(Arrived)
    requires s.sh.rules == [R] && s.sh.index == map[]
    requires pc == if K(lim) in s.sh.entries then Read(R, [], K(lim), s.sh.entries[K(lim)]) else Missed(R, [], K(lim))
    ensures Run(0, actions + Schedule(p, Looking), lim) == State(s.sh, s.procs[p := Waiting(pc)])
  {
    RuleMatchesAll(lim);
    NoDirectives();
    PhaseLook(World(s.sh, s.procs[p]), R, [], K(lim), lim);
    Advance(0, actions, s, p, Looking, World(s.sh, Waiting(pc)), lim);
  }

  /** A request that has read an expired entry finds so. */
  lemma {:induction false} FindsExpired(actions: seq<Action>, s: State, p: nat, e: Entry, lim: Limits)
    requires Run(0, actions, lim) == s && p in s.procs && s.procs[p] == Waiting(Read(R, [], K(lim), e)) && Expired(e, s.sh.now)
    ensures Run(0, actions + Schedule(p, [CheckExpiry]), lim) == State(s.sh, s.procs[p := Waiting(Stale(R, [], K(lim)))])
  {
    var w, w' := World(s.sh, s.procs[p]), World(s.sh, Waiting(Stale(R, [], K(lim))));
    EvExpired(w, R, [], K(lim), e, lim);
    PhaseOne(w, CheckExpiry, w', lim);
    Advance(0, actions, s, p, [CheckExpiry], w', lim);
  }

  /** And deletes it. */
  lemma {:induction false} Drops(actions: seq<Action>, s: State, p: nat, lim: Limits)
    requires Run(0, actions, lim) == s && p in s.procs && s.procs[p] == Waiting(Stale(R, [], K(lim)))
    ensures Run(0, actions + Schedule(p, [DropStale]), lim)
         == State(s.sh.(entries := s.sh.entries - {K(lim)}), s.procs[p := Waiting(Missed(R, [], K(lim)))])
  {
    var w := World(s.sh, s.procs[p]);
    var w' := World(s.sh.(entries := s.sh.entries - {K(lim)}), Waiting(Missed(R, [], K(lim))));
    EvDrop(w, R, [], K(lim), lim);
    PhaseOne(w, DropStale, w', lim);
    Advance(0, actions, s, p, [DropStale], w', lim);
  }

  /** After a miss it fetches an answer and learns nothing from it. */
  lemma {:induction false} Fetches(actions: seq<Action>, s: State, p: nat, at: int, lim: Limits)
    requires lim.maxBodyBytes > 0 && Run(0, actions, lim) == s && p in s.procs
    requires s.procs[p] == Waiting(Missed(R, [], K(lim))) && s.sh.now == at
    ensures Run(0, actions + Schedule(p, Learning(Answer)), lim)
         == State(s.sh.(log := s.sh.log + {X(at)}), s.procs[p := Sending(Answered(ToDelete, K(lim), X(at)))])
  {
    NoDirectives();
    NothingVaries(at);
    PhaseLearn(World(s.sh, s.procs[p]), R, [], K(lim), X(at), lim);
    var w := World(s.sh.(log := s.sh.log + {X(at)}), Sending(Answered(ToDelete, K(lim), X(at))));
    Advance(0, actions, s, p, Learning(Answer), w, lim);
  }

  /** And stores it in an empty store. */
  lemma {:induction false} Stores(actions: seq<Action>, s: State, p: nat, at: int, lim: Limits)
    requires Run(0, actions, lim) == s && p in s.procs
    requires s.procs[p] == Sending(Answered(ToDelete, K(lim), X(at))) && s.sh.entries == map[]
    ensures Run(0, actions + Schedule(p, Storing(map[K(lim) := E(at)])), lim)
         == State(s.sh.(entries := map[K(lim) := E(at)]), s.procs[p := Stored])
  {
    MayStore(s.sh.entries, at, lim);
    var w := World(s.sh.(entries := map[K(lim) := E(at)]), Stored);
    PhaseStore(World(s.sh, s.procs[p]), K(lim), X(at), map[K(lim) := E(at)], lim);
    Advance(0, actions, s, p, Storing(map[K(lim) := E(at)]), w, lim);
  }

  lemma {:induction false} FetchesAndStores(actions: seq<Action>, s: State, p: nat, at: int, lim: Limits)
    requires lim.maxBodyBytes > 0 && Run(0, actions, lim) == s && p in s.procs
    requires s.procs[p] == Waiting(Missed(R, [], K(lim))) && s.sh.entries == map[] && s.sh.now == at
    ensures Run(0, actions + Schedule(p, Learning(Answer)) + Schedule(p, Storing(map[K(lim) := E(at)])), lim)
         == State(s.sh.(log := s.sh.log + {X(at)}, entries := map[K(lim) := E(at)]), s.procs[p := Stored])
  {
    var learned := Sending(Answered(ToDelete, K(lim), X(at)));
    Fetches(actions, s, p, at, lim);
    Stores(actions + Schedule(p, Learning(Answer)), State(s.sh.(log := s.sh.log + {X(at)}), s.procs[p := learned]), p, at, lim);
    assert s.procs[p := learned][p := Stored] == s.procs[p := Stored];
  }

  function Procs(p0: Proc, p1: Proc, p2: Proc): map<nat, Proc> {
    map[0 := p0, 1 := p1, 2 := p2]
  }

  lemma {:induction false} ProcsChange(p0: Proc, p1: Proc, p2: Proc, p: Proc)
    ensures Procs(p0, p1, p2)[0 := p] == Procs(p, p1, p2)
    ensures Procs(p0, p1, p2)[1 := p] == Procs(p0, p, p2)
    ensures Procs(p0, p1, p2)[2 := p] == Procs(p0, p1, p)
  {}

  function FirstLooks(): seq<Action> {
    Arrivals + Schedule(0, Looking)
  }

  lemma {:induction false} RunFirstLooks(lim: Limits)
    ensures Run(0, FirstLooks(), lim)
         == State(Begin().sh, Procs(Waiting(Missed(R, [], K(lim))), Waiting(Arrived), Waiting(Arrived)))
  {
    RunArrivals(lim);
    Looks(Arrivals, Begin(), 0, Missed(R, [], K(lim)), lim);
    ProcsChange(Waiting(Arrived), Waiting(Arrived), Waiting(Arrived), Waiting(Missed(R, [], K(lim))));
  }

  function FirstPart(lim: Limits): seq<Action> {
    FirstLooks() + Schedule(0, Learning(Answer)) + Schedule(0, Storing(map[K(lim) := E(0)]))
  }

  function FirstStored(now: int, lim: Limits): Shared {
    Shared(now, [R], map[], map[K(lim) := E(0)], {X(0)}, {})
  }

  /** Request 0 misses and stores. */
  lemma {:induction false} RunFirst(lim: Limits)
    requires lim.maxBodyBytes > 0
    ensures Run(0, FirstPart(lim), lim) == State(FirstStored(0, lim), Procs(Stored, Waiting(Arrived), Waiting(Arrived)))
  {
    RunFirstLooks(lim);
    var miss := Waiting(Missed(R, [], K(lim)));
    var s := State(Begin().sh, Procs(miss, Waiting(Arrived), Waiting(Arrived)));
    FetchesAndStores(FirstLooks(), s, 0, 0, lim);
    ProcsChange(miss, Waiting(Arrived), Waiting(Arrived), Stored);
    assert s.sh.log + {X(0)} == {X(0)};
  }

  function SecondLooks(lim: Limits): seq<Action> {
    FirstPart(lim) + Schedule(1, Looking)
  }

  lemma {:induction false} RunSecondLooks(lim: Limits)
    requires lim.maxBodyBytes > 0
    ensures Run(0, SecondLooks(lim), lim)
         == State(FirstStored(0, lim), Procs(Stored, Waiting(Read(R, [], K(lim), E(0))), Waiting(Arrived)))
  {
    RunFirst(lim);
    var read := Waiting(Read(R, [], K(lim), E(0)));
    Looks(FirstPart(lim), State(FirstStored(0, lim), Procs(Stored, Waiting(Arrived), Waiting(Arrived))), 1, read.pc, lim);
    ProcsChange(Stored, Waiting(Arrived), Waiting(Arrived), read);
  }

  function SecondReads(lim: Limits): seq<Action> {
    SecondLooks(lim) + [Tick(TTL + 1)]
  }

  lemma {:induction false} RunSecondReads(lim: Limits)
    requires lim.maxBodyBytes > 0
    ensures Run(0, SecondReads(lim), lim)
         == State(FirstStored(TTL + 1, lim), Procs(Stored, Waiting(Read(R, [], K(lim), E(0))), Waiting(Arrived)))
  {
    RunSecondLooks(lim);
    RunOneMore(0, SecondLooks(lim), Tick(TTL + 1), lim);
  }

  function SecondPart(lim: Limits): seq<Action> {
    SecondReads(lim) + Schedule(1, [CheckExpiry])
  }

  /** Request 1 reads the entry and, time having passed, finds it expired. */
  lemma {:induction false} RunSecond(lim: Limits)
    requires lim.maxBodyBytes > 0
    ensures Run(0, SecondPart(lim), lim)
         == State(FirstStored(TTL + 1, lim), Procs(Stored, Waiting(Stale(R, [], K(lim))), Waiting(Arrived)))
  {
    RunSecondReads(lim);
    var read := Waiting(Read(R, [], K(lim), E(0)));
    FindsExpired(SecondReads(lim), State(FirstStored(TTL + 1, lim), Procs(Stored, read, Waiting(Arrived))), 1, E(0), lim);
    ProcsChange(Stored, read, Waiting(Arrived), Waiting(Stale(R, [], K(lim))));
  }

  function ThirdReads(lim: Limits): seq<Action> {
    SecondPart(lim) + Schedule(2, Looking)
  }

  lemma {:induction false} RunThirdReads(lim: Limits)
    requires lim.maxBodyBytes > 0
    ensures Run(0, ThirdReads(lim), lim)
         == State(FirstStored(TTL + 1, lim), Procs(Stored, Waiting(Stale(R, [], K(lim))), Waiting(Read(R, [], K(lim), E(0)))))
  {
    RunSecond(lim);
    var stale, read := Waiting(Stale(R, [], K(lim))), Waiting(Read(R, [], K(lim), E(0)));
    Looks(SecondPart(lim), State(FirstStored(TTL + 1, lim), Procs(Stored, stale, Waiting(Arrived))), 2, read.pc, lim);
    ProcsChange(Stored, stale, Waiting(Arrived), read);
  }

  function ThirdChecks(lim: Limits): seq<Action> {
    ThirdReads(lim) + Schedule(2, [CheckExpiry])
  }

  lemma {:induction false} RunThirdChecks(lim: Limits)
    requires lim.maxBodyBytes > 0
    ensures Run(0, ThirdChecks(lim), lim)
         == State(FirstStored(TTL + 1, lim), Procs(Stored, Waiting(Stale(R, [], K(lim))), Waiting(Stale(R, [], K(lim)))))
  {
    RunThirdReads(lim);
    var stale, read := Waiting(Stale(R, [], K(lim))), Waiting(Read(R, [], K(lim), E(0)));
    FindsExpired(ThirdReads(lim), State(FirstStored(TTL + 1, lim), Procs(Stored, stale, read)), 2, E(0), lim);
    ProcsChange(Stored, stale, read, stale);
  }

  function ThirdLooks(lim: Limits): seq<Action> {
    ThirdChecks(lim) + Schedule(2, [DropStale])
  }

  function AfterThirdLooks(lim: Limits): State {
    State(Shared(TTL + 1, [R], map[], map[], {X(0)}, {}),
          Procs(Stored, Waiting(Stale(R, [], K(lim))), Waiting(Missed(R, [], K(lim)))))
  }

  /** Request 2 finds it expired, too, and deletes it. */
  lemma {:induction false} RunThirdLooks(lim: Limits)
    requires lim.maxBodyBytes > 0
    ensures Run(0, ThirdLooks(lim), lim) == AfterThirdLooks(lim)
  {
    RunThirdChecks(lim);
    var stale := Waiting(Stale(R, [], K(lim)));
    Drops(ThirdChecks(lim), State(FirstStored(TTL + 1, lim), Procs(Stored, stale, stale)), 2, lim);
    ProcsChange(Stored, stale, stale, Waiting(Missed(R, [], K(lim))));
    assert map[K(lim) := E(0)] - {K(lim)} == map[];
  }

  function TheRun(lim: Limits): seq<Action> {
    ThirdLooks(lim) + Schedule(2, Learning(Answer)) + Schedule(2, Storing(map[K(lim) := E(TTL + 1)]))
  }

  function TheEnd(lim: Limits): State {
    State(Shared(TTL + 1, [R], map[], map[K(lim) := E(TTL + 1)], {X(0), X(TTL + 1)}, {}),
          Procs(Stored, Waiting(Stale(R, [], K(lim))), Stored))
  }

  /** Request 2 has stored a fresh entry, and request 1 is about to delete under the same key. */
  lemma {:induction false} RunToTheEnd(lim: Limits)
    requires lim.maxBodyBytes > 0
    ensures Run(0, TheRun(lim), lim) == TheEnd(lim)
  {
    RunThirdLooks(lim);
    var s := AfterThirdLooks(lim);
    FetchesAndStores(ThirdLooks(lim), s, 2, TTL + 1, lim);
    ProcsChange(Stored, Waiting(Stale(R, [], K(lim))), Waiting(Missed(R, [], K(lim))), Stored);
    assert s.sh.log + {X(TTL + 1)} == TheEnd(lim).sh.log;
  }

  // ----- it is a settled run -------------------------------------------------------------------------------

  const St := Setting(R, map[], Scope(iset{}, NotKeyed))

  /** Nothing but requests without line breaks, the one rule, and steps. */
  ghost predicate Harmless(actions: seq<Action>) {
    forall i :: 0 <= i < |actions| ==> Admissible(actions[i], St.sc) && OnlyRule(actions[i], R)
  }

  lemma {:induction false} HarmlessThen(actions: seq<Action>, p: nat, steps: seq<Step>)
    requires Harmless(actions)
    requires forall i :: 0 <= i < |steps| && steps[i].Fetch? ==> steps[i].answer == Some(Answer)
    ensures Harmless(actions + Schedule(p, steps))
  {
    NoDirectives();
  }

  lemma {:induction false} FirstPartIsHarmless(lim: Limits)
    ensures Harmless(FirstPart(lim))
  {
    HarmlessThen(Arrivals, 0, Looking);
    HarmlessThen(FirstLooks(), 0, Learning(Answer));
    HarmlessThen(FirstLooks() + Schedule(0, Learning(Answer)), 0, Storing(map[K(lim) := E(0)]));
  }

  lemma {:induction false} SecondPartIsHarmless(lim: Limits)
    ensures Harmless(SecondPart(lim))
  {
    FirstPartIsHarmless(lim);
    HarmlessThen(FirstPart(lim), 1, Looking);
    HarmlessThen(SecondReads(lim), 1, [CheckExpiry]);
  }

  lemma {:induction false} ThirdLooksIsHarmless(lim: Limits)
    ensures Harmless(ThirdLooks(lim))
  {
    SecondPartIsHarmless(lim);
    HarmlessThen(SecondPart(lim), 2, Looking);
    HarmlessThen(ThirdReads(lim), 2, [CheckExpiry]);
    HarmlessThen(ThirdChecks(lim), 2, [DropStale]);
  }

  lemma {:induction false} TheRunIsHarmless(lim: Limits)
    ensures Harmless(TheRun(lim))
  {
    ThirdLooksIsHarmless(lim);
    HarmlessThen(ThirdLooks(lim), 2, Learning(Answer));
    HarmlessThen(ThirdLooks(lim) + Schedule(2, Learning(Answer)), 2, Storing(map[K(lim) := E(TTL + 1)]));
  }

  /** In a settled run, a live entry is deleted by a request for the same variant, with no eviction and no
      other Set: the stored response is not there for the next request although it is fresh. */
  lemma {:induction false} FreshEntryIsLost(lim: Limits)
    requires lim.maxBodyBytes > 0
    ensures IsSettled(0, TheRun(lim), St, lim)
    ensures var s := Run(0, TheRun(lim), lim);
            && Holds(s, K(lim), E(TTL + 1)) && !Expired(E(TTL + 1), s.sh.now)
            && K(lim) !in Apply(s, By(1, DropStale), lim).sh.entries
  {
    RunToTheEnd(lim);
    TheRunIsHarmless(lim);
    EndFits(lim);
    EndIsLost(lim);
  }

  lemma {:induction false} EndFits(lim: Limits)
    ensures LogFits(TheEnd(lim).sh.log, St, lim)
  {
    forall x | x in TheEnd(lim).sh.log ensures FitsSetting(x, St) {
      NoDirectives();
    }
  }

  lemma {:induction false} EndIsLost(lim: Limits)
    ensures Holds(TheEnd(lim), K(lim), E(TTL + 1)) && !Expired(E(TTL + 1), TheEnd(lim).sh.now)
    ensures K(lim) !in Apply(TheEnd(lim), By(1, DropStale), lim).sh.entries
  {
    DropNeedsStale(TheEnd(lim), 1, K(lim), lim);
  }
}
