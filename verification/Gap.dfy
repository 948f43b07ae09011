/** The gap in the store's `Get` between reading an expired entry and deleting under its key: when a
    fresh entry is lost to it, and what that means for the promise that a stored response is hit. */
module Gap {
  import opened Store
  import opened Http
  import opened Protocol
  import opened Freshness
  import opened Transparency
  import opened Settled
  import opened Stability

  /** The last moment at which an entry is not expired. */
  function Deadline(e: Entry): int {
    e.cachedAt + e.ttl
  }

  /** A request that has found an expired entry under the key, or has read one that expires before
      `e` does. */
  predicate Endangers(pr: Proc, key: string, e: Entry) {
    || (pr.pc.Stale? && pr.pc.key == key)
    || (pr.pc.Read? && pr.pc.key == key && Deadline(pr.pc.entry) < Deadline(e))
  }

  ghost predicate Endangered(s: State, key: string, e: Entry) {
    exists p :: p in s.procs && Endangers(s.procs[p], key, e)
  }

  ghost predicate Holds(s: State, key: string, e: Entry) {
    key in s.sh.entries && s.sh.entries[key] == e
  }

  /** The entry is there all the time. */
  ghost predicate HeldThrough(s: State, more: seq<Action>, key: string, e: Entry, lim: Limits) {
    forall i :: 0 <= i <= |more| ==> Holds(RunFrom(s, more[..i], lim), key, e)
  }

  /** After `more` the entry is still there and live, and the delete inside `p`'s Get removes it. */
  ghost predicate Lost(s: State, more: seq<Action>, p: nat, key: string, e: Entry, lim: Limits) {
    var s' := RunFrom(s, more, lim);
    && HeldThrough(s, more, key, e, lim) && !Expired(e, s'.sh.now)
    && key !in Apply(s', By(p, DropStale), lim).sh.entries
  }

  // ----- the clock ----------------------------------------------------------------------------------------

  lemma {:induction false} ClockStep(s: State, a: Action, lim: Limits)
    ensures s.sh.now <= Apply(s, a, lim).sh.now
  {}

  lemma {:induction false} ClockFrom(s: State, more: seq<Action>, lim: Limits)
    ensures s.sh.now <= RunFrom(s, more, lim).sh.now
  {
    if |more| > 0 {
      ClockFrom(s, more[..|more| - 1], lim);
      ClockStep(RunFrom(s, more[..|more| - 1], lim), more[|more| - 1], lim);
    }
  }

  // ----- who loses a live entry -----------------------------------------------------------------------------

  /** No step makes a request dangerous to an entry that is there. */
  lemma {:induction false} DangerIsOld(w: World, step: Step, key: string, e: Entry, lim: Limits)
    requires key in w.sh.entries && w.sh.entries[key] == e && !Expired(e, w.sh.now)
    requires Endangers(Perform(w, step, lim).pr, key, e)
    ensures Endangers(w.pr, key, e)
  {}

  lemma {:induction false} EndangersBefore(s: State, a: Action, p: nat, key: string, e: Entry, lim: Limits)
    requires Holds(s, key, e) && !Expired(e, s.sh.now)
    requires var s' := Apply(s, a, lim); p in s'.procs && Endangers(s'.procs[p], key, e)
    ensures p in s.procs && Endangers(s.procs[p], key, e)
  {
    if a.By? && a.p == p {
      if p in s.procs {
        DangerIsOld(World(s.sh, s.procs[p]), a.step, key, e, lim);
      }
    } else if p in s.procs {
      OthersKeep(s, a, p, lim);
    }
  }

  lemma {:induction false} HeldBefore(s: State, more: seq<Action>, key: string, e: Entry, lim: Limits)
    requires |more| > 0 && HeldThrough(s, more, key, e, lim)
    ensures HeldThrough(s, more[..|more| - 1], key, e, lim) && Holds(RunFrom(s, more[..|more| - 1], lim), key, e)
  {
    var init := more[..|more| - 1];
    forall i | 0 <= i <= |init| ensures Holds(RunFrom(s, init[..i], lim), key, e) {
      assert init[..i] == more[..i];
    }
    assert init[..|init|] == init;
  }

  lemma {:induction false} EndangersAllAlong(s: State, more: seq<Action>, p: nat, key: string, e: Entry, lim: Limits)
    requires HeldThrough(s, more, key, e, lim) && !Expired(e, RunFrom(s, more, lim).sh.now)
    requires p in RunFrom(s, more, lim).procs && Endangers(RunFrom(s, more, lim).procs[p], key, e)
    ensures p in s.procs && Endangers(s.procs[p], key, e)
  {
    if |more| > 0 {
      var init, last := more[..|more| - 1], more[|more| - 1];
      HeldBefore(s, more, key, e, lim);
      ClockStep(RunFrom(s, init, lim), last, lim);
      EndangersBefore(RunFrom(s, init, lim), last, p, key, e, lim);
      EndangersAllAlong(s, init, p, key, e, lim);
    }
  }

  lemma {:induction false} DropNeedsStale(s: State, p: nat, key: string, lim: Limits)
    requires key in s.sh.entries
    ensures key !in Apply(s, By(p, DropStale), lim).sh.entries <==> p in s.procs && s.procs[p].pc.Stale? && s.procs[p].pc.key == key
  {}

  lemma {:induction false} ReadGoesStale(s: State, p: nat, d: nat, lim: Limits)
    requires p in s.procs && s.procs[p].pc.Read? && Expired(s.procs[p].pc.entry, s.sh.now + d)
    ensures var s' := Apply(Apply(s, Tick(d), lim), By(p, CheckExpiry), lim);
            && s'.sh == s.sh.(now := s.sh.now + d)
            && p in s'.procs && s'.procs[p].pc.Stale? && s'.procs[p].pc.key == s.procs[p].pc.key
  {
    var s1 := Apply(s, Tick(d), lim);
    ApplyBy(s1, p, CheckExpiry, DoCheck(World(s1.sh, s1.procs[p])), lim);
  }

  /** A request that endangers a live entry can go on to delete it while it is live. */
  lemma {:induction false} DangerIsReal(s: State, p: nat, key: string, e: Entry, lim: Limits) returns (more: seq<Action>)
    requires Holds(s, key, e) && !Expired(e, s.sh.now)
    requires p in s.procs && Endangers(s.procs[p], key, e)
    ensures Lost(s, more, p, key, e, lim)
  {
    if s.procs[p].pc.Stale? {
      more := [];
      assert HeldThrough(s, more, key, e, lim);
      DropNeedsStale(s, p, key, lim);
    } else {
      var wait := Deadline(s.procs[p].pc.entry) + 1 - s.sh.now;
      var d: nat := if wait < 0 then 0 else wait;
      more := [Tick(d), By(p, CheckExpiry)];
      ReadGoesStale(s, p, d, lim);
      TwoSteps(s, more, key, e, lim);
      DropNeedsStale(RunFrom(s, more, lim), p, key, lim);
    }
  }

  lemma {:induction false} TwoSteps(s: State, more: seq<Action>, key: string, e: Entry, lim: Limits)
    requires |more| == 2
    requires Holds(s, key, e) && Holds(Apply(s, more[0], lim), key, e)
    requires Holds(Apply(Apply(s, more[0], lim), more[1], lim), key, e)
    ensures RunFrom(s, more, lim) == Apply(Apply(s, more[0], lim), more[1], lim)
    ensures HeldThrough(s, more, key, e, lim)
  {
    assert more[..1] == [] + [more[0]] && more == [more[0]] + [more[1]];
    RunFromOneMore(s, [], more[0], lim);
    RunFromOneMore(s, [more[0]], more[1], lim);
    assert [] + [more[0]] == [more[0]];
    forall i | 0 <= i <= 2 ensures Holds(RunFrom(s, more[..i], lim), key, e) {
      if i == 0 {
        assert more[..i] == [];
      } else if i == 2 {
        assert more[..i] == more;
      }
    }
  }

  /** A stored live entry can be deleted by some request's Get before it expires exactly if, while it is
      stored, some request has found or read an entry under its key that expires earlier. */
  lemma {:induction false} LiveEntryLostIff(s: State, key: string, e: Entry, lim: Limits)
    requires Holds(s, key, e) && !Expired(e, s.sh.now)
    ensures (exists more, p :: Lost(s, more, p, key, e, lim)) <==> Endangered(s, key, e)
  {
    if more, p :| Lost(s, more, p, key, e, lim) {
      assert more[..|more|] == more;
      DropNeedsStale(RunFrom(s, more, lim), p, key, lim);
      EndangersAllAlong(s, more, p, key, e, lim);
    }
    if p :| p in s.procs && Endangers(s.procs[p], key, e) {
      var more := DangerIsReal(s, p, key, e, lim);
    }
  }

  // ----- a stored response stays, and is hit ----------------------------------------------------------------

  /** No Set among the actions overwrites the entry or evicts it. */
  ghost predicate NoSetRemoves(actions: seq<Action>, key: string, e: Entry) {
    forall i :: 0 <= i < |actions| && actions[i].By? && actions[i].step.StoreEntry? ==>
      key in actions[i].step.after && actions[i].step.after[key] == e
  }

  lemma {:induction false} StoreHolds(s: State, p: nat, after: map<string, Entry>, key: string, e: Entry, lim: Limits)
    requires Holds(s, key, e) && key in after && after[key] == e
    ensures Holds(Apply(s, By(p, StoreEntry(after)), lim), key, e)
  {}

  lemma {:induction false} OtherStepHolds(s: State, a: Action, key: string, e: Entry, lim: Limits)
    requires Holds(s, key, e) && !Expired(e, s.sh.now)
    requires a.By? ==> !a.step.StoreEntry? && !a.step.DeleteOld? && !a.step.DropStale?
    ensures Holds(Apply(s, a, lim), key, e)
  {}

  /** In a settled run, one action leaves a live entry that no request endangers, unless it is a Set that
      removes it. */
  lemma {:induction false} StepHolds(now: int, actions: seq<Action>, a: Action, st: Setting, lim: Limits, key: string, e: Entry)
    requires IsSettled(now, actions, st, lim)
    requires var s := Run(now, actions, lim); Holds(s, key, e) && !Expired(e, s.sh.now) && !Endangered(s, key, e)
    requires NoSetRemoves([a], key, e)
    ensures Holds(Apply(Run(now, actions, lim), a, lim), key, e)
  {
    var s := Run(now, actions, lim);
    if a.By? && a.step.StoreEntry? {
      assert [a][0] == a;
      StoreHolds(s, a.p, a.step.after, key, e, lim);
    } else if a.By? && a.step.DeleteOld? {
      DeleteOldRemovesNothing(now, actions, st, lim, a.p);
    } else if a.By? && a.step.DropStale? {
      DropHolds(s, a.p, key, e, lim);
    } else {
      OtherStepHolds(s, a, key, e, lim);
    }
  }

  lemma {:induction false} DropHolds(s: State, p: nat, key: string, e: Entry, lim: Limits)
    requires Holds(s, key, e) && !Endangered(s, key, e)
    ensures Holds(Apply(s, By(p, DropStale), lim), key, e)
  {
    assert p in s.procs ==> !Endangers(s.procs[p], key, e);
  }

  /** In a settled run, a live entry that no request endangers stays until it expires, unless a Set
      removes it. */
  lemma {:induction false} EntryStays(now: int, actions: seq<Action>, more: seq<Action>, st: Setting, lim: Limits, key: string, e: Entry)
    requires IsSettled(now, actions + more, st, lim) && NoSetRemoves(more, key, e)
    requires Holds(Run(now, actions, lim), key, e) && !Endangered(Run(now, actions, lim), key, e)
    requires !Expired(e, RunFrom(Run(now, actions, lim), more, lim).sh.now)
    ensures HeldThrough(Run(now, actions, lim), more, key, e, lim)
  {
    var s := Run(now, actions, lim);
    if |more| > 0 {
      var init, last := more[..|more| - 1], more[|more| - 1];
      assert actions + more == actions + init + [last];
      SettledBefore(now, actions + init, [last], st, lim);
      ClockStep(RunFrom(s, init, lim), last, lim);
      EntryStays(now, actions, init, st, lim, key, e);
      RunConcat(now, actions, init, lim);
      StillUnendangered(s, init, key, e, lim);
      StepHolds(now, actions + init, last, st, lim, key, e);
      HeldOneMore(s, more, key, e, lim);
    }
  }

  lemma {:induction false} StillUnendangered(s: State, more: seq<Action>, key: string, e: Entry, lim: Limits)
    requires HeldThrough(s, more, key, e, lim) && !Expired(e, RunFrom(s, more, lim).sh.now) && !Endangered(s, key, e)
    ensures Holds(RunFrom(s, more, lim), key, e) && !Endangered(RunFrom(s, more, lim), key, e)
  {
    assert more[..|more|] == more;
    if Endangered(RunFrom(s, more, lim), key, e) {
      var p :| p in RunFrom(s, more, lim).procs && Endangers(RunFrom(s, more, lim).procs[p], key, e);
      EndangersAllAlong(s, more, p, key, e, lim);
    }
  }

  lemma {:induction false} HeldOneMore(s: State, more: seq<Action>, key: string, e: Entry, lim: Limits)
    requires |more| > 0 && HeldThrough(s, more[..|more| - 1], key, e, lim) && Holds(RunFrom(s, more, lim), key, e)
    ensures HeldThrough(s, more, key, e, lim)
  {
    var init := more[..|more| - 1];
    forall i | 0 <= i <= |more| ensures Holds(RunFrom(s, more[..i], lim), key, e) {
      if i == |more| {
        assert more[..i] == more;
      } else {
        assert more[..i] == init[..i];
      }
    }
  }

  /** While the entry of `x` is stored and no request endangers it: a request for the same variant that
      comes to its lookup at any later time is answered from it if the entry has not expired when the
      request checks it, whatever all others do in the meantime but remove it with a Set. */
  lemma {:induction false} StoredStaysHit(now: int, actions: seq<Action>, st: Setting, lim: Limits, x: Exchange,
                                          waiting: seq<Action>, q: nat, others: seq<Action>, later: seq<Action>)
    requires IsSettled(now, actions + waiting + [By(q, LookupIndex)] + others, st, lim)
    requires x in Run(now, actions, lim).sh.log && Storable(x, lim)
    requires Holds(Run(now, actions, lim), StoreKey(x, lim), EntryOf(x)) && !Endangered(Run(now, actions, lim), StoreKey(x, lim), EntryOf(x))
    requires NoSetRemoves(waiting + [By(q, LookupIndex)] + others, StoreKey(x, lim), EntryOf(x))
    requires AtLookup(Run(now, actions + waiting, lim), q, x)
    requires Answerable(Run(now, actions + waiting, lim).procs[q].call.req) && NoneBy(others, q) && NoneBy(later, q)
    requires !Expired(EntryOf(x), CheckingState(now, actions + waiting, q, others, later, lim).sh.now)
    ensures var s' := Apply(CheckingState(now, actions + waiting, q, others, later, lim), By(q, CheckExpiry), lim);
            q in s'.procs && s'.procs[q].pc == Replied(Replayed(Replay(EntryOf(x))))
  {
    HeldAtRead(now, actions, st, lim, StoreKey(x, lim), EntryOf(x), waiting, q, others, later);
    SettledAtLookup(now, actions, st, lim, x, waiting, q, others);
    StoredIsHit(now, actions + waiting, st, lim, q, x, others, later);
  }

  lemma {:induction false} SettledAtLookup(now: int, actions: seq<Action>, st: Setting, lim: Limits, x: Exchange,
                                           waiting: seq<Action>, q: nat, others: seq<Action>)
    requires IsSettled(now, actions + waiting + [By(q, LookupIndex)] + others, st, lim)
    requires x in Run(now, actions, lim).sh.log && StoreKey(x, lim) in Run(now, actions, lim).sh.entries
    ensures IsSettled(now, actions + waiting, st, lim) && OnceStored(now, actions + waiting, x, lim)
    ensures x in Run(now, actions + waiting, lim).sh.log
  {
    Regroup(actions, waiting, [By(q, LookupIndex)], others);
    SettledBefore(now, actions + waiting, [By(q, LookupIndex)] + others, st, lim);
    RunConcat(now, actions, waiting, lim);
    HistoryGrowsFrom(Run(now, actions, lim), waiting, lim);
  }

  lemma {:induction false} HeldAfter(now: int, actions: seq<Action>, more: seq<Action>, st: Setting, lim: Limits, key: string, e: Entry)
    requires IsSettled(now, actions + more, st, lim) && NoSetRemoves(more, key, e)
    requires Holds(Run(now, actions, lim), key, e) && !Endangered(Run(now, actions, lim), key, e)
    requires !Expired(e, Run(now, actions + more, lim).sh.now)
    ensures Holds(Run(now, actions + more, lim), key, e)
  {
    RunConcat(now, actions, more, lim);
    EntryStays(now, actions, more, st, lim, key, e);
    assert more[..|more|] == more;
  }

  lemma {:induction false} Regroup(a: seq<Action>, b: seq<Action>, c: seq<Action>, d: seq<Action>)
    ensures a + b + c + d == a + (b + c + d) && a + b + c + d == a + b + (c + d)
  {}

  lemma {:induction false} HeldAtRead(now: int, actions: seq<Action>, st: Setting, lim: Limits, key: string, e: Entry,
                                      waiting: seq<Action>, q: nat, others: seq<Action>, later: seq<Action>)
    requires IsSettled(now, actions + waiting + [By(q, LookupIndex)] + others, st, lim)
    requires Holds(Run(now, actions, lim), key, e) && !Endangered(Run(now, actions, lim), key, e)
    requires NoSetRemoves(waiting + [By(q, LookupIndex)] + others, key, e)
    requires !Expired(e, CheckingState(now, actions + waiting, q, others, later, lim).sh.now)
    ensures Holds(ReadingState(now, actions + waiting, q, others, lim), key, e)
  {
    Regroup(actions, waiting, [By(q, LookupIndex)], others);
    ClockAtRead(now, actions + waiting, q, others, later, lim);
    HeldAfter(now, actions, waiting + [By(q, LookupIndex)] + others, st, lim, key, e);
  }

  lemma {:induction false} ClockAtRead(now: int, actions: seq<Action>, q: nat, others: seq<Action>, later: seq<Action>, lim: Limits)
    ensures ReadingState(now, actions, q, others, lim).sh.now <= CheckingState(now, actions, q, others, later, lim).sh.now
  {
    var before := actions + [By(q, LookupIndex)] + others;
    assert before + [By(q, ReadCache)] + later == before + ([By(q, ReadCache)] + later);
    RunConcat(now, before, [By(q, ReadCache)] + later, lim);
    ClockFrom(Run(now, before, lim), [By(q, ReadCache)] + later, lim);
  }

  // ----- from the Set on -------------------------------------------------------------------------------------

  /** `p` is about to store a response that fits the budget. */
  ghost predicate AboutToStore(s: State, p: nat, x: Exchange, lim: Limits) {
    && p in s.procs && s.procs[p].pc.Answered? && s.procs[p].pc.stage.ToStore? && s.procs[p].pc.x == x
    && Size(EntryOf(x)) <= lim.maxBytes
  }

  /** What `Set` may leave of the store for `x`. */
  ghost predicate MayLeave(s: State, x: Exchange, after: map<string, Entry>, lim: Limits) {
    SetMay(s.sh.entries, StoreKey(x, lim), EntryOf(x), lim.maxBytes, after)
  }

  lemma {:induction false} StoredState(s: State, p: nat, x: Exchange, after: map<string, Entry>, lim: Limits)
    requires p in s.procs && s.procs[p].pc.Answered? && s.procs[p].pc.stage.ToStore? && s.procs[p].pc.x == x
    requires MayLeave(s, x, after, lim)
    ensures Apply(s, By(p, StoreEntry(after)), lim).sh == s.sh.(entries := after)
  {
    var w := World(s.sh, s.procs[p]);
    StoreShape(w, w.pr.pc.key, x, after, lim);
    PerformStore(w, after, lim);
    ApplyBy(s, p, StoreEntry(after), Perform(w, StoreEntry(after), lim), lim);
  }

  lemma {:induction false} StoringIsStorable(s: State, p: nat, x: Exchange, lim: Limits)
    requires AllSound(s, lim) && AboutToStore(s, p, x, lim)
    ensures x in s.sh.log && Storable(x, lim)
  {
    assert ProcSound(s.sh.log, s.procs[p], lim);
  }

  lemma {:induction false} StoredHolds(sh: Shared, x: Exchange, after: map<string, Entry>, lim: Limits)
    requires SetMay(sh.entries, StoreKey(x, lim), EntryOf(x), lim.maxBytes, after) && Size(EntryOf(x)) <= lim.maxBytes
    ensures StoreKey(x, lim) in after && after[StoreKey(x, lim)] == EntryOf(x)
  {}

  /** Once a fitting response has been stored its entry is there. */
  lemma {:induction false} FittingIsStored(now: int, actions: seq<Action>, st: Setting, lim: Limits, p: nat, x: Exchange,
                                           after: map<string, Entry>)
    requires IsSettled(now, actions, st, lim)
    requires AboutToStore(Run(now, actions, lim), p, x, lim) && MayLeave(Run(now, actions, lim), x, after, lim)
    ensures var s' := Run(now, actions + [By(p, StoreEntry(after))], lim);
            Holds(s', StoreKey(x, lim), EntryOf(x)) && x in s'.sh.log && Storable(x, lim)
  {
    var s := Run(now, actions, lim);
    EveryRunIsSound(now, actions, lim);
    StoringIsStorable(s, p, x, lim);
    StoredState(s, p, x, after, lim);
    StoredHolds(s.sh, x, after, lim);
    RunOneMore(now, actions, By(p, StoreEntry(after)), lim);
  }

  /** From the moment a fitting response has been stored: if no request has read an older entry under its
      key that expires earlier, every later request for the same variant is answered from it within its
      lifetime, whatever others do but remove it with a Set. */
  lemma {:induction false} SameRequestHits(now: int, actions: seq<Action>, st: Setting, lim: Limits, p: nat, x: Exchange,
                                           after: map<string, Entry>, waiting: seq<Action>, q: nat, others: seq<Action>, later: seq<Action>)
    requires IsSettled(now, actions, st, lim)
    requires AboutToStore(Run(now, actions, lim), p, x, lim) && MayLeave(Run(now, actions, lim), x, after, lim)
    requires var stored := actions + [By(p, StoreEntry(after))];
             && IsSettled(now, stored + waiting + [By(q, LookupIndex)] + others, st, lim)
             && !Endangered(Run(now, stored, lim), StoreKey(x, lim), EntryOf(x))
             && NoSetRemoves(waiting + [By(q, LookupIndex)] + others, StoreKey(x, lim), EntryOf(x))
             && AtLookup(Run(now, stored + waiting, lim), q, x)
             && Answerable(Run(now, stored + waiting, lim).procs[q].call.req) && NoneBy(others, q) && NoneBy(later, q)
             && !Expired(EntryOf(x), CheckingState(now, stored + waiting, q, others, later, lim).sh.now)
    ensures var s' := Apply(CheckingState(now, actions + [By(p, StoreEntry(after))] + waiting, q, others, later, lim), By(q, CheckExpiry), lim);
            q in s'.procs && s'.procs[q].pc == Replied(Replayed(Replay(EntryOf(x))))
  {
    FittingIsStored(now, actions, st, lim, p, x, after);
    StoredStaysHit(now, actions + [By(p, StoreEntry(after))], st, lim, x, waiting, q, others, later);
  }
}
