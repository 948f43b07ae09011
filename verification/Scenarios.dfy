/** Runs of the state machine, step by step: a fresh entry lost to the gap in `Get`, and a wrong hit where
    header names can be confused. */
module Scenarios {
  import opened Text
  import opened Http
  import opened CacheKey
  import opened Vary
  import opened CacheControl
  import opened Policy
  import opened Store
  import opened Protocol

  // ----- several steps of one request ---------------------------------------------------------------------

  ghost function PerformAll(w: World, steps: seq<Step>, lim: Limits): World {
    if |steps| == 0 then w
    else Perform(PerformAll(w, steps[..|steps| - 1], lim), steps[|steps| - 1], lim)
  }

  function Schedule(p: nat, steps: seq<Step>): (r: seq<Action>)
    ensures |r| == |steps| && forall i :: 0 <= i < |steps| ==> r[i] == By(p, steps[i])
  {
    seq(|steps|, i requires 0 <= i < |steps| => By(p, steps[i]))
  }

  lemma {:induction false} Next(w0: World, done: seq<Step>, w: World, step: Step, w': World, lim: Limits)
    requires PerformAll(w0, done, lim) == w && Perform(w, step, lim) == w'
    ensures PerformAll(w0, done + [step], lim) == w'
  {
    assert (done + [step])[..|done|] == done;
  }

  lemma {:induction false} ScheduleRuns(s: State, p: nat, steps: seq<Step>, lim: Limits)
    requires p in s.procs
    ensures var w := PerformAll(World(s.sh, s.procs[p]), steps, lim);
            RunFrom(s, Schedule(p, steps), lim) == State(w.sh, s.procs[p := w.pr])
  {
    if |steps| == 0 {
      assert s.procs[p := s.procs[p]] == s.procs;
    } else {
      var init, step := steps[..|steps| - 1], steps[|steps| - 1];
      assert Schedule(p, steps) == Schedule(p, init) + [By(p, step)];
      ScheduleRuns(s, p, init, lim);
      RunFromOneMore(s, Schedule(p, init), By(p, step), lim);
      var w := PerformAll(World(s.sh, s.procs[p]), init, lim);
      ApplyBy(State(w.sh, s.procs[p := w.pr]), p, step, Perform(w, step, lim), lim);
      assert s.procs[p := w.pr][p := Perform(w, step, lim).pr] == s.procs[p := Perform(w, step, lim).pr];
    }
  }

  /** A run goes on with steps of one request. */
  lemma {:induction false} Advance(now: int, actions: seq<Action>, s: State, p: nat, steps: seq<Step>, w: World, lim: Limits)
    requires Run(now, actions, lim) == s && p in s.procs && PerformAll(World(s.sh, s.procs[p]), steps, lim) == w
    ensures Run(now, actions + Schedule(p, steps), lim) == State(w.sh, s.procs[p := w.pr])
  {
    ScheduleRuns(s, p, steps, lim);
    RunConcat(now, actions, Schedule(p, steps), lim);
  }

  // ----- single steps, computed ---------------------------------------------------------------------------

  lemma {:induction false} EvMatch(w: World, rule: Rule, lim: Limits)
    requires w.pr.pc.Arrived? && Classify(w.sh.rules, w.pr.call, lim) == Matched(rule)
    ensures Perform(w, MatchPolicy, lim) == Goto(w, Matched(rule))
  {}

  lemma {:induction false} EvLookup(w: World, rule: Rule, names: seq<string>, key: string, lim: Limits)
    requires w.pr.pc == Matched(rule) && names == LookupNames(w.sh, w.pr.call, rule)
    requires key == KeyUnder(w.pr.req, w.pr.call.port, rule, names, lim)
    ensures Perform(w, LookupIndex, lim) == Goto(w, Keyed(rule, names, key))
  {}

  lemma {:induction false} EvRead(w: World, rule: Rule, names: seq<string>, key: string, lim: Limits)
    requires w.pr.pc == Keyed(rule, names, key)
    ensures Perform(w, ReadCache, lim) ==
            Goto(w, if LookupAllowed(w.pr.call.req) && key in w.sh.entries
                    then Read(rule, names, key, w.sh.entries[key]) else Missed(rule, names, key))
  {}

  lemma {:induction false} EvFetch(w: World, rule: Rule, names: seq<string>, key: string, x: Exchange, lim: Limits)
    requires w.pr.pc == Missed(rule, names, key) && Buffered(x.resp, lim)
    requires x == Exchange(Sent(w.pr.req), w.pr.call.port, rule, x.resp, w.sh.now)
    ensures Perform(w, Fetch(Some(x.resp)), lim)
         == World(w.sh.(log := w.sh.log + {x}), Proc(w.pr.call, Sent(w.pr.req), Answered(ToDecide, key, x)))
  {}

  lemma {:induction false} EvDecide(w: World, key: string, x: Exchange, lim: Limits)
    requires w.pr.pc == Answered(ToDecide, key, x) && !Bypassed(w.pr.call.req, x.resp)
    ensures Perform(w, Decide, lim) == Goto(w, Answered(ToLearn, key, x))
  {}

  lemma {:induction false} EvLearn(w: World, key: string, x: Exchange, lim: Limits)
    requires w.pr.pc == Answered(ToLearn, key, x)
    ensures Perform(w, Learn, lim)
         == World(w.sh.(index := if |StoreNames(x)| > 0 then w.sh.index[BaseKey(w.pr.call) := StoreNames(x)] else w.sh.index),
                  w.pr.(pc := Answered(ToDelete, key, x)))
  {}

  lemma {:induction false} EvDelete(w: World, key: string, x: Exchange, lim: Limits)
    requires w.pr.pc == Answered(ToDelete, key, x) && key !in w.sh.entries
    ensures Perform(w, DeleteOld, lim) == Goto(w, Answered(ToStore, key, x))
  {
    assert w.sh.entries - {key} == w.sh.entries;
  }

  lemma {:induction false} EvStore(w: World, key: string, x: Exchange, after: map<string, Entry>, lim: Limits)
    requires w.pr.pc == Answered(ToStore, key, x)
    requires SetMay(w.sh.entries, StoreKey(x, lim), EntryOf(x), lim.maxBytes, after)
    ensures Perform(w, StoreEntry(after), lim) == World(w.sh.(entries := after), w.pr.(pc := Replied(Relayed(Miss(x.resp)))))
  {
    PerformStore(w, after, lim);
    StoreShape(w, key, x, after, lim);
  }

  lemma {:induction false} EvExpired(w: World, rule: Rule, names: seq<string>, key: string, e: Entry, lim: Limits)
    requires w.pr.pc == Read(rule, names, key, e) && Expired(e, w.sh.now)
    ensures Perform(w, CheckExpiry, lim) == Goto(w, Stale(rule, names, key))
  {}

  lemma {:induction false} EvHit(w: World, rule: Rule, names: seq<string>, key: string, e: Entry, lim: Limits)
    requires w.pr.pc == Read(rule, names, key, e) && !Expired(e, w.sh.now)
    ensures var h := Hit(w.pr.call.req, w.pr.call.port, Replay(e), w.sh.now);
            Perform(w, CheckExpiry, lim) == World(w.sh.(hits := w.sh.hits + {h}), w.pr.(pc := Replied(Replayed(h.reply))))
  {}

  lemma {:induction false} EvDrop(w: World, rule: Rule, names: seq<string>, key: string, lim: Limits)
    requires w.pr.pc == Stale(rule, names, key)
    ensures Perform(w, DropStale, lim) == World(w.sh.(entries := w.sh.entries - {key}), w.pr.(pc := Missed(rule, names, key)))
  {}

  // ----- phases -------------------------------------------------------------------------------------------

  const Looking := [MatchPolicy, LookupIndex, ReadCache]

  /** From its arrival a request gets as far as the read of the store. */
  lemma {:induction false} PhaseLook(w: World, rule: Rule, names: seq<string>, key: string, lim: Limits)
    requires w.pr == Proc(w.pr.call, w.pr.call.req, Arrived) && Classify(w.sh.rules, w.pr.call, lim) == Matched(rule)
    requires names == LookupNames(w.sh, w.pr.call, rule) && key == KeyUnder(w.pr.req, w.pr.call.port, rule, names, lim)
    ensures PerformAll(w, Looking, lim) ==
            Goto(w, if LookupAllowed(w.pr.call.req) && key in w.sh.entries
                    then Read(rule, names, key, w.sh.entries[key]) else Missed(rule, names, key))
  {
    var w1 := Goto(w, Matched(rule));
    var w2 := Goto(w, Keyed(rule, names, key));
    EvMatch(w, rule, lim);
    Next(w, [], w, MatchPolicy, w1, lim);
    EvLookup(w1, rule, names, key, lim);
    Next(w, [MatchPolicy], w1, LookupIndex, w2, lim);
    EvRead(w2, rule, names, key, lim);
    Next(w, [MatchPolicy, LookupIndex], w2, ReadCache, Perform(w2, ReadCache, lim), lim);
    assert [] + [MatchPolicy] == [MatchPolicy];
    assert [MatchPolicy] + [LookupIndex] == [MatchPolicy, LookupIndex];
    assert [MatchPolicy, LookupIndex] + [ReadCache] == Looking;
  }

  function Learning(resp: Response): seq<Step> {
    [Fetch(Some(resp)), Decide, Learn]
  }

  /** After a miss, a cacheable answer is learned from. */
  lemma {:induction false} PhaseLearn(w: World, rule: Rule, names: seq<string>, key: string, x: Exchange, lim: Limits)
    requires w.pr.pc == Missed(rule, names, key) && Buffered(x.resp, lim) && !Bypassed(w.pr.call.req, x.resp)
    requires x == Exchange(Sent(w.pr.req), w.pr.call.port, rule, x.resp, w.sh.now)
    ensures PerformAll(w, Learning(x.resp), lim) ==
            World(w.sh.(log := w.sh.log + {x},
                        index := if |StoreNames(x)| > 0 then w.sh.index[BaseKey(w.pr.call) := StoreNames(x)] else w.sh.index),
                  Proc(w.pr.call, Sent(w.pr.req), Answered(ToDelete, key, x)))
  {
    var w1 := World(w.sh.(log := w.sh.log + {x}), Proc(w.pr.call, Sent(w.pr.req), Answered(ToDecide, key, x)));
    var w2 := Goto(w1, Answered(ToLearn, key, x));
    EvFetch(w, rule, names, key, x, lim);
    Next(w, [], w, Fetch(Some(x.resp)), w1, lim);
    EvDecide(w1, key, x, lim);
    Next(w, [Fetch(Some(x.resp))], w1, Decide, w2, lim);
    EvLearn(w2, key, x, lim);
    Next(w, [Fetch(Some(x.resp)), Decide], w2, Learn, Perform(w2, Learn, lim), lim);
    assert [] + [Fetch(Some(x.resp))] == [Fetch(Some(x.resp))];
    assert [Fetch(Some(x.resp))] + [Decide] == [Fetch(Some(x.resp)), Decide];
    assert [Fetch(Some(x.resp)), Decide] + [Learn] == Learning(x.resp);
  }

  function Storing(after: map<string, Entry>): seq<Step> {
    [DeleteOld, StoreEntry(after)]
  }

  /** And stored, where nothing is under the old key. */
  lemma {:induction false} PhaseStore(w: World, key: string, x: Exchange, after: map<string, Entry>, lim: Limits)
    requires w.pr.pc == Answered(ToDelete, key, x) && key !in w.sh.entries
    requires SetMay(w.sh.entries, StoreKey(x, lim), EntryOf(x), lim.maxBytes, after)
    ensures PerformAll(w, Storing(after), lim) == World(w.sh.(entries := after), w.pr.(pc := Replied(Relayed(Miss(x.resp)))))
  {
    var w1 := Goto(w, Answered(ToStore, key, x));
    EvDelete(w, key, x, lim);
    Next(w, [], w, DeleteOld, w1, lim);
    EvStore(w1, key, x, after, lim);
    Next(w, [DeleteOld], w1, StoreEntry(after), Perform(w1, StoreEntry(after), lim), lim);
    assert [] + [DeleteOld] == [DeleteOld];
    assert [DeleteOld] + [StoreEntry(after)] == Storing(after);
  }

  lemma {:induction false} PhaseOne(w: World, step: Step, w': World, lim: Limits)
    requires Perform(w, step, lim) == w'
    ensures PerformAll(w, [step], lim) == w'
  {
    Next(w, [], w, step, w', lim);
    assert [] + [step] == [step];
  }
}
