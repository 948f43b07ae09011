/** internal/proxy: what learning the Vary sets achieves. What is stored is found again, under the exact
    conditions the code needs for it, and requests do not remove each other's variants. */
module Stability {
  import opened Text
  import opened Http
  import opened CacheKey
  import opened Vary
  import opened Policy
  import opened Store
  import opened Protocol
  import opened Freshness
  import opened Transparency
  import opened Settled

  // ----- when a request can find its own response ---------------------------------------------------------

  lemma {:induction false} VariantKey(x: Exchange, req: Request, port: nat, names: seq<string>, lim: Limits)
    requires Variant(x, req, port) && multiset(names) == multiset(StoreNames(x))
    ensures KeyUnder(req, port, x.rule, names, lim) == StoreKey(x, lim)
  {
    VaryOrderIrrelevant(req, names, StoreNames(x));
    assert Pairs(req, StoreNames(x)) == Pairs(x.sent, StoreNames(x));
  }

  /** The request that brought a response is a variant of it unless a Connection header is keyed that
      the proxy has changed. */
  lemma {:induction false} OwnVariant(x: Exchange, req: Request, port: nat)
    requires x.sent == Sent(req) && x.port == port
    ensures Variant(x, req, port) <==>
            (Names(StoreNames(x), "Connection") ==> Get(req.headers, "Connection") == "close")
  {
    var names := StoreNames(x);
    ConnectionIsCanonical();
    forall n ensures Get(x.sent.headers, n) == if Canonical(n) == "Connection" then "close" else Get(req.headers, n) {
      SentGet(req, n);
    }
    forall n | n in names ensures Canonical(n) == "Connection" ==> Names(names, "Connection") {
      var i :| 0 <= i < |names| && names[i] == n;
    }
    if i :| 0 <= i < |names| && Canonical(names[i]) == "Connection" {
      assert names[i] in names && Get(req.headers, names[i]) == Get(req.headers, "Connection");
    }
  }

  /** What is learned from a response and merged with the rule's headers again is what the response was
      stored with. `learnt` is what was known before. */
  ghost predicate Relearned(a: seq<string>, b: seq<string>, learnt: seq<string>) {
    && (|b| > 0 || Tidy(a))
    && (|a| > 0 || |b| > 0 || learnt == [])
  }

  /** An empty list is not recorded, so what was learned before stays. */
  function Remembered(names: seq<string>, learnt: seq<string>): seq<string> {
    if |names| > 0 then names else learnt
  }

  lemma {:induction false} RelearnedIff(a: seq<string>, b: seq<string>, learnt: seq<string>)
    ensures multiset(Merge(a, Remembered(Merge(a, b), learnt))) == multiset(Merge(a, b)) <==> Relearned(a, b, learnt)
  {
    MergeMeetsIff(a, b);
    if |Merge(a, b)| > 0 {
      assert |a| > 0 || |b| > 0;
    } else {
      MergeEmpty(a, b);
      if |b| > 0 {
        MergeAbsorbs(a, b);
      }
      NothingMerged(learnt);
    }
  }

  lemma {:induction false} NothingMerged(learnt: seq<string>)
    ensures multiset(Merge([], learnt)) == multiset([]) <==> learnt == []
  {
    if |learnt| > 0 {
      MergeAbsorbs([], learnt);
      assert Merge([], learnt)[0] in multiset(Merge([], learnt));
    }
  }

  lemma {:induction false} NamesAfterLearning(w: World, x: Exchange)
    requires w.pr.pc.Answered? && w.pr.pc.stage.ToLearn? && w.pr.pc.x == x
    ensures LookupNames(DoLearn(w).sh, w.pr.call, x.rule)
         == Merge(x.rule.varyHeaders, Remembered(StoreNames(x), Learnt(w.sh.index, BaseKey(w.pr.call))))
  {}

  /** Exactly when a request, having learned from its response, will look up the key the response is
      stored under: there was something to learn or the rule's headers are canonical and free of
      repetition; there is something to remember or nothing was known before; and no Connection header
      is keyed other than "close". */
  lemma {:induction false} FindsOwnIff(w: World, x: Exchange, sc: Scope, lim: Limits)
    requires WorldOk(w, sc, lim) && w.pr.pc.Answered? && w.pr.pc.stage.ToLearn? && w.pr.pc.x == x
    ensures var c := w.pr.call;
            KeyUnder(c.req, c.port, x.rule, LookupNames(DoLearn(w).sh, c, x.rule), lim) == StoreKey(x, lim)
            <==> && Relearned(x.rule.varyHeaders, ParseVary(VaryLine(x.resp)), Learnt(w.sh.index, BaseKey(c)))
                 && (Names(StoreNames(x), "Connection") ==> Get(c.req.headers, "Connection") == "close")
  {
    var c := w.pr.call;
    var learnt := Learnt(w.sh.index, BaseKey(c));
    NamesAfterLearning(w, x);
    RelearnedIff(x.rule.varyHeaders, ParseVary(VaryLine(x.resp)), learnt);
    OwnVariant(x, c.req, c.port);
    LearntWithin(w.sh.index, BaseKey(c), sc);
    assert ExchangeOk(x, sc);
    FindsIff(x, c, Remembered(StoreNames(x), learnt), sc, lim);
  }

  /** A request finds an exchange exactly if it keys on the same names and is a variant of it. */
  lemma {:induction false} FindsIff(x: Exchange, c: Call, learnt: seq<string>, sc: Scope, lim: Limits)
    requires Clear(sc) && ExchangeOk(x, sc) && ReqOk(c.req, sc) && lim.maxBodyBytes > 0
    requires !BodyTooLarge(x.sent, lim) && !BodyTooLarge(c.req, lim)
    requires learnt == StoreNames(x) || (InWords(learnt, sc.words) && VaryWithin(learnt, sc.bodies))
    ensures var names := Merge(x.rule.varyHeaders, learnt);
            KeyUnder(c.req, c.port, x.rule, names, lim) == StoreKey(x, lim)
            <==> multiset(names) == multiset(StoreNames(x)) && Variant(x, c.req, c.port)
  {
    var names := Merge(x.rule.varyHeaders, learnt);
    StoreNamesOk(x, sc);
    if sc.bodies.AlwaysKeyed? && learnt == StoreNames(x) {
      SameMultisetMembers(StoreNames(x), sc.bodies.names);
    }
    MergeInScope(x.rule, learnt, sc);
    if multiset(names) == multiset(StoreNames(x)) && Variant(x, c.req, c.port) {
      VariantKey(x, c.req, c.port, names, lim);
    }
    if KeyUnder(c.req, c.port, x.rule, names, lim) == StoreKey(x, lim) {
      SameKeyIsVariant(x, c, x.rule, names, sc, lim);
      PairsGiveNames(x.sent, StoreNames(x), c.req, names);
    }
  }

  /** A rule that keys on `accept` and an upstream that sends no Vary: the response is stored under a
      key that no later lookup of the request arrives at. */
  lemma {:induction false} UntidyRuleNeverHits(w: World, x: Exchange, sc: Scope, lim: Limits)
    requires WorldOk(w, sc, lim) && w.pr.pc.Answered? && w.pr.pc.stage.ToLearn? && w.pr.pc.x == x
    requires x.rule.varyHeaders == ["accept"] && VaryLine(x.resp) == ""
    ensures KeyUnder(w.pr.call.req, w.pr.call.port, x.rule, LookupNames(DoLearn(w).sh, w.pr.call, x.rule), lim) != StoreKey(x, lim)
  {
    AcceptIsUntidy(x.rule.varyHeaders);
    FindsOwnIff(w, x, sc, lim);
  }

  lemma {:induction false} AcceptIsUntidy(names: seq<string>)
    requires names == ["accept"]
    ensures !Tidy(names)
  {
    assert Canonical("accept")[0] == 'A';
    assert Canonical(names[0]) != names[0];
  }

  /** A rule without headers and a response without Vary, where an earlier response under the same base
      key had one: the index still says so, and the response is stored under a key without names that no
      later lookup arrives at. */
  lemma {:induction false} OldNamesAreNotForgotten(w: World, x: Exchange, sc: Scope, lim: Limits)
    requires WorldOk(w, sc, lim) && w.pr.pc.Answered? && w.pr.pc.stage.ToLearn? && w.pr.pc.x == x
    requires x.rule.varyHeaders == [] && VaryLine(x.resp) == "" && Learnt(w.sh.index, BaseKey(w.pr.call)) == ["A"]
    ensures DoLearn(w).sh.index == w.sh.index
    ensures KeyUnder(w.pr.call.req, w.pr.call.port, x.rule, LookupNames(DoLearn(w).sh, w.pr.call, x.rule), lim) != StoreKey(x, lim)
  {
    FindsOwnIff(w, x, sc, lim);
  }

  // ----- what is stored is found --------------------------------------------------------------------------

  /** A key determines its base key. */
  lemma {:induction false} KeyGivesBase(x: Exchange, y: Exchange, sc: Scope, lim: Limits)
    requires Clear(sc) && ExchangeOk(x, sc) && ExchangeOk(y, sc) && StoreKey(x, lim) == StoreKey(y, lim)
    ensures BaseOf(x) == BaseOf(y)
  {
    StoreNamesOk(x, sc);
    StoreNamesOk(y, sc);
    KeyDecodes(x.sent, x.port, x.rule, StoreNames(x), y.sent, y.port, y.rule, StoreNames(y), sc, lim);
    SameBase(x.sent, y.sent, x.port);
  }

  lemma {:induction false} FiledIsKnown(sh: Shared, st: Setting, x: Exchange, lim: Limits)
    requires Clear(st.sc) && LogOk(sh.log, st.sc) && ExchangeOk(x, st.sc)
    requires Filed(sh.log, sh.index, st, StoreKey(x, lim), lim)
    ensures Known(sh.index, st, BaseOf(x))
  {
    var y :| y in sh.log && Storable(y, lim) && StoreKey(x, lim) == StoreKey(y, lim) && Known(sh.index, st, BaseOf(y));
    KeyGivesBase(x, y, st.sc, lim);
  }

  /** At some time the store held an entry under the key of `x`. */
  ghost predicate OnceStored(now: int, actions: seq<Action>, x: Exchange, lim: Limits) {
    exists before, more :: before + more == actions && StoreKey(x, lim) in Run(now, before, lim).sh.entries
  }

  lemma {:induction false} FiledLater(now: int, before: seq<Action>, more: seq<Action>, st: Setting, lim: Limits, key: string)
    requires IsSettled(now, before, st, lim) && key in Run(now, before, lim).sh.entries
    ensures var sh := Run(now, before + more, lim).sh; Filed(sh.log, sh.index, st, key, lim)
  {
    SettledRun(now, before, st, lim);
    var s := Run(now, before, lim);
    RunConcat(now, before, more, lim);
    HistoryGrowsFrom(s, more, lim);
    FiledGrows(s.sh.log, RunFrom(s, more, lim).sh.log, s.sh.index, RunFrom(s, more, lim).sh.index, st, key, lim);
  }

  lemma {:induction false} OnceStoredIsKnown(now: int, actions: seq<Action>, st: Setting, lim: Limits, x: Exchange)
    requires IsSettled(now, actions, st, lim) && OnceStored(now, actions, x, lim)
    requires x in Run(now, actions, lim).sh.log
    ensures Known(Run(now, actions, lim).sh.index, st, BaseOf(x))
  {
    var before, more :| before + more == actions && StoreKey(x, lim) in Run(now, before, lim).sh.entries;
    SettledBefore(now, before, more, st, lim);
    FiledLater(now, before, more, st, lim, StoreKey(x, lim));
    EveryRun(now, actions, st.sc, lim);
    FiledIsKnown(Run(now, actions, lim).sh, st, x, lim);
  }

  lemma {:induction false} VariantLookup(w: World, st: Setting, x: Exchange, lim: Limits)
    requires IndexFull(w.sh.index, st) && Known(w.sh.index, st, BaseOf(x))
    requires w.pr.pc == Matched(st.rule) && w.pr.req == w.pr.call.req
    requires x.rule == st.rule && StoreNames(x) == Full(st, BaseOf(x)) && Variant(x, w.pr.call.req, w.pr.call.port)
    ensures DoLookup(w, lim).pr.pc.Keyed? && DoLookup(w, lim).pr.pc.key == StoreKey(x, lim)
  {
    var c := w.pr.call;
    SameBase(x.sent, c.req, c.port);
    LookupNamesFull(w.sh.index, st, BaseOf(x));
    VariantKey(x, c.req, c.port, LookupNames(w.sh, c, st.rule), lim);
  }

  /** `p` has come to its lookup with a request that must be given what `x` brought. */
  ghost predicate AtLookup(s: State, p: nat, x: Exchange) {
    p in s.procs && s.procs[p].pc.Matched? && Variant(x, s.procs[p].call.req, s.procs[p].call.port)
  }

  /** In a settled run, once an exchange's entry has been stored, any request for the same variant looks
      up the key of that entry from then on, even if the entry has gone in the meantime. */
  lemma {:induction false} LookupFindsStored(now: int, actions: seq<Action>, st: Setting, lim: Limits, p: nat, x: Exchange)
    requires IsSettled(now, actions, st, lim) && OnceStored(now, actions, x, lim)
    requires x in Run(now, actions, lim).sh.log && Storable(x, lim) && AtLookup(Run(now, actions, lim), p, x)
    ensures var s := Run(now, actions, lim);
            var pc := DoLookup(World(s.sh, s.procs[p]), lim).pr.pc;
            pc.Keyed? && pc.key == StoreKey(x, lim)
  {
    SettledRun(now, actions, st, lim);
    OnceStoredIsKnown(now, actions, st, lim, x);
    var s := Run(now, actions, lim);
    assert ProcSettled(s.sh.index, s.procs[p], st, lim) && ProcSound(s.sh.log, s.procs[p], lim);
    assert ProcOk(s.sh.log, s.procs[p], st.sc, lim) && FitsSetting(x, st);
    VariantLookup(World(s.sh, s.procs[p]), st, x, lim);
  }

  /** In a settled run, the request that brought a response is a variant of it. */
  lemma {:induction false} SameRequestIsVariant(now: int, actions: seq<Action>, st: Setting, lim: Limits, x: Exchange, req: Request)
    requires IsSettled(now, actions, st, lim)
    requires x in Run(now, actions, lim).sh.log && Storable(x, lim) && x.sent == Sent(req)
    ensures Variant(x, req, x.port)
  {
    SettledRun(now, actions, st, lim);
    assert FitsSetting(x, st);
    OwnVariant(x, req, x.port);
  }

  // ----- a stored response is hit, whatever happens in between --------------------------------------------

  /** `p` is about to read the store under `key`, which its request allows. */
  ghost predicate AtRead(s: State, p: nat, key: string) {
    p in s.procs && s.procs[p].pc.Keyed? && s.procs[p].pc.key == key && Answerable(s.procs[p].call.req)
  }

  /** `p` has read `e` and is about to check whether it has expired. */
  ghost predicate AtCheck(s: State, p: nat, e: Entry) {
    p in s.procs && s.procs[p].pc.Read? && s.procs[p].pc.entry == e
  }

  lemma {:induction false} LookupStep(s: State, p: nat, key: string, others: seq<Action>, lim: Limits)
    requires p in s.procs && Answerable(s.procs[p].call.req) && NoneBy(others, p)
    requires var pc := DoLookup(World(s.sh, s.procs[p]), lim).pr.pc; pc.Keyed? && pc.key == key
    ensures AtRead(RunFrom(Apply(s, By(p, LookupIndex), lim), others, lim), p, key)
  {
    ApplyBy(s, p, LookupIndex, DoLookup(World(s.sh, s.procs[p]), lim), lim);
    ThroughOthers(Apply(s, By(p, LookupIndex), lim), others, p, lim);
  }

  lemma {:induction false} ReadStep(s: State, p: nat, key: string, others: seq<Action>, lim: Limits)
    requires AtRead(s, p, key) && key in s.sh.entries && NoneBy(others, p)
    ensures AtCheck(RunFrom(Apply(s, By(p, ReadCache), lim), others, lim), p, s.sh.entries[key])
  {
    LookupAllowedIff(s.procs[p].call.req);
    ApplyBy(s, p, ReadCache, DoRead(World(s.sh, s.procs[p])), lim);
    ThroughOthers(Apply(s, By(p, ReadCache), lim), others, p, lim);
  }

  lemma {:induction false} CheckStep(s: State, p: nat, e: Entry, lim: Limits)
    requires AtCheck(s, p, e) && !Expired(e, s.sh.now)
    ensures var s' := Apply(s, By(p, CheckExpiry), lim); p in s'.procs && s'.procs[p].pc == Replied(Replayed(Replay(e)))
  {
    ApplyBy(s, p, CheckExpiry, DoCheck(World(s.sh, s.procs[p])), lim);
  }

  /** The state in which `p` reads the store: it has looked up its key, and `others` have gone on. */
  ghost function ReadingState(now: int, actions: seq<Action>, p: nat, others: seq<Action>, lim: Limits): State {
    Run(now, actions + [By(p, LookupIndex)] + others, lim)
  }

  ghost function CheckingState(now: int, actions: seq<Action>, p: nat, others: seq<Action>, later: seq<Action>, lim: Limits): State {
    Run(now, actions + [By(p, LookupIndex)] + others + [By(p, ReadCache)] + later, lim)
  }

  /** A stored response is hit. A request for a variant that has once been stored comes to its lookup;
      anything may happen between its steps, as long as the entry is there when the request reads the
      store and has not expired when the request checks it: then it is answered from it. */
  lemma {:induction false} StoredIsHit(now: int, actions: seq<Action>, st: Setting, lim: Limits, p: nat, x: Exchange,
                                       others: seq<Action>, later: seq<Action>)
    requires IsSettled(now, actions, st, lim) && OnceStored(now, actions, x, lim)
    requires x in Run(now, actions, lim).sh.log && Storable(x, lim) && AtLookup(Run(now, actions, lim), p, x)
    requires Answerable(Run(now, actions, lim).procs[p].call.req) && NoneBy(others, p) && NoneBy(later, p)
    requires var s := ReadingState(now, actions, p, others, lim);
             StoreKey(x, lim) in s.sh.entries && s.sh.entries[StoreKey(x, lim)] == EntryOf(x)
    requires !Expired(EntryOf(x), CheckingState(now, actions, p, others, later, lim).sh.now)
    ensures var s' := Apply(CheckingState(now, actions, p, others, later, lim), By(p, CheckExpiry), lim);
            p in s'.procs && s'.procs[p].pc == Replied(Replayed(Replay(EntryOf(x))))
  {
    ReachesRead(now, actions, st, lim, p, x, others);
    ReachesCheck(now, actions, p, StoreKey(x, lim), others, later, lim);
    CheckStep(CheckingState(now, actions, p, others, later, lim), p, EntryOf(x), lim);
  }

  lemma {:induction false} ReachesRead(now: int, actions: seq<Action>, st: Setting, lim: Limits, p: nat, x: Exchange,
                                       others: seq<Action>)
    requires IsSettled(now, actions, st, lim) && OnceStored(now, actions, x, lim)
    requires x in Run(now, actions, lim).sh.log && Storable(x, lim) && AtLookup(Run(now, actions, lim), p, x)
    requires Answerable(Run(now, actions, lim).procs[p].call.req) && NoneBy(others, p)
    ensures AtRead(ReadingState(now, actions, p, others, lim), p, StoreKey(x, lim))
  {
    LookupFindsStored(now, actions, st, lim, p, x);
    LookupStep(Run(now, actions, lim), p, StoreKey(x, lim), others, lim);
    RunOneMore(now, actions, By(p, LookupIndex), lim);
    RunConcat(now, actions + [By(p, LookupIndex)], others, lim);
  }

  lemma {:induction false} ReachesCheck(now: int, actions: seq<Action>, p: nat, key: string, others: seq<Action>,
                                        later: seq<Action>, lim: Limits)
    requires NoneBy(later, p) && AtRead(ReadingState(now, actions, p, others, lim), p, key)
    requires key in ReadingState(now, actions, p, others, lim).sh.entries
    ensures AtCheck(CheckingState(now, actions, p, others, later, lim), p, ReadingState(now, actions, p, others, lim).sh.entries[key])
  {
    var before := actions + [By(p, LookupIndex)] + others;
    ReadStep(Run(now, before, lim), p, key, later, lim);
    RunOneMore(now, before, By(p, ReadCache), lim);
    RunConcat(now, before + [By(p, ReadCache)], later, lim);
  }

  // ----- no request removes another variant ---------------------------------------------------------------

  /** Nothing can be filed under a key made with the rule's headers alone, if there is more to learn. */
  lemma {:induction false} NothingUnderShortKey(sh: Shared, c: Call, st: Setting, lim: Limits, key: string)
    requires Clear(st.sc) && LogOk(sh.log, st.sc) && LogFits(sh.log, st, lim) && OneRule(sh.log, st.rule)
    requires LogSound(sh.log, sh.now, lim) && !BodyTooLarge(c.req, lim)
    requires ReqOk(c.req, st.sc) && KeyOk(c, st.rule, st.rule.varyHeaders, key, st.sc, lim)
    requires multiset(st.rule.varyHeaders) != multiset(Full(st, BaseKey(c)))
    ensures !Filed(sh.log, sh.index, st, key, lim)
  {
    if Filed(sh.log, sh.index, st, key, lim) {
      var y :| y in sh.log && Storable(y, lim) && key == StoreKey(y, lim) && Known(sh.index, st, BaseOf(y));
      assert FitsSetting(y, st);
      SameKeyIsVariant(y, c, st.rule, st.rule.varyHeaders, st.sc, lim);
      PairsGiveNames(y.sent, StoreNames(y), c.req, st.rule.varyHeaders);
      SameBase(y.sent, c.req, c.port);
      assert false;
    }
  }

  lemma {:induction false} NamesOfKey(c: Call, st: Setting, key: string, lim: Limits) returns (names: seq<string>)
    requires LookupKey(c, st, key, lim)
    ensures LookedUp(names, st, BaseKey(c)) && key == KeyUnder(c.req, c.port, st.rule, names, lim)
  {
    names :| LookedUp(names, st, BaseKey(c)) && key == KeyUnder(c.req, c.port, st.rule, names, lim);
  }

  /** A request that has been answered stores under the key it looked up, or nothing is there. */
  lemma {:induction false} OldKeyIsHarmless(sh: Shared, c: Call, key: string, x: Exchange, st: Setting, lim: Limits)
    requires Clear(st.sc) && LogOk(sh.log, st.sc) && LogFits(sh.log, st, lim) && OneRule(sh.log, st.rule)
    requires LogSound(sh.log, sh.now, lim) && !BodyTooLarge(c.req, lim)
    requires ReqOk(c.req, st.sc) && LookupKey(c, st, key, lim)
    requires x in sh.log && Storable(x, lim) && x.sent == Sent(c.req) && x.port == c.port
    ensures key == StoreKey(x, lim) || !Filed(sh.log, sh.index, st, key, lim)
  {
    OwnNames(sh.log, x, c, st, lim);
    assert ExchangeOk(x, st.sc);
    var names := NamesOfKey(c, st, key, lim);
    if multiset(names) == multiset(Full(st, BaseKey(c))) {
      OwnVariant(x, c.req, c.port);
      VariantKey(x, c.req, c.port, names, lim);
    } else {
      NothingUnderShortKey(sh, c, st, lim, key);
    }
  }

  lemma {:induction false} HarmlessDelete(s: State, p: nat, lim: Limits)
    requires p in s.procs && s.procs[p].pc.Answered? && s.procs[p].pc.stage.ToDelete? ==>
               s.procs[p].pc.key == StoreKey(s.procs[p].pc.x, lim) || s.procs[p].pc.key !in s.sh.entries
    ensures Apply(s, By(p, DeleteOld), lim).sh.entries == s.sh.entries
  {
    if p in s.procs {
      var w := World(s.sh, s.procs[p]);
      ApplyBy(s, p, DeleteOld, DoDelete(w, lim), lim);
      HarmlessKey(w, lim);
    }
  }

  lemma {:induction false} HarmlessKey(w: World, lim: Limits)
    requires w.pr.pc.Answered? && w.pr.pc.stage.ToDelete? ==> w.pr.pc.key == StoreKey(w.pr.pc.x, lim) || w.pr.pc.key !in w.sh.entries
    ensures DoDelete(w, lim).sh.entries == w.sh.entries
  {
    if w.pr.pc.Answered? && w.pr.pc.key !in w.sh.entries {
      assert w.sh.entries - {w.pr.pc.key} == w.sh.entries;
    }
  }

  /** In a settled run, the Delete that follows a changed key never removes anything: either the key has
      not changed, or no entry can be filed under the old one. */
  lemma {:induction false} DeleteOldRemovesNothing(now: int, actions: seq<Action>, st: Setting, lim: Limits, p: nat)
    requires IsSettled(now, actions, st, lim)
    ensures Apply(Run(now, actions, lim), By(p, DeleteOld), lim).sh.entries == Run(now, actions, lim).sh.entries
  {
    SettledRun(now, actions, st, lim);
    OldKeysAreHarmless(Run(now, actions, lim), st, lim, p);
    HarmlessDelete(Run(now, actions, lim), p, lim);
  }

  lemma {:induction false} OldKeysAreHarmless(s: State, st: Setting, lim: Limits, p: nat)
    requires Inv(s, st.sc, lim) && Steady(s, st, lim) && LogFits(s.sh.log, st, lim)
    ensures p in s.procs && s.procs[p].pc.Answered? && s.procs[p].pc.stage.ToDelete? ==>
              s.procs[p].pc.key == StoreKey(s.procs[p].pc.x, lim) || s.procs[p].pc.key !in s.sh.entries
  {
    if p in s.procs && s.procs[p].pc.Answered? && s.procs[p].pc.stage.ToDelete? {
      var pr := s.procs[p];
      assert ProcSettled(s.sh.index, pr, st, lim) && ProcSound(s.sh.log, pr, lim) && ProcOk(s.sh.log, pr, st.sc, lim);
      OldKeyIsHarmless(s.sh, pr.call, pr.pc.key, pr.pc.x, st, lim);
    }
  }

  /** In a settled run no request removes another variant's entry: what any step but a Set removes is
      filed under the request's own variant, and is removed because the request had read an entry there
      that has expired since. */
  lemma {:induction false} VariantsDoNotDisturb(now: int, actions: seq<Action>, st: Setting, lim: Limits,
                                                p: nat, step: Step, key: string)
    requires IsSettled(now, actions, st, lim) && !step.StoreEntry?
    requires key in Run(now, actions, lim).sh.entries
    requires key !in Apply(Run(now, actions, lim), By(p, step), lim).sh.entries
    ensures var s := Run(now, actions, lim);
            && step == DropStale && p in s.procs && s.procs[p].pc.Stale? && s.procs[p].pc.key == key
            && exists x :: x in s.sh.log && key == StoreKey(x, lim) && s.sh.entries[key] == EntryOf(x)
                           && Variant(x, s.procs[p].call.req, s.procs[p].call.port)
  {
    var s := Run(now, actions, lim);
    if step.DeleteOld? {
      DeleteOldRemovesNothing(now, actions, st, lim, p);
    } else {
      OnlyDropRemoves(s, p, step, key, lim);
      EveryRun(now, actions, st.sc, lim);
      assert ProcOk(s.sh.log, s.procs[p], st.sc, lim);
      StaleIsOwnVariant(s.sh, s.procs[p], key, st.sc, lim);
    }
  }

  lemma {:induction false} StaleIsOwnVariant(sh: Shared, pr: Proc, key: string, sc: Scope, lim: Limits)
    requires Clear(sc) && LogOk(sh.log, sc) && LogSound(sh.log, sh.now, lim) && ProcSound(sh.log, pr, lim) && key in sh.entries && Backed(sh.log, key, sh.entries[key], lim)
    requires ProcOk(sh.log, pr, sc, lim) && pr.pc.Stale? && pr.pc.key == key
    ensures exists x :: x in sh.log && key == StoreKey(x, lim) && sh.entries[key] == EntryOf(x)
                        && Variant(x, pr.call.req, pr.call.port)
  {
    var x :| x in sh.log && Storable(x, lim) && key == StoreKey(x, lim) && sh.entries[key] == EntryOf(x);
    SameKeyIsVariant(x, pr.call, pr.pc.rule, pr.pc.names, sc, lim);
  }

  lemma {:induction false} OnlyDropRemoves(s: State, p: nat, step: Step, key: string, lim: Limits)
    requires !step.StoreEntry? && !step.DeleteOld?
    requires key in s.sh.entries && key !in Apply(s, By(p, step), lim).sh.entries
    ensures step == DropStale && p in s.procs && s.procs[p].pc.Stale? && s.procs[p].pc.key == key
  {}
}
