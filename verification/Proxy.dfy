/** internal/proxy/proxy.go: `handleRequest` and its helpers as methods that change the Vary index and
    the store in place. One call that is not interrupted takes the steps of `Protocol` in order. */
module Proxying {
  import opened Text
  import opened Http
  import opened CacheKey
  import opened Vary
  import opened CacheControl
  import opened Policy
  import opened Protocol
  import opened Freshness
  import opened Transparency
  import Store

  // ----- the steps of one call, in order ------------------------------------------------------------

  function LookupPhase(w: World, lim: Limits): World {
    DoDrop(DoCheck(DoRead(DoLookup(DoMatch(w, lim), lim))))
  }

  ghost function AnswerPhase(w: World, answer: Option<Response>, after: map<string, Store.Entry>, lim: Limits): World {
    DoStore(DoDelete(DoLearn(DoDecide(DoFetch(w, answer, lim))), lim), after, lim)
  }

  /** One call: `later` is the clock when the upstream has answered, `after` what the store holds
      at the end. */
  ghost function Handled(w: World, answer: Option<Response>, later: int, after: map<string, Store.Entry>, lim: Limits): World {
    var seen := LookupPhase(w, lim);
    AnswerPhase(seen.(sh := seen.sh.(now := later)), answer, after, lim)
  }

  /** A call keeps what `Transparency` proves of every run: so every hit of a sequence of calls is
      transparent, too. */
  lemma {:induction false} HandledOk(w: World, answer: Option<Response>, later: int, after: map<string, Store.Entry>,
                                     sc: Scope, lim: Limits)
    requires WorldOk(w, sc, lim) && w.sh.now <= later
    requires answer.Some? ==> VaryOk(answer.value, sc)
    ensures WorldOk(Handled(w, answer, later, after, lim), sc, lim)
  {
    var seen := LookupPhase(w, lim);
    LookupPhaseOk(w, sc, lim);
    AnswerPhaseOk(seen.(sh := seen.sh.(now := later)), answer, after, sc, lim);
  }

  lemma {:induction false} AnswerPhaseOk(w: World, answer: Option<Response>, after: map<string, Store.Entry>, sc: Scope, lim: Limits)
    requires WorldOk(w, sc, lim)
    requires answer.Some? ==> VaryOk(answer.value, sc)
    ensures WorldOk(AnswerPhase(w, answer, after, lim), sc, lim)
  {
    FetchOk(w, answer, sc, lim);
    var w1 := DoFetch(w, answer, lim);
    DecideOk(w1, sc, lim);
    LearnOk(DoDecide(w1), sc, lim);
    DeleteOk(DoLearn(DoDecide(w1)), sc, lim);
    StoreOk(DoDelete(DoLearn(DoDecide(w1)), lim), after, sc, lim);
  }

  lemma {:induction false} LookupPhaseOk(w: World, sc: Scope, lim: Limits)
    requires WorldOk(w, sc, lim)
    ensures WorldOk(LookupPhase(w, lim), sc, lim)
    ensures LookupPhase(w, lim).sh.now == w.sh.now
  {
    MatchOk(w, sc, lim);
    LookupOk(DoMatch(w, lim), sc, lim);
    ReadPhaseOk(DoLookup(DoMatch(w, lim), lim), sc, lim);
  }

  lemma {:induction false} ReadPhaseOk(w: World, sc: Scope, lim: Limits)
    requires WorldOk(w, sc, lim)
    ensures WorldOk(DoDrop(DoCheck(DoRead(w))), sc, lim)
    ensures DoDrop(DoCheck(DoRead(w))).sh.now == w.sh.now
  {
    ReadOk(w, sc, lim);
    CheckPhaseOk(DoRead(w), sc, lim);
  }

  lemma {:induction false} CheckPhaseOk(w: World, sc: Scope, lim: Limits)
    requires WorldOk(w, sc, lim)
    ensures WorldOk(DoDrop(DoCheck(w)), sc, lim)
    ensures DoDrop(DoCheck(w)).sh.now == w.sh.now
  {
    CheckOk(w, sc, lim);
    DropOk(DoCheck(w), sc, lim);
  }

  // ----- phases, computed --------------------------------------------------------------------------------

  /** What the lookup finds: a live entry, unless the request forbids it. */
  function Found(entries: map<string, Store.Entry>, req: Request, key: string, now: int): Option<Store.Entry> {
    if LookupAllowed(req) && key in entries && !Store.Expired(entries[key], now) then Some(entries[key]) else None
  }

  /** A lookup that is allowed and finds nothing live leaves nothing under its key. */
  function Remaining(entries: map<string, Store.Entry>, req: Request, key: string, now: int): map<string, Store.Entry> {
    if LookupAllowed(req) && Found(entries, req, key, now).None? then entries - {key} else entries
  }

  lemma {:induction false} LookupComputed(w: World, rule: Rule, key: string, lim: Limits)
    requires w.pr.pc.Arrived? && Classify(w.sh.rules, w.pr.call, lim) == Matched(rule)
    requires key == KeyUnder(w.pr.req, w.pr.call.port, rule, LookupNames(w.sh, w.pr.call, rule), lim)
    ensures var found := Found(w.sh.entries, w.pr.call.req, key, w.sh.now);
            var names := LookupNames(w.sh, w.pr.call, rule);
            LookupPhase(w, lim) ==
            if found.Some?
            then var h := Hit(w.pr.call.req, w.pr.call.port, Replay(found.value), w.sh.now);
                 World(w.sh.(hits := w.sh.hits + {h}), w.pr.(pc := Replied(Replayed(h.reply))))
            else World(w.sh.(entries := Remaining(w.sh.entries, w.pr.call.req, key, w.sh.now)),
                       w.pr.(pc := Missed(rule, names, key)))
  {
    var names := LookupNames(w.sh, w.pr.call, rule);
    var w2 := Goto(w, Keyed(rule, names, key));
    assert DoLookup(DoMatch(w, lim), lim) == w2;
    ReadComputed(w2, rule, names, key);
  }

  lemma {:induction false} ReadComputed(w: World, rule: Rule, names: seq<string>, key: string)
    requires w.pr.pc == Keyed(rule, names, key)
    ensures var found := Found(w.sh.entries, w.pr.call.req, key, w.sh.now);
            DoDrop(DoCheck(DoRead(w))) ==
            if found.Some?
            then var h := Hit(w.pr.call.req, w.pr.call.port, Replay(found.value), w.sh.now);
                 World(w.sh.(hits := w.sh.hits + {h}), w.pr.(pc := Replied(Replayed(h.reply))))
            else World(w.sh.(entries := Remaining(w.sh.entries, w.pr.call.req, key, w.sh.now)),
                       w.pr.(pc := Missed(rule, names, key)))
  {
    if key !in w.sh.entries {
      assert w.sh.entries - {key} == w.sh.entries;
    }
  }

  /** Replies end a call: none of the later steps is enabled. */
  lemma {:induction false} RepliedStays(w: World, answer: Option<Response>, after: map<string, Store.Entry>, lim: Limits)
    requires w.pr.pc.Replied?
    ensures AnswerPhase(w, answer, after, lim) == w
  {}

  lemma {:induction false} ForwardComputed(w: World, answer: Option<Response>, after: map<string, Store.Entry>, lim: Limits)
    requires w.pr.pc.Forwarding?
    ensures AnswerPhase(w, answer, after, lim) ==
            w.(pr := Proc(w.pr.call, Sent(w.pr.req), Replied(if answer.None? then BadGateway else Relayed(answer.value))))
  {}

  lemma {:induction false} NoAnswerComputed(w: World, after: map<string, Store.Entry>, lim: Limits)
    requires w.pr.pc.Missed?
    ensures AnswerPhase(w, None, after, lim) == w.(pr := Proc(w.pr.call, Sent(w.pr.req), Replied(BadGateway)))
  {}

  /** What happens to an answer under a rule that is not to be kept. */
  lemma {:induction false} UnkeptComputed(w: World, answer: Response, after: map<string, Store.Entry>, lim: Limits, x: Exchange)
    requires w.pr.pc.Missed?
    requires x == Exchange(Sent(w.pr.req), w.pr.call.port, w.pr.pc.rule, answer, w.sh.now)
    requires !Buffered(x.resp, lim) || Bypassed(w.pr.call.req, x.resp)
    ensures AnswerPhase(w, Some(answer), after, lim)
         == World(w.sh.(log := w.sh.log + {x}), Proc(w.pr.call, Sent(w.pr.req), Replied(Relayed(answer))))
  {}

  function Indexed(index: map<string, seq<string>>, c: Call, names: seq<string>): map<string, seq<string>> {
    if |names| > 0 then index[BaseKey(c) := names] else index
  }

  function Rekeyed(entries: map<string, Store.Entry>, key: string, storeKey: string): map<string, Store.Entry> {
    if storeKey != key then entries - {key} else entries
  }

  /** And to one that is. */
  lemma {:induction false} KeptComputed(w: World, answer: Response, after: map<string, Store.Entry>, lim: Limits, x: Exchange)
    requires w.pr.pc.Missed?
    requires x == Exchange(Sent(w.pr.req), w.pr.call.port, w.pr.pc.rule, answer, w.sh.now)
    requires Buffered(x.resp, lim) && !Bypassed(w.pr.call.req, x.resp)
    requires Store.SetMay(Rekeyed(w.sh.entries, w.pr.pc.key, StoreKey(x, lim)), StoreKey(x, lim), EntryOf(x), lim.maxBytes, after)
    ensures AnswerPhase(w, Some(answer), after, lim) ==
            World(w.sh.(log := w.sh.log + {x}, index := Indexed(w.sh.index, w.pr.call, StoreNames(x)), entries := after),
                  Proc(w.pr.call, Sent(w.pr.req), Replied(Relayed(Miss(answer)))))
  {
    var pr := w.pr.(req := Sent(w.pr.req));
    var key := w.pr.pc.key;
    var sh := w.sh.(log := w.sh.log + {x});
    assert DoDecide(DoFetch(w, Some(answer), lim)) == World(sh, pr.(pc := Answered(ToLearn, key, x)));
    LearnToStore(World(sh, pr.(pc := Answered(ToLearn, key, x))), key, x, after, lim);
  }

  lemma {:induction false} LearnToStore(w: World, key: string, x: Exchange, after: map<string, Store.Entry>, lim: Limits)
    requires w.pr.pc == Answered(ToLearn, key, x)
    requires Store.SetMay(Rekeyed(w.sh.entries, key, StoreKey(x, lim)), StoreKey(x, lim), EntryOf(x), lim.maxBytes, after)
    ensures DoStore(DoDelete(DoLearn(w), lim), after, lim) ==
            World(w.sh.(index := Indexed(w.sh.index, w.pr.call, StoreNames(x)), entries := after),
                  w.pr.(pc := Replied(Relayed(Miss(x.resp)))))
  {}

  /** What an answer does to the shared state after a miss, and what is replied. */
  ghost predicate AnswerEffect(sh: Shared, c: Call, rule: Rule, key: string, answer: Option<Response>, lim: Limits,
                               sh': Shared, reply: Reply) {
    if answer.None? then sh' == sh && reply == BadGateway
    else
      var x := Exchange(Sent(c.req), c.port, rule, answer.value, sh.now);
      if !Buffered(answer.value, lim) || Bypassed(c.req, answer.value)
      then sh' == sh.(log := sh.log + {x}) && reply == Relayed(answer.value)
      else
        && sh' == sh.(log := sh.log + {x}, index := Indexed(sh.index, c, StoreNames(x)), entries := sh'.entries)
        && Store.SetMay(Rekeyed(sh.entries, key, StoreKey(x, lim)), StoreKey(x, lim), EntryOf(x), lim.maxBytes, sh'.entries)
        && reply == Relayed(Miss(answer.value))
  }

  lemma {:induction false} AnswerEffectIsPhase(w: World, answer: Option<Response>, lim: Limits, sh': Shared, reply: Reply)
    requires w.pr.pc.Missed? && w.pr.req == w.pr.call.req
    requires AnswerEffect(w.sh, w.pr.call, w.pr.pc.rule, w.pr.pc.key, answer, lim, sh', reply)
    ensures AnswerPhase(w, answer, sh'.entries, lim) == World(sh', Proc(w.pr.call, Sent(w.pr.req), Replied(reply)))
  {
    if answer.None? {
      NoAnswerComputed(w, sh'.entries, lim);
    } else {
      var x := Exchange(Sent(w.pr.req), w.pr.call.port, w.pr.pc.rule, answer.value, w.sh.now);
      if !Buffered(answer.value, lim) || Bypassed(w.pr.call.req, answer.value) {
        UnkeptComputed(w, answer.value, sh'.entries, lim, x);
      } else {
        KeptComputed(w, answer.value, sh'.entries, lim, x);
      }
    }
  }

  /** A call that looks its key up and misses. */
  lemma {:induction false} MissHandled(w: World, rule: Rule, key: string, answer: Option<Response>, later: int, lim: Limits,
                                       entries: map<string, Store.Entry>, sh': Shared, reply: Reply)
    requires w.pr == Proc(w.pr.call, w.pr.call.req, Arrived) && Classify(w.sh.rules, w.pr.call, lim) == Matched(rule)
    requires key == KeyUnder(w.pr.req, w.pr.call.port, rule, LookupNames(w.sh, w.pr.call, rule), lim)
    requires Found(w.sh.entries, w.pr.call.req, key, w.sh.now).None?
    requires entries == Remaining(w.sh.entries, w.pr.call.req, key, w.sh.now)
    requires AnswerEffect(w.sh.(now := later, entries := entries), w.pr.call, rule, key, answer, lim, sh', reply)
    ensures Handled(w, answer, later, sh'.entries, lim) == World(sh', Proc(w.pr.call, Sent(w.pr.call.req), Replied(reply)))
  {
    LookupComputed(w, rule, key, lim);
    var names := LookupNames(w.sh, w.pr.call, rule);
    var w' := World(w.sh.(now := later, entries := entries), w.pr.(pc := Missed(rule, names, key)));
    AnswerEffectIsPhase(w', answer, lim, sh', reply);
  }

  lemma {:induction false} HitHandled(w: World, rule: Rule, key: string, answer: Option<Response>, later: int, lim: Limits,
                                      after: map<string, Store.Entry>)
    requires w.pr == Proc(w.pr.call, w.pr.call.req, Arrived) && Classify(w.sh.rules, w.pr.call, lim) == Matched(rule)
    requires key == KeyUnder(w.pr.req, w.pr.call.port, rule, LookupNames(w.sh, w.pr.call, rule), lim)
    requires Found(w.sh.entries, w.pr.call.req, key, w.sh.now).Some?
    ensures var h := Hit(w.pr.call.req, w.pr.call.port, Replay(w.sh.entries[key]), w.sh.now);
            var sh' := w.sh.(now := later, hits := w.sh.hits + {h});
            Handled(w, answer, later, after, lim) == World(sh', w.pr.(pc := Replied(Replayed(h.reply))))
  {
    LookupComputed(w, rule, key, lim);
    var seen := LookupPhase(w, lim);
    RepliedStays(seen.(sh := seen.sh.(now := later)), answer, after, lim);
  }

  lemma {:induction false} ForwardHandled(w: World, answer: Option<Response>, later: int, lim: Limits, after: map<string, Store.Entry>)
    requires w.pr == Proc(w.pr.call, w.pr.call.req, Arrived) && Classify(w.sh.rules, w.pr.call, lim).Forwarding?
    ensures Handled(w, answer, later, after, lim)
         == World(w.sh.(now := later),
                  Proc(w.pr.call, Sent(w.pr.call.req), Replied(if answer.None? then BadGateway else Relayed(answer.value))))
  {
    assert LookupPhase(w, lim) == Goto(w, Forwarding);
    ForwardComputed(Goto(w.(sh := w.sh.(now := later)), Forwarding), answer, after, lim);
  }

  // ----- what a call does, read off the messages -----------------------------------------------------------

  /** A request that says no-store or no-cache is not looked up; for any other the cache replays a live
      entry, marked as a hit, and drops an expired one. */
  ghost predicate LooksUp(req: Request, key: string, now: int, entries: map<string, Store.Entry>,
                          entries': map<string, Store.Entry>, hit: Option<Response>) {
    if Says(req.headers, "no-store") || Says(req.headers, "no-cache") then hit == None && entries' == entries
    else if key in entries && now - entries[key].cachedAt <= entries[key].ttl then
      var e := entries[key];
      hit == Some(Response(e.status, e.headers["X-Cache" := ["HIT"]], e.proto, e.body)) && entries' == entries
    else hit == None && entries' == entries - {key}
  }

  lemma {:induction false} FoundMeans(entries: map<string, Store.Entry>, req: Request, key: string, now: int, hit: Option<Response>)
    requires var found := Found(entries, req, key, now); hit == if found.Some? then Some(Replay(found.value)) else None
    ensures LooksUp(req, key, now, entries, Remaining(entries, req, key, now), hit)
  {
    LookupAllowedIff(req);
    if key in entries {
      SetOwn(entries[key].headers, "X-Cache", "HIT");
    } else {
      assert entries - {key} == entries;
    }
  }

  /** The exchange a call adds to the history: the request goes out with its connection to be closed. */
  function Brought(c: Call, rule: Rule, resp: Response, now: int): Exchange {
    Exchange(c.req.(headers := c.req.headers["Connection" := ["close"]]), c.port, rule, resp, now)
  }

  /** An answer is filed: its entry is there if it fits the store, what was looked up under another key
      is gone, and nothing else is new. */
  ghost predicate Files(before: map<string, Store.Entry>, after: map<string, Store.Entry>, key: string, x: Exchange, lim: Limits) {
    var storeKey := StoreKey(x, lim);
    && (exists e :: StoredAs(x, e) && if Store.Size(e) <= lim.maxBytes then storeKey in after && after[storeKey] == e else after == map[])
    && (storeKey != key ==> key !in after)
    && forall k :: k in after && k != storeKey ==> k in before && after[k] == before[k]
  }

  /** What a miss comes to: an error; an answer that may not be stored and is passed on as it is; or one
      that is learnt from, filed and passed on with the mark of a miss. */
  ghost predicate Takes(sh: Shared, c: Call, rule: Rule, key: string, answer: Option<Response>, lim: Limits, sh': Shared, reply: Reply) {
    match answer
    case None => sh' == sh && reply == BadGateway
    case Some(resp) =>
      var x := Brought(c, rule, resp, sh.now);
      var logged := sh.(log := sh.log + {x});
      if !Storable(x, lim) then sh' == logged && reply == Relayed(resp)
      else
        && sh' == logged.(index := Indexed(sh.index, c, StoreNames(x)), entries := sh'.entries)
        && Files(sh.entries, sh'.entries, key, x, lim)
        && reply == Relayed(resp.(headers := resp.headers["X-Cache" := ["MISS"]]))
  }

  lemma {:induction false} FiledEffect(before: map<string, Store.Entry>, after: map<string, Store.Entry>, key: string, x: Exchange, lim: Limits)
    requires Store.SetMay(Rekeyed(before, key, StoreKey(x, lim)), StoreKey(x, lim), EntryOf(x), lim.maxBytes, after)
    ensures Files(before, after, key, x, lim)
  {
    LifetimeIsMeant(x);
    assert StoredAs(x, EntryOf(x));
    var storeKey := StoreKey(x, lim);
    forall k | k in after && k != storeKey
      ensures k in Rekeyed(before, key, storeKey) && after[k] == before[k] {
      assert k in after - {storeKey};
    }
  }

  lemma {:induction false} EffectMeans(sh: Shared, c: Call, rule: Rule, key: string, answer: Option<Response>, lim: Limits,
                                       sh': Shared, reply: Reply)
    requires AnswerEffect(sh, c, rule, key, answer, lim, sh', reply)
    ensures Takes(sh, c, rule, key, answer, lim, sh', reply)
  {
    if answer.Some? {
      SetOwn(c.req.headers, "Connection", "close");
      SetOwn(answer.value.headers, "X-Cache", "MISS");
      var x := Exchange(Sent(c.req), c.port, rule, answer.value, sh.now);
      assert x == Brought(c, rule, answer.value, sh.now);
      StorableIff(x, lim);
      SentKeepsDirectives(c.req);
      if Storable(x, lim) {
        FiledEffect(sh.entries, sh'.entries, key, x, lim);
      }
    }
  }

  // ----- the methods ----------------------------------------------------------------------------------------

  class Proxy {
    const lim: Limits
    const cache: Store.Cache
    var rules: seq<Rule>
    var varyIndex: map<string, seq<string>>
    ghost var log: set<Exchange>
    ghost var hits: set<Hit>

    ghost predicate Valid() reads this, cache {
      cache.Valid() && cache.maxBytes == lim.maxBytes
    }

    ghost function View(now: int): Shared reads this, cache {
      Shared(now, rules, varyIndex, cache.entries, log, hits)
    }

    constructor (lim: Limits, rules: seq<Rule>)
      ensures Valid() && fresh(cache) && this.lim == lim
      ensures forall now :: View(now) == Shared(now, rules, map[], map[], {}, {})
    {
      this.lim := lim;
      this.rules := rules;
      varyIndex, log, hits := map[], {}, {};
      cache := new Store.Cache(lim.maxBytes);
    }

    method SetPolicy(rules: seq<Rule>)
      requires Valid()
      modifies this`rules
      ensures Valid() && forall now :: View(now) == old(View(now)).(rules := rules)
    {
      this.rules := rules;
    }

    method LookupVaryIndex(baseKey: string) returns (names: seq<string>)
      ensures names == Learnt(varyIndex, baseKey)
      ensures names == if baseKey in varyIndex then varyIndex[baseKey] else []
    {
      if baseKey in varyIndex { return varyIndex[baseKey]; }
      return [];
    }

    method StoreVaryIndex(baseKey: string, names: seq<string>)
      modifies this`varyIndex
      ensures varyIndex == if |names| > 0 then old(varyIndex)[baseKey := names] else old(varyIndex)
    {
      if |names| > 0 { varyIndex := varyIndex[baseKey := names]; }
    }

    /** The key a request is looked up under. */
    method RequestKey(call: Call, rule: Rule, body: string) returns (key: string)
      requires body == KeyBody(call.req, lim)
      ensures key == KeyUnder(call.req, call.port, rule, Merge(rule.varyHeaders, Learnt(varyIndex, BaseKey(call))), lim)
    {
      var baseKey := Generate(call.req, "", Config(false, [], call.port));
      var learnt := LookupVaryIndex(baseKey);
      var names := MergeVaryHeaders(rule.varyHeaders, learnt);
      key := Generate(call.req, body, KeyConfig(rule).(varyHeaders := names, port := call.port));
    }

    /** The store is asked unless the request forbids it. */
    method LookUp(req: Request, key: string, now: int) returns (entry: Option<Store.Entry>)
      requires Valid()
      modifies cache
      ensures Valid()
      ensures entry == Found(old(cache.entries), req, key, now)
      ensures cache.entries == Remaining(old(cache.entries), req, key, now)
    {
      var reqCC := ParseCacheControl(Get(req.headers, "Cache-Control"));
      var allowed := CC_NO_STORE !in reqCC && CC_NO_CACHE !in reqCC;
      assert allowed == LookupAllowed(req);
      entry := None;
      if allowed { entry := cache.Get(key, now); }
    }

    /** The lookup and the reply made from it. */
    method ServeFromCache(call: Call, key: string, now: int) returns (hit: Option<Response>)
      requires Valid()
      modifies this`hits, cache
      ensures Valid()
      ensures hits == if hit.Some? then old(hits) + {Hit(call.req, call.port, hit.value, now)} else old(hits)
      ensures LooksUp(call.req, key, now, old(cache.entries), cache.entries, hit)
      ensures var found := Found(old(cache.entries), call.req, key, now);
              hit == if found.Some? then Some(Replay(found.value)) else None
      ensures cache.entries == Remaining(old(cache.entries), call.req, key, now)
    {
      ghost var entries := cache.entries;
      var entry := LookUp(call.req, key, now);
      hit := None;
      if entry.Some? {
        hit := Some(ReplyWithCachedEntry(entry.value));
        hits := hits + {Hit(call.req, call.port, hit.value, now)};
      }
      FoundMeans(entries, call.req, key, now, hit);
    }

    function ReplyWithCachedEntry(e: Store.Entry): Response {
      Response(e.status, Http.Set(e.headers, "X-Cache", "HIT"), e.proto, e.body)
    }

    /** `answer` is what comes back from the upstream, `None` for any error on the way. The request
        is changed before it is sent; an entry comes with a complete 2xx response only. */
    method FetchUpstream(req: Request, answer: Option<Response>, now: int)
      returns (sent: Request, entry: Option<Store.Entry>, resp: Option<Response>)
      ensures sent == Sent(req) && resp == answer
      ensures sent == req.(headers := req.headers["Connection" := ["close"]])
      ensures entry.Some? <==> answer.Some? && Buffered(answer.value, lim)
      ensures entry.Some? <==> answer.Some? && 200 <= answer.value.status <= 299 && 0 < lim.maxBodyBytes
                               && |answer.value.body| <= lim.maxBodyBytes
      ensures entry.Some? ==> entry.value == Store.Entry(answer.value.status, answer.value.headers, answer.value.proto,
                                                         answer.value.body, now, 0)
    {
      sent := req.(headers := Http.Set(req.headers, "Connection", "close"));
      SetOwn(req.headers, "Connection", "close");
      resp := answer;
      entry := None;
      if answer.None? || lim.maxBodyBytes == 0 || |answer.value.body| > lim.maxBodyBytes { return; }
      if 200 <= answer.value.status < 300 {
        var r := answer.value;
        entry := Some(Store.Entry(r.status, r.headers, r.proto, r.body, now, 0));
      }
    }

    /** Relearn the Vary set, drop what was looked up under another key, and store. `x` is the
        exchange `entry` was made from. */
    method Keep(baseKey: string, rule: Rule, sent: Request, port: nat, body: string, key: string,
                entry: Store.Entry, respCC: map<string, string>, now: int, ghost x: Exchange)
      requires Valid() && body == KeyBody(sent, lim)
      requires x.sent == sent && x.port == port && x.rule == rule
      requires respCC == DirectivesOf(x.resp.headers) && EntryOf(x).(ttl := 0) == entry
      modifies this`varyIndex, cache
      ensures Valid()
      ensures varyIndex == if |StoreNames(x)| > 0 then old(varyIndex)[baseKey := StoreNames(x)] else old(varyIndex)
      ensures Store.SetMay(Rekeyed(old(cache.entries), key, StoreKey(x, lim)), StoreKey(x, lim), EntryOf(x), lim.maxBytes, cache.entries)
    {
      var parsed := ParseVaryHeader(Get(entry.headers, "Vary"));
      var allVary := MergeVaryHeaders(rule.varyHeaders, parsed);
      StoreVaryIndex(baseKey, allVary);
      var storeKey := Generate(sent, body, KeyConfig(rule).(varyHeaders := allVary, port := port));
      var ttl := CacheControlTtl(respCC, rule.ttl);
      assert storeKey == StoreKey(x, lim);
      assert entry.(ttl := ttl) == EntryOf(x);
      Replace(key, storeKey, entry.(ttl := ttl), now);
    }

    method Replace(key: string, storeKey: string, entry: Store.Entry, now: int)
      requires Valid()
      modifies cache
      ensures Valid()
      ensures Store.SetMay(Rekeyed(old(cache.entries), key, storeKey), storeKey, entry, lim.maxBytes, cache.entries)
    {
      if storeKey != key { cache.Delete(key); }
      ghost var before := cache.entries;
      cache.Set(storeKey, entry, now);
      Store.SetSpecMay(before, storeKey, entry, now, lim.maxBytes, cache.entries);
    }

    /** What is done with a complete 2xx answer. */
    method KeepOrRelay(call: Call, rule: Rule, sent: Request, body: string, key: string,
                       entry: Store.Entry, resp: Response, now: int, ghost x: Exchange) returns (reply: Reply)
      requires Valid() && body == KeyBody(sent, lim)
      requires x == Exchange(sent, call.port, rule, resp, now) && EntryOf(x).(ttl := 0) == entry
      modifies this`varyIndex, cache
      ensures Valid()
      ensures Bypassed(call.req, resp) ==>
                reply == Relayed(resp) && varyIndex == old(varyIndex) && cache.entries == old(cache.entries)
      ensures !Bypassed(call.req, resp) ==>
                && reply == Relayed(Miss(resp)) && varyIndex == Indexed(old(varyIndex), call, StoreNames(x))
                && Store.SetMay(Rekeyed(old(cache.entries), key, StoreKey(x, lim)), StoreKey(x, lim), EntryOf(x), lim.maxBytes, cache.entries)
    {
      var respCC := ParseCacheControl(Get(entry.headers, "Cache-Control"));
      var reqCC := ParseCacheControl(Get(call.req.headers, "Cache-Control"));
      if Get(entry.headers, "Vary") == "*" || CC_NO_STORE in reqCC || !ResponseCacheable(respCC) {
        return Relayed(resp);
      }
      var baseKey := Generate(call.req, "", Config(false, [], call.port));
      Keep(baseKey, rule, sent, call.port, body, key, entry, respCC, now, x);
      return Relayed(Response(resp.status, Http.Set(resp.headers, "X-Cache", "MISS"), resp.proto, resp.body));
    }

    /** The part after a miss, for a request under `rule`. */
    method AnswerMiss(call: Call, rule: Rule, body: string, key: string, answer: Option<Response>, now: int) returns (reply: Reply)
      requires Valid() && body == KeyBody(call.req, lim)
      modifies this`varyIndex, this`log, cache
      ensures Valid()
      ensures AnswerEffect(old(View(now)), call, rule, key, answer, lim, View(now), reply)
      ensures Takes(old(View(now)), call, rule, key, answer, lim, View(now), reply)
    {
      ghost var sh := View(now);
      var sent, entry, resp := FetchUpstream(call.req, answer, now);
      if resp.None? {
        EffectMeans(sh, call, rule, key, answer, lim, View(now), BadGateway);
        return BadGateway;
      }
      ghost var x := Exchange(sent, call.port, rule, resp.value, now);
      log := log + {x};
      if entry.None? {
        reply := Relayed(resp.value);
      } else {
        reply := KeepOrRelay(call, rule, sent, body, key, entry.value, resp.value, now, x);
      }
      EffectMeans(sh, call, rule, key, answer, lim, View(now), reply);
    }

    /** A request under `rule` that has found nothing in the cache; `w` is how it came in. */
    method HandleMiss(ghost w: World, call: Call, rule: Rule, body: string, key: string, answer: Option<Response>, later: int)
      returns (reply: Reply, ghost req: Request)
      requires Valid() && body == KeyBody(call.req, lim)
      requires w.pr == Proc(call, call.req, Arrived) && Classify(w.sh.rules, call, lim) == Matched(rule)
      requires key == KeyUnder(call.req, call.port, rule, LookupNames(w.sh, call, rule), lim)
      requires Found(w.sh.entries, call.req, key, w.sh.now).None?
      requires View(later) == w.sh.(now := later, entries := Remaining(w.sh.entries, call.req, key, w.sh.now))
      modifies this`varyIndex, this`log, cache
      ensures Valid() && !reply.Replayed?
      ensures Handled(w, answer, later, cache.entries, lim) == World(View(later), Proc(call, req, Replied(reply)))
    {
      ghost var entries := cache.entries;
      reply := AnswerMiss(call, rule, body, key, answer, later);
      MissHandled(w, rule, key, answer, later, lim, entries, View(later), reply);
      req := Sent(call.req);
    }

    /** A request under `rule` whose body has been buffered. */
    method HandleMatched(call: Call, rule: Rule, body: string, answer: Option<Response>, now: int, later: int)
      returns (reply: Reply, ghost req: Request)
      requires Valid() && body == KeyBody(call.req, lim) && Classify(rules, call, lim) == Matched(rule)
      modifies this`varyIndex, this`log, this`hits, cache
      ensures Valid()
      ensures Handled(World(old(View(now)), Proc(call, call.req, Arrived)), answer, later, cache.entries, lim)
           == World(View(later), Proc(call, req, Replied(reply)))
      ensures reply.Replayed? ==> Hit(call.req, call.port, reply.hit, now) in hits
    {
      ghost var w := World(View(now), Proc(call, call.req, Arrived));
      var key := RequestKey(call, rule, body);
      var hit := ServeFromCache(call, key, now);
      if hit.Some? {
        assert View(later) == w.sh.(now := later, hits := w.sh.hits + {Hit(call.req, call.port, hit.value, now)});
        HitHandled(w, rule, key, answer, later, lim, cache.entries);
        return Replayed(hit.value), call.req;
      }
      assert View(later) == w.sh.(now := later, entries := Remaining(w.sh.entries, call.req, key, now));
      reply, req := HandleMiss(w, call, rule, body, key, answer, later);
    }

    /** The whole of `handleRequest`. `answer` is the upstream's, asked only after a miss; `now` and
        `later` are the clock at the lookup and when the answer has come. */
    method HandleRequest(call: Call, answer: Option<Response>, now: int, later: int) returns (reply: Reply, ghost req: Request)
      requires Valid()
      modifies this`varyIndex, this`log, this`hits, cache
      ensures Valid()
      ensures Handled(World(old(View(now)), Proc(call, call.req, Arrived)), answer, later, cache.entries, lim)
           == World(View(later), Proc(call, req, Replied(reply)))
      ensures reply.Replayed? ==> Hit(call.req, call.port, reply.hit, now) in hits
      ensures !UnderRule(rules, call, lim) ==>
                View(later) == old(View(later)) && reply == if answer.None? then BadGateway else Relayed(answer.value)
    {
      ClassifyIff(rules, call, lim);
      var host := call.req.host;
      if host == "" { host := call.origAddr; }
      var path := call.req.path;
      if path == "" { path := "/"; }
      var body, tooLarge := "", false;
      if lim.maxBodyBytes > 0 {
        tooLarge := |call.req.body| > lim.maxBodyBytes;
        if !tooLarge { body := call.req.body; }
      }
      var rule := Match(rules, call.namespace, call.labels, host, call.port, call.req.verb, path);
      if rule.None? || tooLarge {
        ForwardHandled(World(View(now), Proc(call, call.req, Arrived)), answer, later, lim, cache.entries);
        return if answer.None? then BadGateway else Relayed(answer.value), Sent(call.req);
      }
      reply, req := HandleMatched(call, rule.value, body, answer, now, later);
    }

    /** Calls made one after the other stay transparent: a reply from the cache replays an earlier
        answer that agrees with the request, and is still fresh. */
    method ServeRequest(call: Call, answer: Option<Response>, now: int, later: int, ghost sc: Scope) returns (reply: Reply)
      requires Valid() && now <= later && ReqOk(call.req, sc)
      requires Clear(sc) && SharedSound(View(now), lim) && SharedOk(View(now), sc, lim)
      requires answer.Some? ==> VaryOk(answer.value, sc)
      modifies this`varyIndex, this`log, this`hits, cache
      ensures Valid() && SharedSound(View(later), lim) && SharedOk(View(later), sc, lim)
      ensures reply.Replayed? ==> Transparent(log, Hit(call.req, call.port, reply.hit, now), lim)
    {
      ghost var w := World(View(now), Proc(call, call.req, Arrived));
      ghost var req;
      reply, req := HandleRequest(call, answer, now, later);
      HandledOk(w, answer, later, cache.entries, sc, lim);
    }
  }
}
