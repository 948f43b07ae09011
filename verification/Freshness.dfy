/** What the request handler stores and serves, whatever the rules key on and however header names
    look: no assumption is made about requests, rules or upstream. */
module Freshness {
  import opened Text
  import opened Http
  import opened Vary
  import opened Store
  import opened CacheControl
  import opened Protocol

  /** Some directive on the first Cache-Control line has this name. */
  ghost predicate Says(h: Headers, name: string) {
    Carries(FirstLine(h, "Cache-Control"), name)
  }

  /** What may be stored at all (RFC 9111 section 3), read off the two messages. */
  ghost predicate Storable(x: Exchange, lim: Limits) {
    && 200 <= x.resp.status <= 299
    && 0 < lim.maxBodyBytes && |x.resp.body| <= lim.maxBodyBytes
    && FirstLine(x.resp.headers, "Vary") != "*"
    && !Says(x.resp.headers, "no-store") && !Says(x.resp.headers, "private")
    && !Says(x.sent.headers, "no-store")
  }

  /** What may be answered from the cache. */
  ghost predicate Answerable(req: Request) {
    !Says(req.headers, "no-store") && !Says(req.headers, "no-cache")
  }

  /** The lifetime is the one the response's Cache-Control line means. */
  ghost predicate Lasts(x: Exchange, ttl: int) {
    forall ds :: WrittenAs(FirstLine(x.resp.headers, "Cache-Control"), ds) ==> Lifetime(ds, x.rule.ttl, ttl)
  }

  /** A hit serves this exchange: unchanged but for X-Cache, and not past its lifetime. */
  ghost predicate Serves(h: Hit, x: Exchange, lim: Limits) {
    && h.reply == Response(x.resp.status, x.resp.headers["X-Cache" := ["HIT"]], x.resp.proto, x.resp.body)
    && x.at <= h.at && h.at - x.at <= Ttl(DirectivesOf(x.resp.headers), x.rule.ttl)
    && Storable(x, lim)
    && Answerable(h.req)
  }

  lemma {:induction false} SaysIff(h: Headers, field: string, name: string)
    requires field == "Cache-Control" && DirectiveName(name)
    ensures name in DirectivesOf(h) <==> Carries(FirstLine(h, field), name)
  {
    GetOwn(h, field);
    ParseNamesIff(FirstLine(h, field), name);
  }

  lemma {:induction false} LookupAllowedIff(req: Request)
    ensures LookupAllowed(req) <==> Answerable(req)
  {
    SaysIff(req.headers, "Cache-Control", CC_NO_STORE);
    SaysIff(req.headers, "Cache-Control", CC_NO_CACHE);
  }

  lemma {:induction false} CacheableIff(h: Headers)
    ensures ResponseCacheable(DirectivesOf(h)) <==> !Says(h, "no-store") && !Says(h, "private")
  {
    SaysIff(h, "Cache-Control", CC_NO_STORE);
    SaysIff(h, "Cache-Control", CC_PRIVATE);
  }

  lemma {:induction false} StorableIff(x: Exchange, lim: Limits)
    ensures Storable(x, lim) <==> Buffered(x.resp, lim) && !Bypassed(x.sent, x.resp)
  {
    CacheableIff(x.resp.headers);
    SaysIff(x.sent.headers, "Cache-Control", CC_NO_STORE);
    GetOwn(x.resp.headers, "Vary");
  }

  lemma {:induction false} LifetimeIsMeant(x: Exchange)
    ensures Lasts(x, Ttl(DirectivesOf(x.resp.headers), x.rule.ttl))
  {
    var line := FirstLine(x.resp.headers, "Cache-Control");
    GetOwn(x.resp.headers, "Cache-Control");
    forall ds | WrittenAs(line, ds) ensures Lifetime(ds, x.rule.ttl, Ttl(DirectivesOf(x.resp.headers), x.rule.ttl)) {
      TtlOfWritten(ds, line, x.rule.ttl);
    }
  }

  ghost predicate Fresh(log: set<Exchange>, h: Hit, lim: Limits) {
    exists x :: x in log && Serves(h, x, lim)
  }

  /** A key and an entry stem from one exchange. */
  ghost predicate Backed(log: set<Exchange>, key: string, e: Entry, lim: Limits) {
    exists x :: x in log && Storable(x, lim) && key == StoreKey(x, lim) && e == EntryOf(x)
  }

  ghost predicate EntriesBacked(log: set<Exchange>, entries: map<string, Entry>, lim: Limits) {
    forall k :: k in entries ==> Backed(log, k, entries[k], lim)
  }

  /** Answers came earlier, to requests whose bodies had been buffered. */
  ghost predicate LogSound(log: set<Exchange>, now: int, lim: Limits) {
    forall x :: x in log ==> x.at <= now && !BodyTooLarge(x.sent, lim)
  }

  ghost predicate HitsFresh(log: set<Exchange>, hits: set<Hit>, lim: Limits) {
    forall h :: h in hits ==> Fresh(log, h, lim)
  }

  ghost predicate SharedSound(sh: Shared, lim: Limits) {
    LogSound(sh.log, sh.now, lim) && EntriesBacked(sh.log, sh.entries, lim) && HitsFresh(sh.log, sh.hits, lim)
  }

  ghost predicate ProcSound(log: set<Exchange>, pr: Proc, lim: Limits) {
    match pr.pc
    case Arrived => pr.req == pr.call.req
    case Forwarding => pr.req == pr.call.req
    case Read(rule, names, key, entry) =>
      && pr.req == pr.call.req && !BodyTooLarge(pr.call.req, lim)
      && Answerable(pr.call.req) && Backed(log, key, entry, lim)
    case Answered(stage, key, x) =>
      && x in log && x.sent == pr.req == Sent(pr.call.req) && x.port == pr.call.port
      && !BodyTooLarge(pr.call.req, lim)
      && Buffered(x.resp, lim) && (!stage.ToDecide? ==> Storable(x, lim))
    case Replied(reply) => true
    case _ => pr.req == pr.call.req && !BodyTooLarge(pr.call.req, lim)
  }

  ghost predicate Sound(w: World, lim: Limits) {
    SharedSound(w.sh, lim) && ProcSound(w.sh.log, w.pr, lim)
  }

  ghost predicate AllSound(s: State, lim: Limits) {
    SharedSound(s.sh, lim) && forall p :: p in s.procs ==> ProcSound(s.sh.log, s.procs[p], lim)
  }

  lemma {:induction false} BackedGrows(log: set<Exchange>, log': set<Exchange>, key: string, e: Entry, lim: Limits)
    requires Backed(log, key, e, lim) && log <= log'
    ensures Backed(log', key, e, lim)
  {
    var x :| x in log && Storable(x, lim) && key == StoreKey(x, lim) && e == EntryOf(x);
    assert x in log';
  }

  lemma {:induction false} FreshGrows(log: set<Exchange>, log': set<Exchange>, h: Hit, lim: Limits)
    requires Fresh(log, h, lim) && log <= log'
    ensures Fresh(log', h, lim)
  {
    var x :| x in log && Serves(h, x, lim);
    assert x in log';
  }

  lemma {:induction false} ProcSoundGrows(log: set<Exchange>, log': set<Exchange>, pr: Proc, lim: Limits)
    requires ProcSound(log, pr, lim) && log <= log'
    ensures ProcSound(log', pr, lim)
  {
    if pr.pc.Read? {
      BackedGrows(log, log', pr.pc.key, pr.pc.entry, lim);
    }
  }

  // ----- steps ----------------------------------------------------------------------------------------

  lemma {:induction false} LookupSound(w: World, lim: Limits)
    requires Sound(w, lim)
    ensures Sound(DoMatch(w, lim), lim) && Sound(DoLookup(w, lim), lim)
  {}

  lemma {:induction false} ReadSound(w: World, lim: Limits)
    requires Sound(w, lim)
    ensures Sound(DoRead(w), lim)
  {
    LookupAllowedIff(w.pr.call.req);
  }

  lemma {:induction false} CheckSound(w: World, lim: Limits)
    requires Sound(w, lim)
    ensures Sound(DoCheck(w), lim)
  {
    if w.pr.pc.Read? && !Expired(w.pr.pc.entry, w.sh.now) {
      var h := Hit(w.pr.call.req, w.pr.call.port, Replay(w.pr.pc.entry), w.sh.now);
      HitIsFresh(w.sh.log, w.pr.pc.key, w.pr.pc.entry, h, lim);
      HitSound(w.sh, h, lim);
    }
  }

  lemma {:induction false} HitSound(sh: Shared, h: Hit, lim: Limits)
    requires SharedSound(sh, lim) && Fresh(sh.log, h, lim)
    ensures SharedSound(sh.(hits := sh.hits + {h}), lim)
  {}

  lemma {:induction false} HitIsFresh(log: set<Exchange>, key: string, e: Entry, h: Hit, lim: Limits)
    requires Backed(log, key, e, lim) && LogSound(log, h.at, lim) && !Expired(e, h.at)
    requires h.reply == Replay(e) && Answerable(h.req)
    ensures Fresh(log, h, lim)
  {
    var x :| x in log && Storable(x, lim) && key == StoreKey(x, lim) && e == EntryOf(x);
    EntryServes(log, x, h, lim);
  }

  lemma {:induction false} EntryServes(log: set<Exchange>, x: Exchange, h: Hit, lim: Limits)
    requires x in log && Storable(x, lim) && LogSound(log, h.at, lim) && !Expired(EntryOf(x), h.at)
    requires h.reply == Replay(EntryOf(x)) && Answerable(h.req)
    ensures Serves(h, x, lim)
  {
    SetOwn(x.resp.headers, "X-Cache", "HIT");
  }

  lemma {:induction false} DropSound(w: World, lim: Limits)
    requires Sound(w, lim)
    ensures Sound(DoDrop(w), lim)
  {}

  lemma {:induction false} LogStaysSound(sh: Shared, x: Exchange, lim: Limits)
    requires SharedSound(sh, lim) && x.at <= sh.now && !BodyTooLarge(x.sent, lim)
    ensures SharedSound(sh.(log := sh.log + {x}), lim)
  {
    var log' := sh.log + {x};
    forall k | k in sh.entries ensures Backed(log', k, sh.entries[k], lim) {
      BackedGrows(sh.log, log', k, sh.entries[k], lim);
    }
    forall h | h in sh.hits ensures Fresh(log', h, lim) {
      FreshGrows(sh.log, log', h, lim);
    }
  }

  lemma {:induction false} AnswerSound(w: World, key: string, x: Exchange, lim: Limits)
    requires SharedSound(w.sh, lim) && x.at <= w.sh.now
    requires x.sent == w.pr.req == Sent(w.pr.call.req) && x.port == w.pr.call.port
    requires !BodyTooLarge(w.pr.call.req, lim)
    ensures Sound(DoAnswer(w, key, x, lim), lim)
  {
    LogStaysSound(w.sh, x, lim);
  }

  lemma {:induction false} FetchSound(w: World, answer: Option<Response>, lim: Limits)
    requires Sound(w, lim)
    ensures Sound(DoFetch(w, answer, lim), lim)
  {
    if answer.Some? && w.pr.pc.Missed? {
      var sent := w.(pr := w.pr.(req := Sent(w.pr.req)));
      AnswerSound(sent, w.pr.pc.key, Exchange(sent.pr.req, w.pr.call.port, w.pr.pc.rule, answer.value, w.sh.now), lim);
    }
  }

  lemma {:induction false} DecideSound(w: World, lim: Limits)
    requires Sound(w, lim)
    ensures Sound(DoDecide(w), lim)
  {
    if w.pr.pc.Answered? {
      SentKeepsDirectives(w.pr.call.req);
      StorableIff(w.pr.pc.x, lim);
    }
  }

  lemma {:induction false} LearnSound(w: World, lim: Limits)
    requires Sound(w, lim)
    ensures Sound(DoLearn(w), lim)
  {}

  lemma {:induction false} DeleteSound(w: World, lim: Limits)
    requires Sound(w, lim)
    ensures Sound(DoDelete(w, lim), lim)
  {}

  lemma {:induction false} SetBacked(log: set<Exchange>, entries: map<string, Entry>, key: string, e: Entry,
                                     after: map<string, Entry>, lim: Limits)
    requires EntriesBacked(log, entries, lim) && Backed(log, key, e, lim)
    requires SetMay(entries, key, e, lim.maxBytes, after)
    ensures EntriesBacked(log, after, lim)
  {
    forall k | k in after ensures Backed(log, k, after[k], lim) {
      if k != key {
        assert k in after - {key};
      }
    }
  }

  lemma {:induction false} StoreSound(w: World, after: map<string, Entry>, lim: Limits)
    requires Sound(w, lim)
    ensures Sound(DoStore(w, after, lim), lim)
  {
    var w' := DoStore(w, after, lim);
    if w' != w {
      var x := w.pr.pc.x;
      assert Backed(w.sh.log, StoreKey(x, lim), EntryOf(x), lim);
      SetBacked(w.sh.log, w.sh.entries, StoreKey(x, lim), EntryOf(x), after, lim);
    }
  }

  lemma {:induction false} PerformSound(w: World, step: Step, lim: Limits)
    requires Sound(w, lim)
    ensures Sound(Perform(w, step, lim), lim)
  {
    match step
    case MatchPolicy => LookupSound(w, lim);
    case LookupIndex => LookupSound(w, lim);
    case ReadCache => ReadSound(w, lim);
    case CheckExpiry => CheckSound(w, lim);
    case DropStale => DropSound(w, lim);
    case Fetch(answer) => FetchSound(w, answer, lim);
    case Decide => DecideSound(w, lim);
    case Learn => LearnSound(w, lim);
    case DeleteOld => DeleteSound(w, lim);
    case StoreEntry(after) => StoreSound(w, after, lim);
  }

  lemma {:induction false} StepSound(s: State, p: nat, step: Step, lim: Limits)
    requires AllSound(s, lim)
    ensures AllSound(Apply(s, By(p, step), lim), lim)
  {
    if p in s.procs {
      var w := World(s.sh, s.procs[p]);
      var s' := Apply(s, By(p, step), lim);
      PerformSound(w, step, lim);
      LogOnlyGrows(w, step, lim);
      forall q | q in s'.procs ensures ProcSound(s'.sh.log, s'.procs[q], lim) {
        if q != p {
          ProcSoundGrows(s.sh.log, s'.sh.log, s.procs[q], lim);
        }
      }
    }
  }

  lemma {:induction false} ApplySound(s: State, a: Action, lim: Limits)
    requires AllSound(s, lim)
    ensures AllSound(Apply(s, a, lim), lim)
  {
    match a
    case By(p, step) => StepSound(s, p, step, lim);
    case _ =>
  }

  lemma {:induction false} EveryRunIsSound(now: int, actions: seq<Action>, lim: Limits)
    ensures AllSound(Run(now, actions, lim), lim)
  {
    if |actions| > 0 {
      EveryRunIsSound(now, actions[..|actions| - 1], lim);
      ApplySound(Run(now, actions[..|actions| - 1], lim), actions[|actions| - 1], lim);
    }
  }

  // ----- responses that vary on everything --------------------------------------------------------------

  /** A response with a star in its Vary line matches no later request (RFC 9111 section 4.1). One that
      is otherwise cacheable is stored all the same, keyed on a field named "*", exactly if the star is
      not alone on the line. */
  lemma {:induction false} StarIsStoredIff(x: Exchange, lim: Limits)
    requires Buffered(x.resp, lim) && !Says(x.sent.headers, "no-store")
    requires !Says(x.resp.headers, "no-store") && !Says(x.resp.headers, "private")
    requires ListsStar(VaryLine(x.resp))
    ensures Storable(x, lim) <==> VaryLine(x.resp) != "*"
    ensures Storable(x, lim) <==> "*" in ParseVary(VaryLine(x.resp))
  {
    StarIsKeptIff(VaryLine(x.resp));
    GetOwn(x.resp.headers, "Vary");
  }

  // ----- main results -----------------------------------------------------------------------------------

  /** What an exchange is stored as. */
  ghost predicate StoredAs(x: Exchange, e: Entry) {
    e == Entry(x.resp.status, x.resp.headers, x.resp.proto, x.resp.body, x.at, e.ttl) && Lasts(x, e.ttl)
  }

  /** In every run, every stored entry is a cacheable 2xx response, complete and within the body limit,
      filed under the key made from the request that brought it and the headers it varies on. */
  lemma {:induction false} EveryEntryIsStorable(now: int, actions: seq<Action>, lim: Limits, key: string)
    requires key in Run(now, actions, lim).sh.entries
    ensures var s := Run(now, actions, lim);
            exists x :: x in s.sh.log && Storable(x, lim) && key == StoreKey(x, lim) && StoredAs(x, s.sh.entries[key])
  {
    EveryRunIsSound(now, actions, lim);
    var s := Run(now, actions, lim);
    var x :| x in s.sh.log && Storable(x, lim) && key == StoreKey(x, lim) && s.sh.entries[key] == EntryOf(x);
    LifetimeIsMeant(x);
  }

  /** In every run, every hit serves a storable upstream response at an age within the lifetime its
      directives mean, to a request that has neither no-store nor no-cache. */
  lemma {:induction false} EveryHitIsFresh(now: int, actions: seq<Action>, lim: Limits, h: Hit)
    requires h in Run(now, actions, lim).sh.hits
    ensures exists x, ttl :: x in Run(now, actions, lim).sh.log && Serves(h, x, lim) && h.at - x.at <= ttl && Lasts(x, ttl)
  {
    EveryRunIsSound(now, actions, lim);
    var x :| x in Run(now, actions, lim).sh.log && Serves(h, x, lim);
    LifetimeIsMeant(x);
  }
}
