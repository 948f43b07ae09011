/** Cache transparency: a request answered from the cache is answered as the upstream answered an
    earlier request that agrees with it on everything the response depends on. */
module Transparency {
  import opened Text
  import opened Http
  import opened CacheKey
  import opened Vary
  import opened Policy
  import opened Store
  import opened Protocol
  import opened Freshness

  // ----- what the environment is assumed to do ----------------------------------------------------------

  /** A set of header names, none of which can be taken for another on a key line. */
  ghost predicate ClearWords(words: iset<string>) {
    && (forall n :: n in words ==> Lacks(n, '\n'))
    && forall n, m :: n in words && m in words ==> !Confusable(n, m)
  }

  /** What becomes of request bodies: no rule keys on them, or there are none, or every rule keys on
      them and all rules and Vary lines are about the headers in `names`. */
  datatype Bodies = NotKeyed | NoBodies | AlwaysKeyed(names: seq<string>)

  datatype Scope = Scope(words: iset<string>, bodies: Bodies)

  ghost predicate Clear(sc: Scope) {
    ClearWords(sc.words)
  }

  /** As they are, and in canonical form. */
  ghost predicate InWords(names: seq<string>, words: iset<string>) {
    forall i :: 0 <= i < |names| ==> names[i] in words && Canonical(names[i]) in words
  }

  predicate BodiesFit(rule: Rule, bodies: Bodies) {
    match bodies
    case NotKeyed => !rule.cacheBody
    case NoBodies => true
    case AlwaysKeyed(names) => rule.cacheBody && Tidy(rule.varyHeaders) && multiset(rule.varyHeaders) == multiset(names)
  }

  predicate VaryWithin(names: seq<string>, bodies: Bodies) {
    bodies.AlwaysKeyed? ==> forall i :: 0 <= i < |names| ==> names[i] in bodies.names
  }

  ghost predicate RuleOk(rule: Rule, sc: Scope) {
    InWords(rule.varyHeaders, sc.words) && BodiesFit(rule, sc.bodies)
  }

  ghost predicate VaryOk(resp: Response, sc: Scope) {
    InWords(ParseVary(VaryLine(resp)), sc.words) && VaryWithin(ParseVary(VaryLine(resp)), sc.bodies)
  }

  ghost predicate ReqOk(req: Request, sc: Scope) {
    Parsed(req) && (sc.bodies.NoBodies? ==> req.body == "")
  }

  ghost predicate RulesOk(rules: seq<Rule>, sc: Scope) {
    forall i :: 0 <= i < |rules| ==> RuleOk(rules[i], sc)
  }

  /** Requests are as the HTTP reader delivers them; rules and Vary lines are within the scope. */
  ghost predicate Admissible(a: Action, sc: Scope) {
    match a
    case Arrive(p, call) => ReqOk(call.req, sc)
    case By(p, step) => step.Fetch? && step.answer.Some? ==> VaryOk(step.answer.value, sc)
    case SwapPolicy(rules) => RulesOk(rules, sc)
    case _ => true
  }

  ghost predicate AllAdmissible(actions: seq<Action>, sc: Scope) {
    Clear(sc) && forall i :: 0 <= i < |actions| ==> Admissible(actions[i], sc)
  }

  /** All names without '=' and line breaks, among them all names RFC 9110 section 5.1 allows. */
  ghost function PlainWords(): iset<string> {
    iset n: string | PlainName(n)
  }

  lemma {:induction false} PlainWordsAreClear()
    ensures ClearWords(PlainWords())
  {
    forall n, m | n in PlainWords() && m in PlainWords() ensures !Confusable(n, m) {
      PlainNamesDiffer(n, m);
    }
  }

  lemma {:induction false} PlainInWords(names: seq<string>)
    requires PlainNames(names)
    ensures InWords(names, PlainWords())
  {
    forall i | 0 <= i < |names| ensures PlainName(Canonical(names[i])) {
      CanonicalLacks(names[i], '=');
      CanonicalLacks(names[i], '\n');
    }
  }

  // ----- agreement --------------------------------------------------------------------------------------

  /** The same host, as the Host header or else the request URI has it, and the same method, URI and port. */
  predicate ForTarget(x: Exchange, req: Request, port: nat) {
    && (if x.sent.host == "" then x.sent.urlHost else x.sent.host) == (if req.host == "" then req.urlHost else req.host)
    && x.sent.verb == req.verb && x.sent.uri == req.uri && x.port == port
  }

  /** A request is the same as an exchange's as far as the response may depend on it: target, the headers
      its rule is about, and those its Vary line names. */
  ghost predicate Agrees(x: Exchange, req: Request, port: nat) {
    && ForTarget(x, req, port)
    && (forall n :: n in x.rule.varyHeaders ==> FirstLine(x.sent.headers, Canonical(n)) == FirstLine(req.headers, Canonical(n)))
    && forall n :: n in ParseVary(FirstLine(x.resp.headers, "Vary")) ==> FirstLine(x.sent.headers, n) == FirstLine(req.headers, n)
  }

  /** And it agrees on what the rule keys on, too, its headers and perhaps the body: it must be given
      what the exchange brought. */
  ghost predicate Variant(x: Exchange, req: Request, port: nat) {
    && ForTarget(x, req, port)
    && (forall n :: n in StoreNames(x) ==> Get(x.sent.headers, n) == Get(req.headers, n))
    && (x.rule.cacheBody ==> x.sent.body == req.body)
  }

  lemma {:induction false} RuleHeaderAgrees(x: Exchange, req: Request, port: nat, n: string)
    requires Variant(x, req, port) && n in x.rule.varyHeaders
    ensures FirstLine(x.sent.headers, Canonical(n)) == FirstLine(req.headers, Canonical(n))
  {
    var line := VaryLine(x.resp);
    ParsedVaryCanonical(line);
    MergeCovers(x.rule.varyHeaders, ParseVary(line));
    CanonicalTwice(n);
    var key := if |ParseVary(line)| == 0 then n else Canonical(n);
    assert key in StoreNames(x);
    assert Get(x.sent.headers, key) == Get(req.headers, key);
  }

  lemma {:induction false} VariantAgrees(x: Exchange, req: Request, port: nat)
    requires Variant(x, req, port)
    ensures Agrees(x, req, port)
  {
    var line := FirstLine(x.resp.headers, "Vary");
    GetOwn(x.resp.headers, "Vary");
    ParsedVaryCanonical(line);
    MergeCovers(x.rule.varyHeaders, ParseVary(line));
    forall n | n in x.rule.varyHeaders ensures FirstLine(x.sent.headers, Canonical(n)) == FirstLine(req.headers, Canonical(n)) {
      RuleHeaderAgrees(x, req, port, n);
    }
    forall n | n in ParseVary(line) ensures FirstLine(x.sent.headers, n) == FirstLine(req.headers, n) {
      assert n in StoreNames(x);
      GetCanonical(x.sent.headers, n);
      GetCanonical(req.headers, n);
    }
  }

  /** A hit replays this exchange. */
  ghost predicate Replays(h: Hit, x: Exchange, lim: Limits) {
    Agrees(x, h.req, h.port) && Variant(x, h.req, h.port) && Serves(h, x, lim)
  }

  ghost predicate Transparent(log: set<Exchange>, h: Hit, lim: Limits) {
    exists x :: x in log && Replays(h, x, lim)
  }

  /** A reply made from the cache is a transparent hit of the request it answers. */
  ghost predicate FromCache(log: set<Exchange>, c: Call, reply: Response, lim: Limits) {
    exists h: Hit :: Transparent(log, h, lim) && h.req == c.req && h.port == c.port && h.reply == reply
  }

  // ----- invariants -------------------------------------------------------------------------------------

  ghost predicate ExchangeOk(x: Exchange, sc: Scope) {
    ReqOk(x.sent, sc) && RuleOk(x.rule, sc) && VaryOk(x.resp, sc)
  }

  /** Names that a key may be made with. */
  ghost predicate InScope(names: seq<string>, sc: Scope) {
    && InWords(names, sc.words)
    && (sc.bodies.AlwaysKeyed? ==> multiset(names) == multiset(sc.bodies.names))
  }

  ghost predicate IndexOk(index: map<string, seq<string>>, sc: Scope) {
    forall b :: b in index ==> InScope(index[b], sc)
  }

  ghost predicate LogOk(log: set<Exchange>, sc: Scope) {
    forall x :: x in log ==> ExchangeOk(x, sc)
  }

  ghost predicate HitsOk(log: set<Exchange>, hits: set<Hit>, lim: Limits) {
    forall h :: h in hits ==> Transparent(log, h, lim)
  }

  ghost predicate SharedOk(sh: Shared, sc: Scope, lim: Limits) {
    && RulesOk(sh.rules, sc) && IndexOk(sh.index, sc) && LogOk(sh.log, sc)
    && HitsOk(sh.log, sh.hits, lim)
  }

  ghost predicate KeyOk(c: Call, rule: Rule, names: seq<string>, key: string, sc: Scope, lim: Limits) {
    RuleOk(rule, sc) && InScope(names, sc) && key == KeyUnder(c.req, c.port, rule, names, lim)
  }

  ghost predicate ProcOk(log: set<Exchange>, pr: Proc, sc: Scope, lim: Limits) {
    && ReqOk(pr.call.req, sc)
    && match pr.pc
       case Matched(rule) => RuleOk(rule, sc)
       case Keyed(rule, names, key) => KeyOk(pr.call, rule, names, key, sc, lim)
       case Read(rule, names, key, entry) => KeyOk(pr.call, rule, names, key, sc, lim)
       case Stale(rule, names, key) => KeyOk(pr.call, rule, names, key, sc, lim)
       case Missed(rule, names, key) => KeyOk(pr.call, rule, names, key, sc, lim)
       case Replied(reply) => reply.Replayed? ==> FromCache(log, pr.call, reply.hit, lim)
       case _ => true
  }

  /** What holds of shared state and one request: `Sound` and more. */
  ghost predicate WorldOk(w: World, sc: Scope, lim: Limits) {
    Clear(sc) && Sound(w, lim) && SharedOk(w.sh, sc, lim) && ProcOk(w.sh.log, w.pr, sc, lim)
  }

  ghost predicate Inv(s: State, sc: Scope, lim: Limits) {
    && Clear(sc) && AllSound(s, lim) && SharedOk(s.sh, sc, lim)
    && forall p :: p in s.procs ==> ProcOk(s.sh.log, s.procs[p], sc, lim)
  }

  lemma {:induction false} MergeInWords(a: seq<string>, b: seq<string>, words: iset<string>)
    requires InWords(a, words) && InWords(b, words)
    ensures InWords(Merge(a, b), words)
  {
    if |b| > 0 {
      var m := Merge(a, b);
      forall i | 0 <= i < |m| ensures m[i] in words && Canonical(m[i]) in words {
        assert m[i] in m;
        var j :| 0 <= j < |a + b| && Canonical((a + b)[j]) == m[i];
        CanonicalTwice((a + b)[j]);
      }
    }
  }

  /** Merging in names that are there already permutes a tidy list. */
  lemma {:induction false} MergeWithin(a: seq<string>, b: seq<string>)
    requires Tidy(a) && forall i :: 0 <= i < |b| ==> b[i] in a
    ensures multiset(Merge(a, b)) == multiset(a)
  {
    if |b| > 0 {
      forall x ensures x in Merge(a, b) <==> x in a {
        NamesAppend(a, b, x);
        CanonicalMembers(a, x);
        if Names(b, x) {
          var i :| 0 <= i < |b| && Canonical(b[i]) == x;
          var j :| 0 <= j < |a| && a[j] == b[i];
        }
      }
      SameMembers(Merge(a, b), a);
    }
  }

  lemma {:induction false} MergeInScope(rule: Rule, b: seq<string>, sc: Scope)
    requires RuleOk(rule, sc) && InWords(b, sc.words) && VaryWithin(b, sc.bodies)
    ensures InScope(Merge(rule.varyHeaders, b), sc)
  {
    MergeInWords(rule.varyHeaders, b, sc.words);
    if sc.bodies.AlwaysKeyed? {
      SameMultisetMembers(rule.varyHeaders, sc.bodies.names);
      MergeWithin(rule.varyHeaders, b);
    }
  }

  lemma {:induction false} SameMultisetMembers(a: seq<string>, b: seq<string>)
    requires multiset(a) == multiset(b)
    ensures forall x :: x in a <==> x in b
  {
    forall x ensures x in a <==> x in b {
      assert x in multiset(a) <==> x in multiset(b);
    }
  }

  lemma {:induction false} LearntWithin(index: map<string, seq<string>>, b: string, sc: Scope)
    requires IndexOk(index, sc)
    ensures InWords(Learnt(index, b), sc.words) && VaryWithin(Learnt(index, b), sc.bodies)
  {
    if b in index && sc.bodies.AlwaysKeyed? {
      SameMultisetMembers(index[b], sc.bodies.names);
    }
  }

  lemma {:induction false} StoreNamesOk(x: Exchange, sc: Scope)
    requires ExchangeOk(x, sc)
    ensures InScope(StoreNames(x), sc)
  {
    MergeInScope(x.rule, ParseVary(VaryLine(x.resp)), sc);
  }

  lemma {:induction false} UnconfusedWords(a: seq<string>, b: seq<string>, words: iset<string>)
    requires ClearWords(words) && InWords(a, words) && InWords(b, words)
    ensures NewlineFree(a) && NewlineFree(b) && Unconfused(a, b)
  {}

  lemma {:induction false} SamePairsSameValue(r1: Request, names1: seq<string>, r2: Request, names2: seq<string>, n: string)
    requires multiset(Pairs(r1, names1)) == multiset(Pairs(r2, names2)) && n in names1
    ensures Get(r1.headers, n) == Get(r2.headers, n)
  {
    var i :| 0 <= i < |names1| && names1[i] == n;
    assert Pairs(r1, names1)[i] in multiset(Pairs(r2, names2));
    var j :| 0 <= j < |names2| && Pairs(r2, names2)[j] == (n, Get(r1.headers, n));
  }

  /** Within a scope a key can be decoded, whatever names it was made with. */
  lemma {:induction false} KeyDecodes(r1: Request, p1: nat, rule1: Rule, names1: seq<string>,
                                      r2: Request, p2: nat, rule2: Rule, names2: seq<string>, sc: Scope, lim: Limits)
    requires Clear(sc) && ReqOk(r1, sc) && ReqOk(r2, sc) && RuleOk(rule1, sc) && RuleOk(rule2, sc)
    requires InScope(names1, sc) && InScope(names2, sc)
    requires KeyUnder(r1, p1, rule1, names1, lim) == KeyUnder(r2, p2, rule2, names2, lim)
    ensures KeyHost(r1) == KeyHost(r2) && r1.verb == r2.verb && r1.uri == r2.uri && p1 == p2
    ensures multiset(Pairs(r1, names1)) == multiset(Pairs(r2, names2))
    ensures !sc.bodies.NotKeyed? ==> KeyBody(r1, lim) == KeyBody(r2, lim)
  {
    UnconfusedWords(names1, names2, sc.words);
    var b1, b2 := KeyBody(r1, lim), KeyBody(r2, lim);
    var c1, c2 := Config(rule1.cacheBody, names1, p1), Config(rule2.cacheBody, names2, p2);
    if sc.bodies.AlwaysKeyed? {
      SameLength(names1, names2);
      KeyIffSameTargetAndBody(r1, b1, c1, r2, b2, c2);
    } else {
      KeyIffSameTarget(r1, b1, c1, r2, b2, c2);
    }
  }

  /** The centre of the argument: a request that looks up the key an exchange was stored under is a
      variant of it, whatever names it keys on. */
  lemma {:induction false} SameKeyIsVariant(x: Exchange, c: Call, rule: Rule, names: seq<string>, sc: Scope, lim: Limits)
    requires Clear(sc) && ExchangeOk(x, sc) && ReqOk(c.req, sc) && lim.maxBodyBytes > 0
    requires !BodyTooLarge(x.sent, lim) && !BodyTooLarge(c.req, lim)
    requires KeyOk(c, rule, names, StoreKey(x, lim), sc, lim)
    ensures Variant(x, c.req, c.port) && Agrees(x, c.req, c.port)
    ensures multiset(Pairs(x.sent, StoreNames(x))) == multiset(Pairs(c.req, names))
  {
    StoreNamesOk(x, sc);
    KeyDecodes(x.sent, x.port, x.rule, StoreNames(x), c.req, c.port, rule, names, sc, lim);
    forall n | n in StoreNames(x) ensures Get(x.sent.headers, n) == Get(c.req.headers, n) {
      SamePairsSameValue(x.sent, StoreNames(x), c.req, names, n);
    }
    VariantAgrees(x, c.req, c.port);
  }

  lemma {:induction false} TransparentGrows(log: set<Exchange>, log': set<Exchange>, h: Hit, lim: Limits)
    requires Transparent(log, h, lim) && log <= log'
    ensures Transparent(log', h, lim)
  {
    var x :| x in log && Replays(h, x, lim);
    assert x in log';
  }

  lemma {:induction false} ProcOkGrows(log: set<Exchange>, log': set<Exchange>, pr: Proc, sc: Scope, lim: Limits)
    requires ProcOk(log, pr, sc, lim) && log <= log'
    ensures ProcOk(log', pr, sc, lim)
  {
    if pr.pc.Replied? && pr.pc.reply.Replayed? {
      var h: Hit :| Transparent(log, h, lim) && h.req == pr.call.req && h.port == pr.call.port && h.reply == pr.pc.reply.hit;
      TransparentGrows(log, log', h, lim);
    }
  }

  // ----- steps keep the invariant ---------------------------------------------------------------------

  lemma {:induction false} MatchOk(w: World, sc: Scope, lim: Limits)
    requires WorldOk(w, sc, lim)
    ensures WorldOk(DoMatch(w, lim), sc, lim)
  {
    var c := w.pr.call;
    FirstMatchIsFirst(w.sh.rules, c.namespace, c.labels, StripPort(HostOf(c)), c.port, c.req.verb, PathOf(c));
  }

  lemma {:induction false} LookupOk(w: World, sc: Scope, lim: Limits)
    requires WorldOk(w, sc, lim)
    ensures WorldOk(DoLookup(w, lim), sc, lim)
  {
    if w.pr.pc.Matched? {
      LearntWithin(w.sh.index, BaseKey(w.pr.call), sc);
      MergeInScope(w.pr.pc.rule, Learnt(w.sh.index, BaseKey(w.pr.call)), sc);
    }
  }

  lemma {:induction false} ReadOk(w: World, sc: Scope, lim: Limits)
    requires WorldOk(w, sc, lim)
    ensures WorldOk(DoRead(w), sc, lim)
  {
    ReadSound(w, lim);
  }

  lemma {:induction false} CheckOk(w: World, sc: Scope, lim: Limits)
    requires WorldOk(w, sc, lim)
    ensures WorldOk(DoCheck(w), sc, lim)
  {
    CheckSound(w, lim);
    if w.pr.pc.Read? && !Expired(w.pr.pc.entry, w.sh.now) {
      var h := Hit(w.pr.call.req, w.pr.call.port, Replay(w.pr.pc.entry), w.sh.now);
      HitIsTransparent(w, h, sc, lim);
      HitKept(w.sh, h, sc, lim);
    }
  }

  lemma {:induction false} HitKept(sh: Shared, h: Hit, sc: Scope, lim: Limits)
    requires SharedOk(sh, sc, lim) && Transparent(sh.log, h, lim)
    ensures SharedOk(sh.(hits := sh.hits + {h}), sc, lim)
  {}

  lemma {:induction false} HitIsTransparent(w: World, h: Hit, sc: Scope, lim: Limits)
    requires WorldOk(w, sc, lim) && w.pr.pc.Read? && !Expired(w.pr.pc.entry, w.sh.now)
    requires h == Hit(w.pr.call.req, w.pr.call.port, Replay(w.pr.pc.entry), w.sh.now)
    ensures Transparent(w.sh.log, h, lim)
  {
    var pc := w.pr.pc;
    var x :| x in w.sh.log && Storable(x, lim) && pc.key == StoreKey(x, lim) && pc.entry == EntryOf(x);
    SameKeyIsVariant(x, w.pr.call, pc.rule, pc.names, sc, lim);
    EntryServes(w.sh.log, x, h, lim);
    assert Replays(h, x, lim);
  }

  lemma {:induction false} DropOk(w: World, sc: Scope, lim: Limits)
    requires WorldOk(w, sc, lim)
    ensures WorldOk(DoDrop(w), sc, lim)
  {
    DropSound(w, lim);
  }

  lemma {:induction false} LogGrows(sh: Shared, x: Exchange, sc: Scope, lim: Limits)
    requires SharedOk(sh, sc, lim) && ExchangeOk(x, sc)
    ensures SharedOk(sh.(log := sh.log + {x}), sc, lim)
  {
    forall h | h in sh.hits ensures Transparent(sh.log + {x}, h, lim) {
      TransparentGrows(sh.log, sh.log + {x}, h, lim);
    }
  }

  lemma {:induction false} FetchOk(w: World, answer: Option<Response>, sc: Scope, lim: Limits)
    requires WorldOk(w, sc, lim)
    requires answer.Some? ==> VaryOk(answer.value, sc)
    ensures WorldOk(DoFetch(w, answer, lim), sc, lim)
  {
    FetchSound(w, answer, lim);
    if answer.Some? && w.pr.pc.Missed? {
      SentIsParsed(w.pr.req);
      LogGrows(w.sh, Exchange(Sent(w.pr.req), w.pr.call.port, w.pr.pc.rule, answer.value, w.sh.now), sc, lim);
    }
  }

  lemma {:induction false} DecideOk(w: World, sc: Scope, lim: Limits)
    requires WorldOk(w, sc, lim)
    ensures WorldOk(DoDecide(w), sc, lim)
  {
    DecideSound(w, lim);
  }

  lemma {:induction false} IndexGrows(index: map<string, seq<string>>, b: string, names: seq<string>, sc: Scope)
    requires IndexOk(index, sc) && InScope(names, sc)
    ensures IndexOk(index[b := names], sc)
  {}

  lemma {:induction false} LearnOk(w: World, sc: Scope, lim: Limits)
    requires WorldOk(w, sc, lim)
    ensures WorldOk(DoLearn(w), sc, lim)
  {
    LearnSound(w, lim);
    if w.pr.pc.Answered? {
      StoreNamesOk(w.pr.pc.x, sc);
      IndexGrows(w.sh.index, BaseKey(w.pr.call), StoreNames(w.pr.pc.x), sc);
    }
  }

  lemma {:induction false} DeleteOk(w: World, sc: Scope, lim: Limits)
    requires WorldOk(w, sc, lim)
    ensures WorldOk(DoDelete(w, lim), sc, lim)
  {
    DeleteSound(w, lim);
  }

  lemma {:induction false} StoreOk(w: World, after: map<string, Entry>, sc: Scope, lim: Limits)
    requires WorldOk(w, sc, lim)
    ensures WorldOk(DoStore(w, after, lim), sc, lim)
  {
    StoreSound(w, after, lim);
  }

  lemma {:induction false} PerformOk(w: World, step: Step, sc: Scope, lim: Limits)
    requires WorldOk(w, sc, lim)
    requires step.Fetch? && step.answer.Some? ==> VaryOk(step.answer.value, sc)
    ensures WorldOk(Perform(w, step, lim), sc, lim)
  {
    match step
    case MatchPolicy => MatchOk(w, sc, lim);
    case LookupIndex => LookupOk(w, sc, lim);
    case ReadCache => ReadOk(w, sc, lim);
    case CheckExpiry => CheckOk(w, sc, lim);
    case DropStale => DropOk(w, sc, lim);
    case Fetch(answer) => FetchOk(w, answer, sc, lim);
    case Decide => DecideOk(w, sc, lim);
    case Learn => LearnOk(w, sc, lim);
    case DeleteOld => DeleteOk(w, sc, lim);
    case StoreEntry(after) => StoreOk(w, after, sc, lim);
  }

  lemma {:induction false} StepOk(s: State, p: nat, step: Step, sc: Scope, lim: Limits)
    requires Inv(s, sc, lim) && Admissible(By(p, step), sc)
    ensures Inv(Apply(s, By(p, step), lim), sc, lim)
  {
    StepSound(s, p, step, lim);
    if p in s.procs {
      var w := World(s.sh, s.procs[p]);
      var s' := Apply(s, By(p, step), lim);
      PerformOk(w, step, sc, lim);
      LogOnlyGrows(w, step, lim);
      forall q | q in s'.procs ensures ProcOk(s'.sh.log, s'.procs[q], sc, lim) {
        if q != p {
          ProcOkGrows(s.sh.log, s'.sh.log, s.procs[q], sc, lim);
        }
      }
    }
  }

  lemma {:induction false} ApplyOk(s: State, a: Action, sc: Scope, lim: Limits)
    requires Inv(s, sc, lim) && Admissible(a, sc)
    ensures Inv(Apply(s, a, lim), sc, lim)
  {
    match a
    case By(p, step) => StepOk(s, p, step, sc, lim);
    case _ => ApplySound(s, a, lim);
  }

  lemma {:induction false} EveryRun(now: int, actions: seq<Action>, sc: Scope, lim: Limits)
    requires AllAdmissible(actions, sc)
    ensures Inv(Run(now, actions, lim), sc, lim)
  {
    if |actions| == 0 {
      EveryRunIsSound(now, actions, lim);
    } else {
      EveryRun(now, actions[..|actions| - 1], sc, lim);
      ApplyOk(Run(now, actions[..|actions| - 1], lim), actions[|actions| - 1], sc, lim);
    }
  }

  // ----- main results ---------------------------------------------------------------------------------

  /** In every run, every hit replays, unchanged but for X-Cache, an upstream response to an earlier
      request that agrees on host, method, URI, port and every header the response's Vary line names;
      that response could be stored, and is within its lifetime. It is enough that no two names that
      rules and responses vary on can be taken for each other. */
  lemma {:induction false} EveryHitIsTransparent(now: int, actions: seq<Action>, sc: Scope, lim: Limits, h: Hit)
    requires AllAdmissible(actions, sc) && h in Run(now, actions, lim).sh.hits
    ensures exists x :: x in Run(now, actions, lim).sh.log && Replays(h, x, lim)
  {
    EveryRun(now, actions, sc, lim);
  }

  /** And so is what the client is sent: every reply made from the cache is such a hit of the request
      it answers. */
  lemma {:induction false} EveryCachedReplyIsTransparent(now: int, actions: seq<Action>, sc: Scope, lim: Limits, p: nat)
    requires AllAdmissible(actions, sc)
    requires var s := Run(now, actions, lim); p in s.procs && s.procs[p].pc.Replied? && s.procs[p].pc.reply.Replayed?
    ensures var s := Run(now, actions, lim); FromCache(s.sh.log, s.procs[p].call, s.procs[p].pc.reply.hit, lim)
  {
    EveryRun(now, actions, sc, lim);
    var s := Run(now, actions, lim);
    assert ProcOk(s.sh.log, s.procs[p], sc, lim);
  }

  /** Within a scope, but for names: all are without '='. */
  ghost predicate PlainAction(a: Action, bodies: Bodies) {
    match a
    case Arrive(p, call) => Parsed(call.req) && (bodies.NoBodies? ==> call.req.body == "")
    case By(p, step) =>
      step.Fetch? && step.answer.Some? ==>
        PlainName(VaryLine(step.answer.value)) && VaryWithin(ParseVary(VaryLine(step.answer.value)), bodies)
    case SwapPolicy(rules) => forall i :: 0 <= i < |rules| ==> PlainNames(rules[i].varyHeaders) && BodiesFit(rules[i], bodies)
    case _ => true
  }

  lemma {:induction false} PlainIsAdmissible(a: Action, bodies: Bodies)
    requires PlainAction(a, bodies)
    ensures Admissible(a, Scope(PlainWords(), bodies))
  {
    if a.SwapPolicy? {
      forall i | 0 <= i < |a.rules| ensures RuleOk(a.rules[i], Scope(PlainWords(), bodies)) {
        PlainInWords(a.rules[i].varyHeaders);
      }
    } else if a.By? && a.step.Fetch? && a.step.answer.Some? {
      ParsedVaryPlain(VaryLine(a.step.answer.value));
      PlainInWords(ParseVary(VaryLine(a.step.answer.value)));
    }
  }

  /** Without '=' in names the cache is transparent, whatever the names are. */
  lemma {:induction false} PlainRunsAreTransparent(now: int, actions: seq<Action>, bodies: Bodies, lim: Limits, h: Hit)
    requires forall i :: 0 <= i < |actions| ==> PlainAction(actions[i], bodies)
    requires h in Run(now, actions, lim).sh.hits
    ensures exists x :: x in Run(now, actions, lim).sh.log && Replays(h, x, lim)
  {
    PlainWordsAreClear();
    forall i | 0 <= i < |actions| ensures Admissible(actions[i], Scope(PlainWords(), bodies)) {
      PlainIsAdmissible(actions[i], bodies);
    }
    EveryHitIsTransparent(now, actions, Scope(PlainWords(), bodies), lim, h);
  }

  /** Where every rule keys on bodies, and all rules and Vary lines are about the same headers, every hit
      agrees on the body, too. */
  lemma {:induction false} EveryHitAgreesOnBody(now: int, actions: seq<Action>, sc: Scope, lim: Limits, h: Hit)
    requires AllAdmissible(actions, sc) && sc.bodies.AlwaysKeyed? && h in Run(now, actions, lim).sh.hits
    ensures exists x :: x in Run(now, actions, lim).sh.log && Replays(h, x, lim) && x.sent.body == h.req.body
  {
    EveryRun(now, actions, sc, lim);
    var s := Run(now, actions, lim);
    var x :| x in s.sh.log && Replays(h, x, lim);
    assert ExchangeOk(x, sc);
  }
}
