/** internal/proxy: `handleRequest` as a state machine. Any number of requests run at the same time,
    each a process with a program counter; every access to shared state is a step of its own, and
    policy swaps, sweeps and the clock move in between. */
module Protocol {
  import opened Text
  import opened Http
  import opened CacheKey
  import opened Vary
  import opened CacheControl
  import opened Policy
  import opened Store

  datatype Limits = Limits(maxBodyBytes: nat, maxBytes: nat)

  /** What `handleRequest` is called with. */
  datatype Call = Call(req: Request, origAddr: string, port: nat, namespace: string, labels: Labels)

  /** An upstream response to a request that fell under a rule: the request as sent, and when the
      response had been read. */
  datatype Exchange = Exchange(sent: Request, port: nat, rule: Rule, resp: Response, at: int)

  /** A reply made from the cache, and the clock reading that allowed it. */
  datatype Hit = Hit(req: Request, port: nat, reply: Response, at: int)

  datatype Shared = Shared(
    now: int,                               // nanoseconds
    rules: seq<Rule>,
    index: map<string, seq<string>>,        // varyIndex: base key to learned names
    entries: map<string, Entry>,            // the store
    log: set<Exchange>,                     // history
    hits: set<Hit>)

  datatype Reply = BadGateway | Relayed(resp: Response) | Replayed(hit: Response)

  datatype Pc =
    | Arrived
    | Matched(rule: Rule)
    | Keyed(rule: Rule, names: seq<string>, key: string)
    | Read(rule: Rule, names: seq<string>, key: string, entry: Entry)
    | Stale(rule: Rule, names: seq<string>, key: string)
    | Missed(rule: Rule, names: seq<string>, key: string)
    | Forwarding                            // no rule, or the request body is too large
    | Answered(stage: Stage, key: string, x: Exchange)
    | Replied(reply: Reply)

  /** What is to be done with a complete 2xx answer next. */
  datatype Stage = ToDecide | ToLearn | ToDelete | ToStore

  /** `req` is the request object, whose Connection header changes on the way. */
  datatype Proc = Proc(call: Call, req: Request, pc: Pc)

  datatype Step =
    | MatchPolicy
    | LookupIndex                           // and compute the key
    | ReadCache                             // the locked read of Get
    | CheckExpiry
    | DropStale                             // the Delete inside Get
    | Fetch(answer: Option<Response>)
    | Decide
    | Learn                                 // storeVaryIndex
    | DeleteOld
    | StoreEntry(after: map<string, Entry>) // Set, with the evictions it chooses

  // ----- what one request computes ------------------------------------------------------------------

  function HostOf(c: Call): string {
    if c.req.host == "" then c.origAddr else c.req.host
  }

  function PathOf(c: Call): string {
    if c.req.path == "" then "/" else c.req.path
  }

  predicate BodyTooLarge(req: Request, lim: Limits) {
    lim.maxBodyBytes > 0 && |req.body| > lim.maxBodyBytes
  }

  /** The request body as buffered for the key. */
  function KeyBody(req: Request, lim: Limits): string {
    if lim.maxBodyBytes > 0 && |req.body| <= lim.maxBodyBytes then req.body else ""
  }

  function DirectivesOf(h: Headers): map<string, string> {
    CacheControl.Parse(Get(h, "Cache-Control"))
  }

  function VaryLine(resp: Response): string {
    Get(resp.headers, "Vary")
  }

  function BaseKey(c: Call): string {
    Preimage(c.req, "", Config(false, [], c.port))
  }

  function Learnt(index: map<string, seq<string>>, baseKey: string): seq<string> {
    if baseKey in index then index[baseKey] else []
  }

  function LookupNames(sh: Shared, c: Call, rule: Rule): seq<string> {
    Merge(rule.varyHeaders, Learnt(sh.index, BaseKey(c)))
  }

  function KeyUnder(req: Request, port: nat, rule: Rule, names: seq<string>, lim: Limits): string {
    Preimage(req, KeyBody(req, lim), Config(rule.cacheBody, names, port))
  }

  function StoreNames(x: Exchange): seq<string> {
    Merge(x.rule.varyHeaders, ParseVary(VaryLine(x.resp)))
  }

  function StoreKey(x: Exchange, lim: Limits): string {
    KeyUnder(x.sent, x.port, x.rule, StoreNames(x), lim)
  }

  function EntryOf(x: Exchange): Entry {
    Entry(x.resp.status, x.resp.headers, x.resp.proto, x.resp.body, x.at, Ttl(DirectivesOf(x.resp.headers), x.rule.ttl))
  }

  /** `fetchUpstream` hands out an entry: a 2xx response whose body has been read whole. */
  predicate Buffered(resp: Response, lim: Limits) {
    lim.maxBodyBytes > 0 && |resp.body| <= lim.maxBodyBytes && 200 <= resp.status < 300
  }

  predicate Bypassed(req: Request, resp: Response) {
    VaryLine(resp) == "*" || CC_NO_STORE in DirectivesOf(req.headers) || !ResponseCacheable(DirectivesOf(resp.headers))
  }

  predicate LookupAllowed(req: Request) {
    CC_NO_STORE !in DirectivesOf(req.headers) && CC_NO_CACHE !in DirectivesOf(req.headers)
  }

  function Replay(e: Entry): Response {
    Response(e.status, Http.Set(e.headers, "X-Cache", "HIT"), e.proto, e.body)
  }

  function Miss(resp: Response): Response {
    resp.(headers := Http.Set(resp.headers, "X-Cache", "MISS"))
  }

  /** A sweep removes what has expired. */
  function Swept(entries: map<string, Entry>, now: int): map<string, Entry> {
    map k | k in entries && !Expired(entries[k], now) :: entries[k]
  }

  // ----- the steps ------------------------------------------------------------------------------------

  /** The shared state and one request. */
  datatype World = World(sh: Shared, pr: Proc)

  function Goto(w: World, pc: Pc): World {
    w.(pr := w.pr.(pc := pc))
  }

  function DoMatch(w: World, lim: Limits): World {
    if w.pr.pc.Arrived? then Goto(w, Classify(w.sh.rules, w.pr.call, lim)) else w
  }

  function DoLookup(w: World, lim: Limits): World {
    match w.pr.pc
    case Matched(rule) =>
      var names := LookupNames(w.sh, w.pr.call, rule);
      Goto(w, Keyed(rule, names, KeyUnder(w.pr.req, w.pr.call.port, rule, names, lim)))
    case _ => w
  }

  function DoRead(w: World): World {
    match w.pr.pc
    case Keyed(rule, names, key) =>
      if LookupAllowed(w.pr.call.req) && key in w.sh.entries
      then Goto(w, Read(rule, names, key, w.sh.entries[key]))
      else Goto(w, Missed(rule, names, key))
    case _ => w
  }

  function DoCheck(w: World): World {
    match w.pr.pc
    case Read(rule, names, key, entry) =>
      if Expired(entry, w.sh.now) then Goto(w, Stale(rule, names, key))
      else
        var h := Hit(w.pr.call.req, w.pr.call.port, Replay(entry), w.sh.now);
        Goto(w.(sh := w.sh.(hits := w.sh.hits + {h})), Replied(Replayed(h.reply)))
    case _ => w
  }

  function DoDrop(w: World): World {
    match w.pr.pc
    case Stale(rule, names, key) =>
      Goto(w.(sh := w.sh.(entries := w.sh.entries - {key})), Missed(rule, names, key))
    case _ => w
  }

  /** Only a complete 2xx answer under a rule goes on; `None` is an error on the way. */
  function DoFetch(w: World, answer: Option<Response>, lim: Limits): World {
    if !w.pr.pc.Missed? && !w.pr.pc.Forwarding? then w
    else
      var sent := w.(pr := w.pr.(req := Sent(w.pr.req)));
      if answer.None? then Goto(sent, Replied(BadGateway))
      else if w.pr.pc.Forwarding? then Goto(sent, Replied(Relayed(answer.value)))
      else DoAnswer(sent, w.pr.pc.key, Exchange(sent.pr.req, w.pr.call.port, w.pr.pc.rule, answer.value, w.sh.now), lim)
  }

  function DoAnswer(w: World, key: string, x: Exchange, lim: Limits): World {
    Goto(w.(sh := w.sh.(log := w.sh.log + {x})),
         if Buffered(x.resp, lim) then Answered(ToDecide, key, x) else Replied(Relayed(x.resp)))
  }

  function DoDecide(w: World): World {
    match w.pr.pc
    case Answered(ToDecide, key, x) =>
      Goto(w, if Bypassed(w.pr.call.req, x.resp) then Replied(Relayed(x.resp)) else Answered(ToLearn, key, x))
    case _ => w
  }

  function DoLearn(w: World): World {
    match w.pr.pc
    case Answered(ToLearn, key, x) =>
      var names := StoreNames(x);
      var index := if |names| > 0 then w.sh.index[BaseKey(w.pr.call) := names] else w.sh.index;
      Goto(w.(sh := w.sh.(index := index)), Answered(ToDelete, key, x))
    case _ => w
  }

  function DoDelete(w: World, lim: Limits): World {
    match w.pr.pc
    case Answered(ToDelete, key, x) =>
      var entries := if StoreKey(x, lim) != key then w.sh.entries - {key} else w.sh.entries;
      Goto(w.(sh := w.sh.(entries := entries)), Answered(ToStore, key, x))
    case _ => w
  }

  /** `Set` leaves `after`, which must be something it may leave. */
  ghost function DoStore(w: World, after: map<string, Entry>, lim: Limits): World {
    match w.pr.pc
    case Answered(ToStore, key, x) =>
      if SetMay(w.sh.entries, StoreKey(x, lim), EntryOf(x), lim.maxBytes, after)
      then Goto(w.(sh := w.sh.(entries := after)), Replied(Relayed(Miss(x.resp))))
      else w
    case _ => w
  }

  /** One step of one request; a step that is not enabled changes nothing. */
  ghost function Perform(w: World, step: Step, lim: Limits): World {
    match step
    case MatchPolicy => DoMatch(w, lim)
    case LookupIndex => DoLookup(w, lim)
    case ReadCache => DoRead(w)
    case CheckExpiry => DoCheck(w)
    case DropStale => DoDrop(w)
    case Fetch(answer) => DoFetch(w, answer, lim)
    case Decide => DoDecide(w)
    case Learn => DoLearn(w)
    case DeleteOld => DoDelete(w, lim)
    case StoreEntry(after) => DoStore(w, after, lim)
  }

  function Classify(rules: seq<Rule>, c: Call, lim: Limits): Pc {
    match Match(rules, c.namespace, c.labels, HostOf(c), c.port, c.req.verb, PathOf(c))
    case Some(rule) => if BodyTooLarge(c.req, lim) then Forwarding else Matched(rule)
    case None => Forwarding
  }

  /** What a request must be like to be answered from or for the cache: its body fits, and it meets all
      conditions of some rule. Without a Host header it is taken to be for the address dialled, without a
      path for the root. */
  ghost predicate UnderRule(rules: seq<Rule>, c: Call, lim: Limits) {
    && (lim.maxBodyBytes == 0 || |c.req.body| <= lim.maxBodyBytes)
    && exists i :: 0 <= i < |rules|
         && FallsUnder(c, rules[i], if c.req.host == "" then c.origAddr else c.req.host, if c.req.path == "" then "/" else c.req.path)
  }

  ghost predicate FallsUnder(c: Call, r: Rule, host: string, path: string) {
    exists h :: Stripped(host, h) && RuleMatches(r, c.namespace, c.labels, h, c.port, c.req.verb, path)
  }

  lemma {:induction false} ClassifyIff(rules: seq<Rule>, c: Call, lim: Limits)
    ensures Classify(rules, c, lim).Matched? <==> UnderRule(rules, c, lim)
    ensures Classify(rules, c, lim).Matched? || Classify(rules, c, lim).Forwarding?
  {
    var host := HostOf(c);
    forall h ensures Stripped(host, h) <==> h == StripPort(host) {
      StripIff(host, h);
    }
    var h := StripPort(host);
    MatchIsFirst(rules, c.namespace, c.labels, host, h, c.port, c.req.verb, PathOf(c));
    assert forall i :: 0 <= i < |rules| ==>
      (FallsUnder(c, rules[i], host, PathOf(c)) <==> RuleMatches(rules[i], c.namespace, c.labels, h, c.port, c.req.verb, PathOf(c)));
  }

  /** Vary sets are kept for each host, method, URI and port. */
  lemma {:induction false} BaseKeyIff(c1: Call, c2: Call)
    requires Parsed(c1.req) && Parsed(c2.req)
    ensures BaseKey(c1) == BaseKey(c2) <==>
              && (if c1.req.host == "" then c1.req.urlHost else c1.req.host) == (if c2.req.host == "" then c2.req.urlHost else c2.req.host)
              && c1.req.verb == c2.req.verb && c1.req.uri == c2.req.uri && c1.port == c2.port
  {
    KeyIffSameTarget(c1.req, "", Config(false, [], c1.port), c2.req, "", Config(false, [], c2.port));
    assert Pairs(c1.req, []) == Pairs(c2.req, []) == [];
  }

  datatype State = State(sh: Shared, procs: map<nat, Proc>)

  datatype Action =
    | Arrive(p: nat, call: Call)
    | By(p: nat, step: Step)
    | SwapPolicy(rules: seq<Rule>)
    | Sweep
    | Tick(d: nat)

  ghost function Apply(s: State, a: Action, lim: Limits): State {
    match a
    case Arrive(p, call) => if p in s.procs then s else s.(procs := s.procs[p := Proc(call, call.req, Arrived)])
    case By(p, step) =>
      if p !in s.procs then s
      else
        var w := Perform(World(s.sh, s.procs[p]), step, lim);
        State(w.sh, s.procs[p := w.pr])
    case SwapPolicy(rules) => s.(sh := s.sh.(rules := rules))
    case Sweep => s.(sh := s.sh.(entries := Swept(s.sh.entries, s.sh.now)))
    case Tick(d) => s.(sh := s.sh.(now := s.sh.now + d))
  }

  /** A sweep removes exactly the entries that are older than their lifetime. */
  lemma {:induction false} SweepEffect(s: State, lim: Limits, key: string)
    ensures var after, before := Apply(s, Sweep, lim).sh, s.sh;
            && (key in after.entries <==> key in before.entries && before.now - before.entries[key].cachedAt <= before.entries[key].ttl)
            && (key in after.entries ==> after.entries[key] == before.entries[key])
  {}

  function Initial(now: int): State {
    State(Shared(now, [], map[], map[], {}, {}), map[])
  }

  ghost function Run(now: int, actions: seq<Action>, lim: Limits): State {
    if |actions| == 0 then Initial(now)
    else Apply(Run(now, actions[..|actions| - 1], lim), actions[|actions| - 1], lim)
  }

  lemma {:induction false} RunOneMore(now: int, actions: seq<Action>, a: Action, lim: Limits)
    ensures Run(now, actions + [a], lim) == Apply(Run(now, actions, lim), a, lim)
  {
    assert (actions + [a])[..|actions|] == actions;
  }

  lemma {:induction false} ApplyBy(s: State, p: nat, step: Step, w: World, lim: Limits)
    requires p in s.procs && w == Perform(World(s.sh, s.procs[p]), step, lim)
    ensures Apply(s, By(p, step), lim) == State(w.sh, s.procs[p := w.pr])
  {}

  /** Going on from a state. */
  ghost function RunFrom(s: State, actions: seq<Action>, lim: Limits): State {
    if |actions| == 0 then s
    else Apply(RunFrom(s, actions[..|actions| - 1], lim), actions[|actions| - 1], lim)
  }

  lemma {:induction false} RunConcat(now: int, before: seq<Action>, more: seq<Action>, lim: Limits)
    ensures Run(now, before + more, lim) == RunFrom(Run(now, before, lim), more, lim)
  {
    if |more| == 0 {
      assert before + more == before;
    } else {
      var init, last := more[..|more| - 1], more[|more| - 1];
      assert before + more == before + init + [last];
      RunConcat(now, before, init, lim);
      RunOneMore(now, before + init, last, lim);
    }
  }

  lemma {:induction false} RunFromOneMore(s: State, actions: seq<Action>, a: Action, lim: Limits)
    ensures RunFrom(s, actions + [a], lim) == Apply(RunFrom(s, actions, lim), a, lim)
  {
    assert (actions + [a])[..|actions|] == actions;
  }

  ghost predicate NoneBy(actions: seq<Action>, p: nat) {
    forall i :: 0 <= i < |actions| ==> !(actions[i].By? && actions[i].p == p)
  }

  /** Nobody moves a process but itself. */
  lemma {:induction false} OthersKeep(s: State, a: Action, p: nat, lim: Limits)
    requires p in s.procs && !(a.By? && a.p == p)
    ensures p in Apply(s, a, lim).procs && Apply(s, a, lim).procs[p] == s.procs[p]
  {}

  lemma {:induction false} ThroughOthers(s: State, actions: seq<Action>, p: nat, lim: Limits)
    requires p in s.procs && NoneBy(actions, p)
    ensures p in RunFrom(s, actions, lim).procs && RunFrom(s, actions, lim).procs[p] == s.procs[p]
  {
    if |actions| > 0 {
      var init, last := actions[..|actions| - 1], actions[|actions| - 1];
      ThroughOthers(s, init, p, lim);
      OthersKeep(RunFrom(s, init, lim), last, p, lim);
    }
  }

  lemma {:induction false} PerformStore(w: World, after: map<string, Entry>, lim: Limits)
    ensures Perform(w, StoreEntry(after), lim) == DoStore(w, after, lim)
  {}

  lemma {:induction false} StoreShape(w: World, key: string, x: Exchange, after: map<string, Entry>, lim: Limits)
    requires w.pr.pc == Answered(ToStore, key, x)
    requires SetMay(w.sh.entries, StoreKey(x, lim), EntryOf(x), lim.maxBytes, after)
    ensures DoStore(w, after, lim) == World(w.sh.(entries := after), w.pr.(pc := Replied(Relayed(Miss(x.resp)))))
  {}

  lemma {:induction false} LogOnlyGrows(w: World, step: Step, lim: Limits)
    ensures w.sh.log <= Perform(w, step, lim).sh.log
  {}

  /** Forcing the connection closed does not touch Cache-Control. */
  lemma {:induction false} SentKeepsDirectives(req: Request)
    ensures DirectivesOf(Sent(req).headers) == DirectivesOf(req.headers)
  {
    SentKeepsCacheControl(req);
  }

  lemma {:induction false} SentKeepsCacheControl(req: Request)
    ensures Get(Sent(req).headers, "Cache-Control") == Get(req.headers, "Cache-Control")
  {
    assert Canonical("Connection")[1] == 'o' && Canonical("Cache-Control")[1] == 'a';
  }
}
