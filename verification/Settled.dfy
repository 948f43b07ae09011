/** Runs with one rule and an upstream whose Vary line depends on the base key only: what every step
    keeps of the learned Vary sets and of the keys entries are filed under. */
module Settled {
  import opened Text
  import opened Http
  import opened CacheKey
  import opened Vary
  import opened Policy
  import opened Store
  import opened Protocol
  import opened Freshness
  import opened Transparency

  /** The one rule, the upstream's Vary line for each base key (absent for those that have none), and
      the scope of names and bodies. */
  datatype Setting = Setting(rule: Rule, vary: map<string, string>, sc: Scope)

  ghost function LineFor(st: Setting, baseKey: string): string {
    if baseKey in st.vary then st.vary[baseKey] else ""
  }

  /** The set a response under a base key is stored with. */
  ghost function Full(st: Setting, baseKey: string): seq<string> {
    Merge(st.rule.varyHeaders, ParseVary(LineFor(st, baseKey)))
  }

  function BaseOf(x: Exchange): string {
    Preimage(x.sent, "", Config(false, [], x.port))
  }

  /** Learning works under a base key: there is something to learn, or the rule's own names are
      canonical and free of repetition. */
  ghost predicate TidyAt(st: Setting, b: string) {
    |ParseVary(LineFor(st, b))| > 0 || Tidy(st.rule.varyHeaders)
  }

  /** The response is what the setting says, it can be learned from, and nothing is keyed that the
      proxy overwrites. */
  ghost predicate FitsSetting(x: Exchange, st: Setting) {
    && VaryLine(x.resp) == LineFor(st, BaseOf(x)) && TidyAt(st, BaseOf(x))
    && !Names(Full(st, BaseOf(x)), "Connection")
  }

  /** Only what may be stored is learned from. */
  ghost predicate LogFits(log: set<Exchange>, st: Setting, lim: Limits) {
    forall x :: x in log && Storable(x, lim) ==> FitsSetting(x, st)
  }

  ghost predicate OnlyRule(a: Action, rule: Rule) {
    a.SwapPolicy? ==> forall i :: 0 <= i < |a.rules| ==> a.rules[i] == rule
  }

  ghost predicate AllOnlyRule(actions: seq<Action>, rule: Rule) {
    forall i :: 0 <= i < |actions| ==> OnlyRule(actions[i], rule)
  }

  /** The runs this module is about. */
  ghost predicate IsSettled(now: int, actions: seq<Action>, st: Setting, lim: Limits) {
    && AllAdmissible(actions, st.sc) && AllOnlyRule(actions, st.rule)
    && LogFits(Run(now, actions, lim).sh.log, st, lim)
  }

  // ----- requests and their base keys -------------------------------------------------------------------

  lemma {:induction false} ConnectionIsCanonical()
    ensures Canonical("Connection") == "Connection"
  {
    var s := "Connection";
    assert CanonicalFrom(s[1..], false) == s[1..] by {
      LowerStays(s[1..]);
    }
    assert s == [s[0]] + s[1..];
  }

  lemma {:induction false} LowerStays(s: string)
    requires forall i :: 0 <= i < |s| ==> 'a' <= s[i] <= 'z'
    ensures CanonicalFrom(s, false) == s
  {
    if |s| > 0 {
      LowerStays(s[1..]);
      assert s == [s[0]] + s[1..];
    }
  }

  /** The request as sent is the request as received but for its Connection header. */
  lemma {:induction false} SentGet(req: Request, n: string)
    ensures Get(Sent(req).headers, n) == if Canonical(n) == "Connection" then "close" else Get(req.headers, n)
  {
    ConnectionIsCanonical();
  }

  lemma {:induction false} SameBase(r1: Request, r2: Request, port: nat)
    requires KeyHost(r1) == KeyHost(r2) && r1.verb == r2.verb && r1.uri == r2.uri
    ensures Preimage(r1, "", Config(false, [], port)) == Preimage(r2, "", Config(false, [], port))
  {
    assert Pairs(r1, []) == Pairs(r2, []);
  }

  /** The base key of a request is that of its exchange. */
  lemma {:induction false} OwnBase(x: Exchange, c: Call)
    requires x.sent == Sent(c.req) && x.port == c.port
    ensures BaseOf(x) == BaseKey(c)
  {
    SameBase(x.sent, c.req, c.port);
  }

  // ----- invariants -------------------------------------------------------------------------------------

  /** Whoever looks up under this base key from now on keys on the full set. */
  ghost predicate Known(index: map<string, seq<string>>, st: Setting, b: string) {
    b in index || Full(st, b) == []
  }

  ghost predicate IndexFull(index: map<string, seq<string>>, st: Setting) {
    forall b :: b in index ==> index[b] == Full(st, b) && TidyAt(st, b)
  }

  ghost predicate Filed(log: set<Exchange>, index: map<string, seq<string>>, st: Setting, key: string, lim: Limits) {
    exists x :: x in log && Storable(x, lim) && key == StoreKey(x, lim) && Known(index, st, BaseOf(x))
  }

  ghost predicate AllFiled(sh: Shared, st: Setting, lim: Limits) {
    forall k :: k in sh.entries ==> Filed(sh.log, sh.index, st, k, lim)
  }

  ghost predicate OneRule(log: set<Exchange>, rule: Rule) {
    forall x :: x in log ==> x.rule == rule
  }

  ghost predicate SharedSettled(sh: Shared, st: Setting, lim: Limits) {
    && (forall i :: 0 <= i < |sh.rules| ==> sh.rules[i] == st.rule)
    && OneRule(sh.log, st.rule) && IndexFull(sh.index, st) && AllFiled(sh, st, lim)
  }

  /** The names of a lookup, made before or after the set was learned. */
  ghost predicate LookedUp(names: seq<string>, st: Setting, b: string) {
    names == st.rule.varyHeaders || multiset(names) == multiset(Full(st, b))
  }

  ghost predicate LookupKey(c: Call, st: Setting, key: string, lim: Limits) {
    exists names :: LookedUp(names, st, BaseKey(c)) && key == KeyUnder(c.req, c.port, st.rule, names, lim)
  }

  ghost predicate ProcSettled(index: map<string, seq<string>>, pr: Proc, st: Setting, lim: Limits) {
    match pr.pc
    case Matched(r) => r == st.rule
    case Keyed(r, names, key) => r == st.rule && LookupKey(pr.call, st, key, lim)
    case Read(r, names, key, entry) => r == st.rule && LookupKey(pr.call, st, key, lim)
    case Stale(r, names, key) => r == st.rule && LookupKey(pr.call, st, key, lim)
    case Missed(r, names, key) => r == st.rule && LookupKey(pr.call, st, key, lim)
    case Answered(stage, key, x) =>
      && x.rule == st.rule && LookupKey(pr.call, st, key, lim)
      && (stage.ToDelete? || stage.ToStore? ==> Known(index, st, BaseKey(pr.call)))
    case _ => true
  }

  ghost predicate WorldSettled(w: World, st: Setting, lim: Limits) {
    SharedSettled(w.sh, st, lim) && ProcSettled(w.sh.index, w.pr, st, lim)
  }

  ghost predicate Steady(s: State, st: Setting, lim: Limits) {
    SharedSettled(s.sh, st, lim) && forall p :: p in s.procs ==> ProcSettled(s.sh.index, s.procs[p], st, lim)
  }

  lemma {:induction false} KnownGrows(index: map<string, seq<string>>, index': map<string, seq<string>>,
                                      pr: Proc, st: Setting, lim: Limits)
    requires ProcSettled(index, pr, st, lim) && index.Keys <= index'.Keys
    ensures ProcSettled(index', pr, st, lim)
  {}

  lemma {:induction false} FiledGrows(log: set<Exchange>, log': set<Exchange>, index: map<string, seq<string>>,
                                      index': map<string, seq<string>>, st: Setting, key: string, lim: Limits)
    requires Filed(log, index, st, key, lim) && log <= log' && index.Keys <= index'.Keys
    ensures Filed(log', index', st, key, lim)
  {
    var x :| x in log && Storable(x, lim) && key == StoreKey(x, lim) && Known(index, st, BaseOf(x));
    assert x in log' && Known(index', st, BaseOf(x));
  }

  /** Entries may go, and the log and the index may grow. */
  lemma {:induction false} FiledStays(sh: Shared, sh': Shared, st: Setting, lim: Limits)
    requires AllFiled(sh, st, lim)
    requires sh.log <= sh'.log && sh.index.Keys <= sh'.index.Keys && sh'.entries.Keys <= sh.entries.Keys
    ensures AllFiled(sh', st, lim)
  {
    forall k | k in sh'.entries ensures Filed(sh'.log, sh'.index, st, k, lim) {
      FiledGrows(sh.log, sh'.log, sh.index, sh'.index, st, k, lim);
    }
  }

  // ----- steps ------------------------------------------------------------------------------------------

  lemma {:induction false} MatchSettled(w: World, st: Setting, lim: Limits)
    requires WorldSettled(w, st, lim)
    ensures WorldSettled(DoMatch(w, lim), st, lim)
  {
    var c := w.pr.call;
    FirstMatchIsFirst(w.sh.rules, c.namespace, c.labels, StripPort(HostOf(c)), c.port, c.req.verb, PathOf(c));
  }

  /** What a lookup keys on: the learned set, in some order, or what the rule says. */
  lemma {:induction false} LookupNamesFull(index: map<string, seq<string>>, st: Setting, b: string)
    requires IndexFull(index, st)
    ensures var names := Merge(st.rule.varyHeaders, Learnt(index, b));
            LookedUp(names, st, b) && (Known(index, st, b) ==> multiset(names) == multiset(Full(st, b)))
  {
    if b in index {
      MergeMeetsIff(st.rule.varyHeaders, ParseVary(LineFor(st, b)));
    } else if Full(st, b) == [] {
      MergeEmpty(st.rule.varyHeaders, ParseVary(LineFor(st, b)));
    }
  }

  lemma {:induction false} MergeEmpty(a: seq<string>, b: seq<string>)
    requires Merge(a, b) == []
    ensures a == []
  {
    if |b| > 0 {
      MergeAbsorbs(a, b);
    }
  }

  lemma {:induction false} LookupSettled(w: World, st: Setting, lim: Limits)
    requires WorldSettled(w, st, lim) && Sound(w, lim)
    ensures WorldSettled(DoLookup(w, lim), st, lim)
  {
    if w.pr.pc.Matched? {
      LookupNamesFull(w.sh.index, st, BaseKey(w.pr.call));
      var names := LookupNames(w.sh, w.pr.call, st.rule);
      assert LookupKey(w.pr.call, st, KeyUnder(w.pr.req, w.pr.call.port, st.rule, names, lim), lim);
    }
  }

  lemma {:induction false} ReadSettled(w: World, st: Setting, lim: Limits)
    requires WorldSettled(w, st, lim)
    ensures WorldSettled(DoRead(w), st, lim)
  {}

  lemma {:induction false} CheckSettled(w: World, st: Setting, lim: Limits)
    requires WorldSettled(w, st, lim)
    ensures WorldSettled(DoCheck(w), st, lim)
  {
    FiledStays(w.sh, DoCheck(w).sh, st, lim);
  }

  lemma {:induction false} DropSettled(w: World, st: Setting, lim: Limits)
    requires WorldSettled(w, st, lim)
    ensures WorldSettled(DoDrop(w), st, lim)
  {
    FiledStays(w.sh, DoDrop(w).sh, st, lim);
  }

  lemma {:induction false} FetchSettled(w: World, answer: Option<Response>, st: Setting, lim: Limits)
    requires WorldSettled(w, st, lim)
    ensures WorldSettled(DoFetch(w, answer, lim), st, lim)
  {
    FiledStays(w.sh, DoFetch(w, answer, lim).sh, st, lim);
  }

  lemma {:induction false} DecideSettled(w: World, st: Setting, lim: Limits)
    requires WorldSettled(w, st, lim)
    ensures WorldSettled(DoDecide(w), st, lim)
  {}

  /** What an answer says is what the setting says of the request's base key. */
  lemma {:induction false} OwnNames(log: set<Exchange>, x: Exchange, c: Call, st: Setting, lim: Limits)
    requires x in log && Storable(x, lim) && LogFits(log, st, lim) && OneRule(log, st.rule)
    requires x.sent == Sent(c.req) && x.port == c.port
    ensures FitsSetting(x, st) && x.rule == st.rule && BaseOf(x) == BaseKey(c)
    ensures StoreNames(x) == Full(st, BaseKey(c))
  {
    OwnBase(x, c);
    assert FitsSetting(x, st);
  }

  lemma {:induction false} LearnShape(w: World)
    requires w.pr.pc.Answered? && w.pr.pc.stage.ToLearn?
    ensures var b, names := BaseKey(w.pr.call), StoreNames(w.pr.pc.x);
            DoLearn(w) == World(w.sh.(index := if |names| > 0 then w.sh.index[b := names] else w.sh.index),
                                w.pr.(pc := w.pr.pc.(stage := ToDelete)))
  {}

  lemma {:induction false} LearnedWorld(w: World, w': World, b: string, names: seq<string>, st: Setting, lim: Limits)
    requires WorldSettled(w, st, lim) && w.pr.pc.Answered?
    requires b == BaseKey(w.pr.call) && names == Full(st, b) && TidyAt(st, b)
    requires w'.sh == w.sh.(index := if |names| > 0 then w.sh.index[b := names] else w.sh.index)
    requires w'.pr == w.pr.(pc := w.pr.pc.(stage := ToDelete))
    ensures WorldSettled(w', st, lim)
  {
    FiledStays(w.sh, w'.sh, st, lim);
    IndexLearned(w.sh.index, w'.sh.index, b, names, st);
  }

  lemma {:induction false} IndexLearned(index: map<string, seq<string>>, index': map<string, seq<string>>, b: string,
                                        names: seq<string>, st: Setting)
    requires IndexFull(index, st) && names == Full(st, b) && TidyAt(st, b)
    requires index' == if |names| > 0 then index[b := names] else index
    ensures IndexFull(index', st) && Known(index', st, b)
  {}

  lemma {:induction false} LearnSettled(w: World, st: Setting, lim: Limits)
    requires Sound(w, lim) && WorldSettled(w, st, lim) && LogFits(w.sh.log, st, lim)
    ensures WorldSettled(DoLearn(w), st, lim)
  {
    if w.pr.pc.Answered? && w.pr.pc.stage.ToLearn? {
      LearnShape(w);
      OwnNames(w.sh.log, w.pr.pc.x, w.pr.call, st, lim);
      LearnedWorld(w, DoLearn(w), BaseKey(w.pr.call), StoreNames(w.pr.pc.x), st, lim);
    }
  }

  lemma {:induction false} DeleteSettled(w: World, st: Setting, lim: Limits)
    requires WorldSettled(w, st, lim)
    ensures WorldSettled(DoDelete(w, lim), st, lim)
  {
    FiledStays(w.sh, DoDelete(w, lim).sh, st, lim);
  }

  lemma {:induction false} SetFiled(sh: Shared, sh': Shared, x: Exchange, st: Setting, lim: Limits)
    requires AllFiled(sh, st, lim) && x in sh.log && Storable(x, lim) && Known(sh.index, st, BaseOf(x))
    requires sh' == sh.(entries := sh'.entries) && sh'.entries.Keys <= sh.entries.Keys + {StoreKey(x, lim)}
    ensures AllFiled(sh', st, lim)
  {
    forall k | k in sh'.entries ensures Filed(sh'.log, sh'.index, st, k, lim) {
      if k != StoreKey(x, lim) {
        assert Filed(sh.log, sh.index, st, k, lim);
      }
    }
  }

  lemma {:induction false} StoreSettled(w: World, after: map<string, Entry>, st: Setting, lim: Limits)
    requires Sound(w, lim) && WorldSettled(w, st, lim)
    ensures WorldSettled(DoStore(w, after, lim), st, lim)
  {
    var w' := DoStore(w, after, lim);
    if w' != w {
      OwnBase(w.pr.pc.x, w.pr.call);
      SetFiled(w.sh, w'.sh, w.pr.pc.x, st, lim);
    }
  }

  lemma {:induction false} PerformSettled(w: World, step: Step, st: Setting, lim: Limits)
    requires Sound(w, lim) && WorldSettled(w, st, lim) && LogFits(w.sh.log, st, lim)
    ensures WorldSettled(Perform(w, step, lim), st, lim)
  {
    match step
    case MatchPolicy => MatchSettled(w, st, lim);
    case LookupIndex => LookupSettled(w, st, lim);
    case ReadCache => ReadSettled(w, st, lim);
    case CheckExpiry => CheckSettled(w, st, lim);
    case DropStale => DropSettled(w, st, lim);
    case Fetch(answer) => FetchSettled(w, answer, st, lim);
    case Decide => DecideSettled(w, st, lim);
    case Learn => LearnSettled(w, st, lim);
    case DeleteOld => DeleteSettled(w, st, lim);
    case StoreEntry(after) => StoreSettled(w, after, st, lim);
  }

  lemma {:induction false} IndexOnlyGrows(w: World, step: Step, lim: Limits)
    ensures w.sh.index.Keys <= Perform(w, step, lim).sh.index.Keys
  {}

  lemma {:induction false} StepSteady(s: State, p: nat, step: Step, st: Setting, lim: Limits)
    requires AllSound(s, lim) && Steady(s, st, lim) && LogFits(s.sh.log, st, lim)
    ensures Steady(Apply(s, By(p, step), lim), st, lim)
  {
    if p in s.procs {
      var w := World(s.sh, s.procs[p]);
      var s' := Apply(s, By(p, step), lim);
      PerformSettled(w, step, st, lim);
      IndexOnlyGrows(w, step, lim);
      forall q | q in s'.procs ensures ProcSettled(s'.sh.index, s'.procs[q], st, lim) {
        if q != p {
          KnownGrows(s.sh.index, s'.sh.index, s.procs[q], st, lim);
        }
      }
    }
  }

  lemma {:induction false} OtherSteady(s: State, a: Action, st: Setting, lim: Limits)
    requires Steady(s, st, lim) && OnlyRule(a, st.rule) && !a.By?
    ensures Steady(Apply(s, a, lim), st, lim)
  {
    FiledStays(s.sh, Apply(s, a, lim).sh, st, lim);
  }

  /** The history and the keys of the index only grow. */
  lemma {:induction false} HistoryGrows(s: State, a: Action, lim: Limits)
    ensures s.sh.log <= Apply(s, a, lim).sh.log && s.sh.index.Keys <= Apply(s, a, lim).sh.index.Keys
  {
    if a.By? && a.p in s.procs {
      LogOnlyGrows(World(s.sh, s.procs[a.p]), a.step, lim);
      IndexOnlyGrows(World(s.sh, s.procs[a.p]), a.step, lim);
    }
  }

  lemma {:induction false} HistoryGrowsFrom(s: State, more: seq<Action>, lim: Limits)
    ensures s.sh.log <= RunFrom(s, more, lim).sh.log && s.sh.index.Keys <= RunFrom(s, more, lim).sh.index.Keys
  {
    if |more| > 0 {
      HistoryGrowsFrom(s, more[..|more| - 1], lim);
      HistoryGrows(RunFrom(s, more[..|more| - 1], lim), more[|more| - 1], lim);
    }
  }

  /** What has been settled has been settled all along. */
  lemma {:induction false} SettledBefore(now: int, before: seq<Action>, more: seq<Action>, st: Setting, lim: Limits)
    requires IsSettled(now, before + more, st, lim)
    ensures IsSettled(now, before, st, lim)
  {
    RunConcat(now, before, more, lim);
    HistoryGrowsFrom(Run(now, before, lim), more, lim);
    forall i | 0 <= i < |before| ensures Admissible(before[i], st.sc) && OnlyRule(before[i], st.rule) {
      assert (before + more)[i] == before[i];
    }
  }

  lemma {:induction false} SettledRun(now: int, actions: seq<Action>, st: Setting, lim: Limits)
    requires IsSettled(now, actions, st, lim)
    ensures Inv(Run(now, actions, lim), st.sc, lim) && Steady(Run(now, actions, lim), st, lim)
  {
    EveryRun(now, actions, st.sc, lim);
    if |actions| > 0 {
      var before, a := actions[..|actions| - 1], actions[|actions| - 1];
      assert actions == before + [a];
      SettledBefore(now, before, [a], st, lim);
      SettledRun(now, before, st, lim);
      match a {
        case By(p, step) => StepSteady(Run(now, before, lim), p, step, st, lim);
        case _ => OtherSteady(Run(now, before, lim), a, st, lim);
      }
    }
  }
}
