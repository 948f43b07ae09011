/** A run in which two header names are taken for each other: a request is answered with a response to a
    request that had another value of the header the response varies on. */
module Confusion {
  import opened Text
  import opened Http
  import opened CacheKey
  import opened Vary
  import opened CacheControl
  import opened Policy
  import opened Store
  import opened Protocol
  import opened Freshness
  import opened Transparency
  import opened Scenarios

  const TTL := 5
  const R := Rule("", None, "*", 0, [], [], TTL, false, [], 0)

  /** A request with `A: b=`, and one without headers. */
  const WithA := Request("h", "", "GET", "/", "/", map["A" := ["b="]], "")
  const Plain := Request("h", "", "GET", "/", "/", map[], "")

  function CallOf(q: Request): Call {
    Call(q, "", 80, "", map[])
  }

  /** The upstream varies first on `A`, then on `A=b`. */
  const VariesOnA := Response(200, map["Vary" := ["A"]], "HTTP/1.1", "")
  const VariesOnAb := Response(201, map["Vary" := ["A=b"]], "HTTP/1.1", "")

  function XA(): Exchange {
    Exchange(Sent(WithA), 80, R, VariesOnA, 0)
  }

  function XAb(): Exchange {
    Exchange(Sent(Plain), 80, R, VariesOnAb, 0)
  }

  function B(): string {
    BaseKey(CallOf(Plain))
  }

  function K(lim: Limits): string {
    StoreKey(XA(), lim)
  }

  // ----- the values in play -------------------------------------------------------------------------------

  lemma {:induction false} Names()
    ensures Canonical("A") == "A" && Canonical("A=b") == "A=b" && Canonical("Vary") == "Vary"
    ensures |Canonical("Cache-Control")| == 13 && |Canonical("Connection")| == 10
  {
    assert IsToken("A") && CanonicalFrom("A", true) == ['A'] + CanonicalFrom([], false);
    assert !IsTokenChar("A=b"[1]);
    assert CanonicalFrom("y", false) == "y";
    assert CanonicalFrom("ry", false) == "ry";
    assert CanonicalFrom("ary", false) == "ary";
    assert "Vary"[1..] == "ary" && "ary"[1..] == "ry" && "ry"[1..] == "y";
    assert IsToken("Vary");
  }

  lemma {:induction false} VaryLines()
    ensures VaryLine(VariesOnA) == "A" && VaryLine(VariesOnAb) == "A=b"
  {
    Names();
  }

  lemma {:induction false} ParsesAs(name: string)
    requires Canonical(name) == name && name != "*"
    requires WellWritten(Spelled("", name, ""))
    ensures ParseVary(name) == [name]
  {
    var fs := [Spelled("", name, "")];
    OneWritten(name, fs);
    ParseOfWrittenVary(fs);
  }

  lemma {:induction false} OneWritten(name: string, fs: seq<Spelled>)
    requires fs == [Spelled("", name, "")]
    ensures Join(WrittenAll(fs), ',') == name && CanonicalAll(fs) == [Canonical(name)]
  {
    assert "" + name + "" == name;
    assert WrittenAll(fs) == [name];
  }

  lemma {:induction false} LinesParsed()
    ensures ParseVary(VaryLine(VariesOnA)) == ["A"] && ParseVary(VaryLine(VariesOnAb)) == ["A=b"]
  {
    Names();
    VaryLines();
    ParsesAs("A");
    ParsesAs("A=b");
  }

  lemma {:induction false} MergeOfOne(name: string)
    requires Canonical(name) == name
    ensures Merge([], [name]) == [name]
  {
    var m := SortedNames([name]);
    assert [] + [name] == [name];
    assert SortedNames([name][1..]) == [];
    assert m == InsertNew(name, []);
    assert Insert(name, []) == [name];
  }

  lemma {:induction false} Learned()
    ensures StoreNames(XA()) == ["A"] && StoreNames(XAb()) == ["A=b"]
  {
    Names();
    LinesParsed();
    MergeOfOne("A");
    MergeOfOne("A=b");
  }

  lemma {:induction false} NoDirectives()
    ensures DirectivesOf(WithA.headers) == map[] && DirectivesOf(Plain.headers) == map[]
    ensures DirectivesOf(VariesOnA.headers) == map[] && DirectivesOf(VariesOnAb.headers) == map[]
  {
    Names();
    assert Get(WithA.headers, "Cache-Control") == "" && Get(Plain.headers, "Cache-Control") == "";
    assert Get(VariesOnA.headers, "Cache-Control") == "" && Get(VariesOnAb.headers, "Cache-Control") == "";
  }

  lemma {:induction false} Cacheable()
    ensures LookupAllowed(WithA) && LookupAllowed(Plain)
    ensures !Bypassed(WithA, VariesOnA) && !Bypassed(Plain, VariesOnAb)
  {
    NoDirectives();
    VaryLines();
  }

  lemma {:induction false} RuleMatchesAll(q: Request, lim: Limits)
    requires q == WithA || q == Plain
    ensures Classify([R], CallOf(q), lim) == Matched(R)
  {
    assert Passes(R, "", map[], StripPort(HostOf(CallOf(q))), 80, "GET", "/");
  }

  lemma {:induction false} SameBaseKey()
    ensures BaseKey(CallOf(WithA)) == B()
  {
    assert Pairs(WithA, []) == Pairs(Plain, []);
  }

  lemma {:induction false} ValuesOfA()
    ensures Get(Sent(WithA).headers, "A") == "b=" && Get(Plain.headers, "A") == "" && Get(Plain.headers, "A=b") == ""
  {
    Names();
  }

  /** The two lines are the same text, and so are the two keys. */
  lemma {:induction false} SameKeys(lim: Limits)
    ensures KeyUnder(Plain, 80, R, ["A=b"], lim) == K(lim)
  {
    Learned();
    StoredUnder(XA(), ["A"], lim);
    KeysMeet(lim);
  }

  lemma {:induction false} KeysMeet(lim: Limits)
    ensures KeyUnder(Sent(WithA), 80, R, ["A"], lim) == KeyUnder(Plain, 80, R, ["A=b"], lim)
  {
    LinesMeet(Sent(WithA), Plain);
    UnderSameLine(Sent(WithA), "A", Plain, "A=b", 80, R, lim);
  }

  lemma {:induction false} LinesMeet(r1: Request, r2: Request)
    requires r1 == Sent(WithA) && r2 == Plain
    ensures Line(("A", Get(r1.headers, "A"))) == Line(("A=b", Get(r2.headers, "A=b")))
  {
    ValuesOfA();
  }

  lemma {:induction false} StoredUnder(x: Exchange, names: seq<string>, lim: Limits)
    requires StoreNames(x) == names
    ensures StoreKey(x, lim) == KeyUnder(x.sent, x.port, x.rule, names, lim)
  {}

  lemma {:induction false} UnderSameLine(r1: Request, n: string, r2: Request, m: string, port: nat, rule: Rule, lim: Limits)
    requires !rule.cacheBody && KeyHost(r1) == KeyHost(r2) && r1.verb == r2.verb && r1.uri == r2.uri
    requires Line((n, Get(r1.headers, n))) == Line((m, Get(r2.headers, m)))
    ensures KeyUnder(r1, port, rule, [n], lim) == KeyUnder(r2, port, rule, [m], lim)
  {
    SameLineSameKey(r1, n, r2, m, KeyBody(r1, lim), KeyBody(r2, lim), port);
  }

  // ----- the run ------------------------------------------------------------------------------------------

  const Arrivals := [SwapPolicy([R]), Arrive(0, CallOf(WithA)), Arrive(1, CallOf(Plain)), Arrive(2, CallOf(Plain))]

  function Procs(p0: Proc, p1: Proc, p2: Proc): map<nat, Proc> {
    map[0 := p0, 1 := p1, 2 := p2]
  }

  lemma {:induction false} ProcsChange(p0: Proc, p1: Proc, p2: Proc, p: Proc)
    ensures Procs(p0, p1, p2)[0 := p] == Procs(p, p1, p2)
    ensures Procs(p0, p1, p2)[1 := p] == Procs(p0, p, p2)
    ensures Procs(p0, p1, p2)[2 := p] == Procs(p0, p1, p)
  {}

  function At(q: Request, pc: Pc): Proc {
    Proc(CallOf(q), q, pc)
  }

  function Past(q: Request, pc: Pc): Proc {
    Proc(CallOf(q), Sent(q), pc)
  }

  function Begin(): Shared {
    Shared(0, [R], map[], map[], {}, {})
  }

  lemma {:induction false} RunArrivals(lim: Limits)
    ensures Run(0, Arrivals, lim) == State(Begin(), Procs(At(WithA, Arrived), At(Plain, Arrived), At(Plain, Arrived)))
  {
    var a := [SwapPolicy([R])] + [Arrive(0, CallOf(WithA))] + [Arrive(1, CallOf(Plain))];
    assert Arrivals == a + [Arrive(2, CallOf(Plain))];
    assert [] + [SwapPolicy([R])] == [SwapPolicy([R])];
    RunOneMore(0, [], SwapPolicy([R]), lim);
    RunOneMore(0, [SwapPolicy([R])], Arrive(0, CallOf(WithA)), lim);
    RunOneMore(0, [SwapPolicy([R])] + [Arrive(0, CallOf(WithA))], Arrive(1, CallOf(Plain)), lim);
    RunOneMore(0, a, Arrive(2, CallOf(Plain)), lim);
  }

  /** A request that looks into an empty store, before anything has been learned. */
  lemma {:induction false} Misses(actions: seq<Action>, s: State, p: nat, q: Request, lim: Limits)
    requires q == WithA || q == Plain
    requires Run(0, actions, lim) == s && p in s.procs && s.procs[p] == At(q, Arrived) && s.sh == Begin()
    ensures Run(0, actions + Schedule(p, Looking), lim)
         == State(s.sh, s.procs[p := At(q, Missed(R, [], KeyUnder(q, 80, R, [], lim)))])
  {
    RuleMatchesAll(q, lim);
    var key := KeyUnder(q, 80, R, [], lim);
    PhaseLook(World(s.sh, s.procs[p]), R, [], key, lim);
    Advance(0, actions, s, p, Looking, World(s.sh, At(q, Missed(R, [], key))), lim);
  }

  function BothLook(): seq<Action> {
    Arrivals + Schedule(1, Looking) + Schedule(0, Looking)
  }

  function Missing(q: Request, lim: Limits): Proc {
    At(q, Missed(R, [], KeyUnder(q, 80, R, [], lim)))
  }

  lemma {:induction false} RunBothLook(lim: Limits)
    ensures Run(0, BothLook(), lim) == State(Begin(), Procs(Missing(WithA, lim), Missing(Plain, lim), At(Plain, Arrived)))
  {
    RunArrivals(lim);
    Misses(Arrivals, State(Begin(), Procs(At(WithA, Arrived), At(Plain, Arrived), At(Plain, Arrived))), 1, Plain, lim);
    ProcsChange(At(WithA, Arrived), At(Plain, Arrived), At(Plain, Arrived), Missing(Plain, lim));
    Misses(Arrivals + Schedule(1, Looking), State(Begin(), Procs(At(WithA, Arrived), Missing(Plain, lim), At(Plain, Arrived))), 0, WithA, lim);
    ProcsChange(At(WithA, Arrived), Missing(Plain, lim), At(Plain, Arrived), Missing(WithA, lim));
  }

  /** An answer is learned from. */
  lemma {:induction false} Learns(actions: seq<Action>, s: State, p: nat, q: Request, x: Exchange, names: seq<string>, lim: Limits)
    requires lim.maxBodyBytes > 0 && ((q == WithA && x == XA() && names == ["A"]) || (q == Plain && x == XAb() && names == ["A=b"]))
    requires Run(0, actions, lim) == s && p in s.procs && s.procs[p] == Missing(q, lim) && s.sh.now == 0
    ensures Run(0, actions + Schedule(p, Learning(x.resp)), lim)
         == State(s.sh.(log := s.sh.log + {x}, index := s.sh.index[B() := names]),
                  s.procs[p := Past(q, Answered(ToDelete, KeyUnder(q, 80, R, [], lim), x))])
  {
    Cacheable();
    Learned();
    SameBaseKey();
    var key := KeyUnder(q, 80, R, [], lim);
    PhaseLearn(World(s.sh, s.procs[p]), R, [], key, x, lim);
    var w := World(s.sh.(log := s.sh.log + {x}, index := s.sh.index[B() := names]), Past(q, Answered(ToDelete, key, x)));
    Advance(0, actions, s, p, Learning(x.resp), w, lim);
  }

  function FirstLearns(): seq<Action> {
    BothLook() + Schedule(0, Learning(VariesOnA))
  }

  function LearnedA(): Shared {
    Shared(0, [R], map[B() := ["A"]], map[], {XA()}, {})
  }

  lemma {:induction false} RunFirstLearns(lim: Limits)
    requires lim.maxBodyBytes > 0
    ensures Run(0, FirstLearns(), lim)
         == State(LearnedA(), Procs(Past(WithA, Answered(ToDelete, KeyUnder(WithA, 80, R, [], lim), XA())), Missing(Plain, lim), At(Plain, Arrived)))
  {
    RunBothLook(lim);
    var s := State(Begin(), Procs(Missing(WithA, lim), Missing(Plain, lim), At(Plain, Arrived)));
    Learns(BothLook(), s, 0, WithA, XA(), ["A"], lim);
    ProcsChange(Missing(WithA, lim), Missing(Plain, lim), At(Plain, Arrived), Past(WithA, Answered(ToDelete, KeyUnder(WithA, 80, R, [], lim), XA())));
    assert s.sh.log + {XA()} == {XA()} && s.sh.index[B() := ["A"]] == map[B() := ["A"]];
  }

  const Done := Past(WithA, Replied(Relayed(Miss(VariesOnA))))

  function FirstStores(lim: Limits): seq<Action> {
    FirstLearns() + Schedule(0, Storing(map[K(lim) := EntryOf(XA())]))
  }

  lemma {:induction false} MayStore(lim: Limits)
    requires Size(EntryOf(XA())) <= lim.maxBytes
    ensures SetMay(map[], StoreKey(XA(), lim), EntryOf(XA()), lim.maxBytes, map[K(lim) := EntryOf(XA())])
  {
    OneEntry(K(lim), EntryOf(XA()), lim.maxBytes);
  }

  lemma {:induction false} OneEntry(key: string, e: Entry, max: nat)
    requires Size(e) <= max
    ensures SetMay(map[], key, e, max, map[key := e])
  {
    assert map[key := e] - {key} == map[];
  }

  lemma {:induction false} Stores(actions: seq<Action>, s: State, key: string, lim: Limits)
    requires Run(0, actions, lim) == s && 0 in s.procs && s.procs[0] == Past(WithA, Answered(ToDelete, key, XA()))
    requires s.sh.entries == map[] && Size(EntryOf(XA())) <= lim.maxBytes
    ensures Run(0, actions + Schedule(0, Storing(map[K(lim) := EntryOf(XA())])), lim)
         == State(s.sh.(entries := map[K(lim) := EntryOf(XA())]), s.procs[0 := Done])
  {
    var after := map[K(lim) := EntryOf(XA())];
    MayStore(lim);
    PhaseStore(World(s.sh, s.procs[0]), key, XA(), after, lim);
    Advance(0, actions, s, 0, Storing(after), World(s.sh.(entries := after), Done), lim);
  }

  lemma {:induction false} RunFirstStores(lim: Limits)
    requires lim.maxBodyBytes > 0 && Size(EntryOf(XA())) <= lim.maxBytes
    ensures Run(0, FirstStores(lim), lim)
         == State(LearnedA().(entries := map[K(lim) := EntryOf(XA())]), Procs(Done, Missing(Plain, lim), At(Plain, Arrived)))
  {
    RunFirstLearns(lim);
    var key := KeyUnder(WithA, 80, R, [], lim);
    var learned := Past(WithA, Answered(ToDelete, key, XA()));
    Stores(FirstLearns(), State(LearnedA(), Procs(learned, Missing(Plain, lim), At(Plain, Arrived))), key, lim);
    ProcsChange(learned, Missing(Plain, lim), At(Plain, Arrived), Done);
  }

  function SecondLearns(lim: Limits): seq<Action> {
    FirstStores(lim) + Schedule(1, Learning(VariesOnAb))
  }

  function LearnedAb(lim: Limits): Shared {
    Shared(0, [R], map[B() := ["A=b"]], map[K(lim) := EntryOf(XA())], {XA(), XAb()}, {})
  }

  function Learnt2(lim: Limits): Proc {
    Past(Plain, Answered(ToDelete, KeyUnder(Plain, 80, R, [], lim), XAb()))
  }

  lemma {:induction false} RunSecondLearns(lim: Limits)
    requires lim.maxBodyBytes > 0 && Size(EntryOf(XA())) <= lim.maxBytes
    ensures Run(0, SecondLearns(lim), lim) == State(LearnedAb(lim), Procs(Done, Learnt2(lim), At(Plain, Arrived)))
  {
    RunFirstStores(lim);
    var s := State(LearnedA().(entries := map[K(lim) := EntryOf(XA())]), Procs(Done, Missing(Plain, lim), At(Plain, Arrived)));
    Learns(FirstStores(lim), s, 1, Plain, XAb(), ["A=b"], lim);
    ProcsChange(Done, Missing(Plain, lim), At(Plain, Arrived), Learnt2(lim));
    LearnedMore(lim);
  }

  lemma {:induction false} LearnedMore(lim: Limits)
    ensures var sh := LearnedA().(entries := map[K(lim) := EntryOf(XA())]);
            sh.(log := sh.log + {XAb()}, index := sh.index[B() := ["A=b"]]) == LearnedAb(lim)
  {
    assert {XA()} + {XAb()} == {XA(), XAb()};
    assert map[B() := ["A"]][B() := ["A=b"]] == map[B() := ["A=b"]];
  }

  function ThirdReads(lim: Limits): seq<Action> {
    SecondLearns(lim) + Schedule(2, Looking)
  }

  lemma {:induction false} RunThirdReads(lim: Limits)
    requires lim.maxBodyBytes > 0 && Size(EntryOf(XA())) <= lim.maxBytes
    ensures Run(0, ThirdReads(lim), lim)
         == State(LearnedAb(lim), Procs(Done, Learnt2(lim), At(Plain, Read(R, ["A=b"], K(lim), EntryOf(XA())))))
  {
    RunSecondLearns(lim);
    var s := State(LearnedAb(lim), Procs(Done, Learnt2(lim), At(Plain, Arrived)));
    var read := At(Plain, Read(R, ["A=b"], K(lim), EntryOf(XA())));
    RuleMatchesAll(Plain, lim);
    Cacheable();
    Names();
    MergeOfOne("A=b");
    SameKeys(lim);
    PhaseLook(World(s.sh, s.procs[2]), R, ["A=b"], K(lim), lim);
    Advance(0, SecondLearns(lim), s, 2, Looking, World(s.sh, read), lim);
    ProcsChange(Done, Learnt2(lim), At(Plain, Arrived), read);
  }

  function TheRun(lim: Limits): seq<Action> {
    ThirdReads(lim) + Schedule(2, [CheckExpiry])
  }

  function TheHit(): Hit {
    Hit(Plain, 80, Replay(EntryOf(XA())), 0)
  }

  lemma {:induction false} StillLive()
    ensures !Expired(EntryOf(XA()), 0)
  {
    NoDirectives();
  }

  lemma {:induction false} RunToTheEnd(lim: Limits)
    requires lim.maxBodyBytes > 0 && Size(EntryOf(XA())) <= lim.maxBytes
    ensures Run(0, TheRun(lim), lim).sh == LearnedAb(lim).(hits := {TheHit()})
  {
    RunThirdReads(lim);
    StillLive();
    var read := At(Plain, Read(R, ["A=b"], K(lim), EntryOf(XA())));
    Hits(ThirdReads(lim), State(LearnedAb(lim), Procs(Done, Learnt2(lim), read)), K(lim), EntryOf(XA()), lim);
  }

  lemma {:induction false} Hits(actions: seq<Action>, s: State, key: string, e: Entry, lim: Limits)
    requires Run(0, actions, lim) == s && 2 in s.procs && s.procs[2] == At(Plain, Read(R, ["A=b"], key, e))
    requires s.sh.now == 0 && s.sh.hits == {} && !Expired(e, 0)
    ensures Run(0, actions + Schedule(2, [CheckExpiry]), lim).sh == s.sh.(hits := {Hit(Plain, 80, Replay(e), 0)})
  {
    var h := Hit(Plain, 80, Replay(e), 0);
    var w, w' := World(s.sh, s.procs[2]), World(s.sh.(hits := {h}), At(Plain, Replied(Replayed(h.reply))));
    assert s.sh.hits + {h} == {h};
    EvHit(w, R, ["A=b"], key, e, lim);
    PhaseOne(w, CheckExpiry, w', lim);
    Advance(0, actions, s, 2, [CheckExpiry], w', lim);
  }

  /** The names that are in play, and can be confused. */
  ghost const InPlay := Scope(iset{"A", "A=b"}, NotKeyed)

  lemma {:induction false} TheyAreConfusable()
    ensures Confusable("A=b", "A") && !Clear(InPlay)
  {
    assert HasPrefix("A=b", "A" + "=");
  }

  lemma {:induction false} NotTransparent(lim: Limits)
    ensures !Transparent({XA(), XAb()}, TheHit(), lim)
  {
    OtherValue();
    OtherStatus(lim);
  }

  lemma {:induction false} OtherValue()
    ensures !Agrees(XA(), Plain, 80)
  {
    LinesParsed();
    ValuesOfA();
    Names();
    DifferOn(XA(), Plain, 80, "A");
  }

  lemma {:induction false} DifferOn(x: Exchange, req: Request, port: nat, name: string)
    requires name in ParseVary(VaryLine(x.resp)) && Canonical(name) == name
    requires Get(x.sent.headers, name) != Get(req.headers, name)
    ensures !Agrees(x, req, port)
  {
    GetOwn(x.resp.headers, "Vary");
    GetCanonical(x.sent.headers, name);
    GetCanonical(req.headers, name);
  }

  lemma {:induction false} OtherStatus(lim: Limits)
    ensures !Serves(TheHit(), XAb(), lim)
  {}

  /** A wrong hit: a request without `A` is answered with the response to a request with `A: b=`, although
      that response varies on `A`. */
  lemma {:induction false} ConfusedHit(lim: Limits)
    requires lim.maxBodyBytes > 0 && Size(EntryOf(XA())) <= lim.maxBytes
    ensures var s := Run(0, TheRun(lim), lim); TheHit() in s.sh.hits && !Transparent(s.sh.log, TheHit(), lim)
  {
    RunToTheEnd(lim);
    NotTransparent(lim);
  }

  // ----- nothing else is wrong with the run ------------------------------------------------------------------

  ghost predicate Delivered(actions: seq<Action>) {
    forall i :: 0 <= i < |actions| ==> Admissible(actions[i], InPlay)
  }

  lemma {:induction false} WordsInPlay()
    ensures InWords(["A"], InPlay.words) && InWords(["A=b"], InPlay.words)
  {
    Names();
  }

  lemma {:induction false} AnswersDelivered()
    ensures VaryOk(VariesOnA, InPlay) && VaryOk(VariesOnAb, InPlay)
  {
    WordsInPlay();
    LinesParsed();
  }

  lemma {:induction false} DeliveredThen(actions: seq<Action>, p: nat, steps: seq<Step>)
    requires Delivered(actions)
    requires forall i :: 0 <= i < |steps| && steps[i].Fetch? ==> steps[i].answer in {Some(VariesOnA), Some(VariesOnAb)}
    ensures Delivered(actions + Schedule(p, steps))
  {
    AnswersDelivered();
  }

  lemma {:induction false} ArrivalsDelivered()
    ensures Delivered(Arrivals)
  {}

  lemma {:induction false} FirstIsDelivered(lim: Limits)
    ensures Delivered(FirstStores(lim))
  {
    ArrivalsDelivered();
    DeliveredThen(Arrivals, 1, Looking);
    DeliveredThen(Arrivals + Schedule(1, Looking), 0, Looking);
    DeliveredThen(BothLook(), 0, Learning(VariesOnA));
    DeliveredThen(FirstLearns(), 0, Storing(map[K(lim) := EntryOf(XA())]));
  }

  /** All other assumptions of transparency hold of the run: only the names in play are not clear. */
  lemma {:induction false} OnlyNamesAreWrong(lim: Limits)
    ensures forall i :: 0 <= i < |TheRun(lim)| ==> Admissible(TheRun(lim)[i], InPlay)
    ensures !Clear(InPlay)
  {
    FirstIsDelivered(lim);
    DeliveredThen(FirstStores(lim), 1, Learning(VariesOnAb));
    DeliveredThen(SecondLearns(lim), 2, Looking);
    DeliveredThen(ThirdReads(lim), 2, [CheckExpiry]);
    TheyAreConfusable();
  }
}
