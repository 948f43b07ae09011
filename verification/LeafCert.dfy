/** internal/tlsmitm/ca.go: leaf certificates, cached per name and generated one at a time. */
module LeafCert {
  import opened Text

  // times are in seconds
  const DAY := 86400
  const MARGIN := 300

  datatype Cert = Cert(name: string, notAfter: int, serial: nat)
  datatype Cached = Cached(cert: Cert, expiresAt: int)
  type Certs = map<string, Cached>

  function NameFor(serverName: string): string {
    if serverName == "" then "unknown" else serverName
  }

  function Load(cache: Certs, name: string): Option<Cached> {
    if name in cache then Some(cache[name]) else None
  }

  predicate Fresh(entry: Option<Cached>, now: int) {
    entry.Some? && now < entry.value.expiresAt
  }

  function NotAfter(now: int, caNotAfter: int): int {
    if caNotAfter < now + DAY then caNotAfter else now + DAY
  }

  function Issue(name: string, notAfter: int, serial: nat): Cached {
    Cached(Cert(name, notAfter, serial), notAfter - MARGIN)
  }

  // ----- handshakes running concurrently --------------------------------------------------------

  /** Where a handshake is. From `Entered` to `Returning` it runs the single-flight function. */
  datatype Pc =
    | Arrived
    | Loaded(entry: Option<Cached>)
    | Missed
    | Joined(leader: nat)
    | Entered
    | Reloaded(entry: Option<Cached>)
    | Generating(began: int)
    | Dated(began: int, dated: int)
    | Returning(result: Option<Cert>)
    | Done(result: Option<Cert>)

  /** `serverName` is what the client has sent, `name` what it is looked up and certified as. */
  datatype Handshake = Handshake(serverName: string, name: string, pc: Pc)

  /** A certificate given out because the cache held it, and the clock reading that allowed it. */
  datatype Served = Served(serverName: string, cert: Cert, at: int)
  /** A successful generation: when the re-check failed, when the validity was chosen, when it ended. */
  datatype Generation = Generation(cert: Cert, began: int, dated: int, ended: int)

  datatype State = State(
    now: int,
    cache: Certs,
    flight: map<string, nat>,              // who runs the function for a name
    returned: map<nat, Option<Cert>>,      // results handed to those who wait
    shakes: map<nat, Handshake>,
    served: seq<Served>,
    generations: seq<Generation>)

  function Initial(now: int): State {
    State(now, map[], map[], map[], map[], [], [])
  }

  /** `p` identifies the handshake that takes the step. */
  datatype Action =
    | Arrive(p: nat, serverName: string)
    | LoadEntry(p: nat)
    | Check(p: nat)
    | Do(p: nat)                           // lead, or wait for the leader
    | Reload(p: nat)
    | Recheck(p: nat)
    | Date(p: nat)
    | Fail(p: nat)                         // key, serial number or signature
    | StoreCert(p: nat, serial: nat)
    | Leave(p: nat)
    | Deliver(p: nat)
    | Tick(d: nat)

  function Move(s: State, p: nat, pc: Pc): State
    requires p in s.shakes
  {
    s.(shakes := s.shakes[p := s.shakes[p].(pc := pc)])
  }

  function Serve(s: State, p: nat, cert: Cert, pc: Pc): State
    requires p in s.shakes
  {
    Move(s, p, pc).(served := s.served + [Served(s.shakes[p].serverName, cert, s.now)])
  }

  /** A step that is not enabled changes nothing. */
  function Apply(s: State, caNotAfter: int, a: Action): State {
    if a.Tick? then s.(now := s.now + a.d)
    else if a.Arrive? then
      if a.p in s.shakes then s else s.(shakes := s.shakes[a.p := Handshake(a.serverName, NameFor(a.serverName), Arrived)])
    else if a.p !in s.shakes then s
    else Step(s, caNotAfter, a, s.shakes[a.p])
  }

  function Step(s: State, caNotAfter: int, a: Action, h: Handshake): State
    requires !a.Tick? && !a.Arrive?
    requires a.p in s.shakes
  {
    match a
    case LoadEntry(p) => if h.pc.Arrived? then Move(s, p, Loaded(Load(s.cache, h.name))) else s
    case Check(p) =>
      if !h.pc.Loaded? then s
      else if Fresh(h.pc.entry, s.now) then Serve(s, p, h.pc.entry.value.cert, Done(Some(h.pc.entry.value.cert)))
      else Move(s, p, Missed)
    case Do(p) =>
      if !h.pc.Missed? then s
      else if h.name in s.flight then Move(s, p, Joined(s.flight[h.name]))
      else Move(s, p, Entered).(flight := s.flight[h.name := p])
    case Reload(p) => if h.pc.Entered? then Move(s, p, Reloaded(Load(s.cache, h.name))) else s
    case Recheck(p) =>
      if !h.pc.Reloaded? then s
      else if Fresh(h.pc.entry, s.now) then Serve(s, p, h.pc.entry.value.cert, Returning(Some(h.pc.entry.value.cert)))
      else Move(s, p, Generating(s.now))
    case Date(p) => if h.pc.Generating? then Move(s, p, Dated(h.pc.began, s.now)) else s
    case Fail(p) => if h.pc.Generating? || h.pc.Dated? then Move(s, p, Returning(None)) else s
    case StoreCert(p, serial) =>
      if !h.pc.Dated? then s
      else
        var e := Issue(h.name, NotAfter(h.pc.dated, caNotAfter), serial);
        Move(s, p, Returning(Some(e.cert))).(
          cache := s.cache[h.name := e],
          generations := s.generations + [Generation(e.cert, h.pc.began, h.pc.dated, s.now)])
    case Leave(p) =>
      if !h.pc.Returning? then s
      else Move(s, p, Done(h.pc.result)).(flight := s.flight - {h.name}, returned := s.returned[p := h.pc.result])
    case Deliver(p) =>
      if h.pc.Joined? && h.pc.leader in s.returned then Move(s, p, Done(s.returned[h.pc.leader])) else s
  }

  function Run(now: int, caNotAfter: int, actions: seq<Action>): State {
    if |actions| == 0 then Initial(now)
    else Apply(Run(now, caNotAfter, actions[..|actions| - 1]), caNotAfter, actions[|actions| - 1])
  }

  // ----- invariants -------------------------------------------------------------------------------

  /** A client that names a server is given a certificate for that name, any other one for "unknown". */
  predicate IsFor(name: string, serverName: string) {
    if serverName == "" then name == "unknown" else name == serverName
  }

  predicate Leads(pc: Pc) {
    pc.Entered? || pc.Reloaded? || pc.Generating? || pc.Dated? || pc.Returning?
  }

  predicate InGeneration(pc: Pc) {
    pc.Generating? || pc.Dated?
  }

  ghost predicate OwnEntry(e: Cached, name: string) {
    e.cert.name == name && e.expiresAt == e.cert.notAfter - MARGIN
  }

  /** What holds of one handshake: whatever it carries is for its name, and while it runs the
      single-flight function it is the one registered. */
  ghost predicate Sound(s: State, p: nat, h: Handshake) {
    && IsFor(h.name, h.serverName)
    && (Leads(h.pc) ==> h.name in s.flight && s.flight[h.name] == p)
    && (h.pc.Loaded? && h.pc.entry.Some? ==> OwnEntry(h.pc.entry.value, h.name))
    && (h.pc.Reloaded? ==> h.pc.entry == Load(s.cache, h.name))
    && (h.pc.Joined? ==> h.pc.leader in s.shakes && s.shakes[h.pc.leader].name == h.name)
    && (h.pc.Returning? && h.pc.result.Some? ==> h.pc.result.value.name == h.name)
    && (h.pc.Done? && h.pc.result.Some? ==> h.pc.result.value.name == h.name)
    && (InGeneration(h.pc) ==> h.pc.began <= s.now && AllOver(s.generations, h.name, h.pc.began))
    && (h.pc.Dated? ==> h.pc.began <= h.pc.dated <= s.now)
  }

  /** Every generation so far for `name` had ended, and its cached certificate expired, by `t`. */
  ghost predicate AllOver(gs: seq<Generation>, name: string, t: int) {
    forall i :: 0 <= i < |gs| && gs[i].cert.name == name ==> gs[i].ended <= t && gs[i].cert.notAfter - MARGIN <= t
  }

  /** The cache holds the certificate that lasts longest. */
  ghost predicate CacheIsLatest(s: State) {
    forall i :: 0 <= i < |s.generations| ==>
      && s.generations[i].cert.name in s.cache
      && s.generations[i].cert.notAfter <= s.cache[s.generations[i].cert.name].cert.notAfter
  }

  ghost predicate WellDated(s: State, caNotAfter: int) {
    forall i :: 0 <= i < |s.generations| ==>
      var g := s.generations[i];
      g.began <= g.dated <= g.ended <= s.now && g.cert.notAfter == NotAfter(g.dated, caNotAfter)
  }

  ghost predicate NoOverlap(gs: seq<Generation>) {
    forall i, j :: 0 <= i < j < |gs| && gs[i].cert.name == gs[j].cert.name ==>
      gs[i].ended <= gs[j].began && gs[i].cert.notAfter - MARGIN <= gs[j].began
  }

  ghost predicate ServedInTime(s: State) {
    forall i :: 0 <= i < |s.served| ==>
      IsFor(s.served[i].cert.name, s.served[i].serverName) && s.served[i].at < s.served[i].cert.notAfter - MARGIN
  }

  ghost predicate Inv(s: State, caNotAfter: int) {
    && (forall p :: p in s.shakes ==> Sound(s, p, s.shakes[p]))
    && (forall n :: n in s.flight ==> s.flight[n] in s.shakes && s.shakes[s.flight[n]].name == n && Leads(s.shakes[s.flight[n]].pc))
    && (forall p :: p in s.returned ==> p in s.shakes && (s.returned[p].Some? ==> s.returned[p].value.name == s.shakes[p].name))
    && (forall n :: n in s.cache ==> OwnEntry(s.cache[n], n))
    && CacheIsLatest(s) && WellDated(s, caNotAfter) && NoOverlap(s.generations) && ServedInTime(s)
  }

  /** Steps of one handshake that leave cache, flight, results and generations alone. */
  lemma {:induction false} MoveKeepsInv(s: State, s': State, caNotAfter: int, p: nat, pc: Pc)
    requires Inv(s, caNotAfter) && p in s.shakes
    requires s' == Move(s, p, pc).(served := s'.served)
    requires Sound(s, p, s.shakes[p].(pc := pc)) && (Leads(s.shakes[p].pc) ==> Leads(pc))
    requires ServedInTime(s')
    ensures Inv(s', caNotAfter)
  {
    forall q | q in s'.shakes ensures Sound(s', q, s'.shakes[q]) {
      assert Sound(s, q, s.shakes[q]);
    }
  }

  /** The generations after one more has ended. */
  lemma {:induction false} GenerationAdded(s: State, s': State, caNotAfter: int, name: string, g: Generation)
    requires CacheIsLatest(s) && WellDated(s, caNotAfter) && NoOverlap(s.generations) && AllOver(s.generations, name, g.began)
    requires g.cert.name == name && g.began <= g.dated <= g.ended == s.now && g.cert.notAfter == NotAfter(g.dated, caNotAfter)
    requires s'.now == s.now && s'.generations == s.generations + [g]
    requires s'.cache == s.cache[name := Cached(g.cert, g.cert.notAfter - MARGIN)]
    ensures CacheIsLatest(s') && WellDated(s', caNotAfter) && NoOverlap(s'.generations)
  {
    forall i | 0 <= i < |s'.generations|
      ensures s'.generations[i].cert.name in s'.cache
      ensures s'.generations[i].cert.notAfter <= s'.cache[s'.generations[i].cert.name].cert.notAfter
    {
      if i < |s.generations| {
        assert s'.generations[i] == s.generations[i];
      }
    }
  }

  /** A generation does not concern handshakes for other names, nor those that do not generate. */
  lemma {:induction false} OtherStaysSound(s: State, s': State, q: nat, h: Handshake, g: Generation)
    requires Sound(s, q, h) && s'.now == s.now && s'.flight == s.flight && s'.generations == s.generations + [g]
    requires forall x :: x in s.shakes ==> x in s'.shakes && s'.shakes[x].name == s.shakes[x].name
    requires Load(s'.cache, h.name) == Load(s.cache, h.name) || h.name == g.cert.name
    requires Leads(h.pc) ==> h.name != g.cert.name
    ensures Sound(s', q, h)
  {}

  lemma {:induction false} GenerationKeepsInv(s: State, caNotAfter: int, p: nat, serial: nat)
    requires Inv(s, caNotAfter) && p in s.shakes && s.shakes[p].pc.Dated?
    ensures Inv(Apply(s, caNotAfter, StoreCert(p, serial)), caNotAfter)
  {
    var h := s.shakes[p];
    var s' := Apply(s, caNotAfter, StoreCert(p, serial));
    assert Sound(s, p, h);
    GenerationAdded(s, s', caNotAfter, h.name, s'.generations[|s.generations|]);
    forall q | q in s'.shakes ensures Sound(s', q, s'.shakes[q]) {
      assert Sound(s, q, s.shakes[q]);
      if q != p {
        OtherStaysSound(s, s', q, s.shakes[q], s'.generations[|s.generations|]);
      }
    }
  }

  lemma {:induction false} LeaveKeepsInv(s: State, caNotAfter: int, p: nat)
    requires Inv(s, caNotAfter) && p in s.shakes && s.shakes[p].pc.Returning?
    ensures Inv(Apply(s, caNotAfter, Leave(p)), caNotAfter)
  {
    var s' := Apply(s, caNotAfter, Leave(p));
    forall q | q in s'.shakes ensures Sound(s', q, s'.shakes[q]) {
      assert Sound(s, q, s.shakes[q]);
      assert Sound(s, p, s.shakes[p]);
    }
  }

  lemma {:induction false} JoinKeepsInv(s: State, caNotAfter: int, p: nat)
    requires Inv(s, caNotAfter) && p in s.shakes && s.shakes[p].pc.Missed? && s.shakes[p].name in s.flight
    ensures Inv(Apply(s, caNotAfter, Do(p)), caNotAfter)
  {
    var s' := Apply(s, caNotAfter, Do(p));
    MoveKeepsInv(s, s', caNotAfter, p, s'.shakes[p].pc);
  }

  lemma {:induction false} LeadKeepsInv(s: State, caNotAfter: int, p: nat)
    requires Inv(s, caNotAfter) && p in s.shakes && s.shakes[p].pc.Missed? && s.shakes[p].name !in s.flight
    ensures Inv(Apply(s, caNotAfter, Do(p)), caNotAfter)
  {
    var s' := Apply(s, caNotAfter, Do(p));
    forall q | q in s'.shakes ensures Sound(s', q, s'.shakes[q]) {
      assert Sound(s, q, s.shakes[q]);
    }
  }

  lemma {:induction false} RecheckKeepsInv(s: State, caNotAfter: int, p: nat)
    requires Inv(s, caNotAfter) && p in s.shakes && s.shakes[p].pc.Reloaded?
    ensures Inv(Apply(s, caNotAfter, Recheck(p)), caNotAfter)
  {
    var h := s.shakes[p];
    var s' := Apply(s, caNotAfter, Recheck(p));
    assert Sound(s, p, h);
    if !Fresh(h.pc.entry, s.now) {
      assert AllOver(s.generations, h.name, s.now);
    }
    MoveKeepsInv(s, s', caNotAfter, p, s'.shakes[p].pc);
  }

  lemma {:induction false} ClockKeepsInv(s: State, caNotAfter: int, a: Action)
    requires Inv(s, caNotAfter) && (a.Tick? || a.Arrive?)
    ensures Inv(Apply(s, caNotAfter, a), caNotAfter)
  {
    var s' := Apply(s, caNotAfter, a);
    forall q | q in s'.shakes ensures Sound(s', q, s'.shakes[q]) {
      if q in s.shakes {
        assert Sound(s, q, s.shakes[q]);
      }
    }
  }

  lemma {:induction false} CheckKeepsInv(s: State, caNotAfter: int, p: nat)
    requires Inv(s, caNotAfter) && p in s.shakes && s.shakes[p].pc.Loaded?
    ensures Inv(Apply(s, caNotAfter, Check(p)), caNotAfter)
  {
    var s' := Apply(s, caNotAfter, Check(p));
    assert Sound(s, p, s.shakes[p]);
    MoveKeepsInv(s, s', caNotAfter, p, s'.shakes[p].pc);
  }

  lemma {:induction false} LoadKeepsInv(s: State, caNotAfter: int, a: Action)
    requires Inv(s, caNotAfter) && (a.LoadEntry? || a.Reload?) && a.p in s.shakes
    ensures Inv(Apply(s, caNotAfter, a), caNotAfter)
  {
    var s' := Apply(s, caNotAfter, a);
    assert Sound(s, a.p, s.shakes[a.p]);
    if s' != s {
      MoveKeepsInv(s, s', caNotAfter, a.p, s'.shakes[a.p].pc);
    }
  }

  lemma {:induction false} ProceedKeepsInv(s: State, caNotAfter: int, a: Action)
    requires Inv(s, caNotAfter) && (a.Date? || a.Fail? || a.Deliver?) && a.p in s.shakes
    ensures Inv(Apply(s, caNotAfter, a), caNotAfter)
  {
    var s' := Apply(s, caNotAfter, a);
    assert Sound(s, a.p, s.shakes[a.p]);
    if s' != s {
      MoveKeepsInv(s, s', caNotAfter, a.p, s'.shakes[a.p].pc);
    }
  }

  lemma {:induction false} StepKeepsInv(s: State, caNotAfter: int, a: Action)
    requires Inv(s, caNotAfter)
    ensures Inv(Apply(s, caNotAfter, a), caNotAfter)
  {
    if a.Tick? || a.Arrive? {
      ClockKeepsInv(s, caNotAfter, a);
    } else if a.p in s.shakes {
      var pc := s.shakes[a.p].pc;
      if a.LoadEntry? || a.Reload? {
        LoadKeepsInv(s, caNotAfter, a);
      } else if a.Check? && pc.Loaded? {
        CheckKeepsInv(s, caNotAfter, a.p);
      } else if a.Date? || a.Fail? || a.Deliver? {
        ProceedKeepsInv(s, caNotAfter, a);
      } else if a.StoreCert? && pc.Dated? {
        GenerationKeepsInv(s, caNotAfter, a.p, a.serial);
      } else if a.Leave? && pc.Returning? {
        LeaveKeepsInv(s, caNotAfter, a.p);
      } else if a.Recheck? && pc.Reloaded? {
        RecheckKeepsInv(s, caNotAfter, a.p);
      } else if a.Do? && pc.Missed? {
        if s.shakes[a.p].name in s.flight {
          JoinKeepsInv(s, caNotAfter, a.p);
        } else {
          LeadKeepsInv(s, caNotAfter, a.p);
        }
      }
    }
  }

  lemma {:induction false} EveryRun(now: int, caNotAfter: int, actions: seq<Action>)
    ensures Inv(Run(now, caNotAfter, actions), caNotAfter)
  {
    if |actions| > 0 {
      EveryRun(now, caNotAfter, actions[..|actions| - 1]);
      StepKeepsInv(Run(now, caNotAfter, actions[..|actions| - 1]), caNotAfter, actions[|actions| - 1]);
    }
  }

  // ----- main results --------------------------------------------------------------------------------

  /** At no time do two handshakes generate a certificate for the same name; a generation in progress
      began after every finished one for the name had ended and its certificate had left the cache's
      validity. */
  lemma {:induction false} OneGenerationAtATime(now: int, caNotAfter: int, actions: seq<Action>, p: nat, q: nat)
    requires var s := Run(now, caNotAfter, actions);
             && p in s.shakes && q in s.shakes && s.shakes[p].name == s.shakes[q].name
             && InGeneration(s.shakes[p].pc) && InGeneration(s.shakes[q].pc)
    ensures p == q
    ensures var s := Run(now, caNotAfter, actions);
            AllOver(s.generations, s.shakes[p].name, s.shakes[p].pc.began)
  {
    EveryRun(now, caNotAfter, actions);
    var s := Run(now, caNotAfter, actions);
    assert Sound(s, p, s.shakes[p]) && Sound(s, q, s.shakes[q]);
  }

  /** A generation that starts finds no unexpired certificate in the cache. */
  lemma {:induction false} GeneratesOnlyOnMiss(now: int, caNotAfter: int, actions: seq<Action>, p: nat)
    requires var s := Run(now, caNotAfter, actions); p in s.shakes && s.shakes[p].pc.Reloaded?
    ensures var s := Run(now, caNotAfter, actions);
            var s' := Apply(s, caNotAfter, Recheck(p));
            var name := s.shakes[p].name;
            InGeneration(s'.shakes[p].pc) <==> name !in s.cache || s.cache[name].expiresAt <= s.now
  {
    EveryRun(now, caNotAfter, actions);
    var s := Run(now, caNotAfter, actions);
    assert Sound(s, p, s.shakes[p]);
  }

  /** Successful generations for one name follow each other, the later one beginning no earlier than
      five minutes before the earlier certificate ends; so, if the authority outlives the next
      24 hours, they are at least 23 h 55 min apart. */
  lemma {:induction false} GenerationsFarApart(now: int, caNotAfter: int, actions: seq<Action>, i: nat, j: nat)
    requires var gs := Run(now, caNotAfter, actions).generations;
             i < j < |gs| && gs[i].cert.name == gs[j].cert.name
    ensures var gs := Run(now, caNotAfter, actions).generations;
            && gs[i].ended <= gs[j].began <= gs[j].dated && gs[i].cert.notAfter - 300 <= gs[j].began
            && gs[i].cert.notAfter == (if gs[i].dated + 86_400 <= caNotAfter then gs[i].dated + 86_400 else caNotAfter)
            && (gs[i].dated + 86_400 <= caNotAfter ==> gs[j].dated - gs[i].dated >= 86_400 - 300)
  {
    EveryRun(now, caNotAfter, actions);
    var gs := Run(now, caNotAfter, actions).generations;
    assert gs[j].began <= gs[j].dated;
  }

  /** A certificate served from the cache is for the name asked for and has more than five minutes
      left. */
  lemma {:induction false} ServedCertsAreValid(now: int, caNotAfter: int, actions: seq<Action>, i: nat)
    requires i < |Run(now, caNotAfter, actions).served|
    ensures var e := Run(now, caNotAfter, actions).served[i];
            && (e.serverName != "" ==> e.cert.name == e.serverName)
            && (e.serverName == "" ==> e.cert.name == "unknown")
            && e.cert.notAfter - e.at > 300
  {
    EveryRun(now, caNotAfter, actions);
  }

  /** Whoever is given a certificate, leader or waiter, is given one for its own name. */
  lemma {:induction false} OwnNameOnly(now: int, caNotAfter: int, actions: seq<Action>, p: nat)
    requires var s := Run(now, caNotAfter, actions);
             p in s.shakes && s.shakes[p].pc.Done? && s.shakes[p].pc.result.Some?
    ensures var h := Run(now, caNotAfter, actions).shakes[p];
            && (h.serverName != "" ==> h.pc.result.value.name == h.serverName)
            && (h.serverName == "" ==> h.pc.result.value.name == "unknown")
  {
    EveryRun(now, caNotAfter, actions);
    var s := Run(now, caNotAfter, actions);
    assert Sound(s, p, s.shakes[p]);
  }

  // ----- one call, uninterrupted ------------------------------------------------------------------------

  /** What a request for `name` comes to: the cached certificate, as long as five minutes of it are left;
      or else a new one, for 24 hours or as long as the authority lasts, and cached; or a failure. */
  predicate Obtains(cache: Certs, cache': Certs, name: string, now: int, issue: int, caNotAfter: int, serial: Option<nat>, r: Option<Cert>) {
    if name in cache && now < cache[name].expiresAt then r == Some(cache[name].cert) && cache' == cache
    else if serial.None? then r == None && cache' == cache
    else
      var end := if issue + 86_400 <= caNotAfter then issue + 86_400 else caNotAfter;
      r == Some(Cert(name, end, serial.value)) && cache' == cache[name := Cached(r.value, end - 300)]
  }

  class CA {
    const notAfter: int
    var cache: Certs

    ghost predicate Valid() reads this {
      forall n :: n in cache ==> OwnEntry(cache[n], n)
    }

    constructor (notAfter: int)
      ensures Valid() && cache == map[] && this.notAfter == notAfter
    {
      this.notAfter := notAfter;
      cache := map[];
    }

    /** `check`, `recheck` and `issue` are the clock readings, `serial` is `None` if key, serial number
        or signature cannot be made. */
    method GetCertificate(serverName: string, check: int, recheck: int, issue: int, serial: Option<nat>)
      returns (r: Option<Cert>)
      requires Valid() && check <= recheck <= issue
      modifies this
      ensures Valid()
      ensures Obtains(old(cache), cache, if serverName == "" then "unknown" else serverName, check, issue, notAfter, serial, r)
      ensures r.Some? && serverName != "" ==> r.value.name == serverName
      ensures r.Some? && serverName == "" ==> r.value.name == "unknown"
    {
      var name := NameFor(serverName);
      r := Lookup(name, check);
      if r.None? {
        r := Generate(name, recheck, issue, serial);
      }
    }

    method Lookup(name: string, now: int) returns (r: Option<Cert>)
      ensures r == if name in cache && now < cache[name].expiresAt then Some(cache[name].cert) else None
    {
      var entry := Load(cache, name);
      return if Fresh(entry, now) then Some(entry.value.cert) else None;
    }

    /** The single-flight function. */
    method Generate(name: string, recheck: int, issue: int, serial: Option<nat>) returns (r: Option<Cert>)
      requires Valid()
      modifies this
      ensures Valid()
      ensures r.Some? ==> r.value.name == name
      ensures Obtains(old(cache), cache, name, recheck, issue, notAfter, serial, r)
    {
      r := Lookup(name, recheck);
      if r.Some? || serial.None? { return; }
      var e := Issue(name, NotAfter(issue, notAfter), serial.value);
      cache := cache[name := e];
      r := Some(e.cert);
    }
  }
}
