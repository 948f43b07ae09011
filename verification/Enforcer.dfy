/** main.go and internal/podveth/enforce.go: wake-ups and enforcement rounds, interleaved with the
    watcher's writes and with the link manager. */
module Enforcer {
  import opened Text
  import opened Policy
  import opened Watcher
  import Links

  /** What `enforceOnce` wants attached: the host veths of the resolved pods among `ips` that are
      known, belong to a namespace and are covered by the policy. */
  ghost function CoveredVeths(mapped: map<string, int>, ips: set<string>, pods: map<string, PodMeta>, rules: seq<Rule>): set<int> {
    set ip | ip in ips && ip in mapped && ip in pods && pods[ip].namespace != ""
             && Covered(rules, pods[ip].namespace, pods[ip].labels) :: mapped[ip]
  }

  /** A veth that is to be attached, condition by condition: it belongs to a resolved pod that is known
      with its namespace, and some rule is for that pod. */
  ghost predicate Wanted(mapped: map<string, int>, pods: map<string, PodMeta>, rules: seq<Rule>, veth: int) {
    exists ip :: ip in mapped && mapped[ip] == veth && ip in pods && pods[ip].namespace != ""
                 && exists i :: 0 <= i < |rules| && ForPod(rules[i], pods[ip].namespace, pods[ip].labels)
  }

  lemma {:induction false} CoveredIsWanted(mapped: map<string, int>, pods: map<string, PodMeta>, rules: seq<Rule>)
    ensures forall veth :: veth in CoveredVeths(mapped, mapped.Keys, pods, rules) <==> Wanted(mapped, pods, rules, veth)
  {
    forall ip | ip in pods
      ensures Covered(rules, pods[ip].namespace, pods[ip].labels)
              <==> exists i :: 0 <= i < |rules| && ForPod(rules[i], pods[ip].namespace, pods[ip].labels) {
      CoveredIff(rules, pods[ip].namespace, pods[ip].labels);
    }
  }

  /** State the watcher writes and the enforcer reads. */
  datatype Shared = Shared(
    pods: map<string, PodMeta>,
    policy: seq<Rule>,
    slot: bool,                 // the one-slot trigger channel is full
    unsent: nat,                // notifiers between their write and their send
    changes: nat)               // writes to pods and policy so far

  datatype Pc = Idle | Resolving | Reading | Judging | Reconciling

  /** The enforcer's current or last round. */
  datatype Round = Round(
    startedAt: nat,             // value of `changes` when it began
    resolved: bool,             // its Resolve has succeeded
    mapped: map<string, int>,   // the result of Resolve
    todo: set<string>,          // pods still to be looked at
    ip: string,                 // the pod being judged
    meta: PodMeta,              // and what the namespace lookup returned for it
    desired: set<int>)

  datatype State = State(sh: Shared, pc: Pc, rd: Round, mg: Links.Manager)

  const NoPod := PodMeta("", map[])

  function FreshRound(changes: nat): Round {
    Round(changes, false, map[], {}, "", NoPod, {})
  }

  /** The first round begins without waiting for an event. */
  function Initial(): State {
    State(Shared(map[], [], false, 0, 0), Resolving, FreshRound(0), Links.New())
  }

  /** A step of the watcher: it writes first and sends later, without blocking. */
  datatype Change =
    | PodPut(podIp: string, podMeta: PodMeta)
    | PodGone(podIp: string)
    | PolicyStored(rules: seq<Rule>)
    | Send

  datatype Step =
    | Tick | Wake                                  // begin a round
    | Resolve(result: Option<map<string, int>>)
    | Ask(podIp: string)                           // nsFn
    | Judge                                        // coveredFn
    | CallReconcile
    | Finish                                       // Reconcile has returned

  datatype Action =
    | Cluster(change: Change)
    | Enforce(step: Step)
    | Manage(act: Links.Action)

  function Changed(sh: Shared): Shared {
    sh.(changes := sh.changes + 1, unsent := sh.unsent + 1)
  }

  function ApplyChange(sh: Shared, c: Change): Shared {
    match c
    case PodPut(ip, meta) => Changed(sh.(pods := sh.pods[ip := meta]))
    case PodGone(ip) => Changed(sh.(pods := sh.pods - {ip}))
    case PolicyStored(rules) => Changed(sh.(policy := rules))
    case Send => if sh.unsent > 0 then sh.(unsent := sh.unsent - 1, slot := true) else sh
  }

  function NamespaceOf(pods: map<string, PodMeta>, ip: string): PodMeta {
    if ip in pods then pods[ip] else NoPod
  }

  function Enforced(s: State, step: Step): State {
    match step
    case Tick => if s.pc.Idle? then s.(pc := Resolving, rd := FreshRound(s.sh.changes)) else s
    case Wake =>
      if s.pc.Idle? && s.sh.slot
      then s.(sh := s.sh.(slot := false), pc := Resolving, rd := FreshRound(s.sh.changes))
      else s
    case Resolve(result) =>
      if !s.pc.Resolving? then s
      else if result.None? then s.(pc := Idle)
      else s.(pc := Reading, rd := s.rd.(resolved := true, mapped := result.value, todo := result.value.Keys))
    case Ask(ip) =>
      if !s.pc.Reading? || ip !in s.rd.todo then s
      else
        var meta := NamespaceOf(s.sh.pods, ip);
        if meta.namespace == "" then s.(rd := s.rd.(todo := s.rd.todo - {ip}))
        else s.(pc := Judging, rd := s.rd.(ip := ip, meta := meta))
    case Judge =>
      if !s.pc.Judging? || s.rd.ip !in s.rd.mapped then s
      else
        var more := if Covered(s.sh.policy, s.rd.meta.namespace, s.rd.meta.labels) then {s.rd.mapped[s.rd.ip]} else {};
        s.(pc := Reading, rd := s.rd.(todo := s.rd.todo - {s.rd.ip}, desired := s.rd.desired + more))
    case CallReconcile =>
      if !s.pc.Reading? || s.rd.todo != {} then s
      else s.(pc := Reconciling, mg := Links.Apply(s.mg, Links.Call(s.rd.desired)))
    case Finish => if s.pc.Reconciling? && s.mg.phase.Returned? then s.(pc := Idle) else s
  }

  /** One atomic step of one actor; a step that is not enabled changes nothing. Only the enforcer
      calls Reconcile. */
  function Apply(s: State, a: Action): State {
    match a
    case Cluster(c) => s.(sh := ApplyChange(s.sh, c))
    case Enforce(step) => Enforced(s, step)
    case Manage(act) => if act.Call? then s else s.(mg := Links.Apply(s.mg, act))
  }

  function Run(actions: seq<Action>): State {
    if |actions| == 0 then Initial() else Apply(Run(actions[..|actions| - 1]), actions[|actions| - 1])
  }

  // ----- no wake-up is lost ------------------------------------------------------------------------

  /** Either nothing has changed since the last round began, or another round is on its way. */
  ghost predicate WakeUpKept(s: State) {
    s.sh.changes >= s.rd.startedAt && (s.sh.changes == s.rd.startedAt || s.sh.slot || s.sh.unsent > 0)
  }

  ghost predicate RoundIsCurrent(s: State) {
    s.sh.changes == s.rd.startedAt
  }

  lemma {:induction false} WakeStep(s: State, a: Action)
    requires WakeUpKept(s)
    ensures WakeUpKept(Apply(s, a))
  {}

  // ----- a round reads one picture -------------------------------------------------------------------

  /** The pods the round has dealt with. */
  ghost function Handled(rd: Round): set<string> {
    rd.mapped.Keys - rd.todo
  }

  /** Everything the round has read still holds. */
  ghost predicate Faithful(rd: Round, sh: Shared) {
    rd.desired == CoveredVeths(rd.mapped, Handled(rd), sh.pods, sh.policy)
  }

  ghost predicate ReadsConsistent(s: State) {
    && s.rd.todo <= s.rd.mapped.Keys
    && (s.pc.Resolving? ==> s.rd == FreshRound(s.rd.startedAt))
    && (s.pc.Reconciling? || s.pc.Idle? ==> s.rd.todo == {})
    && (s.pc.Judging? ==> s.rd.ip in s.rd.todo && s.rd.meta.namespace != "")
    && (RoundIsCurrent(s) ==>
          && (s.pc.Judging? ==> s.rd.ip in s.sh.pods && s.rd.meta == s.sh.pods[s.rd.ip])
          && Faithful(s.rd, s.sh))
  }

  /** Dealing with one more pod adds its veth exactly if the pod is covered. */
  lemma {:induction false} OneMorePod(rd: Round, rd': Round, sh: Shared, ip: string)
    requires Faithful(rd, sh) && ip in rd.todo && rd.todo <= rd.mapped.Keys
    requires rd'.mapped == rd.mapped && rd'.todo == rd.todo - {ip}
    requires rd'.desired == rd.desired +
               if ip in sh.pods && sh.pods[ip].namespace != "" && Covered(sh.policy, sh.pods[ip].namespace, sh.pods[ip].labels)
               then {rd.mapped[ip]} else {}
    ensures Faithful(rd', sh)
  {
    assert Handled(rd') == Handled(rd) + {ip};
  }

  lemma {:induction false} ReadsOnAsk(s: State, ip: string)
    requires ReadsConsistent(s)
    ensures ReadsConsistent(Apply(s, Enforce(Ask(ip))))
  {
    var s' := Apply(s, Enforce(Ask(ip)));
    if s.pc.Reading? && ip in s.rd.todo && RoundIsCurrent(s) && s'.pc.Reading? {
      OneMorePod(s.rd, s'.rd, s.sh, ip);
    }
  }

  lemma {:induction false} ReadsOnJudge(s: State)
    requires ReadsConsistent(s)
    ensures ReadsConsistent(Apply(s, Enforce(Judge)))
  {
    var s' := Apply(s, Enforce(Judge));
    if s.pc.Judging? && RoundIsCurrent(s) {
      OneMorePod(s.rd, s'.rd, s.sh, s.rd.ip);
    }
  }

  lemma {:induction false} ReadsElsewhere(s: State, a: Action)
    requires ReadsConsistent(s) && WakeUpKept(s)
    requires a.Enforce? ==> !a.step.Ask? && !a.step.Judge?
    ensures ReadsConsistent(Apply(s, a))
  {
    var s' := Apply(s, a);
    if a.Enforce? {
      assert s'.rd.todo == s'.rd.mapped.Keys ==> Handled(s'.rd) == {};
      assert CoveredVeths(s'.rd.mapped, {}, s'.sh.pods, s'.sh.policy) == {};
    }
  }

  lemma {:induction false} ReadsStep(s: State, a: Action)
    requires WakeUpKept(s) && ReadsConsistent(s)
    ensures ReadsConsistent(Apply(s, a))
  {
    if a.Enforce? && a.step.Ask? {
      ReadsOnAsk(s, a.step.podIp);
    } else if a.Enforce? && a.step.Judge? {
      ReadsOnJudge(s);
    } else {
      ReadsElsewhere(s, a);
    }
  }

  // ----- the link manager serves the last complete round -----------------------------------------------

  ghost predicate Served(s: State) {
    && Links.Progress(s.mg) && Links.Balanced(s.mg.at)
    && (!s.pc.Reconciling? ==> s.mg.phase.Returned?)
    && (s.pc.Reconciling? || (s.pc.Idle? && s.rd.resolved) ==> s.mg.desired == s.rd.desired)
  }

  lemma {:induction false} ServedStep(s: State, a: Action)
    requires Served(s) && ReadsConsistent(s)
    ensures Served(Apply(s, a))
  {
    if a.Manage? {
      ManageStep(s, a.act);
    } else if a.Enforce? && a.step.CallReconcile? {
      CallStep(s);
    } else {
      ServedElsewhere(s, a);
    }
  }

  lemma {:induction false} CallStep(s: State)
    requires Served(s)
    ensures Served(Apply(s, Enforce(CallReconcile)))
  {
    Links.ProgressStep(s.mg, Links.Call(s.rd.desired));
    Links.BalancedStep(s.mg, Links.Call(s.rd.desired));
  }

  lemma {:induction false} ServedElsewhere(s: State, a: Action)
    requires Served(s) && ReadsConsistent(s)
    requires !a.Manage? && !(a.Enforce? && a.step.CallReconcile?)
    ensures Served(Apply(s, a))
  {
    assert Apply(s, a).mg == s.mg;
  }

  lemma {:induction false} ManageStep(s: State, act: Links.Action)
    requires Served(s) && ReadsConsistent(s)
    ensures Served(Apply(s, Manage(act)))
  {
    Links.ProgressStep(s.mg, act);
    Links.BalancedStep(s.mg, act);
  }

  // ----- every run ------------------------------------------------------------------------------------------

  ghost predicate Inv(s: State) {
    WakeUpKept(s) && ReadsConsistent(s) && Served(s)
  }

  lemma {:induction false} InitialInv()
    ensures Inv(Initial())
  {
    var s := Initial();
    assert CoveredVeths(s.rd.mapped, {}, s.sh.pods, s.sh.policy) == {};
    assert Handled(s.rd) == {};
    Links.EveryRun([]);
  }

  lemma {:induction false} EveryRun(actions: seq<Action>)
    ensures Inv(Run(actions))
  {
    if |actions| == 0 {
      InitialInv();
    } else {
      var before, a := actions[..|actions| - 1], actions[|actions| - 1];
      EveryRun(before);
      WakeStep(Run(before), a);
      ReadsStep(Run(before), a);
      ServedStep(Run(before), a);
    }
  }

  /** What the watcher wrote last, read off the actions alone. */
  function LastPolicy(actions: seq<Action>): seq<Rule> {
    if |actions| == 0 then []
    else
      var a := actions[|actions| - 1];
      if a.Cluster? && a.change.PolicyStored? then a.change.rules else LastPolicy(actions[..|actions| - 1])
  }

  function LastMeta(actions: seq<Action>, ip: string): Option<PodMeta> {
    if |actions| == 0 then None
    else
      var a := actions[|actions| - 1];
      if a.Cluster? && a.change.PodPut? && a.change.podIp == ip then Some(a.change.podMeta)
      else if a.Cluster? && a.change.PodGone? && a.change.podIp == ip then None
      else LastMeta(actions[..|actions| - 1], ip)
  }

  /** The enforcer sees the latest policy and the latest pods. */
  lemma {:induction false} SharedIsLatest(actions: seq<Action>)
    ensures var sh := Run(actions).sh;
            && sh.policy == LastPolicy(actions)
            && forall ip :: LastMeta(actions, ip) == if ip in sh.pods then Some(sh.pods[ip]) else None
  {
    if |actions| > 0 {
      SharedIsLatest(actions[..|actions| - 1]);
    }
  }

  predicate Quiet(s: State) {
    s.pc.Idle? && !s.sh.slot && s.sh.unsent == 0
  }

  /** No lost wake-up: whenever the system is quiet, the last round began after the last change;
      and if its Resolve succeeded, exactly the covered pods' veths are attached, but for attaches
      that failed and interfaces that were deleted since Reconcile was called. */
  lemma {:induction false} QuietMeansEnforced(actions: seq<Action>)
    requires Quiet(Run(actions))
    ensures var s := Run(actions);
            && RoundIsCurrent(s)
            && (s.rd.resolved ==>
                  && (forall v :: v in s.mg.at.links ==> Wanted(s.rd.mapped, s.sh.pods, s.sh.policy, v))
                  && forall v :: Wanted(s.rd.mapped, s.sh.pods, s.sh.policy, v) && v !in s.mg.failed && v !in s.mg.deleted ==>
                       v in s.mg.at.links)
  {
    EveryRun(actions);
    var s := Run(actions);
    CoveredIsWanted(s.rd.mapped, s.sh.pods, s.sh.policy);
    assert Handled(s.rd) == s.rd.mapped.Keys;
  }
}
