/** internal/policy: which rule a request falls under, and the two coarser gates asked before a
    request is known. */
module Policy {
  import opened Text
  import CacheKey
  import Http

  type Labels = map<string, string>

  datatype Operator = In | NotIn | Exists | DoesNotExist
  datatype Requirement = Requirement(key: string, op: Operator, values: set<string>)
  type Selector = seq<Requirement>

  predicate RequirementHolds(q: Requirement, labels: Labels) {
    match q.op
    case In => q.key in labels && labels[q.key] in q.values
    case NotIn => q.key in labels ==> labels[q.key] !in q.values
    case Exists => q.key in labels
    case DoesNotExist => q.key !in labels
  }

  predicate SelectorMatches(sel: Selector, labels: Labels) {
    forall i :: 0 <= i < |sel| ==> RequirementHolds(sel[i], labels)
  }

  datatype Rule = Rule(
    namespace: string,
    podSelector: Option<Selector>,
    host: string,
    port: nat,
    verbs: seq<string>,
    paths: seq<string>,
    ttl: int,
    cacheBody: bool,
    varyHeaders: seq<string>,
    maxBodyBytes: int)

  function KeyConfig(r: Rule): CacheKey.Config {
    CacheKey.Config(r.cacheBody, r.varyHeaders, 0)
  }

  function LastIndexOf(s: string, c: char): (r: Option<nat>)
    ensures r.None? <==> Lacks(s, c)
    ensures r.Some? ==> r.value < |s| && s[r.value] == c && Lacks(s[r.value + 1..], c)
  {
    if |s| == 0 then None
    else if s[|s| - 1] == c then Some(|s| - 1)
    else
      assert s == s[..|s| - 1] + [s[|s| - 1]];
      LastIndexOf(s[..|s| - 1], c)
  }

  /** The host `net.SplitHostPort` yields, or `None` where it reports an error. */
  function SplitHostPort(s: string): Option<string> {
    match LastIndexOf(s, ':')
    case None => None
    case Some(i) =>
      if s[0] == '[' then
        match IndexOf(s, ']')
        case None => None
        case Some(end) =>
          if end + 1 != i || !Lacks(s[1..], '[') || !Lacks(s[end + 1..], ']') then None
          else Some(s[1..end])
      else if !Lacks(s[..i], ':') || !Lacks(s, '[') || !Lacks(s, ']') then None
      else Some(s[..i])
  }

  function StripPort(host: string): string {
    match SplitHostPort(host)
    case Some(h) => h
    case None => host
  }

  predicate AppliesToPod(r: Rule, namespace: string, labels: Labels) {
    && (r.namespace == "" || r.namespace == namespace)
    && (r.podSelector.Some? && |r.podSelector.value| > 0 ==> SelectorMatches(r.podSelector.value, labels))
  }

  predicate TargetsHostPort(r: Rule, host: string, port: nat) {
    (r.port == 0 || r.port == port) && (r.host == "*" || r.host == host)
  }

  predicate VerbAllowed(allowed: seq<string>, verb: string) {
    verb in allowed
  }

  predicate PathAllowed(prefixes: seq<string>, path: string) {
    exists i :: 0 <= i < |prefixes| && HasPrefix(path, prefixes[i])
  }

  /** `host` is already without its port. */
  predicate Passes(r: Rule, namespace: string, labels: Labels, host: string, port: nat, verb: string, path: string) {
    && AppliesToPod(r, namespace, labels)
    && TargetsHostPort(r, host, port)
    && (|r.verbs| > 0 ==> VerbAllowed(r.verbs, verb))
    && (|r.paths| > 0 ==> PathAllowed(r.paths, path))
  }

  function FirstMatch(rules: seq<Rule>, namespace: string, labels: Labels, host: string, port: nat, verb: string, path: string): Option<Rule> {
    if |rules| == 0 then None
    else if Passes(rules[0], namespace, labels, host, port, verb, path) then Some(rules[0])
    else FirstMatch(rules[1..], namespace, labels, host, port, verb, path)
  }

  function Match(rules: seq<Rule>, namespace: string, labels: Labels, host: string, port: nat, verb: string, path: string): Option<Rule> {
    FirstMatch(rules, namespace, labels, StripPort(host), port, verb, path)
  }

  predicate Covered(rules: seq<Rule>, namespace: string, labels: Labels) {
    exists i :: 0 <= i < |rules| && AppliesToPod(rules[i], namespace, labels)
  }

  predicate HasRuleForHostPort(rules: seq<Rule>, host: string, port: nat) {
    exists i :: 0 <= i < |rules| && TargetsHostPort(rules[i], StripPort(host), port)
  }

  // ----- what the gates ask of a rule -------------------------------------------------------------------

  ghost predicate Meets(q: Requirement, labels: Labels) {
    && (q.op.In? ==> q.key in labels && labels[q.key] in q.values)
    && (q.op.NotIn? ==> !(q.key in labels && labels[q.key] in q.values))
    && (q.op.Exists? ==> q.key in labels)
    && (q.op.DoesNotExist? ==> q.key !in labels)
  }

  /** The rule is for the pod's namespace or for all, and the pod meets all requirements there are. */
  ghost predicate ForPod(r: Rule, namespace: string, labels: Labels) {
    && (r.namespace == "" || r.namespace == namespace)
    && (r.podSelector.Some? ==> forall i :: 0 <= i < |r.podSelector.value| ==> Meets(r.podSelector.value[i], labels))
  }

  ghost predicate ForHostPort(r: Rule, host: string, port: nat) {
    (r.host == "*" || r.host == host) && (r.port == 0 || r.port == port)
  }

  ghost predicate StartsWith(path: string, prefix: string) {
    |prefix| <= |path| && path[..|prefix|] == prefix
  }

  /** All that a rule asks of a request, whose host is given without its port. */
  ghost predicate RuleMatches(r: Rule, namespace: string, labels: Labels, host: string, port: nat, verb: string, path: string) {
    && ForPod(r, namespace, labels) && ForHostPort(r, host, port)
    && (r.verbs == [] || exists i :: 0 <= i < |r.verbs| && r.verbs[i] == verb)
    && (r.paths == [] || exists i :: 0 <= i < |r.paths| && StartsWith(path, r.paths[i]))
  }

  lemma {:induction false} AppliesIff(r: Rule, namespace: string, labels: Labels)
    ensures AppliesToPod(r, namespace, labels) <==> ForPod(r, namespace, labels)
  {
    if r.podSelector.Some? {
      var sel := r.podSelector.value;
      assert forall i :: 0 <= i < |sel| ==> (RequirementHolds(sel[i], labels) <==> Meets(sel[i], labels));
    }
  }

  lemma {:induction false} PassesIff(r: Rule, namespace: string, labels: Labels, host: string, port: nat, verb: string, path: string)
    ensures Passes(r, namespace, labels, host, port, verb, path) <==> RuleMatches(r, namespace, labels, host, port, verb, path)
  {
    AppliesIff(r, namespace, labels);
    assert forall i :: 0 <= i < |r.paths| ==> (HasPrefix(path, r.paths[i]) <==> StartsWith(path, r.paths[i]));
  }

  predicate Bare(s: string) {
    Lacks(s, '[') && Lacks(s, ']')
  }

  /** A host with a port: `h:port`, or `[h]:port`, where `h` may have colons. */
  ghost predicate WithPort(host: string, h: string, port: string) {
    && Bare(h) && Bare(port) && Lacks(port, ':')
    && ((Lacks(h, ':') && host == h + ":" + port) || host == "[" + h + "]:" + port)
  }

  /** What a host is without its port, if it has one. */
  ghost predicate Stripped(host: string, h: string) {
    || (exists port :: WithPort(host, h, port))
    || (h == host && forall h', port :: !WithPort(host, h', port))
  }

  lemma {:induction false} LastIndexAt(before: string, c: char, after: string)
    requires Lacks(after, c)
    ensures LastIndexOf(before + [c] + after, c) == Some(|before|)
  {
    var s := before + [c] + after;
    if |after| > 0 {
      var rest := after[..|after| - 1];
      assert s[|s| - 1] == after[|after| - 1];
      assert s[..|s| - 1] == before + [c] + rest;
      LastIndexAt(before, c, rest);
    }
  }

  lemma {:induction false} SplitPlain(h: string, port: string)
    requires Bare(h) && Bare(port) && Lacks(port, ':') && Lacks(h, ':')
    ensures SplitHostPort(h + ":" + port) == Some(h)
  {
    LastIndexAt(h, ':', port);
    assert (h + ":" + port)[..|h|] == h;
  }

  lemma {:induction false} BracketedParts(s: string, h: string, port: string)
    requires Bare(h) && Bare(port) && s == "[" + h + "]:" + port
    ensures |s| == |h| + 3 + |port| && s[0] == '[' && s[1..|h| + 1] == h
    ensures Lacks(s[1..], '[') && Lacks(s[|h| + 2..], ']')
  {
    forall k | 1 <= k < |s| ensures s[k] != '[' && (k >= |h| + 2 ==> s[k] != ']') {
      assert k <= |h| ==> s[k] == h[k - 1];
      assert k >= |h| + 3 ==> s[k] == port[k - |h| - 3];
    }
  }

  lemma {:induction false} SplitBracketed(h: string, port: string)
    requires Bare(h) && Bare(port) && Lacks(port, ':')
    ensures SplitHostPort("[" + h + "]:" + port) == Some(h)
  {
    var s := "[" + h + "]:" + port;
    BracketedParts(s, h, port);
    assert LastIndexOf(s, ':') == Some(|h| + 2) by {
      LastIndexAt("[" + h + "]", ':', port);
      assert s == ("[" + h + "]") + [':'] + port;
    }
    assert IndexOf(s, ']') == Some(|h| + 1) by {
      IndexAfterPrefix("[" + h, ']', ":" + port);
      assert s == ("[" + h) + [']'] + (":" + port);
    }
    assert Lacks(s[|h| + 1 + 1..], ']');
  }

  lemma {:induction false} TailLacks(s: string, i: nat, j: nat, c: char)
    requires i <= j <= |s| && Lacks(s[i..], c)
    ensures Lacks(s[j..], c)
  {
    assert forall k :: 0 <= k < |s| - j ==> s[j..][k] == s[i..][j - i + k];
  }

  lemma {:induction false} SplitMeans(s: string)
    requires SplitHostPort(s).Some?
    ensures exists port :: WithPort(s, SplitHostPort(s).value, port)
  {
    var i := LastIndexOf(s, ':').value;
    var h, port := SplitHostPort(s).value, s[i + 1..];
    SplitHostHasNoBrackets(s);
    if s[0] == '[' {
      TailLacks(s, 1, i + 1, '[');
      TailLacks(s, i, i + 1, ']');
      BracketedShape(s, i, h, port);
    } else {
      assert s[0..] == s;
      TailLacks(s, 0, i + 1, '[');
      TailLacks(s, 0, i + 1, ']');
      assert s == h + ":" + port;
    }
    assert WithPort(s, h, port);
  }

  lemma {:induction false} BracketedShape(s: string, i: nat, h: string, port: string)
    requires 2 <= i < |s| && s[0] == '[' && s[i - 1] == ']' && s[i] == ':' && h == s[1..i - 1] && port == s[i + 1..]
    ensures s == "[" + h + "]:" + port
  {}

  /** The host the rules are asked for is the request's without its port. */
  lemma {:induction false} StripIff(host: string, h: string)
    ensures Stripped(host, h) <==> h == StripPort(host)
  {
    forall h', port | WithPort(host, h', port) ensures SplitHostPort(host) == Some(h') {
      if Lacks(h', ':') && host == h' + ":" + port {
        SplitPlain(h', port);
      } else {
        SplitBracketed(h', port);
      }
    }
    if SplitHostPort(host).Some? {
      SplitMeans(host);
    }
  }

  /** Which pods are covered: those that some rule is for. */
  lemma {:induction false} CoveredIff(rules: seq<Rule>, namespace: string, labels: Labels)
    ensures Covered(rules, namespace, labels) <==> exists i :: 0 <= i < |rules| && ForPod(rules[i], namespace, labels)
  {
    forall i | 0 <= i < |rules| ensures AppliesToPod(rules[i], namespace, labels) <==> ForPod(rules[i], namespace, labels) {
      AppliesIff(rules[i], namespace, labels);
    }
  }

  /** Which hosts and ports are inspected: those that some rule is for. */
  lemma {:induction false} HasRuleIff(rules: seq<Rule>, host: string, h: string, port: nat)
    requires Stripped(host, h)
    ensures HasRuleForHostPort(rules, host, port) <==> exists i :: 0 <= i < |rules| && ForHostPort(rules[i], h, port)
  {
    StripIff(host, h);
    assert forall i :: 0 <= i < |rules| ==> (TargetsHostPort(rules[i], h, port) <==> ForHostPort(rules[i], h, port));
  }

  ghost predicate FirstAt(rules: seq<Rule>, i: nat, namespace: string, labels: Labels, host: string, port: nat, verb: string, path: string) {
    && i < |rules|
    && RuleMatches(rules[i], namespace, labels, host, port, verb, path)
    && forall j :: 0 <= j < i ==> !RuleMatches(rules[j], namespace, labels, host, port, verb, path)
  }

  /** The match is a matching rule with no matching rule before it; there is none only if no rule
      matches. */
  lemma {:induction false} FirstMatchIsFirst(rules: seq<Rule>, namespace: string, labels: Labels, host: string, port: nat, verb: string, path: string)
    ensures var m := FirstMatch(rules, namespace, labels, host, port, verb, path);
            if m.Some?
            then exists i: nat :: FirstAt(rules, i, namespace, labels, host, port, verb, path) && rules[i] == m.value
            else forall j :: 0 <= j < |rules| ==> !RuleMatches(rules[j], namespace, labels, host, port, verb, path)
  {
    if |rules| > 0 {
      PassesIff(rules[0], namespace, labels, host, port, verb, path);
      if RuleMatches(rules[0], namespace, labels, host, port, verb, path) {
        assert FirstAt(rules, 0, namespace, labels, host, port, verb, path);
      } else {
        var rest := rules[1..];
        FirstMatchIsFirst(rest, namespace, labels, host, port, verb, path);
        var m := FirstMatch(rest, namespace, labels, host, port, verb, path);
        assert forall j :: 0 < j < |rules| ==> rules[j] == rest[j - 1];
        if m.Some? {
          var i: nat :| FirstAt(rest, i, namespace, labels, host, port, verb, path) && rest[i] == m.value;
          assert FirstAt(rules, i + 1, namespace, labels, host, port, verb, path);
        }
      }
    }
  }

  /** The rule a request falls under is the first one all of whose conditions it meets; it falls under
      none if and only if there is no such rule. */
  lemma {:induction false} MatchIsFirst(rules: seq<Rule>, namespace: string, labels: Labels, host: string, h: string, port: nat, verb: string, path: string)
    requires Stripped(host, h)
    ensures var m := Match(rules, namespace, labels, host, port, verb, path);
            && (m.Some? <==> exists i :: 0 <= i < |rules| && RuleMatches(rules[i], namespace, labels, h, port, verb, path))
            && (m.Some? ==> exists i: nat :: FirstAt(rules, i, namespace, labels, h, port, verb, path) && rules[i] == m.value)
  {
    StripIff(host, h);
    FirstMatchIsFirst(rules, namespace, labels, h, port, verb, path);
  }

  /** A request that matches comes from a covered pod and passes the gate asked before the TLS
      handshake. */
  lemma MatchPassesGates(rules: seq<Rule>, namespace: string, labels: Labels, host: string, port: nat, verb: string, path: string)
    requires Match(rules, namespace, labels, host, port, verb, path).Some?
    ensures Covered(rules, namespace, labels)
    ensures HasRuleForHostPort(rules, host, port)
  {
    StripIff(host, StripPort(host));
    FirstMatchIsFirst(rules, namespace, labels, StripPort(host), port, verb, path);
    CoveredIff(rules, namespace, labels);
    HasRuleIff(rules, host, StripPort(host), port);
  }

  lemma SplitHostHasNoBrackets(s: string)
    requires SplitHostPort(s).Some?
    ensures Lacks(SplitHostPort(s).value, '[') && Lacks(SplitHostPort(s).value, ']')
  {
    var i := LastIndexOf(s, ':').value;
    if s[0] == '[' {
      var end := IndexOf(s, ']').value;
      assert forall k :: 0 <= k < end - 1 ==> s[1..end][k] == s[1..][k] && s[1..end][k] == s[..end][k + 1];
    } else {
      assert forall k :: 0 <= k < i ==> s[..i][k] == s[k];
    }
  }

  // ----- which rules requests can reach ---------------------------------------------------------------

  /** A request as it comes to its match: a Host line that is not empty, a method, and a path that is
      absolute or "*" (an empty one counts as "/"). */
  predicate Deliverable(host: string, verb: string, path: string) {
    && host != "" && Http.FieldValue(host)
    && verb != "" && Http.IsToken(verb)
    && (path == "*" || HasPrefix(path, "/"))
  }

  /** The rule hosts some request host can be equal to once its port is stripped. */
  predicate Addressable(host: string) {
    || host == "*"
    || (Lacks(host, '\n') && Lacks(host, '[') && Lacks(host, ']'))
    || (SplitHostPort(host).None? && Http.FieldValue(host) && host != "")
  }

  predicate SomeVerb(verbs: seq<string>) {
    |verbs| > 0 ==> exists i :: 0 <= i < |verbs| && verbs[i] != "" && Http.IsToken(verbs[i])
  }

  predicate PathPrefix(p: string) {
    p == "" || p == "*" || HasPrefix(p, "/")
  }

  predicate SomePath(paths: seq<string>) {
    |paths| > 0 ==> exists i :: 0 <= i < |paths| && PathPrefix(paths[i])
  }

  /** What a rule must be like for some request to match it. */
  predicate Matchable(r: Rule) {
    Addressable(r.host) && SomeVerb(r.verbs) && SomePath(r.paths)
  }

  ghost predicate MatchesDelivered(r: Rule, namespace: string, labels: Labels, host: string, port: nat, verb: string, path: string) {
    Deliverable(host, verb, path) && RuleMatches(r, namespace, labels, StripPort(host), port, verb, path)
  }

  /** A stripped host is part of the host. */
  lemma {:induction false} StrippedLacks(s: string, c: char)
    requires Lacks(s, c)
    ensures Lacks(StripPort(s), c)
  {}

  lemma {:induction false} HostIsAddressable(host: string)
    requires host != "" && Http.FieldValue(host)
    ensures Addressable(StripPort(host))
  {
    StrippedLacks(host, '\n');
    if SplitHostPort(host).Some? {
      SplitHostHasNoBrackets(host);
    }
  }

  lemma {:induction false} AddressableHost(target: string) returns (host: string)
    requires Addressable(target)
    ensures host != "" && Http.FieldValue(host) && (target == "*" || StripPort(host) == target)
  {
    if target == "*" || (SplitHostPort(target).None? && Http.FieldValue(target) && target != "") {
      host := target;
    } else {
      host := "[" + target + "]:0";
      SplitBracketed(target, "0");
      assert host == "[" + target + "]:" + "0";
      BracketedIsValue(target);
    }
  }

  lemma {:induction false} BracketedIsValue(target: string)
    requires Lacks(target, '\n')
    ensures "[" + target + "]:0" != "" && Http.FieldValue("[" + target + "]:0")
  {
    var s := "[" + target + "]:0";
    assert s[0] == '[' && s[|s| - 1] == '0';
    assert forall i :: 0 < i <= |target| ==> s[i] == target[i - 1];
    assert s[|target| + 1] == ']' && s[|target| + 2] == ':';
  }

  lemma {:induction false} PathHasPrefix(p: string) returns (path: string)
    requires PathPrefix(p)
    ensures (path == "*" || HasPrefix(path, "/")) && HasPrefix(path, p)
  {
    path := if p == "" then "/" else p;
  }

  lemma {:induction false} MatchableIsMatched(r: Rule, namespace: string, labels: Labels)
    returns (host: string, verb: string, path: string)
    requires ForPod(r, namespace, labels) && Matchable(r)
    ensures MatchesDelivered(r, namespace, labels, host, r.port, verb, path)
  {
    host := AddressableHost(r.host);
    verb, path := "GET", "/";
    if |r.verbs| > 0 {
      var i :| 0 <= i < |r.verbs| && r.verbs[i] != "" && Http.IsToken(r.verbs[i]);
      verb := r.verbs[i];
    }
    if |r.paths| > 0 {
      var i :| 0 <= i < |r.paths| && PathPrefix(r.paths[i]);
      path := PathHasPrefix(r.paths[i]);
    }
  }

  lemma {:induction false} MatchedIsMatchable(r: Rule, namespace: string, labels: Labels, host: string, port: nat, verb: string, path: string)
    requires MatchesDelivered(r, namespace, labels, host, port, verb, path)
    ensures Matchable(r)
  {
    HostIsAddressable(host);
    if |r.verbs| > 0 {
      var i :| 0 <= i < |r.verbs| && r.verbs[i] == verb;
    }
    if |r.paths| > 0 {
      var i :| 0 <= i < |r.paths| && StartsWith(path, r.paths[i]);
      assert PathPrefix(r.paths[i]);
    }
  }

  /** A rule that applies to a pod is matched by some request of that pod exactly when its host is
      addressable, one of its methods is a method, and one of its paths begins as paths do. */
  lemma {:induction false} MatchedIffMatchable(r: Rule, namespace: string, labels: Labels)
    requires ForPod(r, namespace, labels)
    ensures (exists host, port, verb, path :: MatchesDelivered(r, namespace, labels, host, port, verb, path)) <==> Matchable(r)
  {
    if Matchable(r) {
      var host, verb, path := MatchableIsMatched(r, namespace, labels);
    }
    forall host, port, verb, path | MatchesDelivered(r, namespace, labels, host, port, verb, path) ensures Matchable(r) {
      MatchedIsMatchable(r, namespace, labels, host, port, verb, path);
    }
  }

  ghost predicate Reachable(r: Rule, namespace: string, labels: Labels) {
    ForPod(r, namespace, labels) && Matchable(r)
  }

  ghost predicate DeliveredMatch(rules: seq<Rule>, namespace: string, labels: Labels, host: string, port: nat, verb: string, path: string) {
    Deliverable(host, verb, path) && Match(rules, namespace, labels, host, port, verb, path).Some?
  }

  /** Some request of a pod is matched exactly if some rule applies to the pod and can be matched. */
  lemma {:induction false} SomeMatchIff(rules: seq<Rule>, namespace: string, labels: Labels)
    ensures (exists host, port, verb, path :: DeliveredMatch(rules, namespace, labels, host, port, verb, path))
            <==> exists i :: 0 <= i < |rules| && Reachable(rules[i], namespace, labels)
  {
    if i :| 0 <= i < |rules| && Reachable(rules[i], namespace, labels) {
      var host, verb, path := MatchableIsMatched(rules[i], namespace, labels);
      FirstMatchIsFirst(rules, namespace, labels, StripPort(host), rules[i].port, verb, path);
      assert DeliveredMatch(rules, namespace, labels, host, rules[i].port, verb, path);
    }
    forall host, port, verb, path | DeliveredMatch(rules, namespace, labels, host, port, verb, path)
      ensures exists i :: 0 <= i < |rules| && Reachable(rules[i], namespace, labels)
    {
      FirstMatchIsFirst(rules, namespace, labels, StripPort(host), port, verb, path);
      var i: nat :| FirstAt(rules, i, namespace, labels, StripPort(host), port, verb, path);
      MatchedIsMatchable(rules[i], namespace, labels, host, port, verb, path);
      assert Reachable(rules[i], namespace, labels);
    }
  }

  /** The attachment gate and the request gate agree: when every rule can be matched, a pod is covered
      exactly if some request of it would be matched. */
  lemma {:induction false} CoveredIffSomeMatch(rules: seq<Rule>, namespace: string, labels: Labels)
    requires forall i :: 0 <= i < |rules| ==> Matchable(rules[i])
    ensures Covered(rules, namespace, labels) <==>
      exists host, port, verb, path :: DeliveredMatch(rules, namespace, labels, host, port, verb, path)
  {
    SomeMatchIff(rules, namespace, labels);
    CoveredIff(rules, namespace, labels);
    assert Covered(rules, namespace, labels) <==> exists i :: 0 <= i < |rules| && Reachable(rules[i], namespace, labels);
  }

  /** A rule whose only path lacks its slash covers pods and matches nothing. */
  lemma {:induction false} PathWithoutSlash(r: Rule, namespace: string, labels: Labels)
    requires r.paths == ["api"] && ForPod(r, namespace, labels)
    ensures Covered([r], namespace, labels)
    ensures forall host, port, verb, path :: !DeliveredMatch([r], namespace, labels, host, port, verb, path)
  {
    NotAPathPrefix(r.paths[0]);
    SomeMatchIff([r], namespace, labels);
    CoveredIff([r], namespace, labels);
    assert [r][0] == r;
  }

  lemma {:induction false} NotAPathPrefix(p: string)
    requires p == "api"
    ensures !PathPrefix(p)
  {
    assert p[0] == 'a' && |p| == 3;
    assert p[..1][0] == 'a' && "/"[0] == '/';
  }

  lemma {:induction false} UnreachableRuleExample()
    ensures !Addressable("[::1]:80")
  {
    var s := "[::1]:80";
    BracketsSplit(s);
    assert s[0] == '[';
  }

  lemma {:induction false} BracketsSplit(s: string)
    requires s == "[::1]:80"
    ensures SplitHostPort(s).Some?
  {
    assert s[4] == ']' && s[5] == ':' && s[6] == '8' && s[7] == '0';
    assert LastIndexOf(s, ':') == Some(5);
    assert forall k :: 0 <= k < 4 ==> s[k] != ']';
    assert IndexOf(s, ']') == Some(4);
    assert s[1..] == "::1]:80" && s[5..] == ":80";
  }
}
