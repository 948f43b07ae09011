/** internal/cachekey: the text that is hashed into a cache key, and why it identifies what it
    was made from. SHA-256 is taken to be injective, so a key is its pre-image. */
module CacheKey {
  import opened Text
  import opened Http

  datatype Config = Config(includeBody: bool, varyHeaders: seq<string>, port: nat)

  type Pair = (string, string)

  function KeyHost(req: Request): string {
    if req.host == "" then req.urlHost else req.host
  }

  /** One line of the form tag + value, followed by more text. */
  function Field(tag: string, value: string, rest: string): string {
    tag + (value + ['\n'] + rest)
  }

  /** The four lines every key starts with, followed by `tail`. */
  function Head(host: string, verb: string, uri: string, port: nat, tail: string): string {
    Field("host=", host, Field("method=", verb, Field("path=", uri, Field("port=", Decimal(port), tail))))
  }

  function BodyPart(body: string, cfg: Config): string {
    if cfg.includeBody && |body| > 0 then body + "\n" else ""
  }

  function Pairs(req: Request, names: seq<string>): (r: seq<Pair>)
    ensures |r| == |names|
    ensures forall i :: 0 <= i < |names| ==> r[i] == (names[i], Get(req.headers, names[i]))
  {
    seq(|names|, i requires 0 <= i < |names| => (names[i], Get(req.headers, names[i])))
  }

  function Line(p: Pair): string {
    p.0 + "=" + p.1
  }

  function PairLines(ps: seq<Pair>): (r: seq<string>)
    ensures |r| == |ps|
    ensures forall i :: 0 <= i < |ps| ==> r[i] == Line(ps[i])
  {
    seq(|ps|, i requires 0 <= i < |ps| => Line(ps[i]))
  }

  function Lines(ls: seq<string>): string {
    if |ls| == 0 then "" else ls[0] + "\n" + Lines(ls[1..])
  }

  function VaryPart(req: Request, names: seq<string>): string {
    Lines(SortStrings(PairLines(Pairs(req, names))))
  }

  function Preimage(req: Request, body: string, cfg: Config): string {
    Head(KeyHost(req), req.verb, req.uri, cfg.port, BodyPart(body, cfg) + VaryPart(req, cfg.varyHeaders))
  }

  /** The text of a key about one header, spelled out. */
  lemma {:induction false} KeyText(req: Request, body: string, cfg: Config, name: string)
    requires cfg.varyHeaders == [name]
    ensures Preimage(req, body, cfg) ==
            "host=" + (if req.host == "" then req.urlHost else req.host) + "\nmethod=" + req.verb + "\npath=" + req.uri
            + "\nport=" + Decimal(cfg.port) + "\n" + (if cfg.includeBody && body != "" then body + "\n" else "")
            + name + "=" + Get(req.headers, name) + "\n"
  {
    OneLine(req, name);
    var tail := BodyPart(body, cfg) + VaryPart(req, [name]);
    HeadText(KeyHost(req), req.verb, req.uri, cfg.port, tail);
  }

  lemma {:induction false} OneLine(req: Request, name: string)
    ensures VaryPart(req, [name]) == name + "=" + Get(req.headers, name) + "\n"
  {
    var line := name + "=" + Get(req.headers, name);
    assert PairLines(Pairs(req, [name])) == [line];
    assert SortStrings([line]) == [line];
    assert Lines([line]) == line + "\n" + Lines([]);
  }

  lemma {:induction false} HeadText(host: string, verb: string, uri: string, port: nat, tail: string)
    ensures Head(host, verb, uri, port, tail) ==
            "host=" + host + "\nmethod=" + verb + "\npath=" + uri + "\nport=" + Decimal(port) + "\n" + tail
  {}

  lemma {:induction false} LinesAppend(ls: seq<string>, l: string)
    ensures Lines(ls + [l]) == Lines(ls) + l + "\n"
  {
    if |ls| == 0 {
      assert ls + [l] == [l];
    } else {
      assert (ls + [l])[1..] == ls[1..] + [l];
      LinesAppend(ls[1..], l);
    }
  }

  lemma FieldAppend(tag: string, value: string, rest: string, more: string)
    ensures Field(tag, value, rest) + more == Field(tag, value, rest + more)
  {}

  lemma HeadAppend(host: string, verb: string, uri: string, port: nat, tail: string, more: string)
    ensures Head(host, verb, uri, port, tail) + more == Head(host, verb, uri, port, tail + more)
  {
    var f4 := Field("port=", Decimal(port), tail);
    var f3 := Field("path=", uri, f4);
    var f2 := Field("method=", verb, f3);
    FieldAppend("port=", Decimal(port), tail, more);
    FieldAppend("path=", uri, f4, more);
    FieldAppend("method=", verb, f3, more);
    FieldAppend("host=", host, f2, more);
  }

  /** The vary lines are written one by one behind what is there. */
  method WriteLines(h: string, lines: seq<string>) returns (r: string)
    ensures r == h + Lines(lines)
  {
    r := h;
    for i := 0 to |lines|
      invariant r == h + Lines(lines[..i])
    {
      LinesAppend(lines[..i], lines[i]);
      assert lines[..i + 1] == lines[..i] + [lines[i]];
      r := r + (lines[i] + "\n");
    }
    assert lines[..|lines|] == lines;
  }

  method CollectPairs(req: Request, names: seq<string>) returns (pairs: seq<string>)
    ensures pairs == PairLines(Pairs(req, names))
  {
    pairs := [];
    for i := 0 to |names|
      invariant |pairs| == i
      invariant forall j :: 0 <= j < i ==> pairs[j] == Line((names[j], Get(req.headers, names[j])))
    {
      pairs := pairs + [names[i] + "=" + Get(req.headers, names[i])];
    }
  }

  /** The key generator: chunks are written to the hasher one after the other. */
  method Generate(req: Request, body: string, cfg: Config) returns (key: string)
    ensures key == Preimage(req, body, cfg)
  {
    var host := req.host;
    if host == "" {
      host := req.urlHost;
    }
    var h := Head(host, req.verb, req.uri, cfg.port, "");
    if cfg.includeBody && |body| > 0 {
      HeadAppend(host, req.verb, req.uri, cfg.port, "", body + "\n");
      h := h + (body + "\n");
    }
    ghost var part := BodyPart(body, cfg);
    assert "" + part == part;
    assert h == Head(host, req.verb, req.uri, cfg.port, part);
    if |cfg.varyHeaders| > 0 {
      var pairs := CollectPairs(req, cfg.varyHeaders);
      pairs := SortStrings(pairs);
      HeadAppend(host, req.verb, req.uri, cfg.port, part, Lines(pairs));
      h := WriteLines(h, pairs);
    } else {
      assert part + VaryPart(req, cfg.varyHeaders) == part;
    }
    key := h;
  }

  // ----- unique decoding ----------------------------------------------------------------------

  predicate NewlineFree(ls: seq<string>) {
    forall i :: 0 <= i < |ls| ==> Lacks(ls[i], '\n')
  }

  predicate PlainName(name: string) {
    Lacks(name, '=') && Lacks(name, '\n')
  }

  predicate PlainNames(names: seq<string>) {
    forall i :: 0 <= i < |names| ==> PlainName(names[i])
  }

  /** Text up to the first separator is determined. */
  lemma FirstField(a: string, x: string, b: string, y: string, c: char)
    requires Lacks(a, c) && Lacks(b, c)
    requires a + [c] + x == b + [c] + y
    ensures a == b && x == y
  {
    IndexAfterPrefix(a, c, x);
    IndexAfterPrefix(b, c, y);
    assert a == (a + [c] + x)[..|a|] && b == (b + [c] + y)[..|b|];
    assert x == (a + [c] + x)[|a| + 1..] && y == (b + [c] + y)[|b| + 1..];
  }

  lemma CancelPrefix(p: string, x: string, y: string)
    requires p + x == p + y
    ensures x == y
  {
    assert x == (p + x)[|p|..] && y == (p + y)[|p|..];
  }

  lemma DecimalPlain(n: nat)
    ensures Lacks(Decimal(n), '\n')
  {}

  lemma FieldDetermined(tag: string, v: string, x: string, w: string, y: string)
    requires Lacks(v, '\n') && Lacks(w, '\n')
    requires Field(tag, v, x) == Field(tag, w, y)
    ensures v == w && x == y
  {
    CancelPrefix(tag, v + ['\n'] + x, w + ['\n'] + y);
    FirstField(v, x, w, y, '\n');
  }

  lemma HeadDetermined(h1: string, m1: string, u1: string, p1: nat, t1: string,
                       h2: string, m2: string, u2: string, p2: nat, t2: string)
    requires Lacks(h1, '\n') && Lacks(m1, '\n') && Lacks(u1, '\n')
    requires Lacks(h2, '\n') && Lacks(m2, '\n') && Lacks(u2, '\n')
    requires Head(h1, m1, u1, p1, t1) == Head(h2, m2, u2, p2, t2)
    ensures h1 == h2 && m1 == m2 && u1 == u2 && p1 == p2 && t1 == t2
  {
    DecimalPlain(p1);
    DecimalPlain(p2);
    var d1, d2 := Field("port=", Decimal(p1), t1), Field("port=", Decimal(p2), t2);
    var c1, c2 := Field("path=", u1, d1), Field("path=", u2, d2);
    FieldDetermined("host=", h1, Field("method=", m1, c1), h2, Field("method=", m2, c2));
    FieldDetermined("method=", m1, c1, m2, c2);
    FieldDetermined("path=", u1, d1, u2, d2);
    FieldDetermined("port=", Decimal(p1), t1, Decimal(p2), t2);
    DigitsOfDecimal(p1);
    DigitsOfDecimal(p2);
  }

  lemma {:induction false} LinesDetermined(a: seq<string>, b: seq<string>)
    requires NewlineFree(a) && NewlineFree(b)
    requires Lines(a) == Lines(b)
    ensures a == b
  {
    if |a| > 0 && |b| > 0 {
      FirstField(a[0], Lines(a[1..]), b[0], Lines(b[1..]), '\n');
      LinesDetermined(a[1..], b[1..]);
      assert a == [a[0]] + a[1..] && b == [b[0]] + b[1..];
    }
  }

  /** A text that is empty or ends a line. */
  predicate EndsLine(s: string) {
    |s| == 0 || s[|s| - 1] == '\n'
  }

  lemma LastLine(x: string, a: string, y: string, b: string)
    requires EndsLine(x) && EndsLine(y) && Lacks(a, '\n') && Lacks(b, '\n')
    requires x + a + "\n" == y + b + "\n"
    ensures x == y && a == b
  {
    var s, t := x + a, y + b;
    assert s == (x + a + "\n")[..|s|] && t == (y + b + "\n")[..|t|];
    assert s == t;
    LastLineAt(x, a, y, b);
    LastLineAt(y, b, x, a);
    assert x == s[..|x|] && y == t[..|y|];
    assert a == s[|x|..] && b == t[|y|..];
  }

  lemma LastLineAt(x: string, a: string, y: string, b: string)
    requires EndsLine(x) && Lacks(b, '\n')
    requires x + a == y + b
    ensures |x| <= |y|
  {
    if |x| > 0 {
      assert (x + a)[|x| - 1] == '\n';
      assert forall i :: |y| <= i < |y + b| ==> (y + b)[i] == b[i - |y|];
    }
  }

  lemma {:induction false} LinesEndLine(ls: seq<string>, x: string)
    requires EndsLine(x)
    ensures EndsLine(x + Lines(ls))
  {
    if |ls| > 0 {
      LinesEndLine(ls[1..], x + ls[0] + "\n");
      assert x + Lines(ls) == x + ls[0] + "\n" + Lines(ls[1..]);
    }
  }

  lemma LinesAppendAfter(x: string, ls: seq<string>, l: string)
    ensures x + Lines(ls + [l]) == x + Lines(ls) + l + "\n"
  {
    LinesAppend(ls, l);
  }

  /** With equally many lines behind it, a line-ended text of any content is determined. */
  lemma {:induction false} PrefixDetermined(x: string, a: seq<string>, y: string, b: seq<string>)
    requires EndsLine(x) && EndsLine(y) && NewlineFree(a) && NewlineFree(b)
    requires |a| == |b|
    requires x + Lines(a) == y + Lines(b)
    ensures x == y && a == b
  {
    if |a| > 0 {
      var n := |a| - 1;
      var c, d := a[..n], b[..n];
      assert a == c + [a[n]] && b == d + [b[n]];
      LinesAppendAfter(x, c, a[n]);
      LinesAppendAfter(y, d, b[n]);
      LinesEndLine(c, x);
      LinesEndLine(d, y);
      LastLine(x + Lines(c), a[n], y + Lines(d), b[n]);
      PrefixDetermined(x, c, y, d);
    } else {
      assert x + Lines(a) == x && y + Lines(b) == y;
    }
  }

  /** A name and a value a request may have for it: only field names have values. */
  predicate Delivered(p: Pair) {
    Lacks(p.0, '\n') && FieldValue(p.1) && (p.1 != "" ==> FieldName(p.0))
  }

  /** The one name goes on with '=' where the other, a field name, ends, and no blank follows. */
  predicate Extends(n: string, m: string) {
    HasPrefix(n, m + "=") && FieldName(m) && (|n| > |m| + 1 ==> !IsBlank(n[|m| + 1]))
  }

  /** Lines of the two names can be equal. */
  predicate Confusable(n: string, m: string) {
    Extends(n, m) || Extends(m, n)
  }

  lemma {:induction false} LineDetermined(p: Pair, q: Pair)
    requires Delivered(p) && Delivered(q) && !Confusable(p.0, q.0)
    requires Line(p) == Line(q)
    ensures p == q
  {
    if |p.0| < |q.0| {
      ShorterNameConfuses(p, q);
    } else if |q.0| < |p.0| {
      ShorterNameConfuses(q, p);
    } else {
      assert p.0 == Line(p)[..|p.0|] && p.1 == Line(p)[|p.0| + 1..];
      assert q.0 == Line(q)[..|q.0|] && q.1 == Line(q)[|q.0| + 1..];
    }
  }

  /** A longer name that writes the same line holds '=', so it has no value, and the shorter one has
      what is left of it. */
  lemma {:induction false} ShorterNameConfuses(p: Pair, q: Pair)
    requires Delivered(p) && Delivered(q)
    requires |p.0| < |q.0| && Line(p) == Line(q)
    ensures Extends(q.0, p.0)
  {
    var n := |p.0|;
    assert Line(p)[..n + 1] == p.0 + "=";
    assert q.0[..n + 1] == Line(q)[..n + 1];
    assert q.0[n] == '=' && !FieldName(q.0);
    assert Line(q) == q.0 + "=";
    assert p.1 == Line(p)[n + 1..];
    assert |q.0| > n + 1 ==> p.1[0] == q.0[n + 1];
  }

  predicate SameLine(n: string, v: string, m: string, w: string) {
    Delivered((n, v)) && Delivered((m, w)) && Line((n, v)) == Line((m, w))
  }

  /** Exactly the confusable names write equal lines with some values. */
  lemma {:induction false} ConfusableIffLinesCollide(n: string, m: string)
    requires n != m && Lacks(n, '\n') && Lacks(m, '\n')
    ensures (exists v, w :: SameLine(n, v, m, w)) <==> Confusable(n, m)
  {
    if Confusable(n, m) {
      var v, w := CollidingValues(n, m);
    } else {
      forall v, w ensures !SameLine(n, v, m, w) {
        if SameLine(n, v, m, w) {
          LineDetermined((n, v), (m, w));
        }
      }
    }
  }

  lemma {:induction false} CollidingValues(n: string, m: string) returns (v: string, w: string)
    requires Confusable(n, m) && Lacks(n, '\n') && Lacks(m, '\n')
    ensures SameLine(n, v, m, w)
  {
    if Extends(n, m) {
      v := "";
      w := RestValue(n, m);
    } else {
      v := RestValue(m, n);
      w := "";
    }
  }

  /** The value with which the shorter name writes the line of the longer. */
  lemma {:induction false} RestValue(n: string, m: string) returns (w: string)
    requires Extends(n, m) && Lacks(n, '\n')
    ensures Delivered((m, w)) && Line((n, "")) == Line((m, w))
  {
    var t := n[|m| + 1..];
    assert n == m + "=" + t;
    w := t + "=";
  }

  /** No name of the one list can be taken for a different one of the other. */
  ghost predicate Unconfused(a: seq<string>, b: seq<string>) {
    forall i, j :: 0 <= i < |a| && 0 <= j < |b| ==> !Confusable(a[i], b[j])
  }

  predicate CleanPairs(ps: seq<Pair>) {
    forall i :: 0 <= i < |ps| ==> Delivered(ps[i])
  }

  ghost predicate UnconfusedPairs(ps: seq<Pair>, qs: seq<Pair>) {
    forall i, j :: 0 <= i < |ps| && 0 <= j < |qs| ==> !Confusable(ps[i].0, qs[j].0)
  }

  /** Equal lines come from equal pairs, with their multiplicities. */
  lemma {:induction false} LinesGivePairs(ps: seq<Pair>, qs: seq<Pair>)
    requires CleanPairs(ps) && CleanPairs(qs) && UnconfusedPairs(ps, qs)
    requires multiset(PairLines(ps)) == multiset(PairLines(qs))
    ensures multiset(ps) == multiset(qs)
  {
    SameLength(PairLines(ps), PairLines(qs));
    if |ps| > 0 {
      assert PairLines(ps)[0] in multiset(PairLines(qs));
      var k :| 0 <= k < |qs| && PairLines(qs)[k] == Line(ps[0]);
      LineDetermined(ps[0], qs[k]);
      LinesWithout(ps, 0, qs, k);
      LinesGivePairs(RemoveAt(ps, 0), RemoveAt(qs, k));
      RemoveAtMultiset(ps, 0);
      RemoveAtMultiset(qs, k);
    }
  }

  lemma {:induction false} LinesWithout(ps: seq<Pair>, j: nat, qs: seq<Pair>, k: nat)
    requires j < |ps| && k < |qs| && ps[j] == qs[k]
    requires multiset(PairLines(ps)) == multiset(PairLines(qs))
    ensures multiset(PairLines(RemoveAt(ps, j))) == multiset(PairLines(RemoveAt(qs, k)))
  {
    assert PairLines(RemoveAt(ps, j)) == RemoveAt(PairLines(ps), j);
    assert PairLines(RemoveAt(qs, k)) == RemoveAt(PairLines(qs), k);
    RemoveSame(PairLines(ps), j, PairLines(qs), k);
  }

  /** The lines determine the pairs with their multiplicities, and conversely. */
  lemma {:induction false} LinesIffPairs(ps: seq<Pair>, qs: seq<Pair>)
    requires CleanPairs(ps) && CleanPairs(qs) && UnconfusedPairs(ps, qs)
    ensures multiset(PairLines(ps)) == multiset(PairLines(qs)) <==> multiset(ps) == multiset(qs)
  {
    if multiset(PairLines(ps)) == multiset(PairLines(qs)) {
      LinesGivePairs(ps, qs);
    }
    if multiset(ps) == multiset(qs) {
      MapLines(ps, qs);
    }
  }

  lemma {:induction false} PairLinesPick(ps: seq<Pair>, k: nat)
    requires k < |ps|
    ensures multiset(PairLines(ps)) == multiset{Line(ps[k])} + multiset(PairLines(RemoveAt(ps, k)))
  {
    assert PairLines(RemoveAt(ps, k)) == RemoveAt(PairLines(ps), k);
    RemoveAtMultiset(PairLines(ps), k);
  }

  lemma {:induction false} MapLines(ps: seq<Pair>, qs: seq<Pair>)
    requires multiset(ps) == multiset(qs)
    ensures multiset(PairLines(ps)) == multiset(PairLines(qs))
  {
    SameLength(ps, qs);
    if |ps| > 0 {
      assert ps[0] in multiset(qs);
      var k :| 0 <= k < |qs| && qs[k] == ps[0];
      RemoveSame(ps, 0, qs, k);
      MapLines(RemoveAt(ps, 0), RemoveAt(qs, k));
      PairLinesPick(ps, 0);
      PairLinesPick(qs, k);
    }
  }

  lemma {:induction false} PairsClean(req: Request, names: seq<string>)
    requires Parsed(req) && NewlineFree(names)
    ensures CleanPairs(Pairs(req, names))
  {
    forall i | 0 <= i < |names| ensures Delivered((names[i], Get(req.headers, names[i]))) {
      GetDelivered(req, names[i]);
    }
  }

  lemma LineClean(p: Pair)
    requires Delivered(p)
    ensures Lacks(Line(p), '\n')
  {}

  lemma {:induction false} SortedLinesClean(ps: seq<Pair>)
    requires CleanPairs(ps)
    ensures NewlineFree(SortStrings(PairLines(ps)))
  {
    var ls := SortStrings(PairLines(ps));
    forall i | 0 <= i < |ls| ensures Lacks(ls[i], '\n') {
      assert ls[i] in multiset(PairLines(ps));
      var j :| 0 <= j < |ps| && PairLines(ps)[j] == ls[i];
      LineClean(ps[j]);
    }
  }

  /** What a key without a body stands for. */
  ghost predicate SameTarget(r1: Request, c1: Config, r2: Request, c2: Config) {
    && (if r1.host == "" then r1.urlHost else r1.host) == (if r2.host == "" then r2.urlHost else r2.host)
    && r1.verb == r2.verb && r1.uri == r2.uri && c1.port == c2.port
    && multiset(Pairs(r1, c1.varyHeaders)) == multiset(Pairs(r2, c2.varyHeaders))
  }

  /** Two keys without bodies are equal exactly when host, method, URI, port and the (name, value)
      pairs with their multiplicities are equal, whatever the two Vary lists are, as long as no name
      of the one can be taken for a name of the other. */
  lemma {:induction false} KeyIffSameTarget(r1: Request, b1: string, c1: Config, r2: Request, b2: string, c2: Config)
    requires Parsed(r1) && Parsed(r2) && NewlineFree(c1.varyHeaders) && NewlineFree(c2.varyHeaders)
    requires Unconfused(c1.varyHeaders, c2.varyHeaders)
    requires BodyPart(b1, c1) == "" && BodyPart(b2, c2) == ""
    ensures Preimage(r1, b1, c1) == Preimage(r2, b2, c2) <==> SameTarget(r1, c1, r2, c2)
  {
    var ps, qs := Pairs(r1, c1.varyHeaders), Pairs(r2, c2.varyHeaders);
    var ls, ms := SortStrings(PairLines(ps)), SortStrings(PairLines(qs));
    PairsClean(r1, c1.varyHeaders);
    PairsClean(r2, c2.varyHeaders);
    LinesIffPairs(ps, qs);
    assert "" + Lines(ls) == Lines(ls) && "" + Lines(ms) == Lines(ms);
    if Preimage(r1, b1, c1) == Preimage(r2, b2, c2) {
      HeadDetermined(KeyHost(r1), r1.verb, r1.uri, c1.port, Lines(ls),
                     KeyHost(r2), r2.verb, r2.uri, c2.port, Lines(ms));
      SortedLinesClean(ps);
      SortedLinesClean(qs);
      LinesDetermined(ls, ms);
    }
    if SameTarget(r1, c1, r2, c2) {
      SortedIsUnique(ls, ms);
    }
  }

  lemma BodyPartDetermined(b1: string, c1: Config, b2: string, c2: Config)
    requires c1.includeBody && c2.includeBody
    ensures EndsLine(BodyPart(b1, c1))
    ensures BodyPart(b1, c1) == BodyPart(b2, c2) <==> b1 == b2
  {
    var x, y := BodyPart(b1, c1), BodyPart(b2, c2);
    assert |b1| > 0 ==> b1 == x[..|x| - 1];
    assert |b2| > 0 ==> b2 == y[..|y| - 1];
  }

  /** With bodies keyed on both sides and equally many Vary names, the body is determined too. */
  lemma {:induction false} KeyIffSameTargetAndBody(r1: Request, b1: string, c1: Config, r2: Request, b2: string, c2: Config)
    requires Parsed(r1) && Parsed(r2) && NewlineFree(c1.varyHeaders) && NewlineFree(c2.varyHeaders)
    requires Unconfused(c1.varyHeaders, c2.varyHeaders)
    requires c1.includeBody && c2.includeBody && |c1.varyHeaders| == |c2.varyHeaders|
    ensures Preimage(r1, b1, c1) == Preimage(r2, b2, c2) <==> SameTarget(r1, c1, r2, c2) && b1 == b2
  {
    var ps, qs := Pairs(r1, c1.varyHeaders), Pairs(r2, c2.varyHeaders);
    var ls, ms := SortStrings(PairLines(ps)), SortStrings(PairLines(qs));
    var x, y := BodyPart(b1, c1), BodyPart(b2, c2);
    PairsClean(r1, c1.varyHeaders);
    PairsClean(r2, c2.varyHeaders);
    LinesIffPairs(ps, qs);
    BodyPartDetermined(b1, c1, b2, c2);
    BodyPartDetermined(b2, c2, b1, c1);
    if Preimage(r1, b1, c1) == Preimage(r2, b2, c2) {
      HeadDetermined(KeyHost(r1), r1.verb, r1.uri, c1.port, x + Lines(ls),
                     KeyHost(r2), r2.verb, r2.uri, c2.port, y + Lines(ms));
      SortedLinesClean(ps);
      SortedLinesClean(qs);
      SameLength(ls, PairLines(ps));
      SameLength(ms, PairLines(qs));
      PrefixDetermined(x, ls, y, ms);
    }
    if SameTarget(r1, c1, r2, c2) && b1 == b2 {
      SortedIsUnique(ls, ms);
    }
  }

  /** The order of the Vary list does not matter. */
  lemma VaryOrderIrrelevant(req: Request, names: seq<string>, names': seq<string>)
    requires multiset(names) == multiset(names')
    ensures multiset(Pairs(req, names)) == multiset(Pairs(req, names'))
    ensures VaryPart(req, names) == VaryPart(req, names')
  {
    PairsPermuted(req, names, names');
    MapLines(Pairs(req, names), Pairs(req, names'));
    SortedIsUnique(SortStrings(PairLines(Pairs(req, names))), SortStrings(PairLines(Pairs(req, names'))));
  }

  lemma {:induction false} PairsRemove(req: Request, names: seq<string>, k: nat)
    requires k < |names|
    ensures multiset(Pairs(req, names)) ==
            multiset(Pairs(req, RemoveAt(names, k))) + multiset{(names[k], Get(req.headers, names[k]))}
  {
    var ps := Pairs(req, names);
    RemoveAtMultiset(ps, k);
    assert Pairs(req, RemoveAt(names, k)) == RemoveAt(ps, k);
    assert ps[k] in multiset(ps);
  }

  lemma {:induction false} PairsPermuted(req: Request, names: seq<string>, names': seq<string>)
    requires multiset(names) == multiset(names')
    ensures multiset(Pairs(req, names)) == multiset(Pairs(req, names'))
  {
    SameLength(names, names');
    if |names| > 0 {
      assert names[0] in multiset(names');
      var k :| 0 <= k < |names'| && names'[k] == names[0];
      RemoveSame(names, 0, names', k);
      PairsPermuted(req, RemoveAt(names, 0), RemoveAt(names', k));
      PairsRemove(req, names, 0);
      PairsRemove(req, names', k);
    }
  }

  /** Equal pairs have equal names, with their multiplicities. */
  lemma {:induction false} PairsGiveNames(r1: Request, a: seq<string>, r2: Request, b: seq<string>)
    requires multiset(Pairs(r1, a)) == multiset(Pairs(r2, b))
    ensures multiset(a) == multiset(b)
  {
    SameLength(Pairs(r1, a), Pairs(r2, b));
    if |a| > 0 {
      var k := PairAmong(r1, a, r2, b);
      PairsGiveNames(r1, RemoveAt(a, 0), r2, RemoveAt(b, k));
      RemoveAtMultiset(a, 0);
      RemoveAtMultiset(b, k);
    }
  }

  lemma {:induction false} PairAmong(r1: Request, a: seq<string>, r2: Request, b: seq<string>) returns (k: nat)
    requires |a| > 0 && multiset(Pairs(r1, a)) == multiset(Pairs(r2, b))
    ensures k < |b| && b[k] == a[0]
    ensures multiset(Pairs(r1, RemoveAt(a, 0))) == multiset(Pairs(r2, RemoveAt(b, k)))
  {
    k := IndexOfSame(Pairs(r1, a), Pairs(r2, b));
    RemoveSame(Pairs(r1, a), 0, Pairs(r2, b), k);
    PairsOfRemoveAt(r1, a, 0);
    PairsOfRemoveAt(r2, b, k);
  }

  lemma {:induction false} IndexOfSame<T>(s: seq<T>, t: seq<T>) returns (k: nat)
    requires |s| > 0 && multiset(s) == multiset(t)
    ensures k < |t| && t[k] == s[0]
  {
    assert s[0] in multiset(t);
    k :| 0 <= k < |t| && t[k] == s[0];
  }

  lemma {:induction false} PairsOfRemoveAt(req: Request, names: seq<string>, k: nat)
    requires k < |names|
    ensures Pairs(req, RemoveAt(names, k)) == RemoveAt(Pairs(req, names), k)
  {}

  // ----- names that can be confused -----------------------------------------------------------------

  /** A request for nothing in particular, with a value for one name, "" for none. */
  function Bare(name: string, value: string): Request {
    Request("", "", "", "", "", if value == "" then map[] else map[Canonical(name) := [value]], "")
  }

  lemma {:induction false} BareIsParsed(name: string, value: string)
    requires Delivered((name, value))
    ensures Parsed(Bare(name, value)) && Get(Bare(name, value).headers, name) == value
  {
    CanonicalFieldName(name);
  }

  predicate SharedKey(r1: Request, n: string, r2: Request, m: string, port: nat) {
    Preimage(r1, "", Config(false, [n], port)) == Preimage(r2, "", Config(false, [m], port))
  }

  /** Exactly the confusable names let two different requests share a key. */
  lemma {:induction false} ConfusableIffKeysCollide(n: string, m: string, port: nat)
    requires n != m && Lacks(n, '\n') && Lacks(m, '\n')
    ensures (exists r1, r2 :: Parsed(r1) && Parsed(r2) && SharedKey(r1, n, r2, m, port)) <==> Confusable(n, m)
  {
    if Confusable(n, m) {
      var v, w := CollidingValues(n, m);
      CollidingRequests(n, v, m, w, port);
    } else {
      forall r1, r2 | Parsed(r1) && Parsed(r2) ensures !SharedKey(r1, n, r2, m, port) {
        KeyIffSameTarget(r1, "", Config(false, [n], port), r2, "", Config(false, [m], port));
        assert Pairs(r1, [n])[0] in multiset(Pairs(r1, [n]));
        assert forall p :: p in multiset(Pairs(r2, [m])) ==> p.0 == m;
      }
    }
  }

  lemma {:induction false} CollidingRequests(n: string, v: string, m: string, w: string, port: nat)
    requires SameLine(n, v, m, w)
    ensures Parsed(Bare(n, v)) && Parsed(Bare(m, w)) && SharedKey(Bare(n, v), n, Bare(m, w), m, port)
  {
    BareIsParsed(n, v);
    BareIsParsed(m, w);
    SameLineSameKey(Bare(n, v), n, Bare(m, w), m, "", "", port);
  }

  /** Requests for the same target whose one keyed header writes the same line share a key. */
  lemma {:induction false} SameLineSameKey(r1: Request, n: string, r2: Request, m: string, b1: string, b2: string, port: nat)
    requires KeyHost(r1) == KeyHost(r2) && r1.verb == r2.verb && r1.uri == r2.uri
    requires Line((n, Get(r1.headers, n))) == Line((m, Get(r2.headers, m)))
    ensures Preimage(r1, b1, Config(false, [n], port)) == Preimage(r2, b2, Config(false, [m], port))
  {
    assert PairLines(Pairs(r1, [n])) == [Line((n, Get(r1.headers, n)))];
    assert PairLines(Pairs(r2, [m])) == [Line((m, Get(r2.headers, m)))];
  }

  /** Two requests that differ in `A` and share a key: the one has `A: b=` and is keyed on `A`, the
      other has no `A` and is keyed on `A=b`. */
  lemma {:induction false} EqualsSignInNameIsAmbiguous()
    ensures var r1, r2 := Bare("A", "b="), Bare("A=b", "");
            && Parsed(r1) && Parsed(r2) && SharedKey(r1, "A", r2, "A=b", 80)
            && Get(r1.headers, "A") != Get(r2.headers, "A")
  {
    assert FieldName("A");
    assert Line(("A", "b=")) == Line(("A=b", ""));
    CollidingRequests("A", "b=", "A=b", "", 80);
    BareIsParsed("A", "b=");
  }

  /** Keyed bodies and vary lines are not kept apart: a request with the body `A=x`, keyed on its body
      and on no header, shares a key with a request without a body, keyed on its body and on `A`, that
      has `A: x`. */
  lemma {:induction false} BodyPassesForLine()
    ensures var r1, r2 := Bare("A", "").(body := "A=x"), Bare("A", "x");
            && Parsed(r1) && Parsed(r2) && r1.body != r2.body
            && Preimage(r1, r1.body, Config(true, [], 80)) == Preimage(r2, r2.body, Config(true, ["A"], 80))
  {
    assert FieldName("A");
    BareIsParsed("A", "x");
    var r2 := Bare("A", "x");
    assert Line(("A", "x")) == "A=x";
    assert PairLines(Pairs(r2, ["A"])) == [Line(("A", "x"))];
    assert Lines(["A=x"]) == "A=x" + "\n" + Lines([]);
    assert VaryPart(r2, ["A"]) == "A=x\n" && VaryPart(Bare("A", ""), []) == "";
  }

  /** Names without '=' are never confusable. */
  lemma {:induction false} PlainNamesDiffer(n: string, m: string)
    requires PlainName(n) && PlainName(m)
    ensures !Confusable(n, m)
  {
    if Confusable(n, m) {
      ConfusableHasEquals(n, m);
    }
  }

  lemma {:induction false} ConfusableHasEquals(n: string, m: string)
    requires Confusable(n, m)
    ensures !PlainName(n) || !PlainName(m)
  {
    if Extends(n, m) {
      assert n[|m|] == '=';
    } else {
      assert m[|n|] == '=';
    }
  }
}
