/** HTTP values as the proxy sees them: header maps with Go's canonical names, requests and
    responses. A header value is a line of text; `Get` returns the first line of a field. */
module Http {
  import opened Text

  type Headers = map<string, seq<string>>

  /** The bytes `net/textproto` allows in a field name: an RFC 9110 token. */
  predicate IsTokenChar(c: char) {
    'a' <= c <= 'z' || 'A' <= c <= 'Z' || IsDigit(c) ||
    c in {'!', '#', '$', '%', '&', '\'', '*', '+', '-', '.', '^', '_', '`', '|', '~'}
  }

  predicate IsToken(s: string) {
    forall i :: 0 <= i < |s| ==> IsTokenChar(s[i])
  }

  function CanonicalFrom(s: string, upper: bool): (r: string)
    ensures |r| == |s|
  {
    if |s| == 0 then []
    else [if upper then UpperChar(s[0]) else LowerChar(s[0])] + CanonicalFrom(s[1..], s[0] == '-')
  }

  /** `http.CanonicalHeaderKey`: names that are not tokens are left alone. */
  function Canonical(name: string): string {
    if IsToken(name) then CanonicalFrom(name, true) else name
  }

  lemma {:induction false} CanonicalFromTwice(s: string, upper: bool)
    requires IsToken(s)
    ensures IsToken(CanonicalFrom(s, upper))
    ensures CanonicalFrom(CanonicalFrom(s, upper), upper) == CanonicalFrom(s, upper)
  {
    if |s| > 0 {
      var r := CanonicalFrom(s, upper);
      CanonicalFromTwice(s[1..], s[0] == '-');
      assert r[1..] == CanonicalFrom(s[1..], s[0] == '-');
      assert (r[0] == '-') == (s[0] == '-');
      assert forall i :: 0 < i < |r| ==> r[i] == r[1..][i - 1];
    }
  }

  lemma CanonicalTwice(name: string)
    ensures Canonical(Canonical(name)) == Canonical(name)
  {
    if IsToken(name) {
      CanonicalFromTwice(name, true);
    }
  }

  /** Canonicalising neither removes nor introduces a character that no letter maps to. */
  lemma {:induction false} CanonicalFromLacks(s: string, upper: bool, c: char)
    requires !('a' <= c <= 'z') && !('A' <= c <= 'Z')
    ensures Lacks(CanonicalFrom(s, upper), c) <==> Lacks(s, c)
  {
    if |s| > 0 {
      var r := CanonicalFrom(s, upper);
      CanonicalFromLacks(s[1..], s[0] == '-', c);
      assert r[1..] == CanonicalFrom(s[1..], s[0] == '-');
      assert r == [r[0]] + r[1..] && s == [s[0]] + s[1..];
      assert (r[0] == c) == (s[0] == c);
      LacksCons(r, c);
      LacksCons(s, c);
    }
  }

  lemma LacksCons(s: string, c: char)
    requires |s| > 0
    ensures Lacks(s, c) <==> s[0] != c && Lacks(s[1..], c)
  {
    assert forall i :: 0 < i < |s| ==> s[i] == s[1..][i - 1];
  }

  /** `Header.Get`: the first field line only. */
  function Get(h: Headers, name: string): string {
    var k := Canonical(name);
    if k in h && |h[k]| > 0 then h[k][0] else ""
  }

  /** `Header.Set`. */
  function Set(h: Headers, name: string, value: string): Headers {
    h[Canonical(name) := [value]]
  }

  /** The characters of a token, as RFC 9110 section 5.6.2 has them: all visible ASCII but the delimiters. */
  lemma {:induction false} TokenCharIff(c: char)
    ensures IsTokenChar(c) <==>
              33 <= c as int <= 126 &&
              c !in {'"', '(', ')', ',', '/', ':', ';', '<', '=', '>', '?', '@', '[', '\\', ']', '{', '}'}
  {}

  /** A capital at the start and behind every hyphen, small letters elsewhere. */
  predicate Capitalised(name: string, r: string) {
    && |r| == |name|
    && forall i :: 0 <= i < |name| ==>
         r[i] as int == if (i == 0 || name[i - 1] == '-') && 'a' <= name[i] <= 'z' then name[i] as int - 32
                        else if i > 0 && name[i - 1] != '-' && 'A' <= name[i] <= 'Z' then name[i] as int + 32
                        else name[i] as int
  }

  lemma {:induction false} CanonicalFromMeans(s: string, upper: bool, i: nat)
    requires i < |s|
    ensures CanonicalFrom(s, upper)[i] ==
            if (if i == 0 then upper else s[i - 1] == '-') then UpperChar(s[i]) else LowerChar(s[i])
  {
    if i > 0 {
      CanonicalFromMeans(s[1..], s[0] == '-', i - 1);
    }
  }

  /** What a header name is looked up as. */
  lemma {:induction false} CanonicalMeans(name: string)
    ensures IsToken(name) ==> Capitalised(name, Canonical(name))
    ensures !IsToken(name) ==> Canonical(name) == name
  {
    forall i | 0 <= i < |name| ensures CanonicalFrom(name, true)[i] ==
            if i == 0 || name[i - 1] == '-' then UpperChar(name[i]) else LowerChar(name[i]) {
      CanonicalFromMeans(name, true, i);
    }
  }

  /** The first line of a field filed under just this name; nothing if there is none. */
  function FirstLine(h: Headers, name: string): string {
    if name in h && |h[name]| > 0 then h[name][0] else ""
  }

  /** The names the proxy asks for or sets. */
  predicate OwnName(name: string) {
    name == "Cache-Control" || name == "Vary" || name == "Connection" || name == "X-Cache"
  }

  lemma {:induction false} OwnNamesAreCanonical(name: string)
    requires OwnName(name)
    ensures Canonical(name) == name
  {
    ProperIsCanonical(name);
  }

  /** Words of letters, capitalised, with hyphens in between. */
  predicate Proper(s: string) {
    && (|s| > 0 ==> 'A' <= s[0] <= 'Z')
    && forall i :: 0 < i < |s| ==> if s[i - 1] == '-' then 'A' <= s[i] <= 'Z' else 'a' <= s[i] <= 'z' || s[i] == '-'
  }

  lemma {:induction false} ProperIsCanonical(s: string)
    requires Proper(s)
    ensures Canonical(s) == s
  {
    forall i | 0 <= i < |s| ensures CanonicalFrom(s, true)[i] == s[i] {
      CanonicalFromMeans(s, true, i);
    }
  }

  lemma {:induction false} GetCanonical(h: Headers, name: string)
    requires Canonical(name) == name
    ensures Get(h, name) == FirstLine(h, name)
  {}

  lemma {:induction false} GetOwn(h: Headers, name: string)
    requires OwnName(name)
    ensures Get(h, name) == FirstLine(h, name)
  {
    OwnNamesAreCanonical(name);
  }

  lemma {:induction false} SetOwn(h: Headers, name: string, value: string)
    requires OwnName(name)
    ensures Set(h, name, value) == h[name := [value]]
  {
    OwnNamesAreCanonical(name);
  }

  datatype Request = Request(
    host: string,      // the Host header, "" if absent
    urlHost: string,   // host part of an absolute request URI
    verb: string,      // the request method
    uri: string,       // URL.RequestURI()
    path: string,      // URL.Path
    headers: Headers,
    body: string)

  /** The request as `fetchUpstream` writes it. */
  function Sent(req: Request): Request {
    req.(headers := Set(req.headers, "Connection", "close"))
  }

  datatype Response = Response(status: int, headers: Headers, proto: string, body: string)

  predicate IsBlank(c: char) {
    c == ' ' || c == '\t'
  }

  /** A field name as the reader accepts it: token characters, and blanks behind the first. */
  predicate FieldName(s: string) {
    |s| > 0 && s[0] != ' ' && forall i :: 0 <= i < |s| ==> IsTokenChar(s[i]) || s[i] == ' '
  }

  /** A field value as the reader delivers it: one line without blanks around it. */
  predicate FieldValue(s: string) {
    Lacks(s, '\n') && (|s| > 0 ==> !IsBlank(s[0]) && !IsBlank(s[|s| - 1]))
  }

  /** What `http.ReadRequest` guarantees about a parsed request. */
  ghost predicate Parsed(req: Request) {
    && Lacks(req.host, '\n') && Lacks(req.urlHost, '\n') && Lacks(req.verb, '\n') && Lacks(req.uri, '\n')
    && (forall k :: k in req.headers ==> FieldName(k))
    && forall k, i :: k in req.headers && 0 <= i < |req.headers[k]| ==> FieldValue(req.headers[k][i])
  }

  lemma {:induction false} CanonicalFieldName(name: string)
    ensures FieldName(Canonical(name)) <==> FieldName(name)
  {
    if IsToken(name) {
      CanonicalFromTwice(name, true);
    }
  }

  /** Only field names have values. */
  lemma {:induction false} GetDelivered(req: Request, name: string)
    requires Parsed(req)
    ensures FieldValue(Get(req.headers, name)) && (Get(req.headers, name) != "" ==> FieldName(name))
  {
    CanonicalFieldName(name);
  }

  lemma {:induction false} SetIsParsed(req: Request, name: string, value: string)
    requires Parsed(req) && FieldName(name) && FieldValue(value)
    ensures Parsed(req.(headers := Set(req.headers, name, value)))
  {
    CanonicalFieldName(name);
  }

  lemma {:induction false} LettersAreFieldName(s: string)
    requires |s| > 0 && forall i :: 0 <= i < |s| ==> 'a' <= s[i] <= 'z' || 'A' <= s[i] <= 'Z'
    ensures FieldName(s)
  {}

  lemma {:induction false} SentIsParsed(req: Request)
    requires Parsed(req)
    ensures Parsed(Sent(req))
  {
    LettersAreFieldName("Connection");
    SetIsParsed(req, "Connection", "close");
  }
}
