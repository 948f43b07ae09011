/** internal/tlsmitm/sni.go: the server name of a TLS ClientHello, read without consuming it. */
module Sni {
  import opened Bytes
  import opened Text

  /** A `bufio.Reader`: bytes waiting to be read, and the capacity of its buffer. */
  class Reader {
    var pending: seq<Byte>
    const size: nat

    constructor (stream: seq<Byte>, size: nat)
      ensures pending == stream && this.size == size
    {
      pending, this.size := stream, size;
    }

    /** `Peek(n)` fails when the stream ends early or `n` exceeds the buffer. */
    method Peek(n: nat) returns (data: seq<Byte>, ok: bool)
      ensures ok <==> n <= size && n <= |pending|
      ensures ok ==> data == pending[..n]
    {
      ok := n <= size && n <= |pending|;
      data := if ok then pending[..n] else [];
    }
  }

  datatype Result = PeekFailed | Name(name: seq<Byte>)

  const MAX_RECORD := 16384

  /** The extension loop from `pos` on; `Name([])` is the source's empty string. */
  function Scan(data: seq<Byte>, pos: nat, extEnd: nat): seq<Byte>
    requires extEnd <= |data|
    decreases |data| - pos
  {
    if pos + 4 > extEnd then []
    else
      var extType, extLen := Read16(data, pos), Read16(data, pos + 2);
      var p := pos + 4;
      if p + extLen > extEnd then []
      else if extType == 0 && extLen >= 5 then
        if data[p + 2] != 0 then []
        else
          var nameLen := Read16(data, p + 3);
          if p + 5 + nameLen > p + extLen then [] else data[p + 5..p + 5 + nameLen]
      else Scan(data, p + extLen, extEnd)
  }

  function FromExtensions(data: seq<Byte>, pos: nat): seq<Byte> {
    if pos + 2 > |data| then []
    else
      var end := pos + 2 + Read16(data, pos);
      Scan(data, pos + 2, if end > |data| then |data| else end)
  }

  /** The position behind a field with a one-byte length, unless the length is missing. */
  function Skip8(data: seq<Byte>, pos: nat): Option<nat> {
    if pos + 1 > |data| then None else Some(pos + 1 + data[pos])
  }

  function Skip16(data: seq<Byte>, pos: nat): Option<nat> {
    if pos + 2 > |data| then None else Some(pos + 2 + Read16(data, pos))
  }

  /** The position behind session id, cipher suites and compression methods. */
  function SkipFields(data: seq<Byte>, pos: nat): Option<nat> {
    match Skip8(data, pos)
    case None => None
    case Some(p) =>
      match Skip16(data, p)
      case None => None
      case Some(q) => Skip8(data, q)
  }

  function FromSessionId(data: seq<Byte>, pos: nat): seq<Byte> {
    match SkipFields(data, pos)
    case None => []
    case Some(p) => FromExtensions(data, p)
  }

  function ServerNameIn(pending: seq<Byte>, size: nat): Result {
    if 5 > size || 5 > |pending| then PeekFailed
    else if pending[0] != 0x16 then Name([])
    else
      var total := 5 + Read16(pending, 3);
      if total - 5 > MAX_RECORD || total > size || total > |pending| || total < 9 then Name([])
      else if pending[5] != 0x01 then Name([])
      else Name(FromSessionId(pending[..total], 5 + 4 + 2 + 32))
  }

  /** The cursor is advanced over the length-prefixed fields, then over the extensions. The
      reader is not in the frame: nothing is consumed. */
  method PeekSNI(r: Reader) returns (result: Result)
    ensures result == ServerNameIn(r.pending, r.size)
    ensures ReadsName(r.pending, r.size, result)
  {
    PeekMeans(r.pending, r.size);
    var hdr, ok := r.Peek(5);
    if !ok {
      return PeekFailed;
    }
    if hdr[0] != 0x16 {
      return Name([]);
    }
    var recLen := Read16(hdr, 3);
    if recLen > MAX_RECORD {
      return Name([]);
    }
    var data;
    data, ok := r.Peek(5 + recLen);
    if !ok || |data| < 9 {
      return Name([]);
    }
    if data[5] != 0x01 {
      return Name([]);
    }
    var name := ParseHello(data, 5 + 4 + 2 + 32);
    return Name(name);
  }

  /** The cursor moves over session id, cipher suites and compression methods. */
  method ParseHello(data: seq<Byte>, start: nat) returns (name: seq<Byte>)
    ensures name == FromSessionId(data, start)
  {
    var pos := start;
    if pos + 1 > |data| {
      return [];
    }
    var sidLen := data[pos];
    pos := pos + 1 + sidLen;
    if pos + 2 > |data| {
      return [];
    }
    var csLen := Read16(data, pos);
    pos := pos + 2 + csLen;
    if pos + 1 > |data| {
      return [];
    }
    var compLen := data[pos];
    pos := pos + 1 + compLen;
    assert SkipFields(data, start) == Some(pos);
    if pos + 2 > |data| {
      return [];
    }
    var extTotal := Read16(data, pos);
    pos := pos + 2;
    var extEnd := pos + extTotal;
    if extEnd > |data| {
      extEnd := |data|;
    }
    name := ScanExtensions(data, pos, extEnd);
  }

  method ScanExtensions(data: seq<Byte>, start: nat, extEnd: nat) returns (name: seq<Byte>)
    requires extEnd <= |data|
    ensures name == Scan(data, start, extEnd)
  {
    var pos := start;
    while pos + 4 <= extEnd
      invariant Scan(data, start, extEnd) == Scan(data, pos, extEnd)
      decreases |data| - pos
    {
      var extType := Read16(data, pos);
      var extLen := Read16(data, pos + 2);
      pos := pos + 4;
      if pos + extLen > extEnd {
        break;
      }
      if extType == 0 && extLen >= 5 {
        var p := pos + 2;
        if p + 3 > pos + extLen {
          break;
        }
        if data[p] != 0 {
          break;
        }
        var nameLen := Read16(data, p + 1);
        if p + 3 + nameLen > pos + extLen {
          break;
        }
        return data[p + 3..p + 3 + nameLen];
      }
      pos := pos + extLen;
    }
    return [];
  }

  // ----- a printer for ClientHello records --------------------------------------------------------

  /** RFC 8446 section 4.1.2; `announced` is the length given for the extensions, which may be more than
      there is. A server_name extension (RFC 6066 section 3) starts with a host name
      entry and may go on with anything, is too short for an entry, or starts with something else. */
  datatype Extension =
    | ServerName(name: seq<Byte>, more: seq<Byte>)
    | NoName(data: seq<Byte>)
    | BadName(data: seq<Byte>)
    | Other(kind: nat, data: seq<Byte>)

  datatype Hello = Hello(recordVersion: seq<Byte>, version: seq<Byte>, random: seq<Byte>, sessionId: seq<Byte>,
                         ciphers: seq<Byte>, compressions: seq<Byte>, extensions: seq<Extension>,
                         extensionsPresent: bool, announced: nat)

  predicate ExtensionFits(e: Extension) {
    match e
    case ServerName(name, more) => 5 + |name| + |more| < 0x1_0000
    case NoName(data) => |data| < 5
    case BadName(data) =>
      5 <= |data| < 0x1_0000 && (data[2] != 0 || 5 + 256 * (data[3] as int) + (data[4] as int) > |data|)
    case Other(kind, data) => 0 < kind < 0x1_0000 && |data| < 0x1_0000
  }

  function ExtensionData(e: Extension): (r: seq<Byte>)
    requires ExtensionFits(e)
    ensures |r| < 0x1_0000
  {
    match e
    case ServerName(name, more) => BE16(3 + |name| + |more|) + ([0] + (BE16(|name|) + (name + more)))
    case NoName(data) => data
    case BadName(data) => data
    case Other(kind, data) => data
  }

  function ExtensionBytes(e: Extension): seq<Byte>
    requires ExtensionFits(e)
  {
    BE16(if e.Other? then e.kind else 0) + (BE16(|ExtensionData(e)|) + ExtensionData(e))
  }

  predicate AllFit(es: seq<Extension>) {
    forall i :: 0 <= i < |es| ==> ExtensionFits(es[i])
  }

  function ExtensionList(es: seq<Extension>): seq<Byte>
    requires AllFit(es)
  {
    if |es| == 0 then [] else ExtensionBytes(es[0]) + ExtensionList(es[1..])
  }

  function ExtensionBlock(h: Hello): seq<Byte>
    requires AllFit(h.extensions) && h.announced < 0x1_0000
  {
    if h.extensionsPresent then BE16(h.announced) + ExtensionList(h.extensions) else []
  }

  /** Every field fits its length prefix, and the announced length covers the extensions. */
  predicate FieldsFit(h: Hello) {
    && |h.recordVersion| == 2 && |h.version| == 2 && |h.random| == 32
    && |h.sessionId| < 256 && |h.ciphers| < 0x1_0000 && |h.compressions| < 256
    && AllFit(h.extensions) && |ExtensionList(h.extensions)| <= h.announced < 0x1_0000
  }

  function CompressionPart(h: Hello): seq<Byte>
    requires FieldsFit(h)
  {
    [|h.compressions|] + (h.compressions + ExtensionBlock(h))
  }

  function CipherPart(h: Hello): seq<Byte>
    requires FieldsFit(h)
  {
    BE16(|h.ciphers|) + (h.ciphers + CompressionPart(h))
  }

  function SessionPart(h: Hello): seq<Byte>
    requires FieldsFit(h)
  {
    [|h.sessionId|] + (h.sessionId + CipherPart(h))
  }

  function Body(h: Hello): seq<Byte>
    requires FieldsFit(h)
  {
    (h.version + h.random) + SessionPart(h)
  }

  /** The hello is the only message of one record. */
  predicate FitsRecord(h: Hello) {
    FieldsFit(h) && 4 + |Body(h)| <= 16_384
  }

  function Print(h: Hello): seq<Byte>
    requires FitsRecord(h)
  {
    var n := |Body(h)|;
    ([0x16] + h.recordVersion + BE16(4 + n)) + (([0x01, 0] + BE16(n)) + Body(h))
  }

  /** What a peer means by the hello: the name in the first server_name extension that holds an entry, if
      that is a host name. */
  function FirstName(es: seq<Extension>): seq<Byte> {
    if |es| == 0 then []
    else match es[0]
      case ServerName(name, _) => name
      case BadName(_) => []
      case NoName(_) => FirstName(es[1..])
      case Other(_, _) => FirstName(es[1..])
  }

  function NameOf(h: Hello): seq<Byte> {
    if h.extensionsPresent then FirstName(h.extensions) else []
  }

  // ----- the parser inverts the printer ------------------------------------------------------------

  lemma ExtensionHeader(data: seq<Byte>, pos: nat, kind: nat, d: seq<Byte>, rest: seq<Byte>)
    requires kind < 0x1_0000 && |d| < 0x1_0000
    requires pos <= |data| && data[pos..] == BE16(kind) + (BE16(|d|) + d) + rest
    ensures pos + 4 + |d| <= |data|
    ensures Read16(data, pos) == kind && Read16(data, pos + 2) == |d| && data[pos + 4..] == d + rest
  {
    assert BE16(kind) + (BE16(|d|) + d) + rest == BE16(kind) + (BE16(|d|) + (d + rest));
    TakeNumber(data, pos, kind, BE16(|d|) + (d + rest));
    TakeNumber(data, pos + 2, |d|, d + rest);
  }

  lemma EntryBytes(e: Extension, rest: seq<Byte>)
    requires e.ServerName? && ExtensionFits(e)
    ensures ExtensionData(e) + rest ==
            BE16(3 + |e.name| + |e.more|) + ([0] + (BE16(|e.name|) + (e.name + (e.more + rest))))
  {}

  lemma ServerNameEntry(data: seq<Byte>, pos: nat, e: Extension, rest: seq<Byte>)
    requires e.ServerName? && ExtensionFits(e)
    requires pos <= |data| && data[pos..] == ExtensionData(e) + rest
    ensures pos + 5 + |e.name| <= |data|
    ensures data[pos + 2] == 0 && Read16(data, pos + 3) == |e.name| && data[pos + 5..pos + 5 + |e.name|] == e.name
  {
    var entry := e.name + (e.more + rest);
    var tail := BE16(|e.name|) + entry;
    EntryBytes(e, rest);
    TakeNumber(data, pos, 3 + |e.name| + |e.more|, [0] + tail);
    TakeByte(data, pos + 2, 0, tail);
    TakeNumber(data, pos + 3, |e.name|, entry);
    Skip(data, pos + 5, e.name, e.more + rest);
  }

  lemma ScanFindsName(data: seq<Byte>, pos: nat, extLen: nat, name: seq<Byte>)
    requires pos + 4 + extLen <= |data| && 5 + |name| <= extLen
    requires Read16(data, pos) == 0 && Read16(data, pos + 2) == extLen
    requires data[pos + 6] == 0 && Read16(data, pos + 7) == |name|
    requires data[pos + 9..pos + 9 + |name|] == name
    ensures Scan(data, pos, |data|) == name
  {}

  lemma ScanStops(data: seq<Byte>, pos: nat, extLen: nat)
    requires pos + 4 + extLen <= |data| && 5 <= extLen
    requires Read16(data, pos) == 0 && Read16(data, pos + 2) == extLen
    requires data[pos + 6] != 0 || 5 + Read16(data, pos + 7) > extLen
    ensures Scan(data, pos, |data|) == []
  {}

  lemma ScanSkips(data: seq<Byte>, pos: nat, extLen: nat)
    requires pos + 4 + extLen <= |data|
    requires (Read16(data, pos) != 0 || extLen < 5) && Read16(data, pos + 2) == extLen
    ensures Scan(data, pos, |data|) == Scan(data, pos + 4 + extLen, |data|)
  {}

  function ExtensionLength(e: Extension): nat {
    match e
    case ServerName(name, more) => 5 + |name| + |more|
    case NoName(data) => |data|
    case BadName(data) => |data|
    case Other(kind, data) => |data|
  }

  /** What the scanner reads where an extension has been printed. */
  predicate ExtensionAt(data: seq<Byte>, pos: nat, e: Extension) {
    && pos + 4 + ExtensionLength(e) <= |data|
    && Read16(data, pos + 2) == ExtensionLength(e)
    && match e
       case ServerName(name, more) =>
         && Read16(data, pos) == 0 && data[pos + 6] == 0 && Read16(data, pos + 7) == |name|
         && data[pos + 9..pos + 9 + |name|] == name
       case NoName(d) => |d| < 5
       case BadName(d) =>
         && Read16(data, pos) == 0 && 5 <= |d|
         && (data[pos + 6] != 0 || 5 + Read16(data, pos + 7) > |d|)
       case Other(kind, d) => Read16(data, pos) != 0
  }

  predicate ListAt(data: seq<Byte>, pos: nat, es: seq<Extension>)
    decreases |es|
  {
    if |es| == 0 then pos == |data|
    else ExtensionAt(data, pos, es[0]) && ListAt(data, pos + 4 + ExtensionLength(es[0]), es[1..])
  }

  lemma {:induction false} PrintedExtensionAt(data: seq<Byte>, pos: nat, e: Extension, rest: seq<Byte>)
    requires ExtensionFits(e) && pos <= |data| && data[pos..] == ExtensionBytes(e) + rest
    ensures ExtensionAt(data, pos, e) && data[pos + 4 + ExtensionLength(e)..] == rest
  {
    var d := ExtensionData(e);
    ExtensionHeader(data, pos, if e.Other? then e.kind else 0, d, rest);
    Skip(data, pos + 4, d, rest);
    if e.ServerName? {
      ServerNameEntry(data, pos + 4, e, rest);
    } else if e.BadName? {
      var at := data[pos + 4..pos + 4 + |d|];
      assert at == d && at[2] == data[pos + 6] && at[3] == data[pos + 7] && at[4] == data[pos + 8];
    }
  }

  lemma {:induction false} HeadAt(data: seq<Byte>, pos: nat, e: Extension, es: seq<Extension>, rest: seq<Byte>)
    requires AllFit(es) && |es| > 0 && e == es[0] && rest == ExtensionList(es[1..])
    requires pos <= |data| && data[pos..] == ExtensionList(es)
    ensures ExtensionAt(data, pos, e) && data[pos + 4 + ExtensionLength(e)..] == rest
  {
    PrintedExtensionAt(data, pos, e, rest);
  }

  lemma {:induction false} PrintedListAt(data: seq<Byte>, pos: nat, es: seq<Extension>)
    requires AllFit(es) && pos <= |data| && data[pos..] == ExtensionList(es)
    ensures ListAt(data, pos, es)
    decreases |es|
  {
    if |es| > 0 {
      var next := pos + 4 + ExtensionLength(es[0]);
      assert ExtensionAt(data, pos, es[0]) by {
        HeadAt(data, pos, es[0], es, ExtensionList(es[1..]));
      }
      assert ListAt(data, next, es[1..]) by {
        HeadAt(data, pos, es[0], es, ExtensionList(es[1..]));
        PrintedListAt(data, next, es[1..]);
      }
    }
  }

  lemma {:induction false} ScanListAt(data: seq<Byte>, pos: nat, es: seq<Extension>)
    requires ListAt(data, pos, es)
    ensures Scan(data, pos, |data|) == FirstName(es)
    decreases |es|
  {
    if |es| > 0 {
      var n := ExtensionLength(es[0]);
      if es[0].ServerName? {
        ScanFindsName(data, pos, n, es[0].name);
      } else if es[0].BadName? {
        ScanStops(data, pos, n);
      } else {
        ScanSkips(data, pos, n);
        ScanListAt(data, pos + 4 + n, es[1..]);
      }
    }
  }

  lemma {:induction false} ScanList(data: seq<Byte>, pos: nat, es: seq<Extension>)
    requires AllFit(es) && pos <= |data| && data[pos..] == ExtensionList(es)
    ensures Scan(data, pos, |data|) == FirstName(es)
  {
    PrintedListAt(data, pos, es);
    ScanListAt(data, pos, es);
  }

  lemma {:induction false} ParseBlock(data: seq<Byte>, pos: nat, h: Hello)
    requires FieldsFit(h) && pos <= |data| && data[pos..] == ExtensionBlock(h)
    ensures FromExtensions(data, pos) == NameOf(h)
  {
    if h.extensionsPresent {
      var list := ExtensionList(h.extensions);
      TakeNumber(data, pos, h.announced, list);
      ScanList(data, pos + 2, h.extensions);
    }
  }

  lemma {:induction false} Skips8(data: seq<Byte>, pos: nat, field: seq<Byte>, rest: seq<Byte>)
    requires |field| < 0x100 && pos <= |data| && data[pos..] == [|field|] + (field + rest)
    ensures var next := pos + 1 + |field|;
            next <= |data| && data[next..] == rest && Skip8(data, pos) == Some(next)
  {
    SkipField8(data, pos, field, rest);
  }

  lemma {:induction false} Skips16(data: seq<Byte>, pos: nat, field: seq<Byte>, rest: seq<Byte>)
    requires |field| < 0x1_0000 && pos <= |data| && data[pos..] == BE16(|field|) + (field + rest)
    ensures var next := pos + 2 + |field|;
            next <= |data| && data[next..] == rest && Skip16(data, pos) == Some(next)
  {
    SkipField16(data, pos, field, rest);
  }

  /** Three fields in a row; `r1` and `r2` are what follows the first and the second. */
  lemma {:induction false} SkipsFields(data: seq<Byte>, pos: nat, a: seq<Byte>, r1: seq<Byte>, b: seq<Byte>, r2: seq<Byte>,
                                       c: seq<Byte>, rest: seq<Byte>)
    requires |a| < 0x100 && |b| < 0x1_0000 && |c| < 0x100
    requires pos <= |data| && data[pos..] == [|a|] + (a + r1)
    requires r1 == BE16(|b|) + (b + r2) && r2 == [|c|] + (c + rest)
    ensures var next := pos + 4 + |a| + |b| + |c|;
            next <= |data| && data[next..] == rest && SkipFields(data, pos) == Some(next)
  {
    Skips8(data, pos, a, r1);
    var p := pos + 1 + |a|;
    Skips16(data, p, b, r2);
    Skips8(data, p + 2 + |b|, c, rest);
  }

  lemma {:induction false} ParseFields(data: seq<Byte>, pos: nat, h: Hello)
    requires FieldsFit(h) && pos <= |data| && data[pos..] == SessionPart(h)
    ensures FromSessionId(data, pos) == NameOf(h)
  {
    var next := pos + 4 + |h.sessionId| + |h.ciphers| + |h.compressions|;
    assert next <= |data| && data[next..] == ExtensionBlock(h) && SkipFields(data, pos) == Some(next) by {
      SkipsFields(data, pos, h.sessionId, CipherPart(h), h.ciphers, CompressionPart(h), h.compressions, ExtensionBlock(h));
    }
    ParseBlock(data, next, h);
  }

  lemma {:induction false} ParseBody(data: seq<Byte>, pos: nat, h: Hello)
    requires FieldsFit(h) && pos <= |data| && data[pos..] == Body(h)
    ensures FromSessionId(data, pos + 34) == NameOf(h)
  {
    Skip(data, pos, h.version + h.random, SessionPart(h));
    ParseFields(data, pos + 34, h);
  }

  /** On any printed hello, whatever follows it in the stream, the parser returns the name the
      hello carries if and only if the whole record fits the reader's buffer; a hello that does not
      fit yields no name. */
  lemma {:induction false} PeekInvertsPrint(h: Hello, rest: seq<Byte>, size: nat)
    requires FitsRecord(h) && 5 <= size
    ensures ServerNameIn(Print(h) + rest, size) == Name(if |Print(h)| <= size then NameOf(h) else [])
  {
    var pending, n := Print(h) + rest, |Body(h)|;
    var head, shake := [0x16] + h.recordVersion + BE16(4 + n), [0x01, 0] + BE16(n);
    assert Print(h) == head + (shake + Body(h));
    assert pending[..|Print(h)|] == Print(h);
    assert pending[0] == head[0] && pending[3] == head[3] && pending[4] == head[4];
    assert Read16(pending, 3) == 4 + n;
    assert pending[5] == (shake + Body(h))[0];
    var data := pending[..9 + n];
    assert data == Print(h);
    assert data[9..] == Body(h);
    ParseBody(data, 9, h);
  }

  lemma SomeNameIffFits(h: Hello, rest: seq<Byte>, size: nat)
    requires FitsRecord(h) && 5 <= size && |NameOf(h)| > 0
    ensures ServerNameIn(Print(h) + rest, size) == Name(NameOf(h)) <==> |Print(h)| <= size
  {
    PeekInvertsPrint(h, rest, size);
  }

  /** What a peek yields, for any bytes: an error if and only if there are not even five bytes; no name
      unless a whole handshake record of at most 16384 bytes that begins a ClientHello fits the buffer; and
      of a printed hello the name it carries. */
  ghost predicate ReadsName(pending: seq<Byte>, size: nat, result: Result) {
    && (result.PeekFailed? <==> size < 5 || |pending| < 5)
    && (size >= 5 && |pending| >= 5 ==>
          var n := 256 * (pending[3] as int) + (pending[4] as int);
          pending[0] != 22 || n > 16_384 || n < 4 || 5 + n > size || 5 + n > |pending| || pending[5] != 1 ==> result == Name([]))
    && (forall h, rest :: FitsRecord(h) && pending == Print(h) + rest && size >= 5 ==>
          result == Name(if |Print(h)| <= size then NameOf(h) else []))
  }

  lemma {:induction false} PeekMeans(pending: seq<Byte>, size: nat)
    ensures ReadsName(pending, size, ServerNameIn(pending, size))
  {
    forall h, rest | FitsRecord(h) && pending == Print(h) + rest && size >= 5
      ensures ServerNameIn(pending, size) == Name(if |Print(h)| <= size then NameOf(h) else [])
    {
      PeekInvertsPrint(h, rest, size);
    }
  }
}
