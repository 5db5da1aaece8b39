/** The proxy's message framing (PostgreSQL Frontend/Backend Protocol, section "Message Formats")
    and its relay of the start-up phase (section "Message Flow", "Start-up"). */
module Wire {
  import opened Store

  type byte = x: int | 0 <= x < 256

  /** A message: its type byte and its payload. */
  datatype Frame = Frame(tag: byte, payload: seq<byte>)

  const TWO_32 := 0x1_0000_0000
  const READY: byte := 90 // 'Z'
  const AUTH: byte := 82 // 'R'
  const QUERY: byte := 81 // 'Q'
  const SSL_REQUEST := 80877103
  const NO_SSL: byte := 78 // 'N'

  // ----- Big-endian 32-bit numbers -----

  function U32(b: seq<byte>): (n: int)
    requires |b| == 4
    ensures 0 <= n < TWO_32
  {
    ((b[0] as int * 256 + b[1] as int) * 256 + b[2] as int) * 256 + b[3] as int
  }

  function Be32(n: int): (b: seq<byte>)
    requires 0 <= n < TWO_32
    ensures |b| == 4
  {
    var n1 := n / 256;
    var n2 := n1 / 256;
    [n2 / 256, n2 % 256, n1 % 256, n % 256]
  }

  lemma U32RoundTrip(b: seq<byte>)
    requires |b| == 4
    ensures Be32(U32(b)) == b
  {
    var n2 := b[0] as int * 256 + b[1] as int;
    var n1 := n2 * 256 + b[2] as int;
    var n := n1 * 256 + b[3] as int;
    assert n / 256 == n1 && n1 / 256 == n2 && n2 / 256 == b[0];
  }

  /** binary.BigEndian.PutUint32 into buf[at..at + 4]. */
  method PutUint32(buf: array<byte>, at: nat, n: int)
    requires at + 4 <= buf.Length && 0 <= n < TWO_32
    modifies buf
    ensures buf[..] == old(buf[..at]) + Be32(n) + old(buf[at + 4..])
  {
    var b := Be32(n);
    buf[at], buf[at + 1], buf[at + 2], buf[at + 3] := b[0], b[1], b[2], b[3];
  }

  // ----- Frames -----

  /** The bytes of a message; the length field is truncated to 32 bits. */
  function Encode(f: Frame): seq<byte> {
    [f.tag] + Be32((|f.payload| + 4) % TWO_32) + f.payload
  }

  /** The first message of a stream and what follows it. */
  function Decode(s: seq<byte>): (r: Option<(Frame, seq<byte>)>)
    ensures r.Some? ==> |r.value.1| < |s|
  {
    if |s| < 5 then None else
      var length := U32(s[1..5]) - 4;
      if length < 0 || |s| < 5 + length then None
      else Some((Frame(s[0], s[5..5 + length]), s[5 + length..]))
  }

  /** Reading inverts writing exactly for payloads whose length field does not wrap. */
  lemma DecodeInvertsEncodeIff(f: Frame, rest: seq<byte>)
    ensures Decode(Encode(f) + rest) == Some((f, rest)) <==> |f.payload| + 4 < TWO_32
  {
  }

  lemma DecodeGives(s: seq<byte>)
    requires Decode(s).Some?
    ensures |s| >= 5
    ensures
      var n := U32(s[1..5]) - 4;
      0 <= n && 5 + n <= |s| && Decode(s) == Some((Frame(s[0], s[5..5 + n]), s[5 + n..]))
  {
  }

  /** Writing inverts reading: a relayed message is the same bytes. */
  lemma EncodeInvertsDecode(s: seq<byte>)
    requires Decode(s).Some?
    ensures Encode(Decode(s).value.0) + Decode(s).value.1 == s
    ensures |Decode(s).value.0.payload| + 4 < TWO_32
  {
    hide Decode, U32, Be32;
    DecodeGives(s);
    U32RoundTrip(s[1..5]);
    InPieces(s, U32(s[1..5]) - 4);
  }

  lemma InPieces(s: seq<byte>, length: nat)
    requires 5 + length <= |s|
    ensures [s[0]] + s[1..5] + s[5..5 + length] + s[5 + length..] == s
  {
  }

  function EncodeAll(fs: seq<Frame>): seq<byte> {
    if fs == [] then [] else Encode(fs[0]) + EncodeAll(fs[1..])
  }

  /** The messages of a stream up to the first byte that does not belong to a whole message. */
  function DecodeAll(s: seq<byte>): seq<Frame>
    decreases |s|
  {
    var d := Decode(s);
    if d.None? then [] else [d.value.0] + DecodeAll(d.value.1)
  }

  lemma {:induction false} StreamRoundTrip(fs: seq<Frame>)
    requires forall i :: 0 <= i < |fs| ==> |fs[i].payload| + 4 < TWO_32
    ensures DecodeAll(EncodeAll(fs)) == fs
  {
    if fs != [] {
      DecodeInvertsEncodeIff(fs[0], EncodeAll(fs[1..]));
      StreamRoundTrip(fs[1..]);
    }
  }

  /** One side of a connection: the bytes it will still send us, and those we have sent it. */
  class Conn {
    var inbox: seq<byte>
    var outbox: seq<byte>

    constructor (inbox: seq<byte>)
      ensures this.inbox == inbox && outbox == []
    {
      this.inbox, outbox := inbox, [];
    }

    /** io.ReadFull: n bytes, or an error when the stream ends before. */
    method ReadFull(n: nat) returns (b: seq<byte>, ok: bool)
      modifies this`inbox
      ensures ok <==> n <= |old(inbox)|
      ensures ok ==> b == old(inbox)[..n] && inbox == old(inbox)[n..]
    {
      if |inbox| < n {
        b, ok, inbox := inbox, false, [];
        return;
      }
      b, ok, inbox := inbox[..n], true, inbox[n..];
    }

    method Write(b: seq<byte>)
      modifies this`outbox
      ensures outbox == old(outbox) + b
    {
      outbox := outbox + b;
    }
  }

  method ReadMessage(c: Conn) returns (f: Frame, ok: bool)
    modifies c`inbox
    ensures ok <==> Decode(old(c.inbox)).Some?
    ensures ok ==> Decode(old(c.inbox)) == Some((f, c.inbox))
  {
    f := Frame(0, []);
    var header, payload;
    header, ok := c.ReadFull(5);
    if !ok {
      return;
    }
    var length := U32(header[1..5]) - 4;
    if length < 0 {
      return f, false;
    }
    payload, ok := c.ReadFull(length);
    f := Frame(header[0], payload);
    ghost var s := old(c.inbox);
    assert header[1..5] == s[1..5];
    if ok {
      assert s[5..][..length] == s[5..5 + length] && s[5..][length..] == s[5 + length..];
    }
  }

  method WriteMessage(c: Conn, f: Frame)
    modifies c`outbox
    ensures c.outbox == old(c.outbox) + Encode(f)
  {
    var header := new byte[5];
    header[0] := f.tag;
    PutUint32(header, 1, (|f.payload| + 4) % TWO_32);
    assert header[..] == [f.tag] + Be32((|f.payload| + 4) % TWO_32);
    c.Write(header[..]);
    if |f.payload| > 0 {
      c.Write(f.payload);
    }
    assert c.outbox == old(c.outbox) + Encode(f);
  }

  // ----- The relay -----

  /** How many bytes of the stream run through its first ready message. */
  function ThroughReady(s: seq<byte>): (n: Option<nat>)
    ensures n.Some? ==> n.value <= |s|
    decreases |s|
  {
    var d := Decode(s);
    if d.None? then None
    else
      var size := |s| - |d.value.1|;
      if d.value.0.tag == READY then Some(size)
      else
        var rest := ThroughReady(d.value.1);
        if rest.None? then None else Some(size + rest.value)
  }

  /** Authentication requests that the client has to answer. */
  predicate WantsAnswer(f: Frame) {
    f.tag == AUTH && |f.payload| >= 4 && U32(f.payload[..4]) in {3, 5, 10, 11}
  }

  /** How many messages of the stream, before its first ready message, want an answer. */
  function Asked(s: seq<byte>): nat
    decreases |s|
  {
    var d := Decode(s);
    if d.None? || d.value.0.tag == READY then 0
    else (if WantsAnswer(d.value.0) then 1 else 0) + Asked(d.value.1)
  }

  /** What follows the first n messages of the stream, if it has that many. */
  function Skip(s: seq<byte>, n: nat): Option<seq<byte>> {
    if n == 0 then Some(s)
    else
      var d := Decode(s);
      if d.None? then None else Skip(d.value.1, n - 1)
  }

  /** What is left of the client's stream when it was asked for an answer, or was not. */
  function AfterAnswer(asked: bool, s: seq<byte>): seq<byte>
    requires asked ==> Decode(s).Some?
  {
    if asked then Decode(s).value.1 else s
  }

  /** Upstream has a ready message, and the client an answer for everything asked before it. */
  predicate CanRelay(up: seq<byte>, client: seq<byte>) {
    ThroughReady(up).Some? && Skip(client, Asked(up)).Some?
  }

  lemma {:induction false} SkipMore(s: seq<byte>, n: nat, m: nat)
    ensures Skip(s, n + m) == if Skip(s, n).Some? then Skip(Skip(s, n).value, m) else None
    decreases n
  {
    hide Decode;
    if n > 0 && Decode(s).Some? {
      SkipMore(Decode(s).value.1, n - 1, m);
    }
  }

  /** What a sent on is a part of what came before, from the beginning. */
  ghost predicate SentPart(before: seq<byte>, after: seq<byte>, source: seq<byte>) {
    before <= after <= before + source
  }

  lemma SentOneOf(before: seq<byte>, source: seq<byte>, message: seq<byte>, rest: seq<byte>)
    requires message + rest == source
    ensures SentPart(before, before + message, source)
  {
    assert before + message + rest == before + source;
  }

  lemma SentMore(before: seq<byte>, middle: seq<byte>, after: seq<byte>, source: seq<byte>, left: seq<byte>)
    requires middle + left == before + source && before <= middle && SentPart(middle, after, left)
    ensures SentPart(before, after, source)
  {
  }

  /** One message from upstream to the client and, when it asks for one, the client's answer. */
  method RelayOne(up: Conn, client: Conn) returns (ready: bool, ok: bool)
    requires up != client
    modifies up, client
    ensures ok <==>
      && Decode(old(up.inbox)).Some?
      && var f := Decode(old(up.inbox)).value.0;
         f.tag != READY && WantsAnswer(f) ==> Decode(old(client.inbox)).Some?
    ensures ok ==> ready == (Decode(old(up.inbox)).value.0.tag == READY)
    ensures ok ==> up.inbox == Decode(old(up.inbox)).value.1
    ensures ok ==> client.inbox == AfterAnswer(!ready && WantsAnswer(Decode(old(up.inbox)).value.0), old(client.inbox))
    ensures ok ==> client.outbox + up.inbox == old(client.outbox) + old(up.inbox) && old(client.outbox) <= client.outbox
    ensures ok ==> up.outbox + client.inbox == old(up.outbox) + old(client.inbox) && old(up.outbox) <= up.outbox
    ensures SentPart(old(client.outbox), client.outbox, old(up.inbox))
    ensures SentPart(old(up.outbox), up.outbox, old(client.inbox))
  {
    hide Decode, Encode;
    ready := false;
    var f;
    f, ok := ReadMessage(up);
    if !ok {
      return;
    }
    EncodeInvertsDecode(old(up.inbox));
    SentOneOf(client.outbox, old(up.inbox), Encode(f), up.inbox);
    WriteMessage(client, f);
    if f.tag == READY {
      return true, true;
    }
    if WantsAnswer(f) {
      var answer;
      answer, ok := ReadMessage(client);
      if ok {
        EncodeInvertsDecode(old(client.inbox));
        SentOneOf(up.outbox, old(client.inbox), Encode(answer), client.inbox);
        WriteMessage(up, answer);
      }
    }
  }

  /** Relays upstream's messages through the first ready message, and the client's answers: no byte
      is lost, added or changed on the way.  It fails exactly when a stream ends too early, and then
      both sides have got a beginning of what the other sent. */
  method RelayUntilReady(up: Conn, client: Conn) returns (ok: bool)
    requires up != client
    modifies up, client
    ensures ok <==> CanRelay(old(up.inbox), old(client.inbox))
    ensures ok ==>
      var n := ThroughReady(old(up.inbox)).value;
      client.outbox == old(client.outbox) + old(up.inbox)[..n] && up.inbox == old(up.inbox)[n..]
    ensures ok ==> Some(client.inbox) == Skip(old(client.inbox), Asked(old(up.inbox)))
    ensures ok ==> up.outbox + client.inbox == old(up.outbox) + old(client.inbox) && old(up.outbox) <= up.outbox
    ensures SentPart(old(client.outbox), client.outbox, old(up.inbox))
    ensures SentPart(old(up.outbox), up.outbox, old(client.inbox))
  {
    hide Decode, WantsAnswer, SentPart;
    ghost var s, c, asked := up.inbox, client.inbox, 0;
    var ready := false;
    Relaying(s, c, s, c, false, 0);
    while !ready
      invariant |up.inbox| <= |s|
      invariant client.outbox + up.inbox == old(client.outbox) + s && old(client.outbox) <= client.outbox
      invariant up.outbox + client.inbox == old(up.outbox) + c && old(up.outbox) <= up.outbox
      invariant Relayed(s, c, up.inbox, client.inbox, ready, asked)
      decreases !ready, |up.inbox|
    {
      ghost var u, k, toClient, toUp := up.inbox, client.inbox, client.outbox, up.outbox;
      ready, ok := RelayOne(up, client);
      SentMore(old(client.outbox), toClient, client.outbox, s, u);
      SentMore(old(up.outbox), toUp, up.outbox, c, k);
      RelayedOneMore(s, c, u, k, asked, ok, up.inbox, client.inbox, ready);
      if !ok {
        return false;
      }
      if !ready && WantsAnswer(Decode(u).value.0) {
        asked := asked + 1;
      }
    }
    RelayDone(s, c, up.inbox, client.inbox, asked);
    SplitStreams(old(client.outbox), s, client.outbox, up.inbox);
    SentAll(old(client.outbox), client.outbox, s, up.inbox);
    SentAll(old(up.outbox), up.outbox, c, client.inbox);
    return true;
  }

  lemma SentAll(before: seq<byte>, after: seq<byte>, source: seq<byte>, left: seq<byte>)
    requires after + left == before + source && before <= after
    ensures SentPart(before, after, source)
  {
    assert after <= after + left;
  }

  /** What holds between two messages: u is left of upstream's stream s and k of the client's c, and
      asked answers have been taken. */
  ghost predicate Relayed(s: seq<byte>, c: seq<byte>, u: seq<byte>, k: seq<byte>, ready: bool, asked: nat) {
    && |u| <= |s| && Skip(c, asked) == Some(k)
    && if ready then ThroughReady(s) == Some(|s| - |u|) && Asked(s) == asked
       else ThroughReady(s) == AfterBytes(|s| - |u|, ThroughReady(u)) && Asked(s) == asked + Asked(u)
  }

  lemma Relaying(s: seq<byte>, c: seq<byte>, u: seq<byte>, k: seq<byte>, ready: bool, asked: nat)
    requires s == u && c == k && !ready && asked == 0
    ensures Relayed(s, c, u, k, ready, asked)
  {
  }

  lemma RelayDone(s: seq<byte>, c: seq<byte>, u: seq<byte>, k: seq<byte>, asked: nat)
    requires Relayed(s, c, u, k, true, asked)
    ensures CanRelay(s, c) && ThroughReady(s) == Some(|s| - |u|) && |u| <= |s| && Skip(c, Asked(s)) == Some(k)
  {
  }

  lemma RelayedOneMore(s: seq<byte>, c: seq<byte>, u: seq<byte>, k: seq<byte>, asked: nat, ok: bool, u': seq<byte>,
                       k': seq<byte>, ready: bool)
    requires Relayed(s, c, u, k, false, asked)
    requires ok <==>
      Decode(u).Some? && (Decode(u).value.0.tag != READY && WantsAnswer(Decode(u).value.0) ==> Decode(k).Some?)
    requires ok ==> ready == (Decode(u).value.0.tag == READY) && u' == Decode(u).value.1
    requires ok ==> k' == AfterAnswer(!ready && WantsAnswer(Decode(u).value.0), k)
    ensures ok ==>
      |u'| < |u| && Relayed(s, c, u', k', ready, if !ready && WantsAnswer(Decode(u).value.0) then asked + 1 else asked)
    ensures !ok ==> !CanRelay(s, c)
  {
    SkipMore(c, asked, 1);
    SkipMore(c, asked, Asked(u));
    hide Decode, WantsAnswer;
    assert Skip(k, 1) == if Decode(k).None? then None else Some(Decode(k).value.1);
    if Decode(u).Some? && !ok {
      assert Asked(u) > 0;
    }
  }

  lemma SplitStreams(before: seq<byte>, s: seq<byte>, after: seq<byte>, rest: seq<byte>)
    requires after + rest == before + s && |rest| <= |s|
    ensures after == before + s[..|s| - |rest|] && rest == s[|s| - |rest|..]
  {
    var k := |after|;
    assert after == (after + rest)[..k] && rest == (after + rest)[k..];
    assert k == |before| + (|s| - |rest|);
    assert (before + s)[..k] == before + s[..|s| - |rest|] && (before + s)[k..] == s[|s| - |rest|..];
  }

  function AfterBytes(done: nat, n: Option<nat>): Option<nat> {
    if n.None? then None else Some(done + n.value)
  }

  /** Sends the SET search_path query and swallows upstream's answer through its ready message. */
  method InjectSearchPath(up: Conn, query: seq<byte>) returns (ok: bool)
    modifies up
    ensures up.outbox == old(up.outbox) + Encode(Frame(QUERY, query + [0]))
    ensures ok <==> ThroughReady(old(up.inbox)).Some?
    ensures ok ==> up.inbox == old(up.inbox)[ThroughReady(old(up.inbox)).value..]
  {
    hide Encode, Decode;
    WriteMessage(up, Frame(QUERY, query + [0]));
    ghost var s := up.inbox;
    var ready := false;
    while !ready
      invariant |up.inbox| <= |s| && up.inbox == s[|s| - |up.inbox|..]
      invariant if ready then ThroughReady(s) == Some(|s| - |up.inbox|)
                else ThroughReady(s) == AfterBytes(|s| - |up.inbox|, ThroughReady(up.inbox))
      invariant up.outbox == old(up.outbox) + Encode(Frame(QUERY, query + [0]))
      decreases !ready, |up.inbox|
    {
      ghost var before := up.inbox;
      var f, got := ReadMessage(up);
      if !got {
        return false;
      }
      EncodeInvertsDecode(before);
      SuffixOfSuffix(s, before, up.inbox, Encode(f));
      ready := f.tag == READY;
    }
    return true;
  }

  lemma SuffixOfSuffix(s: seq<byte>, t: seq<byte>, u: seq<byte>, head: seq<byte>)
    requires |t| <= |s| && t == s[|s| - |t|..] && head + u == t
    ensures |u| <= |s| && u == s[|s| - |u|..]
  {
  }

  /** The whole start-up after the client's first message.  Up to the end of the injection the client
      has received exactly upstream's stream through the first ready message, and none of what
      upstream sent from there through the ready message that answers the injected query. */
  method Handshake(up: Conn, client: Conn, query: seq<byte>) returns (ok: bool)
    requires up != client
    modifies up, client
    ensures ok <==>
      && CanRelay(old(up.inbox), old(client.inbox))
      && ThroughReady(old(up.inbox)[ThroughReady(old(up.inbox)).value..]).Some?
    ensures ok ==>
      var n := ThroughReady(old(up.inbox)).value;
      var rest := old(up.inbox)[n..];
      && client.outbox == old(client.outbox) + old(up.inbox)[..n]
      && up.inbox == rest[ThroughReady(rest).value..]
      && Some(client.inbox) == Skip(old(client.inbox), Asked(old(up.inbox)))
    ensures SentPart(old(client.outbox), client.outbox, old(up.inbox))
    ensures exists answers ::
      && answers <= old(client.inbox) && (ok ==> answers + client.inbox == old(client.inbox))
      && var sent := if CanRelay(old(up.inbox), old(client.inbox)) then Encode(Frame(QUERY, query + [0])) else [];
         up.outbox == old(up.outbox) + answers + sent
  {
    hide Decode, Encode, Asked, Skip, CanRelay, SentPart;
    ok := RelayUntilReady(up, client);
    ghost var answers := AnswersSent(old(up.outbox), up.outbox, old(client.inbox));
    if !ok {
      return;
    }
    assert answers + client.inbox == old(client.inbox) by {
      assert old(up.outbox) + answers + client.inbox == old(up.outbox) + old(client.inbox);
      assert (old(up.outbox) + (answers + client.inbox))[|old(up.outbox)|..] == answers + client.inbox;
      assert (old(up.outbox) + old(client.inbox))[|old(up.outbox)|..] == old(client.inbox);
    }
    ok := InjectSearchPath(up, query);
  }

  lemma AnswersSent(before: seq<byte>, after: seq<byte>, source: seq<byte>) returns (answers: seq<byte>)
    requires SentPart(before, after, source)
    ensures answers <= source && after == before + answers
  {
    answers := after[|before|..];
    assert answers == source[..|answers|] by {
      assert (before + source)[|before|..][..|answers|] == answers;
    }
  }

  // ----- The client's first message -----

  /** Refuses an SSL request with 'N' and forwards the client's start-up message to upstream.  It
      fails at the end of the stream, and on a length below 4, on which chuckDB panics. */
  method ForwardStartup(client: Conn, up: Conn) returns (ok: bool)
    requires up != client
    modifies client, up
    ensures ok <==> Startup(old(client.inbox)).Some?
    ensures client.outbox == old(client.outbox) + Reply(old(client.inbox))
    ensures !ok ==> up.outbox == old(up.outbox)
    ensures ok ==>
      var st := Startup(old(client.inbox)).value;
      up.outbox == old(up.outbox) + st.forwarded && client.inbox == st.rest
    ensures up.inbox == old(up.inbox)
  {
    var lenBuf, code, payload;
    lenBuf, ok := client.ReadFull(4);
    if !ok {
      return;
    }
    if U32(lenBuf) == 8 {
      code, ok := client.ReadFull(4);
      if !ok {
        return;
      }
      assert code == old(client.inbox)[4..8];
      if U32(code) == SSL_REQUEST {
        client.Write([NO_SSL]);
        lenBuf, ok := client.ReadFull(4);
        if !ok {
          return;
        }
        assert lenBuf == old(client.inbox)[8..12];
      }
    }
    if U32(lenBuf) < 4 {
      return false;
    }
    payload, ok := client.ReadFull(U32(lenBuf) - 4);
    if ok {
      U32RoundTrip(lenBuf);
      up.Write(Be32(U32(lenBuf)) + payload);
    }
  }

  datatype StartupResult = StartupResult(forwarded: seq<byte>, rest: seq<byte>)

  /** The client begins with an SSL request. */
  predicate AsksForSsl(s: seq<byte>) {
    |s| >= 8 && U32(s[..4]) == 8 && U32(s[4..8]) == SSL_REQUEST
  }

  /** What the client is answered. */
  function Reply(s: seq<byte>): seq<byte> {
    if AsksForSsl(s) then [NO_SSL] else []
  }

  /** What happens to the bytes the client begins with. */
  function Startup(s: seq<byte>): Option<StartupResult> {
    if |s| < 4 then None
    else if U32(s[..4]) != 8 then Message(s[..4], s[4..])
    else if |s| < 8 then None
    else if U32(s[4..8]) != SSL_REQUEST then Message(s[..4], s[8..])
    else if |s| < 12 then None
    else Message(s[8..12], s[12..])
  }

  function Message(lenBuf: seq<byte>, s: seq<byte>): Option<StartupResult>
    requires |lenBuf| == 4
  {
    var length := U32(lenBuf) - 4;
    if length < 0 || |s| < length then None
    else Some(StartupResult(lenBuf + s[..length], s[length..]))
  }

  /** The client's bytes reach upstream unchanged exactly when the first message is not an 8-byte
      request other than an SSL request: of such a request the code is swallowed and the next four
      bytes are sent in its place. */
  lemma StartupIsTransparentIff(s: seq<byte>)
    requires Startup(s).Some?
    ensures
      var st := Startup(s).value;
      var passedOn := st.forwarded + st.rest;
      passedOn == (if AsksForSsl(s) then s[8..] else s) <==> !(U32(s[..4]) == 8 && U32(s[4..8]) != SSL_REQUEST)
  {
  }

  /** For instance a GSSAPI encryption request, code 80877104, followed by the start-up message of
      the fallback: upstream gets 00 00 00 08 00 00 00 09 for the request's 00 00 00 08 04 D2 16 30. */
  lemma GssRequestIsMangled()
    ensures Startup([0, 0, 0, 8, 4, 210, 22, 48, 0, 0, 0, 9, 0, 3, 0, 0, 0])
      == Some(StartupResult([0, 0, 0, 8, 0, 0, 0, 9], [0, 3, 0, 0, 0]))
  {
    var s: seq<byte> := [0, 0, 0, 8, 4, 210, 22, 48, 0, 0, 0, 9, 0, 3, 0, 0, 0];
    assert s[..4] == [0, 0, 0, 8] && s[4..8] == [4, 210, 22, 48];
    assert U32([0, 0, 0, 8]) == 8 && U32([4, 210, 22, 48]) == 80877104;
    assert s[8..] == [0, 0, 0, 9, 0, 3, 0, 0, 0];
    assert s[8..][..4] == [0, 0, 0, 9] && s[8..][4..] == [0, 3, 0, 0, 0];
    hide U32;
    assert Startup(s) == Message(s[..4], s[8..]);
    assert [0, 0, 0, 8] + [0, 0, 0, 9] == [0, 0, 0, 8, 0, 0, 0, 9];
  }

  // ----- A session at concrete bytes -----

  /** An SSL request, code 80877103, is answered 'N', and the start-up message after it is passed on. */
  lemma SslRequestIsRefused()
    ensures
      var request: seq<byte> := [0, 0, 0, 8, 4, 210, 22, 47];
      var message: seq<byte> := [0, 0, 0, 9, 0, 3, 0, 0, 0];
      Reply(request + message) == [78] && Startup(request + message) == Some(StartupResult(message, []))
  {
    var request: seq<byte>, message: seq<byte> := [0, 0, 0, 8, 4, 210, 22, 47], [0, 0, 0, 9, 0, 3, 0, 0, 0];
    var s := request + message;
    assert s[..4] == [0, 0, 0, 8] && s[4..8] == [4, 210, 22, 47] && s[8..12] == [0, 0, 0, 9];
    assert U32([0, 0, 0, 8]) == 8 && U32([4, 210, 22, 47]) == 80877103 && U32([0, 0, 0, 9]) == 9;
    hide U32;
    assert s[12..] == [0, 3, 0, 0, 0] && s[12..][..5] == [0, 3, 0, 0, 0] && s[12..][5..] == [];
    assert [0, 0, 0, 9] + [0, 3, 0, 0, 0] == message;
    assert Message(s[8..12], s[12..]) == Some(StartupResult(message, []));
    assert Startup(s) == Message(s[8..12], s[12..]);
  }

  /** An authentication request of the given kind: 'R', the length and the kind. */
  function AuthRequest(kind: byte): seq<byte> {
    [82, 0, 0, 0, 8, 0, 0, 0, kind]
  }

  /** 'Z', the length and the transaction status. */
  const READY_MESSAGE: seq<byte> := [90, 0, 0, 0, 5, 73]

  /** Clear-text and MD5 passwords and the first two steps of SASL want an answer; the final step of SASL,
      and the word that all is well, do not. */
  lemma AuthAsks(kind: byte, rest: seq<byte>)
    ensures Decode(AuthRequest(kind) + rest) == Some((Frame(82, [0, 0, 0, kind]), rest))
    ensures WantsAnswer(Frame(82, [0, 0, 0, kind])) <==> kind == 3 || kind == 5 || kind == 10 || kind == 11
    ensures Asked(AuthRequest(kind) + rest) == Asked(rest) + if kind in {3, 5, 10, 11} then 1 else 0
    ensures ThroughReady(AuthRequest(kind) + rest) == AfterBytes(9, ThroughReady(rest))
  {
    var s := AuthRequest(kind) + rest;
    assert s[1..5] == [0, 0, 0, 8] && U32([0, 0, 0, 8]) == 8;
    assert s[5..9] == [0, 0, 0, kind] && s[9..] == rest;
    assert [0, 0, 0, kind][..4] == [0, 0, 0, kind] && U32([0, 0, 0, kind]) == kind as int;
    hide U32;
  }

  lemma ReadyEnds(rest: seq<byte>)
    ensures Decode(READY_MESSAGE + rest) == Some((Frame(90, [73]), rest))
    ensures Asked(READY_MESSAGE + rest) == 0 && ThroughReady(READY_MESSAGE + rest) == Some(6)
  {
    var s := READY_MESSAGE + rest;
    assert s[1..5] == [0, 0, 0, 5] && U32([0, 0, 0, 5]) == 5;
    assert s[5..6] == [73] && s[6..] == rest;
    hide U32;
  }

  /** A SCRAM login: SASL, its continuation, its end, and that all is well.  The client is asked twice, and
      what follows the ready message is left. */
  lemma ScramLogin(rest: seq<byte>)
    ensures
      var s := AuthRequest(10) + (AuthRequest(11) + (AuthRequest(12) + (AuthRequest(0) + (READY_MESSAGE + rest))));
      Asked(s) == 2 && ThroughReady(s) == Some(42)
  {
    hide AuthRequest, ThroughReady, Asked, READY_MESSAGE;
    ReadyEnds(rest);
    AuthAsks(0, READY_MESSAGE + rest);
    AuthAsks(12, AuthRequest(0) + (READY_MESSAGE + rest));
    AuthAsks(11, AuthRequest(12) + (AuthRequest(0) + (READY_MESSAGE + rest)));
    AuthAsks(10, AuthRequest(11) + (AuthRequest(12) + (AuthRequest(0) + (READY_MESSAGE + rest))));
  }

  /** The injected query "SET" as a simple query: 'Q', the length, the text and a zero byte. */
  lemma QueryBytes()
    ensures Encode(Frame(QUERY, [83, 69, 84] + [0])) == [81, 0, 0, 0, 8, 83, 69, 84, 0]
  {
    assert Be32(8) == [0, 0, 0, 8];
    hide Be32;
  }
}
