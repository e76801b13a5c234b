/** The whole handshake between an honest client and the server that borrows the
    looks of another site: its ServerHello and the sizes of its records. */
module Handshake {
  import opened Bytes
  import opened TlsRecord
  import opened Flight
  import Stream = TlsStream
  import Server = ServerHello
  import Client = ClientHello

  const CCS: seq<byte> := [0x14, 3, 3, 0, 1, 1]
  const AES_128: u16 := 0x1301
  const SMALLEST_DUMMY := 23

  // ------------------------------------------------------ the sizes of the site

  datatype DestFlight = DestFlight(serverHello: seq<byte>, lens: seq<nat>, post: seq<nat>)
  {
    function HandshakePad(): (pad: Option<nat>)
    {
      if lens == [] || lens[0] <= 512 then None else Some(lens[0])
    }

    function SplitPads(): (pads: Option<seq<Option<nat>>>)
      ensures pads.Some? ==> |pads.value| == 4
    {
      if HandshakePad().Some? || lens == [] then None
      else Some(seq(4, i => if 0 <= i < |lens| then Some(lens[i]) else None))
    }

    function ExtraPads(): (pads: seq<nat>)
    {
      if HandshakePad().Some? then lens[1..] else if |lens| > 4 then lens[4..] else []
    }

    /** The fill loop of `split_pads`. */
    method FillPads() returns (pads: array<Option<nat>>)
      requires HandshakePad().None? && lens != []
      ensures SplitPads() == Some(pads[..])
    {
      pads := new Option<nat>[4](_ => None);
      var take := if |lens| < 4 then |lens| else 4;
      for i := 0 to take
        invariant forall k :: 0 <= k < 4 ==> pads[k] == if k < i then Some(lens[k]) else None
      {
        pads[i] := Some(lens[i]);
      }
      assert pads[..] == SplitPads().value;
    }
  }

  function Known(pads: seq<Option<nat>>): (lens: seq<nat>)
  {
    if pads == [] then [] else (if pads[0].Some? then [pads[0].value] else []) + Known(pads[1..])
  }

  /** The pads from the `k`-th on are the sizes from the `k`-th on. */
  lemma {:induction false} KnownFrom(pads: seq<Option<nat>>, lens: seq<nat>, k: nat)
    requires k <= |pads| <= |lens| + |pads|
    requires forall i :: 0 <= i < |pads| ==> pads[i] == if i < |lens| then Some(lens[i]) else None
    ensures Known(pads[k..]) == if k >= |lens| then [] else if |lens| < |pads| then lens[k..] else lens[k..|pads|]
    decreases |pads| - k
  {
    if k < |pads| {
      KnownFrom(pads, lens, k + 1);
      assert pads[k..][1..] == pads[k + 1..] && pads[k..][0] == pads[k];
    }
  }

  lemma KnownAll(d: DestFlight)
    requires d.SplitPads().Some?
    ensures Known(d.SplitPads().value) == if |d.lens| < 4 then d.lens else d.lens[..4]
  {
    var pads := d.SplitPads().value;
    KnownFrom(pads, d.lens, 0);
    assert pads[0..] == pads;
  }

  /** Every record size of the site is imitated once and in order, first by the
      flight, then by the dummies after it. */
  lemma SizesAreUsedOnce(d: DestFlight)
    ensures d.SplitPads().Some? ==> Known(d.SplitPads().value) + d.ExtraPads() == d.lens
    ensures d.HandshakePad().Some? ==> [d.HandshakePad().value] + d.ExtraPads() == d.lens
    ensures d.SplitPads().None? && d.HandshakePad().None? ==> d.lens == []
    ensures d.HandshakePad().Some? <==> d.lens != [] && d.lens[0] > 512
    ensures d.SplitPads().Some? <==> d.lens != [] && d.lens[0] <= 512
  {
    if d.SplitPads().Some? {
      KnownAll(d);
    }
  }

  // -------------------------------------------------------------- server flight

  function EncryptedExtensions(alpn: seq<seq<byte>>): (m: seq<byte>)
    ensures |m| >= 4 && m[0] == ENCRYPTED_EXTENSIONS
  {
    Message(ENCRYPTED_EXTENSIONS, Client.Sized(Client.EncodeAll(Echo(alpn))))
  }

  /** One extension with the protocol chosen, or none when none was offered. */
  function Echo(alpn: seq<seq<byte>>): (exts: seq<Client.Entry>)
  {
    if alpn == [] then [] else [Client.Entry(Client.ALPN, Client.AlpnList([Chosen(alpn)]))]
  }

  function Chosen(alpn: seq<seq<byte>>): (proto: seq<byte>)
    requires alpn != []
    ensures proto in alpn && (Client.H2 in alpn ==> proto == Client.H2)
  {
    if Client.H2 in alpn then Client.H2 else alpn[0]
  }

  datatype Messages = Messages(ee: seq<byte>, cert: seq<byte>, cv: seq<byte>, fin: seq<byte>)
  {
    function All(): (flight: seq<byte>)
    {
      ee + cert + cv + fin
    }
  }

  /** The four messages, each over the transcript of those before it. */
  function ServerMessages(c: Crypto, suite: Suite, secret: seq<byte>, id: Identity, ee: seq<byte>,
                          hellos: seq<byte>): (m: Messages)
  {
    var cert := CertificateMsg(id.leaf);
    var cv := VerifyMsg(id.sign(Signed(c.hash(suite, hellos + ee + cert))));
    var fin := Message(FINISHED, c.finished(suite, secret, c.hash(suite, hellos + ee + cert + cv)));
    Messages(ee, cert, cv, fin)
  }

  /** One record, or four, padded as the site's records were. */
  function Sends(dest: Option<DestFlight>, m: Messages): (sent: seq<Stream.Sent>)
    ensures sent != []
  {
    if dest.Some? && dest.value.SplitPads().Some? then
      var pads := dest.value.SplitPads().value;
      [ Stream.Sent(HANDSHAKE, m.ee, pads[0]), Stream.Sent(HANDSHAKE, m.cert, pads[1]),
        Stream.Sent(HANDSHAKE, m.cv, pads[2]), Stream.Sent(HANDSHAKE, m.fin, pads[3]) ]
    else
      [Stream.Sent(HANDSHAKE, m.All(), if dest.Some? then dest.value.HandshakePad() else None)]
  }

  /** How long the `i`-th record of the flight is to be, if the site says. */
  function Wanted(dest: DestFlight, i: nat): (len: Option<nat>)
  {
    if i < |dest.lens| then Some(dest.lens[i]) else None
  }

  /** Four records with a message each when the site's first record is a small one,
      and one record otherwise; the `i`-th has the length of the site's `i`-th record,
      unless its message needs more. */
  lemma FlightHasSiteSizes(dest: DestFlight, m: Messages, keys: Keys, i: nat)
    requires keys.aead.Lawful() && i < |Sends(Some(dest), m)|
    ensures |Sends(Some(dest), m)| == if dest.lens != [] && dest.lens[0] <= 512 then 4 else 1
    ensures Sends(Some(dest), m)[i].content
         == if dest.lens != [] && dest.lens[0] <= 512 then [m.ee, m.cert, m.cv, m.fin][i] else m.All()
    ensures var s := Sends(Some(dest), m)[i];
            var least := HEADER_SIZE + |s.content| + 1 + TAG_SIZE;
            |Stream.RecordOf(keys, i, s)|
            == if Wanted(dest, i).Some? && Wanted(dest, i).value > least then Wanted(dest, i).value else least
  {
    var s := Sends(Some(dest), m)[i];
    assert s.pad == Wanted(dest, i);
    PadHitsLength(keys, i, s.typ, s.content, if s.pad.Some? then s.pad.value else 0);
  }

  /** Records under the application keys that look like session tickets. */
  function Dummies(lens: seq<nat>): (sent: seq<Stream.Sent>)
  {
    if lens == [] then []
    else (if lens[0] < SMALLEST_DUMMY then [] else [Stream.Sent(HANDSHAKE, [4], Some(lens[0]))]) + Dummies(lens[1..])
  }

  /** One for each size that a record can have, in order, and none besides. */
  lemma {:induction false} DummiesImitateAll(lens: seq<nat>, i: nat)
    requires i < |lens|
    ensures Dummies(lens[..i + 1])
         == Dummies(lens[..i]) + if lens[i] >= 23 then [Stream.Sent(22, [4], Some(lens[i]))] else []
  {
    var front, more := lens[..i], lens[..i + 1];
    if i == 0 {
      assert more == [lens[0]] && more[1..] == [] && front == [];
    } else {
      DummiesImitateAll(lens[1..], i - 1);
      assert front[1..] == lens[1..][..i - 1] && more[1..] == lens[1..][..i] && front[0] == more[0] == lens[0];
    }
  }

  lemma {:induction false} DummiesAreInvisible(lens: seq<nat>, i: nat)
    requires i < |Dummies(lens)|
    ensures Dummies(lens)[i].typ == HANDSHAKE && Dummies(lens)[i].pad.Some? && Dummies(lens)[i].pad.value in lens
    ensures forall keys: Keys, n: nat :: keys.aead.Lawful() ==>
              |Stream.RecordOf(keys, n, Dummies(lens)[i])| == Dummies(lens)[i].pad.value
  {
    var skip := if lens[0] < SMALLEST_DUMMY then 0 else 1;
    if i < skip {
      forall keys: Keys, n: nat | keys.aead.Lawful()
        ensures |Stream.RecordOf(keys, n, Dummies(lens)[i])| == lens[0]
      {
        PadHitsLength(keys, n, HANDSHAKE, [4], lens[0]);
      }
    } else {
      DummiesAreInvisible(lens[1..], i - skip);
      assert Dummies(lens)[i] == Dummies(lens[1..])[i - skip];
    }
  }

  /** All records the server sends under its application key before its caller can:
      those imitated with the flight, and those after the client's Finished. */
  function BeforeData(dest: Option<DestFlight>): (sent: seq<Stream.Sent>)
  {
    if dest.None? then [] else Dummies(dest.value.ExtraPads()) + Dummies(dest.value.post)
  }

  // ---------------------------------------------------------------- ServerHello

  function TlsRecordOf(body: seq<byte>): (r: seq<byte>)
  {
    [HANDSHAKE, 3, 3] + Put16(|body|) + body
  }

  /** The site's hello with our key, when it can carry it. */
  function DestHello(dest: Option<DestFlight>, public: Key): (hello: Option<seq<byte>>)
  {
    if dest.None? then None
    else
      var raw := dest.value.serverHello;
      if Server.Parse(raw).None? || SuiteOf(Server.Parse(raw).value.cipher).None? || Server.Window(raw).None? then None
      else Some(Server.Patched(raw, public))
  }

  /** `build_server_hello_handshake` with supported_versions and then key_share. */
  function BuiltHello(random: Key, sessionId: seq<byte>, public: Key): (hello: seq<byte>)
  {
    Message(SERVER_HELLO, HelloBody(random, sessionId, OwnExts(public)))
  }

  function HelloBody(random: Key, sessionId: seq<byte>, exts: seq<byte>): (body: seq<byte>)
  {
    Put16(0x0303) + random + [|sessionId| % 256] + sessionId + Put16(AES_128) + [0] + Put16(|exts|) + exts
  }

  function OwnExts(public: Key): (exts: seq<byte>)
    ensures |exts| == 46
  {
    Put16(43) + Put16(2) + [3, 4] + ShareExt(public)
  }

  function ShareExt(key: Key): (e: seq<byte>)
    ensures |e| == 40
  {
    Put16(Server.KEY_SHARE) + Put16(36) + Put16(Server.GROUP_X25519) + Put16(32) + key
  }

  function HelloFor(dest: Option<DestFlight>, random: Key, sessionId: seq<byte>, public: Key): (hello: seq<byte>)
  {
    var borrowed := DestHello(dest, public);
    if borrowed.Some? then borrowed.value else BuiltHello(random, sessionId, public)
  }

  /** The client reads handshake records until one message is whole; what follows
      it in the same record is dropped. */
  function ReadHello(leftover: seq<byte>, input: seq<byte>): (r: Result<(seq<byte>, seq<byte>), Alert>)
    decreases |input|
  {
    var record := ReadRecord(input);
    if record.Err? then Err(record.error)
    else if record.value.typ != HANDSHAKE then Err(UnexpectedRecord)
    else
      var got := leftover + record.value.body;
      if Split(got).None? then ReadHello(got, record.value.rest)
      else if got[0] != SERVER_HELLO then Err(UnexpectedMessage)
      else Ok((got[..Split(got).value], record.value.rest))
  }

  /** `read_server_hello_msg`. */
  method ReadServerHello(bytes: seq<byte>) returns (r: Result<(seq<byte>, seq<byte>), Alert>)
    ensures r == ReadHello([], bytes)
  {
    var leftover, input := [], bytes;
    while true
      invariant ReadHello(leftover, input) == ReadHello([], bytes)
      decreases |input|
    {
      var record := ReadRecord(input);
      if record.Err? {
        return Err(record.error);
      }
      if record.value.typ != HANDSHAKE {
        return Err(UnexpectedRecord);
      }
      leftover := leftover + record.value.body;
      input := record.value.rest;
      if Split(leftover).Some? {
        if leftover[0] != SERVER_HELLO {
          return Err(UnexpectedMessage);
        }
        return Ok((leftover[..Split(leftover).value], input));
      }
    }
  }

  // --------------------------------------------------------------------- client

  datatype ClientEnd = ClientEnd(transcript: seq<byte>, send: Keys, recv: Keys, output: seq<byte>, rest: seq<byte>)

  /** `connect` after the hello is sent, on the bytes the server sends back. */
  function Connect(c: Crypto, authKey: Key, pin: Option<seq<byte>>, private: Key, hello: seq<byte>,
                   input: seq<byte>): (r: Result<ClientEnd, Alert>)
  {
    var first := ReadHello([], input);
    if first.Err? then Err(first.error)
    else
      var (msg, rest) := first.value;
      var view := Server.Parse(msg);
      if view.None? then Err(BadServerHello)
      else if SuiteOf(view.value.cipher).None? then Err(UnknownCipher)
      else if view.value.x25519.None? then Err(NoShare)
      else
        var shared := c.reality.shared(private, view.value.x25519.value);
        Establish(c, authKey, pin, SuiteOf(view.value.cipher).value, shared, hello + msg, rest)
  }

  function Establish(c: Crypto, authKey: Key, pin: Option<seq<byte>>, suite: Suite, shared: Key, hellos: seq<byte>,
                    input: seq<byte>): (r: Result<ClientEnd, Alert>)
  {
    var secrets := c.handshakeSecrets(suite, shared, c.hash(suite, hellos));
    var x := Context(c, authKey, pin, suite, secrets.server);
    var got := Receive(x, c.keysOf(suite, secrets.server), Phase(hellos, None, false), [], 0, input);
    if got.Err? then Err(got.error)
    else
      var t := got.value.p.transcript;
      var app := c.applicationSecrets(suite, secrets.handshake, c.hash(suite, t));
      var fin := Message(FINISHED, c.finished(suite, secrets.client, c.hash(suite, t)));
      Ok(ClientEnd(t, c.keysOf(suite, app.0), c.keysOf(suite, app.1),
                   CCS + Seal(c.keysOf(suite, secrets.client), 0, HANDSHAKE, fin, None), got.value.rest))
  }

  // --------------------------------------------------------------------- server

  datatype ServerStart = ServerStart(suite: Suite, secrets: Secrets, transcript: seq<byte>, send: Keys, recv: Keys,
                                     flight: seq<Stream.Sent>, output: seq<byte>)

  datatype Own = Own(private: Key, random: Key, id: Identity)

  /** `accept` up to its flush: what it sends and what it remembers. */
  function Accept(c: Crypto, own: Own, dest: Option<DestFlight>, body: seq<byte>): (r: Result<ServerStart, Alert>)
    ensures r.Ok? && c.Lawful() ==> r.value.send.aead.Lawful() && r.value.recv.aead.Lawful()
  {
    var view := Client.Parse(Client.Record(body));
    if view.None? then Err(UnexpectedMessage)
    else if view.value.x25519.None? then Err(NoShare)
    else if Split(body) != Some(|body|) || body[0] != 1 then Err(UnexpectedMessage)
    else
      var hello := HelloFor(dest, own.random, view.value.sessionId, c.reality.public(own.private));
      var parsed := Server.Parse(hello);
      if parsed.None? then Err(BadServerHello)
      else if SuiteOf(parsed.value.cipher).None? then Err(UnknownCipher)
      else
        var shared := c.reality.shared(own.private, view.value.x25519.value);
        var ee := EncryptedExtensions(view.value.alpn);
        Ok(Answer(c, own, dest, SuiteOf(parsed.value.cipher).value, shared, ee, body, hello))
  }

  function Answer(c: Crypto, own: Own, dest: Option<DestFlight>, suite: Suite, shared: Key, ee: seq<byte>,
                  body: seq<byte>, hello: seq<byte>): (s: ServerStart)
    ensures c.Lawful() ==> s.send.aead.Lawful() && s.recv.aead.Lawful()
  {
    var secrets := c.handshakeSecrets(suite, shared, c.hash(suite, body + hello));
    var m := ServerMessages(c, suite, secrets.server, own.id, ee, body + hello);
    var t := body + hello + m.All();
    var app := c.applicationSecrets(suite, secrets.handshake, c.hash(suite, t));
    var flight := Sends(dest, m);
    var dummies := Dummies(if dest.Some? then dest.value.ExtraPads() else []);
    ServerStart(suite, secrets, t, c.keysOf(suite, app.1), c.keysOf(suite, app.0), flight,
                TlsRecordOf(hello) + CCS + WireFrom(c.keysOf(suite, secrets.server), 0, flight)
                + WireFrom(c.keysOf(suite, app.1), 0, dummies))
  }

  /** `accept` after its flush: it waits for the client's Finished. */
  function AwaitFinished(c: Crypto, s: ServerStart, input: seq<byte>): (r: Result<seq<byte>, Alert>)
    decreases |input|
  {
    var record := ReadRecord(input);
    if record.Err? then Err(record.error)
    else if record.value.typ == Stream.CHANGE_CIPHER_SPEC then AwaitFinished(c, s, record.value.rest)
    else if record.value.typ != APPLICATION then Err(UnexpectedRecord)
    else
      var plain := Open(c.keysOf(s.suite, s.secrets.client), 0, record.value.body);
      if plain.BadRecord? then Err(DecryptFailed)
      else if plain.typ != HANDSHAKE then Err(UnexpectedInner)
      else if Split(plain.content).None? then Err(UnexpectedMessage)
      else
        var msg := plain.content[..Split(plain.content).value];
        if msg[0] != FINISHED || |msg| < 4 + HashLen(s.suite) then Err(UnexpectedMessage)
        else if msg[4..] != c.finished(s.suite, s.secrets.client, c.hash(s.suite, s.transcript)) then Err(WrongFinished)
        else Ok(record.value.rest)
  }

  /** What `accept` sends after the client's Finished. */
  function AfterFinished(s: ServerStart, dest: Option<DestFlight>): (output: seq<byte>)
  {
    if dest.None? then []
    else WireFrom(s.send, |Dummies(dest.value.ExtraPads())|, Dummies(dest.value.post))
  }

  /** The waiting loop of `accept`. */
  method WaitForFinished(c: Crypto, s: ServerStart, bytes: seq<byte>) returns (r: Result<seq<byte>, Alert>)
    ensures r == AwaitFinished(c, s, bytes)
  {
    var input := bytes;
    while true
      invariant AwaitFinished(c, s, input) == AwaitFinished(c, s, bytes)
      decreases |input|
    {
      var record := ReadRecord(input);
      if record.Err? {
        return Err(record.error);
      }
      input := record.value.rest;
      if record.value.typ == Stream.CHANGE_CIPHER_SPEC {
        continue;
      }
      if record.value.typ != APPLICATION {
        return Err(UnexpectedRecord);
      }
      var plain := Open(c.keysOf(s.suite, s.secrets.client), 0, record.value.body);
      if plain.BadRecord? {
        return Err(DecryptFailed);
      }
      if plain.typ != HANDSHAKE {
        return Err(UnexpectedInner);
      }
      var n := Split(plain.content);
      if n.None? {
        return Err(UnexpectedMessage);
      }
      var msg := plain.content[..n.value];
      if msg[0] != FINISHED || |msg| < 4 + HashLen(s.suite) {
        return Err(UnexpectedMessage);
      }
      if msg[4..] != c.finished(s.suite, s.secrets.client, c.hash(s.suite, s.transcript)) {
        return Err(WrongFinished);
      }
      return Ok(input);
    }
  }
}
