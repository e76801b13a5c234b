/** Handshake messages (section 4 of RFC 8446), the client's checks on the
    server's flight, and its reassembly from records cut anywhere. */
module Flight {
  import opened Bytes
  import opened TlsRecord
  import Stream = TlsStream
  import Server = ServerHello
  import Reality = RealityAuth

  type Key = Server.Key

  const SERVER_HELLO: byte := 2
  const ENCRYPTED_EXTENSIONS: byte := 8
  const CERTIFICATE: byte := 11
  const CERTIFICATE_VERIFY: byte := 15
  const FINISHED: byte := 20
  const ED25519: u16 := 0x0807

  // ------------------------------------------------------------------- crypto

  datatype Suite = Aes128GcmSha256 | Aes256GcmSha384 | ChaCha20Poly1305Sha256

  function SuiteOf(id: u16): (s: Option<Suite>)
  {
    if id == 0x1301 then Some(Aes128GcmSha256)
    else if id == 0x1302 then Some(Aes256GcmSha384)
    else if id == 0x1303 then Some(ChaCha20Poly1305Sha256)
    else None
  }

  function HashLen(s: Suite): (n: nat)
  {
    if s == Aes256GcmSha384 then 48 else 32
  }

  datatype Secrets = Secrets(client: seq<byte>, server: seq<byte>, handshake: seq<byte>)

  /** The key schedule, the transcript hash and certificate checks, as functions
      of which only `Lawful` is known. */
  datatype Crypto = Crypto(
    reality: Reality.Crypto,
    hash: (Suite, seq<byte>) -> seq<byte>,
    handshakeSecrets: (Suite, Key, seq<byte>) -> Secrets,
    applicationSecrets: (Suite, seq<byte>, seq<byte>) -> (seq<byte>, seq<byte>),
    keysOf: (Suite, seq<byte>) -> Keys,
    finished: (Suite, seq<byte>, seq<byte>) -> seq<byte>,
    macMatches: (Key, seq<byte>) -> bool,
    verifies: (seq<byte>, u16, seq<byte>, seq<byte>) -> bool)
  {
    ghost predicate Lawful()
    {
      && reality.Lawful()
      && (forall s, secret :: keysOf(s, secret).aead.Lawful())
      && (forall s, secret, h :: |finished(s, secret, h)| == HashLen(s))
    }
  }

  /** The server's certificate and its signing key. */
  datatype Identity = Identity(leaf: seq<byte>, sign: seq<byte> -> seq<byte>)

  /** Minted for this connection: marked with the shared key, and its signatures
      verify. */
  ghost predicate Minted(c: Crypto, authKey: Key, id: Identity)
  {
    && c.macMatches(authKey, id.leaf)
    && forall m :: |id.sign(m)| < 0x1_0000 && c.verifies(id.leaf, ED25519, m, id.sign(m))
  }

  // ------------------------------------------------------------------ messages

  function Message(typ: byte, body: seq<byte>): (m: seq<byte>)
    ensures |m| == 4 + |body| && m[0] == typ && m[4..] == body
    ensures |body| < 0x100_0000 ==> U24(m[1], m[2], m[3]) == |body|
  {
    ThreeParts(typ, Put24(|body|), body);
    [typ] + Put24(|body|) + body
  }

  lemma ThreeParts(typ: byte, len: seq<byte>, body: seq<byte>)
    requires |len| == 3
    ensures var m := [typ] + len + body;
            |m| == 4 + |body| && m[0] == typ && m[1] == len[0] && m[2] == len[1] && m[3] == len[2] && m[4..] == body
  {
  }

  /** The length of the first message of a buffer, once it is complete. */
  function Split(buf: seq<byte>): (n: Option<nat>)
    ensures n.Some? ==> 4 <= n.value <= |buf|
  {
    if |buf| < 4 || |buf| < 4 + U24(buf[1], buf[2], buf[3]) then None else Some(4 + U24(buf[1], buf[2], buf[3]))
  }

  function Sized24(b: seq<byte>): (r: seq<byte>)
    ensures |r| == 3 + |b|
  {
    Put24(|b|) + b
  }

  function Unsized24(b: seq<byte>): (r: Option<seq<byte>>)
  {
    if |b| < 3 || |b| < 3 + U24(b[0], b[1], b[2]) then None else Some(b[3..3 + U24(b[0], b[1], b[2])])
  }

  lemma UnsizedOfSized24(b: seq<byte>, rest: seq<byte>)
    requires |b| < 0x100_0000
    ensures Unsized24(Sized24(b) + rest) == Some(b)
  {
    var len := Put24(|b|);
    var all := Sized24(b) + rest;
    assert all[0] == len[0] && all[1] == len[1] && all[2] == len[2] && all[3..3 + |b|] == b;
  }

  function CertificateMsg(leaf: seq<byte>): (m: seq<byte>)
  {
    Message(CERTIFICATE, [0] + Sized24(Sized24(leaf) + [0, 0]))
  }

  function ParseCertificate(msg: seq<byte>): (leaf: Option<seq<byte>>)
    requires |msg| >= 4
  {
    var body := Unsized24(msg[1..]);
    if body.None? || |body.value| < 1 then None
    else
      var list := Unsized24(body.value[1..]);
      if list.None? then None else Unsized24(list.value)
  }

  lemma WithoutType(typ: byte, len: seq<byte>, body: seq<byte>)
    ensures ([typ] + len + body)[1..] == len + body
  {
  }

  lemma UnsizedWhole(b: seq<byte>)
    requires |b| < 0x100_0000
    ensures Unsized24(Sized24(b)) == Some(b)
  {
    UnsizedOfSized24(b, []);
    assert Sized24(b) + [] == Sized24(b);
  }

  lemma CertificateRoundTrip(leaf: seq<byte>)
    requires |leaf| + 9 < 0x100_0000
    ensures ParseCertificate(CertificateMsg(leaf)) == Some(leaf)
    ensures Split(CertificateMsg(leaf)) == Some(|CertificateMsg(leaf)|)
  {
    var list := Sized24(leaf) + [0, 0];
    var body := [0] + Sized24(list);
    WithoutType(CERTIFICATE, Put24(|body|), body);
    UnsizedWhole(body);
    UnsizedWhole(list);
    UnsizedOfSized24(leaf, [0, 0]);
    assert body[1..] == Sized24(list);
  }

  /** What the server signs: the context of section 4.4.3 and the transcript hash. */
  function Signed(hash: seq<byte>): (m: seq<byte>)
  {
    seq(64, _ => 0x20) + [
      0x54, 0x4c, 0x53, 0x20, 0x31, 0x2e, 0x33, 0x2c, 0x20, 0x73, 0x65, 0x72, 0x76, 0x65, 0x72, 0x20, 0x43, 0x65,
      0x72, 0x74, 0x69, 0x66, 0x69, 0x63, 0x61, 0x74, 0x65, 0x56, 0x65, 0x72, 0x69, 0x66, 0x79, 0] + hash
  }

  /** Section 4.4.3 of RFC 8446: 64 spaces, the context, a zero and the hash. */
  lemma SignedIs(hash: seq<byte>)
    ensures var m, context := Signed(hash), "TLS 1.3, server CertificateVerify";
            && |m| == 64 + |context| + 1 + |hash| && m[..64] == seq(64, _ => 0x20)
            && (forall i :: 0 <= i < |context| ==> m[64 + i] == context[i] as int)
            && m[64 + |context|] == 0 && m[65 + |context|..] == hash
  {
  }

  function VerifyMsg(signature: seq<byte>): (m: seq<byte>)
  {
    Message(CERTIFICATE_VERIFY, Put16(ED25519) + Put16(|signature|) + signature)
  }

  predicate KnownScheme(scheme: u16)
  {
    scheme == 0x0403 || scheme == 0x0503 || scheme == 0x0804 || scheme == 0x0805 || scheme == ED25519
  }

  predicate VerifyOk(c: Crypto, leaf: seq<byte>, msg: seq<byte>, hash: seq<byte>)
    requires |msg| >= 4
  {
    var body := Unsized24(msg[1..]);
    if body.None? || |body.value| < 4 then false
    else
      var b := body.value;
      var scheme, n := U16(b[0], b[1]), U16(b[2], b[3]);
      |b| >= 4 + n && KnownScheme(scheme) && c.verifies(leaf, scheme, Signed(hash), b[4..4 + n])
  }

  lemma VerifyRoundTrip(c: Crypto, authKey: Key, id: Identity, hash: seq<byte>)
    requires Minted(c, authKey, id)
    ensures VerifyOk(c, id.leaf, VerifyMsg(id.sign(Signed(hash))), hash)
  {
    var signed := Signed(hash);
    var sig := id.sign(signed);
    assert |sig| < 0x1_0000 && c.verifies(id.leaf, ED25519, signed, sig);
    SignatureFields(Put16(ED25519), Put16(|sig|), sig);
    var body := Put16(ED25519) + Put16(|sig|) + sig;
    WithoutType(CERTIFICATE_VERIFY, Put24(|body|), body);
    UnsizedWhole(body);
  }

  lemma SignatureFields(scheme: seq<byte>, len: seq<byte>, sig: seq<byte>)
    requires |scheme| == |len| == 2
    ensures var b := scheme + len + sig;
            && b[0] == scheme[0] && b[1] == scheme[1] && b[2] == len[0] && b[3] == len[1]
            && b[4..4 + |sig|] == sig
  {
  }

  // --------------------------------------------------------- the client's checks

  /** What the client knows once the hellos are exchanged. */
  datatype Context = Context(c: Crypto, authKey: Key, pin: Option<seq<byte>>, suite: Suite, serverSecret: seq<byte>)
  {
    function Hash(transcript: seq<byte>): (h: seq<byte>)
    {
      c.hash(suite, transcript)
    }
  }

  datatype Phase = Phase(transcript: seq<byte>, leaf: Option<seq<byte>>, finished: bool)

  datatype Alert =
    | EndOfStream | BadLength | DecryptFailed | UnexpectedRecord | UnexpectedInner
    | BadCertificate | WrongCertificate | VerifyTooEarly | BadVerify
    | ShortFinished | WrongFinished | UnexpectedMessage | BadServerHello | UnknownCipher | NoShare

  function OnMessage(x: Context, p: Phase, msg: seq<byte>): (r: Result<Phase, Alert>)
    requires |msg| >= 4
  {
    var next := p.(transcript := p.transcript + msg);
    if msg[0] == ENCRYPTED_EXTENSIONS then Ok(next)
    else if msg[0] == CERTIFICATE then
      var leaf := ParseCertificate(msg);
      if leaf.None? then Err(BadCertificate)
      else if !x.c.macMatches(x.authKey, leaf.value) && x.pin != leaf then Err(WrongCertificate)
      else Ok(next.(leaf := leaf))
    else if msg[0] == CERTIFICATE_VERIFY then
      if p.leaf.None? then Err(VerifyTooEarly)
      else if !VerifyOk(x.c, p.leaf.value, msg, x.Hash(p.transcript)) then Err(BadVerify)
      else Ok(next)
    else if msg[0] == FINISHED then
      if |msg| < 4 + HashLen(x.suite) then Err(ShortFinished)
      else if msg[4..] != x.c.finished(x.suite, x.serverSecret, x.Hash(p.transcript)) then Err(WrongFinished)
      else Ok(next.(finished := true))
    else if (msg[0] == 4 || msg[0] == 24) && p.finished then Ok(p)
    else Err(UnexpectedMessage)
  }

  /** Handles every complete message of the buffer and gives back what is left. */
  function Drain(x: Context, p: Phase, buf: seq<byte>): (r: Result<(Phase, seq<byte>), Alert>)
    decreases |buf|
  {
    if Split(buf).None? then Ok((p, buf))
    else
      var n := Split(buf).value;
      var next := OnMessage(x, p, buf[..n]);
      if next.Err? then Err(next.error) else Drain(x, next.value, buf[n..])
  }

  /** The inner loop of the client. */
  method DrainBuffer(x: Context, start: Phase, input: seq<byte>) returns (r: Result<(Phase, seq<byte>), Alert>)
    ensures r == Drain(x, start, input)
  {
    var p, buf := start, input;
    while Split(buf).Some?
      invariant Drain(x, p, buf) == Drain(x, start, input)
      decreases |buf|
    {
      var n := Split(buf).value;
      var next := OnMessage(x, p, buf[..n]);
      if next.Err? {
        return Err(next.error);
      }
      p, buf := next.value, buf[n..];
    }
    r := Ok((p, buf));
  }

  /** All messages are accepted, and Finished is the last of them. */
  predicate Complete(x: Context, p: Phase, buf: seq<byte>)
    decreases |buf|
  {
    && !p.finished && Split(buf).Some?
    && var n := Split(buf).value;
       var next := OnMessage(x, p, buf[..n]);
       next.Ok? && (if next.value.finished then n == |buf| else Complete(x, next.value, buf[n..]))
  }

  lemma {:induction false} CompleteDrains(x: Context, p: Phase, buf: seq<byte>)
    requires Complete(x, p, buf)
    ensures var r := Drain(x, p, buf); r.Ok? && r.value.0.finished && r.value.1 == []
    decreases |buf|
  {
    var n := Split(buf).value;
    var next := OnMessage(x, p, buf[..n]).value;
    if next.finished {
      assert buf[n..] == [];
      assert Split([]).None?;
    } else {
      CompleteDrains(x, next, buf[n..]);
    }
  }

  lemma SplitPrefix(a: seq<byte>, b: seq<byte>)
    requires Split(a).Some?
    ensures Split(a + b) == Split(a) && (a + b)[..Split(a).value] == a[..Split(a).value]
    ensures (a + b)[Split(a).value..] == a[Split(a).value..] + b
  {
    assert (a + b)[1] == a[1] && (a + b)[2] == a[2] && (a + b)[3] == a[3];
  }

  /** A cut anywhere inside a complete flight: the first part is accepted without
      finishing, and what is left over completes with the second part. */
  lemma {:induction false} CutAnywhere(x: Context, p: Phase, a: seq<byte>, b: seq<byte>)
    requires Complete(x, p, a + b) && b != []
    ensures var r := Drain(x, p, a);
            && r.Ok? && !r.value.0.finished && Complete(x, r.value.0, r.value.1 + b)
            && Drain(x, p, a + b) == Drain(x, r.value.0, r.value.1 + b)
    decreases |a|
  {
    if Split(a).Some? {
      SplitPrefix(a, b);
      var n := Split(a).value;
      var next := OnMessage(x, p, a[..n]).value;
      CutAnywhere(x, next, a[n..], b);
    }
  }

  // --------------------------------------------------------------------- records

  datatype Wired = Wired(typ: byte, body: seq<byte>, rest: seq<byte>)

  /** `read_record` on the bytes that are to come. */
  function ReadRecord(input: seq<byte>): (r: Result<Wired, Alert>)
    ensures r.Ok? ==> |r.value.rest| < |input|
  {
    if |input| < HEADER_SIZE then Err(EndOfStream)
    else
      var len := U16(input[3], input[4]);
      if len == 0 || len > MAX_RECORD then Err(BadLength)
      else if |input| < HEADER_SIZE + len then Err(EndOfStream)
      else Ok(Wired(input[0], input[HEADER_SIZE..HEADER_SIZE + len], input[HEADER_SIZE + len..]))
  }

  datatype Received = Received(p: Phase, rest: seq<byte>)

  /** The client reads records until the server is finished; `n` is the number of
      the next encrypted record. */
  function Receive(x: Context, keys: Keys, p: Phase, buf: seq<byte>, n: nat, input: seq<byte>): (r: Result<Received, Alert>)
    decreases |input|
  {
    if p.finished then Ok(Received(p, input))
    else
      var record := ReadRecord(input);
      if record.Err? then Err(record.error)
      else if record.value.typ == Stream.CHANGE_CIPHER_SPEC then Receive(x, keys, p, buf, n, record.value.rest)
      else if record.value.typ != APPLICATION then Err(UnexpectedRecord)
      else
        var plain := Open(keys, n, record.value.body);
        if plain.BadRecord? then Err(DecryptFailed)
        else if plain.typ != HANDSHAKE then Err(UnexpectedInner)
        else
          var next := Drain(x, p, buf + plain.content);
          if next.Err? then Err(next.error)
          else Receive(x, keys, next.value.0, next.value.1, n + 1, record.value.rest)
  }

  /** The receiving loop of `connect`. */
  method ReceiveFlight(x: Context, keys: Keys, start: Phase, bytes: seq<byte>) returns (r: Result<Received, Alert>)
    ensures r == Receive(x, keys, start, [], 0, bytes)
  {
    var p, buf, n, input := start, [], 0, bytes;
    while !p.finished
      invariant Receive(x, keys, p, buf, n, input) == Receive(x, keys, start, [], 0, bytes)
      decreases |input|
    {
      var record := ReadRecord(input);
      if record.Err? {
        return Err(record.error);
      }
      input := record.value.rest;
      if record.value.typ == Stream.CHANGE_CIPHER_SPEC {
        continue;
      }
      if record.value.typ != APPLICATION {
        return Err(UnexpectedRecord);
      }
      var plain := Open(keys, n, record.value.body);
      if plain.BadRecord? {
        return Err(DecryptFailed);
      }
      if plain.typ != HANDSHAKE {
        return Err(UnexpectedInner);
      }
      n := n + 1;
      var next := DrainBuffer(x, p, buf + plain.content);
      if next.Err? {
        return Err(next.error);
      }
      p, buf := next.value.0, next.value.1;
    }
    r := Ok(Received(p, input));
  }

  /** The records of a list, numbered from `n`. */
  function WireFrom(keys: Keys, n: nat, sent: seq<Stream.Sent>): (w: seq<byte>)
    decreases |sent|
  {
    if sent == [] then [] else Stream.RecordOf(keys, n, sent[0]) + WireFrom(keys, n + 1, sent[1..])
  }

  function Contents(sent: seq<Stream.Sent>): (c: seq<byte>)
  {
    if sent == [] then [] else sent[0].content + Contents(sent[1..])
  }

  lemma ReadSealed(keys: Keys, n: nat, s: Stream.Sent, rest: seq<byte>)
    requires keys.aead.Lawful() && Stream.Fits(s)
    ensures var r := ReadRecord(Stream.RecordOf(keys, n, s) + rest);
            && r.Ok? && r.value.typ == APPLICATION && r.value.rest == rest
            && Open(keys, n, r.value.body) == Opened(s.typ, s.content)
  {
    SealOpens(keys, n, s.typ, s.content, s.pad);
    var record := Stream.RecordOf(keys, n, s);
    ReadWhole(record[..HEADER_SIZE], record[HEADER_SIZE..], rest);
    assert record == record[..HEADER_SIZE] + record[HEADER_SIZE..];
  }

  lemma ReadWhole(header: seq<byte>, body: seq<byte>, rest: seq<byte>)
    requires |header| == HEADER_SIZE && U16(header[3], header[4]) == |body| && 0 < |body| <= MAX_RECORD
    ensures ReadRecord(header + body + rest) == Ok(Wired(header[0], body, rest))
  {
    var all := header + body + rest;
    assert all[0] == header[0] && all[3] == header[3] && all[4] == header[4];
    assert all[HEADER_SIZE..HEADER_SIZE + |body|] == body && all[HEADER_SIZE + |body|..] == rest;
  }

  predicate HandshakeRecord(s: Stream.Sent)
  {
    s.typ == HANDSHAKE && Stream.Fits(s) && s.content != []
  }

  lemma ReceiveOne(x: Context, keys: Keys, p: Phase, buf: seq<byte>, n: nat, s: Stream.Sent, tail: seq<byte>)
    requires keys.aead.Lawful() && HandshakeRecord(s) && !p.finished && Drain(x, p, buf + s.content).Ok?
    ensures var next := Drain(x, p, buf + s.content).value;
            Receive(x, keys, p, buf, n, Stream.RecordOf(keys, n, s) + tail) == Receive(x, keys, next.0, next.1, n + 1, tail)
  {
    ReadSealed(keys, n, s, tail);
  }

  lemma Heads(keys: Keys, n: nat, sent: seq<Stream.Sent>, buf: seq<byte>, rest: seq<byte>)
    requires sent != []
    ensures WireFrom(keys, n, sent) + rest
         == Stream.RecordOf(keys, n, sent[0]) + (WireFrom(keys, n + 1, sent[1..]) + rest)
    ensures buf + Contents(sent) == buf + sent[0].content + Contents(sent[1..])
  {
  }

  lemma LastRecord(x: Context, keys: Keys, p: Phase, buf: seq<byte>, n: nat, s: Stream.Sent, rest: seq<byte>)
    requires keys.aead.Lawful() && HandshakeRecord(s) && Complete(x, p, buf + s.content)
    ensures var whole := Drain(x, p, buf + s.content);
            && whole.Ok?
            && Receive(x, keys, p, buf, n, Stream.RecordOf(keys, n, s) + rest) == Ok(Received(whole.value.0, rest))
  {
    CompleteDrains(x, p, buf + s.content);
    ReceiveOne(x, keys, p, buf, n, s, rest);
  }

  /** However the flight is cut into records and padded, the client ends where it
      would end on the flight in one piece, and reads no record too many. */
  lemma {:induction false} AnyCutIsReceived(x: Context, keys: Keys, p: Phase, buf: seq<byte>, n: nat,
                                            sent: seq<Stream.Sent>, rest: seq<byte>)
    requires keys.aead.Lawful() && sent != [] && forall i :: 0 <= i < |sent| ==> HandshakeRecord(sent[i])
    requires Complete(x, p, buf + Contents(sent))
    ensures var whole := Drain(x, p, buf + Contents(sent));
            && whole.Ok?
            && Receive(x, keys, p, buf, n, WireFrom(keys, n, sent) + rest) == Ok(Received(whole.value.0, rest))
    decreases |sent|
  {
    var got, later := buf + sent[0].content, Contents(sent[1..]);
    var tail := WireFrom(keys, n + 1, sent[1..]) + rest;
    Heads(keys, n, sent, buf, rest);
    if |sent| == 1 {
      assert got + Contents(sent[1..]) == got && WireFrom(keys, n + 1, sent[1..]) + rest == rest;
      LastRecord(x, keys, p, buf, n, sent[0], rest);
    } else {
      CutAnywhere(x, p, got, later);
      ReceiveOne(x, keys, p, buf, n, sent[0], tail);
      var next := Drain(x, p, got).value;
      AnyCutIsReceived(x, keys, next.0, next.1, n + 1, sent[1..], rest);
    }
  }
}
