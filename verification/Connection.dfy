/** The whole way: an honest client is let in, the handshake agrees, and the byte
    channel that follows under its keys is faithful in both directions. */
module Connection {
  import opened Bytes
  import opened TlsRecord
  import opened TlsStream
  import opened Flight
  import opened Handshake
  import opened HandshakeProof
  import Client = ClientHello
  import ClientProof = ClientHelloProof
  import Reality = RealityAuth

  /** The nonce the `i`-th record of a key is sealed under. */
  function NonceOf(keys: Keys, i: nat): (nonce: seq<byte>)
  {
    RecordNonce(keys.iv, i)
  }

  ghost predicate NoncesDiffer(keys: Keys, count: nat)
  {
    forall i, j :: 0 <= i < j < count ==> NonceOf(keys, i) != NonceOf(keys, j)
  }

  /** As long as the counter does not run over its 64 bits. */
  lemma NoNonceTwice(keys: Keys, count: nat)
    requires count <= 0x1_0000_0000_0000_0000
    ensures NoncesDiffer(keys, count)
  {
    forall i, j | 0 <= i < j < count
      ensures NonceOf(keys, i) != NonceOf(keys, j)
    {
      if NonceOf(keys, i) == NonceOf(keys, j) {
        NonceInjective(keys.iv, i, j);
      }
    }
  }

  /** The premises of an honest connection, as in `HonestConnection`. */
  ghost predicate Honest(c: Crypto, client: Reality.ClientConfig, server: Reality.ServerConfig, a: Reality.Attempt,
                         now: u64, own: Own, dest: Option<DestFlight>)
  {
    && c.Lawful() && client.publicKey == c.reality.public(server.privateKey)
    && Client.ValidDraws(a.draws) && Client.Utf8(client.serverName)
    && ClientProof.FieldsFit(client.serverName, a.draws)
    && client.shortId in server.shortIds && Reality.NameAllowed(server, client.serverName)
    && Reality.InTime(server, a.unix % 0x1_0000_0000, now)
    && Minted(c, c.reality.AuthKey(server.privateKey, c.reality.public(a.private), a.random), own.id)
    && HelloWillDo(dest, own.random)
    && var accepted := Accept(c, own, dest, HonestHello(c, client, a));
       accepted.Ok? ==> RecordsFit(accepted.value.flight)
  }

  /** Both ends of an established connection. */
  datatype Ends = Ends(server: ServerStart, client: ClientEnd)

  ghost predicate EndsOf(c: Crypto, client: Reality.ClientConfig, server: Reality.ServerConfig, a: Reality.Attempt,
                         now: u64, pin: Option<seq<byte>>, own: Own, dest: Option<DestFlight>, e: Ends)
    requires c.Lawful() && Client.ValidDraws(a.draws)
  {
    var h := HonestHello(c, client, a);
    var auth := Reality.Authenticate(c.reality, Client.Record(h), server, now);
    && auth.Ok? && Accept(c, own, dest, h) == Ok(e.server)
    && Connect(c, auth.value.authKey, pin, a.private, h, e.server.output) == Ok(e.client)
    && AwaitFinished(c, e.server, e.client.output) == Ok([])
  }

  /** How the two ends fit together. */
  ghost predicate Fitting(e: Ends, dest: Option<DestFlight>)
  {
    && e.client.transcript == e.server.transcript
    && e.client.send == e.server.recv && e.client.recv == e.server.send
    && e.client.rest + AfterFinished(e.server, dest) == Wire(e.server.send, BeforeData(dest))
  }

  lemma Established(c: Crypto, client: Reality.ClientConfig, server: Reality.ServerConfig, a: Reality.Attempt,
                    now: u64, pin: Option<seq<byte>>, own: Own, dest: Option<DestFlight>) returns (e: Ends)
    requires Honest(c, client, server, a, now, own, dest)
    ensures EndsOf(c, client, server, a, now, pin, own, dest, e) && Fitting(e, dest)
  {
    HonestConnection(c, client, server, a, now, pin, own, dest);
    var h := HonestHello(c, client, a);
    var key := Reality.Authenticate(c.reality, Client.Record(h), server, now).value.authKey;
    var s := Accept(c, own, dest, h).value;
    e := Ends(s, Connect(c, key, pin, a.private, h, s.output).value);
    BeforeDataIsStream(s, dest);
  }

  /** A turn in one of the two directions. */
  datatype Side = ToClient(turn: Turn) | ToServer(turn: Turn)

  function Half(turns: seq<Side>, toClient: bool): (half: seq<Turn>)
  {
    if turns == [] then []
    else
      var last := turns[|turns| - 1];
      Half(turns[..|turns| - 1], toClient) + (if last.ToClient? == toClient then [last.turn] else [])
  }

  lemma HalfOfMore(turns: seq<Side>, i: nat, toClient: bool)
    requires i < |turns|
    ensures Half(turns[..i + 1], toClient)
         == if turns[i].ToClient? == toClient then Half(turns[..i], toClient) + [turns[i].turn] else Half(turns[..i], toClient)
  {
    assert turns[..i + 1][..i] == turns[..i];
  }

  /** The log of a direction is up to date. */
  ghost predicate LoggedNow(ch: Channel, turns: seq<Turn>, log: seq<Progress>)
    reads ch.Repr()
  {
    ch.Valid() && Logged(log, turns) && log[|turns|] == ch.Now()
  }

  /** A turn of one direction leaves the other alone. */
  method OneSide(ch: Channel, ghost done: seq<Turn>, turn: Turn, ghost log: seq<Progress>,
                 ghost other: Channel, ghost otherDone: seq<Turn>, ghost otherLog: seq<Progress>)
    returns (ghost longer: seq<Progress>)
    requires LoggedNow(ch, done, log) && LoggedNow(other, otherDone, otherLog) && ch.Repr() !! other.Repr()
    modifies ch.Repr()
    ensures LoggedNow(ch, done + [turn], longer) && old(ch.w.sent) <= ch.w.sent
    ensures LoggedNow(other, otherDone, otherLog) && other.w.sent == old(other.w.sent)
  {
    longer := NextTurn(ch, done, turn, log);
  }

  /** Both directions, their turns in any order. */
  method TalkBothWays(down: Channel, up: Channel, turns: seq<Side>)
    returns (ghost downLog: seq<Progress>, ghost upLog: seq<Progress>)
    requires down.Valid() && up.Valid() && down.Repr() !! up.Repr()
    requires down.Now() == up.Now() == Progress([], [], [])
    modifies down.Repr(), up.Repr()
    ensures down.Valid() && Logged(downLog, Half(turns, true)) && old(down.w.sent) <= down.w.sent
    ensures up.Valid() && Logged(upLog, Half(turns, false))
  {
    downLog, upLog := [Progress([], [], [])], [Progress([], [], [])];
    NothingLogged();
    for i := 0 to |turns|
      invariant LoggedNow(down, Half(turns[..i], true), downLog) && old(down.w.sent) <= down.w.sent
      invariant LoggedNow(up, Half(turns[..i], false), upLog)
    {
      ghost var downs, ups := Half(turns[..i], true), Half(turns[..i], false);
      HalfOfMore(turns, i, true);
      HalfOfMore(turns, i, false);
      match turns[i] {
        case ToClient(turn) => downLog := OneSide(down, downs, turn, downLog, up, ups, upLog);
        case ToServer(turn) => upLog := OneSide(up, ups, turn, upLog, down, downs, downLog);
      }
    }
    assert turns[..|turns|] == turns;
  }

  method NewPair(downKeys: Keys, upKeys: Keys, wire: seq<byte>, dummies: seq<Sent>) returns (down: Channel, up: Channel)
    requires downKeys.aead.Lawful() && upKeys.aead.Lawful() && AllFit(dummies) && wire == Wire(downKeys, dummies)
    requires forall i :: 0 <= i < |dummies| ==> dummies[i].typ == HANDSHAKE
    ensures down.Fresh(downKeys, dummies) && up.Fresh(upKeys, [])
    ensures fresh(down.Repr()) && fresh(up.Repr()) && down.Repr() !! up.Repr()
  {
    down := NewChannel(downKeys, wire, dummies);
    up := NewBeside(upKeys, down, downKeys, dummies, down.Repr());
  }

  /** A new channel leaves another one as it is, and shares nothing with what was there. */
  method NewBeside(keys: Keys, ghost other: Channel, ghost otherKeys: Keys, ghost dummies: seq<Sent>,
                   ghost objects: set<object>) returns (ch: Channel)
    requires keys.aead.Lawful()
    ensures fresh(ch.Repr()) && ch.Repr() !! objects
    ensures (ch.Fresh(keys, []), other.Fresh(otherKeys, dummies)) == (true, old(other.Fresh(otherKeys, dummies)))
  {
    ch := NewChannel(keys, [], []);
  }

  method NewChannel(keys: Keys, wire: seq<byte>, dummies: seq<Sent>) returns (ch: Channel)
    requires keys.aead.Lawful() && AllFit(dummies) && wire == Wire(keys, dummies)
    requires forall i :: 0 <= i < |dummies| ==> dummies[i].typ == HANDSHAKE
    ensures ch.Fresh(keys, dummies) && fresh(ch.Repr())
  {
    ch := new Channel(keys, wire, dummies);
  }

  /** Both directions from their beginning on: new ends, of which one takes over a stream
      that starts with dummies. */
  method FromTheStart(downKeys: Keys, upKeys: Keys, wire: seq<byte>, dummies: seq<Sent>, turns: seq<Side>)
    returns (down: Channel, up: Channel, ghost downLog: seq<Progress>, ghost upLog: seq<Progress>)
    requires downKeys.aead.Lawful() && upKeys.aead.Lawful() && AllFit(dummies) && wire == Wire(downKeys, dummies)
    requires forall i :: 0 <= i < |dummies| ==> dummies[i].typ == HANDSHAKE
    ensures down.Valid() && down.w.keys == downKeys && Logged(downLog, Half(turns, true)) && dummies <= down.w.sent
    ensures up.Valid() && up.w.keys == upKeys && Logged(upLog, Half(turns, false))
  {
    down, up := NewPair(downKeys, upKeys, wire, dummies);
    downLog, upLog := TalkBothWays(down, up, turns);
  }

  /** What holds of a direction at the end: its two ends have the same keys, and no record
      shares its nonce with another. */
  ghost predicate Sound(ch: Channel, keys: Keys)
    reads ch.Repr()
  {
    && ch.Valid() && ch.w.keys == keys == ch.r.keys
    && (ch.w.number <= 0x1_0000_0000_0000_0000 ==> NoncesDiffer(keys, ch.w.number))
  }

  lemma IsSound(ch: Channel)
    requires ch.Valid()
    ensures Sound(ch, ch.w.keys)
  {
    if ch.w.number <= 0x1_0000_0000_0000_0000 {
      NoNonceTwice(ch.w.keys, ch.w.number);
    }
  }

  /** An honest client and server are connected, and what is then written, moved and read
      in both directions, in any order and any pieces, keeps this: after every turn each
      application was given a prefix of what the other end reported taken of the bytes
      written there; the server's dummies are how its stream begins and invisible in it;
      and no record of either direction shares its nonce with another. */
  method Connected(c: Crypto, client: Reality.ClientConfig, server: Reality.ServerConfig, a: Reality.Attempt,
                   now: u64, pin: Option<seq<byte>>, own: Own, dest: Option<DestFlight>, e: Ends, turns: seq<Side>)
    returns (down: Channel, up: Channel, ghost downLog: seq<Progress>, ghost upLog: seq<Progress>)
    requires Honest(c, client, server, a, now, own, dest) && EndsOf(c, client, server, a, now, pin, own, dest, e)
    requires AllFit(BeforeData(dest))
    ensures Sound(down, e.server.send) && e.client.recv == e.server.send
    ensures Sound(up, e.client.send) && e.server.recv == e.client.send
    ensures Logged(downLog, Half(turns, true)) && Logged(upLog, Half(turns, false))
    ensures e.client.rest + AfterFinished(e.server, dest) == Wire(e.server.send, BeforeData(dest))
    ensures BeforeData(dest) <= down.w.sent && AppData(BeforeData(dest)) == []
  {
    ghost var same := Established(c, client, server, a, now, pin, own, dest);
    assert same == e;
    BeforeDataIsStream(e.server, dest);
    down, up, downLog, upLog := FromTheStart(e.server.send, e.client.send,
                                             e.client.rest + AfterFinished(e.server, dest), BeforeData(dest), turns);
    IsSound(down);
    IsSound(up);
  }
}
