/** The client proves itself inside its ClientHello: a stamped short id, sealed
    into the session id under a key both sides derive from X25519. */
module RealityAuth {
  import opened Bytes
  import opened TlsRecord
  import opened ClientHello
  import opened ClientHelloProof
  import opened Shuffle

  const NANOS := 1_000_000_000
  const CLIENT_VERSION: seq<byte> := [0, 2, 0]

  /** X25519, the key derivation of REALITY and AES-256-GCM. */
  datatype Crypto = Crypto(public: Key -> Key, shared: (Key, Key) -> Key, kdf: (Key, seq<byte>) -> Key, aead: Aead)
  {
    ghost predicate Lawful()
    {
      aead.Lawful() && forall a, b :: shared(a, public(b)) == shared(b, public(a))
    }

    function AuthKey(own: Key, peer: Key, random: Key): (k: Key)
    {
      kdf(shared(own, peer), random[..20])
    }
  }

  type ShortId = s: seq<byte> | |s| == 8 witness Zeros(8)

  datatype ClientConfig = ClientConfig(publicKey: Key, shortId: ShortId, serverName: seq<byte>)

  datatype ServerConfig = ServerConfig(privateKey: Key, shortIds: seq<ShortId>, serverNames: seq<seq<byte>>,
                                       maxTimeDiffNanos: nat)

  datatype AuthError = NotClientHello | Rejected

  datatype Authenticated = Authenticated(hello: View, authKey: Key)

  // ------------------------------------------------------------------ session id

  function Plain(stamp: u32, shortId: ShortId): (p: seq<byte>)
    ensures |p| == 16 && p[4..8] == Put(stamp, 4) && p[8..16] == shortId
  {
    CLIENT_VERSION + [0] + Put(stamp, 4) + shortId
  }

  /** The handshake with zeros where its session id was. */
  function Zeroed(h: seq<byte>): (aad: seq<byte>)
    requires |h| >= SESSION_ID_OFFSET + 32
  {
    h[..SESSION_ID_OFFSET] + Zeros(32) + h[SESSION_ID_OFFSET + 32..]
  }

  /** Sixteen bytes come out of thirty-two, as the code takes for granted. */
  function OpenSessionId(c: Crypto, private: Key, peer: Key, random: Key, sealed: seq<byte>, h: seq<byte>): (p: Option<seq<byte>>)
    ensures p.Some? ==> |p.value| == 16
  {
    if |sealed| != 32 || |h| < SESSION_ID_OFFSET + 32 then None
    else
      var p := c.aead.open(c.AuthKey(private, peer, random), random[20..32], Zeroed(h), sealed);
      if p.Some? && |p.value| == 16 then p else None
  }

  // ---------------------------------------------------------------------- server

  function Lower(b: byte): (l: byte)
  {
    if 0x41 <= b <= 0x5a then b + 0x20 else b
  }

  /** `eq_ignore_ascii_case`. */
  predicate SameName(a: seq<byte>, b: seq<byte>)
  {
    |a| == |b| && forall i :: 0 <= i < |a| ==> Lower(a[i]) == Lower(b[i])
  }

  predicate NameAllowed(config: ServerConfig, sni: seq<byte>)
  {
    config.serverNames == [] || exists i :: 0 <= i < |config.serverNames| && SameName(config.serverNames[i], sni)
  }

  /** No limit at zero; otherwise whole seconds of difference are compared with
      the whole seconds of the limit. */
  predicate InTime(config: ServerConfig, stamp: nat, now: u64)
  {
    config.maxTimeDiffNanos == 0 || (if now > stamp then now - stamp else stamp - now) <= config.maxTimeDiffNanos / NANOS
  }

  function Authenticate(c: Crypto, record: seq<byte>, config: ServerConfig, now: u64): (r: Result<Authenticated, AuthError>)
  {
    var parsed := Parse(record);
    if parsed.None? then Err(NotClientHello)
    else
      var view := parsed.value;
      var sni := if view.sni.Some? then view.sni.value else [];
      if |view.sessionId| != 32 || !NameAllowed(config, sni) || view.x25519.None? then Err(Rejected)
      else
        var handshake := HandshakeFromRecord(record);
        if handshake.None? then Err(NotClientHello)
        else
          var peer := view.x25519.value;
          var plain := OpenSessionId(c, config.privateKey, peer, view.random, view.sessionId, handshake.value);
          if plain.None? || plain.value[8..16] !in config.shortIds then Err(Rejected)
          else if !InTime(config, Get(plain.value[4..8]), now) then Err(Rejected)
          else Ok(Authenticated(view, c.AuthKey(config.privateKey, peer, view.random)))
  }

  /** The same letter, large or small. */
  predicate SameLetter(a: byte, b: byte)
  {
    a == b || (0x41 <= a <= 0x5a && b == a + 0x20) || (0x61 <= a <= 0x7a && b == a - 0x20)
  }

  /** Names are compared without regard to the case of ASCII letters. */
  ghost predicate ListsName(names: seq<seq<byte>>, sni: seq<byte>)
  {
    exists name :: name in names && |name| == |sni| && forall j :: 0 <= j < |sni| ==> SameLetter(name[j], sni[j])
  }

  lemma AllowedIffListed(config: ServerConfig, sni: seq<byte>)
    ensures NameAllowed(config, sni) <==> config.serverNames == [] || ListsName(config.serverNames, sni)
  {
    forall name: seq<byte>
      ensures SameName(name, sni) <==> |name| == |sni| && forall j :: 0 <= j < |sni| ==> SameLetter(name[j], sni[j])
    {
      assert forall a, b :: SameLetter(a, b) <==> Lower(a) == Lower(b);
    }
  }

  /** The session id of a hello, opened under the key both sides share: the additional
      data are the handshake bytes with zeros from 39 to 71. */
  ghost predicate Opens(c: Crypto, private: Key, v: View, h: seq<byte>, plain: seq<byte>)
    requires v.x25519.Some?
  {
    && |v.sessionId| == 32 && |h| >= 71 && |plain| == 16
    && c.aead.open(c.kdf(c.shared(private, v.x25519.value), v.random[..20]), v.random[20..32],
                   h[..39] + Zeros(32) + h[71..], v.sessionId) == Some(plain)
  }

  /** Bytes 8 to 16 are a listed short id, and bytes 4 to 8 seconds near enough to now. */
  ghost predicate Vouches(config: ServerConfig, plain: seq<byte>, now: u64)
    requires |plain| == 16
  {
    && plain[8..16] in config.shortIds
    && (config.maxTimeDiffNanos != 0 ==>
          var limit := config.maxTimeDiffNanos / 1_000_000_000;
          Get(plain[4..8]) - limit <= now <= Get(plain[4..8]) + limit)
  }

  /** The handshake bytes of a record: what its length field says, behind five bytes. */
  ghost predicate Carries(record: seq<byte>, h: seq<byte>)
  {
    |record| >= 5 + |h| && record[0] == 0x16 && U16(record[3], record[4]) == |h| && record[5..5 + |h|] == h
  }

  lemma CarriesIff(record: seq<byte>, h: seq<byte>)
    ensures Carries(record, h) <==> HandshakeFromRecord(record) == Some(h)
  {
  }

  /** Whatever record a stranger sends: it is let in if and only if it parses, with a
      32-byte session id, a key share and an allowed name, and its session id opens to a
      listed short id with a near enough stamp. The key is then the shared one. A record
      that is no ClientHello is called that, and every other one is rejected. */
  lemma LetInIff(c: Crypto, record: seq<byte>, config: ServerConfig, now: u64)
    ensures var r, v := Authenticate(c, record, config, now), Parse(record);
            && (r == Err(NotClientHello) <==> v.None?)
            && (r.Ok? <==>
                 && v.Some? && v.value.x25519.Some?
                 && (config.serverNames == []
                     || ListsName(config.serverNames, if v.value.sni.Some? then v.value.sni.value else []))
                 && exists h, plain :: Carries(record, h) && Opens(c, config.privateKey, v.value, h, plain)
                      && Vouches(config, plain, now))
            && (r.Ok? ==> r.value == Authenticated(v.value, c.kdf(c.shared(config.privateKey, v.value.x25519.value),
                                                                 v.value.random[..20])))
  {
    var v := Parse(record);
    if v.Some? {
      var h := HandshakeFromRecord(record).value;
      AllowedIffListed(config, if v.value.sni.Some? then v.value.sni.value else []);
      CarriesIff(record, h);
      forall other | Carries(record, other)
        ensures other == h
      {
        CarriesIff(record, other);
      }
      if v.value.x25519.Some? {
        OpensIff(c, config.privateKey, v.value, h);
      }
    }
  }

  /** Nothing else comes out of a session id than what it opens to. */
  lemma OpensIff(c: Crypto, private: Key, v: View, h: seq<byte>)
    requires v.x25519.Some?
    ensures var p := OpenSessionId(c, private, v.x25519.value, v.random, v.sessionId, h);
            forall plain :: Opens(c, private, v, h, plain) <==> p == Some(plain)
  {
  }

  // ---------------------------------------------------------------------- client

  /** What the client draws and reads before it sends. */
  datatype Attempt = Attempt(private: Key, random: Key, unix: u64, draws: Draws)

  function Order(c: Crypto, config: ClientConfig, a: Attempt): (middle: seq<Entry>)
    requires |a.draws.order| == 15
  {
    Shuffled(Middle(config.serverName, c.public(a.private), a.draws), 15, a.draws.order)
  }

  ghost function SealedId(c: Crypto, config: ClientConfig, a: Attempt): (sealed: Key)
    requires c.Lawful() && |a.draws.order| == 15
  {
    c.aead.seal(c.AuthKey(a.private, config.publicKey, a.random), a.random[20..32],
                Hello(a.random, Zeros(32), Order(c, config, a), a.draws), Plain(a.unix % 0x1_0000_0000, config.shortId))
  }

  /** The start of `connect`: the hello is built around an empty session id, which
      is then sealed over the rest of it and written in. */
  method FirstRecord(c: Crypto, config: ClientConfig, a: Attempt) returns (record: seq<byte>, authKey: Key)
    requires c.Lawful() && ValidDraws(a.draws)
    ensures authKey == c.AuthKey(a.private, config.publicKey, a.random)
    ensures record == Record(Hello(a.random, SealedId(c, config, a), Order(c, config, a), a.draws))
  {
    var exts := EncodeExtensions(config.serverName, c.public(a.private), a.draws);
    var handshake := Handshake(Body(a.random, Zeros(32), GreasePair(a.draws.first, a.draws.second).0, exts));
    authKey := c.AuthKey(a.private, config.publicKey, a.random);
    var sealed := c.aead.seal(authKey, a.random[20..32], handshake, Plain(a.unix % 0x1_0000_0000, config.shortId));
    assert sealed == SealedId(c, config, a);
    SessionIdSplice(a.random, Zeros(32), sealed, Order(c, config, a), a.draws);
    handshake := handshake[..SESSION_ID_OFFSET] + sealed + handshake[SESSION_ID_OFFSET + 32..];
    record := Record(handshake);
  }

  // ------------------------------------------------------------------- agreement

  lemma StampReads(stamp: u32)
    ensures Get(Put(stamp, 4)) == stamp
  {
    Pow256Values();
    GetPut(stamp, 4);
  }

  lemma SameKey(c: Crypto, a: Key, b: Key, random: Key)
    requires c.Lawful()
    ensures c.AuthKey(a, c.public(b), random) == c.AuthKey(b, c.public(a), random)
  {
    assert c.shared(a, c.public(b)) == c.shared(b, c.public(a));
  }

  /** The server opens what the client sealed: its additional data are the hello
      with the zeros back in place, and both keys come from the same secret. */
  lemma SessionIdOpens(c: Crypto, config: ClientConfig, private: Key, a: Attempt)
    requires c.Lawful() && config.publicKey == c.public(private) && ValidDraws(a.draws)
    ensures var sealed := SealedId(c, config, a);
            && OpenSessionId(c, private, c.public(a.private), a.random, sealed,
                             Hello(a.random, sealed, Order(c, config, a), a.draws))
            == Some(Plain(a.unix % 0x1_0000_0000, config.shortId))
    ensures c.AuthKey(a.private, config.publicKey, a.random) == c.AuthKey(private, c.public(a.private), a.random)
  {
    SameKey(c, a.private, private, a.random);
    var middle := Order(c, config, a);
    var sealed := SealedId(c, config, a);
    ZeroedHello(a.random, sealed, middle, a.draws);
    SealedOpens(c, a.private, private, a.random, Hello(a.random, Zeros(32), middle, a.draws),
                Hello(a.random, sealed, middle, a.draws), Plain(a.unix % 0x1_0000_0000, config.shortId));
  }

  /** Sealed over `aad` by one side, opened with `h` by the other. */
  lemma SealedOpens(c: Crypto, a: Key, b: Key, random: Key, aad: seq<byte>, h: seq<byte>, plain: seq<byte>)
    requires c.Lawful() && |plain| == 16 && |h| >= SESSION_ID_OFFSET + 32 && Zeroed(h) == aad
    ensures var sealed := c.aead.seal(c.AuthKey(a, c.public(b), random), random[20..32], aad, plain);
            |sealed| == 32 && OpenSessionId(c, b, c.public(a), random, sealed, h) == Some(plain)
  {
    SameKey(c, a, b, random);
    var key := c.AuthKey(a, c.public(b), random);
    var sealed := c.aead.seal(key, random[20..32], aad, plain);
    assert |sealed| == 32 && c.aead.open(key, random[20..32], aad, sealed) == Some(plain);
  }

  lemma ZeroedHello(random: Key, sealed: Key, middle: seq<Entry>, d: Draws)
    ensures var h := Hello(random, sealed, middle, d);
            |h| >= SESSION_ID_OFFSET + 32 && Zeroed(h) == Hello(random, Zeros(32), middle, d)
  {
    SessionIdSplice(random, sealed, Zeros(32), middle, d);
  }

  /** An honest client is let in if and only if its short id is listed, its server
      name is allowed and its clock is near enough; both sides then hold the same
      key. Otherwise it is rejected, never taken for something else. */
  lemma HonestIffConfigured(c: Crypto, client: ClientConfig, server: ServerConfig, a: Attempt, now: u64)
    requires c.Lawful() && client.publicKey == c.public(server.privateKey)
    requires ValidDraws(a.draws) && Utf8(client.serverName) && FieldsFit(client.serverName, a.draws)
    ensures var sealed := SealedId(c, client, a);
            var record := Record(Hello(a.random, sealed, Order(c, client, a), a.draws));
            var view := View(a.random, sealed, Some(client.serverName), Some(c.public(a.private)), [H2, HTTP11]);
            Authenticate(c, record, server, now) ==
              if && client.shortId in server.shortIds && NameAllowed(server, client.serverName)
                 && InTime(server, a.unix % 0x1_0000_0000, now)
              then Ok(Authenticated(view, c.AuthKey(a.private, client.publicKey, a.random)))
              else Err(Rejected)
  {
    var middle := Order(c, client, a);
    ShufflePermutes(Middle(client.serverName, c.public(a.private), a.draws), 15, a.draws.order);
    HelloRoundTrip(a.random, SealedId(c, client, a), client.serverName, c.public(a.private), a.draws, middle);
    SessionIdOpens(c, client, server.privateKey, a);
    StampReads(a.unix % 0x1_0000_0000);
  }

  lemma DefaultLimits(client: ClientConfig, server: ServerConfig, unix: u64, now: u64)
    requires server.maxTimeDiffNanos == 120 * NANOS && server.serverNames == [client.serverName]
    requires unix < 0x1_0000_0000
    ensures NameAllowed(server, client.serverName)
    ensures InTime(server, unix % 0x1_0000_0000, now) <==> -120 <= now - unix <= 120
  {
    assert SameName(server.serverNames[0], client.serverName);
  }

  /** The default server: one name, two minutes; clocks before the year 2106. */
  lemma AcceptedWithinTwoMinutes(c: Crypto, client: ClientConfig, server: ServerConfig, a: Attempt, now: u64)
    requires c.Lawful() && client.publicKey == c.public(server.privateKey)
    requires ValidDraws(a.draws) && Utf8(client.serverName) && FieldsFit(client.serverName, a.draws)
    requires server.maxTimeDiffNanos == 120 * NANOS && server.serverNames == [client.serverName]
    requires client.shortId in server.shortIds && a.unix < 0x1_0000_0000
    ensures var record := Record(Hello(a.random, SealedId(c, client, a), Order(c, client, a), a.draws));
            Authenticate(c, record, server, now).Ok? <==> -120 <= now - a.unix <= 120
  {
    HonestIffConfigured(c, client, server, a, now);
    DefaultLimits(client, server, a.unix, now);
  }

  lemma LawfulCryptoExists()
    ensures exists c: Crypto :: c.Lawful()
  {
    LawfulExists();
    var aead: Aead :| aead.Lawful();
    var c := Crypto((k: Key) => k, (a: Key, b: Key) => Zeros(32), (s: Key, salt: seq<byte>) => s, aead);
    assert c.Lawful();
  }
}
