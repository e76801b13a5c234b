/** Both sides of an honest handshake end with the same transcript and keys,
    whatever sizes the server imitates. */
module HandshakeProof {
  import opened Bytes
  import opened TlsRecord
  import opened Flight
  import opened Handshake
  import Stream = TlsStream
  import Server = ServerHello
  import Client = ClientHello
  import ClientProof = ClientHelloProof
  import Reality = RealityAuth
  import Shuffle

  // ------------------------------------------------------- the flight is accepted

  /** The bytes are one message, whole. */
  ghost predicate Whole(m: seq<byte>)
  {
    Split(m) == Some(|m|)
  }

  lemma MessageIsWhole(typ: byte, body: seq<byte>)
    requires |body| < 0x100_0000
    ensures Whole(Message(typ, body))
  {
  }

  /** The client accepts `flight` from `p` on and ends in `q`. */
  ghost predicate Accepts(x: Context, p: Phase, flight: seq<byte>, q: Phase)
  {
    Complete(x, p, flight) && Drain(x, p, flight) == Ok((q, []))
  }

  /** A whole message that takes an unfinished client from `p` to `q`. */
  ghost predicate Leads(x: Context, p: Phase, m: seq<byte>, q: Phase)
  {
    Whole(m) && !p.finished && OnMessage(x, p, m) == Ok(q)
  }

  /** One message in front of the rest of a flight. */
  lemma OneMore(x: Context, p: Phase, q: Phase, m: seq<byte>, rest: seq<byte>, last: Phase)
    requires Leads(x, p, m, q)
    requires if rest == [] then q.finished && q == last else !q.finished && Accepts(x, q, rest, last)
    ensures Accepts(x, p, m + rest, last)
  {
    if rest == [] {
      assert m + rest == m && m[..|m|] == m && m[|m|..] == [] && Split([]).None?;
    } else {
      SplitPrefix(m, rest);
      assert m[..|m|] == m && m[|m|..] + rest == rest;
    }
  }

  lemma FourMessages(x: Context, p: seq<Phase>, a: seq<byte>, b: seq<byte>, d: seq<byte>, e: seq<byte>)
    requires |p| == 5 && p[4].finished && a != [] && b != [] && d != [] && e != []
    requires Leads(x, p[0], a, p[1]) && Leads(x, p[1], b, p[2]) && Leads(x, p[2], d, p[3]) && Leads(x, p[3], e, p[4])
    ensures Accepts(x, p[0], a + b + d + e, p[4])
  {
    OneMore(x, p[3], p[4], e, [], p[4]);
    assert e + [] == e;
    OneMore(x, p[2], p[3], d, e, p[4]);
    OneMore(x, p[1], p[2], b, d + e, p[4]);
    OneMore(x, p[0], p[1], a, b + (d + e), p[4]);
    FourJoined(a, b, d, e);
  }

  ghost predicate Small(m: Messages)
  {
    |m.ee| + |m.cert| + |m.cv| + |m.fin| < 0x100_0000
  }

  function After(p: Phase, msg: seq<byte>): (q: Phase)
  {
    p.(transcript := p.transcript + msg)
  }

  function CvFor(x: Context, p: Phase, id: Identity): (m: seq<byte>)
  {
    VerifyMsg(id.sign(Signed(x.Hash(p.transcript))))
  }

  function FinFor(x: Context, p: Phase): (m: seq<byte>)
    ensures |m| >= 4 && m[0] == FINISHED
  {
    Message(FINISHED, x.c.finished(x.suite, x.serverSecret, x.Hash(p.transcript)))
  }

  lemma FinishedTaken(x: Context, p: Phase, m: seq<byte>)
    requires |m| == 4 + HashLen(x.suite) && m[0] == FINISHED
    requires m[4..] == x.c.finished(x.suite, x.serverSecret, x.Hash(p.transcript))
    ensures OnMessage(x, p, m) == Ok(After(p, m).(finished := true))
  {
  }

  lemma FinLeads(x: Context, p: Phase)
    requires x.c.Lawful() && !p.finished
    ensures Leads(x, p, FinFor(x, p), After(p, FinFor(x, p)).(finished := true))
    ensures |FinFor(x, p)| == 4 + HashLen(x.suite)
  {
    var verify := x.c.finished(x.suite, x.serverSecret, x.Hash(p.transcript));
    assert |verify| == HashLen(x.suite);
    MessageIsWhole(FINISHED, verify);
    FinishedTaken(x, p, FinFor(x, p));
  }

  lemma VerifyLeads(x: Context, p: Phase, id: Identity)
    requires Minted(x.c, x.authKey, id) && p.leaf == Some(id.leaf) && !p.finished
    ensures Leads(x, p, CvFor(x, p, id), After(p, CvFor(x, p, id)))
  {
    VerifyRoundTrip(x.c, x.authKey, id, x.Hash(p.transcript));
  }

  lemma CertificateLeads(x: Context, p: Phase, id: Identity)
    requires Minted(x.c, x.authKey, id) && |id.leaf| + 9 < 0x100_0000 && !p.finished
    ensures Leads(x, p, CertificateMsg(id.leaf), After(p, CertificateMsg(id.leaf)).(leaf := Some(id.leaf)))
  {
    CertificateRoundTrip(id.leaf);
  }

  /** EncryptedExtensions, as far as the client looks at them. */
  ghost predicate IsEe(ee: seq<byte>)
  {
    |ee| >= 4 && ee[0] == ENCRYPTED_EXTENSIONS && (|ee| < 0x100_0000 ==> Whole(ee))
  }

  lemma EncryptedExtensionsAreEe(alpn: seq<seq<byte>>)
    ensures IsEe(EncryptedExtensions(alpn))
  {
    var body := Client.Sized(Client.EncodeAll(Echo(alpn)));
    if |body| < 0x100_0000 {
      MessageIsWhole(ENCRYPTED_EXTENSIONS, body);
    }
  }

  lemma LeafSize(leaf: seq<byte>)
    ensures |CertificateMsg(leaf)| == |leaf| + 13
  {
  }

  /** In one piece, the server's flight passes every check of the client and
      leaves it with the server's own transcript. */
  lemma FlightIsComplete(x: Context, id: Identity, ee: seq<byte>, hellos: seq<byte>)
    requires x.c.Lawful() && Minted(x.c, x.authKey, id) && IsEe(ee)
    requires Small(ServerMessages(x.c, x.suite, x.serverSecret, id, ee, hellos))
    ensures var m := ServerMessages(x.c, x.suite, x.serverSecret, id, ee, hellos);
            Accepts(x, Phase(hellos, None, false), m.All(), Phase(hellos + m.All(), Some(id.leaf), true))
  {
    var m := ServerMessages(x.c, x.suite, x.serverSecret, id, ee, hellos);
    var p := Phase(hellos, None, false);
    var p1 := After(p, m.ee);
    var p2 := After(p1, m.cert).(leaf := Some(id.leaf));
    var p3 := After(p2, m.cv);
    LeafSize(id.leaf);
    CertificateLeads(x, p1, id);
    VerifyLeads(x, p2, id);
    FinLeads(x, p3);
    FourMessages(x, [p, p1, p2, p3, After(p3, m.fin).(finished := true)], m.ee, m.cert, m.cv, m.fin);
    FiveJoined(hellos, m.ee, m.cert, m.cv, m.fin);
  }

  lemma FiveJoined(h: seq<byte>, a: seq<byte>, b: seq<byte>, d: seq<byte>, e: seq<byte>)
    ensures h + a + b + d + e == h + (a + b + d + e)
  {
  }

  /** What the site's visitors would call the negotiated protocol: the client can
      read the one the server chose, h2 whenever it was offered. */
  lemma EchoIsReadable(alpn: seq<seq<byte>>)
    requires forall p :: p in alpn ==> |p| < 256
    ensures var body := EncryptedExtensions(alpn)[4..];
            && Client.Unsized(body).Some?
            && Client.Entries(Client.Unsized(body).value) == Some(Echo(alpn))
            && (alpn != [] ==> Client.ParseAlpn(Echo(alpn)[0].data) == [Chosen(alpn)])
  {
    if alpn == [] {
      Client.UnsizedOfSized([]);
    } else {
      var proto := Chosen(alpn);
      OneName(proto);
      Client.AlpnRoundTrip([proto]);
      ClientProof.EncodeOne(Echo(alpn)[0]);
      Client.UnsizedOfSized(Client.EncodeAll(Echo(alpn)));
      Client.EntriesOfEncoded(Echo(alpn));
    }
  }

  lemma OneName(proto: seq<byte>)
    ensures |Client.EncodeProtocols([proto])| == 1 + |proto|
  {
    assert [proto][1..] == [];
  }

  // ------------------------------------------------------- what the client checked

  /** A Finished over exactly what came before it stands in the transcript. */
  ghost predicate Confirmed(x: Context, transcript: seq<byte>)
  {
    exists n: nat, m: nat :: ConfirmedAt(x, transcript, n, m)
  }

  ghost predicate ConfirmedAt(x: Context, t: seq<byte>, n: nat, m: nat)
  {
    n + 4 <= m <= |t| && t[n] == FINISHED && t[n + 4..m] == x.c.finished(x.suite, x.serverSecret, x.Hash(t[..n]))
  }

  /** The certificate it holds is marked or pinned, and it is finished only on a
      confirmed transcript. */
  ghost predicate Checked(x: Context, p: Phase)
  {
    && (p.leaf.Some? ==> x.c.macMatches(x.authKey, p.leaf.value) || x.pin == p.leaf)
    && (p.finished ==> Confirmed(x, p.transcript))
  }

  lemma ConfirmedGrows(x: Context, t: seq<byte>, more: seq<byte>)
    requires Confirmed(x, t)
    ensures Confirmed(x, t + more)
  {
    var n: nat, m: nat :| ConfirmedAt(x, t, n, m);
    assert (t + more)[..n] == t[..n] && (t + more)[n + 4..m] == t[n + 4..m];
    assert ConfirmedAt(x, t + more, n, m);
  }

  lemma MessageKeepsChecked(x: Context, p: Phase, msg: seq<byte>)
    requires |msg| >= 4 && Checked(x, p) && OnMessage(x, p, msg).Ok?
    ensures Checked(x, OnMessage(x, p, msg).value)
  {
    if p.finished {
      ConfirmedGrows(x, p.transcript, msg);
    }
    if msg[0] == FINISHED {
      var all := p.transcript + msg;
      assert all[..|p.transcript|] == p.transcript && all[|p.transcript| + 4..|all|] == msg[4..];
      assert ConfirmedAt(x, all, |p.transcript|, |all|);
    }
  }

  lemma {:induction false} DrainKeepsChecked(x: Context, p: Phase, buf: seq<byte>)
    requires Checked(x, p) && Drain(x, p, buf).Ok?
    ensures Checked(x, Drain(x, p, buf).value.0)
    decreases |buf|
  {
    if Split(buf).Some? {
      var n := Split(buf).value;
      MessageKeepsChecked(x, p, buf[..n]);
      DrainKeepsChecked(x, OnMessage(x, p, buf[..n]).value, buf[n..]);
    }
  }

  /** Whatever bytes a server sends: when the client goes on, it has seen a Finished
      over the transcript it computed itself, and any certificate it took is one
      it was told to trust. */
  lemma {:induction false} ClientGoesOnOnlyChecked(x: Context, keys: Keys, p: Phase, buf: seq<byte>, n: nat, input: seq<byte>)
    requires Checked(x, p) && Receive(x, keys, p, buf, n, input).Ok?
    ensures var q := Receive(x, keys, p, buf, n, input).value.p; Checked(x, q) && q.finished
    decreases |input|
  {
    if !p.finished {
      var record := ReadRecord(input).value;
      if record.typ == Stream.CHANGE_CIPHER_SPEC {
        ClientGoesOnOnlyChecked(x, keys, p, buf, n, record.rest);
      } else {
        var plain := Open(keys, n, record.body);
        DrainKeepsChecked(x, p, buf + plain.content);
        var next := Drain(x, p, buf + plain.content).value;
        ClientGoesOnOnlyChecked(x, keys, next.0, next.1, n + 1, record.rest);
      }
    }
  }

  // ------------------------------------------------------------------- the wire

  /** One record or four: the contents are the flight. */
  lemma SendsContents(dest: Option<DestFlight>, m: Messages)
    ensures Contents(Sends(dest, m)) == m.All()
  {
    var sent := Sends(dest, m);
    if |sent| == 1 {
      assert Contents(sent[1..]) == [];
    } else {
      ContentsOfFour(sent[0], sent[1], sent[2], sent[3]);
    }
  }

  lemma ContentsOfFour(a: Stream.Sent, b: Stream.Sent, d: Stream.Sent, e: Stream.Sent)
    ensures Contents([a, b, d, e]) == a.content + b.content + d.content + e.content
  {
    assert [a, b, d, e][1..] == [b, d, e] && [b, d, e][1..] == [d, e] && [d, e][1..] == [e] && [e][1..] == [];
    assert Contents([e]) == e.content;
    assert Contents([d, e]) == d.content + e.content;
    assert Contents([b, d, e]) == b.content + (d.content + e.content);
  }

  /** Every record of the flight stays within what the receiver takes. */
  ghost predicate RecordsFit(sent: seq<Stream.Sent>)
  {
    forall i :: 0 <= i < |sent| ==> Stream.Fits(sent[i])
  }

  lemma FittingIsSmall(dest: Option<DestFlight>, m: Messages)
    requires RecordsFit(Sends(dest, m))
    ensures Small(m)
  {
    var sent := Sends(dest, m);
    assert Stream.Fits(sent[0]);
    if |sent| == 4 {
      assert Stream.Fits(sent[1]) && Stream.Fits(sent[2]) && Stream.Fits(sent[3]);
    }
  }

  lemma CcsIsSkipped(x: Context, keys: Keys, p: Phase, rest: seq<byte>)
    requires !p.finished
    ensures Receive(x, keys, p, [], 0, CCS + rest) == Receive(x, keys, p, [], 0, rest)
  {
    ReadWhole(CCS[..5], CCS[5..], rest);
    assert CCS == CCS[..5] + CCS[5..];
  }

  /** The client, from the change of cipher on. */
  lemma SendsAreReceived(x: Context, keys: Keys, p: Phase, q: Phase, dest: Option<DestFlight>, m: Messages, rest: seq<byte>)
    requires keys.aead.Lawful() && RecordsFit(Sends(dest, m)) && m.ee != [] && m.cert != [] && m.cv != [] && m.fin != []
    requires Accepts(x, p, m.All(), q)
    ensures Receive(x, keys, p, [], 0, CCS + (WireFrom(keys, 0, Sends(dest, m)) + rest)) == Ok(Received(q, rest))
  {
    var sent := Sends(dest, m);
    SendsContents(dest, m);
    assert [] + Contents(sent) == m.All();
    AnyCutIsReceived(x, keys, p, [], 0, sent, rest);
    CcsIsSkipped(x, keys, p, WireFrom(keys, 0, sent) + rest);
  }

  lemma FlightIsReceived(x: Context, keys: Keys, id: Identity, ee: seq<byte>, hellos: seq<byte>,
                         dest: Option<DestFlight>, rest: seq<byte>)
    requires x.c.Lawful() && Minted(x.c, x.authKey, id) && keys.aead.Lawful() && IsEe(ee)
    requires RecordsFit(Sends(dest, ServerMessages(x.c, x.suite, x.serverSecret, id, ee, hellos)))
    ensures var m := ServerMessages(x.c, x.suite, x.serverSecret, id, ee, hellos);
            Receive(x, keys, Phase(hellos, None, false), [], 0, CCS + (WireFrom(keys, 0, Sends(dest, m)) + rest))
            == Ok(Received(Phase(hellos + m.All(), Some(id.leaf), true), rest))
  {
    var m := ServerMessages(x.c, x.suite, x.serverSecret, id, ee, hellos);
    FittingIsSmall(dest, m);
    FlightIsComplete(x, id, ee, hellos);
    SendsAreReceived(x, keys, Phase(hellos, None, false), Phase(hellos + m.All(), Some(id.leaf), true), dest, m, rest);
  }

  // -------------------------------------------------------------- the ServerHello

  /** A hello both sides read alike: alone in its record and with our key. */
  ghost predicate Usable(hello: seq<byte>, public: Key)
  {
    && Server.Parse(hello).Some? && SuiteOf(Server.Parse(hello).value.cipher).Some?
    && Server.Parse(hello).value.x25519 == Some(public)
    && Split(hello) == Some(|hello|) && |hello| <= MAX_RECORD
  }

  lemma ReadHelloRecord(hello: seq<byte>, rest: seq<byte>)
    requires Split(hello).Some? && hello[0] == SERVER_HELLO && |hello| <= MAX_RECORD
    ensures ReadHello([], TlsRecordOf(hello) + rest) == Ok((hello[..Split(hello).value], rest))
  {
    var header := [HANDSHAKE, 3, 3] + Put16(|hello|);
    RecordHeader(Put16(|hello|));
    ReadWhole(header, hello, rest);
    assert [] + hello == hello;
  }

  lemma RecordHeader(len: seq<byte>)
    requires |len| == 2
    ensures var h := [HANDSHAKE, 3, 3] + len; |h| == HEADER_SIZE && h[0] == HANDSHAKE && h[3] == len[0] && h[4] == len[1]
  {
  }

  /** The server hashes what it sent, the client the first message in it: their
      transcripts start alike if and only if there is nothing after that message. */
  lemma HellosAgreeIffAlone(client: seq<byte>, hello: seq<byte>, rest: seq<byte>)
    requires Server.Parse(hello).Some? && |hello| <= MAX_RECORD
    ensures var r := ReadHello([], TlsRecordOf(hello) + rest);
            && r.Ok?
            && (client + r.value.0 == client + hello <==> Split(hello) == Some(|hello|))
  {
    ReadHelloRecord(hello, rest);
    var n := Split(hello).value;
    if n == |hello| {
      assert hello[..n] == hello;
    } else {
      assert |client + hello[..n]| < |client + hello|;
    }
  }

  /** The site's hello can be borrowed when it is a single message with one key
      share and a suite we speak. */
  lemma BorrowedIsUsable(dest: DestFlight, public: Key)
    requires Server.Parse(dest.serverHello).Some? && SuiteOf(Server.Parse(dest.serverHello).value.cipher).Some?
    requires Server.Parse(dest.serverHello).value.x25519.Some? && Server.ShareCount(dest.serverHello) == 1
    requires Split(dest.serverHello) == Some(|dest.serverHello|) && |dest.serverHello| <= MAX_RECORD
    ensures DestHello(Some(dest), public).Some? && Usable(DestHello(Some(dest), public).value, public)
  {
    var raw := dest.serverHello;
    Server.PatchKeepsView(raw, public);
    var p := Server.Patched(raw, public);
    var k := Server.Window(raw).value;
    assert Server.Replaced(raw, p, k, public);
    SameLength(raw, p, k, public);
  }

  lemma SameLength(raw: seq<byte>, p: seq<byte>, k: nat, public: Key)
    requires Server.Replaced(raw, p, k, public) && k >= 52
    ensures Split(p) == Split(raw)
  {
    if |raw| >= 4 {
      assert p[1] == raw[1] && p[2] == raw[2] && p[3] == raw[3];
    }
  }

  lemma ShareExtFields(key: Key)
    ensures var e := ShareExt(key);
            && U16(e[0], e[1]) == Server.KEY_SHARE && U16(e[2], e[3]) == 36 && U16(e[4], e[5]) == Server.GROUP_X25519
            && U16(e[6], e[7]) == 32 && e[8..40] == key
  {
    var x := Put16(Server.KEY_SHARE) + Put16(36);
    var y := Put16(Server.GROUP_X25519) + Put16(32);
    assert ShareExt(key) == x + y + key;
  }

  /** The numbers in the extensions we build. */
  lemma OwnExtsFields(public: Key)
    ensures var e := OwnExts(public);
            && U16(e[0], e[1]) == 43 && U16(e[2], e[3]) == 2 && U16(e[6], e[7]) == Server.KEY_SHARE
            && U16(e[8], e[9]) == 36 && U16(e[10], e[11]) == Server.GROUP_X25519 && U16(e[12], e[13]) == 32
            && e[14..46] == public
  {
    ShareExtFields(public);
    Behind(Put16(43) + Put16(2) + [3, 4], ShareExt(public));
    VersionFields();
  }

  /** And where they lie in a body that ends with them. */
  lemma OwnExtsAt(b: seq<byte>, at: nat, public: Key)
    requires |b| == at + 46 && b[at..] == OwnExts(public)
    ensures U16(b[at], b[at + 1]) == 43 && U16(b[at + 2], b[at + 3]) == 2
    ensures U16(b[at + 6], b[at + 7]) == Server.KEY_SHARE && U16(b[at + 8], b[at + 9]) == 36
    ensures U16(b[at + 10], b[at + 11]) == Server.GROUP_X25519 && U16(b[at + 12], b[at + 13]) == 32
    ensures b[at + 14..] == public
  {
    OwnExtsFields(public);
    var e := b[at..];
    assert forall i {:trigger e[i]} :: 0 <= i < 46 ==> e[i] == b[at + i];
    assert b[at + 14..] == e[14..46];
  }

  lemma VersionFields()
    ensures var v := Put16(43) + Put16(2) + [3, 4]; |v| == 6 && U16(v[0], v[1]) == 43 && U16(v[2], v[3]) == 2
  {
  }

  lemma Behind(v: seq<byte>, e: seq<byte>)
    requires |v| == 6 && |e| == 40
    ensures var all := v + e;
            && (forall i :: 0 <= i < 6 ==> all[i] == v[i]) && (forall i :: 6 <= i < 46 ==> all[i] == e[i - 6])
            && all[14..46] == e[8..40]
  {
  }

  /** Two extensions that fill the range, the second a plain X25519 share. */
  lemma OwnSlots(b: seq<byte>, at: nat)
    requires |b| == at + 46 && U16(b[at + 2], b[at + 3]) == 2 && U16(b[at + 8], b[at + 9]) == 36
    ensures Server.Slots(b, at, |b|) == Some([Server.Slot(U16(b[at], b[at + 1]), at + 4, 2),
                                              Server.Slot(U16(b[at + 6], b[at + 7]), at + 10, 36)])
  {
    var mid, second := at + 6, Server.Slot(U16(b[at + 6], b[at + 7]), at + 10, 36);
    assert Server.Slots(b, at + 46, |b|) == Some([]);
    assert b[mid] == b[at + 6] && b[mid + 1] == b[at + 7] && U16(b[mid + 2], b[mid + 3]) == 36;
    assert [second] + [] == [second];
    assert Server.Slots(b, mid, |b|) == Some([second]);
    var first := Server.Slot(U16(b[at], b[at + 1]), at + 4, 2);
    assert [first] + [second] == [first, second];
  }

  lemma OwnKey(b: seq<byte>, at: nat, public: Key)
    requires |b| == at + 46 && U16(b[at + 10], b[at + 11]) == Server.GROUP_X25519 && U16(b[at + 12], b[at + 13]) == 32
    requires b[at + 14..] == public
    ensures Server.KeyOf(b, [Server.Slot(43, at + 4, 2), Server.Slot(Server.KEY_SHARE, at + 10, 36)]) == Some(public)
  {
    assert Server.KeyAt(b, at + 10, 36) == Some(at + 14);
    assert b[at + 14..at + 46] == b[at + 14..];
  }

  /** The fixed part of a built body, in terms of its pieces. */
  lemma OwnBody(version: seq<byte>, random: Key, sid: seq<byte>, cipher: seq<byte>, len: seq<byte>, exts: seq<byte>)
    requires |version| == |cipher| == |len| == 2 && |sid| < 256
    ensures var b, n := version + random + [|sid| % 256] + sid + cipher + [0] + len + exts, |sid|;
            && |b| == 40 + n + |exts| && b[2..34] == random && b[34] == n && b[35..35 + n] == sid
            && b[35 + n] == cipher[0] && b[36 + n] == cipher[1] && b[38 + n] == len[0] && b[39 + n] == len[1]
            && b[40 + n..] == exts
  {
    var front := version + random + [|sid| % 256];
    var b := version + random + [|sid| % 256] + sid + cipher + [0] + len + exts;
    assert b == front + sid + (cipher + [0] + len) + exts;
    assert front[2..34] == random;
    ClientProof.Parts(front, sid, cipher + [0] + len, exts);
    assert b[2..34] == b[..35][2..34];
  }

  lemma OwnBodyView(b: seq<byte>, random: Key, sid: seq<byte>, public: Key)
    requires random != Server.HRR_RANDOM && |sid| < 256 && |b| == 86 + |sid|
    requires b[2..34] == random && b[34] == |sid| && b[35..35 + |sid|] == sid
    requires U16(b[35 + |sid|], b[36 + |sid|]) == AES_128 && U16(b[38 + |sid|], b[39 + |sid|]) == 46
    requires b[40 + |sid|..] == OwnExts(public)
    ensures Server.ViewOf(b) == Some(Server.View(random, sid, AES_128, [43, Server.KEY_SHARE], Some(public)))
  {
    var at := 40 + |sid|;
    OwnExtsAt(b, at, public);
    OwnSlots(b, at);
    OwnKey(b, at, public);
    assert Server.ExtRange(b) == Some(Server.Range(at, |b|));
    var slots := [Server.Slot(43, at + 4, 2), Server.Slot(Server.KEY_SHARE, at + 10, 36)];
    assert Server.BodySlots(b) == Some(slots);
    assert Server.Types(slots) == [43, Server.KEY_SHARE];
  }

  /** The hello the server builds when it has none to borrow. */
  lemma BuiltIsUsable(random: Key, sid: seq<byte>, public: Key)
    requires random != Server.HRR_RANDOM && |sid| < 256
    ensures Usable(BuiltHello(random, sid, public), public)
  {
    var b := BuiltHello(random, sid, public)[4..];
    OwnBody(Put16(0x0303), random, sid, Put16(AES_128), Put16(46), OwnExts(public));
    OwnBodyView(b, random, sid, public);
    BodyIs(BuiltHello(random, sid, public), b);
  }

  lemma BodyIs(m: seq<byte>, b: seq<byte>)
    requires |m| == 4 + |b| >= 6 && m[0] == SERVER_HELLO && U24(m[1], m[2], m[3]) == |b| && m[4..] == b
    ensures Server.Body(m) == Some(b)
  {
    assert m[4..4 + |b|] == b;
  }

  // ------------------------------------------------------- which hello is sent

  /** The site's hello is one with a suite we speak and a key that can be replaced. */
  ghost predicate Borrows(dest: Option<DestFlight>)
  {
    && dest.Some? && Server.Parse(dest.value.serverHello).Some? && Server.Window(dest.value.serverHello).Some?
    && Server.Parse(dest.value.serverHello).value.cipher in {0x1301, 0x1302, 0x1303}
  }

  predicate SuiteIs(s: Suite, cipher: u16)
  {
    match s
    case Aes128GcmSha256 => cipher == 0x1301
    case Aes256GcmSha384 => cipher == 0x1302
    case ChaCha20Poly1305Sha256 => cipher == 0x1303
  }

  /** The output begins with this hello in a record, and the change of cipher. */
  ghost predicate Opening(output: seq<byte>, hello: seq<byte>)
  {
    [22, 3, 3] + Put16(|hello|) + hello + [20, 3, 3, 0, 1, 1] <= output
  }

  lemma SessionIdIsShort(record: seq<byte>)
    requires Client.Parse(record).Some?
    ensures |Client.Parse(record).value.sessionId| < 256
  {
  }

  /** A hello with the reserved random of a retry request is not one. */
  lemma BuiltView(random: Key, sid: seq<byte>, public: Key)
    requires |sid| < 256
    ensures var hello := BuiltHello(random, sid, public);
            && Server.Parse(hello) == (if random == Server.HRR_RANDOM then None
                                       else Some(Server.View(random, sid, AES_128, [43, Server.KEY_SHARE], Some(public))))
            && |hello| == 90 + |sid| && hello[44 + |sid|..50 + |sid|] == [0, 43, 0, 2, 3, 4]
  {
    var hello := BuiltHello(random, sid, public);
    var b := hello[4..];
    OwnBody(Put16(0x0303), random, sid, Put16(AES_128), Put16(46), OwnExts(public));
    BodyIs(hello, b);
    if random != Server.HRR_RANDOM {
      OwnBodyView(b, random, sid, public);
    }
    VersionAt(hello, |sid|, public);
  }

  lemma VersionAt(hello: seq<byte>, n: nat, public: Key)
    requires |hello| == 90 + n && hello[4..][40 + n..] == OwnExts(public)
    ensures hello[44 + n..50 + n] == [0, 43, 0, 2, 3, 4]
  {
    assert OwnExts(public)[..6] == Put16(43) + Put16(2) + [3, 4];
    assert hello[44 + n..50 + n] == hello[4..][40 + n..][..6];
  }

  /** The hello the server chose: the site's with our key, or its own. */
  ghost predicate InTheSitesWords(own: Own, dest: Option<DestFlight>, sid: seq<byte>, public: Key, hello: seq<byte>, k: nat)
  {
    && Server.Parse(hello).Some?
    && if Borrows(dest) then
         var theirs := dest.value.serverHello;
         && Server.Replaced(theirs, hello, k, public) && Server.KeyOfShare(theirs, k)
         && Server.Parse(hello).value.cipher == Server.Parse(theirs).value.cipher
       else
         && Server.Parse(hello) == Some(Server.View(own.random, sid, 0x1301, [43, 51], Some(public)))
         && |hello| == 90 + |sid| && hello[44 + |sid|..50 + |sid|] == [0, 43, 0, 2, 3, 4]
  }

  lemma ChosenHello(own: Own, dest: Option<DestFlight>, sid: seq<byte>, public: Key) returns (k: nat)
    requires |sid| < 256 && Server.Parse(HelloFor(dest, own.random, sid, public)).Some?
    ensures InTheSitesWords(own, dest, sid, public, HelloFor(dest, own.random, sid, public), k)
  {
    k := 0;
    if Borrows(dest) {
      var theirs := dest.value.serverHello;
      k := Server.Window(theirs).value;
      Server.WindowIsKey(theirs);
      Server.ParseReplaced(theirs, Server.Patched(theirs, public), public);
    } else {
      BuiltView(own.random, sid, public);
    }
  }

  /** When the server answers, and in whose words: the site's hello with our key in the
      place of a key of its own and in the site's suite, whenever that can be borrowed;
      otherwise one with our random, the client's session id, TLS 1.3 and our key. */
  lemma AnswersInTheSitesWords(c: Crypto, own: Own, dest: Option<DestFlight>, body: seq<byte>)
    returns (hello: seq<byte>, k: nat)
    requires Accept(c, own, dest, body).Ok?
    ensures var s, view := Accept(c, own, dest, body).value, Client.Parse(Client.Record(body)).value;
            && Opening(s.output, hello) && body + hello <= s.transcript
            && InTheSitesWords(own, dest, view.sessionId, c.reality.public(own.private), hello, k)
            && SuiteIs(s.suite, Server.Parse(hello).value.cipher)
  {
    var view, public := Client.Parse(Client.Record(body)).value, c.reality.public(own.private);
    SessionIdIsShort(Client.Record(body));
    var suite, shared, ee;
    hello, suite, shared, ee := AcceptIs(c, own, dest, body);
    k := ChosenHello(own, dest, view.sessionId, public);
    AnswerBegins(c, own, dest, suite, shared, ee, body, hello);
  }

  lemma AcceptIs(c: Crypto, own: Own, dest: Option<DestFlight>, body: seq<byte>)
    returns (hello: seq<byte>, suite: Suite, shared: Key, ee: seq<byte>)
    requires Accept(c, own, dest, body).Ok?
    ensures var view := Client.Parse(Client.Record(body));
            view.Some? && hello == HelloFor(dest, own.random, view.value.sessionId, c.reality.public(own.private))
    ensures Server.Parse(hello).Some? && SuiteOf(Server.Parse(hello).value.cipher) == Some(suite)
    ensures Accept(c, own, dest, body) == Ok(Answer(c, own, dest, suite, shared, ee, body, hello))
  {
    AcceptChecks(c, own, dest, body);
    var view := Client.Parse(Client.Record(body)).value;
    hello := HelloFor(dest, own.random, view.sessionId, c.reality.public(own.private));
    suite := SuiteOf(Server.Parse(hello).value.cipher).value;
    shared, ee := c.reality.shared(own.private, view.x25519.value), EncryptedExtensions(view.alpn);
    AcceptWith(c, own, dest, body, view, hello, suite);
  }

  lemma AcceptChecks(c: Crypto, own: Own, dest: Option<DestFlight>, body: seq<byte>)
    requires Accept(c, own, dest, body).Ok?
    ensures var view := Client.Parse(Client.Record(body));
            && view.Some? && view.value.x25519.Some?
            && var hello := HelloFor(dest, own.random, view.value.sessionId, c.reality.public(own.private));
               Server.Parse(hello).Some? && SuiteOf(Server.Parse(hello).value.cipher).Some?
  {
  }

  lemma AcceptWith(c: Crypto, own: Own, dest: Option<DestFlight>, body: seq<byte>, view: Client.View, hello: seq<byte>,
                   suite: Suite)
    requires Accept(c, own, dest, body).Ok? && Client.Parse(Client.Record(body)) == Some(view) && view.x25519.Some?
    requires hello == HelloFor(dest, own.random, view.sessionId, c.reality.public(own.private))
    requires Server.Parse(hello).Some? && SuiteOf(Server.Parse(hello).value.cipher) == Some(suite)
    ensures Accept(c, own, dest, body)
         == Ok(Answer(c, own, dest, suite, c.reality.shared(own.private, view.x25519.value), EncryptedExtensions(view.alpn),
                      body, hello))
  {
  }

  lemma AnswerBegins(c: Crypto, own: Own, dest: Option<DestFlight>, suite: Suite, shared: Key, ee: seq<byte>,
                     body: seq<byte>, hello: seq<byte>)
    ensures var s := Answer(c, own, dest, suite, shared, ee, body, hello);
            Opening(s.output, hello) && body + hello <= s.transcript && s.suite == suite
  {
  }

  /** The hello that will be sent can be used: the site's is alone in its record with one
      key share, or ours has not drawn the reserved random. */
  ghost predicate HelloWillDo(dest: Option<DestFlight>, random: Key)
  {
    if Borrows(dest) then
      var theirs := dest.value.serverHello;
      && Split(theirs) == Some(|theirs|) && |theirs| <= MAX_RECORD
      && Server.Parse(theirs).value.x25519.Some? && Server.ShareCount(theirs) == 1
    else
      random != Server.HRR_RANDOM
  }

  lemma UsableHello(dest: Option<DestFlight>, random: Key, sid: seq<byte>, public: Key)
    requires HelloWillDo(dest, random) && |sid| < 256
    ensures Usable(HelloFor(dest, random, sid, public), public)
  {
    if Borrows(dest) {
      BorrowedIsUsable(dest.value, public);
    } else {
      BuiltIsUsable(random, sid, public);
    }
  }

  /** It answers if and only if it got one whole ClientHello with a key share, and did
      not draw the reserved random for a hello of its own. */
  lemma AcceptIff(c: Crypto, own: Own, dest: Option<DestFlight>, body: seq<byte>)
    ensures Accept(c, own, dest, body).Ok? <==>
              && Client.Parse(Client.Record(body)).Some? && Client.Parse(Client.Record(body)).value.x25519.Some?
              && |body| >= 4 && |body| == 4 + U24(body[1], body[2], body[3]) && body[0] == 1
              && (Borrows(dest) || own.random != Server.HRR_RANDOM)
  {
    var view, public := Client.Parse(Client.Record(body)), c.reality.public(own.private);
    if view.Some? {
      SessionIdIsShort(Client.Record(body));
      BuiltView(own.random, view.value.sessionId, public);
      if Borrows(dest) {
        Server.ParseReplaced(dest.value.serverHello, HelloFor(dest, own.random, view.value.sessionId, public), public);
      }
    }
  }

  // ------------------------------------------------------------- two key shares

  /** A hello no honest site sends: section 4.2 of RFC 8446 forbids it. */
  function TwoShareHello(random: Key, a: Key, b: Key): (hello: seq<byte>)
  {
    Message(SERVER_HELLO, HelloBody(random, [], ShareExt(a) + ShareExt(b)))
  }

  /** A share extension as the parser meets it. */
  lemma ShareSlot(body: seq<byte>, at: nat, key: Key)
    requires at + 40 <= |body| && body[at..at + 40] == ShareExt(key)
    ensures var slot := Server.Slot(Server.KEY_SHARE, at + 4, 36);
            && Server.ShareKey(body, at + 4, 36) == Some(key)
            && Server.Slots(body, at, |body|) == if Server.Slots(body, at + 40, |body|).None? then None
                                                 else Some([slot] + Server.Slots(body, at + 40, |body|).value)
  {
    ShareExtFields(key);
    assert forall i {:trigger body[at..at + 40][i]} :: 0 <= i < 40 ==> body[at..at + 40][i] == body[at + i];
    assert body[at + 8..at + 40] == body[at..at + 40][8..40];
  }

  lemma TwoPatchable(first: Server.Slot, second: Server.Slot)
    requires Server.Patchable(first) && Server.Patchable(second)
    ensures Server.PatchableCount([first, second]) == 2
  {
    assert [first, second][1..] == [second] && [second][1..] == [];
    assert Server.PatchableCount([second]) == 1;
  }

  lemma SlotsOfTwo(body: seq<byte>, at: nat, a: Key, b: Key)
    requires |body| == at + 80 && body[at..] == ShareExt(a) + ShareExt(b)
    ensures var first, second := Server.Slot(Server.KEY_SHARE, at + 4, 36), Server.Slot(Server.KEY_SHARE, at + 44, 36);
            && Server.Slots(body, at, |body|) == Some([first, second])
            && Server.KeyOf(body, [first, second]) == Some(b) && Server.KeyAt(body, at + 4, 36).Some?
  {
    var first, second := Server.Slot(Server.KEY_SHARE, at + 4, 36), Server.Slot(Server.KEY_SHARE, at + 44, 36);
    assert body[at..at + 40] == body[at..][..40];
    assert body[at + 40..at + 80] == body[at..][40..];
    ShareSlot(body, at, a);
    ShareSlot(body, at + 40, b);
    assert Server.Slots(body, at + 80, |body|) == Some([]);
    assert [second] + [] == [second] && [first] + [second] == [first, second];
    Server.LastIs([first, second], 1);
  }

  lemma TwoShareView(body: seq<byte>, at: nat, a: Key, b: Key)
    requires Server.ExtRange(body) == Some(Server.Range(at, |body|)) && body[2..34] != Server.HRR_RANDOM
    requires |body| == at + 80 && body[at..] == ShareExt(a) + ShareExt(b)
    ensures Server.ViewOf(body).Some? && Server.ViewOf(body).value.x25519 == Some(b)
    ensures Server.PatchableCount(Server.BodySlots(body).value) == 2 && Server.Target(body, at, |body|).Some?
  {
    SlotsOfTwo(body, at, a, b);
    TwoPatchable(Server.Slot(Server.KEY_SHARE, at + 4, 36), Server.Slot(Server.KEY_SHARE, at + 44, 36));
    Server.TargetInSlots(body, at, |body|);
  }

  lemma PatchMisses(msg: seq<byte>, body: seq<byte>, ours: Key)
    requires Server.Body(msg) == Some(body) && Server.ViewOf(body).Some? && Server.ViewOf(body).value.x25519.Some?
    requires Server.PatchableCount(Server.BodySlots(body).value) == 2
    requires Server.ExtRange(body).Some? &&
             Server.Target(body, Server.ExtRange(body).value.at, Server.ExtRange(body).value.end).Some?
    ensures Server.Parse(msg) == Server.ViewOf(body) && Server.Window(msg).Some?
    ensures Server.Parse(Server.Patched(msg, ours)) == Server.Parse(msg)
  {
    Server.PatchKeepsView(msg, ours);
  }

  /** With two shares the patch says it worked, writes over the first one, and the
      client still finds the other site's second key. */
  lemma TwoSharesKeepTheirKey(random: Key, a: Key, b: Key, ours: Key)
    requires random != Server.HRR_RANDOM && b != ours
    ensures var msg := TwoShareHello(random, a, b);
            && Server.Parse(msg).Some? && Server.Window(msg).Some?
            && Server.Parse(Server.Patched(msg, ours)) == Server.Parse(msg)
            && Server.Parse(msg).value.x25519 == Some(b)
  {
    var body := HelloBody(random, [], ShareExt(a) + ShareExt(b));
    OwnBody(Put16(0x0303), random, [], Put16(AES_128), Put16(80), ShareExt(a) + ShareExt(b));
    TwoShareView(body, 40, a, b);
    BodyIs(TwoShareHello(random, a, b), body);
    PatchMisses(TwoShareHello(random, a, b), body, ours);
  }

  // -------------------------------------------------------------------- agreement

  /** The server accepts a Finished if and only if it is over its own transcript. */
  lemma FinishedIsAwaited(c: Crypto, s: ServerStart, verify: seq<byte>, rest: seq<byte>)
    requires c.Lawful() && |verify| == HashLen(s.suite)
    ensures var record := Seal(c.keysOf(s.suite, s.secrets.client), 0, HANDSHAKE, Message(FINISHED, verify), None);
            AwaitFinished(c, s, CCS + record + rest)
            == if verify == c.finished(s.suite, s.secrets.client, c.hash(s.suite, s.transcript)) then Ok(rest)
               else Err(WrongFinished)
  {
    var keys := c.keysOf(s.suite, s.secrets.client);
    var sent := Stream.Sent(HANDSHAKE, Message(FINISHED, verify), None);
    var record := Stream.RecordOf(keys, 0, sent);
    assert keys.aead.Lawful();
    ReadSealed(keys, 0, sent, rest);
    MessageIsWhole(FINISHED, verify);
    assert sent.content[..|sent.content|] == sent.content;
    CcsBefore(c, s, record, rest);
  }

  lemma OwnFinishedIsAwaited(c: Crypto, s: ServerStart, rest: seq<byte>)
    requires c.Lawful()
    ensures var fin := Message(FINISHED, c.finished(s.suite, s.secrets.client, c.hash(s.suite, s.transcript)));
            AwaitFinished(c, s, CCS + Seal(c.keysOf(s.suite, s.secrets.client), 0, HANDSHAKE, fin, None) + rest) == Ok(rest)
  {
    var verify := c.finished(s.suite, s.secrets.client, c.hash(s.suite, s.transcript));
    assert |verify| == HashLen(s.suite);
    FinishedIsAwaited(c, s, verify, rest);
  }

  lemma CcsBefore(c: Crypto, s: ServerStart, record: seq<byte>, rest: seq<byte>)
    ensures AwaitFinished(c, s, CCS + record + rest) == AwaitFinished(c, s, record + rest)
  {
    ReadWhole(CCS[..5], CCS[5..], record + rest);
    assert CCS + record + rest == CCS[..5] + CCS[5..] + (record + rest);
  }

  /** The two halves meet: what the server sends, the client accepts, and its
      answer is accepted; transcripts and application keys are the same. */
  lemma EstablishAgrees(c: Crypto, authKey: Key, pin: Option<seq<byte>>, own: Own, dest: Option<DestFlight>, suite: Suite,
                        shared: Key, ee: seq<byte>, body: seq<byte>, hello: seq<byte>, dummies: seq<byte>)
    requires c.Lawful() && Minted(c, authKey, own.id) && IsEe(ee)
    requires RecordsFit(Answer(c, own, dest, suite, shared, ee, body, hello).flight)
    ensures var s := Answer(c, own, dest, suite, shared, ee, body, hello);
            var wire := CCS + (WireFrom(c.keysOf(suite, s.secrets.server), 0, s.flight) + dummies);
            var r := Establish(c, authKey, pin, suite, shared, body + hello, wire);
            && r.Ok? && r.value.transcript == s.transcript && r.value.send == s.recv && r.value.recv == s.send
            && r.value.rest == dummies && AwaitFinished(c, s, r.value.output) == Ok([])
  {
    var s := Answer(c, own, dest, suite, shared, ee, body, hello);
    var x := Context(c, authKey, pin, suite, s.secrets.server);
    var keys := c.keysOf(suite, s.secrets.server);
    assert keys.aead.Lawful();
    FlightIsReceived(x, keys, own.id, ee, body + hello, dest, dummies);
    OwnFinishedIsAwaited(c, s, []);
    var wire := CCS + (WireFrom(keys, 0, s.flight) + dummies);
    var r := Establish(c, authKey, pin, suite, shared, body + hello, wire);
    assert r.value.output + [] == r.value.output;
  }

  lemma ConnectEstablishes(c: Crypto, authKey: Key, pin: Option<seq<byte>>, private: Key, body: seq<byte>,
                           hello: seq<byte>, public: Key, wire: seq<byte>)
    requires Usable(hello, public)
    ensures Connect(c, authKey, pin, private, body, TlsRecordOf(hello) + wire)
         == Establish(c, authKey, pin, SuiteOf(Server.Parse(hello).value.cipher).value, c.reality.shared(private, public),
                      body + hello, wire)
  {
    ReadHelloRecord(hello, wire);
    assert hello[..|hello|] == hello;
  }

  lemma AcceptAnswers(c: Crypto, own: Own, dest: Option<DestFlight>, body: seq<byte>)
    requires Client.Parse(Client.Record(body)).Some? && Split(body) == Some(|body|) && body[0] == 1
    requires Client.Parse(Client.Record(body)).value.x25519.Some?
    requires var sid := Client.Parse(Client.Record(body)).value.sessionId;
             Usable(HelloFor(dest, own.random, sid, c.reality.public(own.private)), c.reality.public(own.private))
    ensures var view := Client.Parse(Client.Record(body)).value;
            var hello := HelloFor(dest, own.random, view.sessionId, c.reality.public(own.private));
            var suite := SuiteOf(Server.Parse(hello).value.cipher).value;
            var ee := EncryptedExtensions(view.alpn);
            var s := Answer(c, own, dest, suite, c.reality.shared(own.private, view.x25519.value), ee, body, hello);
            && Accept(c, own, dest, body) == Ok(s)
            && s.output == TlsRecordOf(hello) + (CCS + (WireFrom(c.keysOf(suite, s.secrets.server), 0, s.flight)
                 + WireFrom(s.send, 0, Dummies(if dest.Some? then dest.value.ExtraPads() else []))))
  {
    var view := Client.Parse(Client.Record(body)).value;
    var hello := HelloFor(dest, own.random, view.sessionId, c.reality.public(own.private));
    var suite := SuiteOf(Server.Parse(hello).value.cipher).value;
    var ee := EncryptedExtensions(view.alpn);
    var s := Answer(c, own, dest, suite, c.reality.shared(own.private, view.x25519.value), ee, body, hello);
    FourJoined(TlsRecordOf(hello), CCS, WireFrom(c.keysOf(suite, s.secrets.server), 0, s.flight),
               WireFrom(s.send, 0, Dummies(if dest.Some? then dest.value.ExtraPads() else [])));
  }

  lemma FourJoined(a: seq<byte>, b: seq<byte>, d: seq<byte>, e: seq<byte>)
    ensures a + b + d + e == a + (b + (d + e))
  {
  }

  /** Whatever the site's sizes, and whether its hello was borrowed or one built:
      an honest client and server agree on transcript and keys, each accepts the
      other's Finished, and only the dummies are left to read. */
  lemma HandshakeAgrees(c: Crypto, authKey: Key, pin: Option<seq<byte>>, own: Own, dest: Option<DestFlight>,
                        private: Key, body: seq<byte>)
    requires c.Lawful() && Minted(c, authKey, own.id)
    requires Client.Parse(Client.Record(body)).Some? && Split(body) == Some(|body|) && body[0] == 1
    requires Client.Parse(Client.Record(body)).value.x25519 == Some(c.reality.public(private))
    requires HelloWillDo(dest, own.random)
    requires Accept(c, own, dest, body).Ok? ==> RecordsFit(Accept(c, own, dest, body).value.flight)
    ensures var s := Accept(c, own, dest, body);
            && s.Ok?
            && var r := Connect(c, authKey, pin, private, body, s.value.output);
               && r.Ok? && r.value.transcript == s.value.transcript
               && r.value.send == s.value.recv && r.value.recv == s.value.send
               && r.value.rest == WireFrom(s.value.send, 0, Dummies(if dest.Some? then dest.value.ExtraPads() else []))
               && AwaitFinished(c, s.value, r.value.output) == Ok([])
  {
    var view := Client.Parse(Client.Record(body)).value;
    var public := c.reality.public(own.private);
    var hello := HelloFor(dest, own.random, view.sessionId, public);
    SessionIdIsShort(Client.Record(body));
    UsableHello(dest, own.random, view.sessionId, public);
    var suite := SuiteOf(Server.Parse(hello).value.cipher).value;
    var shared := c.reality.shared(own.private, view.x25519.value);
    assert shared == c.reality.shared(private, public);
    var ee := EncryptedExtensions(view.alpn);
    EncryptedExtensionsAreEe(view.alpn);
    var s := Answer(c, own, dest, suite, shared, ee, body, hello);
    AcceptAnswers(c, own, dest, body);
    var dummies := WireFrom(s.send, 0, Dummies(if dest.Some? then dest.value.ExtraPads() else []));
    EstablishAgrees(c, authKey, pin, own, dest, suite, shared, ee, body, hello, dummies);
    ConnectEstablishes(c, authKey, pin, private, body, hello, public,
                       CCS + (WireFrom(c.keysOf(suite, s.secrets.server), 0, s.flight) + dummies));
  }

  /** Numbering forwards from the end of `done` is the wire of all of them. */
  lemma {:induction false} WireGoesOn(keys: Keys, done: seq<Stream.Sent>, sent: seq<Stream.Sent>)
    ensures Stream.Wire(keys, done + sent) == Stream.Wire(keys, done) + WireFrom(keys, |done|, sent)
    decreases |sent|
  {
    var w := Stream.Wire(keys, done);
    if sent == [] {
      assert done + sent == done && w + [] == w;
    } else {
      var record, later := Stream.RecordOf(keys, |done|, sent[0]), WireFrom(keys, |done| + 1, sent[1..]);
      calc {
        Stream.Wire(keys, done + sent);
        { assert done + [sent[0]] + sent[1..] == done + sent; }
        Stream.Wire(keys, done + [sent[0]] + sent[1..]);
        { WireGoesOn(keys, done + [sent[0]], sent[1..]); }
        Stream.Wire(keys, done + [sent[0]]) + later;
        { Stream.WireSnoc(keys, done, sent[0]); }
        w + record + later;
        { Associate(w, record, later); }
        w + (record + later);
      }
    }
  }

  /** The dummies left over are how the server's record stream begins: the record
      stream takes over at the next number, and its reader will not show them. */
  lemma DummiesBeginTheStream(keys: Keys, lens: seq<nat>)
    ensures WireFrom(keys, 0, Dummies(lens)) == Stream.Wire(keys, Dummies(lens))
    ensures Stream.AppData(Dummies(lens)) == []
  {
    WireGoesOn(keys, [], Dummies(lens));
    assert [] + Dummies(lens) == Dummies(lens);
    forall i | 0 <= i < |Dummies(lens)|
      ensures Dummies(lens)[i].typ == HANDSHAKE
    {
      DummiesAreInvisible(lens, i);
    }
    Stream.NoData(Dummies(lens));
  }

  /** Numbering goes on where the flight's dummies stopped, and neither kind carries
      data: this is what the record stream of the server starts with. */
  lemma BeforeDataIsStream(s: ServerStart, dest: Option<DestFlight>)
    ensures WireFrom(s.send, 0, Dummies(if dest.Some? then dest.value.ExtraPads() else [])) + AfterFinished(s, dest)
         == Stream.Wire(s.send, BeforeData(dest))
    ensures Stream.AppData(BeforeData(dest)) == []
    ensures forall i :: 0 <= i < |BeforeData(dest)| ==> BeforeData(dest)[i].typ == HANDSHAKE
  {
    if dest.Some? {
      var extra, post := Dummies(dest.value.ExtraPads()), Dummies(dest.value.post);
      DummiesBeginTheStream(s.send, dest.value.ExtraPads());
      WireGoesOn(s.send, extra, post);
      forall i | 0 <= i < |extra + post|
        ensures (extra + post)[i].typ == HANDSHAKE
      {
        if i < |extra| {
          DummiesAreInvisible(dest.value.ExtraPads(), i);
        } else {
          DummiesAreInvisible(dest.value.post, i - |extra|);
        }
      }
      Stream.NoData(extra + post);
    }
  }

  /** All of it, from the client's first record on: the server lets the client in,
      and the connection that follows is the same on both sides. */
  lemma HonestConnection(c: Crypto, client: Reality.ClientConfig, server: Reality.ServerConfig, a: Reality.Attempt,
                         now: u64, pin: Option<seq<byte>>, own: Own, dest: Option<DestFlight>)
    requires c.Lawful() && client.publicKey == c.reality.public(server.privateKey)
    requires Client.ValidDraws(a.draws) && Client.Utf8(client.serverName)
    requires ClientProof.FieldsFit(client.serverName, a.draws)
    requires client.shortId in server.shortIds && Reality.NameAllowed(server, client.serverName)
    requires Reality.InTime(server, a.unix % 0x1_0000_0000, now)
    requires Minted(c, c.reality.AuthKey(server.privateKey, c.reality.public(a.private), a.random), own.id)
    requires HelloWillDo(dest, own.random)
    requires var accepted := Accept(c, own, dest, HonestHello(c, client, a));
             accepted.Ok? ==> RecordsFit(accepted.value.flight)
    ensures var h := HonestHello(c, client, a);
            var auth := Reality.Authenticate(c.reality, Client.Record(h), server, now);
            var s := Accept(c, own, dest, h);
            && auth.Ok? && s.Ok?
            && var r := Connect(c, auth.value.authKey, pin, a.private, h, s.value.output);
               && r.Ok? && r.value.transcript == s.value.transcript
               && r.value.send == s.value.recv && r.value.recv == s.value.send
               && r.value.rest == WireFrom(s.value.send, 0, Dummies(if dest.Some? then dest.value.ExtraPads() else []))
               && AwaitFinished(c, s.value, r.value.output) == Ok([])
  {
    var h := HonestHello(c, client, a);
    Reality.HonestIffConfigured(c.reality, client, server, a, now);
    Reality.SessionIdOpens(c.reality, client, server.privateKey, a);
    HonestHelloParses(c, client, a);
    HandshakeAgrees(c, c.reality.AuthKey(a.private, client.publicKey, a.random), pin, own, dest, a.private, h);
  }

  ghost function HonestHello(c: Crypto, client: Reality.ClientConfig, a: Reality.Attempt): (h: seq<byte>)
    requires c.Lawful() && Client.ValidDraws(a.draws)
  {
    Client.Hello(a.random, Reality.SealedId(c.reality, client, a), Reality.Order(c.reality, client, a), a.draws)
  }

  lemma HonestHelloParses(c: Crypto, client: Reality.ClientConfig, a: Reality.Attempt)
    requires c.Lawful() && Client.ValidDraws(a.draws) && Client.Utf8(client.serverName)
    requires ClientProof.FieldsFit(client.serverName, a.draws)
    ensures var h := HonestHello(c, client, a);
            var view := Client.Parse(Client.Record(h));
            && Whole(h) && h[0] == 1 && view.Some?
            && view.value.x25519 == Some(c.reality.public(a.private))
            && view.value.sessionId == Reality.SealedId(c.reality, client, a)
  {
    var public, d := c.reality.public(a.private), a.draws;
    var sealed, middle := Reality.SealedId(c.reality, client, a), Reality.Order(c.reality, client, a);
    Shuffle.ShufflePermutes(Client.Middle(client.serverName, public, d), 15, d.order);
    ClientProof.HelloRoundTrip(a.random, sealed, client.serverName, public, d, middle);
    ClientProof.HelloSize(a.random, sealed, client.serverName, public, d, middle);
    MessageIsWhole(1, HonestHello(c, client, a)[4..]);
    HelloIsMessage(Client.Body(a.random, sealed, Client.GreasePair(d.first, d.second).0,
                               Client.EncodeAll(Client.AllExts(middle, d))));
  }

  lemma HelloIsMessage(body: seq<byte>)
    ensures Client.Handshake(body) == Message(1, body)
  {
  }

  /** The laws asked of the primitives can be met together. */
  lemma LawsCanBeMet(authKey: Key)
    ensures exists c: Crypto, id: Identity :: c.Lawful() && Minted(c, authKey, id)
  {
    Reality.LawfulCryptoExists();
    var reality: Reality.Crypto :| reality.Lawful();
    var c := Crypto(reality, (s: Suite, m: seq<byte>) => m, (s: Suite, k: Key, h: seq<byte>) => Secrets([], [], []),
                    (s: Suite, k: seq<byte>, h: seq<byte>) => ([], []),
                    (s: Suite, k: seq<byte>) => Keys(reality.aead, [], Zeros(12)),
                    (s: Suite, k: seq<byte>, h: seq<byte>) => Zeros(HashLen(s)),
                    (k: Key, leaf: seq<byte>) => true,
                    (leaf: seq<byte>, scheme: u16, m: seq<byte>, sig: seq<byte>) => true);
    var id := Identity([], (m: seq<byte>) => []);
    assert c.Lawful() && Minted(c, authKey, id);
  }
}
