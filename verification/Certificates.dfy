/** When the client has authenticated the server by its certificate: exactly when the
    messages it took contain the proof. Nothing else in the handshake asks for one. */
module Certificates {
  import opened Bytes
  import opened TlsRecord
  import opened Flight
  import opened Handshake
  import opened HandshakeProof
  import Stream = TlsStream
  import Server = ServerHello

  type Msg = m: seq<byte> | |m| >= 4 witness Zeros(4)

  // ------------------------------------------------------------- message by message

  /** The complete messages of a buffer. */
  function Messages(buf: seq<byte>): (msgs: seq<Msg>)
    decreases |buf|
  {
    if Split(buf).None? then [] else [buf[..Split(buf).value]] + Messages(buf[Split(buf).value..])
  }

  function Take(x: Context, p: Phase, msgs: seq<Msg>): (r: Result<Phase, Alert>)
    decreases |msgs|
  {
    if msgs == [] then Ok(p)
    else
      var next := OnMessage(x, p, msgs[0]);
      if next.Err? then next else Take(x, next.value, msgs[1..])
  }

  lemma {:induction false} DrainTakes(x: Context, p: Phase, buf: seq<byte>)
    requires Drain(x, p, buf).Ok?
    ensures Take(x, p, Messages(buf)) == Ok(Drain(x, p, buf).value.0)
    decreases |buf|
  {
    if Split(buf).Some? {
      var n := Split(buf).value;
      DrainTakes(x, OnMessage(x, p, buf[..n]).value, buf[n..]);
      assert Messages(buf)[1..] == Messages(buf[n..]);
    }
  }

  lemma {:induction false} TakeSnoc(x: Context, p: Phase, msgs: seq<Msg>, m: Msg)
    ensures var r := Take(x, p, msgs); Take(x, p, msgs + [m]) == if r.Err? then r else OnMessage(x, r.value, m)
    decreases |msgs|
  {
    if msgs == [] {
      assert msgs + [m] == [m];
      assert [m][1..] == [];
    } else {
      var next := OnMessage(x, p, msgs[0]);
      assert (msgs + [m])[1..] == msgs[1..] + [m];
      if next.Ok? {
        TakeSnoc(x, next.value, msgs[1..], m);
      }
    }
  }

  lemma TakeOne(x: Context, p: Phase, m: Msg)
    ensures Take(x, p, [m]) == OnMessage(x, p, m)
  {
    var none: seq<Msg> := [];
    assert none + [m] == [m];
    TakeSnoc(x, p, none, m);
  }

  /** Up to and with the `j`-th message, when all are taken. */
  lemma TakeUpTo(x: Context, p: Phase, msgs: seq<Msg>, j: nat)
    requires j < |msgs| && Take(x, p, msgs[..j + 1]).Ok?
    ensures Take(x, p, msgs[..j]).Ok?
    ensures Take(x, p, msgs[..j + 1]) == OnMessage(x, Take(x, p, msgs[..j]).value, msgs[j])
  {
    assert msgs[..j + 1] == msgs[..j] + [msgs[j]];
    TakeSnoc(x, p, msgs[..j], msgs[j]);
  }

  lemma {:induction false} TakePrefix(x: Context, p: Phase, msgs: seq<Msg>, j: nat)
    requires j <= |msgs| && Take(x, p, msgs).Ok?
    ensures Take(x, p, msgs[..j]).Ok?
    decreases |msgs| - j
  {
    if j < |msgs| {
      TakePrefix(x, p, msgs, j + 1);
      TakeUpTo(x, p, msgs, j);
    } else {
      assert msgs[..j] == msgs;
    }
  }

  // ------------------------------------------------------------------- certificates

  /** The leaf of the last Certificate. */
  function LastLeaf(msgs: seq<Msg>): (leaf: Option<seq<byte>>)
  {
    if msgs == [] then None
    else if msgs[|msgs| - 1][0] == CERTIFICATE then ParseCertificate(msgs[|msgs| - 1])
    else LastLeaf(msgs[..|msgs| - 1])
  }

  function Start(hellos: seq<byte>): (p: Phase)
  {
    Phase(hellos, None, false)
  }

  /** Told to trust: marked with the shared key, or pinned. */
  predicate Vouched(x: Context, leaf: seq<byte>)
  {
    x.c.macMatches(x.authKey, leaf) || x.pin == Some(leaf)
  }

  /** The client holds the leaf that was sent last, and it is one it trusts. */
  lemma {:induction false} HoldsLastLeaf(x: Context, hellos: seq<byte>, msgs: seq<Msg>)
    requires Take(x, Start(hellos), msgs).Ok?
    ensures var q := Take(x, Start(hellos), msgs).value;
            q.leaf == LastLeaf(msgs) && (q.leaf.Some? ==> Vouched(x, q.leaf.value))
    decreases |msgs|
  {
    if msgs != [] {
      var n := |msgs| - 1;
      assert msgs[..n + 1] == msgs;
      TakeUpTo(x, Start(hellos), msgs, n);
      HoldsLastLeaf(x, hellos, msgs[..n]);
    }
  }

  lemma {:induction false} LastLeafIs(msgs: seq<Msg>, i: nat)
    requires i < |msgs| && msgs[i][0] == CERTIFICATE && forall k :: i < k < |msgs| ==> msgs[k][0] != CERTIFICATE
    ensures LastLeaf(msgs) == ParseCertificate(msgs[i])
    decreases |msgs|
  {
    if i + 1 < |msgs| {
      LastLeafIs(msgs[..|msgs| - 1], i);
    }
  }

  lemma {:induction false} LastLeafFrom(msgs: seq<Msg>) returns (i: nat)
    requires LastLeaf(msgs).Some?
    ensures i < |msgs| && msgs[i][0] == CERTIFICATE && ParseCertificate(msgs[i]) == LastLeaf(msgs)
    ensures forall k :: i < k < |msgs| ==> msgs[k][0] != CERTIFICATE
    decreases |msgs|
  {
    if msgs[|msgs| - 1][0] == CERTIFICATE {
      i := |msgs| - 1;
    } else {
      i := LastLeafFrom(msgs[..|msgs| - 1]);
    }
  }

  // ----------------------------------------------------------------- authentication

  /** The messages that enter the transcript: a ticket or a key update does not. */
  function Heard(msgs: seq<Msg>): (bytes: seq<byte>)
  {
    if msgs == [] then []
    else Heard(msgs[..|msgs| - 1]) + (if msgs[|msgs| - 1][0] in {4, 24} then [] else msgs[|msgs| - 1])
  }

  lemma OneTaken(x: Context, p: Phase, m: Msg)
    requires OnMessage(x, p, m).Ok?
    ensures var q := OnMessage(x, p, m).value;
            && q.transcript == p.transcript + (if m[0] in {4, 24} then [] else m)
            && (q.finished <==> p.finished || m[0] == 20)
  {
    assert p.transcript + [] == p.transcript;
  }

  /** Where the client stands after the messages it took. */
  lemma {:induction false} StandsAfter(x: Context, hellos: seq<byte>, msgs: seq<Msg>)
    requires Take(x, Start(hellos), msgs).Ok?
    ensures var p := Take(x, Start(hellos), msgs).value;
            p.transcript == hellos + Heard(msgs) && (p.finished <==> exists j :: 0 <= j < |msgs| && msgs[j][0] == 20)
  {
    if msgs == [] {
      assert hellos + [] == hellos;
    } else {
      var n := |msgs| - 1;
      var front, last := msgs[..n], msgs[n];
      assert msgs[..n + 1] == msgs;
      TakeUpTo(x, Start(hellos), msgs, n);
      StandsAfter(x, hellos, front);
      OneTaken(x, Take(x, Start(hellos), front).value, last);
      Associate(hellos, Heard(front), if last[0] in {4, 24} then [] else last);
      assert forall j :: 0 <= j < n ==> front[j] == msgs[j];
      assert last[0] == 20 ==> msgs[n][0] == 20;
    }
  }

  /** It took nothing but EncryptedExtensions, Certificate, CertificateVerify and Finished,
      and behind Finished tickets and key updates. */
  lemma OnlyKnownMessages(x: Context, hellos: seq<byte>, msgs: seq<Msg>, i: nat)
    requires Take(x, Start(hellos), msgs).Ok? && i < |msgs|
    ensures msgs[i][0] in {8, 11, 15, 20} || (msgs[i][0] in {4, 24} && exists j :: 0 <= j < i && msgs[j][0] == 20)
  {
    TakePrefix(x, Start(hellos), msgs, i + 1);
    TakeUpTo(x, Start(hellos), msgs, i);
    StandsAfter(x, hellos, msgs[..i]);
    if msgs[i][0] in {4, 24} {
      var j :| 0 <= j < i && msgs[..i][j][0] == 20;
      assert msgs[j][0] == 20;
    }
  }

  /** The `j`-th message is a CertificateVerify that was checked for this leaf over
      the transcript of that moment. */
  ghost predicate VerifiedAt(x: Context, hellos: seq<byte>, msgs: seq<Msg>, j: nat, leaf: seq<byte>)
  {
    && j < |msgs| && msgs[j][0] == CERTIFICATE_VERIFY && Take(x, Start(hellos), msgs[..j]).Ok?
    && var p := Take(x, Start(hellos), msgs[..j]).value;
       p.leaf == Some(leaf) && VerifyOk(x.c, leaf, msgs[j], x.Hash(p.transcript))
  }

  /** The client ends with a leaf it trusts and whose CertificateVerify it checked. */
  ghost predicate Authenticated(x: Context, hellos: seq<byte>, msgs: seq<Msg>)
    requires Take(x, Start(hellos), msgs).Ok?
  {
    var q := Take(x, Start(hellos), msgs).value;
    q.leaf.Some? && Vouched(x, q.leaf.value) && exists j :: VerifiedAt(x, hellos, msgs, j, q.leaf.value)
  }

  /** Some CertificateVerify follows a Certificate with the leaf that was sent last. */
  ghost predicate ProofFollows(msgs: seq<Msg>)
  {
    exists i, j :: ProofAt(msgs, i, j)
  }

  ghost predicate ProofAt(msgs: seq<Msg>, i: int, j: int)
  {
    && 0 <= i < j < |msgs| && msgs[i][0] == CERTIFICATE && msgs[j][0] == CERTIFICATE_VERIFY
    && (forall k :: i < k < j ==> msgs[k][0] != CERTIFICATE)
    && ParseCertificate(msgs[i]) == LastLeaf(msgs)
  }

  lemma ProofIsChecked(x: Context, hellos: seq<byte>, msgs: seq<Msg>, i: nat, j: nat)
    requires Take(x, Start(hellos), msgs).Ok? && ProofAt(msgs, i, j)
    ensures Authenticated(x, hellos, msgs)
  {
    HoldsLastLeaf(x, hellos, msgs);
    TakePrefix(x, Start(hellos), msgs, j + 1);
    TakeUpTo(x, Start(hellos), msgs, j);
    HoldsLastLeaf(x, hellos, msgs[..j]);
    LastLeafIs(msgs[..j], i);
    assert VerifiedAt(x, hellos, msgs, j, Take(x, Start(hellos), msgs).value.leaf.value);
  }

  lemma VerifiedHasProof(x: Context, hellos: seq<byte>, msgs: seq<Msg>, j: nat, leaf: seq<byte>) returns (i: nat)
    requires VerifiedAt(x, hellos, msgs, j, leaf) && LastLeaf(msgs) == Some(leaf)
    ensures ProofAt(msgs, i, j)
  {
    HoldsLastLeaf(x, hellos, msgs[..j]);
    i := LastLeafFrom(msgs[..j]);
    assert forall k :: 0 <= k < j ==> msgs[..j][k] == msgs[k];
  }

  /** For all messages the client took without an error: it has authenticated the
      server by its certificate if and only if they contain the proof. */
  lemma AuthenticatedIffProven(x: Context, hellos: seq<byte>, msgs: seq<Msg>)
    requires Take(x, Start(hellos), msgs).Ok?
    ensures Authenticated(x, hellos, msgs) <==> ProofFollows(msgs)
  {
    if ProofFollows(msgs) {
      var i, j :| ProofAt(msgs, i, j);
      ProofIsChecked(x, hellos, msgs, i, j);
    }
    if Authenticated(x, hellos, msgs) {
      HoldsLastLeaf(x, hellos, msgs);
      var leaf := Take(x, Start(hellos), msgs).value.leaf.value;
      var j :| VerifiedAt(x, hellos, msgs, j, leaf);
      var i := VerifiedHasProof(x, hellos, msgs, j, leaf);
    }
  }

  ghost predicate OneCertificate(msgs: seq<Msg>)
  {
    forall i, k :: 0 <= i < k < |msgs| ==> msgs[i][0] != CERTIFICATE || msgs[k][0] != CERTIFICATE
  }

  /** A CertificateVerify comes somewhere after a Certificate. */
  ghost predicate VerifyFollows(msgs: seq<Msg>)
  {
    exists i, j :: 0 <= i < j < |msgs| && msgs[i][0] == CERTIFICATE && msgs[j][0] == CERTIFICATE_VERIFY
  }

  /** With at most one Certificate: if and only if a CertificateVerify comes after it. */
  lemma AuthenticatedIffVerifyFollows(x: Context, hellos: seq<byte>, msgs: seq<Msg>)
    requires Take(x, Start(hellos), msgs).Ok? && OneCertificate(msgs)
    ensures Authenticated(x, hellos, msgs) <==> VerifyFollows(msgs)
  {
    AuthenticatedIffProven(x, hellos, msgs);
    if ProofFollows(msgs) {
      var i, j :| ProofAt(msgs, i, j);
      assert 0 <= i < j < |msgs| && msgs[i][0] == CERTIFICATE && msgs[j][0] == CERTIFICATE_VERIFY;
    }
    if VerifyFollows(msgs) {
      var i, j :| 0 <= i < j < |msgs| && msgs[i][0] == CERTIFICATE && msgs[j][0] == CERTIFICATE_VERIFY;
      LastLeafIs(msgs, i);
      assert ProofAt(msgs, i, j);
    }
  }

  // ---------------------------------------------------------------- from bytes to it

  lemma {:induction false} DrainGoesOn(x: Context, p: Phase, a: seq<byte>, b: seq<byte>)
    requires Drain(x, p, a).Ok?
    ensures var r := Drain(x, p, a).value; Split(r.1).None? && Drain(x, p, a + b) == Drain(x, r.0, r.1 + b)
    decreases |a|
  {
    if Split(a).Some? {
      SplitPrefix(a, b);
      var n := Split(a).value;
      DrainGoesOn(x, OnMessage(x, p, a[..n]).value, a[n..], b);
    }
  }

  /** The contents of the handshake records in these bytes, in one piece. */
  function FlightIn(keys: Keys, n: nat, bytes: seq<byte>): (flight: seq<byte>)
    decreases |bytes|
  {
    var record := ReadRecord(bytes);
    if record.Err? then []
    else if record.value.typ == Stream.CHANGE_CIPHER_SPEC then FlightIn(keys, n, record.value.rest)
    else
      var plain := Open(keys, n, record.value.body);
      if plain.BadRecord? then [] else plain.content + FlightIn(keys, n + 1, record.value.rest)
  }

  /** The first record of a part that reaches over it. */
  lemma ReadPart(input: seq<byte>, k: nat)
    requires ReadRecord(input).Ok? && |input| - |ReadRecord(input).value.rest| <= k <= |input|
    ensures var r := ReadRecord(input).value;
            ReadRecord(input[..k]) == Ok(Wired(r.typ, r.body, r.rest[..k - (|input| - |r.rest|)]))
  {
    var n := HEADER_SIZE + U16(input[3], input[4]);
    assert input[..k][HEADER_SIZE..n] == input[HEADER_SIZE..n] && input[..k][n..] == input[n..][..k - n];
  }

  /** The bytes in front of `rest`. */
  function Before(input: seq<byte>, rest: seq<byte>): (read: seq<byte>)
    requires |rest| <= |input|
  {
    input[..|input| - |rest|]
  }

  /** The first record and what the others contain. */
  lemma FlightStep(keys: Keys, n: nat, input: seq<byte>, rest: seq<byte>)
    requires ReadRecord(input).Ok? && |rest| <= |ReadRecord(input).value.rest|
    requires ReadRecord(input).value.rest == Before(ReadRecord(input).value.rest, rest) + rest
    ensures input == Before(input, rest) + rest
    ensures var record := ReadRecord(input).value;
            FlightIn(keys, n, Before(input, rest)) ==
            if record.typ == Stream.CHANGE_CIPHER_SPEC then FlightIn(keys, n, Before(record.rest, rest))
            else if Open(keys, n, record.body).BadRecord? then []
            else Open(keys, n, record.body).content + FlightIn(keys, n + 1, Before(record.rest, rest))
  {
    var record, k := ReadRecord(input).value, |input| - |rest|;
    ReadPart(input, k);
    assert record.rest[..k - (|input| - |record.rest|)] == Before(record.rest, rest);
    assert ReadRecord(Before(input, rest)) == Ok(Wired(record.typ, record.body, Before(record.rest, rest)));
    WholeAgain(input, record.rest, rest);
  }

  lemma WholeAgain(input: seq<byte>, late: seq<byte>, rest: seq<byte>)
    requires |rest| <= |late| <= |input| && input[|input| - |late|..] == late && late[|late| - |rest|..] == rest
    ensures input == Before(input, rest) + rest
  {
    assert input[|input| - |rest|..] == late[|late| - |rest|..];
  }

  lemma LaterTaken(x: Context, p: Phase, buf: seq<byte>, content: seq<byte>, later: seq<byte>)
    requires Drain(x, p, buf + content).Ok?
    ensures var next := Drain(x, p, buf + content).value;
            Split(next.1).None? && Drain(x, p, buf + (content + later)) == Drain(x, next.0, next.1 + later)
  {
    DrainGoesOn(x, p, buf + content, later);
    Associate(buf, content, later);
  }

  /** What was read in front of `r.rest`, in one piece, leads to `r.p` as well. */
  ghost predicate AsOne(x: Context, keys: Keys, p: Phase, buf: seq<byte>, n: nat, input: seq<byte>, r: Received)
  {
    && |r.rest| <= |input| && input == Before(input, r.rest) + r.rest
    && var whole := Drain(x, p, buf + FlightIn(keys, n, Before(input, r.rest)));
       whole.Ok? && whole.value.0 == r.p
  }

  /** Whatever the records were, the client ends where it would end on their contents
      in one piece. */
  lemma {:induction false} ReceivedAsOne(x: Context, keys: Keys, p: Phase, buf: seq<byte>, n: nat, input: seq<byte>)
    requires Split(buf).None? && Receive(x, keys, p, buf, n, input).Ok?
    ensures AsOne(x, keys, p, buf, n, input, Receive(x, keys, p, buf, n, input).value)
    decreases |input|
  {
    var r := Receive(x, keys, p, buf, n, input).value;
    if p.finished {
      assert Before(input, input) == [] && buf + [] == buf && [] + input == input;
    } else {
      var record := ReadRecord(input).value;
      if record.typ == Stream.CHANGE_CIPHER_SPEC {
        ReceivedAsOne(x, keys, p, buf, n, record.rest);
        FlightStep(keys, n, input, r.rest);
      } else {
        var content := Open(keys, n, record.body).content;
        var next := Drain(x, p, buf + content).value;
        LaterTaken(x, p, buf, content, []);
        ReceivedAsOne(x, keys, next.0, next.1, n + 1, record.rest);
        FlightStep(keys, n, input, r.rest);
        LaterTaken(x, p, buf, content, FlightIn(keys, n + 1, Before(record.rest, r.rest)));
      }
    }
  }

  /** The messages of a buffer are whole, and in their order they are the buffer, up to
      a beginning of one more. */
  lemma {:induction false} MessagesAreWhole(buf: seq<byte>)
    ensures var all := Concat(Messages(buf)); all <= buf && Split(buf[|all|..]).None?
    ensures forall m :: m in Messages(buf) ==> Whole(m)
    decreases |buf|
  {
    if Split(buf).Some? {
      var n := Split(buf).value;
      MessagesAreWhole(buf[n..]);
      FrontAndRest(buf, n, Messages(buf[n..]));
    } else {
      assert buf[0..] == buf;
    }
  }

  lemma FrontAndRest(buf: seq<byte>, n: nat, later: seq<seq<byte>>)
    requires n <= |buf| && Concat(later) <= buf[n..]
    ensures Concat([buf[..n]] + later) <= buf
    ensures buf[|Concat([buf[..n]] + later)|..] == buf[n..][|Concat(later)|..]
  {
    assert ([buf[..n]] + later)[1..] == later;
    assert buf == buf[..n] + buf[n..];
  }

  /** Whatever bytes a server sends, if the client goes on: take the messages in the
      records it read, each of them whole. It took exactly these, and authenticated the
      server if and only if they contain the proof. */
  lemma ServerAuthenticatedIff(x: Context, keys: Keys, hellos: seq<byte>, input: seq<byte>)
    requires Receive(x, keys, Start(hellos), [], 0, input).Ok?
    ensures var r := Receive(x, keys, Start(hellos), [], 0, input).value;
            && |r.rest| <= |input| && input == Before(input, r.rest) + r.rest
            && var flight := FlightIn(keys, 0, Before(input, r.rest));
               var msgs := Messages(flight);
               && (forall m :: m in msgs ==> Whole(m)) && Concat(msgs) <= flight
               && Take(x, Start(hellos), msgs) == Ok(r.p)
               && (Authenticated(x, hellos, msgs) <==> ProofFollows(msgs))
  {
    ReceivedAsOne(x, keys, Start(hellos), [], 0, input);
    var flight := FlightIn(keys, 0, Before(input, Receive(x, keys, Start(hellos), [], 0, input).value.rest));
    assert [] + flight == flight;
    MessagesAreWhole(flight);
    DrainTakes(x, Start(hellos), flight);
    AuthenticatedIffProven(x, hellos, Messages(flight));
  }

  // ------------------------------------------------------------- Finished on its own

  lemma OneRecordReceived(x: Context, keys: Keys, p: Phase, q: Phase, flight: seq<byte>, rest: seq<byte>)
    requires keys.aead.Lawful() && Accepts(x, p, flight, q) && 0 < |flight| <= 1000
    ensures var sent := [Stream.Sent(HANDSHAKE, flight, None)];
            Receive(x, keys, p, [], 0, CCS + (WireFrom(keys, 0, sent) + rest)) == Ok(Received(q, rest))
  {
    var sent := [Stream.Sent(HANDSHAKE, flight, None)];
    assert Contents(sent[1..]) == [];
    assert [] + Contents(sent) == flight;
    AnyCutIsReceived(x, keys, p, [], 0, sent, rest);
    CcsIsSkipped(x, keys, p, WireFrom(keys, 0, sent) + rest);
  }

  /** A flight of nothing but Finished is complete. */
  lemma FinishedAlone(x: Context, keys: Keys, hellos: seq<byte>, rest: seq<byte>)
    requires x.c.Lawful() && keys.aead.Lawful()
    ensures var fin := FinFor(x, Start(hellos));
            Receive(x, keys, Start(hellos), [], 0, CCS + (WireFrom(keys, 0, [Stream.Sent(HANDSHAKE, fin, None)]) + rest))
            == Ok(Received(Phase(hellos + fin, None, true), rest))
  {
    var p, fin := Start(hellos), FinFor(x, Start(hellos));
    var q := Phase(hellos + fin, None, true);
    FinLeads(x, p);
    OneMore(x, p, q, fin, [], q);
    assert fin + [] == fin;
    OneRecordReceived(x, keys, p, q, fin, rest);
  }

  /** And it proves nothing. */
  lemma FinishedAloneProvesNothing(x: Context, hellos: seq<byte>)
    requires x.c.Lawful()
    ensures var fin := FinFor(x, Start(hellos));
            && Take(x, Start(hellos), [fin]) == Ok(Phase(hellos + fin, None, true))
            && !Authenticated(x, hellos, [fin])
  {
    FinLeads(x, Start(hellos));
    TakeOne(x, Start(hellos), FinFor(x, Start(hellos)));
  }

  /** What the client knows after the hellos, when the ServerHello carried `public`. */
  function AfterHellos(c: Crypto, authKey: Key, pin: Option<seq<byte>>, suite: Suite, shared: Key, hellos: seq<byte>): (x: Context)
  {
    Context(c, authKey, pin, suite, c.handshakeSecrets(suite, shared, c.hash(suite, hellos)).server)
  }

  /** So the client goes on although no certificate was sent: the connection stands,
      whatever mark or pin the client was given. */
  lemma NoCertificateIsAsked(c: Crypto, authKey: Key, pin: Option<seq<byte>>, private: Key, body: seq<byte>,
                             hello: seq<byte>, public: Key, suite: Suite)
    requires c.Lawful() && Usable(hello, public) && SuiteOf(Server.Parse(hello).value.cipher) == Some(suite)
    ensures var x := AfterHellos(c, authKey, pin, suite, c.reality.shared(private, public), body + hello);
            var fin := FinFor(x, Start(body + hello));
            var flight := WireFrom(c.keysOf(suite, x.serverSecret), 0, [Stream.Sent(HANDSHAKE, fin, None)]);
            && Connect(c, authKey, pin, private, body, TlsRecordOf(hello) + (CCS + (flight + []))).Ok?
            && Take(x, Start(body + hello), [fin]) == Ok(Phase(body + hello + fin, None, true))
            && !Authenticated(x, body + hello, [fin])
  {
    var x := AfterHellos(c, authKey, pin, suite, c.reality.shared(private, public), body + hello);
    var fin, keys := FinFor(x, Start(body + hello)), c.keysOf(suite, x.serverSecret);
    assert keys.aead.Lawful();
    FinishedAlone(x, keys, body + hello, []);
    ConnectEstablishes(c, authKey, pin, private, body, hello, public,
                       CCS + (WireFrom(keys, 0, [Stream.Sent(HANDSHAKE, fin, None)]) + []));
    FinishedAloneProvesNothing(x, body + hello);
  }
}
