/** What the rotation protocol achieves when nothing is lost: the file's token is
    presented and comes back, every token read is confirmed, and a connection ends with
    the server's newest token in the file. All of it is stated on the steps. */
module RotationLive {
  import opened Bytes
  import opened Sessions
  import opened Store
  import opened Rotation
  import opened RotationProof

  /** The states follow each other by these steps. */
  ghost predicate Follow(states: seq<World>, steps: seq<Step>)
  {
    |states| == |steps| + 1 && forall i :: 0 <= i < |steps| ==> StepAt(states, steps, i)
  }

  lemma FollowOn(a: seq<World>, x: seq<Step>, b: seq<World>, y: seq<Step>)
    requires Follow(a, x) && Follow(b, y) && a[|x|] == b[0]
    ensures Follow(a + b[1..], x + y) && (a + b[1..])[0] == a[0] && (a + b[1..])[|x| + |y|] == b[|y|]
  {
    var all, steps := a + b[1..], x + y;
    forall i | 0 <= i < |steps|
      ensures StepAt(all, steps, i)
    {
      if i < |x| {
        assert StepAt(a, x, i);
      } else {
        assert StepAt(b, y, i - |x|);
      }
    }
  }

  lemma {:induction false} SomeWalk(t: Table, ids: set<SessionId>) returns (order: seq<SessionId>)
    requires ids <= t.Keys
    ensures forall i :: 0 <= i < |order| ==> order[i] in ids
    ensures forall i, j :: 0 <= i < j < |order| ==> order[i] != order[j]
    ensures forall id :: id in ids ==> id in order
  {
    order := [];
    if ids != {} {
      var id :| id in ids;
      var rest := SomeWalk(t, ids - {id});
      order := rest + [id];
    }
  }

  // --------------------------------------------------------------- one client step

  /** An offline client dials: it presents the token of its file as it is there, and asks
      for a new session only when there is no file. */
  lemma SavedTokenIsPresented(w: World, address: Address, r: World)
    requires Good(w) && Next(w, Connect(address), r)
    ensures match w.c.saved
            case Some(token) => r.up == [BackAgain(token.id, token.nonce)] && r.c.phase.AwaitResume?
            case None => r.up == [WhatsUp] && r.c.phase.AwaitCreate?
    ensures r.c.saved == w.c.saved && r.c.address == address && r.wired
    ensures r.down == [] && r.table == w.table && r.busy == w.busy && r.drawn == w.drawn && r.heard == w.heard
    ensures r.home == w.home
  {
  }

  /** Frames are read from a connection, and a client that waits for its session has a
      file. */
  lemma ReaderIsConnected(w: World)
    requires Good(w)
    ensures w.down != [] ==> w.wired
    ensures w.c.phase.AwaitResume? ==> w.c.saved.Some?
    ensures w.c.phase.Offline? ==> !w.wired && w.up == [] && w.down == [] && w.Replies() == []
  {
  }

  /** A token of a Rekey frame is confirmed, saved or not; only the acknowledgement of a
      confirmation is not answered. */
  lemma EveryTakenTokenIsConfirmed(w: World, saveOk: bool, forgetOk: bool, r: World)
    requires w.wired && Next(w, ClientRead(saveOk, forgetOk), r)
    requires w.c.Rotating() && w.down[0].Rekey? && w.down[0].id == w.c.active
    ensures var nonce := w.down[0].nonce;
            && r.up == (if w.c.phase.AwaitAck? then w.up else w.up + [RekeyTake(w.c.active, nonce)])
            && r.c.saved == (if saveOk then Some(Token(w.c.active, nonce)) else w.c.saved)
            && r.c.seen == Some(nonce) && r.c.active == w.c.active
            && r.c.phase == (if w.c.phase.AwaitOffer? then AwaitAck else Tunnel)
    ensures r.down == w.down[1..] && r.table == w.table && r.busy == w.busy && r.drawn == w.drawn && r.heard == w.heard
    ensures r.wired && r.c.address == w.c.address && r.home == w.home
  {
    TokenIsTaken(w, saveOk, forgetOk, r);
    TakenAndSent(w, saveOk, PhaseAfter(w.c.phase), Reply(w.c, w.down[0].nonce), r);
  }

  function PhaseAfter(phase: Phase): (next: Phase)
  {
    if phase.AwaitOffer? then AwaitAck else Tunnel
  }

  function Reply(c: Client, nonce: Nonce): (out: seq<Message>)
  {
    if c.phase.AwaitAck? then [] else [RekeyTake(c.active, nonce)]
  }

  lemma TokenIsTaken(w: World, saveOk: bool, forgetOk: bool, r: World)
    requires Next(w, ClientRead(saveOk, forgetOk), r)
    requires w.c.Rotating() && w.down[0].Rekey? && w.down[0].id == w.c.active
    ensures var w1 := Taken(w, saveOk);
            r == Send(w1.(c := w1.c.(phase := PhaseAfter(w.c.phase))), Reply(w.c, w.down[0].nonce))
  {
    TakingReadIs(w, saveOk, forgetOk);
    TakenPhase(w.c, w.down[0], saveOk, forgetOk);
    assert r == AfterRead(w, saveOk, forgetOk);
  }

  lemma TakenAndSent(w: World, saveOk: bool, phase: Phase, out: seq<Message>, r: World)
    requires w.wired && w.down != [] && w.down[0].Rekey?
    requires var w1 := Taken(w, saveOk); r == Send(w1.(c := w1.c.(phase := phase)), out)
    ensures r.c.saved == (if saveOk then Some(Token(w.c.active, w.down[0].nonce)) else w.c.saved)
    ensures r.c.seen == Some(w.down[0].nonce) && r.c.active == w.c.active && r.c.phase == phase && r.c.address == w.c.address
    ensures r.up == w.up + out && (out == [] ==> r.up == w.up) && r.down == w.down[1..] && r.wired
    ensures r.table == w.table && r.busy == w.busy && r.drawn == w.drawn && r.heard == w.heard && r.home == w.home
  {
  }

  /** What the client sends goes behind what is on its way. */
  lemma Sends(w: World, w1: World, out: seq<Message>, r: World)
    requires w1.wired && r == Send(w1, out) && w1.up == w.up
    ensures r.c == w1.c && r.up == w.up + out && (out == [] ==> r.up == w.up) && r.down == w1.down && r.wired
    ensures r.table == w1.table && r.busy == w1.busy && r.drawn == w1.drawn && r.heard == w1.heard && r.home == w1.home
  {
  }

  lemma TakenPhase(c: Client, f: Frame, saveOk: bool, forgetOk: bool)
    requires c.Rotating() && f.Rekey? && f.id == c.active
    ensures Read(c, f, saveOk, forgetOk) == (c.Take(f.nonce, saveOk).(phase := PhaseAfter(c.phase)), Reply(c, f.nonce))
  {
  }

  /** While it waits for its session to come back, the client accepts the answer that names
      it, and asks for a token; anything else makes it forget the file and ask for a new
      session. */
  lemma ResumedOrNew(w: World, saveOk: bool, forgetOk: bool, r: World)
    requires w.wired && Next(w, ClientRead(saveOk, forgetOk), r) && w.c.phase.AwaitResume? && w.c.saved.Some?
    ensures var id := w.c.saved.value.id;
            if w.down[0].StillGood? && w.down[0].id == id then
              r.c.phase.AwaitOffer? && r.c.active == id && r.c.saved == w.c.saved && r.up == w.up + [RekeyAsk(id)]
            else
              r.c.phase.AwaitCreate? && r.c.saved == (if forgetOk then None else w.c.saved) && r.up == w.up + [WhatsUp]
    ensures r.down == w.down[1..] && r.table == w.table && r.busy == w.busy && r.drawn == w.drawn && r.heard == w.heard
    ensures r.wired && r.c.address == w.c.address
  {
    var (c, out) := Read(w.c, w.down[0], saveOk, forgetOk);
    WaitingReads(w, saveOk, forgetOk, r);
    Sends(w, w.(c := c, down := w.down[1..]), out, r);
  }

  lemma WaitingReads(w: World, saveOk: bool, forgetOk: bool, r: World)
    requires Next(w, ClientRead(saveOk, forgetOk), r) && w.c.phase.AwaitResume?
    ensures var (c, out) := Read(w.c, w.down[0], saveOk, forgetOk); r == Send(w.(c := c, down := w.down[1..]), out)
  {
  }

  /** So does silence; in the other waits it means giving up, or going on without a token. */
  lemma NoAnswer(w: World, forgetOk: bool, r: World)
    requires w.wired && Next(w, ClientTimeout(forgetOk), r)
    ensures match w.c.phase
            case AwaitResume =>
              r.c.phase.AwaitCreate? && r.c.saved == (if forgetOk then None else w.c.saved) && r.up == w.up + [WhatsUp]
            case AwaitCreate => r.c.phase.Offline? && r.c.saved == w.c.saved && !r.wired
            case _ => r.c == w.c.(phase := Tunnel) && r.up == w.up
    ensures r.table == w.table && r.drawn == w.drawn && r.heard == w.heard
  {
    if !w.c.phase.AwaitCreate? && !w.c.phase.AwaitResume? {
      Sends(w, w.(c := w.c.(phase := Tunnel)), [], r);
    }
  }

  /** A new session counts only when its token was saved; the client then asks for the
      next one at once. Otherwise it gives up. */
  lemma SavedOrGivenUp(w: World, saveOk: bool, forgetOk: bool, r: World)
    requires w.wired && Next(w, ClientRead(saveOk, forgetOk), r) && w.c.phase.AwaitCreate?
    ensures var f := w.down[0];
            if f.AllGood? && saveOk then
              && r.c.phase.AwaitOffer? && r.c.active == f.id && r.c.saved == Some(Token(f.id, f.nonce))
              && r.up == w.up + [RekeyAsk(f.id)] && r.down == w.down[1..]
            else
              r.c.phase.Offline? && r.c.saved == w.c.saved && !r.wired
    ensures r.table == w.table && r.drawn == w.drawn && r.heard == w.heard && r.c.address == w.c.address
    ensures r.busy.Answering? <==> w.busy.Answering?
  {
  }

  /** In the tunnel the session ends, and the file with it, when the server denies or
      closes it. */
  lemma EndsWhenClosed(w: World, saveOk: bool, forgetOk: bool, r: World)
    requires Next(w, ClientRead(saveOk, forgetOk), r) && w.c.phase.Tunnel?
    requires w.down[0].Denied? || w.down[0] == Close(w.c.active)
    ensures r.c.phase.Offline? && !r.wired && r.c.saved == (if forgetOk then None else w.c.saved) && r.table == w.table
  {
  }

  /** Any other frame that brings no token changes nothing. */
  lemma PassesOtherFrames(w: World, saveOk: bool, forgetOk: bool, r: World)
    requires w.wired && Next(w, ClientRead(saveOk, forgetOk), r) && w.c.phase.Tunnel?
    requires var f := w.down[0]; !f.Denied? && f != Close(w.c.active) && !(f.Rekey? && f.id == w.c.active)
    ensures r == w.(down := w.down[1..])
  {
    Sends(w, w.(down := w.down[1..]), [], r);
  }

  // ------------------------------------------------------------------- one exchange

  /** The one message on its way is handled, the store written if need be, and the answer
      sent; nothing else was on the wire. */
  ghost predicate Exchange(w: World, m: Message, answer: seq<Frame>, t: Table, r: World)
  {
    && w.busy.Idle? && w.up == [m] && w.down == [] && w.wired
    && r.busy.Idle? && r.up == [] && r.down == answer && r.wired && r.table == t
    && r.c == w.c && r.heard == w.heard && r.home == w.home
  }

  /** The server has handled the message, and then finishes. */
  lemma Finishes(w: World, order: seq<SessionId>) returns (r: World)
    requires w.busy.Answering? && Walks(order, w.table)
    ensures Next(w, ServerFinish(order), r) && r.busy.Idle? && r.down == w.down + w.busy.replies
    ensures r.up == w.up && r.table == w.table && r.c == w.c && r.wired == w.wired
    ensures r.drawn == w.drawn && r.heard == w.heard && r.home == w.home
    ensures w.busy.dirty ==> r.disk == EncodeStore(w.table, order)
    ensures !w.busy.dirty ==> r.disk == w.disk
  {
    r := AfterFinish(w, order);
  }

  /** A presented token: the session is told to be still good, at the address it was born
      with, exactly when it is there and takes the token. */
  lemma ResumeAnswered(w: World, id: SessionId, token: Nonce, link: ClientLink, sequence: u64, now: nat, draw: Nonce,
                       order: seq<SessionId>) returns (mid: World, r: World)
    requires w.busy.Idle? && w.wired && w.up == [BackAgain(id, token)] && w.down == [] && FreshDraw(w, draw)
    requires Walks(order, w.table) && id in w.home && (id in w.table ==> w.table[id].ipv4 == w.home[id])
    ensures Next(w, ServerRead(link, sequence, now, draw), mid) && Next(mid, ServerFinish(order), r)
    ensures r.drawn == w.drawn + {draw}
    ensures var ok := id in w.table && w.table[id].Accepts(token);
            && Exchange(w, BackAgain(id, token), if ok then [StillGood(id, w.home[id])] else [Denied], r.table, r)
            && r.table.Keys == w.table.Keys
            && (!ok ==> r.table == w.table)
            && (ok ==> r.table[id].clientAddress == w.c.address && r.table[id].link == link
                       && r.table[id].lastSequence == sequence && r.table[id].lastActivity == now
                       && (r.table[id].serverNonce == token || r.table[id].prevNonce == Some(token))
                       && (r.table[id].pendingNonce.None? || r.table[id].pendingNonce == w.table[id].pendingNonce))
  {
    mid := AfterHandle(w, link, sequence, now, draw);
    r := Finishes(mid, order);
  }

  /** A request for a token: the pending one, or the one drawn now, becomes known to both. */
  lemma AskAnswered(w: World, id: SessionId, draw: Nonce, order: seq<SessionId>) returns (mid: World, r: World)
    requires w.busy.Idle? && w.wired && w.up == [RekeyAsk(id)] && w.down == [] && FreshDraw(w, draw)
    requires Walks(order, w.table) && id in w.table && w.table[id].clientAddress == w.c.address
    ensures Next(w, ServerRead(Detached, 0, 0, draw), mid) && Next(mid, ServerFinish(order), r)
    ensures r.drawn == w.drawn + {draw}
    ensures var s := w.table[id];
            var nonce := if s.pendingNonce.Some? then s.pendingNonce.value else draw;
            Exchange(w, RekeyAsk(id), [Rekey(id, nonce)], w.table[id := s.(pendingNonce := Some(nonce))], r)
  {
    mid := AfterHandle(w, Detached, 0, 0, draw);
    assert w.table[id := w.table[id]] == w.table;
    r := Finishes(mid, order);
  }

  /** A confirmation of the pending token makes it current, the old one stays acceptable,
      and the client is told. */
  lemma TakeAnswered(w: World, id: SessionId, nonce: Nonce, now: nat, draw: Nonce, order: seq<SessionId>)
    returns (mid: World, r: World)
    requires w.busy.Idle? && w.wired && w.up == [RekeyTake(id, nonce)] && w.down == [] && FreshDraw(w, draw)
    requires Walks(order, w.table) && id in w.table && w.table[id].clientAddress == w.c.address
    requires w.table[id].pendingNonce == Some(nonce)
    ensures Next(w, ServerRead(Detached, 0, now, draw), mid) && Next(mid, ServerFinish(order), r)
    ensures r.drawn == w.drawn + {draw} && r.disk == EncodeStore(r.table, order)
    ensures var s := w.table[id];
            Exchange(w, RekeyTake(id, nonce), [Rekey(id, nonce)],
                     w.table[id := s.(prevNonce := Some(s.serverNonce), serverNonce := nonce, pendingNonce := None,
                                      lastRekey := now)], r)
  {
    mid := AfterHandle(w, Detached, 0, now, draw);
    r := Finishes(mid, order);
  }

  lemma SameWalk(order: seq<SessionId>, t: Table, r: Table)
    requires Walks(order, t) && r.Keys == t.Keys
    ensures Walks(order, r)
  {
  }

  lemma AtHome(w: World)
    requires Good(w) && w.c.saved.Some?
    ensures var id := w.c.saved.value.id; id in w.home && (id in w.table ==> w.table[id].ipv4 == w.home[id])
  {
  }

  // --------------------------------------------------------------- whole connections

  lemma FollowThree(w: World, a: Step, w1: World, b: Step, w2: World, c: Step, w3: World)
    requires Next(w, a, w1) && Next(w1, b, w2) && Next(w2, c, w3)
    ensures Follow([w, w1, w2, w3], [a, b, c])
  {
  }

  /** Two new draws. */
  ghost predicate TwoDraws(w: World, first: Nonce, second: Nonce)
  {
    FreshDraw(w, first) && FreshDraw(w, second) && first != second
  }

  /** The client has just asked for a token, and nothing else is on the wire. */
  ghost predicate Asking(w: World)
  {
    && w.c.phase.AwaitOffer? && w.busy.Idle? && w.wired && w.up == [RekeyAsk(w.c.active)] && w.down == []
    && w.c.active in w.table && w.table[w.c.active].clientAddress == w.c.address
  }

  /** The client has just confirmed the pending token. */
  ghost predicate Confirming(w: World, nonce: Nonce)
  {
    && w.c.phase.AwaitAck? && w.busy.Idle? && w.wired && w.up == [RekeyTake(w.c.active, nonce)] && w.down == []
    && w.c.active in w.table && w.table[w.c.active].clientAddress == w.c.address
    && w.table[w.c.active].pendingNonce == Some(nonce)
  }

  /** In the tunnel with nothing on the wire: `nonce` is the server's current token, with
      `before` as the one before it. */
  ghost predicate RotatedTo(w: World, nonce: Nonce, before: Nonce)
  {
    && w.c.phase.Tunnel? && w.busy.Idle? && w.up == [] && w.down == [] && w.wired && w.c.active in w.table
    && w.table[w.c.active].serverNonce == nonce && w.table[w.c.active].prevNonce == Some(before)
    && w.table[w.c.active].pendingNonce.None?
  }

  function OfferedTo(s: Session, draw: Nonce): (nonce: Nonce)
  {
    if s.pendingNonce.Some? then s.pendingNonce.value else draw
  }

  lemma Offered(w: World, draw: Nonce, order: seq<SessionId>, save: bool) returns (states: seq<World>)
    requires Asking(w) && FreshDraw(w, draw) && Walks(order, w.table)
    ensures Follow(states, [ServerRead(Detached, 0, 0, draw), ServerFinish(order), ClientRead(save, false)])
    ensures states[0] == w
    ensures var id, r := w.c.active, states[3];
            var s, nonce := w.table[id], OfferedTo(w.table[id], draw);
            && Confirming(r, nonce) && r.c.active == id && r.drawn == w.drawn + {draw} && r.heard == w.heard
            && r.c.saved == (if save then Some(Token(id, nonce)) else w.c.saved)
            && r.table == w.table[id := s.(pendingNonce := Some(nonce))]
  {
    var w1, w2 := AskAnswered(w, w.c.active, draw, order);
    var w3 := AfterRead(w2, save, false);
    EveryTakenTokenIsConfirmed(w2, save, false, w3);
    states := [w, w1, w2, w3];
    FollowThree(w, ServerRead(Detached, 0, 0, draw), w1, ServerFinish(order), w2, ClientRead(save, false), w3);
  }

  lemma Acknowledged(w: World, nonce: Nonce, now: nat, draw: Nonce, order: seq<SessionId>, save: bool)
    returns (states: seq<World>)
    requires Confirming(w, nonce) && FreshDraw(w, draw) && Walks(order, w.table)
    ensures Follow(states, [ServerRead(Detached, 0, now, draw), ServerFinish(order), ClientRead(save, false)])
    ensures states[0] == w
    ensures var id, r := w.c.active, states[3];
            && RotatedTo(r, nonce, w.table[id].serverNonce) && r.c.active == id && r.table.Keys == w.table.Keys
            && r.c.saved == (if save then Some(Token(id, nonce)) else w.c.saved) && r.table[id].ipv4 == w.table[id].ipv4
  {
    var w1, w2 := TakeAnswered(w, w.c.active, nonce, now, draw, order);
    var w3 := AfterRead(w2, save, false);
    EveryTakenTokenIsConfirmed(w2, save, false, w3);
    states := [w, w1, w2, w3];
    FollowThree(w, ServerRead(Detached, 0, now, draw), w1, ServerFinish(order), w2, ClientRead(save, false), w3);
  }

  /** The steps of a rotation: the server offers, the client confirms, the server
      acknowledges. */
  function RotationSteps(now: nat, draw: Nonce, draw2: Nonce, order: seq<SessionId>, save: bool, save2: bool): (steps: seq<Step>)
  {
    [ServerRead(Detached, 0, 0, draw), ServerFinish(order), ClientRead(save, false)]
    + [ServerRead(Detached, 0, now, draw2), ServerFinish(order), ClientRead(save2, false)]
  }

  /** After it the token offered is the server's current one, and in the file if either
      save worked. */
  lemma TokenRotates(w: World, now: nat, draw: Nonce, draw2: Nonce, order: seq<SessionId>, save: bool, save2: bool)
    returns (states: seq<World>)
    requires Asking(w) && TwoDraws(w, draw, draw2) && Walks(order, w.table)
    ensures Follow(states, RotationSteps(now, draw, draw2, order, save, save2)) && states[0] == w
    ensures var id, r := w.c.active, states[6];
            var s, nonce := w.table[id], OfferedTo(w.table[id], draw);
            && RotatedTo(r, nonce, s.serverNonce) && r.c.active == id && r.table[id].ipv4 == s.ipv4
            && r.c.saved == if save || save2 then Some(Token(id, nonce)) else w.c.saved
  {
    var a := Offered(w, draw, order, save);
    SameWalk(order, w.table, a[3].table);
    var b := Acknowledged(a[3], OfferedTo(w.table[w.c.active], draw), now, draw2, order, save2);
    states := a + b[1..];
    FollowOn(a, [ServerRead(Detached, 0, 0, draw), ServerFinish(order), ClientRead(save, false)],
             b, [ServerRead(Detached, 0, now, draw2), ServerFinish(order), ClientRead(save2, false)]);
  }

  function ReturnSteps(address: Address, link: ClientLink, sequence: u64, now: nat, draw: Nonce, order: seq<SessionId>,
                  forgetOk: bool): (steps: seq<Step>)
  {
    [Connect(address)] + [ServerRead(link, sequence, now, draw), ServerFinish(order), ClientRead(false, forgetOk)]
  }

  /** The answer to a presented token, and where the client then stands. */
  ghost predicate ComesBack(table: Table, home: map<SessionId, Ipv4>, token: Token, answer: seq<Frame>, r: World,
                            forgetOk: bool)
    requires token.id in home
  {
    var id, n := token.id, token.nonce;
    if id in table && table[id].Accepts(n) then
      && answer == [StillGood(id, home[id])] && Asking(r) && r.c.active == id && r.c.saved == Some(token)
      && (r.table[id].serverNonce == n || r.table[id].prevNonce == Some(n))
      && (r.table[id].pendingNonce.None? || r.table[id].pendingNonce == table[id].pendingNonce)
    else
      && answer == [Denied] && r.table == table && r.c.phase.AwaitCreate? && r.up == [WhatsUp]
      && r.c.saved == if forgetOk then None else Some(token)
  }

  /** A client with a file dials, and nothing is lost: its session comes back at its own
      address if and only if the server has it and takes the token; otherwise the client
      asks for a new one. */
  lemma SavedTokenComesBack(w: World, address: Address, link: ClientLink, sequence: u64, now: nat, draw: Nonce,
                            order: seq<SessionId>, forgetOk: bool) returns (states: seq<World>)
    requires Good(w) && w.c.phase.Offline? && w.c.saved.Some? && w.busy.Idle? && FreshDraw(w, draw) && Walks(order, w.table)
    ensures Follow(states, ReturnSteps(address, link, sequence, now, draw, order, forgetOk))
    ensures states[0] == w && states[4].drawn == w.drawn + {draw} && states[4].heard == w.heard
    ensures states[4].table.Keys == w.table.Keys
    ensures var token := w.c.saved.value;
            && token.id in w.home && states[1].up == [BackAgain(token.id, token.nonce)]
            && ComesBack(w.table, w.home, token, states[3].down, states[4], forgetOk)
  {
    AtHome(w);
    var w1 := Dial(w, address);
    SavedTokenIsPresented(w, address, w1);
    var back := Returned(w1, link, sequence, now, draw, order, forgetOk);
    states := [w, w1] + back[1..];
    assert Follow([w, w1], [Connect(address)]);
    FollowOn([w, w1], [Connect(address)],
             back, [ServerRead(link, sequence, now, draw), ServerFinish(order), ClientRead(false, forgetOk)]);
  }

  lemma AnswerRead(w: World, forgetOk: bool, r: World)
    requires Next(w, ClientRead(false, forgetOk), r) && w.c.phase.AwaitResume? && w.c.saved.Some? && w.wired
    requires w.busy.Idle? && w.up == [] && |w.down| == 1
    ensures r.table == w.table && r.drawn == w.drawn && r.heard == w.heard
    ensures var id := w.c.saved.value.id;
            if w.down[0].StillGood? && w.down[0].id == id then
              r.c.saved == w.c.saved && r.c.active == id
              && (id in w.table && w.table[id].clientAddress == w.c.address ==> Asking(r))
            else
              r.c.phase.AwaitCreate? && r.up == [WhatsUp] && r.c.saved == if forgetOk then None else w.c.saved
  {
    ResumedOrNew(w, false, forgetOk, r);
  }

  lemma Returned(w: World, link: ClientLink, sequence: u64, now: nat, draw: Nonce, order: seq<SessionId>, forgetOk: bool)
    returns (states: seq<World>)
    requires w.c.phase.AwaitResume? && w.c.saved.Some? && w.down == [] && w.wired && w.busy.Idle?
    requires w.up == [BackAgain(w.c.saved.value.id, w.c.saved.value.nonce)] && FreshDraw(w, draw) && Walks(order, w.table)
    requires var id := w.c.saved.value.id; id in w.home && (id in w.table ==> w.table[id].ipv4 == w.home[id])
    ensures Follow(states, [ServerRead(link, sequence, now, draw), ServerFinish(order), ClientRead(false, forgetOk)])
    ensures states[0] == w && states[3].drawn == w.drawn + {draw} && states[3].heard == w.heard
    ensures states[3].table.Keys == w.table.Keys
    ensures ComesBack(w.table, w.home, w.c.saved.value, states[2].down, states[3], forgetOk)
  {
    var w1, w2 := ResumeAnswered(w, w.c.saved.value.id, w.c.saved.value.nonce, link, sequence, now, draw, order);
    var w3 := AfterRead(w2, false, forgetOk);
    AnswerRead(w2, forgetOk, w3);
    states := [w, w1, w2, w3];
    FollowThree(w, ServerRead(link, sequence, now, draw), w1, ServerFinish(order), w2, ClientRead(false, forgetOk), w3);
  }

  /** The whole way of a returning client: it ends in the tunnel with a token in its file
      that is the server's current one, made for this connection or offered before it. */
  lemma ReturningClientRotates(w: World, address: Address, link: ClientLink, sequence: u64, now: nat, draws: seq<Nonce>,
                               order: seq<SessionId>) returns (states: seq<World>, nonce: Nonce)
    requires Good(w) && w.c.phase.Offline? && w.c.saved.Some? && w.busy.Idle? && Walks(order, w.table)
    requires |draws| == 3 && FreshDraw(w, draws[0]) && TwoDraws(w, draws[1], draws[2]) && draws[0] !in draws[1..]
    requires w.c.saved.value.id in w.table && w.table[w.c.saved.value.id].Accepts(w.c.saved.value.nonce)
    ensures Follow(states, ReturnSteps(address, link, sequence, now, draws[0], order, false)
                           + RotationSteps(now, draws[1], draws[2], order, true, true))
    ensures states[0] == w
    ensures var id, r := w.c.saved.value.id, states[10];
            && id in r.table && r.c.phase.Tunnel? && r.c.active == id && r.c.saved == Some(Token(id, nonce))
            && r.table[id].serverNonce == nonce && r.table[id].pendingNonce.None? && r.up == [] && r.down == []
            && (nonce == draws[1] || w.table[id].pendingNonce == Some(nonce))
  {
    var back := SavedTokenComesBack(w, address, link, sequence, now, draws[0], order, false);
    nonce := OfferedTo(back[4].table[back[4].c.active], draws[1]);
    assert draws[1] in draws[1..] && draws[2] in draws[1..];
    SameWalk(order, w.table, back[4].table);
    var rotated := TokenRotates(back[4], now, draws[1], draws[2], order, true, true);
    FollowOn(back, ReturnSteps(address, link, sequence, now, draws[0], order, false),
             rotated, RotationSteps(now, draws[1], draws[2], order, true, true));
    states := back + rotated[1..];
  }

  // ------------------------------------------------------------------- a new session

  /** A first message is answered by the new session's token, or denied when no address is
      left; the client keeps the token and asks for the next one, or gives up. */
  lemma NewSessionArrives(w: World, e: Event, t: Table, order: seq<SessionId>) returns (states: seq<World>)
    requires w.c.phase.AwaitCreate? && w.busy.Idle? && w.wired && w.up == [WhatsUp] && w.down == []
    requires e.Create? && TableNext(w.table, e, t) && FreshDraw(w, e.s.serverNonce) && Walks(order, t)
    requires e.s.id !in w.home && e.s.id !in w.table && e.s.id !in w.flushed && e.s.clientAddress == w.c.address
    ensures Follow(states, [ServerCreate(e), ServerFinish(order), ClientRead(true, false)]) && states[0] == w
    ensures var r := states[3];
            && r.table == t && r.drawn <= w.drawn + {e.s.serverNonce} && r.heard == w.heard
            && if e.answer.Some? then
                 && states[2].down == [AllGood(e.s.id, e.s.serverNonce)] && states[2].disk == EncodeStore(t, order)
                 && Asking(r) && r.c.active == e.s.id && r.c.saved == Some(Token(e.s.id, e.s.serverNonce))
                 && t[e.s.id] == e.s && e.s.ipv4 == e.answer.value && e.s.Accepts(e.s.serverNonce)
               else
                 states[2].down == [Denied] && r.c.phase.Offline? && r.c.saved == w.c.saved
  {
    var w1, w2 := CreateAnswered(w, e, t, order);
    var w3 := AfterRead(w2, true, false);
    CreationRead(w2, w3);
    states := [w, w1, w2, w3];
    FollowThree(w, ServerCreate(e), w1, ServerFinish(order), w2, ClientRead(true, false), w3);
  }

  lemma CreationRead(w: World, r: World)
    requires Next(w, ClientRead(true, false), r) && w.c.phase.AwaitCreate? && w.wired && w.busy.Idle? && w.up == []
    requires |w.down| == 1
    ensures r.table == w.table && r.drawn == w.drawn && r.heard == w.heard
    ensures var f := w.down[0];
            if f.AllGood? then
              && r.c.active == f.id && r.c.saved == Some(Token(f.id, f.nonce))
              && (f.id in w.table && w.table[f.id].clientAddress == w.c.address ==> Asking(r))
            else r.c.phase.Offline? && r.c.saved == w.c.saved
  {
    SavedOrGivenUp(w, true, false, r);
  }

  lemma CreateAnswered(w: World, e: Event, t: Table, order: seq<SessionId>) returns (mid: World, r: World)
    requires w.busy.Idle? && w.wired && w.up == [WhatsUp] && w.down == []
    requires e.Create? && TableNext(w.table, e, t) && FreshDraw(w, e.s.serverNonce) && Walks(order, t)
    requires e.s.id !in w.home && e.s.id !in w.table && e.s.id !in w.flushed
    ensures Next(w, ServerCreate(e), mid) && Next(mid, ServerFinish(order), r)
    ensures r.busy.Idle? && r.up == [] && r.wired && r.c == w.c && r.heard == w.heard && r.table == t
    ensures r.drawn <= w.drawn + {e.s.serverNonce}
    ensures if e.answer.Some? then r.down == [AllGood(e.s.id, e.s.serverNonce)] && r.disk == EncodeStore(t, order)
            else r.down == [Denied]
  {
    mid := AfterCreate(w, e, t);
    Created(w, e, t, mid);
    CreateStep(w, e, t, mid);
    r := Finishes(mid, order);
  }

  lemma Created(w: World, e: Event, t: Table, r: World)
    requires w.up == [WhatsUp] && w.down == [] && e.Create? && r == AfterCreate(w, e, t)
    ensures r.busy == if e.answer.Some? then Answering([AllGood(e.s.id, e.s.serverNonce)], true) else Answering([Denied], false)
    ensures r.up == [] && r.down == [] && r.wired == w.wired && r.c == w.c && r.heard == w.heard && r.table == t
    ensures r.drawn <= w.drawn + {e.s.serverNonce}
  {
  }

  lemma CreateStep(w: World, e: Event, t: Table, r: World)
    requires w.busy.Idle? && w.up != [] && w.up[0].WhatsUp? && e.Create? && TableNext(w.table, e, t)
    requires FreshDraw(w, e.s.serverNonce) && e.s.id !in w.home && e.s.id !in w.table && e.s.id !in w.flushed
    requires r == AfterCreate(w, e, t) && r.table == t
    ensures Next(w, ServerCreate(e), r)
  {
  }

  // --------------------------------------------------------------------- in the tunnel

  /** In the tunnel with nothing on the wire, and known to the server where it is. */
  ghost predicate Quiet(w: World)
  {
    && w.c.phase.Tunnel? && w.busy.Idle? && w.up == [] && w.down == [] && w.wired
    && w.c.active in w.table && w.table[w.c.active].clientAddress == w.c.address
  }

  /** The session after a ping that counts. */
  function Pinged(s: Session, sequence: u64, now: nat, pending: Option<Nonce>): (r: Session)
  {
    s.(lastSequence := Max(s.lastSequence, sequence), lastActivity := now, pendingNonce := pending)
  }

  /** A ping is answered unless it is 1024 or more behind, and the answer brings the token
      offered before, or a new one when the last rotation is an hour ago. */
  lemma PingAnswered(w: World, sequence: u64, now: nat, draw: Nonce, order: seq<SessionId>) returns (states: seq<World>)
    requires Quiet(w) && FreshDraw(w, draw) && Walks(order, w.table)
    ensures Follow(states, [ClientPing(sequence), ServerRead(Detached, 0, now, draw), ServerFinish(order)]) && states[0] == w
    ensures var id := w.c.active;
            var s, r := w.table[id], states[3];
            var pending := if s.pendingNonce.None? && now >= s.lastRekey + 3_600_000 then Some(draw) else s.pendingNonce;
            && r.busy.Idle? && r.up == [] && r.wired && r.c == w.c && r.drawn == w.drawn + {draw} && r.heard == w.heard
            && if s.lastSequence < sequence + 1024 then
                 && r.down == (if pending.Some? then [Pong, Rekey(id, pending.value)] else [Pong])
                 && r.table == w.table[id := Pinged(s, sequence, now, pending)]
               else
                 r.down == [] && r.table == w.table[id := s.(lastSequence := Max(s.lastSequence, sequence))]
  {
    var id := w.c.active;
    var w1 := Send(w, [PingMsg(id, sequence)]);
    Sends(w, w, [PingMsg(id, sequence)], w1);
    var w2 := PingHandled(w1, id, sequence, now, draw);
    SameWalk(order, w.table, w2.table);
    var w3 := Finishes(w2, order);
    states := [w, w1, w2, w3];
    FollowThree(w, ClientPing(sequence), w1, ServerRead(Detached, 0, now, draw), w2, ServerFinish(order), w3);
  }

  lemma PingHandled(w: World, id: SessionId, sequence: u64, now: nat, draw: Nonce) returns (r: World)
    requires w.busy.Idle? && w.up == [PingMsg(id, sequence)] && w.down == [] && FreshDraw(w, draw)
    requires id in w.table && w.table[id].clientAddress == w.c.address
    ensures Next(w, ServerRead(Detached, 0, now, draw), r)
    ensures r.busy.Answering? && r.up == [] && r.down == [] && r.wired == w.wired && r.c == w.c && r.heard == w.heard
    ensures r.drawn == w.drawn + {draw}
    ensures var s := w.table[id];
            var pending := if s.pendingNonce.None? && now >= s.lastRekey + 3_600_000 then Some(draw) else s.pendingNonce;
            if s.lastSequence < sequence + 1024 then
              && r.busy.replies == (if pending.Some? then [Pong, Rekey(id, pending.value)] else [Pong])
              && r.table == w.table[id := Pinged(s, sequence, now, pending)]
            else
              r.busy.replies == [] && r.table == w.table[id := s.(lastSequence := Max(s.lastSequence, sequence))]
  {
    r := AfterHandle(w, Detached, 0, now, draw);
  }

  /** The token that came with the pong is taken and confirmed. */
  lemma OfferTaken(w: World, nonce: Nonce, save: bool) returns (states: seq<World>)
    requires w.c.phase.Tunnel? && w.busy.Idle? && w.wired && w.up == [] && w.down == [Pong, Rekey(w.c.active, nonce)]
    ensures Follow(states, [ClientRead(false, false), ClientRead(save, false)]) && states[0] == w
    ensures var id, r := w.c.active, states[2];
            && r.c.phase.Tunnel? && r.c.active == id && r.c.address == w.c.address
            && r.up == [RekeyTake(id, nonce)] && r.down == [] && r.wired && r.busy == w.busy && r.table == w.table
            && r.c.saved == (if save then Some(Token(id, nonce)) else w.c.saved) && r.drawn == w.drawn && r.heard == w.heard
  {
    var w1 := AfterRead(w, false, false);
    PassesOtherFrames(w, false, false, w1);
    var w2 := AfterRead(w1, save, false);
    EveryTakenTokenIsConfirmed(w1, save, false, w2);
    states := [w, w1, w2];
  }

  /** The server commits and acknowledges; the client confirms the acknowledgement too, and
      to that the server has nothing more to say. */
  lemma TakenInTunnel(w: World, nonce: Nonce, now: nat, draw: Nonce, draw2: Nonce, order: seq<SessionId>, save: bool)
    returns (states: seq<World>)
    requires w.c.phase.Tunnel? && w.busy.Idle? && w.wired && w.up == [RekeyTake(w.c.active, nonce)] && w.down == []
    requires w.c.active in w.table && w.table[w.c.active].clientAddress == w.c.address
    requires w.table[w.c.active].pendingNonce == Some(nonce) && TwoDraws(w, draw, draw2) && Walks(order, w.table)
    ensures Follow(states, TakeSteps(now, draw, draw2, order, save)) && states[0] == w
    ensures var id, r := w.c.active, states[5];
            && Quiet(r) && RotatedTo(r, nonce, w.table[id].serverNonce) && r.c.active == id
            && r.c.saved == (if save then Some(Token(id, nonce)) else w.c.saved)
  {
    var a := TakenOnce(w, nonce, now, draw, order, save);
    SameWalk(order, w.table, a[3].table);
    var w4, w5 := SecondTakeUnanswered(a[3], w.c.active, nonce, now, draw2, order);
    var b := [a[3], w4, w5];
    states := a + b[1..];
    FollowOn(a, [ServerRead(Detached, 0, now, draw), ServerFinish(order), ClientRead(save, false)],
             b, [ServerRead(Detached, 0, now, draw2), ServerFinish(order)]);
  }

  lemma TakenOnce(w: World, nonce: Nonce, now: nat, draw: Nonce, order: seq<SessionId>, save: bool)
    returns (states: seq<World>)
    requires w.c.phase.Tunnel? && w.busy.Idle? && w.wired && w.up == [RekeyTake(w.c.active, nonce)] && w.down == []
    requires w.c.active in w.table && w.table[w.c.active].clientAddress == w.c.address
    requires w.table[w.c.active].pendingNonce == Some(nonce) && FreshDraw(w, draw) && Walks(order, w.table)
    ensures Follow(states, [ServerRead(Detached, 0, now, draw), ServerFinish(order), ClientRead(save, false)])
    ensures states[0] == w
    ensures var id, r := w.c.active, states[3];
            && r.c.phase.Tunnel? && r.c.active == id && r.c.address == w.c.address && r.busy.Idle? && r.wired
            && r.up == [RekeyTake(id, nonce)] && r.down == [] && r.drawn == w.drawn + {draw} && r.heard == w.heard
            && r.c.saved == (if save then Some(Token(id, nonce)) else w.c.saved) && r.table.Keys == w.table.Keys
            && r.table[id].serverNonce == nonce && r.table[id].prevNonce == Some(w.table[id].serverNonce)
            && r.table[id].pendingNonce.None? && r.table[id].clientAddress == w.c.address
  {
    var w1, w2 := TakeAnswered(w, w.c.active, nonce, now, draw, order);
    var w3 := AfterRead(w2, save, false);
    EveryTakenTokenIsConfirmed(w2, save, false, w3);
    states := [w, w1, w2, w3];
    FollowThree(w, ServerRead(Detached, 0, now, draw), w1, ServerFinish(order), w2, ClientRead(save, false), w3);
  }

  function TakeSteps(now: nat, draw: Nonce, draw2: Nonce, order: seq<SessionId>, save: bool): (steps: seq<Step>)
  {
    [ServerRead(Detached, 0, now, draw), ServerFinish(order), ClientRead(save, false)]
    + [ServerRead(Detached, 0, now, draw2), ServerFinish(order)]
  }

  lemma SecondTakeUnanswered(w: World, id: SessionId, nonce: Nonce, now: nat, draw: Nonce, order: seq<SessionId>)
    returns (mid: World, r: World)
    requires w.busy.Idle? && w.wired && w.up == [RekeyTake(id, nonce)] && w.down == [] && FreshDraw(w, draw)
    requires Walks(order, w.table) && id in w.table && w.table[id].pendingNonce != Some(nonce)
    ensures Next(w, ServerRead(Detached, 0, now, draw), mid) && Next(mid, ServerFinish(order), r)
    ensures Exchange(w, RekeyTake(id, nonce), [], w.table, r)
  {
    mid := AfterHandle(w, Detached, 0, now, draw);
    r := Finishes(mid, order);
  }

  function PingSteps(sequence: u64, now: nat, draws: seq<Nonce>, order: seq<SessionId>): (steps: seq<Step>)
    requires |draws| == 3
  {
    [ClientPing(sequence), ServerRead(Detached, 0, now, draws[0]), ServerFinish(order)]
    + [ClientRead(false, false), ClientRead(true, false)] + TakeSteps(now, draws[1], draws[2], order, true)
  }

  /** A session that stays up rotates every hour: a ping in the window, an hour after the
      last rotation, ends with a new token that is the server's current one and in the
      file. */
  lemma HourlyRotation(w: World, sequence: u64, now: nat, draws: seq<Nonce>, order: seq<SessionId>)
    returns (states: seq<World>)
    requires Quiet(w) && Walks(order, w.table) && |draws| == 3 && FreshDraw(w, draws[0])
    requires TwoDraws(w, draws[1], draws[2]) && draws[0] !in draws[1..]
    requires var s := w.table[w.c.active];
             s.lastSequence < sequence + 1024 && s.pendingNonce.None? && now >= s.lastRekey + 3_600_000
    ensures Follow(states, PingSteps(sequence, now, draws, order)) && states[0] == w
    ensures var id, r := w.c.active, states[10];
            && Quiet(r) && RotatedTo(r, draws[0], w.table[id].serverNonce) && r.c.active == id
            && r.c.saved == Some(Token(id, draws[0]))
  {
    var first := [ClientPing(sequence), ServerRead(Detached, 0, now, draws[0]), ServerFinish(order)];
    var second := [ClientRead(false, false), ClientRead(true, false)];
    var a := PingAnswered(w, sequence, now, draws[0], order);
    var b := OfferTaken(a[3], draws[0], true);
    FollowOn(a, first, b, second);
    assert draws[1] in draws[1..] && draws[2] in draws[1..];
    SameWalk(order, w.table, b[2].table);
    var c := TakenInTunnel(b[2], draws[0], now, draws[1], draws[2], order, true);
    FollowOn(a + b[1..], first + second, c, TakeSteps(now, draws[1], draws[2], order, true));
    states := a + b[1..] + c[1..];
  }
}
