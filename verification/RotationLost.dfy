/** Why one lost save is absorbed and two are not: a run in which the client confirms
    two rotations, fails to save both tokens, and is left with one the server refuses. */
module RotationLost {
  import opened Bytes
  import opened Sessions
  import opened Store
  import opened Rotation
  import opened RotationProof
  import opened RotationMisread

  /** Where client, link and server stand; the file holds the first token throughout. */
  datatype Stand = Stand(phase: Phase, s: Session, up: seq<Message>, down: seq<Frame>, busy: Busy, drawn: set<Nonce>, lag: nat)

  ghost predicate At(w: World, first: Nonce, st: Stand)
  {
    && w.c.phase == st.phase && w.c.active == st.s.id && w.c.saved == Some(Token(st.s.id, first))
    && w.c.address == st.s.clientAddress && w.wired && w.table == map[st.s.id := st.s]
    && w.up == st.up && w.down == st.down && w.busy == st.busy && w.drawn == st.drawn && w.heard == {}
    && w.lag == st.lag && !w.misread && !w.clash
  }

  // ---------------------------------------------------------------------- the steps

  lemma Asked(w: World, first: Nonce, st: Stand, draw: Nonce) returns (r: World)
    requires At(w, first, st) && st.busy.Idle? && st.up == [RekeyAsk(st.s.id)] && st.s.pendingNonce.None?
    requires FreshDraw(w, draw)
    ensures Next(w, ServerRead(Detached, 0, 0, draw), r)
    ensures At(r, first, st.(s := st.s.(pendingNonce := Some(draw)), up := [], drawn := st.drawn + {draw},
                             busy := Answering([Rekey(st.s.id, draw)], true)))
  {
    r := AfterHandle(w, Detached, 0, 0, draw);
    assert w.table[st.s.id := st.s.(pendingNonce := Some(draw))] == map[st.s.id := st.s.(pendingNonce := Some(draw))];
    assert r.table[st.s.id] != w.table[st.s.id];
  }

  lemma Finished(w: World, first: Nonce, st: Stand) returns (r: World)
    requires At(w, first, st) && st.busy.Answering?
    ensures Next(w, ServerFinish([st.s.id]), r)
    ensures At(r, first, st.(busy := Idle, down := st.down + st.busy.replies))
  {
    assert Walks([st.s.id], w.table);
    r := AfterFinish(w, [st.s.id]);
  }

  /** The offer is read and its token not saved. */
  lemma TakenUnsaved(w: World, first: Nonce, st: Stand, nonce: Nonce) returns (r: World)
    requires At(w, first, st) && st.phase.AwaitOffer? && st.down == [Rekey(st.s.id, nonce)] && st.up == []
    ensures Next(w, ClientRead(false, false), r)
    ensures At(r, first, st.(phase := AwaitAck, down := [], up := [RekeyTake(st.s.id, nonce)]))
  {
    r := AfterRead(w, false, false);
  }

  lemma Confirmed(w: World, first: Nonce, st: Stand, nonce: Nonce, now: nat, draw: Nonce) returns (r: World)
    requires At(w, first, st) && st.busy.Idle? && st.up == [RekeyTake(st.s.id, nonce)]
    requires st.s.pendingNonce == Some(nonce) && nonce != first && FreshDraw(w, draw)
    ensures Next(w, ServerRead(Detached, 0, now, draw), r)
    ensures At(r, first, st.(s := st.s.Commit().(lastRekey := now), up := [], drawn := st.drawn + {draw}, lag := st.lag + 1,
                             busy := Answering([Rekey(st.s.id, nonce)], true)))
  {
    r := AfterHandle(w, Detached, 0, now, draw);
    var s := st.s.Commit().(lastRekey := now);
    assert w.table[st.s.id := s] == map[st.s.id := s];
  }

  lemma Acknowledged(w: World, first: Nonce, st: Stand, nonce: Nonce) returns (r: World)
    requires At(w, first, st) && st.phase.AwaitAck? && st.down == [Rekey(st.s.id, nonce)] && st.up == []
    ensures Next(w, ClientRead(false, false), r) && At(r, first, st.(phase := Tunnel, down := []))
  {
    TakingReadIs(w, false, false);
    AckRead(w.c, w.down[0]);
    r := AfterRead(w, false, false);
    assert Taken(w, false).up + [] == w.up;
  }

  lemma AckRead(c: Client, f: Frame)
    requires c.phase.AwaitAck? && f.Rekey? && f.id == c.active
    ensures Read(c, f, false, false) == (c.Take(f.nonce, false).(phase := Tunnel), [])
  {
  }

  lemma Pinged(w: World, first: Nonce, st: Stand) returns (r: World)
    requires At(w, first, st) && st.phase.Tunnel? && st.up == []
    ensures Next(w, ClientPing(st.s.lastSequence), r)
    ensures At(r, first, st.(up := [PingMsg(st.s.id, st.s.lastSequence)]))
  {
    r := Send(w, [PingMsg(st.s.id, st.s.lastSequence)]);
  }

  /** An hour after the last rotation a ping is answered with an offer. */
  lemma Offered(w: World, first: Nonce, st: Stand, now: nat, draw: Nonce) returns (r: World)
    requires At(w, first, st) && st.busy.Idle? && st.up == [PingMsg(st.s.id, st.s.lastSequence)]
    requires st.s.pendingNonce.None? && now - st.s.lastRekey >= REKEY_AFTER && FreshDraw(w, draw)
    ensures Next(w, ServerRead(Detached, 0, now, draw), r)
    ensures At(r, first, st.(s := st.s.(lastActivity := now, pendingNonce := Some(draw)), up := [], drawn := st.drawn + {draw},
                             busy := Answering([Pong, Rekey(st.s.id, draw)], true)))
  {
    r := AfterHandle(w, Detached, 0, now, draw);
    var s := st.s.(lastActivity := now, pendingNonce := Some(draw));
    assert w.table[st.s.id := s] == map[st.s.id := s];
    assert [Pong] + [Rekey(st.s.id, draw)] == [Pong, Rekey(st.s.id, draw)];
  }

  lemma PongRead(w: World, first: Nonce, st: Stand, f: Frame) returns (r: World)
    requires At(w, first, st) && st.phase.Tunnel? && st.down == [Pong, f]
    ensures Next(w, ClientRead(false, false), r) && At(r, first, st.(down := [f]))
  {
    r := AfterRead(w, false, false);
    assert w.up + [] == w.up;
  }

  lemma TakenInTunnel(w: World, first: Nonce, st: Stand, nonce: Nonce) returns (r: World)
    requires At(w, first, st) && st.phase.Tunnel? && st.down == [Rekey(st.s.id, nonce)] && st.up == []
    ensures Next(w, ClientRead(false, false), r)
    ensures At(r, first, st.(down := [], up := [RekeyTake(st.s.id, nonce)]))
  {
    r := AfterRead(w, false, false);
  }

  // ------------------------------------------------------------------------ the run

  /** A run and where it ends. */
  ghost predicate Leads(states: seq<World>, steps: seq<Step>, first: Nonce, st: Stand)
  {
    Run(states, steps) && At(states[|steps|], first, st)
  }

  /** The new session is read and saved. */
  lemma BirthRead(w: World, s: Session) returns (r: World)
    requires w.down == [AllGood(s.id, s.serverNonce)] && w.c.phase.AwaitCreate? && w.c.address == s.clientAddress
    requires w.wired && w.up == [] && w.busy.Idle? && w.table == map[s.id := s] && w.drawn == {s.serverNonce}
    requires w.heard == {} && w.lag == 0 && !w.clash
    ensures Next(w, ClientRead(true, true), r)
    ensures At(r, s.serverNonce, Stand(AwaitOffer, s, [RekeyAsk(s.id)], [], Idle, {s.serverNonce}, 0))
  {
    r := AfterRead(w, true, true);
  }

  lemma BirthFinished(w: World, s: Session) returns (r: World)
    requires w.busy == Answering([AllGood(s.id, s.serverNonce)], true) && w.table == map[s.id := s] && w.down == []
    ensures Next(w, ServerFinish([s.id]), r)
    ensures r.c == w.c && r.table == w.table && r.up == w.up && r.wired == w.wired && r.drawn == w.drawn && r.busy.Idle?
    ensures r.down == [AllGood(s.id, s.serverNonce)] && r.heard == w.heard && r.lag == w.lag && r.clash == w.clash
  {
    assert Walks([s.id], w.table);
    r := AfterFinish(w, [s.id]);
  }

  /** The client has its first session and asks for a token. */
  lemma Begun(id: SessionId, first: Nonce, claims: Claims) returns (states: seq<World>, steps: seq<Step>, st: Stand)
    requires first != Zeros(NONCE_SIZE) && claims.deviceLimit == UNLIMITED_DEVICES
    ensures Leads(states, steps, first, st)
    ensures st == Stand(AwaitOffer, First(id, first, claims), [RekeyAsk(id)], [], Idle, {first}, 0)
  {
    var e, w2 := Creation(id, first, claims);
    var w3 := BirthFinished(w2, First(id, first, claims));
    var w4 := BirthRead(w3, First(id, first, claims));
    st := Stand(AwaitOffer, First(id, first, claims), [RekeyAsk(id)], [], Idle, {first}, 0);
    states, steps := [Start(id)], [];
    states, steps := Extend(states, steps, Connect(UNSPECIFIED), Dial(Start(id), UNSPECIFIED));
    states, steps := Extend(states, steps, ServerCreate(e), w2);
    states, steps := Extend(states, steps, ServerFinish([id]), w3);
    states, steps := Extend(states, steps, ClientRead(true, true), w4);
  }

  /** The first rotation: offered, confirmed, acknowledged and never saved. */
  lemma FirstRotation(states: seq<World>, steps: seq<Step>, first: Nonce, st: Stand, second: Nonce, spare: Nonce)
    returns (longer: seq<World>, more: seq<Step>, end: Stand)
    requires Leads(states, steps, first, st) && st.phase.AwaitOffer? && st.busy.Idle? && st.up == [RekeyAsk(st.s.id)]
    requires st.down == [] && st.s.pendingNonce.None? && st.lag == 0 && second != first && spare != second
    requires second !in st.drawn && spare !in st.drawn && Zeros(NONCE_SIZE) != second && Zeros(NONCE_SIZE) != spare
    ensures Leads(longer, more, first, end)
    ensures end == Stand(Tunnel, st.s.(pendingNonce := Some(second)).Commit().(lastRekey := 0), [], [], Idle,
                         st.drawn + {second} + {spare}, 1)
  {
    var w0 := states[|steps|];
    var w1 := Asked(w0, first, st, second);
    var st1 := st.(s := st.s.(pendingNonce := Some(second)), up := [], drawn := st.drawn + {second},
                   busy := Answering([Rekey(st.s.id, second)], true));
    var w2 := Finished(w1, first, st1);
    assert [] + [Rekey(st.s.id, second)] == [Rekey(st.s.id, second)];
    var st2 := st1.(busy := Idle, down := [Rekey(st.s.id, second)]);
    var w3 := TakenUnsaved(w2, first, st2, second);
    var st3 := st2.(phase := AwaitAck, down := [], up := [RekeyTake(st.s.id, second)]);
    var w4 := Confirmed(w3, first, st3, second, 0, spare);
    var st4 := st3.(s := st3.s.Commit().(lastRekey := 0), up := [], drawn := st3.drawn + {spare}, lag := 1,
                    busy := Answering([Rekey(st.s.id, second)], true));
    var w5 := Finished(w4, first, st4);
    var st5 := st4.(busy := Idle, down := [Rekey(st.s.id, second)]);
    var w6 := Acknowledged(w5, first, st5, second);
    end := st5.(phase := Tunnel, down := []);
    longer, more := Extend(states, steps, ServerRead(Detached, 0, 0, second), w1);
    longer, more := Extend(longer, more, ServerFinish([st.s.id]), w2);
    longer, more := Extend(longer, more, ClientRead(false, false), w3);
    longer, more := Extend(longer, more, ServerRead(Detached, 0, 0, spare), w4);
    longer, more := Extend(longer, more, ServerFinish([st.s.id]), w5);
    longer, more := Extend(longer, more, ClientRead(false, false), w6);
  }

  /** The second, an hour later. */
  lemma SecondRotation(states: seq<World>, steps: seq<Step>, first: Nonce, st: Stand, third: Nonce, spare: Nonce)
    returns (longer: seq<World>, more: seq<Step>, end: Stand)
    requires Leads(states, steps, first, st) && st.phase.Tunnel? && st.busy.Idle? && st.up == [] && st.down == []
    requires st.s.pendingNonce.None? && st.s.lastRekey == 0 && third != first && spare != third
    requires third !in st.drawn && spare !in st.drawn && Zeros(NONCE_SIZE) != third && Zeros(NONCE_SIZE) != spare
    ensures Leads(longer, more, first, end) && end.lag == st.lag + 1
    ensures var s := st.s.(lastActivity := REKEY_AFTER, pendingNonce := Some(third));
            end.s == s.Commit().(lastRekey := REKEY_AFTER)
  {
    var w0 := states[|steps|];
    var w1 := Pinged(w0, first, st);
    var st1 := st.(up := [PingMsg(st.s.id, st.s.lastSequence)]);
    var w2 := Offered(w1, first, st1, REKEY_AFTER, third);
    var st2 := st1.(s := st.s.(lastActivity := REKEY_AFTER, pendingNonce := Some(third)), up := [], drawn := st.drawn + {third},
                    busy := Answering([Pong, Rekey(st.s.id, third)], true));
    var w3 := Finished(w2, first, st2);
    assert [] + [Pong, Rekey(st.s.id, third)] == [Pong, Rekey(st.s.id, third)];
    var st3 := st2.(busy := Idle, down := [Pong, Rekey(st.s.id, third)]);
    var w4 := PongRead(w3, first, st3, Rekey(st.s.id, third));
    var st4 := st3.(down := [Rekey(st.s.id, third)]);
    var w5 := TakenInTunnel(w4, first, st4, third);
    var st5 := st4.(down := [], up := [RekeyTake(st.s.id, third)]);
    var w6 := Confirmed(w5, first, st5, third, REKEY_AFTER, spare);
    end := st5.(s := st5.s.Commit().(lastRekey := REKEY_AFTER), up := [], drawn := st5.drawn + {spare}, lag := st5.lag + 1,
                busy := Answering([Rekey(st.s.id, third)], true));
    longer, more := Extend(states, steps, ClientPing(st.s.lastSequence), w1);
    longer, more := Extend(longer, more, ServerRead(Detached, 0, REKEY_AFTER, third), w2);
    longer, more := Extend(longer, more, ServerFinish([st.s.id]), w3);
    longer, more := Extend(longer, more, ClientRead(false, false), w4);
    longer, more := Extend(longer, more, ClientRead(false, false), w5);
    longer, more := Extend(longer, more, ServerRead(Detached, 0, REKEY_AFTER, spare), w6);
  }

  /** From the start: two confirmed rotations, two failed saves, and the file's token
      is refused although nothing was misread. */
  lemma TwoLostSavesLoseTheToken(id: SessionId, n: seq<Nonce>, claims: Claims)
    returns (states: seq<World>, steps: seq<Step>)
    requires |n| == 5 && claims.deviceLimit == UNLIMITED_DEVICES
    requires forall i :: 0 <= i < 5 ==> n[i] != Zeros(NONCE_SIZE)
    requires forall i, j :: 0 <= i < j < 5 ==> n[i] != n[j]
    ensures Run(states, steps)
    ensures var w := states[|steps|];
            && w.lag == 2 && !w.misread && !w.clash && w.c.saved == Some(Token(id, n[0]))
            && id in w.table && !w.table[id].Accepts(n[0])
  {
    var st;
    states, steps, st := OneLostSave(id, n[0], n[1], n[2], claims);
    states, steps, st := SecondRotation(states, steps, n[0], st, n[3], n[4]);
    TwoCommits(First(id, n[0], claims), n[1], n[3], st.s);
  }

  lemma OneLostSave(id: SessionId, first: Nonce, second: Nonce, spare: Nonce, claims: Claims)
    returns (states: seq<World>, steps: seq<Step>, st: Stand)
    requires claims.deviceLimit == UNLIMITED_DEVICES && first != second && first != spare && second != spare
    requires first != Zeros(NONCE_SIZE) && second != Zeros(NONCE_SIZE) && spare != Zeros(NONCE_SIZE)
    ensures Leads(states, steps, first, st)
    ensures st == Stand(Tunnel, First(id, first, claims).(pendingNonce := Some(second)).Commit().(lastRekey := 0), [], [], Idle,
                        {first, second, spare}, 1)
  {
    states, steps, st := Begun(id, first, claims);
    states, steps, st := FirstRotation(states, steps, first, st, second, spare);
    assert {first} + {second} + {spare} == {first, second, spare};
  }

  /** Current and previous token have moved on. */
  lemma TwoCommits(s: Session, second: Nonce, third: Nonce, end: Session)
    requires s.serverNonce != second && s.serverNonce != third
    requires var s1 := s.(pendingNonce := Some(second)).Commit().(lastRekey := 0);
             end == s1.(lastActivity := REKEY_AFTER, pendingNonce := Some(third)).Commit().(lastRekey := REKEY_AFTER)
    ensures end.id == s.id && !end.Accepts(s.serverNonce)
  {
  }
}
