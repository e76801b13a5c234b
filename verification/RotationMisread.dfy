/** Why the agreement is stated for runs without misread frames: a run in which
    the desktop client, waiting for its first offer, gets a 24-byte IP packet in
    a Data frame, takes the 48 bytes of payload for a token and saves them. */
module RotationMisread {
  import opened Bytes
  import opened Sessions
  import opened Store
  import opened Rotation
  import opened RotationProof

  /** The saved token is refused although no save ever failed. */
  ghost predicate Betrayed(w: World)
  {
    && w.misread && !w.lost && w.lag == 0
    && w.c.saved.Some? && w.c.saved.value.id in w.table
    && !w.table[w.c.saved.value.id].Accepts(w.c.saved.value.nonce)
  }

  function Start(id: SessionId): (w: World)
  {
    World(Client(Offline, id, None, None, UNSPECIFIED, false), [], [], false, map[], Idle,
          EncodeStore(map[], []), map[], {}, map[], 0, 0, false, None, {}, false, false)
  }

  function First(id: SessionId, nonce: Nonce, claims: Claims): (s: Session)
  {
    NewSession(id, HostAddress(2), UNSPECIFIED, Detached, 0, nonce, nonce, 0, claims, 0)
  }

  /** The server gives the first session to the client. */
  lemma Creation(id: SessionId, nonce: Nonce, claims: Claims) returns (e: Event, w: World)
    requires nonce != Zeros(NONCE_SIZE) && claims.deviceLimit == UNLIMITED_DEVICES
    ensures Init(Start(id)) && Next(Start(id), Connect(UNSPECIFIED), Dial(Start(id), UNSPECIFIED))
    ensures Next(Dial(Start(id), UNSPECIFIED), ServerCreate(e), w)
    ensures w.busy == Answering([AllGood(id, nonce)], true) && w.table == map[id := First(id, nonce, claims)]
    ensures w.c == Dial(Start(id), UNSPECIFIED).c && w.wired && w.down == [] && w.up == [] && !w.lost && w.lag == 0
    ensures w.drawn == {nonce} && w.heard == {} && !w.misread && !w.clash
  {
    assert Walks([], Start(id).flushed);
    var s, t: Table := First(id, nonce, claims), map[];
    e := Create(t, {}, s, Some(s.ipv4));
    w := AfterCreate(Dial(Start(id), UNSPECIFIED), e, t[id := s]);
    assert OfClient(t, claims.clientId) == {};
    assert Evicts(t, t, {}, claims.clientId, claims.deviceLimit);
    assert Allocates(t, Some(s.ipv4));
    assert t[id := s] == map[id := s];
  }

  lemma Misreading(w: World, id: SessionId, nonce: Nonce, garbage: Nonce) returns (w1: World, w2: World, w3: World)
    requires w.down == [AllGood(id, nonce)] && w.c.phase.AwaitCreate? && !w.c.strict && w.wired && !w.lost && w.lag == 0
    requires id in w.table && !w.table[id].Accepts(garbage)
    ensures Next(w, ClientRead(true, true), w1)
    ensures Next(w1, Push(Data(id + garbage)), w2)
    ensures Next(w2, ClientRead(true, true), w3)
    ensures Betrayed(w3)
  {
    w1 := AfterRead(w, true, true);
    w2 := w1.(down := w1.down + [Data(id + garbage)]);
    assert (id + garbage)[..16] == id && (id + garbage)[16..] == garbage;
    assert w2.down[0] == Data(id + garbage);
    w3 := AfterRead(w2, true, true);
  }

  /** For every session and every packet there is such a run of six steps. */
  lemma AgreementFailsOnMisread(id: SessionId, nonce: Nonce, garbage: Nonce, claims: Claims)
      returns (states: seq<World>, steps: seq<Step>)
    requires nonce != Zeros(NONCE_SIZE) && garbage != nonce && claims.deviceLimit == UNLIMITED_DEVICES
    ensures Run(states, steps) && Betrayed(states[|steps|])
  {
    var e, w2 := Creation(id, nonce, claims);
    assert Walks([id], w2.table);
    var w3 := AfterFinish(w2, [id]);
    assert Next(w2, ServerFinish([id]), w3);
    var w4, w5, w6 := Misreading(w3, id, nonce, garbage);
    states, steps := [Start(id)], [];
    states, steps := Extend(states, steps, Connect(UNSPECIFIED), Dial(Start(id), UNSPECIFIED));
    states, steps := Extend(states, steps, ServerCreate(e), w2);
    states, steps := Extend(states, steps, ServerFinish([id]), w3);
    states, steps := Extend(states, steps, ClientRead(true, true), w4);
    states, steps := Extend(states, steps, Push(Data(id + garbage)), w5);
    states, steps := Extend(states, steps, ClientRead(true, true), w6);
  }

  lemma Extend(states: seq<World>, steps: seq<Step>, step: Step, w: World) returns (longer: seq<World>, more: seq<Step>)
    requires Run(states, steps) && Next(states[|steps|], step, w)
    ensures Run(longer, more) && longer[|more|] == w
  {
    OneStepLonger(states, steps, step, w);
    longer, more := states + [w], steps + [step];
  }
}
