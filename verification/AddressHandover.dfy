/** Why the packet may be written under another session's address: such a run. */
module AddressHandover {
  import opened Bytes
  import opened Sessions
  import opened DataPath

  lemma FirstAddress(s: Session)
    requires s.ipv4 == HostAddress(2) && s.prevNonce.None? && s.pendingNonce.None?
    ensures Creates(map[], map[], map[s.id := s], {}, s, Some(s.ipv4))
  {
    assert OfClient(map[], s.claims.clientId) == {};
    assert map[s.id := s] == map[][s.id := s];
  }

  function CreateFirst(s: Session): (a: Action)
  {
    Request(Create(map[], {}, s, Some(s.ipv4)))
  }

  lemma CreatesFirst(w: World, s: Session) returns (n: World)
    requires w.table == map[] && Unlocked(w)
    requires s.ipv4 == HostAddress(2) && s.prevNonce.None? && s.pendingNonce.None?
    ensures Next(w, CreateFirst(s), n)
    ensures n == w.(table := map[s.id := s], base := w.base[s.id := s.lastSequence], offered := w.offered[s.id := []])
  {
    FirstAddress(s);
    n := w.(table := map[s.id := s], base := w.base[s.id := s.lastSequence], offered := w.offered[s.id := []]);
  }

  /** A smallest packet from the first address of the pool. */
  function FirstPacket(): (p: seq<byte>)
    ensures Source(p) == Some(HostAddress(2))
  {
    var p: seq<byte> := [0x45, 0, 0, 20, 0, 0, 0, 0, 0, 0, 0, 0, 10, 77, 0, 2, 0, 0, 0, 0];
    assert p[0] / 16 == 4 && p[0] % 16 * 4 == 20 && U16(p[2], p[3]) == 20;
    assert p[12..16] == HostAddress(2);
    p
  }

  lemma Extend(run: seq<World>, actions: seq<Action>, a: Action, w: World) returns (longer: seq<World>, more: seq<Action>)
    requires IsRun(run, actions) && Next(run[|actions|], a, w)
    ensures longer == run + [w] && more == actions + [a] && IsRun(longer, more) && longer[|more|] == w
  {
    longer, more := run + [w], actions + [a];
    forall i | 0 <= i < |more|
      ensures Next(longer[i], more[i], longer[i + 1])
    {
      if i < |actions| {
        assert Next(run[i], actions[i], run[i + 1]);
      }
    }
  }

  /** From the start: one session, and a frame of it in the hands of handler 0. */
  lemma OneEnters(s: Session, f: Frame) returns (run: seq<World>, actions: seq<Action>)
    requires s.ipv4 == HostAddress(2) && s.prevNonce.None? && s.pendingNonce.None? && s.claims.expiresAt > 0
    requires f == Frame(s.id, s.clientAddress, s.lastSequence, FirstPacket())
    ensures IsRun(run, actions) && |actions| == 3 && run[0].table == map[]
    ensures actions == [CreateFirst(s), Enter(0, f), Know(0, 0)]
    ensures run[3] == World(map[s.id := s], map[0 := Known(f)], [], map[s.id := s.lastSequence], map[s.id := []])
  {
    var w0 := World(map[], map[0 := Idle], [], map[], map[]);
    var w1 := CreatesFirst(w0, s);
    var w2 := Set(w1, 0, Entered(f));
    var w3 := AfterKnow(w2, 0, f, 0);
    run, actions := [w0], [];
    run, actions := Extend(run, actions, CreateFirst(s), w1);
    run, actions := Extend(run, actions, Enter(0, f), w2);
    run, actions := Extend(run, actions, Know(0, 0), w3);
  }

  /** The frame passes every test, and the lock is released. */
  lemma OneLeaves(s: Session, f: Frame) returns (run: seq<World>, actions: seq<Action>)
    requires s.ipv4 == HostAddress(2) && s.prevNonce.None? && s.pendingNonce.None? && s.claims.expiresAt > 0
    requires f == Frame(s.id, s.clientAddress, s.lastSequence, FirstPacket())
    ensures IsRun(run, actions) && |actions| == 6 && run[0].table == map[]
    ensures actions == [CreateFirst(s), Enter(0, f), Know(0, 0), Order(0), Pay(0, true), Match(0, 0)]
    ensures var w := run[6];
            && w.threads.Keys == {0} && w.threads[0].Leaving? && w.threads[0].f == f && w.tun == []
            && w.table.Keys == {s.id}
  {
    run, actions := OneEnters(s, f);
    var w3 := run[3];
    var w4 := AfterOrder(w3, 0, f);
    var w5 := Set(w4, 0, Paid(f, w4.threads[0].limit));
    var w6 := AfterMatch(w5, 0, f, w5.threads[0].limit, 0);
    run, actions := Extend(run, actions, Order(0), w4);
    run, actions := Extend(run, actions, Pay(0, true), w5);
    run, actions := Extend(run, actions, Match(0, 0), w6);
  }

  /** And somebody may take it out: the session is removed, its address goes to the
      next client, and then the packet is written. */
  lemma AddressCanChangeHands(s: Session, later: Session) returns (run: seq<World>, actions: seq<Action>)
    requires s.ipv4 == later.ipv4 == HostAddress(2) && s.id != later.id && s.claims.expiresAt > 0
    requires s.prevNonce.None? && s.pendingNonce.None? && later.prevNonce.None? && later.pendingNonce.None?
    ensures IsRun(run, actions) && NewIds(run, actions)
    ensures var w := run[|actions|];
            && |w.tun| == 1 && w.tun[0].f.id == s.id
            && s.id !in w.table && Owns(w.table, later.id, Source(w.tun[0].f.packet))
  {
    var f := Frame(s.id, s.clientAddress, s.lastSequence, FirstPacket());
    run, actions := OneLeaves(s, f);
    var w6 := run[6];
    var w7 := w6.(table := map[]);
    assert w6.table - {s.id} == map[];
    var w8 := CreatesFirst(w7, later);
    var w9 := Set(w8, 0, Idle).(tun := w8.tun + [Written(f, w8.threads[0].limit, w8.threads[0].seen)]);
    run, actions := Extend(run, actions, Request(Remove({s.id})), w7);
    run, actions := Extend(run, actions, CreateFirst(later), w8);
    run, actions := Extend(run, actions, Send(0), w9);
    EarlierTables(run, actions, s, later, f);
  }

  /** The second session is new in a run that has only seen the first. */
  lemma EarlierTables(run: seq<World>, actions: seq<Action>, s: Session, later: Session, f: Frame)
    requires IsRun(run, actions) && s.id != later.id && run[0].table == map[]
    requires actions == [CreateFirst(s), Enter(0, f), Know(0, 0), Order(0), Pay(0, true), Match(0, 0),
                         Request(Remove({s.id})), CreateFirst(later), Send(0)]
    ensures NewIds(run, actions)
  {
    forall m, l | 0 <= l <= m < |actions| && actions[m].Request? && actions[m].e.Create?
      ensures actions[m].e.s.id !in run[l].table
    {
      assert m == 0 || m == 7;
      if m == 7 {
        NotBefore(run, actions, l, later.id);
      }
    }
  }

  lemma {:induction false} NotBefore(run: seq<World>, actions: seq<Action>, l: nat, id: SessionId)
    requires IsRun(run, actions) && l <= |actions| && id !in run[0].table
    requires forall m :: 0 <= m < l ==> !actions[m].Restart?
    requires forall m :: 0 <= m < l && actions[m].Request? && actions[m].e.Create? ==> actions[m].e.s.id != id
    ensures id !in run[l].table
  {
    if l > 0 {
      NotBefore(run, actions, l - 1, id);
      assert Next(run[l - 1], actions[l - 1], run[l]);
      StepBringsNothing(run[l - 1], actions[l - 1], run[l], id);
    }
  }
}
