/** Data frames on the server: any number of handlers at once under the readers'
    lock of the session table, between requests that change the table. */
module DataPath {
  import opened Bytes
  import opened Sessions

  // -------------------------------------------------------------------- packets

  /** A whole IPv4 packet and nothing more. */
  predicate ValidIpv4(p: seq<byte>)
  {
    && |p| >= 20 && p[0] / 16 == 4
    && 20 <= p[0] % 16 * 4 <= U16(p[2], p[3]) == |p|
  }

  function Source(p: seq<byte>): (a: Option<Ipv4>)
  {
    if ValidIpv4(p) then Some(p[12..16]) else None
  }

  /** The bytes are a packet with this source: version 4, a header of `words` times four
      bytes, its own length, and the source behind the first twelve bytes. */
  ghost predicate IsPacketFrom(p: seq<byte>, words: nat, a: Ipv4)
  {
    && 5 <= words <= 15 && 4 * words <= |p| < 0x1_0000
    && p[0] == 0x40 + words && p[2..4] == Put16(|p|) && p[12..16] == a
  }

  /** What has a source is exactly what is a whole packet. */
  lemma SourceIff(p: seq<byte>, a: Ipv4)
    ensures Source(p) == Some(a) <==> exists words: nat :: IsPacketFrom(p, words, a)
  {
    if Source(p) == Some(a) {
      assert p[2..4] == [p[2], p[3]] == Put16(|p|);
      assert IsPacketFrom(p, p[0] % 16, a);
    }
    if words: nat :| IsPacketFrom(p, words, a) {
      assert p[2..4][0] == p[2] && p[2..4][1] == p[3];
    }
  }

  datatype Frame = Frame(id: SessionId, from: Address, sequence: u64, packet: seq<byte>)

  // ------------------------------------------------------------------- handlers

  /** Where a handler is. From `Entered` to `Paid` it holds the readers' lock;
      `Leaving` has let go of it with a packet for the TUN. `limit` and `seen` say
      against what the frame was judged. */
  datatype Thread =
    | Idle
    | Entered(f: Frame)
    | Known(f: Frame)
    | Ordered(f: Frame, limit: nat)
    | Paid(f: Frame, limit: nat)
    | Leaving(f: Frame, limit: nat, seen: Table)

  predicate Holding(t: Thread)
  {
    t.Entered? || t.Known? || t.Ordered? || t.Paid?
  }

  datatype Written = Written(f: Frame, limit: nat, seen: Table)

  /** `base` is the sequence of the last create, resume or reload of a session and
      `offered` lists the sequences presented for it since. */
  datatype World = World(table: Table, threads: map<nat, Thread>, tun: seq<Written>,
                         base: map<SessionId, u64>, offered: map<SessionId, seq<u64>>)

  ghost predicate Unlocked(w: World)
  {
    forall k :: k in w.threads ==> !Holding(w.threads[k])
  }

  function Highest(base: u64, offered: seq<u64>): (m: u64)
  {
    if offered == [] then base else Max(Highest(base, offered[..|offered| - 1]), offered[|offered| - 1])
  }

  /** It is at least each of them and is one of them. */
  lemma {:induction false} HighestIsMaximum(base: u64, offered: seq<u64>)
    ensures Highest(base, offered) >= base && forall x :: x in offered ==> x <= Highest(base, offered)
    ensures Highest(base, offered) == base || Highest(base, offered) in offered
  {
    if offered != [] {
      var front := offered[..|offered| - 1];
      HighestIsMaximum(base, front);
      assert offered == front + [offered[|offered| - 1]];
    }
  }

  datatype Action =
    | Enter(k: nat, f: Frame)
    | Know(k: nat, seconds: u64)
    | Order(k: nat)
    | Pay(k: nat, allowed: bool)
    | Match(k: nat, now: nat)
    | Send(k: nat)
    | Request(e: Event)
    | Restart(stored: Table)

  function Set(w: World, k: nat, t: Thread): (n: World)
  {
    w.(threads := w.threads[k := t])
  }

  function AfterKnow(w: World, k: nat, f: Frame, now: u64): (n: World)
  {
    if f.id in w.table && w.table[f.id].clientAddress == f.from && now < w.table[f.id].claims.expiresAt
    then Set(w, k, Known(f)) else Set(w, k, Idle)
  }

  /** `fetch_max`, then the window on what it answered. */
  function AfterOrder(w: World, k: nat, f: Frame): (n: World)
    requires f.id in w.table && f.id in w.offered
  {
    var s := w.table[f.id];
    var m := Max(s.lastSequence, f.sequence);
    var next := if InWindow(s.lastSequence, f.sequence) then Ordered(f, m) else Idle;
    Set(w, k, next).(table := w.table[f.id := s.(lastSequence := m)],
                     offered := w.offered[f.id := w.offered[f.id] + [f.sequence]])
  }

  function AfterMatch(w: World, k: nat, f: Frame, limit: nat, now: nat): (n: World)
    requires f.id in w.table
  {
    if Source(f.packet) == Some(w.table[f.id].ipv4)
    then Set(w, k, Leaving(f, limit, w.table)).(table := w.table[f.id := w.table[f.id].(lastActivity := now)])
    else Set(w, k, Idle)
  }

  /** What a request does to the record of sequences. */
  ghost predicate Tracks(w: World, e: Event, n: World)
  {
    match e
    case Create(_, _, s, answer) =>
      if answer.Some? then n.base == w.base[s.id := s.lastSequence] && n.offered == w.offered[s.id := []]
      else n.base == w.base && n.offered == w.offered
    case ResumeEvent(id, token, _, _, sequence, _) =>
      if id in w.table && w.table[id].Accepts(token)
      then n.base == w.base[id := sequence] && n.offered == w.offered[id := []]
      else n.base == w.base && n.offered == w.offered
    case Ping(id, address, sequence, _, _) =>
      && n.base == w.base
      && (if Reaches(w.table, id, address) && id in w.offered then n.offered == w.offered[id := w.offered[id] + [sequence]]
          else n.offered == w.offered)
    case _ => n.base == w.base && n.offered == w.offered
  }

  ghost predicate Next(w: World, a: Action, n: World)
  {
    match a
    case Enter(k, f) => k in w.threads && w.threads[k].Idle? && n == Set(w, k, Entered(f))
    case Know(k, seconds) => k in w.threads && w.threads[k].Entered? && n == AfterKnow(w, k, w.threads[k].f, seconds)
    case Order(k) =>
      && k in w.threads && w.threads[k].Known? && w.threads[k].f.id in w.table && w.threads[k].f.id in w.offered
      && n == AfterOrder(w, k, w.threads[k].f)
    case Pay(k, allowed) =>
      && k in w.threads && w.threads[k].Ordered?
      && n == Set(w, k, if allowed then Paid(w.threads[k].f, w.threads[k].limit) else Idle)
    case Match(k, now) =>
      && k in w.threads && w.threads[k].Paid? && w.threads[k].f.id in w.table
      && n == AfterMatch(w, k, w.threads[k].f, w.threads[k].limit, now)
    case Send(k) =>
      && k in w.threads && w.threads[k].Leaving?
      && n == Set(w, k, Idle).(tun := w.tun + [Written(w.threads[k].f, w.threads[k].limit, w.threads[k].seen)])
    case Request(e) =>
      && Unlocked(w) && TableNext(w.table, e, n.table) && Tracks(w, e, n)
      && n.threads == w.threads && n.tun == w.tun
    case Restart(stored) =>
      && TableInv(stored) && n.table == stored && n.threads == (map k | k in w.threads :: Idle) && n.tun == w.tun
      && n.base == (map id | id in stored :: stored[id].lastSequence) && n.offered == (map id | id in stored :: [])
  }

  // ------------------------------------------------------------------ invariants

  /** The frame came from the client of the one session that owns the packet's
      source address. */
  ghost predicate Attributed(t: Table, f: Frame)
  {
    && f.id in t && t[f.id].clientAddress == f.from && Source(f.packet) == Some(t[f.id].ipv4)
    && forall id :: id in t && Source(f.packet) == Some(t[id].ipv4) ==> id == f.id
  }

  ghost predicate Sequences(w: World)
  {
    forall id :: id in w.table ==>
      id in w.base && id in w.offered && w.table[id].lastSequence == Highest(w.base[id], w.offered[id])
  }

  ghost predicate ThreadOk(t: Table, r: Thread)
  {
    && (Holding(r) && !r.Entered? ==> r.f.id in t && t[r.f.id].clientAddress == r.f.from)
    && (r.Ordered? || r.Paid? || r.Leaving? ==> r.f.sequence > r.limit - SEQUENCE_REORDER_WINDOW)
    && (r.Leaving? ==> Attributed(r.seen, r.f))
  }

  ghost predicate ThreadsOk(t: Table, threads: map<nat, Thread>)
  {
    forall k :: k in threads ==> ThreadOk(t, threads[k])
  }

  ghost predicate TunOk(tun: seq<Written>)
  {
    forall i :: 0 <= i < |tun| ==>
      Attributed(tun[i].seen, tun[i].f) && tun[i].f.sequence > tun[i].limit - SEQUENCE_REORDER_WINDOW
  }

  ghost predicate Inv(w: World)
  {
    TableInv(w.table) && Sequences(w) && ThreadsOk(w.table, w.threads) && TunOk(w.tun)
  }

  // ------------------------------------------------------------------------ steps

  lemma OneMoreOffered(base: u64, offered: seq<u64>, x: u64)
    ensures Highest(base, offered + [x]) == Max(Highest(base, offered), x)
  {
    assert (offered + [x])[..|offered|] == offered;
  }

  /** The same sessions with the same clients. */
  ghost predicate SameClients(t: Table, r: Table)
  {
    r.Keys == t.Keys && forall id :: id in t ==> r[id].clientAddress == t[id].clientAddress
  }

  lemma OneThreadMoves(t: Table, threads: map<nat, Thread>, r: Table, k: nat, next: Thread)
    requires ThreadsOk(t, threads) && SameClients(t, r) && ThreadOk(r, next)
    ensures ThreadsOk(r, threads[k := next])
  {
    var after := threads[k := next];
    forall j | j in after
      ensures ThreadOk(r, after[j])
    {
      if j != k {
        assert ThreadOk(t, threads[j]);
      }
    }
  }

  lemma OrderKeepsInv(w: World, k: nat, n: World)
    requires Inv(w) && Next(w, Order(k), n)
    ensures Inv(n)
  {
    assert ThreadOk(w.table, w.threads[k]);
    OfferedTracks(w, w.threads[k].f.id, w.threads[k].f.sequence, n);
    SamePlacesKeepsInv(w.table, n.table);
    OneThreadMoves(w.table, w.threads, n.table, k, n.threads[k]);
  }

  /** The source test and the invariant of the table leave one possible sender. */
  lemma MatchAttributes(t: Table, f: Frame)
    requires TableInv(t) && f.id in t && t[f.id].clientAddress == f.from && Source(f.packet) == Some(t[f.id].ipv4)
    ensures Attributed(t, f)
  {
  }

  lemma MatchKeepsInv(w: World, k: nat, now: nat, n: World)
    requires Inv(w) && Next(w, Match(k, now), n)
    ensures Inv(n)
  {
    var f := w.threads[k].f;
    assert ThreadOk(w.table, w.threads[k]);
    if Source(f.packet) == Some(w.table[f.id].ipv4) {
      MatchAttributes(w.table, f);
      ActivityKeepsTable(w, f.id, now);
      OneThreadMoves(w.table, w.threads, n.table, k, n.threads[k]);
    } else {
      OneThreadMoves(w.table, w.threads, w.table, k, Idle);
    }
  }

  lemma ActivityKeepsTable(w: World, id: SessionId, now: nat)
    requires TableInv(w.table) && Sequences(w) && id in w.table
    ensures var r := w.table[id := w.table[id].(lastActivity := now)];
            TableInv(r) && SameClients(w.table, r) && Sequences(w.(table := r))
  {
    SamePlacesKeepsInv(w.table, w.table[id := w.table[id].(lastActivity := now)]);
  }

  /** The steps that leave the table alone. */
  lemma LocalKeepsInv(w: World, a: Action, k: nat, n: World)
    requires Inv(w) && Next(w, a, n) && (a.Enter? || a.Know? || a.Pay?) && a.k == k
    ensures Inv(n)
  {
    assert ThreadOk(w.table, w.threads[k]);
    OneThreadMoves(w.table, w.threads, w.table, k, n.threads[k]);
  }

  lemma SendKeepsInv(w: World, k: nat, n: World)
    requires Inv(w) && Next(w, Send(k), n)
    ensures Inv(n)
  {
    assert ThreadOk(w.table, w.threads[k]);
    OneThreadMoves(w.table, w.threads, w.table, k, Idle);
  }

  /** A ping offers its sequence whether or not it is in the window. */
  lemma PingOffers(t: Table, id: SessionId, address: Address, sequence: u64, now: nat, draw: Nonce)
    ensures var r := TouchSession(t, id, address, sequence, now, draw).0;
            if Reaches(t, id, address) then Offered(t, r, id, sequence) else r == t
  {
  }

  ghost predicate Offered(t: Table, r: Table, id: SessionId, sequence: u64)
  {
    && id in t && r.Keys == t.Keys && r[id].lastSequence == Max(t[id].lastSequence, sequence)
    && forall o :: o in t && o != id ==> r[o] == t[o]
  }

  lemma OfferedTracks(w: World, id: SessionId, sequence: u64, n: World)
    requires Sequences(w) && Offered(w.table, n.table, id, sequence)
    requires n.base == w.base && n.offered == w.offered[id := w.offered[id] + [sequence]]
    ensures Sequences(n)
  {
    OneMoreOffered(w.base[id], w.offered[id], sequence);
    forall o | o in n.table
      ensures o in n.base && o in n.offered && n.table[o].lastSequence == Highest(n.base[o], n.offered[o])
    {
      assert o in w.table && o in w.base && o in w.offered;
    }
  }

  lemma CreateTracks(w: World, mid: Table, open: set<ClientLink>, s: Session, answer: Option<Ipv4>, n: World)
    requires Sequences(w) && Next(w, Request(Create(mid, open, s, answer)), n)
    ensures Sequences(n)
  {
    forall id | id in n.table
      ensures id in n.base && id in n.offered && n.table[id].lastSequence == Highest(n.base[id], n.offered[id])
    {
      if answer.None? || id != s.id {
        assert id in mid && mid[id] == w.table[id];
      }
    }
  }

  lemma ResumeTracks(w: World, e: Event, n: World)
    requires e.ResumeEvent? && Sequences(w) && TableNext(w.table, e, n.table) && Tracks(w, e, n)
    ensures Sequences(n)
  {
    forall o | o in n.table
      ensures o in n.base && o in n.offered && n.table[o].lastSequence == Highest(n.base[o], n.offered[o])
    {
      assert o in w.table;
    }
  }

  lemma RequestTracks(w: World, e: Event, n: World)
    requires Sequences(w) && Next(w, Request(e), n)
    ensures Sequences(n)
  {
    match e
    case Create(mid, open, s, answer) => CreateTracks(w, mid, open, s, answer, n);
    case Ping(id, address, sequence, now, draw) => {
      PingOffers(w.table, id, address, sequence, now, draw);
      if Reaches(w.table, id, address) {
        OfferedTracks(w, id, sequence, n);
      }
    }
    case ResumeEvent(id, token, address, link, sequence, now) => ResumeTracks(w, e, n);
    case _ => QuietTracks(w, e, n);
  }

  /** The other requests leave every sequence alone. */
  lemma QuietTracks(w: World, e: Event, n: World)
    requires Sequences(w) && TableNext(w.table, e, n.table) && Tracks(w, e, n)
    requires e.Offer? || e.Confirm? || e.Detach? || e.Remove?
    ensures Sequences(n)
  {
    forall o | o in n.table
      ensures o in w.table && n.table[o].lastSequence == w.table[o].lastSequence
    {
    }
  }

  lemma RequestKeepsInv(w: World, e: Event, n: World)
    requires Inv(w) && Next(w, Request(e), n)
    ensures Inv(n)
  {
    NextKeepsInv(w.table, e, n.table);
    RequestTracks(w, e, n);
  }

  lemma StepKeepsInv(w: World, a: Action, n: World)
    requires Inv(w) && Next(w, a, n)
    ensures Inv(n)
  {
    match a
    case Order(k) => OrderKeepsInv(w, k, n);
    case Match(k, now) => MatchKeepsInv(w, k, now, n);
    case Send(k) => SendKeepsInv(w, k, n);
    case Request(e) => RequestKeepsInv(w, e, n);
    case Restart(_) => {}
    case _ => LocalKeepsInv(w, a, a.k, n);
  }

  // ------------------------------------------------------------------------- runs

  ghost predicate Init(w: World)
  {
    && w.table == map[] && w.tun == [] && w.base == map[] && w.offered == map[]
    && forall k :: k in w.threads ==> w.threads[k].Idle?
  }

  ghost predicate IsRun(run: seq<World>, actions: seq<Action>)
  {
    && |run| == |actions| + 1 && Init(run[0])
    && forall i :: 0 <= i < |actions| ==> Next(run[i], actions[i], run[i + 1])
  }

  lemma {:induction false} RunKeepsInv(run: seq<World>, actions: seq<Action>, i: nat)
    requires IsRun(run, actions) && i < |run|
    ensures Inv(run[i])
  {
    if i > 0 {
      RunKeepsInv(run, actions, i - 1);
      StepKeepsInv(run[i - 1], actions[i - 1], run[i]);
    }
  }

  /** Whatever the interleaving: a frame passes the sequence test exactly when its
      number is above the highest since the last create or resume, less 1024. */
  lemma AcceptedIffInWindow(run: seq<World>, actions: seq<Action>, i: nat, k: nat)
    requires IsRun(run, actions) && i < |actions| && actions[i] == Order(k)
    ensures k in run[i].threads && run[i].threads[k].Known? && k in run[i + 1].threads
    ensures var f, n := run[i].threads[k].f, run[i + 1];
            && f.id in n.base && f.id in n.offered && f.sequence in n.offered[f.id]
            && (n.threads[k].Ordered?
                <==> f.sequence > Highest(n.base[f.id], n.offered[f.id]) - SEQUENCE_REORDER_WINDOW)
  {
    RunKeepsInv(run, actions, i);
    var w := run[i];
    assert Next(w, actions[i], run[i + 1]);
    var f := w.threads[k].f;
    OneMoreOffered(w.base[f.id], w.offered[f.id], f.sequence);
  }

  /** A frame is let on if and only if its session is there, it came from that
      session's client, and the subscription has not run out. */
  lemma KnownIff(run: seq<World>, actions: seq<Action>, i: nat, k: nat, seconds: u64)
    requires IsRun(run, actions) && i < |actions| && actions[i] == Know(k, seconds)
    ensures k in run[i].threads && run[i].threads[k].Entered? && k in run[i + 1].threads
    ensures var f, t := run[i].threads[k].f, run[i].table;
            run[i + 1].threads[k]
            == if f.id in t && t[f.id].clientAddress == f.from && seconds < t[f.id].claims.expiresAt then Known(f) else Idle
  {
    assert Next(run[i], actions[i], run[i + 1]);
  }

  // -------------------------------------------------------- where a packet came from

  /** A handler in one of its later states was there before, unless this very
      action brought it there. */
  lemma ThreadStays(w: World, a: Action, n: World, k: nat)
    requires Next(w, a, n) && k in n.threads
    ensures n.threads[k].Known? && !(a.Know? && a.k == k) ==> k in w.threads && w.threads[k] == n.threads[k]
    ensures n.threads[k].Ordered? && a != Order(k) ==> k in w.threads && w.threads[k] == n.threads[k]
    ensures n.threads[k].Paid? && !(a.Pay? && a.k == k) ==> k in w.threads && w.threads[k] == n.threads[k]
    ensures n.threads[k].Leaving? && !(a.Match? && a.k == k) ==> k in w.threads && w.threads[k] == n.threads[k]
  {
  }

  /** What let a handler's frame on. */
  ghost predicate Admitted(run: seq<World>, actions: seq<Action>, e: nat, k: nat, f: Frame)
    requires |run| == |actions| + 1
  {
    && e < |actions| && actions[e].Know? && actions[e].k == k && k in run[e].threads && run[e].threads[k] == Entered(f)
    && f.id in run[e].table && run[e].table[f.id].clientAddress == f.from
    && actions[e].seconds < run[e].table[f.id].claims.expiresAt
  }

  lemma {:induction false} KnownCameFrom(run: seq<World>, actions: seq<Action>, i: nat, k: nat) returns (e: nat)
    requires IsRun(run, actions) && i < |run| && k in run[i].threads && run[i].threads[k].Known?
    ensures e < i && Admitted(run, actions, e, k, run[i].threads[k].f)
  {
    assert i > 0;
    var a := actions[i - 1];
    assert Next(run[i - 1], a, run[i]);
    if a.Know? && a.k == k {
      e := i - 1;
      KnownIff(run, actions, e, k, a.seconds);
    } else {
      ThreadStays(run[i - 1], a, run[i], k);
      e := KnownCameFrom(run, actions, i - 1, k);
    }
  }

  /** What made a handler's frame pass the sequence test. */
  ghost predicate Passed(run: seq<World>, actions: seq<Action>, o: nat, k: nat, f: Frame, limit: nat)
    requires |run| == |actions| + 1
  {
    && o < |actions| && actions[o] == Order(k) && k in run[o].threads && run[o].threads[k] == Known(f)
    && f.id in run[o + 1].base && f.id in run[o + 1].offered
    && limit == Highest(run[o + 1].base[f.id], run[o + 1].offered[f.id])
    && f.sequence > limit - SEQUENCE_REORDER_WINDOW
  }

  lemma {:induction false} OrderedCameFrom(run: seq<World>, actions: seq<Action>, i: nat, k: nat) returns (o: nat)
    requires IsRun(run, actions) && i < |run| && k in run[i].threads && run[i].threads[k].Ordered?
    ensures o < i && Passed(run, actions, o, k, run[i].threads[k].f, run[i].threads[k].limit)
  {
    assert i > 0;
    var w, a := run[i - 1], actions[i - 1];
    assert Next(w, a, run[i]);
    if a == Order(k) {
      o := i - 1;
      AcceptedIffInWindow(run, actions, o, k);
      RunKeepsInv(run, actions, o);
      RunKeepsInv(run, actions, o + 1);
      assert Next(run[o], actions[o], run[o + 1]);
    } else {
      ThreadStays(w, a, run[i], k);
      o := OrderedCameFrom(run, actions, i - 1, k);
    }
  }

  lemma {:induction false} PaidCameFrom(run: seq<World>, actions: seq<Action>, i: nat, k: nat) returns (o: nat)
    requires IsRun(run, actions) && i < |run| && k in run[i].threads && run[i].threads[k].Paid?
    ensures o < i && Passed(run, actions, o, k, run[i].threads[k].f, run[i].threads[k].limit)
  {
    assert i > 0;
    var w, a := run[i - 1], actions[i - 1];
    assert Next(w, a, run[i]);
    if a.Pay? && a.k == k {
      o := OrderedCameFrom(run, actions, i - 1, k);
    } else {
      ThreadStays(w, a, run[i], k);
      o := PaidCameFrom(run, actions, i - 1, k);
    }
  }

  /** The handler compared the packet's source in the state `m`. */
  ghost predicate LetThrough(run: seq<World>, actions: seq<Action>, m: nat, k: nat, f: Frame, limit: nat, seen: Table)
    requires |run| == |actions| + 1
  {
    && m < |actions| && actions[m].Match? && actions[m].k == k && k in run[m].threads
    && run[m].threads[k] == Paid(f, limit) && run[m].table == seen
  }

  lemma {:induction false} LeavingCameFrom(run: seq<World>, actions: seq<Action>, i: nat, k: nat) returns (o: nat, m: nat)
    requires IsRun(run, actions) && i < |run| && k in run[i].threads && run[i].threads[k].Leaving?
    ensures var t := run[i].threads[k];
            && o < m < i && Passed(run, actions, o, k, t.f, t.limit)
            && LetThrough(run, actions, m, k, t.f, t.limit, t.seen)
  {
    assert i > 0;
    var w, a := run[i - 1], actions[i - 1];
    assert Next(w, a, run[i]);
    if a.Match? && a.k == k {
      m := i - 1;
      o := PaidCameFrom(run, actions, i - 1, k);
    } else {
      ThreadStays(w, a, run[i], k);
      o, m := LeavingCameFrom(run, actions, i - 1, k);
    }
  }

  lemma {:induction false} WrittenCameFrom(run: seq<World>, actions: seq<Action>, i: nat, j: nat) returns (s: nat, k: nat)
    requires IsRun(run, actions) && i < |run| && j < |run[i].tun|
    ensures s < i && actions[s] == Send(k) && k in run[s].threads && run[s].threads[k].Leaving?
    ensures run[i].tun[j] == Written(run[s].threads[k].f, run[s].threads[k].limit, run[s].threads[k].seen)
  {
    assert i > 0;
    var w, a := run[i - 1], actions[i - 1];
    assert Next(w, a, run[i]);
    if j < |w.tun| {
      s, k := WrittenCameFrom(run, actions, i - 1, j);
    } else {
      s, k := i - 1, a.k;
    }
  }

  /** Every packet the TUN ever got: some handler `k` was let on at step `e`, when the
      frame came from its session's client and the subscription had not run out; passed
      its sequence test at step `o`, against the highest number since the last create or
      resume; and compared its source at step `m`, when it came from the client of the
      one session that owned that address. */
  lemma EveryPacketHasItsOwner(run: seq<World>, actions: seq<Action>, i: nat, j: nat)
    returns (k: nat, e: nat, o: nat, m: nat)
    requires IsRun(run, actions) && i < |run| && j < |run[i].tun|
    ensures var p := run[i].tun[j];
            && e < o < m < i && Admitted(run, actions, e, k, p.f) && Passed(run, actions, o, k, p.f, p.limit)
            && LetThrough(run, actions, m, k, p.f, p.limit, p.seen)
            && Attributed(run[m].table, p.f)
  {
    RunKeepsInv(run, actions, i);
    var s, thread := WrittenCameFrom(run, actions, i, j);
    k := thread;
    o, m := LeavingCameFrom(run, actions, s, k);
    e := KnownCameFrom(run, actions, o, k);
  }

  /** The states follow each other by these actions. */
  ghost predicate Leads(states: seq<World>, actions: seq<Action>)
  {
    |states| == |actions| + 1 && forall i :: 0 <= i < |actions| ==> Next(states[i], actions[i], states[i + 1])
  }

  lemma LeadsOn(a: seq<World>, x: seq<Action>, b: seq<World>, y: seq<Action>)
    requires Leads(a, x) && Leads(b, y) && a[|x|] == b[0]
    ensures Leads(a + b[1..], x + y)
  {
    var all, actions := a + b[1..], x + y;
    forall i | 0 <= i < |actions|
      ensures Next(all[i], actions[i], all[i + 1])
    {
      if i < |x| {
        assert Next(a[i], x[i], a[i + 1]);
      } else {
        assert Next(b[i - |x|], y[i - |x|], b[i - |x| + 1]);
      }
    }
  }

  /** The packet stands at the end of the TUN, its session knows its number and the time,
      and the handler is free again. */
  ghost predicate WrittenTo(w: World, f: Frame, limit: u64, now: nat, r: World)
    requires f.id in w.table
  {
    && |r.tun| == |w.tun| + 1 && r.tun[..|w.tun|] == w.tun && r.tun[|w.tun|].f == f && r.tun[|w.tun|].limit == limit
    && r.table == w.table[f.id := w.table[f.id].(lastSequence := limit, lastActivity := now)] && r.threads == w.threads
  }

  /** Nothing that meets these conditions is lost: the frame of a live session, from its
      client, in the window, within the rate and from its own address goes to the TUN,
      and the session remembers its number and the time. */
  lemma GoodPacketIsWritten(w: World, k: nat, f: Frame, seconds: u64, now: nat) returns (states: seq<World>)
    requires Inv(w) && k in w.threads && w.threads[k].Idle? && f.id in w.table
    requires w.table[f.id].clientAddress == f.from && seconds < w.table[f.id].claims.expiresAt
    requires f.sequence > w.table[f.id].lastSequence - SEQUENCE_REORDER_WINDOW
    requires Source(f.packet) == Some(w.table[f.id].ipv4)
    ensures Leads(states, [Enter(k, f), Know(k, seconds), Order(k)] + [Pay(k, true), Match(k, now), Send(k)]) && states[0] == w
    ensures var s := w.table[f.id];
            var limit := if s.lastSequence < f.sequence then f.sequence else s.lastSequence;
            WrittenTo(w, f, limit, now, states[6])
  {
    var limit := if w.table[f.id].lastSequence < f.sequence then f.sequence else w.table[f.id].lastSequence;
    var a := GoodPacketIsOrdered(w, k, f, seconds);
    var b := OrderedPacketIsWritten(a[3], k, f, limit, now);
    states := a + b[1..];
    BothHalves(w, a[3], b[3], k, f, limit, now);
    LeadsOn(a, [Enter(k, f), Know(k, seconds), Order(k)], b, [Pay(k, true), Match(k, now), Send(k)]);
  }

  lemma BothHalves(w: World, mid: World, r: World, k: nat, f: Frame, limit: u64, now: nat)
    requires k in w.threads && w.threads[k].Idle? && f.id in w.table
    requires mid.threads == w.threads[k := Ordered(f, limit)] && mid.table == w.table[f.id := w.table[f.id].(lastSequence := limit)]
    requires mid.tun == w.tun && r.threads == mid.threads[k := Idle]
    requires r.table == mid.table[f.id := mid.table[f.id].(lastActivity := now)]
    requires |r.tun| == |w.tun| + 1 && r.tun[..|w.tun|] == w.tun && r.tun[|w.tun|].f == f && r.tun[|w.tun|].limit == limit
    ensures WrittenTo(w, f, limit, now, r)
  {
  }

  lemma GoodPacketIsOrdered(w: World, k: nat, f: Frame, seconds: u64) returns (states: seq<World>)
    requires Inv(w) && k in w.threads && w.threads[k].Idle? && f.id in w.table
    requires w.table[f.id].clientAddress == f.from && seconds < w.table[f.id].claims.expiresAt
    requires f.sequence > w.table[f.id].lastSequence - SEQUENCE_REORDER_WINDOW
    ensures Leads(states, [Enter(k, f), Know(k, seconds), Order(k)]) && states[0] == w
    ensures var s, r := w.table[f.id], states[3];
            var limit := if s.lastSequence < f.sequence then f.sequence else s.lastSequence;
            && r.threads == w.threads[k := Ordered(f, limit)] && r.table == w.table[f.id := s.(lastSequence := limit)]
            && r.tun == w.tun
  {
    var w1 := Set(w, k, Entered(f));
    var w2 := AfterKnow(w1, k, f, seconds);
    var w3 := AfterOrder(w2, k, f);
    states := [w, w1, w2, w3];
  }

  lemma OrderedPacketIsWritten(w: World, k: nat, f: Frame, limit: nat, now: nat) returns (states: seq<World>)
    requires k in w.threads && w.threads[k] == Ordered(f, limit) && f.id in w.table
    requires Source(f.packet) == Some(w.table[f.id].ipv4)
    ensures Leads(states, [Pay(k, true), Match(k, now), Send(k)]) && states[0] == w
    ensures var r := states[3];
            && |r.tun| == |w.tun| + 1 && r.tun[..|w.tun|] == w.tun && r.tun[|w.tun|].f == f && r.tun[|w.tun|].limit == limit
            && r.table == w.table[f.id := w.table[f.id].(lastActivity := now)] && r.threads == w.threads[k := Idle]
  {
    var w1 := Set(w, k, Paid(f, limit));
    var w2 := AfterMatch(w1, k, f, limit, now);
    var w3 := Set(w2, k, Idle).(tun := w2.tun + [Written(f, w2.threads[k].limit, w2.threads[k].seen)]);
    states := [w, w1, w2, w3];
  }

  // --------------------------------------------------- between the lock and the TUN

  /** Session ids are drawn new: one that was ever in the table is not given again. */
  ghost predicate NewIds(run: seq<World>, actions: seq<Action>)
    requires |run| == |actions| + 1
  {
    forall m, l :: 0 <= l <= m < |actions| && actions[m].Request? && actions[m].e.Create? ==>
      actions[m].e.s.id !in run[l].table
  }

  /** A request that takes the session out: it removes it, or evicts it. */
  predicate TakesOut(a: Action, id: SessionId)
  {
    a.Request? && ((a.e.Remove? && id in a.e.gone) || (a.e.Create? && id !in a.e.mid))
  }

  ghost predicate Owns(t: Table, id: SessionId, a: Option<Ipv4>)
  {
    id in t && a == Some(t[id].ipv4) && forall o :: o in t && a == Some(t[o].ipv4) ==> o == id
  }

  /** No action between `i` and `j` takes the session out. */
  predicate Left(actions: seq<Action>, i: nat, j: nat, id: SessionId)
    requires j <= |actions|
  {
    forall m :: i < m < j ==> !TakesOut(actions[m], id)
  }

  lemma CreateTakesOut(w: World, e: Event, n: World, id: SessionId)
    requires Next(w, Request(e), n) && id in w.table && e.Create? && e.s.id != id
    ensures id in n.table <==> id in e.mid
    ensures id in n.table ==> n.table[id] == w.table[id]
  {
  }

  /** One step, for a session that is in the table and is not replaced. */
  lemma StepTakesOut(w: World, a: Action, n: World, id: SessionId)
    requires Next(w, a, n) && !a.Restart? && id in w.table
    requires a.Request? && a.e.Create? ==> a.e.s.id != id
    ensures id in n.table <==> !TakesOut(a, id)
    ensures id in n.table ==> n.table[id].ipv4 == w.table[id].ipv4
  {
    if a.Request? && a.e.Create? {
      CreateTakesOut(w, a.e, n, id);
    }
  }

  lemma StepBringsNothing(w: World, a: Action, n: World, id: SessionId)
    requires Next(w, a, n) && !a.Restart? && id !in w.table
    requires a.Request? && a.e.Create? ==> a.e.s.id != id
    ensures id !in n.table
  {
    assert a.Order? || a.Match? ==> a.k in w.threads && w.threads[a.k].f.id in w.table;
  }

  /** From the state after `i` on, as long as nobody restarts the server. */
  lemma {:induction false} ThereUnlessTakenOut(run: seq<World>, actions: seq<Action>, i: nat, j: nat, id: SessionId)
    requires IsRun(run, actions) && NewIds(run, actions) && i < j < |run| && id in run[i + 1].table
    requires forall m :: i < m < j ==> !actions[m].Restart?
    ensures id in run[j].table <==> Left(actions, i, j, id)
    ensures id in run[j].table ==> run[j].table[id].ipv4 == run[i + 1].table[id].ipv4
    decreases j
  {
    if i + 1 < j {
      ThereUnlessTakenOut(run, actions, i, j - 1, id);
      assert Left(actions, i, j, id) <==> Left(actions, i, j - 1, id) && !TakesOut(actions[j - 1], id);
      var a := actions[j - 1];
      assert Next(run[j - 1], a, run[j]);
      assert a.Request? && a.e.Create? ==> a.e.s.id !in run[i + 1].table;
      if id in run[j - 1].table {
        StepTakesOut(run[j - 1], a, run[j], id);
      } else {
        StepBringsNothing(run[j - 1], a, run[j], id);
      }
    }
  }

  /** A packet was let through at step `i` and is written at step `j`: its sender
      still owns its address then if and only if no request in between took the
      session out. */
  lemma StillOwnedIff(run: seq<World>, actions: seq<Action>, i: nat, j: nat, k: nat, now: nat)
    requires IsRun(run, actions) && NewIds(run, actions) && i < j < |actions|
    requires actions[i] == Match(k, now) && k in run[i + 1].threads && run[i + 1].threads[k].Leaving?
    requires actions[j] == Send(k) && forall m :: i < m < j ==> actions[m] != Send(k) && !actions[m].Restart?
    ensures k in run[j].threads && run[j].threads[k] == run[i + 1].threads[k]
    ensures var f := run[i + 1].threads[k].f;
            Owns(run[j].table, f.id, Source(f.packet)) <==> Left(actions, i, j, f.id)
  {
    var f := run[i + 1].threads[k].f;
    assert Next(run[i], actions[i], run[i + 1]);
    LeavingUntilSent(run, actions, i, j, k);
    ThereUnlessTakenOut(run, actions, i, j, f.id);
    RunKeepsInv(run, actions, j);
  }

  lemma {:induction false} LeavingUntilSent(run: seq<World>, actions: seq<Action>, i: nat, j: nat, k: nat)
    requires IsRun(run, actions) && i < j < |run| && k in run[i + 1].threads && run[i + 1].threads[k].Leaving?
    requires forall m :: i < m < j ==> actions[m] != Send(k) && !actions[m].Restart?
    ensures k in run[j].threads && run[j].threads[k] == run[i + 1].threads[k]
    decreases j
  {
    if i + 1 < j {
      LeavingUntilSent(run, actions, i, j - 1, k);
      assert Next(run[j - 1], actions[j - 1], run[j]);
    }
  }
}
