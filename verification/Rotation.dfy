/** Resume-token rotation between one client and the server.

    Both sides act in atomic steps over one in-order lossy link each way. The
    server works on the real session table and writes the real store bytes; a
    crash throws the table away and decodes those bytes. Assumptions of the
    model: nonces and session ids are drawn fresh and no nonce is all-zero, the
    store is written before the reply leaves, and frames of an abandoned
    connection are not delivered. */
module Rotation {
  import opened Bytes
  import opened Sessions
  import opened Store
  import TableRuns

  // -------------------------------------------------------------------- frames

  /** Server to client. The payload of a Data frame is carried because the
      handshake of the desktop client decodes it without looking at the type. */
  datatype Frame =
    | AllGood(id: SessionId, nonce: Nonce)
    | StillGood(id: SessionId, ipv4: Ipv4)
    | Denied
    | Close(id: SessionId)
    | Pong
    | Rekey(id: SessionId, nonce: Nonce)
    | Data(payload: seq<byte>)

  /** Client to server. */
  datatype Message =
    | WhatsUp
    | BackAgain(id: SessionId, token: Nonce)
    | RekeyAsk(id: SessionId)
    | RekeyTake(id: SessionId, nonce: Nonce)
    | PingMsg(id: SessionId, sequence: u64)

  datatype Token = Token(id: SessionId, nonce: Nonce)

  /** `Rekey::decode` of the payload: 48 bytes are an id and a nonce, whatever
      the frame type says. `strict` is a client that looks at the type first. */
  function AsToken(f: Frame, strict: bool): (r: Option<Token>)
  {
    match f
    case Rekey(id, nonce) => Some(Token(id, nonce))
    case Data(payload) =>
      if !strict && |payload| == SESSION_ID_SIZE + NONCE_SIZE
      then Some(Token(payload[..SESSION_ID_SIZE], payload[SESSION_ID_SIZE..]))
      else None
    case _ => None
  }

  // -------------------------------------------------------------------- client

  datatype Phase = Offline | AwaitResume | AwaitCreate | AwaitOffer | AwaitAck | Tunnel

  /** `saved` is the session file; `active` is the session in memory and means
      something from `AwaitOffer` on; `seen` is the last token read. */
  datatype Client = Client(phase: Phase, active: SessionId, saved: Option<Token>, seen: Option<Nonce>,
                           address: Address, strict: bool)
  {
    predicate Rotating()
    {
      phase.AwaitOffer? || phase.AwaitAck? || phase.Tunnel?
    }

    /** Writing the session file may fail, and the client goes on. */
    function Take(nonce: Nonce, saveOk: bool): (c: Client)
    {
      this.(seen := Some(nonce), saved := if saveOk then Some(Token(active, nonce)) else saved)
    }

    function Forget(forgetOk: bool): (c: Client)
    {
      this.(saved := if forgetOk then None else saved)
    }

    function Drop(): (c: Client)
    {
      this.(phase := Offline, seen := None)
    }
  }

  /** What the client does with the next frame; the answers go on the link. */
  function Read(c: Client, f: Frame, saveOk: bool, forgetOk: bool): (r: (Client, seq<Message>))
    requires !c.phase.Offline?
  {
    match c.phase
    case AwaitResume =>
      if f.StillGood? && c.saved.Some? && f.id == c.saved.value.id then
        (c.(phase := AwaitOffer, active := f.id), [RekeyAsk(f.id)])
      else
        (c.Forget(forgetOk).(phase := AwaitCreate), [WhatsUp])
    case AwaitCreate =>
      if f.AllGood? && saveOk then
        (c.(phase := AwaitOffer, active := f.id, saved := Some(Token(f.id, f.nonce))), [RekeyAsk(f.id)])
      else
        (c.Drop(), [])
    case AwaitOffer =>
      var token := AsToken(f, c.strict);
      if token.Some? && token.value.id == c.active then
        (c.Take(token.value.nonce, saveOk).(phase := AwaitAck), [RekeyTake(c.active, token.value.nonce)])
      else
        (c.(phase := Tunnel), [])
    case AwaitAck =>
      var token := AsToken(f, c.strict);
      if token.Some? && token.value.id == c.active then
        (c.Take(token.value.nonce, saveOk).(phase := Tunnel), [])
      else
        (c.(phase := Tunnel), [])
    case Tunnel =>
      if f.Rekey? && f.id == c.active then
        (c.Take(f.nonce, saveOk), [RekeyTake(c.active, f.nonce)])
      else if f.Denied? || (f.Close? && f.id == c.active) then
        (c.Forget(forgetOk).Drop(), [])
      else
        (c, [])
  }

  /** A frame that is no Rekey frame is about to be taken for a token. */
  predicate Misreads(c: Client, f: Frame)
  {
    && (c.phase.AwaitOffer? || c.phase.AwaitAck?) && !f.Rekey?
    && AsToken(f, c.strict).Some? && AsToken(f, c.strict).value.id == c.active
  }

  /** No frame came in time. */
  function Timeout(c: Client, forgetOk: bool): (r: (Client, seq<Message>))
    requires !c.phase.Offline?
  {
    match c.phase
    case AwaitResume => (c.Forget(forgetOk).(phase := AwaitCreate), [WhatsUp])
    case AwaitCreate => (c.Drop(), [])
    case _ => (c.(phase := Tunnel), [])
  }

  // -------------------------------------------------------------------- server

  /** A handler has changed the table and not yet answered; `dirty` says that
      it still has to write the store. */
  datatype Busy = Idle | Answering(replies: seq<Frame>, dirty: bool)

  function Optionally(id: SessionId, nonce: Option<Nonce>): (r: seq<Frame>)
  {
    if nonce.Some? then [Rekey(id, nonce.value)] else []
  }

  /** The handlers, up to the point where they let go of the lock. Creation is
      in `Creating` below. */
  function Handle(t: Table, m: Message, address: Address, link: ClientLink, sequence: u64, now: nat, draw: Nonce)
    : (r: (Table, Busy))
    requires !m.WhatsUp?
  {
    match m
    case BackAgain(id, token) =>
      var (t', ipv4) := Resume(t, id, token, address, link, sequence, now);
      (t', if ipv4.Some? then Answering([StillGood(id, ipv4.value)], true) else Answering([Denied], false))
    case RekeyAsk(id) =>
      var (t', nonce) := RekeyOffer(t, id, address, draw);
      (t', Answering(Optionally(id, nonce), t' != t))
    case RekeyTake(id, nonce) =>
      var (t', ack) := RekeyConfirm(t, id, nonce, address, now);
      (t', Answering(Optionally(id, ack), ack.Some?))
    case PingMsg(id, seq_) =>
      var (t', touch) := TouchSession(t, id, address, seq_, now, draw);
      match touch
      case Ignored => (t', Answering([], false))
      case Touched(offer) =>
        (t', Answering([Pong] + Optionally(id, offer), t[id].pendingNonce != t'[id].pendingNonce))
  }

  // --------------------------------------------------------------------- world

  /** The fields from `flushed` on are bookkeeping for the statements: the table
      behind the bytes on disk, every nonce drawn, the address each of the client's
      sessions got, the number of confirmed rotations since a token of the server was
      last written to the client's file (for the table and for the disk), and whether
      a save was ever lost. `shown` is the last token that came in a Rekey frame,
      `heard` all that were taken from other frames; `misread` says that the file
      holds such a one, and `clash` that one of them was, of all things, a nonce the
      server had drawn. */
  datatype World = World(
    c: Client, up: seq<Message>, down: seq<Frame>, wired: bool,
    table: Table, busy: Busy, disk: seq<byte>,
    flushed: Table, drawn: set<Nonce>, home: map<SessionId, Ipv4>, lag: nat, diskLag: nat,
    lost: bool, shown: Option<Nonce>, heard: set<Nonce>, misread: bool, clash: bool)
  {
    function Replies(): (r: seq<Frame>)
    {
      if busy.Answering? then busy.replies else []
    }

    /** Everything on its way to the client, or about to be. */
    function Stream(): (r: seq<Frame>)
    {
      down + Replies()
    }
  }

  datatype Step =
    | Connect(address: Address)
    | Abandon
    | LoseUp(i: nat)
    | LoseDown(i: nat)
    | Push(f: Frame)
    | ClientRead(saveOk: bool, forgetOk: bool)
    | ClientTimeout(forgetOk: bool)
    | LateSave
    | ClientPing(sequence: u64)
    | ServerRead(link: ClientLink, sequence: u64, now: nat, draw: Nonce)
    | ServerCreate(e: Event)
    | ServerFinish(order: seq<SessionId>)
    | Others(e: Event, dirty: bool)
    | Crash(now: nat)

  function Without<T>(s: seq<T>, i: nat): (r: seq<T>)
    requires i < |s|
    ensures |r| == |s| - 1 && forall k :: 0 <= k < |r| ==> r[k] == s[if k < i then k else k + 1]
    ensures forall x :: x in r ==> x in s
  {
    s[..i] + s[i + 1..]
  }

  predicate SameTokens(a: Session, b: Session)
  {
    a.serverNonce == b.serverNonce && a.prevNonce == b.prevNonce && a.pendingNonce == b.pendingNonce
    && a.ipv4 == b.ipv4
  }

  predicate FreshDraw(w: World, draw: Nonce)
  {
    draw !in w.drawn && draw !in w.heard && draw != Zeros(NONCE_SIZE)
  }

  /** The client takes no token and writes no file; it may hang up or lose its file. */
  predicate Bystands(w: World, r: World)
  {
    && r.heard == w.heard && r.misread == w.misread && r.clash == w.clash && r.c.strict == w.c.strict
    && (r.c.saved == w.c.saved || r.c.saved.None?)
    && ((r.c.seen == w.c.seen && r.shown == w.shown) || (r.c.seen.None? && r.shown.None?))
  }

  /** The client hangs up: nothing of this connection is delivered any more. */
  function Hang(w: World): (r: World)
    ensures Bystands(w, r) && r.lag == w.lag && r.table == w.table && r.c.seen.None? && r.shown.None?
  {
    w.(c := w.c.Drop(), up := [], down := [], wired := false, shown := None,
       busy := if w.busy.Answering? then w.busy.(replies := []) else Idle)
  }

  function Send(w: World, messages: seq<Message>): (r: World)
    ensures Bystands(w, r) && r.c == w.c && r.shown == w.shown && r.lag == w.lag && r.table == w.table
  {
    if w.wired then w.(up := w.up + messages) else w
  }

  function Dial(w: World, address: Address): (r: World)
    ensures Bystands(w, r) && r.lag == w.lag
  {
    var first := if w.c.saved.Some? then BackAgain(w.c.saved.value.id, w.c.saved.value.nonce) else WhatsUp;
    w.(c := w.c.(phase := if w.c.saved.Some? then AwaitResume else AwaitCreate, address := address),
       up := [first], wired := true)
  }

  predicate TakesToken(c: Client, f: Frame)
  {
    match c.phase
    case Tunnel => f.Rekey? && f.id == c.active
    case AwaitOffer => AsToken(f, c.strict).Some? && AsToken(f, c.strict).value.id == c.active
    case AwaitAck => AsToken(f, c.strict).Some? && AsToken(f, c.strict).value.id == c.active
    case _ => false
  }

  /** The frame is read and the bookkeeping done. A token of the server puts the file
      right again when it is saved. */
  function Counted(w: World, c: Client, saveOk: bool): (r: World)
    requires w.down != []
    ensures r.c == c && r.table == w.table
  {
    var f := w.down[0];
    var w1 := w.(c := c, down := w.down[1..]);
    if Misreads(w.c, f) then Mistaken(w1, AsToken(f, w.c.strict).value.nonce, saveOk)
    else if TakesToken(w.c, f) then
      var w2 := w1.(shown := Some(AsToken(f, w.c.strict).value.nonce));
      if saveOk then w2.(lag := 0, diskLag := 0, misread := false) else w2.(lost := true)
    else if w.c.phase.AwaitCreate? && !c.phase.Offline? then w1.(lag := 0, diskLag := 0, misread := false)
    else w1
  }

  function Mistaken(w: World, nonce: Nonce, saveOk: bool): (r: World)
    ensures r.c == w.c && r.table == w.table && r.lag == w.lag && (r.clash <==> w.clash || nonce in w.drawn)
  {
    w.(heard := w.heard + {nonce}, misread := w.misread || saveOk, clash := w.clash || nonce in w.drawn)
  }

  function AfterRead(w: World, saveOk: bool, forgetOk: bool): (r: World)
    requires !w.c.phase.Offline? && w.down != []
    ensures r.table == w.table
  {
    var (c, out) := Read(w.c, w.down[0], saveOk, forgetOk);
    if c.phase.Offline? then Hang(Counted(w, c, saveOk)) else Send(Counted(w, c, saveOk), out)
  }

  /** A misread frame carries a nonce the server has drawn. */
  predicate ClashRead(w: World)
    requires w.down != []
  {
    Misreads(w.c, w.down[0]) && AsToken(w.down[0], w.c.strict).value.nonce in w.drawn
  }

  lemma ReadKeepsStrict(c: Client, f: Frame, saveOk: bool, forgetOk: bool)
    requires !c.phase.Offline?
    ensures Read(c, f, saveOk, forgetOk).0.strict == c.strict
  {
  }

  lemma CountedClash(w: World, c: Client, saveOk: bool)
    requires w.down != []
    ensures Counted(w, c, saveOk).lag <= w.lag && (Counted(w, c, saveOk).clash <==> w.clash || ClashRead(w))
  {
  }

  /** What a read does to the bookkeeping. */
  lemma ReadCounts(w: World, saveOk: bool, forgetOk: bool)
    requires !w.c.phase.Offline? && w.down != []
    ensures var r := AfterRead(w, saveOk, forgetOk);
            r.c.strict == w.c.strict && r.lag <= w.lag && (r.clash <==> w.clash || ClashRead(w))
  {
    ReadKeepsStrict(w.c, w.down[0], saveOk, forgetOk);
    CountedClash(w, Read(w.c, w.down[0], saveOk, forgetOk).0, saveOk);
  }

  function AfterTimeout(w: World, forgetOk: bool): (r: World)
    requires !w.c.phase.Offline?
    ensures Bystands(w, r) && r.lag == w.lag
  {
    var (c, out) := Timeout(w.c, forgetOk);
    if c.phase.Offline? then Hang(w) else Send(w.(c := c), out)
  }

  /** Saving after the fact, as a client may that confirms first. */
  function SavedLate(w: World): (r: World)
    requires w.c.seen.Some?
    ensures r.clash == w.clash && r.c.strict == w.c.strict && r.lag <= w.lag && r.table == w.table
  {
    var w1 := w.(c := w.c.(saved := Some(Token(w.c.active, w.c.seen.value))));
    if w.c.seen == w.shown then w1.(lag := 0, diskLag := 0, misread := false) else w1.(misread := true)
  }

  /** The confirmation makes a nonce current that the client's file lacks. */
  predicate Outruns(w: World, m: Message)
  {
    && m.RekeyTake? && Reaches(w.table, m.id, w.c.address) && w.table[m.id].pendingNonce == Some(m.nonce)
    && w.c.saved.Some? && w.c.saved.value != Token(m.id, m.nonce)
  }

  function AfterHandle(w: World, link: ClientLink, sequence: u64, now: nat, draw: Nonce): (r: World)
    requires w.up != [] && !w.up[0].WhatsUp?
    ensures Bystands(w, r) && r.lag == if Outruns(w, w.up[0]) then w.lag + 1 else w.lag
  {
    var (t, busy) := Handle(w.table, w.up[0], w.c.address, link, sequence, now, draw);
    w.(up := w.up[1..], table := t, busy := busy, drawn := w.drawn + {draw},
       lag := if Outruns(w, w.up[0]) then w.lag + 1 else w.lag)
  }

  function AfterCreate(w: World, e: Event, t: Table): (r: World)
    requires w.up != [] && e.Create?
    ensures Bystands(w, r) && r.lag == w.lag
  {
    if e.answer.Some? then
      w.(up := w.up[1..], table := t, busy := Answering([AllGood(e.s.id, e.s.serverNonce)], true),
         drawn := w.drawn + {e.s.serverNonce}, home := w.home[e.s.id := e.s.ipv4])
    else
      w.(up := w.up[1..], table := t, busy := Answering([Denied], false))
  }

  function AfterFinish(w: World, order: seq<SessionId>): (r: World)
    requires w.busy.Answering? && (w.busy.dirty ==> forall i :: 0 <= i < |order| ==> order[i] in w.table)
    ensures Bystands(w, r) && r.lag == w.lag
  {
    var w1 := w.(busy := Idle, down := w.down + w.busy.replies);
    if w.busy.dirty then
      w1.(disk := EncodeStore(w.table, order), flushed := w.table, diskLag := w.lag)
    else
      w1
  }

  /** Other clients' requests and housekeeping: they may remove a session of our
      client but never touch its tokens, and a removal is written to disk. */
  ghost predicate LeavesAlone(w: World, t: Table, dirty: bool)
  {
    forall id :: id in w.home ==>
      && (id in t ==> id in w.table && SameTokens(w.table[id], t[id]))
      && (!dirty && id in w.table ==> id in t)
  }

  ghost predicate Next(w: World, step: Step, r: World)
  {
    match step
    case Connect(address) => w.c.phase.Offline? && r == Dial(w, address)
    case Abandon => r == Hang(w)
    case LoseUp(i) => i < |w.up| && r == w.(up := Without(w.up, i))
    case LoseDown(i) => i < |w.down| && r == w.(down := Without(w.down, i))
    case Push(f) => w.wired && (f.Data? || f.Pong? || f.Denied? || f.Close?) && r == w.(down := w.down + [f])
    case ClientRead(saveOk, forgetOk) =>
      !w.c.phase.Offline? && w.down != [] && r == AfterRead(w, saveOk, forgetOk)
    case ClientTimeout(forgetOk) => !w.c.phase.Offline? && r == AfterTimeout(w, forgetOk)
    case LateSave =>
      w.c.Rotating() && w.c.seen.Some? && r == SavedLate(w)
    case ClientPing(sequence) => w.c.phase.Tunnel? && r == Send(w, [PingMsg(w.c.active, sequence)])
    case ServerRead(link, sequence, now, draw) =>
      && w.busy.Idle? && w.up != [] && !w.up[0].WhatsUp? && FreshDraw(w, draw)
      && r == AfterHandle(w, link, sequence, now, draw)
    case ServerCreate(e) =>
      && w.busy.Idle? && w.up != [] && w.up[0].WhatsUp? && e.Create?
      && TableNext(w.table, e, r.table) && r == AfterCreate(w, e, r.table)
      && FreshDraw(w, e.s.serverNonce)
      && e.s.id !in w.home && e.s.id !in w.table && e.s.id !in w.flushed
    case ServerFinish(order) =>
      w.busy.Answering? && (w.busy.dirty ==> Walks(order, w.table)) && r == AfterFinish(w, order)
    case Others(e, dirty) =>
      && w.busy.Idle? && TableNext(w.table, e, r.table) && LeavesAlone(w, r.table, dirty)
      && r == w.(table := r.table, busy := Answering([], dirty))
    case Crash(now) =>
      r == w.(table := TableRuns.Loaded(w.disk, now), busy := Idle, up := [], down := [], wired := false, lag := w.diskLag)
  }

  predicate MisreadStep(w: World, step: Step)
  {
    step.ClientRead? && w.down != [] && Misreads(w.c, w.down[0])
  }

  predicate ClashStep(w: World, step: Step)
  {
    step.ClientRead? && w.down != [] && ClashRead(w)
  }

  predicate OutrunStep(w: World, step: Step)
  {
    step.ServerRead? && w.up != [] && Outruns(w, w.up[0])
  }

  ghost predicate Init(w: World)
  {
    && w.c.phase.Offline? && w.c.saved.None? && w.c.seen.None? && w.up == [] && w.down == [] && !w.wired
    && TableInv(w.table) && w.flushed == w.table && OnDisk(w) && w.busy.Idle?
    && w.home == map[] && Zeros(NONCE_SIZE) !in w.drawn && w.lag == 0 == w.diskLag
    && !w.lost && w.shown.None? && w.heard == {} && !w.misread && !w.clash
  }

  ghost predicate OnDisk(w: World)
  {
    exists order :: Walks(order, w.flushed) && w.disk == EncodeStore(w.flushed, order)
  }

  // ----------------------------------------------------------------- invariant

  predicate TokensKnown(s: Session, ipv4: Ipv4, drawn: set<Nonce>)
  {
    && s.ipv4 == ipv4
    && s.serverNonce in drawn
    && (s.prevNonce.Some? ==> s.prevNonce.value in drawn && s.prevNonce.value != s.serverNonce)
    && (s.pendingNonce.Some? ==> s.pendingNonce.value in drawn && s.pendingNonce.value != s.serverNonce)
    && (s.pendingNonce.Some? ==> s.pendingNonce != s.prevNonce)
  }

  ghost predicate HomeOk(t: Table, home: map<SessionId, Ipv4>, drawn: set<Nonce>)
  {
    forall id :: id in home && id in t ==> TokensKnown(t[id], home[id], drawn)
  }

  ghost predicate Synced(w: World)
  {
    && w.lag == w.diskLag
    && forall id :: id in w.home ==>
         (id in w.table <==> id in w.flushed) && (id in w.table ==> SameTokens(w.table[id], w.flushed[id]))
  }

  predicate Live(s: Session, n: Nonce)
  {
    s.serverNonce == n || s.pendingNonce == Some(n)
  }

  /** Tokens on their way to the client: current ones first, then pending ones. */
  ghost predicate Ordered(s: Session, seen: Option<Nonce>, stream: seq<Frame>)
  {
    && (seen.Some? ==> Live(s, seen.value))
    && (forall i :: 0 <= i < |stream| && stream[i].Rekey? ==>
          Live(s, stream[i].nonce) && (seen.Some? && s.pendingNonce == seen ==> s.pendingNonce == Some(stream[i].nonce)))
    && (forall i, j ::
          0 <= i < j < |stream| && stream[i].Rekey? && stream[j].Rekey? && s.pendingNonce == Some(stream[i].nonce)
          ==> s.pendingNonce == Some(stream[j].nonce))
  }

  /** A confirmation that would commit was sent for the last token seen. */
  ghost predicate Honest(s: Session, seen: Option<Nonce>, up: seq<Message>)
  {
    forall i :: 0 <= i < |up| && up[i].RekeyTake? && s.pendingNonce == Some(up[i].nonce) ==> seen == s.pendingNonce
  }

  predicate Lagging(s: Session, n: Nonce, lag: nat)
  {
    if lag == 0 then Live(s, n) else if lag == 1 then s.prevNonce == Some(n) else !s.Accepts(n)
  }

  /** `ours` says that the token `n` of the file is one the server gave. */
  ghost predicate Linked(s: Session, n: Nonce, lag: nat, ours: bool, seen: Option<Nonce>, stream: seq<Frame>,
                         up: seq<Message>)
  {
    (ours ==> Lagging(s, n, lag)) && Ordered(s, seen, stream) && Honest(s, seen, up)
  }

  ghost predicate Agreement(w: World)
  {
    w.c.saved.Some? ==>
      var id, n := w.c.saved.value.id, w.c.saved.value.nonce;
      && id in w.home && (!w.misread ==> n in w.drawn)
      && (id in w.table ==> Linked(w.table[id], n, w.lag, !w.misread, w.shown, w.Stream(), w.up))
      && (id in w.flushed ==> Linked(w.flushed[id], n, w.diskLag, !w.misread, w.shown, w.down, w.up))
      && (!w.lost && !w.misread ==> w.lag == 0 == w.diskLag && (w.shown.Some? ==> w.shown == Some(n)))
  }

  predicate Newborn(s: Session, n: Nonce)
  {
    s.serverNonce == n && s.prevNonce.None? && s.pendingNonce.None?
  }

  ghost predicate DownOk(w: World, f: Frame)
  {
    && (f.Rekey? ==> w.c.Rotating() && f.id == w.c.active && f.nonce in w.drawn)
    && (f.AllGood? ==>
         && f.id in w.home && f.nonce in w.drawn
         && (w.c.saved.Some? ==> w.c.saved.value.id != f.id)
         && (f.id in w.table ==> Newborn(w.table[f.id], f.nonce)))
    && (w.up != [] && w.up[0].BackAgain? ==> !f.StillGood? && !(f.AllGood? && f.id == w.up[0].id))
  }

  ghost predicate UpOk(w: World, i: int, m: Message)
  {
    && (m.RekeyAsk? || m.RekeyTake? || m.PingMsg? ==> w.c.Rotating() && m.id == w.c.active)
    && (m.RekeyTake? ==> m.nonce in w.drawn || m.nonce in w.heard)
    && (m.BackAgain? ==>
         && i == 0 && m.id in w.home
         && (w.c.saved.Some? && w.c.saved.value.id == m.id ==> !w.c.Rotating() && w.c.saved.value.nonce == m.token))
  }

  ghost predicate OneBirthEach(stream: seq<Frame>)
  {
    forall i, j ::
      0 <= i < j < |stream| && stream[i].AllGood? && stream[j].AllGood? ==> stream[i].id != stream[j].id
  }

  ghost predicate ClientOk(w: World)
  {
    && (w.c.Rotating() ==> w.c.saved.Some? && w.c.saved.value.id == w.c.active)
    && (!w.c.Rotating() ==> w.c.seen.None? && w.shown.None?)
    && (w.shown.Some? ==> w.shown.value in w.drawn)
    && (w.c.phase.AwaitResume? ==> w.c.saved.Some?)
    && (w.c.phase.Offline? ==> !w.wired)
    && (!w.wired ==> w.up == [] && w.down == [] && w.Replies() == [])
  }

  ghost predicate UpsOk(w: World)
  {
    forall i :: 0 <= i < |w.up| ==> UpOk(w, i, w.up[i])
  }

  ghost predicate DownsOk(w: World)
  {
    forall f :: f in w.down ==> DownOk(w, f) && (f.AllGood? && f.id in w.flushed ==> Newborn(w.flushed[f.id], f.nonce))
  }

  ghost predicate RepliesOk(w: World)
  {
    forall f :: f in w.Replies() ==> DownOk(w, f) && (f.AllGood? ==> f.id !in w.flushed && w.busy.dirty)
  }

  ghost predicate Traffic(w: World)
  {
    ClientOk(w) && UpsOk(w) && DownsOk(w) && RepliesOk(w) && OneBirthEach(w.Stream())
  }

  ghost predicate Ground(w: World)
  {
    && TableInv(w.table) && TableInv(w.flushed) && OnDisk(w) && Zeros(NONCE_SIZE) !in w.drawn
    && w.diskLag <= w.lag
    && HomeOk(w.table, w.home, w.drawn) && HomeOk(w.flushed, w.home, w.drawn)
    && (w.busy.Idle? || !w.busy.dirty ==> Synced(w))
  }

  ghost predicate Good(w: World)
  {
    Ground(w) && Traffic(w) && Agreement(w)
  }
}
