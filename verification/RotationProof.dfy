/** Why the rotation protocol keeps its invariant: one lemma per kind of step,
    then whole runs. */
module RotationProof {
  import opened Bytes
  import opened Sessions
  import opened Store
  import TableRuns
  import opened SessionManagement
  import opened Rotation

  // ------------------------------------------------------------ the link alone

  lemma InsertNeutral(s: Session, seen: Option<Nonce>, a: seq<Frame>, f: Frame, b: seq<Frame>)
    requires Ordered(s, seen, a + b) && !f.Rekey?
    ensures Ordered(s, seen, a + [f] + b)
  {
    var old_, new_ := a + b, a + [f] + b;
    assert forall k :: 0 <= k < |new_| && k != |a| ==> new_[k] == old_[if k < |a| then k else k - 1];
  }

  lemma BirthsInsert(a: seq<Frame>, f: Frame, b: seq<Frame>)
    requires OneBirthEach(a + b) && !f.AllGood?
    ensures OneBirthEach(a + [f] + b)
  {
    var old_, new_ := a + b, a + [f] + b;
    assert forall k :: 0 <= k < |new_| && k != |a| ==> new_[k] == old_[if k < |a| then k else k - 1];
  }

  lemma HangKeepsGood(w: World)
    requires Good(w)
    ensures Good(Hang(w))
  {
    var r := Hang(w);
    assert Ground(r);
    assert r.Stream() == [];
    assert Traffic(r);
    HangAgrees(w, r);
  }

  lemma HangAgrees(w: World, r: World)
    requires Agreement(w) && r == Hang(w)
    ensures Agreement(r)
  {
    assert r.Stream() == [];
  }

  lemma DialKeepsGood(w: World, address: Address)
    requires Good(w) && w.c.phase.Offline?
    ensures Good(Dial(w, address))
  {
    var r := Dial(w, address);
    DialTraffic(w, address, r);
    DialAgrees(w, address, r);
  }

  lemma DialAgrees(w: World, address: Address, r: World)
    requires Traffic(w) && Agreement(w) && w.c.phase.Offline? && r == Dial(w, address)
    ensures Agreement(r)
  {
    assert r.Stream() == w.Stream() == [];
  }

  lemma DialTraffic(w: World, address: Address, r: World)
    requires Traffic(w) && Agreement(w) && w.c.phase.Offline? && r == Dial(w, address)
    ensures Traffic(r)
  {
    assert r.Stream() == [];
  }

  lemma LoseUpKeepsGood(w: World, i: nat)
    requires Good(w) && i < |w.up|
    ensures Good(w.(up := Without(w.up, i)))
  {
    var r := w.(up := Without(w.up, i));
    assert r.Stream() == w.Stream();
    assert Traffic(r);
    LoseUpAgrees(w, i, r);
  }

  lemma LoseUpAgrees(w: World, i: nat, r: World)
    requires Agreement(w) && i < |w.up| && r == w.(up := Without(w.up, i))
    ensures Agreement(r)
  {
    assert r.Stream() == w.Stream();
  }

  lemma LoseDownKeepsGood(w: World, i: nat)
    requires Good(w) && i < |w.down|
    ensures Good(w.(down := Without(w.down, i)))
  {
    var r := w.(down := Without(w.down, i));
    assert r.Stream() == Without(w.Stream(), i);
    LoseDownTraffic(w, i, r);
    LoseDownAgrees(w, i, r);
  }

  lemma LoseDownTraffic(w: World, i: nat, r: World)
    requires Traffic(w) && i < |w.down| && r == w.(down := Without(w.down, i))
    requires r.Stream() == Without(w.Stream(), i)
    ensures Traffic(r)
  {
  }

  lemma LoseDownAgrees(w: World, i: nat, r: World)
    requires Agreement(w) && i < |w.down| && r == w.(down := Without(w.down, i))
    requires r.Stream() == Without(w.Stream(), i)
    ensures Agreement(r)
  {
  }

  lemma PushKeepsGood(w: World, f: Frame)
    requires Good(w) && w.wired && (f.Data? || f.Pong? || f.Denied? || f.Close?)
    ensures Good(w.(down := w.down + [f]))
  {
    var r := w.(down := w.down + [f]);
    assert r.Stream() == w.down + [f] + w.Replies();
    BirthsInsert(w.down, f, w.Replies());
    PushTraffic(w, f, r);
    PushAgrees(w, f, r);
  }

  lemma PushTraffic(w: World, f: Frame, r: World)
    requires Traffic(w) && w.wired && (f.Data? || f.Pong? || f.Denied? || f.Close?)
    requires r == w.(down := w.down + [f]) && OneBirthEach(r.Stream())
    ensures Traffic(r)
  {
  }

  lemma PushAgrees(w: World, f: Frame, r: World)
    requires Agreement(w) && (f.Data? || f.Pong? || f.Denied? || f.Close?)
    requires r == w.(down := w.down + [f])
    ensures Agreement(r)
  {
    if w.c.saved.Some? {
      var id := w.c.saved.value.id;
      assert r.Stream() == w.down + [f] + w.Replies();
      if id in w.table { InsertNeutral(w.table[id], w.shown, w.down, f, w.Replies()); }
      if id in w.flushed {
        assert w.down + [] == w.down && w.down + [f] + [] == r.down;
        InsertNeutral(w.flushed[id], w.shown, w.down, f, []);
      }
    }
  }

  // ---------------------------------------------------------------- the client

  /** A message the client may send in this state. */
  ghost predicate MaySend(w: World, m: Message)
  {
    && !m.BackAgain? && UpOk(w, |w.up|, m)
    && (m.RekeyTake? ==> w.shown == Some(m.nonce) || m.nonce !in w.drawn)
  }

  lemma SendKeepsGood(w: World, m: Message)
    requires Good(w) && MaySend(w, m)
    ensures Good(Send(w, [m]))
  {
    if w.wired {
      var r := w.(up := w.up + [m]);
      SendTraffic(w, m, r);
      SendAgrees(w, m, r);
    }
  }

  lemma SendTraffic(w: World, m: Message, r: World)
    requires Traffic(w) && MaySend(w, m) && w.wired && r == w.(up := w.up + [m])
    ensures Traffic(r)
  {
    assert r.Stream() == w.Stream();
    assert w.up != [] ==> r.up[0] == w.up[0];
  }

  lemma SendAgrees(w: World, m: Message, r: World)
    requires Ground(w) && Agreement(w) && MaySend(w, m) && r == w.(up := w.up + [m])
    ensures Agreement(r)
  {
    assert r.Stream() == w.Stream();
  }

  lemma PingKeepsGood(w: World, sequence: u64)
    requires Good(w) && w.c.phase.Tunnel?
    ensures Good(Send(w, [PingMsg(w.c.active, sequence)]))
  {
    SendKeepsGood(w, PingMsg(w.c.active, sequence));
  }

  /** Another wait state of the same kind changes nothing that matters, and
      losing the file makes the claim empty. */
  ghost predicate SameStanding(w: World, c: Client)
  {
    && c.Rotating() == w.c.Rotating() && c.phase.Offline? == w.c.phase.Offline?
    && c.active == w.c.active && c.seen == w.c.seen && c.address == w.c.address && c.strict == w.c.strict
    && (c.saved == w.c.saved || (c.saved.None? && !c.Rotating()))
    && (c.phase.AwaitResume? ==> c.saved.Some?)
  }

  lemma StandingKeepsGood(w: World, c: Client)
    requires Good(w) && SameStanding(w, c)
    ensures Good(w.(c := c))
  {
    var r := w.(c := c);
    assert Ground(r);
    StandingTraffic(w, c, r);
    StandingAgrees(w, c, r);
  }

  lemma StandingAgrees(w: World, c: Client, r: World)
    requires Agreement(w) && SameStanding(w, c) && r == w.(c := c)
    ensures Agreement(r)
  {
    assert r.Stream() == w.Stream();
  }

  lemma StandingTraffic(w: World, c: Client, r: World)
    requires Traffic(w) && SameStanding(w, c) && r == w.(c := c)
    ensures Traffic(r)
  {
    assert r.Stream() == w.Stream();
  }

  lemma TimeoutIs(w: World, forgetOk: bool)
    requires !w.c.phase.Offline?
    ensures var (c, out) := Timeout(w.c, forgetOk);
            if c.phase.Offline? then AfterTimeout(w, forgetOk) == Hang(w)
            else && AfterTimeout(w, forgetOk) == Send(w.(c := c), out) && SameStanding(w, c)
                 && (out == [] || out == [WhatsUp])
  {
  }

  lemma TimeoutKeepsGood(w: World, forgetOk: bool)
    requires Good(w) && !w.c.phase.Offline?
    ensures Good(AfterTimeout(w, forgetOk))
  {
    TimeoutIs(w, forgetOk);
    var (c, out) := Timeout(w.c, forgetOk);
    if c.phase.Offline? {
      HangKeepsGood(w);
    } else {
      WaitOnKeepsGood(w, c, out, AfterTimeout(w, forgetOk));
    }
  }

  lemma WaitOnKeepsGood(w: World, c: Client, out: seq<Message>, r: World)
    requires Good(w) && SameStanding(w, c) && (out == [] || out == [WhatsUp]) && r == Send(w.(c := c), out)
    ensures Good(r)
  {
    MoveAndSend(w, c, out);
  }

  /** The file gets the last token the server showed. */
  function Kept(w: World): (r: World)
    requires w.shown.Some?
  {
    w.(c := w.c.(saved := Some(Token(w.c.active, w.shown.value))), lag := 0, diskLag := 0, misread := false)
  }

  lemma KeptKeepsGood(w: World, r: World)
    requires Good(w) && w.c.Rotating() && w.shown.Some? && r == Kept(w)
    ensures Good(r)
  {
    KeptTraffic(w, r);
    KeptAgrees(w, r);
  }

  lemma KeptTraffic(w: World, r: World)
    requires Traffic(w) && w.c.Rotating() && w.shown.Some? && r == Kept(w)
    ensures Traffic(r)
  {
    assert r.Stream() == w.Stream();
  }

  lemma KeptAgrees(w: World, r: World)
    requires Traffic(w) && Agreement(w) && w.c.Rotating() && w.shown.Some? && r == Kept(w)
    ensures Agreement(r)
  {
    assert r.Stream() == w.Stream();
  }

  /** The file of a session gets some other token. */
  function Spoiled(w: World, n: Nonce): (r: World)
  {
    w.(c := w.c.(saved := Some(Token(w.c.active, n))), misread := true)
  }

  lemma SpoiledKeepsGood(w: World, n: Nonce, r: World)
    requires Good(w) && w.c.Rotating() && r == Spoiled(w, n)
    ensures Good(r)
  {
    assert Ground(r);
    assert r.Stream() == w.Stream();
    SpoiledAgrees(w, n, r);
  }

  lemma SpoiledAgrees(w: World, n: Nonce, r: World)
    requires Traffic(w) && Agreement(w) && w.c.Rotating() && r == Spoiled(w, n)
    ensures Agreement(r)
  {
    assert r.Stream() == w.Stream();
  }

  lemma LateSaveKeepsGood(w: World, r: World)
    requires Good(w) && w.c.Rotating() && w.c.seen.Some? && r == SavedLate(w)
    ensures Good(r)
  {
    if w.c.seen == w.shown {
      KeptKeepsGood(w, r);
    } else {
      SpoiledKeepsGood(w, w.c.seen.value, r);
    }
  }

  /** The next token on the link was seen. */
  lemma AdvanceLinked(s: Session, seen: Option<Nonce>, stream: seq<Frame>, up: seq<Message>)
    requires stream != [] && stream[0].Rekey? && Ordered(s, seen, stream) && Honest(s, seen, up)
    ensures Ordered(s, Some(stream[0].nonce), stream[1..]) && Honest(s, Some(stream[0].nonce), up)
    ensures Live(s, stream[0].nonce)
  {
  }

  function Taken(w: World, saveOk: bool): (r: World)
    requires w.down != [] && w.down[0].Rekey?
    ensures r.c == w.c.Take(w.down[0].nonce, saveOk) && r.drawn == w.drawn && r.shown == Some(w.down[0].nonce)
  {
    var w1 := w.(down := w.down[1..], c := w.c.Take(w.down[0].nonce, saveOk), shown := Some(w.down[0].nonce));
    if saveOk then w1.(lag := 0, diskLag := 0, misread := false) else w1.(lost := true)
  }

  lemma TakeKeepsGood(w: World, saveOk: bool, r: World)
    requires Good(w) && w.down != [] && w.down[0].Rekey? && r == Taken(w, saveOk)
    ensures Good(r)
  {
    TakeTraffic(w, saveOk, r);
    TakeAgrees(w, saveOk, r);
  }

  lemma TakeTraffic(w: World, saveOk: bool, r: World)
    requires Traffic(w) && w.down != [] && w.down[0].Rekey? && DownOk(w, w.down[0])
    requires r == Taken(w, saveOk) && r.Stream() == w.Stream()[1..]
    ensures Traffic(r)
  {
    assert forall f :: f in w.down[1..] ==> f in w.down;
  }

  lemma TakeAgrees(w: World, saveOk: bool, r: World)
    requires Traffic(w) && Agreement(w) && w.down != [] && w.down[0].Rekey? && DownOk(w, w.down[0])
    requires r == Taken(w, saveOk) && r.Stream() == w.Stream()[1..]
    ensures Agreement(r)
  {
    var id := w.c.active;
    if id in w.table { AdvanceLinked(w.table[id], w.shown, w.Stream(), w.up); }
    if id in w.flushed { AdvanceLinked(w.flushed[id], w.shown, w.down, w.up); }
  }

  lemma PopKeepsGood(w: World)
    requires Good(w) && w.down != []
    ensures Good(w.(down := w.down[1..]))
  {
    assert Without(w.down, 0) == w.down[1..];
    LoseDownKeepsGood(w, 0);
  }

  /** The saved session was taken up again. */
  lemma ReenterKeepsGood(w: World, id: SessionId)
    requires Good(w) && w.c.phase.AwaitResume? && w.c.saved.Some? && w.c.saved.value.id == id
    requires w.up == [] || !w.up[0].BackAgain?
    ensures Good(w.(c := w.c.(phase := AwaitOffer, active := id)))
  {
    var r := w.(c := w.c.(phase := AwaitOffer, active := id));
    ReenterTraffic(w, id, r);
    assert r.Stream() == w.Stream();
  }

  lemma ReenterTraffic(w: World, id: SessionId, r: World)
    requires Traffic(w) && w.c.phase.AwaitResume? && w.c.saved.Some? && w.c.saved.value.id == id
    requires w.up == [] || !w.up[0].BackAgain?
    requires r == w.(c := w.c.(phase := AwaitOffer, active := id))
    ensures Traffic(r)
  {
    assert r.Stream() == w.Stream();
    assert forall i :: 0 <= i < |w.up| ==> UpOk(w, i, w.up[i]);
  }

  function Born(w: World): (r: World)
    requires w.down != [] && w.down[0].AllGood?
  {
    var f := w.down[0];
    w.(down := w.down[1..], lag := 0, diskLag := 0, misread := false,
       c := w.c.(phase := AwaitOffer, active := f.id, saved := Some(Token(f.id, f.nonce))))
  }

  lemma BornKeepsGood(w: World)
    requires Good(w) && w.c.phase.AwaitCreate? && w.down != [] && w.down[0].AllGood?
    ensures Good(Born(w))
  {
    var r := Born(w);
    assert DownOk(w, w.down[0]);
    assert r.Stream() == w.Stream()[1..];
    BornTraffic(w, r);
    BornAgrees(w, r);
    assert Ground(r);
  }

  lemma OtherBirths(stream: seq<Frame>)
    requires stream != [] && stream[0].AllGood? && OneBirthEach(stream)
    ensures forall f :: f in stream[1..] ==> f in stream && (f.AllGood? ==> f.id != stream[0].id)
    ensures OneBirthEach(stream[1..])
  {
    forall f | f in stream[1..]
      ensures f in stream && (f.AllGood? ==> f.id != stream[0].id)
    {
      var k :| 0 <= k < |stream[1..]| && stream[1..][k] == f;
      assert stream[k + 1] == f;
    }
  }

  lemma BornTraffic(w: World, r: World)
    requires Traffic(w) && w.c.phase.AwaitCreate? && w.down != [] && w.down[0].AllGood?
    requires DownOk(w, w.down[0]) && r == Born(w) && r.Stream() == w.Stream()[1..]
    ensures Traffic(r)
  {
    OtherBirths(w.Stream());
    assert ClientOk(r) && UpsOk(r);
    assert forall f :: f in r.down ==> f in w.down && f in r.Stream();
    assert DownsOk(r);
    assert forall f :: f in r.Replies() ==> f in w.Replies() && f in r.Stream();
  }

  lemma BornAgrees(w: World, r: World)
    requires Traffic(w) && w.c.phase.AwaitCreate? && w.down != [] && w.down[0].AllGood?
    requires DownOk(w, w.down[0]) && r == Born(w) && r.Stream() == w.Stream()[1..]
    ensures Agreement(r)
  {
    var f := w.down[0];
    assert f in w.down;
    assert forall g :: g in r.Stream() ==> g in w.Stream();
    assert forall g :: g in w.Stream() ==> g in w.down || g in w.Replies();
    assert forall g :: g in w.Stream() ==> !g.Rekey?;
    assert forall i :: 0 <= i < |w.up| ==> UpOk(w, i, w.up[i]);
  }

  lemma SendAll(w: World, out: seq<Message>)
    requires Good(w) && |out| <= 1 && (out != [] ==> MaySend(w, out[0]))
    ensures Good(Send(w, out))
  {
    if out == [] {
      assert w.up + out == w.up;
    } else {
      assert out == [out[0]];
      SendKeepsGood(w, out[0]);
    }
  }

  /** On the client's side, taking a token is the same in every waiting state. */
  lemma ReadTakes(c: Client, f: Frame, saveOk: bool, forgetOk: bool)
    requires TakesToken(c, f) && !Misreads(c, f)
    ensures f.Rekey? && f.id == c.active && c.Rotating() && !c.phase.AwaitCreate?
    ensures var (n, out) := Read(c, f, saveOk, forgetOk);
            && n.Rotating() && n == c.Take(f.nonce, saveOk).(phase := n.phase)
            && (out == [] || out == [RekeyTake(c.active, f.nonce)])
  {
  }

  lemma CountedTakes(w: World, c: Client, saveOk: bool)
    requires w.down != [] && w.down[0].Rekey? && TakesToken(w.c, w.down[0])
    ensures Counted(w, c, saveOk) == Taken(w, saveOk).(c := c)
  {
  }

  lemma TakingReadIs(w: World, saveOk: bool, forgetOk: bool)
    requires w.down != [] && TakesToken(w.c, w.down[0]) && !Misreads(w.c, w.down[0])
    ensures var f := w.down[0];
            && f.Rekey? && f.id == w.c.active && w.c.Rotating()
            && var (c, out) := Read(w.c, f, saveOk, forgetOk);
               && AfterRead(w, saveOk, forgetOk) == Send(Taken(w, saveOk).(c := c), out)
               && c.Rotating() && c == Taken(w, saveOk).c.(phase := c.phase)
               && (out == [] || out == [RekeyTake(c.active, f.nonce)])
  {
    ReadTakes(w.c, w.down[0], saveOk, forgetOk);
    CountedTakes(w, Read(w.c, w.down[0], saveOk, forgetOk).0, saveOk);
    ReadSends(w, saveOk, forgetOk);
  }

  lemma ReadSends(w: World, saveOk: bool, forgetOk: bool)
    requires !w.c.phase.Offline? && w.down != [] && !Read(w.c, w.down[0], saveOk, forgetOk).0.phase.Offline?
    ensures var (c, out) := Read(w.c, w.down[0], saveOk, forgetOk);
            AfterRead(w, saveOk, forgetOk) == Send(Counted(w, c, saveOk), out)
  {
  }

  /** The token just read is known, so its confirmation may be sent. */
  lemma TakenMayConfirm(w: World, r: World, nonce: Nonce)
    requires w.down != [] && w.down[0] == Rekey(w.c.active, nonce) && Traffic(w)
    requires r.c.Rotating() && r.shown == Some(nonce) && r.c.active == w.c.active && r.drawn == w.drawn
    ensures MaySend(r, RekeyTake(r.c.active, nonce))
  {
    assert DownOk(w, w.down[0]);
  }

  /** A token from another frame is remembered. */
  function Noted(w: World, nonce: Nonce): (r: World)
  {
    w.(c := w.c.(seen := Some(nonce)), heard := w.heard + {nonce}, clash := w.clash || nonce in w.drawn)
  }

  lemma NotedKeepsGood(w: World, nonce: Nonce, r: World)
    requires Good(w) && w.c.Rotating() && r == Noted(w, nonce)
    ensures Good(r)
  {
    assert Ground(r);
    assert r.Stream() == w.Stream();
    NotedAgrees(w, nonce, r);
  }

  lemma NotedAgrees(w: World, nonce: Nonce, r: World)
    requires Agreement(w) && r == Noted(w, nonce)
    ensures Agreement(r)
  {
    assert r.Stream() == w.Stream();
  }

  /** The file may get it, the link does not change. */
  lemma MistakeKeepsGood(w: World, nonce: Nonce, saveOk: bool, r: World)
    requires Good(w) && w.c.Rotating() && r == Mistaken(w.(c := w.c.Take(nonce, saveOk)), nonce, saveOk)
    ensures Good(r)
  {
    var w1 := Noted(w, nonce);
    NotedKeepsGood(w, nonce, w1);
    if saveOk {
      SpoiledKeepsGood(w1, nonce, r);
    } else {
      assert r == w1;
    }
  }

  /** On the client's side, a misread token is taken like any other. */
  lemma ReadMisreads(c: Client, f: Frame, saveOk: bool, forgetOk: bool)
    requires Misreads(c, f)
    ensures c.Rotating()
    ensures var (n, out) := Read(c, f, saveOk, forgetOk);
            var nonce := AsToken(f, c.strict).value.nonce;
            && n.Rotating() && n == c.Take(nonce, saveOk).(phase := n.phase)
            && (out == [] || out == [RekeyTake(c.active, nonce)])
  {
  }

  lemma MisreadingIs(w: World, saveOk: bool, forgetOk: bool)
    requires w.down != [] && Misreads(w.c, w.down[0])
    ensures var nonce := AsToken(w.down[0], w.c.strict).value.nonce;
            var (c, out) := Read(w.c, w.down[0], saveOk, forgetOk);
            var w1 := w.(down := w.down[1..]);
            var w2 := Mistaken(w1.(c := w.c.Take(nonce, saveOk)), nonce, saveOk);
            && w.c.Rotating() && AfterRead(w, saveOk, forgetOk) == Send(w2.(c := c), out)
            && c == w2.c.(phase := c.phase) && c.Rotating()
            && (out == [] || out == [RekeyTake(c.active, nonce)])
  {
    ReadMisreads(w.c, w.down[0], saveOk, forgetOk);
  }

  /** A misread token that is none of the server's keeps everything but the file. */
  lemma MisreadingRead(w: World, nonce: Nonce, saveOk: bool, c: Client, out: seq<Message>, r: World)
    requires Good(w) && w.down != [] && w.c.Rotating() && nonce !in w.drawn
    requires var w2 := Mistaken(w.(down := w.down[1..], c := w.c.Take(nonce, saveOk)), nonce, saveOk);
             && r == Send(w2.(c := c), out) && c == w2.c.(phase := c.phase) && c.Rotating()
             && (out == [] || out == [RekeyTake(c.active, nonce)])
    ensures Good(r)
  {
    PopKeepsGood(w);
    var w1 := w.(down := w.down[1..]);
    var w2 := Mistaken(w1.(c := w.c.Take(nonce, saveOk)), nonce, saveOk);
    MistakeKeepsGood(w1, nonce, saveOk, w2);
    MoveAndSend(w2, c, out);
  }

  lemma MoveAndSend(w: World, c: Client, out: seq<Message>)
    requires Good(w) && SameStanding(w, c) && |out| <= 1 && (out != [] ==> MaySend(w.(c := c), out[0]))
    ensures Good(Send(w.(c := c), out))
  {
    StandingKeepsGood(w, c);
    SendAll(w.(c := c), out);
  }

  lemma LeavingReadIs(w: World, saveOk: bool, forgetOk: bool)
    requires !w.c.phase.Offline? && w.down != [] && !TakesToken(w.c, w.down[0])
    requires Read(w.c, w.down[0], saveOk, forgetOk).0.phase.Offline?
    ensures var w1, c := Hang(w.(down := w.down[1..])), Read(w.c, w.down[0], saveOk, forgetOk).0;
            AfterRead(w, saveOk, forgetOk) == w1.(c := c) && SameStanding(w1, c)
  {
  }

  lemma PassingReadIs(w: World, saveOk: bool, forgetOk: bool)
    requires !w.c.phase.Offline? && w.down != [] && !TakesToken(w.c, w.down[0])
    requires !Read(w.c, w.down[0], saveOk, forgetOk).0.phase.Offline? && !w.c.phase.AwaitCreate?
    requires !Misreads(w.c, w.down[0])
    ensures var (c, out) := Read(w.c, w.down[0], saveOk, forgetOk);
            && AfterRead(w, saveOk, forgetOk) == Send(w.(down := w.down[1..], c := c), out)
            && if w.c.phase.AwaitResume? && c.phase.AwaitOffer? then
                 w.down[0].StillGood? && c == w.c.(phase := AwaitOffer, active := w.down[0].id)
                 && w.c.saved.Some? && w.c.saved.value.id == w.down[0].id && out == [RekeyAsk(w.down[0].id)]
               else SameStanding(w, c) && (out == [] || out == [WhatsUp])
  {
  }

  lemma PassingRead(w: World, c: Client, out: seq<Message>, r: World)
    requires Good(w) && w.down != [] && r == Send(w.(down := w.down[1..], c := c), out)
    requires if w.c.phase.AwaitResume? && c.phase.AwaitOffer? then
               w.down[0].StillGood? && c == w.c.(phase := AwaitOffer, active := w.down[0].id)
               && w.c.saved.Some? && w.c.saved.value.id == w.down[0].id && out == [RekeyAsk(w.down[0].id)]
             else SameStanding(w, c) && (out == [] || out == [WhatsUp])
    ensures Good(r)
  {
    PopKeepsGood(w);
    var w1 := w.(down := w.down[1..]);
    if w.c.phase.AwaitResume? && c.phase.AwaitOffer? {
      assert DownOk(w, w.down[0]);
      ReenterKeepsGood(w1, w.down[0].id);
      SendAll(w1.(c := c), out);
    } else {
      MoveAndSend(w1, c, out);
    }
  }

  lemma MisreadKeepsGood(w: World, saveOk: bool, forgetOk: bool)
    requires Good(w) && w.down != [] && Misreads(w.c, w.down[0]) && !ClashRead(w)
    ensures Good(AfterRead(w, saveOk, forgetOk))
  {
    MisreadingIs(w, saveOk, forgetOk);
    var (c, out) := Read(w.c, w.down[0], saveOk, forgetOk);
    MisreadingRead(w, AsToken(w.down[0], w.c.strict).value.nonce, saveOk, c, out, AfterRead(w, saveOk, forgetOk));
  }

  lemma TokenReadKeepsGood(w: World, saveOk: bool, forgetOk: bool)
    requires Good(w) && w.down != [] && TakesToken(w.c, w.down[0]) && !Misreads(w.c, w.down[0])
    ensures Good(AfterRead(w, saveOk, forgetOk))
  {
    TakingReadIs(w, saveOk, forgetOk);
    var (c, out) := Read(w.c, w.down[0], saveOk, forgetOk);
    TakeKeepsGood(w, saveOk, Taken(w, saveOk));
    TakenMayConfirm(w, Taken(w, saveOk).(c := c), w.down[0].nonce);
    MoveAndSend(Taken(w, saveOk), c, out);
  }

  lemma BirthReadIs(w: World, saveOk: bool, forgetOk: bool)
    requires w.down != [] && w.c.phase.AwaitCreate? && !Read(w.c, w.down[0], saveOk, forgetOk).0.phase.Offline?
    ensures w.down[0].AllGood? && AfterRead(w, saveOk, forgetOk) == Send(Born(w), [RekeyAsk(w.down[0].id)])
  {
  }

  lemma BirthReadKeepsGood(w: World, r: World)
    requires Good(w) && w.down != [] && w.c.phase.AwaitCreate? && w.down[0].AllGood?
    requires r == Send(Born(w), [RekeyAsk(w.down[0].id)])
    ensures Good(r)
  {
    BornKeepsGood(w);
    SendAll(Born(w), [RekeyAsk(w.down[0].id)]);
  }

  lemma OtherReadKeepsGood(w: World, saveOk: bool, forgetOk: bool)
    requires Good(w) && !w.c.phase.Offline? && w.down != [] && !TakesToken(w.c, w.down[0]) && !Misreads(w.c, w.down[0])
    requires !Read(w.c, w.down[0], saveOk, forgetOk).0.phase.Offline? && !w.c.phase.AwaitCreate?
    ensures Good(AfterRead(w, saveOk, forgetOk))
  {
    PassingReadIs(w, saveOk, forgetOk);
    var (c, out) := Read(w.c, w.down[0], saveOk, forgetOk);
    PassingRead(w, c, out, AfterRead(w, saveOk, forgetOk));
  }

  lemma ReadKeepsGood(w: World, saveOk: bool, forgetOk: bool)
    requires Good(w) && !w.c.phase.Offline? && w.down != [] && !ClashRead(w)
    ensures Good(AfterRead(w, saveOk, forgetOk))
  {
    if Misreads(w.c, w.down[0]) {
      MisreadKeepsGood(w, saveOk, forgetOk);
    } else if TakesToken(w.c, w.down[0]) {
      TokenReadKeepsGood(w, saveOk, forgetOk);
    } else if Read(w.c, w.down[0], saveOk, forgetOk).0.phase.Offline? {
      LeavingReadIs(w, saveOk, forgetOk);
      var w1, c := w.(down := w.down[1..]), Read(w.c, w.down[0], saveOk, forgetOk).0;
      PopKeepsGood(w);
      HangKeepsGood(w1);
      StandingKeepsGood(Hang(w1), c);
    } else if w.c.phase.AwaitCreate? {
      BirthReadIs(w, saveOk, forgetOk);
      BirthReadKeepsGood(w, AfterRead(w, saveOk, forgetOk));
    } else {
      OtherReadKeepsGood(w, saveOk, forgetOk);
    }
  }

  // ---------------------------------------------------------------- the server

  /** An answer without a token to a request that moved no token. */
  function Quiet(w: World, t: Table, replies: seq<Frame>, drawn: set<Nonce>): (r: World)
    requires w.up != []
  {
    w.(up := w.up[1..], table := t, busy := Answering(replies, false), drawn := drawn)
  }

  predicate Neutral(replies: seq<Frame>)
  {
    replies == [] || replies == [Denied] || replies == [Pong]
  }

  ghost predicate TokensStay(t: Table, r: Table)
  {
    SamePlaces(t, r) && forall id :: id in t ==> SameTokens(t[id], r[id])
  }

  ghost predicate DrawsMore(w: World, drawn: set<Nonce>)
  {
    w.drawn <= drawn && Zeros(NONCE_SIZE) !in drawn
  }

  lemma QuietKeepsGood(w: World, t: Table, replies: seq<Frame>, drawn: set<Nonce>)
    requires Good(w) && w.busy.Idle? && w.up != [] && Neutral(replies) && DrawsMore(w, drawn)
    requires TokensStay(w.table, t)
    ensures Good(Quiet(w, t, replies, drawn))
  {
    var r := Quiet(w, t, replies, drawn);
    SamePlacesKeepsInv(w.table, t);
    assert w.Stream() == w.down;
    QuietTraffic(w, t, replies, drawn, r);
    QuietAgrees(w, t, replies, drawn, r);
    QuietHome(w.table, t, w.home, w.drawn, drawn);
    SameHome(w.flushed, w.home, w.drawn, drawn);
  }

  lemma QuietHome(t: Table, u: Table, home: map<SessionId, Ipv4>, drawn: set<Nonce>, more: set<Nonce>)
    requires HomeOk(t, home, drawn) && TokensStay(t, u) && drawn <= more
    ensures HomeOk(u, home, more)
  {
    forall id | id in home && id in u
      ensures TokensKnown(u[id], home[id], more)
    {
      assert TokensKnown(t[id], home[id], drawn);
    }
  }

  lemma SameHome(t: Table, home: map<SessionId, Ipv4>, drawn: set<Nonce>, more: set<Nonce>)
    requires HomeOk(t, home, drawn) && drawn <= more
    ensures HomeOk(t, home, more)
  {
    forall id | id in home && id in t
      ensures TokensKnown(t[id], home[id], more)
    {
      assert TokensKnown(t[id], home[id], drawn);
    }
  }

  lemma QuietTraffic(w: World, t: Table, replies: seq<Frame>, drawn: set<Nonce>, r: World)
    requires Traffic(w) && w.busy.Idle? && w.up != [] && Neutral(replies) && TokensStay(w.table, t) && w.drawn <= drawn
    requires r == Quiet(w, t, replies, drawn) && w.Stream() == w.down
    ensures Traffic(r)
  {
    assert w.wired;
    assert forall i :: 0 <= i < |r.up| ==> r.up[i] == w.up[i + 1] && UpOk(w, i + 1, w.up[i + 1]);
    assert r.Stream() == w.down + replies + [];
    if replies != [] {
      assert w.down + [] == w.down;
      BirthsInsert(w.down, replies[0], []);
      assert replies == [replies[0]];
    }
  }

  lemma QuietAgrees(w: World, t: Table, replies: seq<Frame>, drawn: set<Nonce>, r: World)
    requires Agreement(w) && w.busy.Idle? && w.up != [] && Neutral(replies) && TokensStay(w.table, t) && w.drawn <= drawn
    requires r == Quiet(w, t, replies, drawn) && w.Stream() == w.down
    ensures Agreement(r)
  {
    assert forall i :: 0 <= i < |r.up| ==> r.up[i] == w.up[i + 1];
    if w.c.saved.Some? && w.c.saved.value.id in w.table {
      var id := w.c.saved.value.id;
      assert r.Stream() == w.down + replies + [];
      assert Ordered(t[id], w.shown, w.down + []) by { assert w.down + [] == w.down; }
      if replies != [] {
        InsertNeutral(t[id], w.shown, w.down, replies[0], []);
        assert replies == [replies[0]];
      }
    }
  }

  /** An answer whose last frame is the token `nonce` for the client's session. */
  function Telling(w: World, s: Session, prefix: seq<Frame>, nonce: Nonce, dirty: bool, draw: Nonce, lag: nat)
    : (r: World)
    requires w.up != []
  {
    w.(up := w.up[1..], table := w.table[w.c.active := s],
       busy := Answering(prefix + [Rekey(w.c.active, nonce)], dirty), drawn := w.drawn + {draw}, lag := lag)
  }

  /** The session `s` that answers with `nonce`: it repeats a pending nonce, draws
      a new one, or has just made the pending one current. */
  ghost predicate Tells(w: World, s: Session, nonce: Nonce, dirty: bool, draw: Nonce, lag: nat)
  {
    && w.c.Rotating() && w.c.active in w.table
    && var o := w.table[w.c.active];
       && s.id == o.id && s.ipv4 == o.ipv4
       && match (o.pendingNonce, s.pendingNonce)
          case (Some(p), Some(q)) => SameTokens(o, s) && nonce == p && !dirty && lag == w.lag
          case (None, Some(q)) => SameTokens(o.(pendingNonce := Some(draw)), s) && nonce == draw && dirty && lag == w.lag
          case (Some(p), None) =>
            && SameTokens(o.Commit(), s) && nonce == p && dirty && w.shown == Some(p)
            && lag == if w.c.saved == Some(Token(w.c.active, p)) then w.lag else w.lag + 1
          case (None, None) => false
  }

  lemma TellLinked(o: Session, s: Session, n: Nonce, lag: nat, lag': nat, ours: bool, seen: Option<Nonce>,
                   stream: seq<Frame>, tell: seq<Frame>, nonce: Nonce, up: seq<Message>, drawn: set<Nonce>,
                   heard: set<Nonce>, ipv4: Ipv4)
    requires Linked(o, n, lag, ours, seen, stream, up) && TokensKnown(o, ipv4, drawn) && (ours ==> n in drawn)
    requires forall i :: 0 <= i < |up| && up[i].RekeyTake? ==> up[i].nonce in drawn || up[i].nonce in heard
    requires |tell| > 0 && tell[|tell| - 1].Rekey? && tell[|tell| - 1].nonce == nonce
    requires forall i :: 0 <= i < |tell| - 1 ==> !tell[i].Rekey?
    requires
      || (SameTokens(o, s) && o.pendingNonce == Some(nonce) && lag' == lag)
      || (o.pendingNonce.None? && SameTokens(o.(pendingNonce := Some(nonce)), s) && nonce !in drawn + heard && lag' == lag)
      || (o.pendingNonce == Some(nonce) == seen && SameTokens(o.Commit(), s)
          && lag' == if n == nonce then lag else lag + 1)
    ensures Linked(s, n, lag', ours, seen, stream + tell, up)
  {
    var all := stream + tell;
    assert forall i :: 0 <= i < |all| && all[i].Rekey? ==>
      (i < |stream| && all[i] == stream[i]) || (i == |all| - 1 && all[i].nonce == nonce);
  }

  lemma TellKeepsGood(w: World, s: Session, prefix: seq<Frame>, nonce: Nonce, dirty: bool, draw: Nonce, lag: nat)
    requires Good(w) && w.busy.Idle? && w.up != [] && (w.up[0].RekeyAsk? || w.up[0].RekeyTake? || w.up[0].PingMsg?)
    requires FreshDraw(w, draw) && (prefix == [] || prefix == [Pong]) && Tells(w, s, nonce, dirty, draw, lag)
    ensures Good(Telling(w, s, prefix, nonce, dirty, draw, lag))
  {
    var r := Telling(w, s, prefix, nonce, dirty, draw, lag);
    assert w.Stream() == w.down;
    assert SamePlaces(w.table, r.table);
    SamePlacesKeepsInv(w.table, r.table);
    TellGround(w, s, prefix, nonce, dirty, draw, lag, r);
    TellTraffic(w, s, prefix, nonce, dirty, draw, lag, r);
    TellAgrees(w, s, prefix, nonce, dirty, draw, lag, r);
  }

  lemma TellGround(w: World, s: Session, prefix: seq<Frame>, nonce: Nonce, dirty: bool, draw: Nonce, lag: nat, r: World)
    requires Ground(w) && w.busy.Idle? && w.up != [] && FreshDraw(w, draw) && Tells(w, s, nonce, dirty, draw, lag)
    requires w.c.active in w.home
    requires r == Telling(w, s, prefix, nonce, dirty, draw, lag) && TableInv(r.table)
    ensures Ground(r)
  {
    TellTokens(w, s, nonce, dirty, draw, lag, w.home[w.c.active]);
    SameHome(w.flushed, w.home, w.drawn, r.drawn);
    forall id | id in r.home && id in r.table
      ensures TokensKnown(r.table[id], r.home[id], r.drawn)
    {
      assert TokensKnown(w.table[id], w.home[id], w.drawn);
    }
    assert OnDisk(r);
  }

  lemma TellTokens(w: World, s: Session, nonce: Nonce, dirty: bool, draw: Nonce, lag: nat, ipv4: Ipv4)
    requires Tells(w, s, nonce, dirty, draw, lag) && FreshDraw(w, draw)
    requires TokensKnown(w.table[w.c.active], ipv4, w.drawn)
    ensures TokensKnown(s, ipv4, w.drawn + {draw})
  {
  }

  lemma TellTraffic(w: World, s: Session, prefix: seq<Frame>, nonce: Nonce, dirty: bool, draw: Nonce, lag: nat, r: World)
    requires Traffic(w) && w.busy.Idle? && w.up != [] && (prefix == [] || prefix == [Pong])
    requires Tells(w, s, nonce, dirty, draw, lag) && w.Stream() == w.down
    requires w.c.active in w.home && TokensKnown(w.table[w.c.active], w.home[w.c.active], w.drawn)
    requires r == Telling(w, s, prefix, nonce, dirty, draw, lag)
    ensures Traffic(r)
  {
    assert w.wired;
    assert forall i :: 0 <= i < |r.up| ==> r.up[i] == w.up[i + 1] && UpOk(w, i + 1, w.up[i + 1]);
    assert forall f :: f in r.Replies() ==> f.Pong? || f == Rekey(w.c.active, nonce);
    assert forall k :: |w.down| <= k < |r.Stream()| ==> !r.Stream()[k].AllGood?;
    assert forall k :: 0 <= k < |w.down| ==> r.Stream()[k] == w.down[k];
  }

  lemma TellAgrees(w: World, s: Session, prefix: seq<Frame>, nonce: Nonce, dirty: bool, draw: Nonce, lag: nat, r: World)
    requires Agreement(w) && Traffic(w) && Ground(w) && w.busy.Idle? && w.up != []
    requires FreshDraw(w, draw) && (prefix == [] || prefix == [Pong]) && w.Stream() == w.down
    requires Tells(w, s, nonce, dirty, draw, lag) && r == Telling(w, s, prefix, nonce, dirty, draw, lag)
    ensures Agreement(r)
  {
    var id, n := w.c.saved.value.id, w.c.saved.value.nonce;
    assert forall i :: 0 <= i < |w.up| ==> UpOk(w, i, w.up[i]);
    TellLinked(w.table[id], s, n, w.lag, lag, !w.misread, w.shown, w.down, prefix + [Rekey(id, nonce)], nonce, w.up, w.drawn,
               w.heard, w.home[id]);
    assert forall i :: 0 <= i < |r.up| ==> r.up[i] == w.up[i + 1];
    assert id in r.flushed ==> Linked(r.flushed[id], n, r.diskLag, !r.misread, r.shown, r.down, r.up);
  }

  lemma AskTells(w: World, link: ClientLink, sequence: u64, now: nat, draw: Nonce)
    requires w.busy.Idle? && w.up != [] && w.up[0].RekeyAsk? && w.c.Rotating() && w.up[0].id == w.c.active
    requires Reaches(w.table, w.c.active, w.c.address)
    ensures var o := w.table[w.c.active];
            var s := if o.pendingNonce.None? then o.(pendingNonce := Some(draw)) else o;
            && AfterHandle(w, link, sequence, now, draw)
               == Telling(w, s, [], s.pendingNonce.value, o.pendingNonce.None?, draw, w.lag)
            && Tells(w, s, s.pendingNonce.value, o.pendingNonce.None?, draw, w.lag)
  {
    var o := w.table[w.c.active];
    var nonce := if o.pendingNonce.Some? then o.pendingNonce.value else draw;
    assert [] + [Rekey(w.c.active, nonce)] == [Rekey(w.c.active, nonce)];
    if o.pendingNonce.Some? {
      assert w.table[w.c.active := o] == w.table;
    } else {
      assert w.table[w.c.active := o.(pendingNonce := Some(draw))][w.c.active] != o;
    }
  }

  /** Requests about a session come from the client that is in it, and only the
      last token seen can be confirmed. */
  lemma RequestIsActive(w: World)
    requires Good(w) && w.up != [] && (w.up[0].RekeyAsk? || w.up[0].RekeyTake? || w.up[0].PingMsg?)
    ensures w.c.Rotating() && w.up[0].id == w.c.active && w.c.saved.Some?
    ensures w.up[0].RekeyTake? && w.c.active in w.table && w.table[w.c.active].pendingNonce == Some(w.up[0].nonce) ==>
              w.shown == Some(w.up[0].nonce)
  {
    assert UpOk(w, 0, w.up[0]);
  }

  /** A request that reaches no session, or confirms what is not pending. */
  lemma RefusedIsQuiet(w: World, link: ClientLink, sequence: u64, now: nat, draw: Nonce)
    requires w.busy.Idle? && w.up != [] && (w.up[0].RekeyAsk? || w.up[0].RekeyTake?)
    requires Reaches(w.table, w.up[0].id, w.c.address) ==>
               w.up[0].RekeyTake? && w.table[w.up[0].id].pendingNonce != Some(w.up[0].nonce)
    ensures AfterHandle(w, link, sequence, now, draw) == Quiet(w, w.table, [], w.drawn + {draw})
  {
  }

  lemma AnswerKeepsGood(w: World, s: Session, nonce: Nonce, dirty: bool, draw: Nonce, lag: nat, r: World)
    requires Good(w) && w.busy.Idle? && w.up != [] && (w.up[0].RekeyAsk? || w.up[0].RekeyTake?) && FreshDraw(w, draw)
    requires r == Telling(w, s, [], nonce, dirty, draw, lag) && Tells(w, s, nonce, dirty, draw, lag)
    ensures Good(r)
  {
    TellKeepsGood(w, s, [], nonce, dirty, draw, lag);
  }

  lemma RefusedKeepsGood(w: World, draw: Nonce, r: World)
    requires Good(w) && w.busy.Idle? && w.up != [] && FreshDraw(w, draw)
    requires r == Quiet(w, w.table, [], w.drawn + {draw})
    ensures Good(r)
  {
    QuietKeepsGood(w, w.table, [], w.drawn + {draw});
  }

  lemma AskKeepsGood(w: World, link: ClientLink, sequence: u64, now: nat, draw: Nonce)
    requires Good(w) && w.busy.Idle? && w.up != [] && w.up[0].RekeyAsk? && FreshDraw(w, draw)
    ensures Good(AfterHandle(w, link, sequence, now, draw))
  {
    RequestIsActive(w);
    var r := AfterHandle(w, link, sequence, now, draw);
    if Reaches(w.table, w.c.active, w.c.address) {
      AskTells(w, link, sequence, now, draw);
      var o := w.table[w.c.active];
      var s := if o.pendingNonce.None? then o.(pendingNonce := Some(draw)) else o;
      AnswerKeepsGood(w, s, s.pendingNonce.value, o.pendingNonce.None?, draw, w.lag, r);
    } else {
      RefusedIsQuiet(w, link, sequence, now, draw);
      RefusedKeepsGood(w, draw, r);
    }
  }

  lemma ConfirmTells(w: World, link: ClientLink, sequence: u64, now: nat, draw: Nonce)
    requires w.busy.Idle? && w.up != [] && w.up[0].RekeyTake? && w.c.Rotating() && w.up[0].id == w.c.active
    requires Reaches(w.table, w.c.active, w.c.address) && w.shown == w.table[w.c.active].pendingNonce == Some(w.up[0].nonce)
    requires w.c.saved.Some?
    ensures var s := w.table[w.c.active].Commit().(lastRekey := now);
            var lag := if Outruns(w, w.up[0]) then w.lag + 1 else w.lag;
            && AfterHandle(w, link, sequence, now, draw) == Telling(w, s, [], w.up[0].nonce, true, draw, lag)
            && Tells(w, s, w.up[0].nonce, true, draw, lag)
  {
    assert [] + [Rekey(w.c.active, w.up[0].nonce)] == [Rekey(w.c.active, w.up[0].nonce)];
  }

  lemma ConfirmKeepsGood(w: World, link: ClientLink, sequence: u64, now: nat, draw: Nonce)
    requires Good(w) && w.busy.Idle? && w.up != [] && w.up[0].RekeyTake? && FreshDraw(w, draw)
    ensures Good(AfterHandle(w, link, sequence, now, draw))
  {
    RequestIsActive(w);
    var m := w.up[0];
    var r := AfterHandle(w, link, sequence, now, draw);
    if Reaches(w.table, m.id, w.c.address) && w.table[m.id].pendingNonce == Some(m.nonce) {
      ConfirmTells(w, link, sequence, now, draw);
      AnswerKeepsGood(w, w.table[m.id].Commit().(lastRekey := now), m.nonce, true, draw,
                      if Outruns(w, m) then w.lag + 1 else w.lag, r);
    } else {
      RefusedIsQuiet(w, link, sequence, now, draw);
      RefusedKeepsGood(w, draw, r);
    }
  }

  function Touching(w: World, now: nat, draw: Nonce): (r: (Table, Touch))
    requires w.up != [] && w.up[0].PingMsg?
  {
    TouchSession(w.table, w.c.active, w.c.address, w.up[0].sequence, now, draw)
  }

  lemma PingTells(w: World, link: ClientLink, sequence: u64, now: nat, draw: Nonce)
    requires w.busy.Idle? && w.up != [] && w.up[0].PingMsg? && w.c.Rotating() && w.up[0].id == w.c.active
    requires Touching(w, now, draw).1.Touched? && Touching(w, now, draw).1.offer.Some?
    ensures var (t, touch) := Touching(w, now, draw);
            && w.c.active in w.table && w.c.active in t
            && var dirty := w.table[w.c.active].pendingNonce.None?;
               && AfterHandle(w, link, sequence, now, draw)
                  == Telling(w, t[w.c.active], [Pong], touch.offer.value, dirty, draw, w.lag)
               && Tells(w, t[w.c.active], touch.offer.value, dirty, draw, w.lag)
  {
  }

  lemma PingIsQuiet(w: World, link: ClientLink, sequence: u64, now: nat, draw: Nonce)
    requires w.busy.Idle? && w.up != [] && w.up[0].PingMsg? && w.up[0].id == w.c.active
    requires !(Touching(w, now, draw).1.Touched? && Touching(w, now, draw).1.offer.Some?)
    ensures var (t, touch) := Touching(w, now, draw);
            && AfterHandle(w, link, sequence, now, draw)
               == Quiet(w, t, if touch.Ignored? then [] else [Pong], w.drawn + {draw})
            && TokensStay(w.table, t)
  {
    assert [Pong] + [] == [Pong];
  }

  lemma PingMessageKeepsGood(w: World, link: ClientLink, sequence: u64, now: nat, draw: Nonce)
    requires Good(w) && w.busy.Idle? && w.up != [] && w.up[0].PingMsg? && FreshDraw(w, draw)
    ensures Good(AfterHandle(w, link, sequence, now, draw))
  {
    RequestIsActive(w);
    var (t, touch) := Touching(w, now, draw);
    if touch.Touched? && touch.offer.Some? {
      PingTells(w, link, sequence, now, draw);
      TellKeepsGood(w, t[w.c.active], [Pong], touch.offer.value, w.table[w.c.active].pendingNonce.None?, draw, w.lag);
    } else {
      PingIsQuiet(w, link, sequence, now, draw);
      QuietKeepsGood(w, t, if touch.Ignored? then [] else [Pong], w.drawn + {draw});
    }
  }

  // ------------------------------------------------------------------ resuming

  function Resuming(w: World, s: Session, draw: Nonce): (r: World)
    requires w.up != [] && w.up[0].BackAgain?
  {
    w.(up := w.up[1..], table := w.table[w.up[0].id := s], busy := Answering([StillGood(w.up[0].id, s.ipv4)], true),
       drawn := w.drawn + {draw})
  }

  ghost predicate Resumes(w: World, s: Session)
  {
    && w.up != [] && w.up[0].BackAgain? && w.up[0].id in w.table
    && var o := w.table[w.up[0].id];
       o.Accepts(w.up[0].token) && s.id == o.id && SameTokens(Rotated(o, w.up[0].token), s)
  }

  lemma ResumeKeepsGood(w: World, s: Session, draw: Nonce)
    requires Good(w) && w.busy.Idle? && Resumes(w, s) && FreshDraw(w, draw)
    ensures Good(Resuming(w, s, draw))
  {
    var r := Resuming(w, s, draw);
    assert w.Stream() == w.down;
    assert UpOk(w, 0, w.up[0]);
    assert SamePlaces(w.table, r.table);
    SamePlacesKeepsInv(w.table, r.table);
    ResumeGround(w, s, draw, r);
    ResumeTraffic(w, s, draw, r);
    ResumeAgrees(w, s, draw, r);
  }

  lemma ResumeGround(w: World, s: Session, draw: Nonce, r: World)
    requires Ground(w) && w.busy.Idle? && Resumes(w, s) && FreshDraw(w, draw)
    requires r == Resuming(w, s, draw) && TableInv(r.table)
    ensures Ground(r)
  {
    var m := w.up[0];
    forall id | id in r.home && id in r.table
      ensures TokensKnown(r.table[id], r.home[id], r.drawn)
    {
      assert TokensKnown(w.table[id], w.home[id], w.drawn);
      if id == m.id {
      }
    }
  }

  lemma ResumeTraffic(w: World, s: Session, draw: Nonce, r: World)
    requires Traffic(w) && w.busy.Idle? && Resumes(w, s) && r == Resuming(w, s, draw) && w.Stream() == w.down
    ensures Traffic(r)
  {
    assert w.wired;
    assert forall i :: 0 <= i < |r.up| ==> r.up[i] == w.up[i + 1] && UpOk(w, i + 1, w.up[i + 1]);
    assert w.down + [] == w.down;
    BirthsInsert(w.down, r.Replies()[0], []);
    assert r.Stream() == w.down + [r.Replies()[0]] + [];
  }

  lemma ResumeAgrees(w: World, s: Session, draw: Nonce, r: World)
    requires Agreement(w) && Traffic(w) && Ground(w) && w.busy.Idle? && Resumes(w, s)
    requires r == Resuming(w, s, draw) && w.Stream() == w.down
    ensures Agreement(r)
  {
    assert forall i :: 0 <= i < |r.up| ==> r.up[i] == w.up[i + 1];
    if w.c.saved.Some? {
      var id := w.c.saved.value.id;
      assert r.Stream() == w.down + [r.Replies()[0]] + [];
      if id in w.table {
        assert UpOk(w, 0, w.up[0]);
        assert Ordered(r.table[id], w.shown, w.down) by { ResumeOrdered(w, s, r); }
        assert w.down + [] == w.down;
        InsertNeutral(r.table[id], w.shown, w.down, r.Replies()[0], []);
        if id == w.up[0].id && !w.misread {
          assert forall i :: 0 <= i < |w.up| ==> UpOk(w, i, w.up[i]);
        }
      }
    }
  }

  lemma ResumeOrdered(w: World, s: Session, r: World)
    requires Agreement(w) && Traffic(w) && w.c.saved.Some? && w.c.saved.value.id in w.table && w.Stream() == w.down
    requires Resumes(w, s) && UpOk(w, 0, w.up[0]) && r.table == w.table[w.up[0].id := s]
    ensures Ordered(r.table[w.c.saved.value.id], w.shown, w.down)
  {
    if w.c.saved.value.id == w.up[0].id {
      assert forall k :: 0 <= k < |w.down| ==> w.down[k] in w.down;
    }
  }

  lemma BackAgainIs(w: World, link: ClientLink, sequence: u64, now: nat, draw: Nonce)
    requires w.busy.Idle? && w.up != [] && w.up[0].BackAgain?
    ensures var m := w.up[0];
            var (t, ipv4) := Resume(w.table, m.id, m.token, w.c.address, link, sequence, now);
            var r := AfterHandle(w, link, sequence, now, draw);
            if ipv4.None? then t == w.table && r == Quiet(w, t, [Denied], w.drawn + {draw})
            else m.id in t && Resumes(w, t[m.id]) && r == Resuming(w, t[m.id], draw)
  {
  }

  lemma BackAgainKeepsGood(w: World, link: ClientLink, sequence: u64, now: nat, draw: Nonce)
    requires Good(w) && w.busy.Idle? && w.up != [] && w.up[0].BackAgain? && FreshDraw(w, draw)
    ensures Good(AfterHandle(w, link, sequence, now, draw))
  {
    var m := w.up[0];
    var (t, ipv4) := Resume(w.table, m.id, m.token, w.c.address, link, sequence, now);
    BackAgainIs(w, link, sequence, now, draw);
    if ipv4.None? {
      QuietKeepsGood(w, t, [Denied], w.drawn + {draw});
    } else {
      ResumeKeepsGood(w, t[m.id], draw);
    }
  }

  // ---------------------------------------------- creation, disk, others, crash

  lemma FullIsQuiet(w: World, e: Event, r: World)
    requires TableInv(w.table) && Next(w, ServerCreate(e), r) && e.answer.None?
    ensures r == Quiet(w, w.table, [Denied], w.drawn)
  {
    AnyKickFreesAnAddress(w.table, e.mid, e.open, e.s.claims.clientId, e.s.claims.deviceLimit);
  }

  lemma FullKeepsGood(w: World, r: World)
    requires Good(w) && w.busy.Idle? && w.up != [] && r == Quiet(w, w.table, [Denied], w.drawn)
    ensures Good(r)
  {
    QuietKeepsGood(w, w.table, [Denied], w.drawn);
  }

  lemma GrewKeepsGood(w: World, s: Session, r: World)
    requires Good(w) && Grew(w, s, r) && TableInv(r.table)
    ensures Good(r)
  {
    assert w.Stream() == w.down;
    GrewGround(w, s, r);
    GrewTraffic(w, s, r);
    GrewAgrees(w, s, r);
  }

  lemma CreateKeepsGood(w: World, e: Event, r: World)
    requires Good(w) && Next(w, ServerCreate(e), r)
    ensures Good(r)
  {
    NextKeepsInv(w.table, e, r.table);
    if e.answer.None? {
      FullIsQuiet(w, e, r);
      FullKeepsGood(w, r);
    } else {
      CreateGrows(w, e, r);
      GrewKeepsGood(w, e.s, r);
    }
  }

  /** What a creation leaves of the table as far as our client can tell. */
  ghost predicate Grew(w: World, s: Session, r: World)
  {
    && w.busy.Idle? && w.up != [] && w.up[0].WhatsUp?
    && r == w.(up := w.up[1..], table := r.table, busy := Answering([AllGood(s.id, s.serverNonce)], true),
               drawn := w.drawn + {s.serverNonce}, home := w.home[s.id := s.ipv4])
    && s.id !in w.home && s.id !in w.table && s.id !in w.flushed && FreshDraw(w, s.serverNonce)
    && s.id in r.table && r.table[s.id] == s && s.prevNonce.None? && s.pendingNonce.None?
    && (forall id :: id in r.table && id != s.id ==> id in w.table && r.table[id] == w.table[id])
  }

  lemma CreateGrows(w: World, e: Event, r: World)
    requires Next(w, ServerCreate(e), r) && e.answer.Some?
    ensures Grew(w, e.s, r)
  {
  }

  lemma GrewGround(w: World, s: Session, r: World)
    requires Ground(w) && Grew(w, s, r) && TableInv(r.table)
    ensures Ground(r)
  {
    forall id | id in r.home && id in r.table
      ensures TokensKnown(r.table[id], r.home[id], r.drawn)
    {
      assert id != s.id ==> TokensKnown(w.table[id], w.home[id], w.drawn);
    }
  }

  lemma GrewUps(w: World, s: Session, r: World)
    requires Traffic(w) && Agreement(w) && Grew(w, s, r)
    ensures UpsOk(r)
  {
    forall i | 0 <= i < |r.up|
      ensures UpOk(r, i, r.up[i])
    {
      assert r.up[i] == w.up[i + 1] && UpOk(w, i + 1, w.up[i + 1]);
    }
  }

  lemma GrewDowns(w: World, s: Session, r: World)
    requires Traffic(w) && Agreement(w) && Grew(w, s, r)
    ensures DownsOk(r)
  {
    forall f | f in r.down
      ensures DownOk(r, f) && (f.AllGood? && f.id in r.flushed ==> Newborn(r.flushed[f.id], f.nonce))
    {
      assert DownOk(w, f);
      assert r.up != [] ==> UpOk(w, 1, w.up[1]);
    }
  }

  lemma GrewTraffic(w: World, s: Session, r: World)
    requires Traffic(w) && Agreement(w) && Grew(w, s, r) && w.Stream() == w.down
    ensures Traffic(r)
  {
    assert w.wired;
    GrewUps(w, s, r);
    GrewDowns(w, s, r);
    assert r.up != [] ==> UpOk(w, 1, w.up[1]);
    assert forall k :: 0 <= k < |w.down| ==> r.Stream()[k] == w.down[k] && w.down[k] in w.down;
    assert r.Stream()[|w.down|] == AllGood(s.id, s.serverNonce);
    assert forall k :: 0 <= k < |w.down| ==> DownOk(w, w.down[k]);
  }

  lemma GrewAgrees(w: World, s: Session, r: World)
    requires Agreement(w) && Grew(w, s, r) && w.Stream() == w.down
    ensures Agreement(r)
  {
    assert forall i :: 0 <= i < |r.up| ==> r.up[i] == w.up[i + 1];
    if w.c.saved.Some? && w.c.saved.value.id in r.table {
      assert w.down + [] == w.down;
      InsertNeutral(w.table[w.c.saved.value.id], w.shown, w.down, r.Replies()[0], []);
      assert r.Stream() == w.down + [r.Replies()[0]] + [];
    }
  }

  lemma FinishKeepsGood(w: World, order: seq<SessionId>)
    requires Good(w) && w.busy.Answering? && (w.busy.dirty ==> Walks(order, w.table))
    ensures Good(AfterFinish(w, order))
  {
    var r := AfterFinish(w, order);
    assert r.Stream() == w.Stream();
    assert r.down == w.Stream();
    FinishGround(w, order, r);
    FinishTraffic(w, order, r);
    FinishAgrees(w, order, r);
  }

  lemma FinishGround(w: World, order: seq<SessionId>, r: World)
    requires Ground(w) && w.busy.Answering? && (w.busy.dirty ==> Walks(order, w.table)) && r == AfterFinish(w, order)
    ensures Ground(r)
  {
    if w.busy.dirty {
      assert Walks(order, r.flushed) && r.disk == EncodeStore(r.flushed, order);
    }
  }

  lemma FinishTraffic(w: World, order: seq<SessionId>, r: World)
    requires Traffic(w) && w.busy.Answering? && (w.busy.dirty ==> Walks(order, w.table)) && r == AfterFinish(w, order)
    requires r.Stream() == w.Stream() && r.down == w.Stream()
    ensures Traffic(r)
  {
    assert forall f :: f in r.down ==> f in w.down || f in w.Replies();
  }

  lemma FinishAgrees(w: World, order: seq<SessionId>, r: World)
    requires Agreement(w) && Ground(w) && w.busy.Answering? && (w.busy.dirty ==> Walks(order, w.table))
    requires r == AfterFinish(w, order) && r.Stream() == w.Stream() && r.down == w.Stream()
    ensures Agreement(r)
  {
  }

  lemma OthersKeepGood(w: World, e: Event, dirty: bool, r: World)
    requires Good(w) && Next(w, Others(e, dirty), r)
    ensures Good(r)
  {
    NextKeepsInv(w.table, e, r.table);
    assert w.Stream() == w.down && r.Stream() == w.down;
    OthersGround(w, dirty, r);
    OthersTraffic(w, dirty, r);
    OthersAgree(w, dirty, r);
  }

  lemma OthersAgree(w: World, dirty: bool, r: World)
    requires Agreement(w) && w.busy.Idle? && LeavesAlone(w, r.table, dirty)
    requires r == w.(table := r.table, busy := Answering([], dirty))
    ensures Agreement(r)
  {
    assert w.Stream() == w.down && r.Stream() == w.down;
  }

  lemma OthersGround(w: World, dirty: bool, r: World)
    requires Ground(w) && w.busy.Idle? && LeavesAlone(w, r.table, dirty) && TableInv(r.table)
    requires r == w.(table := r.table, busy := Answering([], dirty))
    ensures Ground(r)
  {
    forall id | id in r.home && id in r.table
      ensures TokensKnown(r.table[id], r.home[id], r.drawn)
    {
      assert TokensKnown(w.table[id], w.home[id], w.drawn);
    }
  }

  lemma OthersTraffic(w: World, dirty: bool, r: World)
    requires Traffic(w) && w.busy.Idle? && LeavesAlone(w, r.table, dirty)
    requires r == w.(table := r.table, busy := Answering([], dirty))
    ensures Traffic(r)
  {
    assert w.Stream() == w.down && r.Stream() == w.down;
  }

  /** A crash goes back to the disk, whose tokens are as good. */
  lemma CrashKeepsGood(w: World, now: nat, r: World)
    requires Good(w) && Next(w, Crash(now), r)
    ensures Good(r)
  {
    var order :| Walks(order, w.flushed) && w.disk == EncodeStore(w.flushed, order);
    TableRuns.RestartsWell(w.flushed, order, now);
    SamePlacesKeepsInv(w.flushed, r.table);
    CrashTokens(w, now, r);
    CrashGround(w, r);
    CrashTraffic(w, r);
    CrashAgrees(w, r);
  }

  lemma CrashTokens(w: World, now: nat, r: World)
    requires Ground(w) && r.table == ReloadedTable(w.flushed, now)
    ensures forall id :: id in w.home && id in w.flushed ==> id in r.table && SameTokens(w.flushed[id], r.table[id])
  {
    forall id | id in w.home && id in w.flushed
      ensures id in r.table && SameTokens(w.flushed[id], r.table[id])
    {
      assert TokensKnown(w.flushed[id], w.home[id], w.drawn);
    }
  }

  lemma CrashTraffic(w: World, r: World)
    requires Traffic(w)
    requires r == w.(table := r.table, busy := Idle, up := [], down := [], wired := false, lag := w.diskLag)
    ensures Traffic(r)
  {
    assert r.Stream() == [];
  }

  lemma CrashAgrees(w: World, r: World)
    requires Agreement(w) && SamePlaces(w.flushed, r.table)
    requires forall id :: id in w.home && id in w.flushed ==> SameTokens(w.flushed[id], r.table[id])
    requires r == w.(table := r.table, busy := Idle, up := [], down := [], wired := false, lag := w.diskLag)
    ensures Agreement(r)
  {
    assert r.Stream() == [];
  }

  lemma CrashGround(w: World, r: World)
    requires Ground(w) && TableInv(r.table) && SamePlaces(w.flushed, r.table)
    requires forall id :: id in w.home && id in w.flushed ==> SameTokens(w.flushed[id], r.table[id])
    requires r == w.(table := r.table, busy := Idle, up := [], down := [], wired := false, lag := w.diskLag)
    ensures Ground(r)
  {
    forall id | id in r.home && id in r.table
      ensures TokensKnown(r.table[id], r.home[id], r.drawn)
    {
      assert TokensKnown(w.flushed[id], w.home[id], w.drawn);
    }
  }

  // ------------------------------------------------------------------- theorem

  /** What was taken from other frames is none of the server's tokens, and it is what
      memory and file hold whenever that is not the server's. */
  ghost predicate Hearsay(w: World)
  {
    && w.heard !! w.drawn
    && (w.c.seen.Some? && w.c.seen != w.shown ==> w.c.seen.value in w.heard)
    && (w.misread && w.c.saved.Some? ==> w.c.saved.value.nonce in w.heard)
  }

  lemma WorthOfFile(w: World)
    requires Good(w) && Hearsay(w) && w.c.saved.Some? && w.c.saved.value.id in w.table
    ensures w.table[w.c.saved.value.id].Accepts(w.c.saved.value.nonce) <==> !w.misread && w.lag <= 1
  {
    assert TokensKnown(w.table[w.c.saved.value.id], w.home[w.c.saved.value.id], w.drawn);
  }

  /** The token in the file is accepted exactly when it did not come from another frame
      and at most one confirmed rotation went by since it was written, and then the
      answer is the address the client had. */
  lemma AcceptedIffLagAtMostOne(w: World)
    requires Good(w) && Hearsay(w) && w.c.saved.Some? && w.c.saved.value.id in w.table
    ensures var id, n := w.c.saved.value.id, w.c.saved.value.nonce;
            && (w.misread <==> n in w.heard)
            && (w.table[id].Accepts(n) <==> !w.misread && w.lag <= 1)
            && (!w.lost && !w.misread ==> w.lag == 0)
            && id in w.home
            && forall address, link, sequence, now ::
                 Resume(w.table, id, n, address, link, sequence, now).1 ==
                 if !w.misread && w.lag <= 1 then Some(w.home[id]) else None
  {
    WorthOfFile(w);
  }

  /** Right after a misread frame: if its token was saved the file is useless, if not it
      is as good as before. */
  lemma AcceptedAfterMisreadIff(w: World, saveOk: bool, forgetOk: bool, r: World)
    requires Good(w) && Hearsay(w) && Next(w, ClientRead(saveOk, forgetOk), r)
    requires Misreads(w.c, w.down[0]) && !ClashRead(w) && w.c.active in w.table
    ensures r.c.saved.Some? && r.c.saved.value.id == w.c.active && w.c.active in r.table
    ensures r.table[w.c.active].Accepts(r.c.saved.value.nonce) <==> !saveOk && !w.misread && w.lag <= 1
  {
    MisreadingIs(w, saveOk, forgetOk);
    ReadKeepsGood(w, saveOk, forgetOk);
    ReadKeepsHearsay(w, saveOk, forgetOk, r);
    WorthOfFile(r);
  }

  lemma CreateBystands(w: World, e: Event, t: Table, r: World)
    requires w.up != [] && e.Create? && e.s.serverNonce !in w.heard && r == AfterCreate(w, e, t)
    ensures Bystands(w, r) && (w.heard !! w.drawn ==> w.heard !! r.drawn)
  {
  }

  lemma OthersBystand(w: World, step: Step, r: World)
    requires Next(w, step, r) && !step.ClientRead? && !step.LateSave?
    ensures Bystands(w, r) && (w.heard !! w.drawn ==> w.heard !! r.drawn)
  {
    if step.ServerRead? {
    } else if step.ServerCreate? {
      CreateBystands(w, step.e, r.table, r);
    }
  }

  /** Taking a Rekey frame. */
  lemma TakenRead(w: World, saveOk: bool, forgetOk: bool, r: World)
    requires w.down != [] && TakesToken(w.c, w.down[0]) && !Misreads(w.c, w.down[0])
    requires r == AfterRead(w, saveOk, forgetOk)
    ensures r.drawn == w.drawn && r.heard == w.heard && r.c.seen == r.shown
    ensures r.misread ==> !saveOk && w.misread && r.c.saved == w.c.saved
  {
    TakingReadIs(w, saveOk, forgetOk);
  }

  /** A read that takes no token leaves things as they are, unless a session is born. */
  lemma UntakenRead(w: World, saveOk: bool, forgetOk: bool, r: World)
    requires !w.c.phase.Offline? && w.down != [] && !TakesToken(w.c, w.down[0]) && !Misreads(w.c, w.down[0])
    requires r == AfterRead(w, saveOk, forgetOk)
    ensures r.drawn == w.drawn && r.heard == w.heard && (r.misread ==> w.misread && Bystands(w, r))
    ensures (r.c.seen == w.c.seen && r.shown == w.shown) || (r.c.seen.None? && r.shown.None?)
  {
    var (c, out) := Read(w.c, w.down[0], saveOk, forgetOk);
    if c.phase.Offline? {
      LeavingReadIs(w, saveOk, forgetOk);
      LeavingBystands(w, c, r);
    } else if w.c.phase.AwaitCreate? {
      BirthReadIs(w, saveOk, forgetOk);
    } else {
      PassingReadIs(w, saveOk, forgetOk);
      PassingBystands(w, c, out, r);
    }
  }

  lemma LeavingBystands(w: World, c: Client, r: World)
    requires w.down != [] && r == Hang(w.(down := w.down[1..])).(c := c) && SameStanding(Hang(w.(down := w.down[1..])), c)
    ensures r.drawn == w.drawn && Bystands(w, r)
  {
  }

  lemma PassingBystands(w: World, c: Client, out: seq<Message>, r: World)
    requires w.down != [] && r == Send(w.(down := w.down[1..], c := c), out)
    requires (exists id :: c == w.c.(phase := AwaitOffer, active := id)) || SameStanding(w, c)
    ensures r.drawn == w.drawn && Bystands(w, r)
  {
  }

  lemma ReadKeepsHearsay(w: World, saveOk: bool, forgetOk: bool, r: World)
    requires Hearsay(w) && !w.c.phase.Offline? && w.down != [] && !ClashRead(w)
    requires r == AfterRead(w, saveOk, forgetOk)
    ensures Hearsay(r)
  {
    if Misreads(w.c, w.down[0]) {
      MisreadingIs(w, saveOk, forgetOk);
    } else if TakesToken(w.c, w.down[0]) {
      TakenRead(w, saveOk, forgetOk, r);
    } else {
      UntakenRead(w, saveOk, forgetOk, r);
    }
  }

  lemma LateSaveKeepsHearsay(w: World, r: World)
    requires Hearsay(w) && w.c.seen.Some? && r == SavedLate(w)
    ensures Hearsay(r)
  {
  }

  lemma StepKeepsHearsay(w: World, step: Step, r: World)
    requires Hearsay(w) && Next(w, step, r) && !ClashStep(w, step)
    ensures Hearsay(r)
  {
    if step.ClientRead? {
      ReadKeepsHearsay(w, step.saveOk, step.forgetOk, r);
    } else if step.LateSave? {
      LateSaveKeepsHearsay(w, r);
    } else {
      OthersBystand(w, step, r);
    }
  }

  // ---------------------------------------------------------------------- runs

  lemma HandleKeepsGood(w: World, link: ClientLink, sequence: u64, now: nat, draw: Nonce)
    requires Good(w) && w.busy.Idle? && w.up != [] && !w.up[0].WhatsUp? && FreshDraw(w, draw)
    ensures Good(AfterHandle(w, link, sequence, now, draw))
  {
    match w.up[0]
    case BackAgain(_, _) => BackAgainKeepsGood(w, link, sequence, now, draw);
    case RekeyAsk(_) => AskKeepsGood(w, link, sequence, now, draw);
    case RekeyTake(_, _) => ConfirmKeepsGood(w, link, sequence, now, draw);
    case PingMsg(_, _) => PingMessageKeepsGood(w, link, sequence, now, draw);
  }

  lemma ServerStepKeepsGood(w: World, step: Step, r: World)
    requires Good(w) && Next(w, step, r)
    requires step.ServerRead? || step.ServerCreate? || step.ServerFinish? || step.Others? || step.Crash?
    ensures Good(r)
  {
    match step
    case ServerRead(link, sequence, now, draw) => HandleKeepsGood(w, link, sequence, now, draw);
    case ServerCreate(e) => CreateKeepsGood(w, e, r);
    case ServerFinish(order) => FinishKeepsGood(w, order);
    case Others(e, dirty) => OthersKeepGood(w, e, dirty, r);
    case Crash(now) => CrashKeepsGood(w, now, r);
  }

  lemma LinkStepKeepsGood(w: World, step: Step, r: World)
    requires Good(w) && Next(w, step, r)
    requires step.Connect? || step.Abandon? || step.LoseUp? || step.LoseDown? || step.Push?
    ensures Good(r)
  {
    match step
    case Connect(address) => DialKeepsGood(w, address);
    case Abandon => HangKeepsGood(w);
    case LoseUp(i) => LoseUpKeepsGood(w, i);
    case LoseDown(i) => LoseDownKeepsGood(w, i);
    case Push(f) => PushKeepsGood(w, f);
  }

  lemma ClientStepKeepsGood(w: World, step: Step, r: World)
    requires Good(w) && Next(w, step, r) && !ClashStep(w, step)
    requires step.ClientRead? || step.ClientTimeout? || step.LateSave? || step.ClientPing?
    ensures Good(r)
  {
    match step
    case ClientRead(saveOk, forgetOk) => ReadKeepsGood(w, saveOk, forgetOk);
    case ClientTimeout(forgetOk) => TimeoutKeepsGood(w, forgetOk);
    case LateSave => LateSaveKeepsGood(w, r);
    case ClientPing(sequence) => PingKeepsGood(w, sequence);
  }

  /** Every step keeps the agreement, as long as no frame of another type that is
      taken for a token carries one of the server's own nonces. */
  lemma StepKeepsGood(w: World, step: Step, r: World)
    requires Good(w) && Next(w, step, r)
    requires !ClashStep(w, step)
    ensures Good(r)
  {
    if step.Connect? || step.Abandon? || step.LoseUp? || step.LoseDown? || step.Push? {
      LinkStepKeepsGood(w, step, r);
    } else if step.ClientRead? || step.ClientTimeout? || step.LateSave? || step.ClientPing? {
      ClientStepKeepsGood(w, step, r);
    } else {
      ServerStepKeepsGood(w, step, r);
    }
  }

  lemma LagGrowsOnlyWhenOutrun(w: World, step: Step, r: World)
    requires Next(w, step, r) && w.diskLag <= w.lag
    ensures if OutrunStep(w, step) then r.lag == w.lag + 1 else r.lag <= w.lag
  {
    match step
    case ClientRead(saveOk, forgetOk) => ReadCounts(w, saveOk, forgetOk);
    case ServerRead(_, _, _, _) =>
    case ServerCreate(_) =>
    case Others(_, _) =>
    case _ =>
  }

  /** A token the server takes stays good through every step but one: a
      confirmed rotation past a file that already lags by one. */
  lemma OnlyASecondRotationBreaks(w: World, step: Step, r: World)
    requires Good(w) && Hearsay(w) && Next(w, step, r)
    requires w.c.saved.Some? && r.c.saved == w.c.saved
    requires var id := w.c.saved.value.id;
             id in w.table && id in r.table && w.table[id].Accepts(w.c.saved.value.nonce)
    ensures r.table[w.c.saved.value.id].Accepts(w.c.saved.value.nonce)
       <==> !(OutrunStep(w, step) && w.lag == 1)
  {
    if step.ClientRead? || step.LateSave? {
      ClientLeavesTable(w, step, r);
    } else {
      BothWorths(w, step, r);
      OthersBystand(w, step, r);
      LagGrowsOnlyWhenOutrun(w, step, r);
    }
  }

  lemma BothWorths(w: World, step: Step, r: World)
    requires Good(w) && Hearsay(w) && Next(w, step, r) && !ClashStep(w, step)
    requires w.c.saved.Some? && r.c.saved == w.c.saved
    requires w.c.saved.value.id in w.table && w.c.saved.value.id in r.table
    ensures w.table[w.c.saved.value.id].Accepts(w.c.saved.value.nonce) <==> !w.misread && w.lag <= 1
    ensures r.table[w.c.saved.value.id].Accepts(w.c.saved.value.nonce) <==> !r.misread && r.lag <= 1
    ensures w.diskLag <= w.lag
  {
    StepKeepsGood(w, step, r);
    StepKeepsHearsay(w, step, r);
    WorthOfFile(w);
    WorthOfFile(r);
  }

  lemma ClientLeavesTable(w: World, step: Step, r: World)
    requires Next(w, step, r) && (step.ClientRead? || step.LateSave?)
    ensures r.table == w.table
  {
  }

  lemma InitIsGood(w: World)
    requires Init(w)
    ensures Good(w)
  {
    assert w.Stream() == [];
  }

  ghost predicate Run(states: seq<World>, steps: seq<Step>)
  {
    && |states| == |steps| + 1 && Init(states[0])
    && forall i :: 0 <= i < |steps| ==> StepAt(states, steps, i)
  }

  ghost predicate StepAt(states: seq<World>, steps: seq<Step>, i: nat)
    requires i < |steps| < |states|
  {
    Next(states[i], steps[i], states[i + 1])
  }

  lemma OneStepLonger(states: seq<World>, steps: seq<Step>, step: Step, w: World)
    requires Run(states, steps) && Next(states[|steps|], step, w)
    ensures Run(states + [w], steps + [step]) && (states + [w])[|steps| + 1] == w
  {
    var longer, more := states + [w], steps + [step];
    forall i | 0 <= i < |more|
      ensures StepAt(longer, more, i)
    {
      if i < |steps| {
        assert StepAt(states, steps, i);
      }
    }
  }

  lemma StepOfRun(states: seq<World>, steps: seq<Step>, i: nat)
    requires Run(states, steps) && i < |steps|
    ensures Next(states[i], steps[i], states[i + 1])
  {
    assert StepAt(states, steps, i);
  }

  lemma ClashIsRemembered(w: World, step: Step, r: World)
    requires Next(w, step, r)
    ensures r.clash <==> w.clash || ClashStep(w, step)
  {
    match step
    case ClientRead(saveOk, forgetOk) => ReadCounts(w, saveOk, forgetOk);
    case LateSave =>
    case _ => OthersBystand(w, step, r);
  }

  lemma {:induction false} RunIsGood(states: seq<World>, steps: seq<Step>, k: nat)
    requires Run(states, steps) && k < |states| && !states[k].clash
    ensures Good(states[k]) && Hearsay(states[k])
  {
    if k == 0 {
      InitIsGood(states[0]);
    } else {
      StepOfRun(states, steps, k - 1);
      ClashIsRemembered(states[k - 1], steps[k - 1], states[k]);
      RunIsGood(states, steps, k - 1);
      StepKeepsGood(states[k - 1], steps[k - 1], states[k]);
      StepKeepsHearsay(states[k - 1], steps[k - 1], states[k]);
    }
  }

  /** Rotation agreement, in every state of every run with losses, reconnects, lost
      saves, misread frames and server crashes at any point: what the token in the
      file is worth. */
  lemma SavedTokenResumes(states: seq<World>, steps: seq<Step>, k: nat, address: Address, link: ClientLink,
                          sequence: u64, now: nat)
    requires Run(states, steps) && k < |states| && !states[k].clash
    requires states[k].c.saved.Some? && states[k].c.saved.value.id in states[k].table
    ensures var w := states[k];
            var id, n := w.c.saved.value.id, w.c.saved.value.nonce;
            && id in w.home && (w.misread <==> n in w.heard)
            && (w.table[id].Accepts(n) <==> !w.misread && w.lag <= 1)
            && (!w.lost && !w.misread ==> w.lag == 0)
            && Resume(w.table, id, n, address, link, sequence, now).1
               == if !w.misread && w.lag <= 1 then Some(w.home[id]) else None
  {
    RunIsGood(states, steps, k);
    AcceptedIffLagAtMostOne(states[k]);
  }

  // -------------------------------------------------------------- mending the file

  /** File and memory hold nothing from a misread frame. */
  predicate Mended(w: World)
  {
    !w.misread && w.c.seen == w.shown
  }

  /** A Rekey frame is taken and its token saved. */
  predicate Mends(w: World, step: Step)
  {
    step.ClientRead? && step.saveOk && w.down != [] && TakesToken(w.c, w.down[0]) && !Misreads(w.c, w.down[0])
  }

  lemma StaysMended(w: World, step: Step, r: World)
    requires Mended(w) && Next(w, step, r) && !MisreadStep(w, step)
    ensures Mended(r)
  {
    match step
    case ClientRead(saveOk, forgetOk) =>
      if TakesToken(w.c, w.down[0]) {
        TakenRead(w, saveOk, forgetOk, r);
      } else {
        UntakenRead(w, saveOk, forgetOk, r);
      }
    case LateSave =>
    case _ => OthersBystand(w, step, r);
  }

  /** Nothing is misread at the steps from `i` up to `k`. */
  ghost predicate NoneMisread(states: seq<World>, steps: seq<Step>, i: nat, k: nat)
    requires k <= |steps| < |states|
  {
    forall j :: i <= j < k ==> !MisreadStep(states[j], steps[j])
  }

  lemma {:induction false} MendedUntilNextMisread(states: seq<World>, steps: seq<Step>, i: nat, k: nat)
    requires Run(states, steps) && i <= k < |states| && Mended(states[i]) && NoneMisread(states, steps, i, k)
    ensures Mended(states[k])
    decreases k
  {
    if i < k {
      MendedUntilNextMisread(states, steps, i, k - 1);
      StepOfRun(states, steps, k - 1);
      StaysMended(states[k - 1], steps[k - 1], states[k]);
    }
  }

  /** Whatever was misread before, the next Rekey frame whose token is saved puts the
      file right, until another frame is misread. */
  lemma NextSavedTokenMends(states: seq<World>, steps: seq<Step>, i: nat, k: nat, address: Address, link: ClientLink,
                            sequence: u64, now: nat)
    requires Run(states, steps) && i < k < |states| && Mends(states[i], steps[i]) && !states[k].clash
    requires NoneMisread(states, steps, i + 1, k)
    requires states[k].c.saved.Some? && states[k].c.saved.value.id in states[k].table
    ensures var w := states[k];
            var id, n := w.c.saved.value.id, w.c.saved.value.nonce;
            && id in w.home && (w.table[id].Accepts(n) <==> w.lag <= 1)
            && Resume(w.table, id, n, address, link, sequence, now).1 == if w.lag <= 1 then Some(w.home[id]) else None
  {
    StepOfRun(states, steps, i);
    TakingReadIs(states[i], steps[i].saveOk, steps[i].forgetOk);
    MendedUntilNextMisread(states, steps, i + 1, k);
    SavedTokenResumes(states, steps, k, address, link, sequence, now);
  }

  /** A client that looks at the frame type never misreads. */
  lemma {:induction false} StrictNeverMisreads(states: seq<World>, steps: seq<Step>, k: nat)
    requires Run(states, steps) && k < |states| && states[0].c.strict
    ensures states[k].c.strict && Mended(states[k]) && !states[k].clash
  {
    if k > 0 {
      StrictNeverMisreads(states, steps, k - 1);
      StepOfRun(states, steps, k - 1);
      StrictStays(states[k - 1], steps[k - 1], states[k]);
      StaysMended(states[k - 1], steps[k - 1], states[k]);
      ClashIsRemembered(states[k - 1], steps[k - 1], states[k]);
    }
  }

  lemma StrictStays(w: World, step: Step, r: World)
    requires Next(w, step, r)
    ensures r.c.strict == w.c.strict && (w.c.strict ==> !MisreadStep(w, step))
  {
    match step
    case ClientRead(saveOk, forgetOk) => ReadCounts(w, saveOk, forgetOk);
    case LateSave =>
    case _ => OthersBystand(w, step, r);
  }
}
