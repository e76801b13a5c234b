/** The server's session manager: a hash map updated in place and a store file
    rewritten after every change that must survive a restart. */
module SessionManagement {
  import opened Bytes
  import opened Sessions
  import opened Store
  import TableRuns

  datatype CreateError = NoAddresses

  class SessionManager {
    var sessions: Table
    /** The contents of the store file; nothing is written without a path. */
    var disk: seq<byte>
    const hasStore: bool

    ghost predicate Valid()
      reads this`sessions
    {
      TableInv(sessions)
    }

    /** The store file holds exactly the current table. */
    ghost predicate Persisted()
      reads this`sessions, this`disk
    {
      hasStore ==> exists order :: Walks(order, sessions) && disk == EncodeStore(sessions, order)
    }

    constructor ()
      ensures Valid() && sessions == map[] && !hasStore
    {
      sessions := map[];
      disk := [];
      hasStore := false;
    }

    /** Starts from a store file; a file that does not decode is ignored. The
        manager is valid exactly when the loaded addresses are good, as they are
        in every file a valid manager wrote. */
    constructor WithStore(file: seq<byte>, now: nat)
      ensures sessions == TableRuns.Loaded(file, now) && disk == file && hasStore
      ensures Valid() <==> GoodAddresses(sessions)
      ensures TableRuns.GoodFile(file) ==> Valid()
    {
      var loaded := ReadStore(file, now);
      sessions := if loaded.Ok? then loaded.value else map[];
      disk := file;
      hasStore := true;
      DecodedUnderOwnIds(file, now);
      if TableRuns.GoodFile(file) {
        TableRuns.GoodFileIsGood(file, now);
      }
    }

    // ------------------------------------------------------------------- store

    method Persist()
      modifies this`disk
      ensures Persisted()
      ensures !hasStore ==> disk == old(disk)
    {
      if hasStore {
        var bytes, order := WriteStore();
        disk := bytes;
        assert Walks(order, sessions) && disk == EncodeStore(sessions, order);
      }
    }

    method WriteStore() returns (bytes: seq<byte>, ghost order: seq<SessionId>)
      ensures Walks(order, sessions) && bytes == EncodeStore(sessions, order)
    {
      bytes := [];
      order := [];
      var todo := sessions.Keys;
      var count := |todo|;
      while todo != {}
        invariant todo <= sessions.Keys && count == |todo| + |order|
        invariant forall i :: 0 <= i < |order| ==> order[i] in sessions && order[i] !in todo
        invariant forall i, j :: 0 <= i < j < |order| ==> order[i] != order[j]
        invariant forall id :: id in sessions ==> id in todo || id in order
        invariant bytes == Records(sessions, order)
        decreases |todo|
      {
        var id :| id in todo;
        bytes := bytes + EncodeRecord(sessions[id]);
        RecordsSnoc(sessions, order, id);
        order := order + [id];
        todo := todo - {id};
      }
      bytes := Header(count) + bytes;
    }

    static method ReadStore(file: seq<byte>, now: nat) returns (r: Result<Table, StoreError>)
      ensures r == DecodeStore(file, now)
    {
      if |file| < 9 { return Err(TooShort); }
      if file[..4] != STORE_MAGIC { return Err(BadMagic); }
      if file[4] != STORE_VERSION { return Err(BadVersion); }
      var count := Get(file[5..9]);
      if |file| - 9 != count * RECORD_SIZE { return Err(Truncated); }

      r := ReadRecords(file[9..], count, now);
    }

    static method ReadRecords(records: seq<byte>, count: nat, now: nat) returns (r: Result<Table, StoreError>)
      requires |records| == count * RECORD_SIZE
      ensures r == DecodeRecords(records, count, map[], now)
    {
      var buffer := records;
      var table: Table := map[];
      for i := 0 to count
        invariant |buffer| == (count - i) * RECORD_SIZE
        invariant DecodeRecords(buffer, count - i, table, now) == DecodeRecords(records, count, map[], now)
      {
        var record := DecodeRecord(buffer[..RECORD_SIZE], now);
        if record.Err? { return Err(record.error); }
        buffer, table := buffer[RECORD_SIZE..], table[record.value.id := record.value];
      }
      r := Ok(table);
    }

    // ---------------------------------------------------------------- creation

    method CreateSession(id: SessionId, serverNonce: Nonce, address: Address, link: ClientLink,
                         capabilities: u32, clientNonce: Nonce, sequence: u64, claims: Claims,
                         now: nat, open: set<ClientLink>)
        returns (r: Result<Session, CreateError>, ghost mid: Table)
      requires Valid()
      modifies this
      ensures Valid()
      ensures r.Ok? ==>
        && Persisted()
        && id in sessions && sessions[id] == r.value
        && Creates(old(sessions), mid, sessions, open, r.value, Some(r.value.ipv4))
      ensures r.Ok? ==>
        var s := r.value;
        && s.id == id && s.clientAddress == address && s.link == link && s.capabilities == capabilities
        && s.clientNonce == clientNonce && s.serverNonce == serverNonce && s.claims == claims
        && s.lastSequence == sequence && s.lastActivity == now && s.lastRekey == now
      // The token of the reply resumes the session at its address, and no other does.
      ensures r.Ok? ==> forall token: Nonce :: sessions[id].Accepts(token) <==> token == serverNonce
      ensures r.Ok? ==> forall a, l, q, t :: Resume(sessions, id, serverNonce, a, l, q, t).1 == Some(r.value.ipv4)
      // All or nothing: without an address, nobody was evicted either.
      ensures r.Err? ==> sessions == old(sessions) && disk == old(disk) && Allocates(sessions, None)
    {
      var kicked := EnforceDeviceLimit(claims, open);
      mid := sessions;
      SubtableKeepsInv(old(sessions), mid);
      var ipv4 := AllocateIpv4();
      if ipv4.None? {
        AnyKickFreesAnAddress(old(sessions), mid, open, claims.clientId, claims.deviceLimit);
        return Err(NoAddresses), mid;
      }
      var s := NewSession(id, ipv4.value, address, link, capabilities, clientNonce, serverNonce,
                          sequence, claims, now);
      InsertKeepsInv(mid, s);
      sessions := sessions[id := s];
      Persist();
      r := Ok(s);
    }

    /** Kicks sessions of the client until one more is allowed. */
    method EnforceDeviceLimit(claims: Claims, open: set<ClientLink>) returns (kicked: seq<SessionId>)
      modifies this`sessions
      ensures Evicts(old(sessions), sessions, open, claims.clientId, claims.deviceLimit)
      ensures forall id :: id in kicked <==> id in old(sessions) && id !in sessions
    {
      kicked := [];
      ghost var before := sessions;
      var client := claims.clientId;
      if claims.deviceLimit == UNLIMITED_DEVICES {
        return;
      }
      var limit := Max(claims.deviceLimit, 1);
      var count := ClientSessionCount(client);
      while count >= limit
        invariant Thinned(before, sessions, open, client)
        invariant count == |OfClient(sessions, client)|
        invariant |before.Keys - sessions.Keys| == |OfClient(before, client)| - count
        invariant sessions != before ==> count >= limit - 1
        invariant forall id :: id in kicked <==> id in before && id !in sessions
        decreases count
      {
        ghost var prior := sessions;
        var id := KickOldest(client, open);
        assert id.Some?;
        KickThins(before, prior, sessions, open, client, id.value);
        KickCounts(before, prior, sessions, client, id.value);
        kicked := kicked + [id.value];
        count := ClientSessionCount(client);
      }
      ThinnedToLimit(before, sessions, open, client, claims.deviceLimit);
    }

    method ClientSessionCount(client: ClientId) returns (count: nat)
      ensures count == |OfClient(sessions, client)|
    {
      count := 0;
      var t := sessions;
      var todo := t.Keys;
      ghost var mine, seen := OfClient(t, client), {};
      while todo != {}
        invariant todo <= t.Keys && seen <= mine <= seen + todo && seen !! todo
        invariant count == |seen|
        decreases |todo|
      {
        var id :| id in todo;
        todo := todo - {id};
        if t[id].claims.clientId == client {
          seen := seen + {id};
          count := count + 1;
        }
      }
      assert seen == mine;
    }

    /** Removes one session of the client, if it has any, that no other of its
        sessions goes before. */
    method KickOldest(client: ClientId, open: set<ClientLink>) returns (id: Option<SessionId>)
      modifies this`sessions
      ensures id.None? ==> sessions == old(sessions) && OfClient(sessions, client) == {}
      ensures id.Some? ==>
        && id.value in OfClient(old(sessions), client)
        && sessions == old(sessions) - {id.value}
        && forall o :: o in OfClient(old(sessions), client) ==>
             !Before(open, old(sessions)[o], old(sessions)[id.value])
    {
      id := FindOldest(client, open);
      if id.Some? {
        sessions := sessions - {id.value};
      }
    }

    /** The walk of `kick_oldest` over the map. */
    method FindOldest(client: ClientId, open: set<ClientLink>) returns (id: Option<SessionId>)
      ensures id.None? ==> OfClient(sessions, client) == {}
      ensures id.Some? ==>
        && id.value in OfClient(sessions, client)
        && forall o :: o in OfClient(sessions, client) ==> !Before(open, sessions[o], sessions[id.value])
    {
      var detached: Option<SessionId> := None;
      var live: Option<SessionId> := None;
      var t := sessions;
      var todo := t.Keys;
      ghost var mine, seen := OfClient(t, client), {};
      while todo != {}
        invariant todo <= t.Keys && seen <= mine <= seen + todo
        invariant OldestOf(t, seen, open, false, detached)
        invariant OldestOf(t, seen, open, true, live)
        decreases |todo|
      {
        var o :| o in todo;
        todo := todo - {o};
        if t[o].claims.clientId == client {
          OneMore(t, seen, open, detached, live, o);
          seen := seen + {o};
          if !IsLive(open, t[o].link) {
            detached := ReplaceOlder(t, detached, o);
          } else {
            live := ReplaceOlder(t, live, o);
          }
        }
      }
      assert seen == mine;
      id := if detached.Some? then detached else live;
    }

    /** The lowest host from 2 to 254 that no session holds. */
    method AllocateIpv4() returns (r: Option<Ipv4>)
      ensures Allocates(sessions, r)
    {
      var used := new bool[256](_ => false);
      var todo := sessions.Keys;
      while todo != {}
        invariant todo <= sessions.Keys
        invariant forall h :: 0 <= h < 256 ==>
          (used[h] <==> exists id :: id in sessions.Keys - todo && sessions[id].ipv4[3] == h)
        decreases |todo|
      {
        var id :| id in todo;
        used[sessions[id].ipv4[3]] := true;
        todo := todo - {id};
      }
      for host := FIRST_HOST to LAST_HOST + 1
        invariant forall h :: FIRST_HOST <= h < host ==> HostTaken(sessions, h)
      {
        if !used[host] {
          return Some(HostAddress(host));
        }
      }
      r := None;
    }

    // ----------------------------------------------------------------- sessions

    method ResumeSession(id: SessionId, token: Nonce, address: Address, link: ClientLink,
                         sequence: u64, now: nat) returns (r: Option<Ipv4>)
      requires Valid()
      modifies this
      ensures Valid()
      ensures (sessions, r) == Resume(old(sessions), id, token, address, link, sequence, now)
      ensures r.Some? ==> Persisted()
      ensures r.None? ==> disk == old(disk)
    {
      if id !in sessions || !sessions[id].Accepts(token) {
        return None;
      }
      var s := MoveTokens(sessions[id], token);
      s := s.(clientAddress := address, link := link, lastSequence := sequence, lastActivity := now);
      sessions := sessions[id := s];
      SamePlacesKeepsInv(old(sessions), sessions);
      Persist();
      r := Some(s.ipv4);
    }

    /** What a matching token does to the three nonces. */
    static method MoveTokens(s: Session, token: Nonce) returns (r: Session)
      requires s.Accepts(token)
      ensures r == Rotated(s, token)
    {
      r := s;
      if s.pendingNonce == Some(token) {
        r := s.(prevNonce := Some(s.serverNonce), serverNonce := token, pendingNonce := None);
      } else if s.serverNonce == token {
        r := s.(prevNonce := None, pendingNonce := None);
      }
    }

    method OfferRekey(id: SessionId, address: Address, draw: Nonce) returns (r: Option<Nonce>)
      requires Valid()
      modifies this
      ensures Valid()
      ensures (sessions, r) == RekeyOffer(old(sessions), id, address, draw)
      ensures if NewOffer(old(sessions), sessions, id) then Persisted() else disk == old(disk)
    {
      if id !in sessions || sessions[id].clientAddress != address {
        return None;
      }
      var dirty := sessions[id].pendingNonce.None?;
      if dirty {
        sessions := sessions[id := sessions[id].(pendingNonce := Some(draw))];
        SamePlacesKeepsInv(old(sessions), sessions);
        Persist();
      }
      r := sessions[id].pendingNonce;
    }

    method ConfirmRekey(id: SessionId, nonce: Nonce, address: Address, now: nat) returns (r: Option<Nonce>)
      requires Valid()
      modifies this
      ensures Valid()
      ensures (sessions, r) == RekeyConfirm(old(sessions), id, nonce, address, now)
      ensures if r.Some? then Persisted() else disk == old(disk)
    {
      if id !in sessions || sessions[id].clientAddress != address {
        return None;
      }
      var s := sessions[id];
      if s.pendingNonce != Some(nonce) {
        return None;
      }
      s := s.(prevNonce := Some(s.serverNonce), serverNonce := nonce, pendingNonce := None, lastRekey := now);
      sessions := sessions[id := s];
      SamePlacesKeepsInv(old(sessions), sessions);
      Persist();
      r := Some(s.serverNonce);
    }

    method TouchPing(id: SessionId, address: Address, sequence: u64, now: nat, draw: Nonce)
        returns (r: Touch)
      requires Valid()
      modifies this
      ensures Valid()
      ensures (sessions, r) == TouchSession(old(sessions), id, address, sequence, now, draw)
      ensures if NewOffer(old(sessions), sessions, id) then Persisted() else disk == old(disk)
    {
      if id !in sessions || sessions[id].clientAddress != address {
        return Ignored;
      }
      var seen := sessions[id].lastSequence;
      var s := sessions[id].(lastSequence := Max(seen, sequence));
      if !InWindow(seen, sequence) {
        sessions := sessions[id := s];
        SamePlacesKeepsInv(old(sessions), sessions);
        return Ignored;
      }
      s := s.(lastActivity := now);
      var dirty := s.pendingNonce.None? && now - s.lastRekey >= REKEY_AFTER;
      if dirty {
        s := s.(pendingNonce := Some(draw));
      }
      sessions := sessions[id := s];
      SamePlacesKeepsInv(old(sessions), sessions);
      if dirty {
        Persist();
      }
      r := Touched(s.pendingNonce);
    }

    method RemoveSession(id: SessionId) returns (r: Option<Session>)
      requires Valid()
      modifies this
      ensures Valid()
      ensures sessions == old(sessions) - {id}
      ensures r == if id in old(sessions) then Some(old(sessions)[id]) else None
      ensures if r.Some? then Persisted() else disk == old(disk)
    {
      if id !in sessions {
        assert sessions - {id} == sessions;
        return None;
      }
      r := Some(sessions[id]);
      sessions := sessions - {id};
      SubtableKeepsInv(old(sessions), sessions);
      Persist();
    }

    /** The first session met with this address on an open link. No other order
        of walking the map could give another answer. */
    method FindByIpv4(ipv4: Ipv4, open: set<ClientLink>) returns (r: Option<Session>)
      requires Valid()
      ensures forall id :: id in sessions && sessions[id].ipv4 == ipv4 && IsLive(open, sessions[id].link)
                ==> r == Some(sessions[id])
      ensures r.Some? ==> r.value.id in sessions && sessions[r.value.id] == r.value
                          && r.value.ipv4 == ipv4 && IsLive(open, r.value.link)
    {
      var todo := sessions.Keys;
      while todo != {}
        invariant todo <= sessions.Keys
        invariant forall id :: id in sessions.Keys - todo ==>
          !(sessions[id].ipv4 == ipv4 && IsLive(open, sessions[id].link))
        decreases |todo|
      {
        var id :| id in todo;
        if sessions[id].ipv4 == ipv4 && IsLive(open, sessions[id].link) {
          return Some(sessions[id]);
        }
        todo := todo - {id};
      }
      r := None;
    }
  }

  /** The session got a pending nonce it did not have. */
  predicate NewOffer(t: Table, r: Table, id: SessionId)
  {
    id in t && id in r && t[id].pendingNonce != r[id].pendingNonce
  }

  lemma {:induction false} RecordsSnoc(t: Table, order: seq<SessionId>, id: SessionId)
    requires id in t && forall i :: 0 <= i < |order| ==> order[i] in t
    ensures Records(t, order + [id]) == Records(t, order) + EncodeRecord(t[id])
  {
    var more := order + [id];
    assert forall i :: 0 <= i < |more| ==> more[i] in t;
    if order == [] {
      assert more == [id];
      assert Records(t, more[1..]) == [];
    } else {
      RecordsSnoc(t, order[1..], id);
      assert more[1..] == order[1..] + [id];
    }
  }

  // ------------------------------------------------------------------ eviction

  /** `best` is a session of `ids`, live or not as asked, idle for longest; none
      only when there is no such session. */
  ghost predicate OldestOf(t: Table, ids: set<SessionId>, open: set<ClientLink>, live: bool,
                           best: Option<SessionId>)
    requires ids <= t.Keys
  {
    match best
    case None => forall o :: o in ids ==> IsLive(open, t[o].link) != live
    case Some(b) =>
      && b in ids && IsLive(open, t[b].link) == live
      && forall o :: o in ids && IsLive(open, t[o].link) == live ==> t[b].lastActivity <= t[o].lastActivity
  }

  function ReplaceOlder(t: Table, slot: Option<SessionId>, id: SessionId): (r: Option<SessionId>)
    requires id in t && (slot.Some? ==> slot.value in t)
  {
    if slot.Some? && t[id].lastActivity >= t[slot.value].lastActivity then slot else Some(id)
  }

  lemma OneMore(t: Table, ids: set<SessionId>, open: set<ClientLink>, detached: Option<SessionId>,
                live: Option<SessionId>, o: SessionId)
    requires ids <= t.Keys && o in t
    requires OldestOf(t, ids, open, false, detached) && OldestOf(t, ids, open, true, live)
    ensures var isLive := IsLive(open, t[o].link);
            && OldestOf(t, ids + {o}, open, isLive, ReplaceOlder(t, if isLive then live else detached, o))
            && OldestOf(t, ids + {o}, open, !isLive, if isLive then detached else live)
  {
  }

  /** Some of the client's sessions are gone, and none that stayed goes before
      one that went. */
  ghost predicate Thinned(t: Table, r: Table, open: set<ClientLink>, client: ClientId)
  {
    && r.Keys <= t.Keys
    && (forall id :: id in r ==> r[id] == t[id])
    && t.Keys - r.Keys <= OfClient(t, client)
    && forall k, s :: k in t.Keys - r.Keys && s in OfClient(r, client) ==> !Before(open, r[s], t[k])
  }

  lemma KickThins(t: Table, m: Table, r: Table, open: set<ClientLink>, client: ClientId, id: SessionId)
    requires Thinned(t, m, open, client)
    requires id in OfClient(m, client) && r == m - {id}
    requires forall o :: o in OfClient(m, client) ==> !Before(open, m[o], m[id])
    ensures Thinned(t, r, open, client)
  {
    assert t.Keys - r.Keys == (t.Keys - m.Keys) + {id};
    assert OfClient(r, client) <= OfClient(m, client);
  }

  lemma KickCounts(t: Table, m: Table, r: Table, client: ClientId, id: SessionId)
    requires m.Keys <= t.Keys && id in OfClient(m, client) && r == m - {id}
    ensures |OfClient(r, client)| == |OfClient(m, client)| - 1
    ensures |t.Keys - r.Keys| == |t.Keys - m.Keys| + 1
  {
    assert OfClient(r, client) == OfClient(m, client) - {id};
    assert t.Keys - r.Keys == (t.Keys - m.Keys) + {id};
  }

  lemma ThinnedToLimit(t: Table, r: Table, open: set<ClientLink>, client: ClientId, limit: byte)
    requires Thinned(t, r, open, client) && limit != UNLIMITED_DEVICES
    requires |t.Keys - r.Keys| == |OfClient(t, client)| - |OfClient(r, client)|
    requires |OfClient(r, client)| < Max(limit, 1)
    requires r != t ==> |OfClient(r, client)| >= Max(limit, 1) - 1
    ensures Evicts(t, r, open, client, limit)
  {
    if r.Keys == t.Keys {
      assert r == t;
    }
  }

  /** Every kicked session gave its address back, so a full pool means that
      nobody was kicked. */
  lemma AnyKickFreesAnAddress(t: Table, mid: Table, open: set<ClientLink>, client: ClientId, limit: byte)
    requires TableInv(t) && Evicts(t, mid, open, client, limit) && Allocates(mid, None)
    ensures mid == t
  {
    forall k | k in t
      ensures k in mid
    {
      var host := t[k].ipv4[3];
      assert HostTaken(mid, host);
      var o :| o in mid && mid[o].ipv4[3] == host;
      assert t[o].ipv4 == t[k].ipv4 by {
        SameHostSameAddress(t[o].ipv4, t[k].ipv4);
      }
    }
  }

  lemma SameHostSameAddress(a: Ipv4, b: Ipv4)
    requires PoolAddress(a) && PoolAddress(b) && a[3] == b[3]
    ensures a == b
  {
  }
}
