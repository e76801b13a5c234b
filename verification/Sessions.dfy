/** The session table of the server as a value: one session, the table keyed by
    session id, and what each request does to it. The class in
    SessionManager.dfy is proved against these definitions. */
module Sessions {
  import opened Bytes

  const SESSION_ID_SIZE := 16
  const NONCE_SIZE := 32
  const REKEY_AFTER: nat := 3_600_000
  const SEQUENCE_REORDER_WINDOW: nat := 1024
  const UNLIMITED_DEVICES: byte := 255

  type SessionId = s: seq<byte> | |s| == SESSION_ID_SIZE witness Zeros(16)
  type ClientId = s: seq<byte> | |s| == 16 witness Zeros(16)
  type TokenId = s: seq<byte> | |s| == 16 witness Zeros(16)
  type Nonce = s: seq<byte> | |s| == NONCE_SIZE witness Zeros(32)
  type Ipv4 = s: seq<byte> | |s| == 4 witness Zeros(4)

  datatype Address = Address(ip: nat, port: nat)

  const UNSPECIFIED := Address(0, 0)

  datatype ClientLink = Quic(stableId: nat) | Stream(streamId: nat) | Detached

  /** Which connections are still open is for the network to say; a detached
      link never is. */
  predicate IsLive(open: set<ClientLink>, link: ClientLink)
  {
    !link.Detached? && link in open
  }

  datatype Plan = Basic | Pro | Unlimited

  datatype Claims = Claims(clientId: ClientId, tokenId: TokenId, expiresAt: u64,
                           plan: Plan, deviceLimit: byte, maxMbps: u32)

  /** Times are milliseconds of one clock. */
  datatype Session = Session(
    id: SessionId,
    ipv4: Ipv4,
    clientAddress: Address,
    link: ClientLink,
    capabilities: u32,
    lastSequence: u64,
    lastActivity: nat,
    lastRekey: nat,
    clientNonce: Nonce,
    serverNonce: Nonce,
    prevNonce: Option<Nonce>,
    pendingNonce: Option<Nonce>,
    claims: Claims)
  {
    /** The resume tokens the server would take. */
    predicate Accepts(token: Nonce)
    {
      serverNonce == token || prevNonce == Some(token) || pendingNonce == Some(token)
    }

    /** The pending nonce becomes current and the current one previous. */
    function Commit(): (s: Session)
      requires pendingNonce.Some?
      ensures s.Accepts(serverNonce) && s.Accepts(pendingNonce.value)
      ensures forall token: Nonce | s.Accepts(token) :: Accepts(token)
    {
      this.(prevNonce := Some(serverNonce), serverNonce := pendingNonce.value, pendingNonce := None)
    }
  }

  type Table = map<SessionId, Session>

  // ---------------------------------------------------------------- sequences

  function Max(a: int, b: int): (m: int)
  {
    if a < b then b else a
  }

  /** `fetch_max` answered `seen`; the frame may be this late and no later. */
  predicate InWindow(seen: u64, incoming: u64)
  {
    incoming >= seen || seen - incoming < SEQUENCE_REORDER_WINDOW
  }

  /** The same sessions under the same ids and addresses. */
  ghost predicate SamePlaces(t: Table, r: Table)
  {
    r.Keys == t.Keys && forall id :: id in t ==> r[id].id == t[id].id && r[id].ipv4 == t[id].ipv4
  }

  // ------------------------------------------------------------------ requests

  /** What a resume does to a session whose token matched. A pending token wins
      over the others; a previous token moves nothing. */
  function Rotated(s: Session, token: Nonce): (r: Session)
    requires s.Accepts(token)
    ensures r.Accepts(token) && r.ipv4 == s.ipv4 && r.id == s.id
  {
    if s.pendingNonce == Some(token) then
      s.Commit()
    else if s.serverNonce == token then
      s.(prevNonce := None, pendingNonce := None)
    else
      s
  }

  function Resume(t: Table, id: SessionId, token: Nonce, address: Address, link: ClientLink,
                  sequence: u64, now: nat): (r: (Table, Option<Ipv4>))
    ensures r.1.Some? <==> id in t && t[id].Accepts(token)
    ensures r.1.Some? ==> r.1.value == t[id].ipv4
    ensures r.1.None? ==> r.0 == t
    ensures SamePlaces(t, r.0)
  {
    if id in t && t[id].Accepts(token) then
      var s := Rotated(t[id], token).(clientAddress := address, link := link,
                                      lastSequence := sequence, lastActivity := now);
      (t[id := s], Some(s.ipv4))
    else
      (t, None)
  }

  predicate Reaches(t: Table, id: SessionId, address: Address)
  {
    id in t && t[id].clientAddress == address
  }

  function RekeyOffer(t: Table, id: SessionId, address: Address, draw: Nonce): (r: (Table, Option<Nonce>))
    ensures SamePlaces(t, r.0)
  {
    if !Reaches(t, id, address) then
      (t, None)
    else if t[id].pendingNonce.None? then
      (t[id := t[id].(pendingNonce := Some(draw))], Some(draw))
    else
      (t, t[id].pendingNonce)
  }

  function RekeyConfirm(t: Table, id: SessionId, nonce: Nonce, address: Address, now: nat)
    : (r: (Table, Option<Nonce>))
    ensures SamePlaces(t, r.0)
  {
    if Reaches(t, id, address) && t[id].pendingNonce == Some(nonce) then
      (t[id := t[id].Commit().(lastRekey := now)], Some(nonce))
    else
      (t, None)
  }

  datatype Touch = Ignored | Touched(offer: Option<Nonce>)

  /** A ping. The sequence is recorded even when the ping is too old to count. */
  function TouchSession(t: Table, id: SessionId, address: Address, sequence: u64, now: nat, draw: Nonce)
    : (r: (Table, Touch))
    ensures SamePlaces(t, r.0)
  {
    if !Reaches(t, id, address) then
      (t, Ignored)
    else
      var seen := t[id].lastSequence;
      var s := t[id].(lastSequence := Max(seen, sequence));
      if !InWindow(seen, sequence) then
        (t[id := s], Ignored)
      else
        var s := s.(lastActivity := now);
        if s.pendingNonce.None? && now - s.lastRekey >= REKEY_AFTER then
          (t[id := s.(pendingNonce := Some(draw))], Touched(Some(draw)))
        else
          (t[id := s], Touched(s.pendingNonce))
  }

  function DetachAll(t: Table, link: ClientLink): (r: Table)
    ensures SamePlaces(t, r)
  {
    map id | id in t :: if t[id].link == link then t[id].(link := Detached) else t[id]
  }

  // ------------------------------------------------------------------ eviction

  ghost function OfClient(t: Table, client: ClientId): (ids: set<SessionId>)
  {
    set id | id in t && t[id].claims.clientId == client
  }

  /** How many sessions of the client must go before one more fits. */
  function Excess(count: nat, limit: byte): (n: nat)
  {
    if limit == UNLIMITED_DEVICES then 0 else Max(0, count - Max(limit, 1) + 1)
  }

  /** Detached sessions go first, and among equals the one idle for longest. */
  predicate Before(open: set<ClientLink>, a: Session, b: Session)
  {
    var la, lb := IsLive(open, a.link), IsLive(open, b.link);
    (!la && lb) || (la == lb && a.lastActivity < b.lastActivity)
  }

  /** `r` is `t` after the client's device limit was enforced. */
  ghost predicate Evicts(t: Table, r: Table, open: set<ClientLink>, client: ClientId, limit: byte)
  {
    var kicked := t.Keys - r.Keys;
    && r.Keys <= t.Keys
    && (forall id :: id in r ==> r[id] == t[id])
    && kicked <= OfClient(t, client)
    && |kicked| == Excess(|OfClient(t, client)|, limit)
    && forall k, s :: k in kicked && s in OfClient(r, client) ==> !Before(open, r[s], t[k])
  }

  // ----------------------------------------------------------------- addresses

  const FIRST_HOST := 2
  const LAST_HOST := 254

  predicate PoolAddress(a: Ipv4)
  {
    a[0] == 10 && a[1] == 77 && a[2] == 0 && FIRST_HOST <= a[3] <= LAST_HOST
  }

  function HostAddress(host: byte): (a: Ipv4)
    ensures a[3] == host
    ensures FIRST_HOST <= host <= LAST_HOST ==> PoolAddress(a)
  {
    [10, 77, 0, host]
  }

  ghost predicate TableInv(t: Table)
  {
    && (forall id :: id in t ==> t[id].id == id && PoolAddress(t[id].ipv4))
    && (forall a, b :: a in t && b in t && t[a].ipv4 == t[b].ipv4 ==> a == b)
  }

  /** All addresses are of the pool and no two are the same. */
  ghost predicate GoodAddresses(t: Table)
  {
    && (forall id :: id in t ==> PoolAddress(t[id].ipv4))
    && (forall a, b :: a in t && b in t && a != b ==> t[a].ipv4 != t[b].ipv4)
  }

  ghost predicate HostTaken(t: Table, host: int)
  {
    exists id :: id in t && t[id].ipv4[3] == host
  }

  /** `allocate_ipv4` answered `r`: the lowest host nobody holds. */
  ghost predicate Allocates(t: Table, r: Option<Ipv4>)
  {
    match r
    case None => forall h :: FIRST_HOST <= h <= LAST_HOST ==> HostTaken(t, h)
    case Some(a) =>
      PoolAddress(a) && !HostTaken(t, a[3]) && forall h :: FIRST_HOST <= h < a[3] ==> HostTaken(t, h)
  }

  function NewSession(id: SessionId, ipv4: Ipv4, address: Address, link: ClientLink, capabilities: u32,
                      clientNonce: Nonce, serverNonce: Nonce, sequence: u64, claims: Claims, now: nat)
    : (s: Session)
  {
    Session(id, ipv4, address, link, capabilities, sequence, now, now, clientNonce, serverNonce,
            None, None, claims)
  }

  /** `create_session` took `t` to `r`: eviction left `mid`, and then either `s`
      was inserted at the lowest free address or no address was left. */
  ghost predicate Creates(t: Table, mid: Table, r: Table, open: set<ClientLink>, s: Session,
                          answer: Option<Ipv4>)
  {
    && Evicts(t, mid, open, s.claims.clientId, s.claims.deviceLimit)
    && Allocates(mid, answer)
    && (answer.None? ==> r == mid)
    && (answer.Some? ==> s.ipv4 == answer.value && s.prevNonce.None? && s.pendingNonce.None?
                         && r == mid[s.id := s])
  }

  // ------------------------------------------------------------------ the table in time

  /** A request of any client, or a housekeeping pass. */
  datatype Event =
    | Create(mid: Table, open: set<ClientLink>, s: Session, answer: Option<Ipv4>)
    | ResumeEvent(id: SessionId, token: Nonce, address: Address, link: ClientLink, sequence: u64, now: nat)
    | Offer(id: SessionId, address: Address, draw: Nonce)
    | Confirm(id: SessionId, nonce: Nonce, address: Address, now: nat)
    | Ping(id: SessionId, address: Address, sequence: u64, now: nat, draw: Nonce)
    | Detach(link: ClientLink)
    | Remove(gone: set<SessionId>)

  ghost predicate TableNext(t: Table, e: Event, r: Table)
  {
    match e
    case Create(mid, open, s, answer) => Creates(t, mid, r, open, s, answer)
    case ResumeEvent(id, token, address, link, sequence, now) =>
      r == Resume(t, id, token, address, link, sequence, now).0
    case Offer(id, address, draw) => r == RekeyOffer(t, id, address, draw).0
    case Confirm(id, nonce, address, now) => r == RekeyConfirm(t, id, nonce, address, now).0
    case Ping(id, address, sequence, now, draw) => r == TouchSession(t, id, address, sequence, now, draw).0
    case Detach(link) => r == DetachAll(t, link)
    case Remove(gone) => r == t - gone
  }

  lemma SamePlacesKeepsInv(t: Table, r: Table)
    requires TableInv(t) && SamePlaces(t, r)
    ensures TableInv(r)
  {
  }

  lemma SubtableKeepsInv(t: Table, r: Table)
    requires TableInv(t) && r.Keys <= t.Keys && forall id :: id in r ==> r[id] == t[id]
    ensures TableInv(r)
  {
  }

  lemma InsertKeepsInv(t: Table, s: Session)
    requires TableInv(t) && PoolAddress(s.ipv4) && !HostTaken(t, s.ipv4[3])
    ensures TableInv(t[s.id := s])
  {
    var r := t[s.id := s];
    forall a, b | a in r && b in r && r[a].ipv4 == r[b].ipv4
      ensures a == b
    {
      assert a == s.id || (a in t && t[a].ipv4[3] != s.ipv4[3]);
      assert b == s.id || (b in t && t[b].ipv4[3] != s.ipv4[3]);
    }
  }

  lemma CreatesKeepsInv(t: Table, mid: Table, r: Table, open: set<ClientLink>, s: Session,
                        answer: Option<Ipv4>)
    requires TableInv(t) && Creates(t, mid, r, open, s, answer)
    ensures TableInv(r)
  {
    SubtableKeepsInv(t, mid);
    if answer.Some? {
      InsertKeepsInv(mid, s);
    }
  }

  /** Whatever the clients do, every session stays under its own id and no two
      share an address of the pool. */
  lemma NextKeepsInv(t: Table, e: Event, r: Table)
    requires TableInv(t) && TableNext(t, e, r)
    ensures TableInv(r)
  {
    match e
    case Create(mid, open, s, answer) => CreatesKeepsInv(t, mid, r, open, s, answer);
    case Remove(gone) => SubtableKeepsInv(t, r);
    case _ => SamePlacesKeepsInv(t, r);
  }
}
