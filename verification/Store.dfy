/** The binary session store: nine bytes of header and one 206-byte record per
    session, in whatever order the hash map is walked. */
module Store {
  import opened Bytes
  import opened Sessions

  const STORE_MAGIC: seq<byte> := [0x50, 0x41, 0x59, 0x53]
  const STORE_VERSION: byte := 1
  const RECORD_SIZE := 206

  datatype StoreError = TooShort | BadMagic | BadVersion | Truncated | BadPlan

  // -------------------------------------------------------------- fixed fields

  /** The widths of a record's fields, in order. */
  const WIDTHS: seq<nat> := [16, 4, 4, 8, 32, 32, 32, 32, 16, 16, 8, 1, 1, 4]

  /** The total width of the fields from the i-th on. */
  function Rest(widths: seq<nat>, i: nat): (n: nat)
    requires i <= |widths|
    decreases |widths| - i
  {
    if i == |widths| then 0 else widths[i] + Rest(widths, i + 1)
  }

  /** A cursor that takes the fields from the i-th on off the front one by one. */
  function Fields(b: seq<byte>, widths: seq<nat>, i: nat): (f: seq<seq<byte>>)
    requires i <= |widths| && |b| == Rest(widths, i)
    ensures |f| == |widths| - i && forall k :: 0 <= k < |f| ==> |f[k]| == widths[i + k]
    decreases |widths| - i
  {
    if i == |widths| then [] else [b[..widths[i]]] + Fields(b[widths[i]..], widths, i + 1)
  }

  lemma {:induction false} FieldsOfConcat(pieces: seq<seq<byte>>, widths: seq<nat>, i: nat)
    requires i <= |widths| && |pieces| == |widths| - i
    requires forall k :: 0 <= k < |pieces| ==> |pieces[k]| == widths[i + k]
    ensures |Concat(pieces)| == Rest(widths, i) && Fields(Concat(pieces), widths, i) == pieces
    decreases |widths| - i
  {
    if i < |widths| {
      FieldsOfConcat(pieces[1..], widths, i + 1);
      assert Concat(pieces)[..widths[i]] == pieces[0];
      assert Concat(pieces)[widths[i]..] == Concat(pieces[1..]);
    }
  }

  lemma WidthsSum()
    ensures Rest(WIDTHS, 0) == RECORD_SIZE
  {
    assert Rest(WIDTHS, 12) == 5;
    assert Rest(WIDTHS, 10) == 14;
    assert Rest(WIDTHS, 8) == 46;
    assert Rest(WIDTHS, 6) == 110;
    assert Rest(WIDTHS, 4) == 174;
    assert Rest(WIDTHS, 2) == 186;
  }

  // ------------------------------------------------------------------- records

  function OptionalNonceBytes(nonce: Option<Nonce>): (b: seq<byte>)
    ensures |b| == NONCE_SIZE
  {
    if nonce.Some? then nonce.value else Zeros(NONCE_SIZE)
  }

  function NonceFromBytes(b: seq<byte>): (nonce: Option<Nonce>)
    requires |b| == NONCE_SIZE
  {
    if b == Zeros(NONCE_SIZE) then None else Some(b)
  }

  function PlanByte(plan: Plan): (b: byte)
  {
    match plan case Basic => 1 case Pro => 2 case Unlimited => 3
  }

  function PlanFromByte(b: byte): (plan: Option<Plan>)
  {
    if b == 1 then Some(Basic) else if b == 2 then Some(Pro) else if b == 3 then Some(Unlimited) else None
  }

  function RecordFields(s: Session): (f: seq<seq<byte>>)
  {
    [s.id, s.ipv4, Put(s.capabilities, 4), Put(s.lastSequence, 8), s.clientNonce, s.serverNonce,
     OptionalNonceBytes(s.prevNonce), OptionalNonceBytes(s.pendingNonce), s.claims.clientId,
     s.claims.tokenId, Put(s.claims.expiresAt, 8), [PlanByte(s.claims.plan)], [s.claims.deviceLimit],
     Put(s.claims.maxMbps, 4)]
  }

  lemma RecordWidths(s: Session)
    ensures |RecordFields(s)| == |WIDTHS|
    ensures forall k :: 0 <= k < |WIDTHS| ==> |RecordFields(s)[k]| == WIDTHS[k]
  {
  }

  lemma RecordIsFields(s: Session)
    ensures |Concat(RecordFields(s))| == RECORD_SIZE == Rest(WIDTHS, 0)
    ensures Fields(Concat(RecordFields(s)), WIDTHS, 0) == RecordFields(s)
  {
    WidthsSum();
    RecordWidths(s);
    FieldsOfConcat(RecordFields(s), WIDTHS, 0);
  }

  function EncodeRecord(s: Session): (b: seq<byte>)
    ensures |b| == RECORD_SIZE
  {
    RecordIsFields(s);
    Concat(RecordFields(s))
  }

  function Get4(b: seq<byte>): (n: u32)
    requires |b| == 4
  {
    GetBound(b);
    Pow256Values();
    Get(b)
  }

  function Get8(b: seq<byte>): (n: u64)
    requires |b| == 8
  {
    GetBound(b);
    Pow256Values();
    Get(b)
  }

  function DecodeRecord(b: seq<byte>, now: nat): (r: Result<Session, StoreError>)
    requires |b| == RECORD_SIZE
  {
    WidthsSum();
    SessionOfFields(Fields(b, WIDTHS, 0), now)
  }

  function SessionOfFields(f: seq<seq<byte>>, now: nat): (r: Result<Session, StoreError>)
    requires |f| == |WIDTHS| && forall i :: 0 <= i < |f| ==> |f[i]| == WIDTHS[i]
  {
    var plan := PlanFromByte(f[11][0]);
    if plan.None? then
      Err(BadPlan)
    else
      Ok(Session(f[0], f[1], UNSPECIFIED, Detached, Get4(f[2]), Get8(f[3]), now, now, f[4], f[5],
                 NonceFromBytes(f[6]), NonceFromBytes(f[7]),
                 Claims(f[8], f[9], Get8(f[10]), plan.value, f[12][0], Get4(f[13]))))
  }

  /** The all-zero nonce is the store's word for "none". */
  predicate Storable(s: Session)
  {
    s.prevNonce != Some(Zeros(NONCE_SIZE)) && s.pendingNonce != Some(Zeros(NONCE_SIZE))
  }

  /** A session after a restart: everything it is, minus the connection. */
  function Restored(s: Session, now: nat): (r: Session)
  {
    s.(clientAddress := UNSPECIFIED, link := Detached, lastActivity := now, lastRekey := now)
  }

  function Reread(nonce: Option<Nonce>): (r: Option<Nonce>)
    ensures r == nonce <==> nonce != Some(Zeros(NONCE_SIZE))
  {
    NonceFromBytes(OptionalNonceBytes(nonce))
  }

  /** What a record says of a session once it has been read back. */
  function Reloaded(s: Session, now: nat): (r: Session)
    ensures r == Restored(s, now) <==> Storable(s)
  {
    Restored(s, now).(prevNonce := Reread(s.prevNonce), pendingNonce := Reread(s.pendingNonce))
  }

  lemma RecordRoundTrip(s: Session, now: nat)
    ensures DecodeRecord(EncodeRecord(s), now) == Ok(Reloaded(s, now))
  {
    RecordIsFields(s);
    FieldsRead(s, now);
  }

  lemma FieldsRead(s: Session, now: nat)
    ensures |RecordFields(s)| == |WIDTHS|
    ensures forall k :: 0 <= k < |WIDTHS| ==> |RecordFields(s)[k]| == WIDTHS[k]
    ensures SessionOfFields(RecordFields(s), now) == Ok(Reloaded(s, now))
  {
    RecordWidths(s);
    Pow256Values();
    GetPut(s.capabilities, 4);
    GetPut(s.claims.maxMbps, 4);
    GetPut(s.lastSequence, 8);
    GetPut(s.claims.expiresAt, 8);
    assert Get4(Put(s.capabilities, 4)) == s.capabilities && Get4(Put(s.claims.maxMbps, 4)) == s.claims.maxMbps;
    assert Get8(Put(s.lastSequence, 8)) == s.lastSequence && Get8(Put(s.claims.expiresAt, 8)) == s.claims.expiresAt;
  }

  // --------------------------------------------------------------- whole store

  /** The order in which the hash map happens to be walked. */
  ghost predicate Walks(order: seq<SessionId>, t: Table)
  {
    && (forall i :: 0 <= i < |order| ==> order[i] in t)
    && (forall i, j :: 0 <= i < j < |order| ==> order[i] != order[j])
    && (forall id :: id in t ==> id in order)
  }

  function Records(t: Table, order: seq<SessionId>): (b: seq<byte>)
    requires forall i :: 0 <= i < |order| ==> order[i] in t
    ensures |b| == |order| * RECORD_SIZE
  {
    if order == [] then [] else EncodeRecord(t[order[0]]) + Records(t, order[1..])
  }

  function Header(count: nat): (b: seq<byte>)
    ensures |b| == 9
  {
    STORE_MAGIC + [STORE_VERSION] + Put(count, 4)
  }

  function EncodeStore(t: Table, order: seq<SessionId>): (b: seq<byte>)
    requires forall i :: 0 <= i < |order| ==> order[i] in t
  {
    Header(|order|) + Records(t, order)
  }

  type Record = r: seq<byte> | |r| == RECORD_SIZE witness Zeros(RECORD_SIZE)

  function RecordsOf(b: seq<byte>): (records: seq<Record>)
  {
    if |b| < RECORD_SIZE then [] else [b[..RECORD_SIZE]] + RecordsOf(b[RECORD_SIZE..])
  }

  /** The first two fields of a record. */
  function IdIn(r: Record): (id: SessionId)
  {
    r[..SESSION_ID_SIZE]
  }

  function AddressIn(r: Record): (a: Ipv4)
  {
    r[SESSION_ID_SIZE..SESSION_ID_SIZE + 4]
  }

  /** No record behind the `k`-th is for the same session. */
  ghost predicate Latest(records: seq<Record>, k: int)
  {
    0 <= k < |records| && forall j :: k < j < |records| ==> IdIn(records[j]) != IdIn(records[k])
  }

  /** The table `t` is what the records make of `acc`. */
  ghost predicate Made(t: Table, records: seq<Record>, acc: Table)
  {
    && (forall k :: Latest(records, k) ==> IdIn(records[k]) in t && t[IdIn(records[k])].ipv4 == AddressIn(records[k]))
    && (forall id :: id in acc && Absent(records, id) ==> id in t && t[id].ipv4 == acc[id].ipv4)
    && (forall id :: id in t && Absent(records, id) ==> id in acc)
  }

  ghost predicate Absent(records: seq<Record>, id: SessionId)
  {
    forall k :: 0 <= k < |records| ==> IdIn(records[k]) != id
  }

  lemma LaterLatest(first: Record, later: seq<Record>, k: int)
    requires Latest([first] + later, k)
    ensures if k == 0 then Absent(later, IdIn(first)) else Latest(later, k - 1) && ([first] + later)[k] == later[k - 1]
  {
    var all := [first] + later;
    forall j | 0 <= j < |later| && j > k - 1
      ensures IdIn(later[j]) != IdIn(all[k])
    {
      assert all[j + 1] == later[j];
    }
  }

  lemma LaterAbsent(first: Record, later: seq<Record>, id: SessionId)
    ensures Absent([first] + later, id) <==> IdIn(first) != id && Absent(later, id)
  {
    var all := [first] + later;
    if Absent(all, id) {
      assert all[0] == first;
      forall j | 0 <= j < |later|
        ensures IdIn(later[j]) != id
      {
        assert all[j + 1] == later[j];
      }
    }
  }

  lemma MadeByOneMore(t: Table, first: Record, later: seq<Record>, acc: Table, s: Session)
    requires Made(t, later, acc[s.id := s]) && s.id == IdIn(first) && s.ipv4 == AddressIn(first)
    ensures Made(t, [first] + later, acc)
  {
    var all := [first] + later;
    forall k | Latest(all, k)
      ensures IdIn(all[k]) in t && t[IdIn(all[k])].ipv4 == AddressIn(all[k])
    {
      LaterLatest(first, later, k);
    }
    forall id | Absent(all, id)
      ensures Absent(later, id) && id != s.id
    {
      LaterAbsent(first, later, id);
    }
  }

  lemma RecordHead(r: Record, now: nat)
    ensures var s := DecodeRecord(r, now); s.Ok? ==> s.value.id == IdIn(r) && s.value.ipv4 == AddressIn(r)
  {
    WidthsSum();
    assert Fields(r, WIDTHS, 0)[0] == r[..WIDTHS[0]];
    assert Fields(r, WIDTHS, 0)[1] == Fields(r[WIDTHS[0]..], WIDTHS, 1)[0] == r[WIDTHS[0]..][..WIDTHS[1]];
  }

  /** Reads `count` records off the front; a later record with an id already
      seen replaces the earlier one. */
  function DecodeRecords(b: seq<byte>, count: nat, acc: Table, now: nat): (r: Result<Table, StoreError>)
    requires |b| == count * RECORD_SIZE
    ensures r.Ok? && UnderOwnIds(acc) ==> UnderOwnIds(r.value)
    ensures r.Ok? ==> Made(r.value, RecordsOf(b), acc)
    decreases count
  {
    if count == 0 then
      Ok(acc)
    else
      var s := DecodeRecord(b[..RECORD_SIZE], now);
      RecordHead(b[..RECORD_SIZE], now);
      if s.Err? then Err(s.error)
      else
        var r := DecodeRecords(b[RECORD_SIZE..], count - 1, acc[s.value.id := s.value], now);
        assert r.Ok? ==> Made(r.value, RecordsOf(b), acc) by {
          if r.Ok? {
            MadeByOneMore(r.value, b[..RECORD_SIZE], RecordsOf(b[RECORD_SIZE..]), acc, s.value);
          }
        }
        r
  }

  function DecodeStore(b: seq<byte>, now: nat): (r: Result<Table, StoreError>)
  {
    if |b| < 9 then Err(TooShort)
    else if b[..4] != STORE_MAGIC then Err(BadMagic)
    else if b[4] != STORE_VERSION then Err(BadVersion)
    else if |b| - 9 != Get(b[5..9]) * RECORD_SIZE then Err(Truncated)
    else DecodeRecords(b[9..], Get(b[5..9]), map[], now)
  }

  lemma {:induction false} FieldAt(b: seq<byte>, widths: seq<nat>, i: nat, k: nat)
    requires i <= k < |widths| && |b| == Rest(widths, i)
    ensures Rest(widths, k) <= Rest(widths, i) && widths[k] <= Rest(widths, k)
    ensures Fields(b, widths, i)[k - i] == b[Rest(widths, i) - Rest(widths, k)..][..widths[k]]
    decreases k - i
  {
    if i < k {
      var rest := b[widths[i]..];
      FieldAt(rest, widths, i + 1, k);
      assert rest[Rest(widths, i + 1) - Rest(widths, k)..] == b[Rest(widths, i) - Rest(widths, k)..];
    }
  }

  lemma PlanField(r: Record)
    ensures |r| == Rest(WIDTHS, 0) && Fields(r, WIDTHS, 0)[11] == [r[200]]
  {
    WidthsSum();
    PlanPlace();
    FieldFrom(r, WIDTHS, 11, 200);
  }

  lemma FieldFrom(b: seq<byte>, widths: seq<nat>, k: nat, at: nat)
    requires k < |widths| && |b| == Rest(widths, 0) == at + Rest(widths, k) && widths[k] == 1 && at < |b|
    ensures Fields(b, widths, 0)[k] == [b[at]]
  {
    FieldAt(b, widths, 0, k);
    assert b[at..][..1] == [b[at]];
  }

  lemma PlanPlace()
    ensures Rest(WIDTHS, 11) == 6
  {
    assert Rest(WIDTHS, 13) == 4;
  }

  lemma PlanDecides(f: seq<seq<byte>>, now: nat)
    requires |f| == |WIDTHS| && forall i :: 0 <= i < |f| ==> |f[i]| == WIDTHS[i]
    ensures SessionOfFields(f, now).Ok? <==> 1 <= f[11][0] <= 3
    ensures SessionOfFields(f, now).Err? ==> SessionOfFields(f, now).error == BadPlan
  {
  }

  /** A record is read whenever its plan is known. */
  lemma RecordDecodesIff(r: Record, now: nat)
    ensures DecodeRecord(r, now).Ok? <==> 1 <= r[200] <= 3
    ensures DecodeRecord(r, now).Err? ==> DecodeRecord(r, now).error == BadPlan
  {
    PlanField(r);
    PlanDecides(Fields(r, WIDTHS, 0), now);
  }

  predicate PlansKnown(records: seq<Record>)
  {
    forall k :: 0 <= k < |records| ==> 1 <= records[k][200] <= 3
  }

  lemma PlansKnownFirst(first: Record, later: seq<Record>)
    ensures PlansKnown([first] + later) <==> 1 <= first[200] <= 3 && PlansKnown(later)
  {
    var all := [first] + later;
    assert all[0] == first && forall k :: 0 <= k < |later| ==> all[k + 1] == later[k];
    if 1 <= first[200] <= 3 && PlansKnown(later) {
      assert forall k :: 1 <= k < |all| ==> all[k] == later[k - 1];
    }
  }

  lemma {:induction false} RecordsDecodeIff(b: seq<byte>, count: nat, acc: Table, now: nat)
    requires |b| == count * RECORD_SIZE
    ensures |RecordsOf(b)| == count
    ensures DecodeRecords(b, count, acc, now).Ok? <==> PlansKnown(RecordsOf(b))
    ensures DecodeRecords(b, count, acc, now).Err? ==> DecodeRecords(b, count, acc, now).error == BadPlan
    decreases count
  {
    if count > 0 {
      var first, rest := b[..RECORD_SIZE], b[RECORD_SIZE..];
      var s := DecodeRecord(first, now);
      RecordDecodesIff(first, now);
      PlansKnownFirst(first, RecordsOf(rest));
      RecordsDecodeIff(rest, count - 1, if s.Ok? then acc[s.value.id := s.value] else acc, now);
    }
  }

  /** The records are 206 bytes each, one behind the other. */
  lemma {:induction false} RecordAt(b: seq<byte>, k: nat)
    requires 206 * (k + 1) <= |b|
    ensures k < |RecordsOf(b)| && RecordsOf(b)[k] == b[206 * k..206 * k + 206]
  {
    if k > 0 {
      RecordAt(b[206..], k - 1);
      assert b[206..][206 * (k - 1)..206 * (k - 1) + 206] == b[206 * k..206 * k + 206];
    }
  }

  /** Which files are read, and what is wrong with the others: `PAYS`, version 1, the
      records counted and no byte more or less, and a known plan in each. */
  lemma DecodesIff(b: seq<byte>, now: nat)
    ensures var r := DecodeStore(b, now);
            && (r.Ok? <==> && |b| >= 9 && b[..4] == [0x50, 0x41, 0x59, 0x53] && b[4] == 1 && |b| == 9 + 206 * Get(b[5..9])
                           && PlansKnown(RecordsOf(b[9..])))
            && (r.Err? ==> r.error == if |b| < 9 then TooShort
                                      else if b[..4] != [0x50, 0x41, 0x59, 0x53] then BadMagic
                                      else if b[4] != 1 then BadVersion
                                      else if |b| != 9 + 206 * Get(b[5..9]) then Truncated
                                      else BadPlan)
  {
    if |b| >= 9 && |b| == 9 + 206 * Get(b[5..9]) {
      RecordsDecodeIff(b[9..], Get(b[5..9]), map[], now);
    }
  }

  ghost predicate UnderOwnIds(t: Table)
  {
    forall id :: id in t ==> t[id].id == id
  }

  /** Whatever the bytes: what decodes is stored under its own id. */
  lemma DecodedUnderOwnIds(b: seq<byte>, now: nat)
    ensures var r := DecodeStore(b, now); r.Ok? ==> UnderOwnIds(r.value)
  {
  }

  function RestoredTable(t: Table, now: nat): (r: Table)
    ensures r.Keys == t.Keys
  {
    map id | id in t :: Restored(t[id], now)
  }

  function ReloadedTable(t: Table, now: nat): (r: Table)
  {
    map id | id in t :: Reloaded(t[id], now)
  }

  function ReloadedPart(t: Table, order: seq<SessionId>, now: nat): (r: Table)
    requires forall i :: 0 <= i < |order| ==> order[i] in t
  {
    map id | id in order :: Reloaded(t[id], now)
  }

  lemma {:induction false} RecordsRoundTrip(t: Table, order: seq<SessionId>, acc: Table, now: nat)
    requires forall id :: id in t ==> t[id].id == id
    requires forall i :: 0 <= i < |order| ==> order[i] in t
    ensures DecodeRecords(Records(t, order), |order|, acc, now) == Ok(acc + ReloadedPart(t, order, now))
  {
    if order == [] {
      assert acc + ReloadedPart(t, order, now) == acc;
    } else {
      var s := t[order[0]];
      RecordRoundTrip(s, now);
      Front(EncodeRecord(s), Records(t, order[1..]));
      RecordsRoundTrip(t, order[1..], acc[s.id := Reloaded(s, now)], now);
      PartSplits(t, order, acc, now);
    }
  }

  lemma Front(a: seq<byte>, b: seq<byte>)
    ensures (a + b)[..|a|] == a && (a + b)[|a|..] == b
  {
  }

  lemma PartSplits(t: Table, order: seq<SessionId>, acc: Table, now: nat)
    requires order != [] && forall i :: 0 <= i < |order| ==> order[i] in t
    ensures acc[order[0] := Reloaded(t[order[0]], now)] + ReloadedPart(t, order[1..], now)
         == acc + ReloadedPart(t, order, now)
  {
    assert order == [order[0]] + order[1..];
  }

  /** Whatever the walk order, a restart gives back every session; its optional
      nonces come back exactly when none of them is all-zero. */
  lemma StoreRoundTrip(t: Table, order: seq<SessionId>, now: nat)
    requires forall id :: id in t ==> t[id].id == id
    requires Walks(order, t) && |order| < 0x1_0000_0000
    ensures DecodeStore(EncodeStore(t, order), now) == Ok(ReloadedTable(t, now))
    ensures DecodeStore(EncodeStore(t, order), now) == Ok(RestoredTable(t, now))
       <==> forall id :: id in t ==> Storable(t[id])
  {
    HeaderReads(|order|, Records(t, order));
    RecordsRoundTrip(t, order, map[], now);
    WalkIsWhole(t, order, now);
    StorableIsExact(t, now);
  }

  lemma WalkIsWhole(t: Table, order: seq<SessionId>, now: nat)
    requires Walks(order, t)
    ensures map[] + ReloadedPart(t, order, now) == ReloadedTable(t, now)
  {
  }

  lemma HeaderReads(count: nat, rest: seq<byte>)
    requires count < 0x1_0000_0000
    ensures var b := Header(count) + rest;
            b[..4] == STORE_MAGIC && b[4] == STORE_VERSION && Get(b[5..9]) == count && b[9..] == rest
  {
    var b := Header(count) + rest;
    Pow256Values();
    GetPut(count, 4);
    assert b[5..9] == Put(count, 4);
  }

  lemma StorableIsExact(t: Table, now: nat)
    ensures ReloadedTable(t, now) == RestoredTable(t, now) <==> forall id :: id in t ==> Storable(t[id])
  {
    if ReloadedTable(t, now) == RestoredTable(t, now) {
      forall id | id in t
        ensures Storable(t[id])
      {
        assert ReloadedTable(t, now)[id] == RestoredTable(t, now)[id];
      }
    }
  }
}
