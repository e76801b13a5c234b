/** The session table over whole runs of the server: requests of any clients in
    any order, and restarts from any store file the server ever wrote. */
module TableRuns {
  import opened Bytes
  import opened Sessions
  import opened Store

  const POOL_SIZE := 253

  // ------------------------------------------------------------- pool counting

  ghost function Range(lo: int, hi: int): (r: set<int>)
    requires lo <= hi
    ensures |r| == hi - lo && forall h :: h in r <==> lo <= h < hi
    decreases hi - lo
  {
    if lo == hi then {} else Range(lo, hi - 1) + {hi - 1}
  }

  ghost function Hosts(t: Table, ids: set<SessionId>): (hosts: set<int>)
    requires ids <= t.Keys
  {
    set id | id in ids :: t[id].ipv4[3]
  }

  lemma DistinctHosts(t: Table, a: SessionId, b: SessionId)
    requires TableInv(t) && a in t && b in t
    ensures t[a].ipv4[3] == t[b].ipv4[3] ==> a == b
  {
    if t[a].ipv4[3] == t[b].ipv4[3] {
      assert t[a].ipv4 == t[b].ipv4;
    }
  }

  /** Distinct sessions hold distinct hosts. */
  lemma {:induction false} HostsCount(t: Table, ids: set<SessionId>)
    requires TableInv(t) && ids <= t.Keys
    ensures |Hosts(t, ids)| == |ids|
  {
    if ids != {} {
      var id :| id in ids;
      var rest, host := Hosts(t, ids - {id}), t[id].ipv4[3];
      HostsCount(t, ids - {id});
      assert host !in rest by {
        forall o | o in ids - {id} ensures t[o].ipv4[3] != host { DistinctHosts(t, o, id); }
      }
      assert Hosts(t, ids) == rest + {host};
    } else {
      assert Hosts(t, ids) == {};
    }
  }

  lemma SubsetSize<T>(a: set<T>, b: set<T>)
    requires a <= b
    ensures |a| <= |b| && (|a| == |b| ==> a == b)
  {
    assert b == a + (b - a);
  }

  /** At most 253 sessions fit, and allocation fails exactly when that many are there. */
  lemma PoolCapacity(t: Table)
    requires TableInv(t)
    ensures |t| <= POOL_SIZE
    ensures Allocates(t, None) <==> |t| == POOL_SIZE
  {
    var hosts, pool := Hosts(t, t.Keys), Range(FIRST_HOST, LAST_HOST + 1);
    HostsCount(t, t.Keys);
    assert |t| == |t.Keys|;
    SubsetSize(hosts, pool);
    if Allocates(t, None) {
      forall h | h in pool
        ensures h in hosts
      {
        assert HostTaken(t, h);
      }
      assert hosts == pool;
    }
    if hosts == pool {
      forall h | FIRST_HOST <= h <= LAST_HOST
        ensures HostTaken(t, h)
      {
        assert h in hosts;
      }
    }
  }

  // ---------------------------------------------------------------------- runs

  /** The table in memory and every store file ever written. */
  datatype Server = Server(table: Table, files: seq<seq<byte>>)

  datatype Step =
    | Serve(e: Event)
    | Write(order: seq<SessionId>)
    | Restart(file: nat, now: nat)

  ghost predicate Init(s: Server)
  {
    s.table == map[] && s.files == []
  }

  ghost predicate Next(s: Server, step: Step, r: Server)
  {
    match step
    case Serve(e) => TableNext(s.table, e, r.table) && r.files == s.files
    case Write(order) =>
      && r.table == s.table && Walks(order, s.table)
      && r.files == s.files + [EncodeStore(s.table, order)]
    case Restart(file, now) =>
      && file < |s.files| && r.files == s.files
      && r.table == Loaded(s.files[file], now)
  }

  /** `with_store`: a file that does not decode counts as no sessions. */
  function Loaded(file: seq<byte>, now: nat): (t: Table)
  {
    var r := DecodeStore(file, now);
    if r.Ok? then r.value else map[]
  }

  lemma SameAddresses(t: Table, r: Table)
    requires r.Keys == t.Keys && forall id :: id in t ==> r[id].ipv4 == t[id].ipv4
    ensures GoodAddresses(r) <==> GoodAddresses(t)
  {
    if GoodAddresses(r) {
      forall id | id in t
        ensures PoolAddress(t[id].ipv4)
      {
        assert PoolAddress(r[id].ipv4);
      }
      forall a, b | a in t && b in t && a != b
        ensures t[a].ipv4 != t[b].ipv4
      {
        assert r[a].ipv4 != r[b].ipv4;
      }
    }
  }

  lemma ReloadedIsGoodIff(t: Table, now: nat)
    requires UnderOwnIds(t)
    ensures TableInv(ReloadedTable(t, now)) <==> GoodAddresses(t)
  {
    var r := ReloadedTable(t, now);
    assert UnderOwnIds(r);
    SameAddresses(t, r);
  }

  /** The last records of the sessions hold distinct addresses of the pool. */
  ghost predicate GoodRecords(records: seq<Record>)
  {
    && (forall k :: Latest(records, k) ==> PoolAddress(AddressIn(records[k])))
    && (forall j, k :: Latest(records, j) && Latest(records, k) && j != k ==> AddressIn(records[j]) != AddressIn(records[k]))
  }

  lemma {:induction false} SomeLatest(records: seq<Record>, k: nat) returns (j: nat)
    requires k < |records|
    ensures k <= j && Latest(records, j) && IdIn(records[j]) == IdIn(records[k])
    decreases |records| - k
  {
    if Latest(records, k) {
      j := k;
    } else {
      var i :| k < i < |records| && IdIn(records[i]) == IdIn(records[k]);
      j := SomeLatest(records, i);
    }
  }

  /** Any file: the loaded table keeps the invariant if and only if the file is refused,
      or the last records of the sessions hold distinct addresses of the pool. */
  lemma LoadedIsGoodIff(file: seq<byte>, now: nat)
    ensures TableInv(Loaded(file, now)) <==> DecodeStore(file, now).Err? || GoodRecords(RecordsOf(file[9..]))
  {
    if DecodeStore(file, now).Ok? {
      var t, records := Loaded(file, now), RecordsOf(file[9..]);
      DecodedUnderOwnIds(file, now);
      GoodIff(t, records);
    }
  }

  lemma GoodIff(t: Table, records: seq<Record>)
    requires Made(t, records, map[])
    ensures GoodAddresses(t) <==> GoodRecords(records)
  {
    if GoodAddresses(t) {
      forall j, k | Latest(records, j) && Latest(records, k) && j != k
        ensures AddressIn(records[j]) != AddressIn(records[k])
      {
        assert IdIn(records[j]) != IdIn(records[k]);
      }
    }
    if GoodRecords(records) {
      forall id | id in t
        ensures exists k :: Latest(records, k) && IdIn(records[k]) == id
      {
        assert !Absent(records, id);
        var i :| 0 <= i < |records| && IdIn(records[i]) == id;
        var k := SomeLatest(records, i);
      }
    }
  }

  /** Any sessions under their own ids, once written and loaded, keep the invariant if and
      only if their addresses are good. */
  lemma WrittenIsGoodIff(t: Table, order: seq<SessionId>, now: nat)
    requires UnderOwnIds(t) && Walks(order, t) && |order| < 0x1_0000_0000
    ensures DecodeStore(EncodeStore(t, order), now).Ok?
    ensures TableInv(Loaded(EncodeStore(t, order), now)) <==> GoodAddresses(t)
  {
    StoreRoundTrip(t, order, now);
    ReloadedIsGoodIff(t, now);
  }

  /** So a file with one session at 0.0.0.0 loads and breaks it. */
  lemma StrangeAddressIsLoaded(s: Session, now: nat)
    requires s.ipv4 == Zeros(4)
    ensures var file := EncodeStore(map[s.id := s], [s.id]);
            DecodeStore(file, now).Ok? && !TableInv(Loaded(file, now))
  {
    var t: Table := map[s.id := s];
    WrittenIsGoodIff(t, [s.id], now);
    assert !PoolAddress(t[s.id].ipv4);
  }

  /** And so does a file in which two sessions share an address. */
  lemma SharedAddressIsLoaded(a: Session, b: Session, now: nat)
    requires a.id != b.id && a.ipv4 == b.ipv4
    ensures var file := EncodeStore(map[a.id := a, b.id := b], [a.id, b.id]);
            DecodeStore(file, now).Ok? && !TableInv(Loaded(file, now))
  {
    var t: Table := map[a.id := a, b.id := b];
    WrittenIsGoodIff(t, [a.id, b.id], now);
    assert a.id in t && b.id in t && t[a.id].ipv4 == t[b.id].ipv4;
  }

  ghost predicate GoodFile(file: seq<byte>)
  {
    exists t: Table, order ::
      TableInv(t) && Walks(order, t) && file == EncodeStore(t, order)
  }

  ghost predicate Inv(s: Server)
  {
    TableInv(s.table) && forall i :: 0 <= i < |s.files| ==> GoodFile(s.files[i])
  }

  lemma WalkLength(t: Table, order: seq<SessionId>)
    requires TableInv(t) && Walks(order, t)
    ensures |order| == |t| <= POOL_SIZE
  {
    PoolCapacity(t);
    DistinctLength(order, t.Keys);
  }

  lemma {:induction false} DistinctLength(order: seq<SessionId>, ids: set<SessionId>)
    requires forall i, j :: 0 <= i < j < |order| ==> order[i] != order[j]
    requires forall id :: id in ids <==> id in order
    ensures |ids| == |order|
  {
    if order != [] {
      var n := |order| - 1;
      assert order == order[..n] + [order[n]];
      DistinctLength(order[..n], ids - {order[n]});
    } else {
      assert ids == {};
    }
  }

  /** What a good file gives back after a restart. */
  lemma RestartsWell(t: Table, order: seq<SessionId>, now: nat)
    requires TableInv(t) && Walks(order, t)
    ensures Loaded(EncodeStore(t, order), now) == ReloadedTable(t, now)
    ensures SamePlaces(t, Loaded(EncodeStore(t, order), now))
  {
    WalkLength(t, order);
    StoreRoundTrip(t, order, now);
  }

  lemma GoodFileIsGood(file: seq<byte>, now: nat)
    requires GoodFile(file)
    ensures TableInv(Loaded(file, now))
  {
    var t: Table, order :| TableInv(t) && Walks(order, t) && file == EncodeStore(t, order);
    RestartsWell(t, order, now);
    SamePlacesKeepsInv(t, Loaded(file, now));
  }

  lemma StepKeepsInv(s: Server, step: Step, r: Server)
    requires Inv(s) && Next(s, step, r)
    ensures Inv(r)
  {
    match step
    case Serve(e) => NextKeepsInv(s.table, e, r.table);
    case Write(order) => assert GoodFile(EncodeStore(s.table, order));
    case Restart(file, now) => GoodFileIsGood(s.files[file], now);
  }

  ghost predicate Run(states: seq<Server>, steps: seq<Step>)
  {
    && |states| == |steps| + 1 && Init(states[0])
    && forall i :: 0 <= i < |steps| ==> Next(states[i], steps[i], states[i + 1])
  }

  /** In every state of every run, distinct sessions hold distinct addresses of
      the pool, each under its own id, and at most 253 of them exist. */
  lemma {:induction false} EveryRunIsSafe(states: seq<Server>, steps: seq<Step>, k: nat)
    requires Run(states, steps) && k < |states|
    ensures Inv(states[k]) && |states[k].table| <= POOL_SIZE
  {
    if k > 0 {
      EveryRunIsSafe(states, steps, k - 1);
      StepKeepsInv(states[k - 1], steps[k - 1], states[k]);
    }
    PoolCapacity(states[k].table);
  }
}
