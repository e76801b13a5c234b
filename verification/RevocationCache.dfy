/** The cached set of revoked ids, over every history of the file it stands for. */
module RevocationCache {
  import opened Bytes
  import opened Revocation

  /** What a look at the path finds. */
  datatype Disk = Missing | NoMetadata | File(mtime: nat, text: string, readable: bool)

  datatype Cache = Cache(mtime: Option<nat>, ids: set<TokenId>)

  // --------------------------------------------------------------- specification

  /** The text is read when its modification time is not the cached one. */
  predicate Loads(c: Cache, disk: Disk)
  {
    disk.File? && c.mtime != Some(disk.mtime) && disk.readable
  }

  function After(c: Cache, disk: Disk): (n: Cache)
  {
    if Loads(c, disk) then Cache(Some(disk.mtime), Load(disk.text)) else c
  }

  function Answer(c: Cache, disk: Disk, id: TokenId): (revoked: bool)
  {
    match disk
    case Missing => id in c.ids
    case NoMetadata => true
    case File(mtime, _, readable) =>
      if c.mtime != Some(mtime) && !readable then true else id in After(c, disk).ids
  }

  class FileRevocationStore {
    var mtime: Option<nat>
    var ids: set<TokenId>

    constructor ()
      ensures mtime == None && ids == {}
    {
      mtime, ids := None, {};
    }

    method IsRevoked(disk: Disk, id: TokenId) returns (revoked: bool)
      modifies this
      ensures revoked == Answer(old(Cache(mtime, ids)), disk, id)
      ensures Cache(mtime, ids) == After(old(Cache(mtime, ids)), disk)
    {
      match disk {
        case Missing => return id in ids;
        case NoMetadata => return true;
        case File(found, text, readable) =>
          if mtime != Some(found) {
            if !readable {
              return true;
            }
            ids := Load(text);
            mtime := Some(found);
          }
          return id in ids;
      }
    }
  }

  // ------------------------------------------------------------------------ runs

  datatype Copy = Copy(mtime: nat, text: string)

  /** `loaded` is the file as it was when it was last read. */
  datatype World = World(disk: Disk, cache: Cache, loaded: Option<Copy>)

  datatype Event = Change(disk: Disk) | Check(id: TokenId)

  /** The path changes in any way, or a check is made. */
  ghost predicate Next(w: World, e: Event, n: World)
  {
    match e
    case Change(disk) => n == w.(disk := disk)
    case Check(_) =>
      n == w.(cache := After(w.cache, w.disk),
              loaded := if Loads(w.cache, w.disk) then Some(Copy(w.disk.mtime, w.disk.text)) else w.loaded)
  }

  ghost predicate Init(w: World)
  {
    w.cache == Cache(None, {}) && w.loaded == None
  }

  /** The cache is the copy that was read last. */
  ghost predicate Inv(w: World)
  {
    && (w.loaded.None? ==> w.cache == Cache(None, {}))
    && (w.loaded.Some? ==> w.cache == Cache(Some(w.loaded.value.mtime), Load(w.loaded.value.text)))
  }

  ghost predicate IsRun(run: seq<World>, events: seq<Event>)
  {
    && |run| == |events| + 1 && Init(run[0])
    && forall i :: 0 <= i < |events| ==> Next(run[i], events[i], run[i + 1])
  }

  lemma {:induction false} RunKeepsInv(run: seq<World>, events: seq<Event>, k: nat)
    requires IsRun(run, events) && k < |run|
    ensures Inv(run[k])
  {
    if k > 0 {
      RunKeepsInv(run, events, k - 1);
      assert Next(run[k - 1], events[k - 1], run[k]);
    }
  }

  /** The copy was the file at some earlier moment. */
  lemma {:induction false} CopyWasThere(run: seq<World>, events: seq<Event>, k: nat) returns (j: nat)
    requires IsRun(run, events) && k < |run| && run[k].loaded.Some?
    ensures j <= k && run[j].disk.File?
    ensures run[k].loaded == Some(Copy(run[j].disk.mtime, run[j].disk.text))
  {
    assert k > 0;
    assert Next(run[k - 1], events[k - 1], run[k]);
    if run[k].loaded == run[k - 1].loaded {
      j := CopyWasThere(run, events, k - 1);
    } else {
      j := k - 1;
    }
  }

  /** The file on disk has the modification time of the copy. */
  predicate TimeKnown(w: World)
  {
    w.disk.File? && w.loaded.Some? && w.loaded.value.mtime == w.disk.mtime
  }

  /** And yet it lists other ids. */
  predicate Stale(w: World)
  {
    TimeKnown(w) && Load(w.loaded.value.text) != Load(w.disk.text)
  }

  /** At every point of every history, whatever the modification times: the answers are
      those of the file, for all ids, if and only if it did not change under the
      modification time it was read with. */
  lemma SameTimeIff(run: seq<World>, events: seq<Event>, k: nat)
    requires IsRun(run, events) && k < |run| && run[k].disk.File? && (run[k].disk.readable || TimeKnown(run[k]))
    ensures (forall id :: Answer(run[k].cache, run[k].disk, id) <==> id in Load(run[k].disk.text)) <==> !Stale(run[k])
  {
    var w := run[k];
    RunKeepsInv(run, events, k);
    if forall id :: Answer(w.cache, w.disk, id) <==> id in Load(w.disk.text) {
      forall id: TokenId
        ensures id in After(w.cache, w.disk).ids <==> id in Load(w.disk.text)
      {
        assert Answer(w.cache, w.disk, id) <==> id in Load(w.disk.text);
      }
      assert After(w.cache, w.disk).ids == Load(w.disk.text);
    }
  }

  /** No text takes the modification time of another, up to the `k`-th moment. */
  ghost predicate OwnTimes(run: seq<World>, k: nat)
    requires k < |run|
  {
    forall i, j :: 0 <= i < j <= k && run[i].disk.File? && run[j].disk.File? && run[i].disk.mtime == run[j].disk.mtime
      ==> run[i].disk.text == run[j].disk.text
  }

  /** At every point of every such history: what the file says when it can be read,
      what was last read when it is gone, and revoked when it cannot be told. */
  lemma EveryAnswerIsRight(run: seq<World>, events: seq<Event>, k: nat, id: TokenId)
    requires IsRun(run, events) && k < |run| && OwnTimes(run, k)
    ensures var w := run[k];
            Answer(w.cache, w.disk, id) <==>
              match w.disk
              case Missing => w.loaded.Some? && id in Load(w.loaded.value.text)
              case NoMetadata => true
              case File(mtime, text, readable) => id in Load(text) || (!readable && w.cache.mtime != Some(mtime))
  {
    RunKeepsInv(run, events, k);
    if TimeKnown(run[k]) {
      var j := CopyWasThere(run, events, k);
    }
  }

  /** Revoking through the file is final, whatever the modification times: once a check
      has seen an id and only appends follow, no later check forgets it. */
  lemma {:induction false} RevokedStaysRevoked(run: seq<World>, events: seq<Event>, j: nat, k: nat, id: TokenId)
    requires IsRun(run, events) && j <= k < |run|
    requires run[j].loaded.Some? && id in Load(run[j].loaded.value.text)
    requires forall i :: j <= i < |run| && run[i].disk.File? ==> id in Load(run[i].disk.text)
    ensures Answer(run[k].cache, run[k].disk, id)
    ensures run[k].loaded.Some? && id in Load(run[k].loaded.value.text)
    decreases k - j
  {
    if j < k {
      RevokedStaysRevoked(run, events, j, k - 1, id);
      assert Next(run[k - 1], events[k - 1], run[k]);
    }
    RunKeepsInv(run, events, k);
  }

  /** A history in which it did: one text is read, another takes its place and its
      modification time, and ids are answered for that are not in the file. */
  lemma ReusedTimeIsMissed(mtime: nat, before: string, now: string, id: TokenId)
    returns (run: seq<World>, events: seq<Event>)
    requires id in Load(before) <==> id !in Load(now)
    ensures IsRun(run, events) && run[|events|].disk == File(mtime, now, true)
    ensures Answer(run[|events|].cache, run[|events|].disk, id) <==> id !in Load(now)
  {
    var w0 := World(Missing, Cache(None, {}), None);
    var w1 := w0.(disk := File(mtime, before, true));
    var w2 := w1.(cache := Cache(Some(mtime), Load(before)), loaded := Some(Copy(mtime, before)));
    run := [w0, w1, w2, w2.(disk := File(mtime, now, true))];
    events := [Change(w1.disk), Check(id), Change(File(mtime, now, true))];
  }
}
