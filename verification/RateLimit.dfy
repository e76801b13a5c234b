/** The token bucket under concurrency: any number of threads run `allow` on one
    bucket, and every load and every compare-and-swap of the two atomics is a
    step of its own, in any interleaving and with any clock readings. */
module RateLimit {
  import opened Bytes

  const BYTES_PER_MBIT := 125_000
  const MIN_BURST := 65_536

  function Min(a: int, b: int): (m: int)
  {
    if a < b then a else b
  }

  function SaturatingMul(a: u64, b: u64): (r: u64)
    ensures r <= a * b
  {
    assert a * b >= 0;
    Min(a * b, U64_MAX)
  }

  function SaturatingAdd(a: u64, b: u64): (r: u64)
  {
    Min(a + b, U64_MAX)
  }

  function Rate(mbps: u32): (r: u64)
  {
    SaturatingMul(mbps, BYTES_PER_MBIT)
  }

  function Burst(mbps: u32): (r: u64)
  {
    if Rate(mbps) < MIN_BURST then MIN_BURST else Rate(mbps)
  }

  /** Where a thread stands inside `allow(bytes)`. Before the last swap it read
      `left + bytes` tokens. */
  datatype Thread =
    | Out
    | Refill(bytes: u64, now: u64)
    | Claim(bytes: u64, now: u64, last: u64, added: u64)
    | Add(bytes: u64, added: u64)
    | AddSwap(bytes: u64, added: u64, current: u64)
    | Spend(bytes: u64)
    | SpendSwap(bytes: u64, left: u64)

  /** `tokens` and `last` are the atomics. The rest is bookkeeping: the clock at
      creation, the bytes admitted, the tokens that threads won the right to add,
      and the tokens the cap cut off. */
  datatype Bucket = Bucket(mbps: u32, tokens: u64, last: u64, threads: seq<Thread>,
                           start: u64, admitted: nat, claimed: nat, spilled: nat)

  function New(mbps: u32, now: u64, threads: nat): (b: Bucket)
  {
    Bucket(mbps, Burst(mbps), now, seq(threads, i => Out), now, 0, 0, 0)
  }

  /** The next atomic step of thread `i`. `bytes` and `now` are what a fresh call
      brings; `spurious` is a weak swap that fails for no reason. */
  datatype Step = Step(i: nat, bytes: u64, now: u64, spurious: bool)

  function Goto(b: Bucket, i: nat, t: Thread): (r: Bucket)
    requires i < |b.threads|
  {
    b.(threads := b.threads[i := t])
  }

  function Next(b: Bucket, s: Step): (r: Bucket)
    requires s.i < |b.threads|
  {
    match b.threads[s.i]
    case Out =>
      // Nothing is metered for an uncapped plan or an empty packet.
      if b.mbps == 0 || s.bytes == 0 then b else Goto(b, s.i, Refill(s.bytes, s.now))
    case Refill(bytes, now) =>
      if now <= b.last then Goto(b, s.i, Spend(bytes))
      else
        var added := SaturatingMul(Rate(b.mbps), now - b.last) / 1000;
        if added == 0 then Goto(b, s.i, Spend(bytes)) else Goto(b, s.i, Claim(bytes, now, b.last, added))
    case Claim(bytes, now, last, added) =>
      if b.last != last then Goto(b, s.i, Spend(bytes))
      else Goto(b, s.i, Add(bytes, added)).(last := now, claimed := b.claimed + added)
    case Add(bytes, added) => Goto(b, s.i, AddSwap(bytes, added, b.tokens))
    case AddSwap(bytes, added, current) =>
      if b.tokens != current || s.spurious then Goto(b, s.i, Add(bytes, added))
      else
        var next := Min(SaturatingAdd(current, added), Burst(b.mbps));
        Goto(b, s.i, Spend(bytes)).(tokens := next, spilled := b.spilled + (current + added - next))
    case Spend(bytes) =>
      if b.tokens < bytes then Goto(b, s.i, Out) else Goto(b, s.i, SpendSwap(bytes, b.tokens - bytes))
    case SpendSwap(bytes, left) =>
      if b.tokens != left + bytes || s.spurious then Goto(b, s.i, Spend(bytes))
      else Goto(b, s.i, Out).(tokens := left, admitted := b.admitted + bytes)
  }

  // ----------------------------------------------------------------- invariant

  /** Tokens a thread has claimed the time for and not yet added. */
  function Owed(t: Thread): (n: nat)
  {
    if t.Add? || t.AddSwap? then t.added else 0
  }

  function AllOwed(ts: seq<Thread>): (n: nat)
  {
    if ts == [] then 0 else Owed(ts[0]) + AllOwed(ts[1..])
  }

  lemma {:induction false} OwedAfter(ts: seq<Thread>, i: nat, t: Thread)
    requires i < |ts|
    ensures AllOwed(ts[i := t]) == AllOwed(ts) - Owed(ts[i]) + Owed(t)
  {
    if i > 0 {
      OwedAfter(ts[1..], i - 1, t);
      assert ts[i := t][1..] == ts[1..][i - 1 := t];
    } else {
      assert ts[i := t][1..] == ts[1..];
    }
  }

  lemma {:induction false} NobodyOwes(ts: seq<Thread>)
    requires forall i :: 0 <= i < |ts| ==> ts[i] == Out
    ensures AllOwed(ts) == 0
  {
    if ts != [] {
      NobodyOwes(ts[1..]);
    }
  }

  /** A thread about to claim an interval computed what that interval is worth. */
  predicate ThreadOk(mbps: u32, t: Thread)
  {
    t.Claim? ==> t.last < t.now && t.added == SaturatingMul(Rate(mbps), t.now - t.last) / 1000
  }

  /** Conservation: every token ever there was admitted, is still in the bucket,
      is on its way into it, or was cut off by the cap. */
  ghost predicate Inv(b: Bucket)
  {
    && b.tokens <= Burst(b.mbps) && b.start <= b.last
    && (forall i :: 0 <= i < |b.threads| ==> ThreadOk(b.mbps, b.threads[i]))
    && b.admitted + b.tokens + AllOwed(b.threads) + b.spilled == Burst(b.mbps) + b.claimed
    && 1000 * b.claimed <= Rate(b.mbps) * (b.last - b.start)
  }

  lemma NewIsInv(mbps: u32, now: u64, threads: nat)
    ensures Inv(New(mbps, now, threads))
  {
    NobodyOwes(New(mbps, now, threads).threads);
  }

  lemma Stretch(rate: nat, start: int, last: int, now: int, added: nat, claimed: nat)
    requires start <= last < now
    requires 1000 * claimed <= rate * (last - start) && 1000 * added <= rate * (now - last)
    ensures 1000 * (claimed + added) <= rate * (now - start)
  {
    assert rate * (now - start) == rate * (last - start) + rate * (now - last);
  }

  /** The swap of `last` gives each stretch of time to one thread only. */
  lemma ClaimKeepsInv(b: Bucket, s: Step)
    requires Inv(b) && s.i < |b.threads| && b.threads[s.i].Claim?
    ensures Inv(Next(b, s))
  {
    var t := b.threads[s.i];
    assert ThreadOk(b.mbps, t);
    if b.last == t.last {
      OwedAfter(b.threads, s.i, Add(t.bytes, t.added));
      assert 1000 * t.added <= Rate(b.mbps) * (t.now - t.last);
      Stretch(Rate(b.mbps), b.start, b.last, t.now, t.added, b.claimed);
    } else {
      OwedAfter(b.threads, s.i, Spend(t.bytes));
    }
  }

  lemma AddKeepsInv(b: Bucket, s: Step)
    requires Inv(b) && s.i < |b.threads| && b.threads[s.i].AddSwap?
    ensures Inv(Next(b, s))
  {
    OwedAfter(b.threads, s.i, Next(b, s).threads[s.i]);
  }

  /** Steps that move no token and claim no time. */
  lemma LookKeepsInv(b: Bucket, s: Step)
    requires Inv(b) && s.i < |b.threads|
    requires b.threads[s.i].Out? || b.threads[s.i].Refill? || b.threads[s.i].Add? || b.threads[s.i].Spend?
    ensures Inv(Next(b, s))
  {
    OwedAfter(b.threads, s.i, Next(b, s).threads[s.i]);
  }

  lemma SpendKeepsInv(b: Bucket, s: Step)
    requires Inv(b) && s.i < |b.threads| && b.threads[s.i].SpendSwap?
    ensures Inv(Next(b, s))
  {
    OwedAfter(b.threads, s.i, Next(b, s).threads[s.i]);
  }

  lemma NextFrame(b: Bucket, s: Step)
    requires s.i < |b.threads|
    ensures Next(b, s).mbps == b.mbps && |Next(b, s).threads| == |b.threads| && Next(b, s).start == b.start
  {
  }

  lemma StepKeepsInv(b: Bucket, s: Step)
    requires Inv(b) && s.i < |b.threads|
    ensures Inv(Next(b, s)) && Next(b, s).mbps == b.mbps && |Next(b, s).threads| == |b.threads|
    ensures Next(b, s).start == b.start
  {
    NextFrame(b, s);
    match b.threads[s.i]
    case Claim(_, _, _, _) => ClaimKeepsInv(b, s);
    case AddSwap(_, _, _) => AddKeepsInv(b, s);
    case SpendSwap(_, _) => SpendKeepsInv(b, s);
    case _ => LookKeepsInv(b, s);
  }

  // ---------------------------------------------------------------------- runs

  /** The bucket after the steps, in order. Steps of threads that do not exist
      are skipped. */
  function Run(b: Bucket, steps: seq<Step>): (r: Bucket)
    decreases |steps|
  {
    if steps == [] then b
    else Run(if steps[0].i < |b.threads| then Next(b, steps[0]) else b, steps[1..])
  }

  lemma {:induction false} RunKeepsInv(b: Bucket, steps: seq<Step>)
    requires Inv(b)
    ensures Inv(Run(b, steps)) && Run(b, steps).mbps == b.mbps && Run(b, steps).start == b.start
    decreases |steps|
  {
    if steps != [] {
      if steps[0].i < |b.threads| {
        StepKeepsInv(b, steps[0]);
        RunKeepsInv(Next(b, steps[0]), steps[1..]);
      } else {
        RunKeepsInv(b, steps[1..]);
      }
    }
  }

  /** However many threads race and whatever the clock shows, a capped bucket
      admits at most its burst and its rate over the time it has claimed. */
  lemma AdmittedBound(mbps: u32, now: u64, threads: nat, steps: seq<Step>)
    ensures var b := Run(New(mbps, now, threads), steps);
            && b.tokens <= Burst(mbps) && now <= b.last
            && b.admitted <= Burst(mbps) + Rate(mbps) * (b.last - now) / 1000
    // A megabit is 125,000 bytes, and the burst is a second's worth but never under 64 KiB.
    ensures Rate(mbps) == mbps * 125_000
    ensures Burst(mbps) == if mbps * 125_000 < 64 * 1024 then 64 * 1024 else mbps * 125_000
  {
    NewIsInv(mbps, now, threads);
    RunKeepsInv(New(mbps, now, threads), steps);
    var b := Run(New(mbps, now, threads), steps);
    FloorBound(b.claimed, Rate(mbps) * (b.last - now));
  }

  lemma FloorBound(n: nat, x: int)
    requires 1000 * n <= x
    ensures n <= x / 1000
  {
  }

  // ----------------------------------------------------------- nothing is withheld

  /** Wherever a run has come: a step cuts tokens off only by filling the bucket. */
  lemma SpillsOnlyAtTheCap(mbps: u32, now: u64, threads: nat, steps: seq<Step>, s: Step)
    requires s.i < |Run(New(mbps, now, threads), steps).threads|
    ensures var b := Run(New(mbps, now, threads), steps);
            && Next(b, s).spilled >= b.spilled
            && (Next(b, s).spilled > b.spilled ==> Next(b, s).tokens == Burst(mbps))
  {
    NewIsInv(mbps, now, threads);
    RunKeepsInv(New(mbps, now, threads), steps);
  }

  /** What a caller that is alone finds in the bucket: the time since the last refill
      adds its worth, up to the burst. */
  function Available(b: Bucket, now: u64): (n: int)
  {
    Min(Burst(b.mbps), b.tokens + (if now > b.last then Rate(b.mbps) * (now - b.last) / 1000 else 0))
  }

  /** `n` steps of one thread, with the same call and no swap failing for no reason. */
  function Alone(b: Bucket, i: nat, bytes: u64, now: u64, n: nat): (r: Bucket)
    requires i < |b.threads|
    ensures |r.threads| == |b.threads| && r.mbps == b.mbps
  {
    if n == 0 then b else Next(Alone(b, i, bytes, now, n - 1), Step(i, bytes, now, false))
  }

  /** A product that saturates is worth more than any burst. */
  lemma SaturatedFills(b: Bucket, now: u64)
    requires Inv(b) && now > b.last
    ensures var added := SaturatingMul(Rate(b.mbps), now - b.last) / 1000;
            Min(SaturatingAdd(b.tokens, added), Burst(b.mbps)) == Available(b, now)
  {
    assert Rate(b.mbps) == b.mbps * BYTES_PER_MBIT;
    assert Rate(b.mbps) * (now - b.last) >= 0;
  }

  /** The refill of a call that is alone: `n` steps later it is about to spend, and the
      bucket holds what is available. */
  lemma RefillAlone(b: Bucket, i: nat, bytes: u64, now: u64) returns (n: nat)
    requires Inv(b) && i < |b.threads| && b.threads[i].Out? && b.mbps > 0 && bytes > 0
    ensures var r := Alone(b, i, bytes, now, n);
            && r.threads == b.threads[i := Spend(bytes)] && r.tokens == Available(b, now)
            && r.admitted == b.admitted
    ensures forall k :: 0 < k <= n ==> !Alone(b, i, bytes, now, k).threads[i].Out?
  {
    assert Alone(b, i, bytes, now, 0) == b;
    var b1 := Alone(b, i, bytes, now, 1);
    assert b1.threads[i] == Refill(bytes, now);
    var b2 := Alone(b, i, bytes, now, 2);
    if b2.threads[i].Spend? {
      n := 2;
    } else {
      SaturatedFills(b, now);
      var b3 := Alone(b, i, bytes, now, 3);
      var b4 := Alone(b, i, bytes, now, 4);
      var b5 := Alone(b, i, bytes, now, 5);
      n := 5;
    }
  }

  /** Without contention `allow` is exact: bytes are admitted if and only if they are
      available, and the rest stays in the bucket. */
  lemma AllowAlone(b: Bucket, i: nat, bytes: u64, now: u64) returns (n: nat)
    requires Inv(b) && i < |b.threads| && (forall k :: 0 <= k < |b.threads| ==> b.threads[k].Out?)
    requires b.mbps > 0 && bytes > 0
    ensures n > 0 && forall k :: 0 < k < n ==> !Alone(b, i, bytes, now, k).threads[i].Out?
    ensures var r, have := Alone(b, i, bytes, now, n), Available(b, now);
            && r.threads == b.threads
            && r.admitted == b.admitted + (if bytes <= have then bytes else 0)
            && r.tokens == have - (if bytes <= have then bytes else 0)
    ensures var cap := if b.mbps * 125_000 < 64 * 1024 then 64 * 1024 else b.mbps * 125_000;
            var filled := b.tokens + if now > b.last then b.mbps * 125_000 * (now - b.last) / 1000 else 0;
            Available(b, now) == if filled < cap then filled else cap
  {
    n := RefillAlone(b, i, bytes, now);
    var r := Alone(b, i, bytes, now, n);
    var after := Alone(b, i, bytes, now, n + 1);
    if after.threads[i].SpendSwap? {
      var last := Alone(b, i, bytes, now, n + 2);
      n := n + 2;
    } else {
      n := n + 1;
    }
  }
}
