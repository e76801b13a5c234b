/** The byte channel over encrypted records: a polled writer, a polled record
    assembler and a polled reader, against a transport that may stop, fail or
    take and give any number of bytes. */
module TlsStream {
  import opened Bytes
  import opened TlsRecord

  const CHUNK := 14 * 1024
  const CHANGE_CIPHER_SPEC: byte := 0x14

  // ------------------------------------------------------------------ the wire

  /** One record as its sender knows it. */
  datatype Sent = Sent(typ: byte, content: seq<byte>, pad: Option<nat>)

  function RecordOf(keys: Keys, n: nat, s: Sent): (r: seq<byte>)
  {
    Seal(keys, n, s.typ, s.content, s.pad)
  }

  /** The records numbered from zero, one after the other. */
  function Wire(keys: Keys, sent: seq<Sent>): (w: seq<byte>)
  {
    if sent == [] then []
    else Wire(keys, sent[..|sent| - 1]) + RecordOf(keys, |sent| - 1, sent[|sent| - 1])
  }

  /** What the application is to read: inner handshake records are invisible. */
  function AppData(sent: seq<Sent>): (d: seq<byte>)
  {
    if sent == [] then []
    else AppData(sent[..|sent| - 1]) + (if sent[|sent| - 1].typ == APPLICATION then sent[|sent| - 1].content else [])
  }

  /** A record the receiver's length limit lets through. */
  predicate Fits(s: Sent)
  {
    (s.typ == APPLICATION || s.typ == HANDSHAKE) && |Inner(s.typ, s.content, s.pad)| + TAG_SIZE <= MAX_RECORD
  }

  ghost predicate AllFit(sent: seq<Sent>)
  {
    forall i :: 0 <= i < |sent| ==> Fits(sent[i])
  }

  lemma RecordLength(keys: Keys, n: nat, s: Sent)
    requires keys.aead.Lawful()
    ensures |RecordOf(keys, n, s)| == HEADER_SIZE + TAG_SIZE + |Inner(s.typ, s.content, s.pad)|
    ensures RecordOf(keys, n, s)[..HEADER_SIZE] == Header(TAG_SIZE + |Inner(s.typ, s.content, s.pad)|)
  {
    var inner := Inner(s.typ, s.content, s.pad);
    assert |keys.aead.seal(keys.key, RecordNonce(keys.iv, n), Header(|inner| + TAG_SIZE), inner)| == |inner| + TAG_SIZE;
  }

  lemma WireSnoc(keys: Keys, sent: seq<Sent>, s: Sent)
    ensures Wire(keys, sent + [s]) == Wire(keys, sent) + RecordOf(keys, |sent|, s)
    ensures AppData(sent + [s]) == AppData(sent) + (if s.typ == APPLICATION then s.content else [])
  {
    assert (sent + [s])[..|sent|] == sent;
  }

  /** No record of the application is empty. */
  ghost predicate NoneEmpty(sent: seq<Sent>)
  {
    forall i :: 0 <= i < |sent| ==> sent[i].typ == APPLICATION ==> sent[i].content != []
  }

  lemma PrefixOfPrefix(a: seq<byte>, b: seq<byte>, c: seq<byte>)
    requires a <= b && b <= c
    ensures a <= c
  {
  }

  lemma {:induction false} WirePrefix(keys: Keys, sent: seq<Sent>, k: nat)
    requires k <= |sent|
    ensures Wire(keys, sent[..k]) <= Wire(keys, sent) && AppData(sent[..k]) <= AppData(sent)
    decreases |sent| - k
  {
    if k < |sent| {
      WirePrefix(keys, sent, k + 1);
      assert sent[..k + 1] == sent[..k] + [sent[k]];
      WireSnoc(keys, sent[..k], sent[k]);
      PrefixOfPrefix(Wire(keys, sent[..k]), Wire(keys, sent[..k + 1]), Wire(keys, sent));
      PrefixOfPrefix(AppData(sent[..k]), AppData(sent[..k + 1]), AppData(sent));
    } else {
      assert sent[..k] == sent;
    }
  }

  // -------------------------------------------------------------------- writer

  datatype Poll<T> = Pending | Failed | Ready(value: T)

  /** The transport was asked again, and answered this in the end. */
  ghost predicate Told<T>(before: seq<Poll<T>>, answers: seq<Poll<T>>, last: Poll<T>)
  {
    before < answers && answers[|answers| - 1] == last
  }

  /** A write stops where the transport does, or takes nothing. */
  ghost predicate Halted<T>(r: Poll<T>, before: seq<Poll<nat>>, answers: seq<Poll<nat>>)
  {
    match r
    case Pending => Told(before, answers, Pending)
    case Failed => Told(before, answers, Failed) || Told(before, answers, Ready(0))
    case Ready(_) => before <= answers
  }

  /** The writing half of the transport; `wire` is all it ever took, and `answers` what it
      said. */
  class Pipe {
    var wire: seq<byte>
    ghost var answers: seq<Poll<nat>>

    constructor (wire: seq<byte>)
      ensures this.wire == wire
    {
      this.wire := wire;
    }

    method PollWrite(data: seq<byte>) returns (r: Poll<nat>)
      modifies this
      ensures r.Ready? ==> r.value <= |data| && wire == old(wire) + data[..r.value]
      ensures !r.Ready? ==> wire == old(wire)
      ensures answers == old(answers) + [r]
    {
      if {
        case true => r := Pending;
        case true => r := Failed;
        case true =>
          var n :| 0 <= n <= |data|;
          wire := wire + data[..n];
          r := Ready(n);
      }
      answers := answers + [r];
    }
  }

  /** What has left and what is pending make up the records begun, and the bytes
      reported and promised make up their data. */
  ghost predicate OnTheWay(keys: Keys, sent: seq<Sent>, wire: seq<byte>, pending: seq<byte>, at: nat,
                           taken: seq<byte>, promised: seq<byte>)
  {
    && AllFit(sent) && at <= |pending| && wire + pending[at..] == Wire(keys, sent)
    && AppData(sent) == taken + promised
    && (pending == [] ==> promised == [])
    && (pending != [] ==>
         && sent != [] && promised != [] && sent[|sent| - 1] == Sent(APPLICATION, promised, None)
         && pending == RecordOf(keys, |sent| - 1, sent[|sent| - 1]))
  }

  lemma Pushed(keys: Keys, sent: seq<Sent>, wire: seq<byte>, pending: seq<byte>, at: nat, taken: seq<byte>,
               promised: seq<byte>, n: nat)
    requires OnTheWay(keys, sent, wire, pending, at, taken, promised) && at + n <= |pending|
    ensures OnTheWay(keys, sent, wire + pending[at..][..n], pending, at + n, taken, promised)
  {
    Consumed(wire, pending, at, n);
  }

  lemma PushedAll(keys: Keys, sent: seq<Sent>, wire: seq<byte>, pending: seq<byte>, taken: seq<byte>, promised: seq<byte>)
    requires OnTheWay(keys, sent, wire, pending, |pending|, taken, promised)
    ensures OnTheWay(keys, sent, wire, [], 0, taken + promised, [])
  {
    assert pending[|pending|..] == [];
    assert taken + promised + [] == taken + promised;
  }

  /** The next record, of which nothing is on the wire yet. */
  lemma Begun(keys: Keys, sent: seq<Sent>, wire: seq<byte>, at: nat, taken: seq<byte>, promised: seq<byte>,
              chunk: seq<byte>)
    requires keys.aead.Lawful() && OnTheWay(keys, sent, wire, [], at, taken, promised) && 0 < |chunk| <= CHUNK
    ensures var one := Sent(APPLICATION, chunk, None);
            var record := RecordOf(keys, |sent|, one);
            record != [] && OnTheWay(keys, sent + [one], wire, record, 0, taken, chunk)
  {
    var one := Sent(APPLICATION, chunk, None);
    var record := RecordOf(keys, |sent|, one);
    assert wire + [] == wire && taken + [] == taken && record[0..] == record;
    RecordLength(keys, |sent|, one);
    WireSnoc(keys, sent, one);
    assert Fits(one);
  }

  class Writer {
    const keys: Keys
    const pipe: Pipe
    var number: nat
    var pending: seq<byte>
    var pendingAt: nat
    var pendingPlain: nat
    /** All records begun; the bytes whose writing was reported to the caller;
        and the caller's bytes inside the record still on its way. */
    ghost var sent: seq<Sent>
    ghost var taken: seq<byte>
    ghost var promised: seq<byte>

    ghost predicate Valid()
      reads this, pipe
    {
      && keys.aead.Lawful() && number == |sent| && pendingPlain == |promised|
      && pendingAt <= |pending| && (pending != [] ==> pendingAt < |pending|)
      && OnTheWay(keys, sent, pipe.wire, pending, pendingAt, taken, promised) && NoneEmpty(sent)
    }

    /** Takes over after the handshake, which may have left dummy records. */
    constructor (keys: Keys, pipe: Pipe, dummies: seq<Sent>)
      requires keys.aead.Lawful() && AllFit(dummies) && pipe.wire == Wire(keys, dummies)
      requires forall i :: 0 <= i < |dummies| ==> dummies[i].typ == HANDSHAKE
      ensures Valid() && this.keys == keys && this.pipe == pipe && sent == dummies && taken == promised == []
    {
      this.keys, this.pipe := keys, pipe;
      number, pending, pendingAt, pendingPlain := |dummies|, [], 0, 0;
      sent, taken, promised := dummies, [], [];
      new;
      NoData(dummies);
    }

    /** The caller of an unfinished write comes back with the same bytes. */
    ghost predicate Retries(buf: seq<byte>)
      reads this
    {
      promised <= buf
    }

    /** The bytes the next record carries: those promised before, or a chunk of `buf`. */
    function Next(buf: seq<byte>): (n: nat)
      reads this
    {
      if pending != [] then pendingPlain else if |buf| < CHUNK then |buf| else CHUNK
    }

    /** One record is written, the one under way or a new one of up to 14 KiB, and its data
        reported when all of it has left; it stops short only where the transport does. */
    method PollWrite(buf: seq<byte>) returns (r: Poll<nat>)
      requires Valid() && Retries(buf)
      modifies this, pipe
      ensures Valid() && old(pipe.wire) <= pipe.wire
      ensures sent == if old(pending) != [] || buf == [] then old(sent)
                      else old(sent) + [Sent(APPLICATION, buf[..old(Next(buf))], None)]
      ensures r.Ready? ==>
        && r.value == old(Next(buf)) <= |buf| && taken == old(taken) + buf[..r.value] && promised == []
        && pipe.wire == Wire(keys, sent)
      ensures r.Ready? && buf != [] ==> r.value > 0
      ensures !r.Ready? ==> taken == old(taken) && promised == buf[..old(Next(buf))]
      ensures Halted(r, old(pipe.answers), pipe.answers)
    {
      if pending == [] {
        if buf == [] { return Ready(0); }
        Begin(buf[..if |buf| < CHUNK then |buf| else CHUNK]);
      }
      r := WritePending();
    }

    /** Writes until the record on its way is out. */
    method WritePending() returns (r: Poll<nat>)
      requires Valid() && pending != []
      modifies this, pipe
      ensures Valid() && sent == old(sent) && old(pipe.wire) <= pipe.wire
      ensures r.Ready? ==> r.value == |old(promised)| && taken == old(taken + promised) && promised == []
      ensures r.Ready? ==> pipe.wire == Wire(keys, sent)
      ensures !r.Ready? ==> taken == old(taken) && promised == old(promised)
      ensures Halted(r, old(pipe.answers), pipe.answers)
    {
      while true
        invariant Valid() && pending != [] && sent == old(sent) && taken == old(taken) && promised == old(promised)
        invariant old(pipe.wire) <= pipe.wire && old(pipe.answers) <= pipe.answers
        decreases |pending| - pendingAt
      {
        var reported := pendingPlain;
        var done := PushPending();
        if !done.Ready? { return if done.Pending? then Pending else Failed; }
        if done.value { return Ready(reported); }
      }
    }

    /** One write of the record on its way; `true` when its last byte went out. */
    method PushPending() returns (r: Poll<bool>)
      requires Valid() && pending != []
      modifies this, pipe
      ensures Valid() && sent == old(sent) && old(pipe.wire) <= pipe.wire
      ensures r.Ready? && r.value ==> taken == old(taken + promised) && promised == [] && pending == []
      ensures r.Ready? && r.value ==> pipe.wire == Wire(keys, sent)
      ensures !(r.Ready? && r.value) ==> taken == old(taken) && promised == old(promised) && pending == old(pending)
      ensures r == Ready(false) ==> pendingAt > old(pendingAt)
      ensures Halted(r, old(pipe.answers), pipe.answers)
    {
      var n := Push();
      if !n.Ready? { return if n.Pending? then Pending else Failed; }
      if n.value == 0 { return Failed; }
      r := Advance(n.value);
      assert pending == [] ==> pipe.wire + pending[pendingAt..] == pipe.wire;
    }

    /** One call of the transport. */
    method Push() returns (n: Poll<nat>)
      requires Valid()
      modifies pipe
      ensures old(pipe.wire) <= pipe.wire && (n.Ready? ==> pendingAt + n.value <= |pending|)
      ensures OnTheWay(keys, sent, pipe.wire, pending, if n.Ready? then pendingAt + n.value else pendingAt, taken, promised)
      ensures pipe.answers == old(pipe.answers) + [n]
    {
      ghost var wire := pipe.wire;
      n := pipe.PollWrite(pending[pendingAt..]);
      if n.Ready? {
        Pushed(keys, sent, wire, pending, pendingAt, taken, promised, n.value);
      }
    }

    /** `n` more bytes of the record are out. */
    method Advance(n: nat) returns (r: Poll<bool>)
      requires keys.aead.Lawful() && number == |sent| && pendingPlain == |promised|
      requires 0 < n && pendingAt + n <= |pending|
      requires OnTheWay(keys, sent, pipe.wire, pending, pendingAt + n, taken, promised) && NoneEmpty(sent)
      modifies this
      ensures Valid() && sent == old(sent)
      ensures r == Ready(old(pendingAt + n == |pending|))
      ensures r.value ==> taken == old(taken + promised) && promised == [] && pending == []
      ensures !r.value ==>
        taken == old(taken) && promised == old(promised) && pending == old(pending) && pendingAt > old(pendingAt)
    {
      pendingAt := pendingAt + n;
      if pendingAt < |pending| { return Ready(false); }
      Finish();
      r := Ready(true);
    }

    method Finish()
      requires keys.aead.Lawful() && number == |sent| && pendingPlain == |promised|
      requires pendingAt == |pending| && OnTheWay(keys, sent, pipe.wire, pending, pendingAt, taken, promised) && NoneEmpty(sent)
      modifies this
      ensures Valid() && sent == old(sent) && pending == [] && promised == [] && taken == old(taken + promised)
    {
      PushedAll(keys, sent, pipe.wire, pending, taken, promised);
      pending, pendingAt, pendingPlain := [], 0, 0;
      taken, promised := taken + promised, [];
    }

    /** Seals the next chunk; nothing of it is on the wire yet. */
    method Begin(chunk: seq<byte>)
      requires Valid() && pending == [] && 0 < |chunk| <= CHUNK
      modifies this
      ensures Valid() && pending != [] && promised == chunk && taken == old(taken)
      ensures sent == old(sent) + [Sent(APPLICATION, chunk, None)]
    {
      Begun(keys, sent, pipe.wire, pendingAt, taken, promised, chunk);
      pending := Seal(keys, number, APPLICATION, chunk, None);
      sent := sent + [Sent(APPLICATION, chunk, None)];
      number, pendingAt, pendingPlain := number + 1, 0, |chunk|;
      promised := chunk;
    }
  }

  lemma Consumed(wire: seq<byte>, pending: seq<byte>, at: nat, n: nat)
    requires at + n <= |pending|
    ensures wire + pending[at..][..n] + pending[at + n..] == wire + pending[at..]
  {
  }

  lemma {:induction false} NoData(sent: seq<Sent>)
    requires forall i :: 0 <= i < |sent| ==> sent[i].typ == HANDSHAKE
    ensures AppData(sent) == []
  {
    if sent != [] {
      NoData(sent[..|sent| - 1]);
    }
  }

  // ----------------------------------------------------------------- assembler

  /** The reading half of the transport: `stream` is all that ever arrived, and `answers`
      what it said. */
  class Source {
    var stream: seq<byte>
    var at: nat
    ghost var answers: seq<Poll<seq<byte>>>

    constructor ()
      ensures stream == [] && at == 0
    {
      stream, at := [], 0;
    }

    /** The network brings up to `n` more of the bytes written at the other end. */
    method Carry(pipe: Pipe, n: nat)
      requires stream <= pipe.wire
      modifies this`stream
      ensures old(stream) <= stream <= pipe.wire
    {
      var more := if |stream| + n < |pipe.wire| then |stream| + n else |pipe.wire|;
      stream := pipe.wire[..more];
    }

    /** Up to `room` bytes; none at all means the end of the stream. */
    method PollRead(room: nat) returns (r: Poll<seq<byte>>)
      requires at <= |stream|
      modifies this`at, this`answers
      ensures old(at) <= at <= |stream|
      ensures r.Ready? ==> |r.value| <= room && r.value == stream[old(at)..at]
      ensures !r.Ready? ==> at == old(at)
      ensures answers == old(answers) + [r]
    {
      if {
        case true => r := Pending;
        case true => r := Failed;
        case true =>
          var n :| 0 <= n <= room && at + n <= |stream|;
          r := Ready(stream[at..at + n]);
          at := at + n;
      }
      answers := answers + [r];
    }
  }

  lemma Arrived(held: seq<byte>, stream: seq<byte>, from: nat, mid: nat, to: nat)
    requires from <= mid <= to <= |stream|
    ensures held + stream[from..mid] + stream[mid..to] == held + stream[from..to]
  {
  }

  datatype RecordPoll = Waiting | Broken | EndOfStream | BadLength | Record(header: seq<byte>, body: seq<byte>)

  /** Why no record was handed out: the transport said so in its last answer, or the
      header held is bad. */
  ghost predicate Explained(r: RecordPoll, before: seq<Poll<seq<byte>>>, answers: seq<Poll<seq<byte>>>, held: seq<byte>)
  {
    match r
    case Waiting => Told(before, answers, Pending)
    case Broken => Told(before, answers, Failed)
    case EndOfStream => Told(before, answers, Ready([]))
    case BadLength => |held| >= HEADER_SIZE && !GoodHeader(held[..HEADER_SIZE])
    case Record(_, _) => true
  }

  predicate GoodHeader(h: seq<byte>)
    requires |h| == HEADER_SIZE
  {
    0 < U16(h[3], h[4]) <= MAX_RECORD
  }

  class Assembler {
    var header: seq<byte>
    var headerGot: nat
    var body: seq<byte>
    var bodyGot: nat

    ghost predicate Valid()
      reads this
    {
      && |header| == HEADER_SIZE && headerGot <= HEADER_SIZE && bodyGot <= |body|
      && (headerGot < HEADER_SIZE ==> body == [])
      && (body != [] ==> GoodHeader(header) && |body| == U16(header[3], header[4]) && bodyGot < |body|)
    }

    /** The bytes of the record under way. */
    ghost function Held(): (h: seq<byte>)
      requires Valid()
      reads this
    {
      header[..headerGot] + body[..bodyGot]
    }

    /** What is held is never a whole record. */
    lemma HeldIsPart()
      requires Valid()
      ensures var held := Held(); HEADER_SIZE < |held| ==> |held| < HEADER_SIZE + U16(held[3], held[4])
    {
    }

    constructor ()
      ensures Valid() && Held() == []
    {
      header, headerGot, body, bodyGot := Zeros(HEADER_SIZE), 0, [], 0;
    }

    /** No byte is lost, repeated or moved, whatever sizes the reads come in, and
        a record is handed out exactly when its last byte is there. */
    method PollRecord(src: Source) returns (r: RecordPoll)
      requires Valid() && src.at <= |src.stream|
      modifies this, src`at, src`answers
      ensures Valid() && old(src.at) <= src.at <= |src.stream|
      ensures r.Record? ==>
        && |r.header| == HEADER_SIZE && GoodHeader(r.header) && |r.body| == U16(r.header[3], r.header[4])
        && Held() == [] && old(Held()) + src.stream[old(src.at)..src.at] == r.header + r.body
        && old(src.at) < src.at
      ensures !r.Record? ==> Held() == old(Held()) + src.stream[old(src.at)..src.at]
      ensures old(src.answers) <= src.answers && Explained(r, old(src.answers), src.answers, Held())
    {
      ghost var from, held := src.at, Held();
      while headerGot < HEADER_SIZE
        invariant Valid() && from <= src.at <= |src.stream|
        invariant Held() == held + src.stream[from..src.at] && old(src.answers) <= src.answers
        decreases HEADER_SIZE - headerGot
      {
        ghost var before := src.at;
        var got := src.PollRead(HEADER_SIZE - headerGot);
        if !got.Ready? { return if got.Pending? then Waiting else Broken; }
        if got.value == [] { return EndOfStream; }
        ghost var prefix := header[..headerGot];
        header := header[..headerGot] + got.value + header[headerGot + |got.value|..];
        headerGot := headerGot + |got.value|;
        assert header[..headerGot] == prefix + got.value;
        Arrived(held, src.stream, from, before, src.at);
      }
      r := FillBody(src, from, held);
    }

    method FillBody(src: Source, ghost from: nat, ghost held: seq<byte>) returns (r: RecordPoll)
      requires Valid() && headerGot == HEADER_SIZE && from <= src.at <= |src.stream|
      requires Held() == held + src.stream[from..src.at]
      modifies this, src`at, src`answers
      ensures Valid() && old(src.at) <= src.at <= |src.stream|
      ensures r.Record? ==>
        && |r.header| == HEADER_SIZE && GoodHeader(r.header) && |r.body| == U16(r.header[3], r.header[4])
        && Held() == [] && held + src.stream[from..src.at] == r.header + r.body
        && old(src.at) < src.at
      ensures !r.Record? ==> Held() == held + src.stream[from..src.at]
      ensures old(src.answers) <= src.answers && Explained(r, old(src.answers), src.answers, Held())
    {
      if body == [] {
        var len := U16(header[3], header[4]);
        if len == 0 || len > MAX_RECORD { return BadLength; }
        body := Zeros(len);
        bodyGot := 0;
      }
      while bodyGot < |body|
        invariant |header| == HEADER_SIZE == headerGot && bodyGot <= |body| && body != []
        invariant GoodHeader(header) && |body| == U16(header[3], header[4])
        invariant from <= src.at <= |src.stream| && old(src.at) <= src.at
        invariant bodyGot < |body| || old(src.at) < src.at
        invariant header + body[..bodyGot] == held + src.stream[from..src.at] && old(src.answers) <= src.answers
        decreases |body| - bodyGot
      {
        ghost var before := src.at;
        var got := src.PollRead(|body| - bodyGot);
        if !got.Ready? { return if got.Pending? then Waiting else Broken; }
        if got.value == [] { return EndOfStream; }
        ghost var prefix := body[..bodyGot];
        body := body[..bodyGot] + got.value + body[bodyGot + |got.value|..];
        bodyGot := bodyGot + |got.value|;
        assert header + body[..bodyGot] == header + prefix + got.value;
        Arrived(held, src.stream, from, before, src.at);
      }
      r := Record(header, body);
      headerGot, body, bodyGot := 0, [], 0;
    }
  }

  // ------------------------------------------------------------- an honest stream

  lemma HeaderLength(len: nat)
    requires 0 < len <= MAX_RECORD
    ensures GoodHeader(Header(len)) && U16(Header(len)[3], Header(len)[4]) == len && Header(len)[0] == APPLICATION
  {
  }

  lemma SameStart(whole: seq<byte>, done: seq<byte>, a: seq<byte>, b: seq<byte>, k: nat)
    requires done + a <= whole && done + b <= whole && k <= |a| && k <= |b|
    ensures a[..k] == b[..k]
  {
    assert (done + a)[|done|..|done| + k] == a[..k];
    assert (done + b)[|done|..|done| + k] == b[..k];
    assert whole[..|done + a|] == done + a && whole[..|done + b|] == done + b;
  }

  lemma NotAtEnd(keys: Keys, msgs: seq<Sent>, n: nat, ahead: seq<byte>)
    requires n <= |msgs| && Wire(keys, msgs[..n]) + ahead <= Wire(keys, msgs) && ahead != []
    ensures n < |msgs|
  {
    assert msgs[..|msgs|] == msgs;
  }

  /** An honest stream can only go on with the header of the next record. */
  lemma NextHeader(keys: Keys, msgs: seq<Sent>, n: nat, ahead: seq<byte>)
    requires keys.aead.Lawful() && AllFit(msgs) && n <= |msgs|
    requires Wire(keys, msgs[..n]) + ahead <= Wire(keys, msgs) && |ahead| >= HEADER_SIZE
    ensures n < |msgs| && |RecordOf(keys, n, msgs[n])| >= HEADER_SIZE
    ensures ahead[..HEADER_SIZE] == RecordOf(keys, n, msgs[n])[..HEADER_SIZE]
    ensures GoodHeader(ahead[..HEADER_SIZE]) && ahead[0] == APPLICATION
    ensures HEADER_SIZE + U16(ahead[3], ahead[4]) == |RecordOf(keys, n, msgs[n])|
  {
    NotAtEnd(keys, msgs, n, ahead);
    Onward(keys, msgs, n);
    RecordLength(keys, n, msgs[n]);
    assert Fits(msgs[n]);
    HeaderLength(TAG_SIZE + |Inner(msgs[n].typ, msgs[n].content, msgs[n].pad)|);
    SameStart(Wire(keys, msgs), Wire(keys, msgs[..n]), ahead, RecordOf(keys, n, msgs[n]), HEADER_SIZE);
  }

  lemma Onward(keys: Keys, msgs: seq<Sent>, n: nat)
    requires n < |msgs|
    ensures Wire(keys, msgs[..n + 1]) == Wire(keys, msgs[..n]) + RecordOf(keys, n, msgs[n])
    ensures AppData(msgs[..n + 1]) == AppData(msgs[..n]) + (if msgs[n].typ == APPLICATION then msgs[n].content else [])
    ensures Wire(keys, msgs[..n]) + RecordOf(keys, n, msgs[n]) <= Wire(keys, msgs)
  {
    assert msgs[..n + 1] == msgs[..n] + [msgs[n]];
    WireSnoc(keys, msgs[..n], msgs[n]);
    WirePrefix(keys, msgs, n + 1);
  }

  /** A whole record of an honest stream is the next one its sender sealed. */
  lemma NextRecord(keys: Keys, msgs: seq<Sent>, n: nat, header: seq<byte>, body: seq<byte>)
    requires keys.aead.Lawful() && AllFit(msgs) && n <= |msgs|
    requires Wire(keys, msgs[..n]) + (header + body) <= Wire(keys, msgs)
    requires |header| == HEADER_SIZE && |body| == U16(header[3], header[4])
    ensures n < |msgs| && header[0] == APPLICATION
    ensures Open(keys, n, body) == Opened(msgs[n].typ, msgs[n].content)
    ensures Wire(keys, msgs[..n + 1]) == Wire(keys, msgs[..n]) + (header + body)
  {
    var ahead := header + body;
    NextHeader(keys, msgs, n, ahead);
    Onward(keys, msgs, n);
    var record := RecordOf(keys, n, msgs[n]);
    assert ahead[..HEADER_SIZE] == header;
    assert |ahead| == |record|;
    SameStretch(Wire(keys, msgs), Wire(keys, msgs[..n]), ahead, record);
    assert body == record[HEADER_SIZE..];
    assert Fits(msgs[n]);
    SealOpens(keys, n, msgs[n].typ, msgs[n].content, msgs[n].pad);
  }

  lemma SameStretch(whole: seq<byte>, done: seq<byte>, a: seq<byte>, b: seq<byte>)
    requires done + a <= whole && done + b <= whole && |a| == |b|
    ensures a == b
  {
    assert a == whole[|done|..|done| + |a|];
    assert b == whole[|done|..|done| + |b|];
  }

  // ------------------------------------------------------------- what a stream says

  /** A record as it came. */
  datatype Came = Came(header: seq<byte>, body: seq<byte>)
  {
    predicate Whole()
    {
      |header| == HEADER_SIZE && GoodHeader(header) && |body| == U16(header[3], header[4])
    }
  }

  function Flat(read: seq<Came>): (bytes: seq<byte>)
  {
    if read == [] then []
    else Flat(read[..|read| - 1]) + (read[|read| - 1].header + read[|read| - 1].body)
  }

  /** ChangeCipherSpec records are passed over and have no number. */
  function Count(read: seq<Came>): (n: nat)
    requires forall k :: 0 <= k < |read| ==> read[k].Whole()
  {
    if read == [] then 0
    else Count(read[..|read| - 1]) + (if Uncounted(read[|read| - 1]) then 0 else 1)
  }

  predicate Uncounted(t: Came)
    requires t.Whole()
  {
    t.header[0] == CHANGE_CIPHER_SPEC
  }

  /** The next record is one the reader goes on after: it opens under its number, to data
      or to a message of the handshake. */
  predicate Acceptable(keys: Keys, n: nat, t: Came)
    requires t.Whole()
  {
    || t.header[0] == CHANGE_CIPHER_SPEC
    || (t.header[0] == APPLICATION && Open(keys, n, t.body).Opened? && Open(keys, n, t.body).typ in {APPLICATION, HANDSHAKE})
  }

  ghost predicate AllAcceptable(keys: Keys, read: seq<Came>)
  {
    && (forall k :: 0 <= k < |read| ==> read[k].Whole())
    && (forall k :: 0 <= k < |read| ==> Acceptable(keys, Count(read[..k]), read[k]))
  }

  function DataOf(keys: Keys, n: nat, t: Came): (data: seq<byte>)
    requires t.Whole()
  {
    if t.header[0] == APPLICATION && Open(keys, n, t.body).Opened? && Open(keys, n, t.body).typ == APPLICATION
    then Open(keys, n, t.body).content
    else []
  }

  function Plain(keys: Keys, read: seq<Came>): (data: seq<byte>)
    requires forall k :: 0 <= k < |read| ==> read[k].Whole()
  {
    if read == [] then []
    else
      var front := read[..|read| - 1];
      Plain(keys, front) + DataOf(keys, Count(front), read[|read| - 1])
  }

  /** What follows cannot be taken: a bad length, or a whole record that is not acceptable. */
  ghost predicate Refused(keys: Keys, n: nat, bad: seq<byte>)
  {
    && |bad| >= HEADER_SIZE
    && var t := Came(bad[..HEADER_SIZE], bad[HEADER_SIZE..]);
       !GoodHeader(t.header) || (t.Whole() && !Acceptable(keys, n, t))
  }

  lemma ReadOneMore(keys: Keys, read: seq<Came>, t: Came)
    requires AllAcceptable(keys, read) && t.Whole()
    ensures var more := read + [t];
            && (forall k :: 0 <= k < |more| ==> more[k].Whole())
            && Flat(more) == Flat(read) + (t.header + t.body)
            && Count(more) == Count(read) + (if t.header[0] == CHANGE_CIPHER_SPEC then 0 else 1)
            && Plain(keys, more) == Plain(keys, read) + DataOf(keys, Count(read), t)
            && (Acceptable(keys, Count(read), t) ==> AllAcceptable(keys, more))
  {
    var more := read + [t];
    assert more[..|read|] == read;
    assert forall k :: 0 <= k < |read| ==> more[..k] == read[..k];
  }

  /** From an honest peer the records read are those it sealed, and in their order. */
  lemma {:induction false} AsSealed(keys: Keys, msgs: seq<Sent>, read: seq<Came>, held: seq<byte>)
    requires keys.aead.Lawful() && AllFit(msgs) && Flat(read) + held <= Wire(keys, msgs)
    requires forall k :: 0 <= k < |read| ==> read[k].Whole()
    ensures var n := |read|;
            && n <= |msgs| && Count(read) == n && Flat(read) == Wire(keys, msgs[..n])
            && Plain(keys, read) == AppData(msgs[..n])
            && (n > 0 ==>
                  && Count(read[..n - 1]) == n - 1
                  && Open(keys, n - 1, read[n - 1].body) == Opened(msgs[n - 1].typ, msgs[n - 1].content))
  {
    if read != [] {
      var n := |read| - 1;
      var front, last := read[..n], read[n];
      assert Flat(read) + held == Flat(front) + (last.header + last.body + held);
      AsSealed(keys, msgs, front, last.header + last.body + held);
      FrontFits(Wire(keys, msgs), Flat(front), last.header + last.body, held);
      NextRecord(keys, msgs, n, last.header, last.body);
      Onward(keys, msgs, n);
      assert last.header[0] == APPLICATION && Fits(msgs[n]);
    }
  }

  lemma FrontFits(wire: seq<byte>, front: seq<byte>, next: seq<byte>, held: seq<byte>)
    requires front + (next + held) <= wire
    ensures front + next <= wire
  {
    assert front + (next + held) == (front + next) + held;
  }

  lemma NeverRefused(keys: Keys, msgs: seq<Sent>, read: seq<Came>, bad: seq<byte>)
    requires keys.aead.Lawful() && AllFit(msgs) && Flat(read) + bad <= Wire(keys, msgs)
    requires forall k :: 0 <= k < |read| ==> read[k].Whole()
    ensures !Refused(keys, Count(read), bad)
  {
    AsSealed(keys, msgs, read, bad);
    if |bad| >= HEADER_SIZE {
      NextHeader(keys, msgs, |read|, bad);
      var t := Came(bad[..HEADER_SIZE], bad[HEADER_SIZE..]);
      if t.Whole() {
        assert t.header + t.body == bad;
        NextRecord(keys, msgs, |read|, t.header, t.body);
        assert Fits(msgs[|read|]);
      }
    }
  }

  // -------------------------------------------------------------------- reader

  datatype ReadPoll = NotYet | IoError | AtEnd | TlsError | Filled

  class Reader {
    const keys: Keys
    const src: Source
    const assembler: Assembler
    var number: nat
    var plaintext: seq<byte>
    var plaintextAt: nat
    /** What the peer sealed, the records read, and everything the application has been
        given; `broken` after a record that could not be taken. */
    ghost var msgs: seq<Sent>
    ghost var read: seq<Came>
    ghost var delivered: seq<byte>
    ghost var broken: bool

    /** On any stream: the bytes taken off are whole records, each accepted under its
        number, and the bytes held; their data is what was delivered and what is left. */
    ghost predicate UpToDate(stream: seq<byte>)
      requires src.at <= |stream| && assembler.Valid() && plaintextAt <= |plaintext|
      reads this, src, assembler
    {
      && AllAcceptable(keys, read) && number == Count(read) && stream[..src.at] == Flat(read) + assembler.Held()
      && delivered + plaintext[plaintextAt..] == Plain(keys, read)
    }

    ghost predicate Valid()
      reads this, src, assembler
    {
      && src.at <= |src.stream| && assembler.Valid() && plaintextAt <= |plaintext|
      && (!broken ==> UpToDate(src.stream))
    }

    /** The stream is what the peer sealed, as far as it arrived. */
    ghost predicate InStep()
      reads this, src
    {
      keys.aead.Lawful() && AllFit(msgs) && src.stream <= Wire(keys, msgs) && !broken
    }

    /** The bytes taken off behind the records read cannot be taken. */
    ghost predicate BadNext()
      reads this, src, assembler
    {
      && src.at <= |src.stream| && AllAcceptable(keys, read) && Flat(read) <= src.stream[..src.at]
      && Refused(keys, Count(read), src.stream[..src.at][|Flat(read)|..])
    }

    lemma NothingIsBad()
      requires keys.aead.Lawful() && AllFit(msgs) && src.stream <= Wire(keys, msgs)
      ensures !BadNext()
    {
      if src.at <= |src.stream| && AllAcceptable(keys, read) && Flat(read) <= src.stream[..src.at] {
        var flat, whole := Flat(read), src.stream[..src.at];
        assert flat + whole[|flat|..] == whole;
        PrefixOfPrefix(whole, src.stream, Wire(keys, msgs));
        NeverRefused(keys, msgs, read, whole[|flat|..]);
      }
    }

    constructor (keys: Keys, src: Source, ghost msgs: seq<Sent>)
      requires src.at == 0 <= |src.stream|
      ensures Valid() && fresh(assembler) && this.keys == keys && this.src == src && this.msgs == msgs
      ensures number == 0 && delivered == []
      ensures keys.aead.Lawful() && AllFit(msgs) && src.stream <= Wire(keys, msgs) ==> InStep()
    {
      this.keys, this.src, this.msgs := keys, src, msgs;
      number, plaintext, plaintextAt := 0, [], 0;
      read, delivered, broken := [], [], false;
      assembler := new Assembler();
    }

    /** The peer has sealed more, or more has arrived. */
    ghost method Follow(more: seq<Sent>, before: seq<byte>)
      requires before <= src.stream <= Wire(keys, more) && AllFit(more) && keys.aead.Lawful() && !broken
      requires src.at <= |before| && assembler.Valid() && plaintextAt <= |plaintext| && UpToDate(before)
      modifies this`msgs
      ensures Valid() && InStep() && msgs == more
    {
      assert src.stream[..src.at] == before[..src.at];
      msgs := more;
    }

    /** Gives the application up to `room` bytes. On an honest stream nothing but
        the transport can fail, and what was given is what was sealed. */
    method PollRead(room: nat) returns (r: ReadPoll, data: seq<byte>)
      requires Valid()
      modifies this, src`at, src`answers, assembler
      ensures Valid() && delivered == old(delivered) + data && msgs == old(msgs) && old(read) <= read
      ensures old(InStep()) ==> InStep() && !r.TlsError?
      ensures if r.Filled? then |data| == room || (|data| < room && plaintextAt == |plaintext|) else data == []
      ensures old(plaintextAt < |plaintext|) ==> r.Filled? && src.at == old(src.at)
      ensures r.Filled? && data == [] && room > 0 && !broken ==> LastBrought([])
      ensures WhyStopped(r, old(src.answers))
      ensures broken == (old(broken) || r.TlsError?) && (broken && !old(broken) ==> BadNext())
    {
      r, data := Filled, [];
      if plaintextAt >= |plaintext| {
        r := FillPlaintext();
        if old(InStep()) && broken {
          NothingIsBad();
        }
        if !r.Filled? { return; }
      }
      data := HandOut(room);
    }

    /** A read that brings nothing was stopped by the transport, or by the stream. */
    ghost predicate WhyStopped(r: ReadPoll, before: seq<Poll<seq<byte>>>)
      reads this, src
    {
      match r
      case NotYet => Told(before, src.answers, Pending)
      case IoError => Told(before, src.answers, Failed)
      case AtEnd => Told(before, src.answers, Ready([]))
      case _ => true
    }

    method HandOut(room: nat) returns (data: seq<byte>)
      requires Valid()
      modifies this`plaintextAt, this`delivered
      ensures Valid() && delivered == old(delivered) + data
      ensures |data| == room || (|data| < room && plaintextAt == |plaintext|)
      ensures data == [] ==> room == 0 || old(plaintextAt) == |plaintext|
    {
      var available := |plaintext| - plaintextAt;
      var take := if available < room then available else room;
      Consumed(delivered, plaintext, plaintextAt, take);
      data := plaintext[plaintextAt..plaintextAt + take];
      plaintextAt := plaintextAt + take;
      delivered := delivered + data;
    }

    method FillPlaintext() returns (r: ReadPoll)
      requires Valid() && plaintextAt == |plaintext|
      modifies this`number, this`plaintext, this`plaintextAt, this`read, this`broken, src`at, src`answers, assembler
      ensures Valid() && WhyStopped(r, old(src.answers)) && old(read) <= read && plaintextAt == 0
      ensures broken == (old(broken) || r.TlsError?) && (broken && !old(broken) ==> BadNext())
      ensures r.Filled? && !broken ==> LastBrought(plaintext)
    {
      plaintext, plaintextAt := [], 0;
      while true
        invariant Valid() && plaintext == [] && plaintextAt == 0 && broken == old(broken)
        invariant old(read) <= read && old(src.answers) <= src.answers
        decreases |src.stream| - src.at
      {
        var record := NextFromStream();
        match record
        case Waiting => return NotYet;
        case Broken => return IoError;
        case EndOfStream => return AtEnd;
        case BadLength =>
          Refuse(assembler.Held());
          return TlsError;
        case Record(header, body) =>
          r := Digest(header, body);
          if !r.NotYet? { return; }
      }
    }

    /** One record off the stream; `NotYet` means that the reader must go on. */
    method Digest(header: seq<byte>, body: seq<byte>) returns (r: ReadPoll)
      requires Afresh(Came(header, body)) && plaintext == [] && (!broken ==> Behind(Came(header, body)))
      modifies this`number, this`plaintext, this`read, this`broken
      ensures Valid() && old(read) <= read && (r.NotYet? || r.Filled? || r.TlsError?)
      ensures r.NotYet? ==> plaintext == []
      ensures r.Filled? && !broken ==> LastBrought(plaintext)
      ensures broken == (old(broken) || r.TlsError?) && (broken && !old(broken) ==> BadNext())
    {
      ghost var t := Came(header, body);
      if header[0] == CHANGE_CIPHER_SPEC {
        Log(t);
        return NotYet;
      }
      if header[0] != APPLICATION {
        RefuseRecord(t);
        return TlsError;
      }
      r := Absorb(Open(keys, number, body), t);
    }

    /** The last record read is one of the application with this content. */
    ghost predicate LastBrought(content: seq<byte>)
      reads this
    {
      && AllAcceptable(keys, read) && read != []
      && Open(keys, Count(read[..|read| - 1]), read[|read| - 1].body) == Opened(APPLICATION, content)
    }

    /** The record `t` has just been taken off the stream. */
    ghost predicate Behind(t: Came)
      reads this, src, assembler
    {
      && AllAcceptable(keys, read) && number == Count(read) && delivered == Plain(keys, read)
      && src.at <= |src.stream| && src.stream[..src.at] == Flat(read) + (t.header + t.body)
    }

    ghost predicate Afresh(t: Came)
      reads this, src, assembler
    {
      && src.at <= |src.stream| && assembler.Valid() && assembler.Held() == [] && plaintextAt == 0 && t.Whole()
    }

    /** An accepted record that brings no data. */
    ghost method Log(t: Came)
      requires Afresh(t) && plaintext == [] && t.header[0] == CHANGE_CIPHER_SPEC && (!broken ==> Behind(t))
      modifies this`read
      ensures Valid() && old(read) <= read
    {
      ReadOnce(t, number, []);
    }

    /** `n` is the number of records now counted, and `data` what the record brought. */
    ghost method ReadOnce(t: Came, n: nat, data: seq<byte>)
      requires Afresh(t) && plaintext == data && number == n
      requires !broken ==>
        && AllAcceptable(keys, read) && delivered == Plain(keys, read) && Acceptable(keys, Count(read), t)
        && src.stream[..src.at] == Flat(read) + (t.header + t.body) && data == DataOf(keys, Count(read), t)
        && n == Count(read) + if t.header[0] == CHANGE_CIPHER_SPEC then 0 else 1
      modifies this`read
      ensures Valid() && read == if broken then old(read) else old(read) + [t]
    {
      if !broken {
        ReadOneMore(keys, read, t);
        assert Flat(read) + (t.header + t.body) + [] == Flat(read) + (t.header + t.body);
        read := read + [t];
      }
    }

    ghost method Refuse(bad: seq<byte>)
      requires src.at <= |src.stream| && assembler.Valid() && plaintextAt <= |plaintext|
      requires !broken ==> AllAcceptable(keys, read) && src.stream[..src.at] == Flat(read) + bad && Refused(keys, Count(read), bad)
      modifies this`broken
      ensures Valid() && broken && (!old(broken) ==> BadNext())
    {
      broken := true;
    }

    ghost method RefuseRecord(t: Came)
      requires Afresh(t) && plaintext == []
      requires !broken ==>
        && AllAcceptable(keys, read) && src.stream[..src.at] == Flat(read) + (t.header + t.body)
        && !Acceptable(keys, Count(read), t)
      modifies this`broken
      ensures Valid() && broken && (!old(broken) ==> BadNext())
    {
      var bad := t.header + t.body;
      assert bad[..HEADER_SIZE] == t.header && bad[HEADER_SIZE..] == t.body;
      Refuse(bad);
    }

    /** Counts an opened record and keeps its content if it is for the application. */
    method Absorb(inner: Opened, ghost t: Came) returns (r: ReadPoll)
      requires Afresh(t) && plaintext == [] && (!broken ==> Behind(t))
      requires t.header[0] == APPLICATION && inner == Open(keys, number, t.body)
      modifies this`number, this`plaintext, this`read, this`broken
      ensures Valid() && old(read) <= read && (r.NotYet? || r.Filled? || r.TlsError?)
      ensures r.NotYet? ==> plaintext == []
      ensures r.Filled? && !broken ==> LastBrought(plaintext)
      ensures broken == (old(broken) || r.TlsError?) && (broken && !old(broken) ==> BadNext())
    {
      if inner.BadRecord? {
        RefuseRecord(t);
        return TlsError;
      }
      number := number + 1;
      match inner.typ {
        case 0x17 =>
          plaintext := inner.content;
          ReadOnce(t, number, plaintext);
          assert !broken ==> read[..|read| - 1] == old(read);
          r := Filled;
        case 0x16 =>
          ReadOnce(t, number, []);
          r := NotYet;
        case _ =>
          RefuseRecord(t);
          r := TlsError;
      }
    }

    method NextFromStream() returns (r: RecordPoll)
      requires Valid() && plaintext == [] && plaintextAt == 0
      modifies src`at, src`answers, assembler
      ensures src.at <= |src.stream| && old(src.at) <= src.at && assembler.Valid()
      ensures !r.Record? ==> Valid()
      ensures r.Record? ==> old(src.at) < src.at && Afresh(Came(r.header, r.body)) && (!broken ==> Behind(Came(r.header, r.body)))
      ensures old(src.answers) <= src.answers && Explained(r, old(src.answers), src.answers, assembler.Held())
    {
      ghost var from, held := src.at, assembler.Held();
      r := assembler.PollRecord(src);
      if !broken {
        Arrived(Flat(read) + held, src.stream, from, from, src.at);
        assert src.stream[..src.at] == src.stream[..from] + src.stream[from..src.at];
        Associate(Flat(read), held, src.stream[from..src.at]);
      }
    }
  }

  // ------------------------------------------------------------ both ends at work

  /** A writer and the reader at the other end of it. */
  ghost predicate Joined(w: Writer, r: Reader)
    reads w, w.pipe, r, r.src, r.assembler
  {
    && w.Valid() && r.Valid() && r.InStep()
    && r.keys == w.keys && r.msgs == w.sent && r.src.stream <= w.pipe.wire
  }

  /** The reader was given a prefix of the bytes whose writing was reported, and its
      number did not run ahead. */
  lemma ChannelIsFaithful(w: Writer, r: Reader)
    requires Joined(w, r)
    ensures r.delivered <= w.taken && r.number <= w.number
  {
    var n, sent := r.number, w.sent;
    AsTheWriterSealed(w, r);
    var k := if w.pending == [] then |sent| else |sent| - 1;
    TakenIsWhole(w, k);
    // The last record cannot have been read while part of it has not left.
    assert n == |sent| ==> sent[..n] == sent;
    assert n <= k;
    assert sent[..k][..n] == sent[..n];
    WirePrefix(w.keys, sent[..k], n);
  }

  lemma AsTheWriterSealed(w: Writer, r: Reader)
    requires Joined(w, r)
    ensures |r.read| == r.number <= |w.sent| && r.src.stream[..r.src.at] == Wire(w.keys, w.sent[..r.number]) + r.assembler.Held()
    ensures r.delivered + r.plaintext[r.plaintextAt..] == AppData(w.sent[..r.number])
    ensures var n := r.number;
            n > 0 ==>
              && Count(r.read[..n - 1]) == n - 1
              && Open(r.keys, n - 1, r.read[n - 1].body) == Opened(w.sent[n - 1].typ, w.sent[n - 1].content)
  {
    PrefixOfPrefix(r.src.stream[..r.src.at], r.src.stream, Wire(w.keys, w.sent));
    AsSealed(w.keys, w.sent, r.read, r.assembler.Held());
  }

  /** The two ends are polled and the network moves bytes, in any order. */
  datatype Turn = Write(more: seq<byte>) | Carry(n: nat) | Read(room: nat)

  function Written(turns: seq<Turn>): (bytes: seq<byte>)
  {
    if turns == [] then []
    else Written(turns[..|turns| - 1]) + (if turns[|turns| - 1].Write? then turns[|turns| - 1].more else [])
  }

  lemma LongerWire(keys: Keys, sent: seq<Sent>, more: seq<Sent>, stream: seq<byte>)
    requires sent <= more && stream <= Wire(keys, sent)
    ensures stream <= Wire(keys, more)
  {
    assert more[..|sent|] == sent;
    WirePrefix(keys, more, |sent|);
    PrefixOfPrefix(stream, Wire(keys, sent), Wire(keys, more));
  }

  /** The transport kept the turn from bringing anything. */
  ghost predicate WriteStopped(before: seq<Poll<nat>>, answers: seq<Poll<nat>>)
  {
    Told(before, answers, Pending) || Told(before, answers, Failed) || Told(before, answers, Ready(0))
  }

  ghost predicate ReadStopped(before: seq<Poll<seq<byte>>>, answers: seq<Poll<seq<byte>>>)
  {
    Told(before, answers, Pending) || Told(before, answers, Failed) || Told(before, answers, Ready([]))
  }

  /** The writer's caller keeps what was not taken and comes back with it. */
  method WriteTurn(w: Writer, r: Reader, queue: seq<byte>) returns (left: seq<byte>)
    requires Joined(w, r) && w.promised <= queue
    modifies w, w.pipe, r`msgs
    ensures Joined(w, r) && w.promised <= left
    ensures old(w.taken) <= w.taken && w.taken + left == old(w.taken) + queue
    ensures old(w.sent) <= w.sent && r.delivered == old(r.delivered)
    ensures |left| < |queue| || queue == [] || WriteStopped(old(w.pipe.answers), w.pipe.answers)
  {
    ghost var stream := r.src.stream;
    left := Polled(w, queue);
    LongerWire(r.keys, r.msgs, w.sent, stream);
    r.Follow(w.sent, stream);
  }

  method Polled(w: Writer, queue: seq<byte>) returns (left: seq<byte>)
    requires w.Valid() && w.promised <= queue
    modifies w, w.pipe
    ensures w.Valid() && AllFit(w.sent) && old(w.sent) <= w.sent && old(w.pipe.wire) <= w.pipe.wire
    ensures w.promised <= left && old(w.taken) <= w.taken && w.taken + left == old(w.taken) + queue
    ensures |left| < |queue| || queue == [] || WriteStopped(old(w.pipe.answers), w.pipe.answers)
  {
    ghost var taken := w.taken;
    var n := w.PollWrite(queue);
    if !n.Ready? { return queue; }
    TakenAndLeft(taken, queue, n.value);
    left := queue[n.value..];
  }

  lemma TakenAndLeft(taken: seq<byte>, queue: seq<byte>, n: nat)
    requires n <= |queue|
    ensures taken + queue[..n] + queue[n..] == taken + queue
  {
  }

  method CarryTurn(w: Writer, r: Reader, n: nat)
    requires Joined(w, r)
    modifies r.src`stream, r`msgs
    ensures Joined(w, r)
  {
    ghost var before := r.src.stream;
    r.src.Carry(w.pipe, n);
    PrefixOfPrefix(r.src.stream, w.pipe.wire, Wire(w.keys, w.sent));
    r.Follow(w.sent, before);
  }

  method ReadTurn(w: Writer, r: Reader, room: nat) returns (data: seq<byte>)
    requires Joined(w, r)
    modifies r, r.src`at, r.src`answers, r.assembler
    ensures Joined(w, r) && r.delivered == old(r.delivered) + data
    ensures data == [] ==> room == 0 || ReadStopped(old(r.src.answers), r.src.answers)
  {
    var polled;
    polled, data := r.PollRead(room);
    assert !polled.TlsError?;
    AsTheWriterSealed(w, r);
  }

  /** When all bytes are through, so is all data: nothing is kept back on the way. */
  lemma NothingIsKept(w: Writer, r: Reader)
    requires Joined(w, r) && w.pending == [] && r.src.at == |w.pipe.wire| && r.plaintextAt == |r.plaintext|
    ensures r.delivered == w.taken
  {
    AsTheWriterSealed(w, r);
    assert w.pipe.wire + w.pending[w.pendingAt..] == w.pipe.wire == r.src.stream[..r.src.at];
    r.assembler.HeldIsPart();
    IsWholeWire(w.keys, w.sent, r.number, r.assembler.Held());
    assert w.sent[..r.number] == w.sent;
    assert r.delivered + r.plaintext[r.plaintextAt..] == r.delivered;
  }

  lemma IsWholeWire(keys: Keys, sent: seq<Sent>, n: nat, held: seq<byte>)
    requires keys.aead.Lawful() && AllFit(sent) && n <= |sent| && Wire(keys, sent) == Wire(keys, sent[..n]) + held
    requires HEADER_SIZE < |held| ==> |held| < HEADER_SIZE + U16(held[3], held[4])
    ensures n == |sent|
  {
    if n < |sent| {
      Onward(keys, sent, n);
      RecordLength(keys, n, sent[n]);
      NextHeader(keys, sent, n, held);
    }
  }

  /** How far one direction has come: what its application wrote, what the writer took
      of it, and what the application at the other end was given. */
  datatype Progress = Progress(written: seq<byte>, taken: seq<byte>, given: seq<byte>)
  {
    predicate InOrder()
    {
      given <= taken <= written
    }

    predicate GoesOn(next: Progress)
    {
      written <= next.written && taken <= next.taken && given <= next.given
    }
  }

  method NewEnds(keys: Keys, wire: seq<byte>, dummies: seq<Sent>) returns (w: Writer, r: Reader)
    requires keys.aead.Lawful() && AllFit(dummies) && wire == Wire(keys, dummies)
    requires forall i :: 0 <= i < |dummies| ==> dummies[i].typ == HANDSHAKE
    ensures Joined(w, r) && w.keys == keys && w.sent == dummies && w.taken == w.promised == r.delivered == []
    ensures fresh({w, w.pipe, r, r.src, r.assembler})
  {
    var pipe := new Pipe(wire);
    var src := new Source();
    w := new Writer(keys, pipe, dummies);
    r := new Reader(keys, src, dummies);
  }

  /** One direction at work: the two ends share the pipe, the application keeps what the
      writer has not taken, and the other one collects what it is given. */
  class Channel {
    const w: Writer
    const r: Reader
    var queue: seq<byte>
    var given: seq<byte>
    ghost var written: seq<byte>

    ghost function Repr(): (objects: set<object>)
    {
      {this, w, w.pipe, r, r.src, r.assembler}
    }

    ghost predicate Valid()
      reads Repr()
    {
      Joined(w, r) && w.promised <= queue && w.taken + queue == written && r.delivered == given
    }

    ghost function Now(): (p: Progress)
      reads Repr()
    {
      Progress(written, w.taken, given)
    }

    /** Nothing has been written yet but the dummies. */
    ghost predicate Fresh(keys: Keys, dummies: seq<Sent>)
      reads Repr()
    {
      Valid() && w.keys == keys && w.sent == dummies && Now() == Progress([], [], [])
    }

    /** Takes over after the handshake, which may have left dummy records on the wire. */
    constructor (keys: Keys, wire: seq<byte>, dummies: seq<Sent>)
      requires keys.aead.Lawful() && AllFit(dummies) && wire == Wire(keys, dummies)
      requires forall i :: 0 <= i < |dummies| ==> dummies[i].typ == HANDSHAKE
      ensures Fresh(keys, dummies) && fresh(Repr())
    {
      var writer, reader := NewEnds(keys, wire, dummies);
      w, r, queue, given, written := writer, reader, [], [], [];
    }

    /** What was written has all been given when the wire is empty and nothing is left to
        take or to hand out. */
    lemma AllGiven()
      requires Valid() && queue == [] && r.src.at == |w.pipe.wire| && r.plaintextAt == |r.plaintext|
      ensures given == written
    {
      NothingIsKept(w, r);
    }

    lemma IsInOrder()
      requires Valid()
      ensures Now().InOrder()
    {
      ChannelIsFaithful(w, r);
    }

    method Offer(more: seq<byte>)
      requires Valid()
      modifies this`queue, this`written, w, w.pipe, r`msgs
      ensures Valid() && written == old(written) + more && old(Now()).GoesOn(Now()) && old(w.sent) <= w.sent
      ensures w.taken == old(w.taken) ==> queue == [] || WriteStopped(old(w.pipe.answers), w.pipe.answers)
    {
      Associate(w.taken, queue, more);
      queue := WriteTurn(w, r, queue + more);
      written := written + more;
    }

    method Bring(n: nat)
      requires Valid()
      modifies r.src`stream, r`msgs
      ensures Valid() && Now() == old(Now()) && w.sent == old(w.sent)
    {
      CarryTurn(w, r, n);
    }

    method GiveOut(room: nat)
      requires Valid()
      modifies this`given, r, r.src`at, r.src`answers, r.assembler
      ensures Valid() && old(Now()).GoesOn(Now()) && written == old(written) && w.sent == old(w.sent)
      ensures given == old(given) ==> room == 0 || ReadStopped(old(r.src.answers), r.src.answers)
    {
      var data := ReadTurn(w, r, room);
      given := given + data;
    }

    method Take(turn: Turn)
      requires Valid()
      modifies Repr()
      ensures Valid() && old(Now()).GoesOn(Now()) && old(w.sent) <= w.sent
      ensures written == if turn.Write? then old(written) + turn.more else old(written)
    {
      match turn {
        case Write(more) => Offer(more);
        case Carry(n) => Bring(n);
        case Read(room) => GiveOut(room);
      }
    }
  }

  /** The application was always given a prefix of what the writer reported taken, and
      that was a prefix of what the other application had written. */
  ghost predicate Logged(log: seq<Progress>, turns: seq<Turn>)
  {
    && |log| == |turns| + 1
    && (forall k :: 0 <= k <= |turns| ==> log[k].InOrder() && log[k].written == Written(turns[..k]))
    && (forall k :: 0 <= k < |turns| ==> log[k].GoesOn(log[k + 1]))
  }

  lemma NothingLogged()
    ensures Logged([Progress([], [], [])], [])
  {
  }

  lemma LoggedOneMore(log: seq<Progress>, turns: seq<Turn>, turn: Turn, before: Progress, p: Progress)
    requires Logged(log, turns) && log[|turns|] == before && before.GoesOn(p) && p.InOrder()
    requires p.written == if turn.Write? then before.written + turn.more else before.written
    ensures Logged(log + [p], turns + [turn])
  {
    var all, longer := turns + [turn], log + [p];
    WrittenOneMore(turns, turn);
    assert turns[..|turns|] == turns;
    forall k | 0 <= k <= |all|
      ensures longer[k].InOrder() && longer[k].written == Written(all[..k])
    {
      if k < |all| {
        assert longer[k] == log[k] && all[..k] == turns[..k];
      } else {
        assert all[..k] == all;
      }
    }
  }

  lemma WrittenOneMore(turns: seq<Turn>, turn: Turn)
    ensures Written(turns + [turn]) == Written(turns) + (if turn.Write? then turn.more else [])
  {
    assert (turns + [turn])[..|turns|] == turns;
  }

  method NextTurn(ch: Channel, ghost done: seq<Turn>, turn: Turn, ghost log: seq<Progress>)
    returns (ghost longer: seq<Progress>)
    requires ch.Valid() && Logged(log, done) && log[|done|] == ch.Now()
    modifies ch.Repr()
    ensures ch.Valid() && old(ch.w.sent) <= ch.w.sent
    ensures Logged(longer, done + [turn]) && longer[|done| + 1] == ch.Now()
  {
    ch.Take(turn);
    ch.IsInOrder();
    LoggedOneMore(log, done, turn, log[|done|], ch.Now());
    longer := log + [ch.Now()];
  }

  lemma OneFurther(turns: seq<Turn>, i: nat)
    requires i < |turns|
    ensures turns[..i + 1] == turns[..i] + [turns[i]]
  {
  }

  /** Writes, reads and the network in any order, and what is so after every turn. */
  method Converse(ch: Channel, turns: seq<Turn>) returns (ghost log: seq<Progress>)
    requires ch.Valid() && ch.Now() == Progress([], [], [])
    modifies ch.Repr()
    ensures ch.Valid() && Logged(log, turns) && log[|turns|] == ch.Now()
  {
    log := [Progress([], [], [])];
    NothingLogged();
    for i := 0 to |turns|
      invariant ch.Valid() && Logged(log, turns[..i]) && log[i] == ch.Now()
    {
      log := NextTurn(ch, turns[..i], turns[i], log);
      OneFurther(turns, i);
    }
    assert turns[..|turns|] == turns;
  }

  lemma TakenIsWhole(w: Writer, k: nat)
    requires w.Valid() && k == if w.pending == [] then |w.sent| else |w.sent| - 1
    ensures AppData(w.sent[..k]) == w.taken
  {
    var sent := w.sent;
    assert sent == sent[..|sent|];
    if w.pending != [] {
      Onward(w.keys, sent, k);
      SameFront(w.taken, AppData(sent[..k]), w.promised);
    }
  }

  lemma SameFront(a: seq<byte>, b: seq<byte>, tail: seq<byte>)
    requires a + tail == b + tail
    ensures a == b
  {
    assert |a| == |b|;
    assert a == (a + tail)[..|a|];
    assert b == (b + tail)[..|b|];
  }
}
