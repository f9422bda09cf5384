/** The pump's bounded buffer: its operations, and the producer and consumer
    threads that share it, as one step per critical section. */
module Buffers {
  import opened Batches

  datatype Buffer<T> = Buffer(
    maxEvents: nat, maxBytes: nat, items: seq<(T, nat)>, bytes: int,
    closed: bool, aborted: bool, highEvents: int, highBytes: int, waits: nat)

  function Fresh<T>(maxEvents: nat, maxBytes: nat): Buffer<T> {
    Buffer(maxEvents, maxBytes, [], 0, false, false, 0, 0, 0)
  }

  function Rows<T>(items: seq<(T, nat)>): seq<T> {
    seq(|items|, i requires 0 <= i < |items| => items[i].0)
  }

  function Bytes<T>(items: seq<(T, nat)>): nat {
    if items == [] then 0 else items[0].1 + Bytes(items[1..])
  }

  function Larger(a: int, b: int): int { if a < b then b else a }

  /** `_full_for`: an empty buffer always admits one event. */
  predicate FullFor<T>(b: Buffer<T>, size: nat) {
    b.items != [] && (|b.items| >= b.maxEvents || b.bytes + size > b.maxBytes)
  }

  /** The append at the end of `put`. */
  function Append<T>(b: Buffer<T>, row: T, size: nat): Buffer<T> {
    var items, bytes := b.items + [(row, size)], b.bytes + size;
    b.(items := items, bytes := bytes, highEvents := Larger(b.highEvents, |items|), highBytes := Larger(b.highBytes, bytes))
  }

  function BatchLength<T>(b: Buffer<T>, maxItems: nat): nat {
    if |b.items| < maxItems then |b.items| else maxItems
  }

  /** What `get_batch` leaves once it stops waiting. */
  function Drop<T>(b: Buffer<T>, n: nat): Buffer<T>
    requires n <= |b.items|
  {
    b.(items := b.items[n..], bytes := b.bytes - Bytes(b.items[..n]))
  }

  function Abort<T>(b: Buffer<T>): Buffer<T> {
    b.(aborted := true, closed := true, items := [], bytes := 0)
  }

  /** The ceiling: bounded count, exact byte account, and more bytes than the cap only while one event is held. */
  ghost predicate WithinCeiling<T>(b: Buffer<T>) {
    && |b.items| <= b.maxEvents
    && b.bytes == Bytes(b.items)
    && (b.bytes <= b.maxBytes || |b.items| == 1)
    && b.highEvents <= b.maxEvents
  }

  datatype PutResult = Blocked | Refused | Stored

  class BoundedBuffer<T> {
    const maxEvents: nat
    const maxBytes: nat
    var items: seq<(T, nat)>
    var bytes: int
    var closed: bool
    var aborted: bool
    var highWaterEvents: int
    var highWaterBytes: int
    var producerWaits: nat

    ghost function View(): Buffer<T>
      reads this
    {
      Buffer(maxEvents, maxBytes, items, bytes, closed, aborted, highWaterEvents, highWaterBytes, producerWaits)
    }

    constructor (maxEvents: nat, maxBytes: nat)
      ensures View() == Fresh(maxEvents, maxBytes)
    {
      this.maxEvents, this.maxBytes := maxEvents, maxBytes;
      items, bytes, closed, aborted := [], 0, false, false;
      highWaterEvents, highWaterBytes, producerWaits := 0, 0, 0;
    }

    /** One pass of `put` under the lock. `Blocked` is where the code waits; `again`
        tells a woken producer, which is not counted as a new wait. */
    method Put(row: T, size: nat, again: bool) returns (r: PutResult)
      modifies this
      ensures r == if aborted then Refused else if FullFor(old(View()), size) then Blocked else Stored
      ensures View() == match r
                        case Stored => Append(old(View()), row, size)
                        case Blocked => old(View()).(waits := old(producerWaits) + if again then 0 else 1)
                        case Refused => old(View())
      ensures r == Refused <==> old(aborted)
      ensures r == Blocked <==> !old(aborted) && old(items) != [] && (|old(items)| >= maxEvents || old(bytes) + size > maxBytes)
      ensures items == old(items) + (if r.Stored? then [(row, size)] else []) && bytes == old(bytes) + (if r.Stored? then size else 0)
      ensures producerWaits == old(producerWaits) + (if r.Blocked? && !again then 1 else 0)
      ensures highWaterEvents >= old(highWaterEvents) && highWaterEvents in [old(highWaterEvents), |items|]
      ensures highWaterBytes >= old(highWaterBytes) && highWaterBytes in [old(highWaterBytes), bytes]
      ensures r.Stored? ==> highWaterEvents >= |items| && highWaterBytes >= bytes
    {
      var full := items != [] && (|items| >= maxEvents || bytes + size > maxBytes);
      if full && !aborted {
        if !again { producerWaits := producerWaits + 1; }
        return Blocked;
      }
      if aborted { return Refused; }
      items := items + [(row, size)];
      bytes := bytes + size;
      highWaterEvents := Larger(highWaterEvents, |items|);
      highWaterBytes := Larger(highWaterBytes, bytes);
      r := Stored;
    }

    /** One pass of `get_batch`; `ready` is false where the code waits. */
    method GetBatch(maxItems: nat) returns (ready: bool, batch: seq<T>)
      modifies this
      ensures ready == (old(items) != [] || closed)
      ensures !ready ==> View() == old(View()) && batch == []
      ensures ready ==> var n := BatchLength(old(View()), maxItems);
                        batch == Rows(old(items)[..n]) && View() == Drop(old(View()), n)
      ensures ready ==> |batch| <= maxItems && |batch| <= |old(items)| && |batch| in [maxItems, |old(items)|]
      ensures items == old(items)[|batch|..] && forall i | 0 <= i < |batch| :: batch[i] == old(items)[i].0
    {
      batch := [];
      if items == [] && !closed { return false, []; }
      ghost var all := items;
      while items != [] && |batch| < maxItems
        invariant |batch| <= |all| && items == all[|batch|..]
        invariant |batch| <= maxItems
        invariant batch == Rows(all[..|batch|])
        invariant bytes == old(bytes) - Bytes(all[..|batch|])
        invariant View() == old(View()).(items := items, bytes := bytes)
      {
        var (row, size) := items[0];
        BytesOfSnoc(all[..|batch|], items[0]);
        assert all[..|batch| + 1] == all[..|batch|] + [items[0]];
        items := items[1..];
        bytes := bytes - size;
        batch := batch + [row];
      }
      ready := true;
    }

    method Close()
      modifies this`closed
      ensures closed
    {
      closed := true;
    }

    method Discard()
      modifies this
      ensures View() == Abort(old(View()))
    {
      aborted := true;
      closed := true;
      items := [];
      bytes := 0;
    }
  }

  lemma {:induction false} BytesOfSnoc<T>(items: seq<(T, nat)>, x: (T, nat))
    ensures Bytes(items + [x]) == Bytes(items) + x.1
  {
    if items != [] {
      assert (items + [x])[1..] == items[1..] + [x];
      BytesOfSnoc(items[1..], x);
    }
  }

  lemma {:induction false} BytesSplit<T>(items: seq<(T, nat)>, n: nat)
    requires n <= |items|
    ensures Bytes(items) == Bytes(items[..n]) + Bytes(items[n..])
  {
    if n > 0 {
      assert items[..n][1..] == items[1..][..n - 1] && items[n..] == items[1..][n - 1..];
      BytesSplit(items[1..], n - 1);
    }
  }

  // -- the two threads ------------------------------------------------------

  datatype Producer = Running | Waiting | Stopped
  datatype Consumer = Consuming | Finished | Failed

  /** `todo` is what the producer has not read yet, `batches` what the store was handed. */
  datatype System<T> = System(
    buf: Buffer<T>, todo: seq<(T, nat)>, producer: Producer, consumer: Consumer, batches: seq<seq<T>>, streamError: bool)

  datatype Step = PutStep | EndStep | ErrorStep | GetStep | FailStep

  function Start<T>(maxEvents: nat, maxBytes: nat, stream: seq<(T, nat)>): System<T> {
    System(Fresh(maxEvents, maxBytes), stream, Running, Consuming, [], false)
  }

  /** A thread that would only wait is not enabled. */
  predicate Enabled<T>(s: System<T>, step: Step) {
    match step
    case PutStep => !s.producer.Stopped? && s.todo != []
                    && (s.buf.aborted || s.producer.Running? || !FullFor(s.buf, s.todo[0].1))
    case EndStep => s.producer.Running? && s.todo == []
    case ErrorStep => s.producer.Running?
    case GetStep => s.consumer.Consuming? && (s.buf.items != [] || s.buf.closed)
    case FailStep => s.consumer.Consuming?
  }

  function Stop<T>(s: System<T>): System<T> {
    s.(producer := Stopped, buf := s.buf.(closed := true))
  }

  /** One critical section of one thread. The last step of a producer closes the buffer in its `finally`. */
  function Next<T>(s: System<T>, step: Step, batchSize: nat): System<T>
    requires Enabled(s, step)
  {
    match step
    case PutStep =>
      if s.buf.aborted then Stop(s)
      else if FullFor(s.buf, s.todo[0].1) then s.(producer := Waiting, buf := s.buf.(waits := s.buf.waits + 1))
      else s.(buf := Append(s.buf, s.todo[0].0, s.todo[0].1), todo := s.todo[1..], producer := Running)
    case EndStep => Stop(s)
    case ErrorStep => Stop(s).(streamError := true)
    case GetStep =>
      var n := BatchLength(s.buf, batchSize);
      if n == 0 then s.(consumer := Finished)
      else s.(buf := Drop(s.buf, n), batches := s.batches + [Rows(s.buf.items[..n])])
    case FailStep => s.(buf := Abort(s.buf), consumer := Failed)
  }

  /** FIFO and nothing dropped, under the ceiling, in every state. */
  ghost predicate Inv<T>(s: System<T>, stream: seq<(T, nat)>) {
    && WithinCeiling(s.buf)
    && (s.buf.closed <==> s.producer.Stopped? || s.buf.aborted)
    && (s.buf.aborted <==> s.consumer.Failed?)
    && (!s.buf.aborted ==> Flatten(s.batches) + Rows(s.buf.items) + Rows(s.todo) == Rows(stream))
    && Flatten(s.batches) <= Rows(stream)
    && (s.consumer.Finished? ==> s.buf.closed && s.buf.items == [])
    && (s.producer.Stopped? && !s.streamError && !s.buf.aborted ==> s.todo == [])
    && (s.streamError ==> s.producer.Stopped?)
    && (s.producer.Waiting? ==> s.todo != [])
  }

  lemma StartInv<T>(maxEvents: nat, maxBytes: nat, stream: seq<(T, nat)>)
    ensures Inv(Start(maxEvents, maxBytes, stream), stream)
  {}

  lemma RowsOfConcat<T>(a: seq<(T, nat)>, b: seq<(T, nat)>)
    ensures Rows(a + b) == Rows(a) + Rows(b)
  {}

  lemma PutKeepsInv<T>(s: System<T>, batchSize: nat, stream: seq<(T, nat)>)
    requires Inv(s, stream) && Enabled(s, PutStep) && s.buf.maxEvents > 0
    ensures Inv(Next(s, PutStep, batchSize), stream)
  {
    if !s.buf.aborted && !FullFor(s.buf, s.todo[0].1) {
      BytesOfSnoc(s.buf.items, s.todo[0]);
      assert s.todo == [s.todo[0]] + s.todo[1..];
      RowsOfConcat([s.todo[0]], s.todo[1..]);
      RowsOfConcat(s.buf.items, [s.todo[0]]);
      var t := Next(s, PutStep, batchSize);
      assert t.buf.items == s.buf.items + [s.todo[0]];
      assert Rows(t.buf.items) + Rows(t.todo) == Rows(s.buf.items) + Rows(s.todo);
      assert Flatten(t.batches) + Rows(t.buf.items) + Rows(t.todo) == Flatten(s.batches) + (Rows(s.buf.items) + Rows(s.todo));
    }
  }

  lemma DropKeepsCeiling<T>(b: Buffer<T>, n: nat)
    requires WithinCeiling(b) && n <= |b.items|
    ensures WithinCeiling(Drop(b, n))
  {
    BytesSplit(b.items, n);
    if |b.items[n..]| != 1 && b.bytes > b.maxBytes {
      assert b.items[n..] == [];
    }
  }

  /** Handing over the front of the buffer moves it, in order, to the end of what was received. */
  lemma HandOver<T>(batches: seq<seq<T>>, items: seq<(T, nat)>, todo: seq<(T, nat)>, n: nat)
    requires n <= |items|
    ensures Flatten(batches + [Rows(items[..n])]) == Flatten(batches) + Rows(items[..n])
    ensures Flatten(batches + [Rows(items[..n])]) + Rows(items[n..]) + Rows(todo) == Flatten(batches) + Rows(items) + Rows(todo)
  {
    hide Flatten, Rows;
    FlattenOneMore(batches, Rows(items[..n]));
    assert items == items[..n] + items[n..];
    RowsOfConcat(items[..n], items[n..]);
    var sent, front, rest, later := Flatten(batches), Rows(items[..n]), Rows(items[n..]), Rows(todo);
    assert (sent + front) + rest + later == sent + (front + rest) + later;
  }

  lemma GetKeepsInv<T>(s: System<T>, batchSize: nat, stream: seq<(T, nat)>)
    requires Inv(s, stream) && Enabled(s, GetStep) && batchSize > 0
    ensures Inv(Next(s, GetStep, batchSize), stream)
  {
    hide Flatten, Rows;
    var n := BatchLength(s.buf, batchSize);
    if n > 0 {
      DropKeepsCeiling(s.buf, n);
      HandOver(s.batches, s.buf.items, s.todo, n);
      var t := Next(s, GetStep, batchSize);
      assert !s.buf.aborted;
      assert Flatten(t.batches) + Rows(t.buf.items) + Rows(t.todo) == Rows(stream);
      var rest := Rows(t.buf.items) + Rows(t.todo);
      assert Flatten(t.batches) + rest == Rows(stream);
    }
  }

  lemma StepKeepsInv<T>(s: System<T>, step: Step, batchSize: nat, stream: seq<(T, nat)>)
    requires Inv(s, stream) && Enabled(s, step) && s.buf.maxEvents > 0 && batchSize > 0
    ensures Inv(Next(s, step, batchSize), stream)
  {
    match step
    case PutStep => PutKeepsInv(s, batchSize, stream);
    case GetStep => GetKeepsInv(s, batchSize, stream);
    case _ =>
  }

  /** A schedule of enabled steps from `s` to `t`. */
  ghost predicate Runs<T>(s: System<T>, steps: seq<Step>, batchSize: nat, t: System<T>)
    decreases |steps|
  {
    if steps == [] then s == t else Enabled(s, steps[0]) && Runs(Next(s, steps[0], batchSize), steps[1..], batchSize, t)
  }

  lemma {:induction false} RunKeepsInv<T>(s: System<T>, steps: seq<Step>, batchSize: nat, t: System<T>, stream: seq<(T, nat)>)
    requires Inv(s, stream) && s.buf.maxEvents > 0 && batchSize > 0
    requires Runs(s, steps, batchSize, t)
    ensures Inv(t, stream) && t.buf.maxEvents == s.buf.maxEvents && t.buf.maxBytes == s.buf.maxBytes
    decreases |steps|
  {
    if steps != [] {
      StepKeepsInv(s, steps[0], batchSize, stream);
      RunKeepsInv(Next(s, steps[0], batchSize), steps[1..], batchSize, t, stream);
    }
  }

  /** Under every interleaving: what the store was handed followed by what is buffered and unread is the
      stream, in order; the buffer is under its ceiling; a consumer that finished received everything
      the producer read, which is the whole stream unless reading it failed. */
  lemma BufferIsFaithful<T>(maxEvents: nat, maxBytes: nat, stream: seq<(T, nat)>, steps: seq<Step>, batchSize: nat, t: System<T>)
    requires maxEvents > 0 && batchSize > 0
    requires Runs(Start(maxEvents, maxBytes, stream), steps, batchSize, t)
    ensures |t.buf.items| <= maxEvents && (t.buf.bytes <= maxBytes || |t.buf.items| == 1)
    ensures Flatten(t.batches) <= Rows(stream)
    ensures !t.buf.aborted ==> Flatten(t.batches) + Rows(t.buf.items) + Rows(t.todo) == Rows(stream)
    ensures t.consumer.Finished? && !t.streamError ==> Flatten(t.batches) == Rows(stream)
  {
    StartInv(maxEvents, maxBytes, stream);
    RunKeepsInv(Start(maxEvents, maxBytes, stream), steps, batchSize, t, stream);
    if t.consumer.Finished? && !t.streamError {
      assert Rows(t.buf.items) == [] && Rows(t.todo) == [];
    }
  }

  // -- no deadlock ----------------------------------------------------------

  predicate Over<T>(s: System<T>) { s.producer.Stopped? && !s.consumer.Consuming? }

  /** Work left; every step of either thread lowers it. */
  function Work<T>(s: System<T>): nat {
    3 * |s.todo| + |s.buf.items|
    + (match s.producer case Running => 2 case Waiting => 1 case Stopped => 0)
    + (if s.consumer.Consuming? then 1 else 0)
  }

  /** The two threads are never both blocked: until both are done, one of them can step without
      anything failing, and whatever steps, the work left shrinks. */
  lemma NeverBothBlocked<T>(s: System<T>, batchSize: nat, stream: seq<(T, nat)>)
    requires Inv(s, stream) && batchSize > 0
    ensures !Over(s) ==> Enabled(s, PutStep) || Enabled(s, EndStep) || Enabled(s, GetStep)
    ensures forall step | Enabled(s, step) :: Work(Next(s, step, batchSize)) < Work(s)
  {}

  /** Every schedule is finite, whoever is scheduled when. */
  lemma {:induction false} SchedulesAreFinite<T>(s: System<T>, steps: seq<Step>, batchSize: nat, t: System<T>, stream: seq<(T, nat)>)
    requires Inv(s, stream) && s.buf.maxEvents > 0 && batchSize > 0
    requires Runs(s, steps, batchSize, t)
    ensures |steps| + Work(t) <= Work(s)
    decreases |steps|
  {
    if steps != [] {
      StepKeepsInv(s, steps[0], batchSize, stream);
      NeverBothBlocked(s, batchSize, stream);
      SchedulesAreFinite(Next(s, steps[0], batchSize), steps[1..], batchSize, t, stream);
    }
  }

  /** ... and one that stops only because neither thread can go on, with no failure on either side, has
      handed the whole stream to the store. */
  lemma RunToTheEnd<T>(maxEvents: nat, maxBytes: nat, stream: seq<(T, nat)>, steps: seq<Step>, batchSize: nat, t: System<T>)
    requires maxEvents > 0 && batchSize > 0
    requires Runs(Start(maxEvents, maxBytes, stream), steps, batchSize, t)
    requires !Enabled(t, PutStep) && !Enabled(t, EndStep) && !Enabled(t, GetStep)
    requires !t.streamError && !t.consumer.Failed?
    ensures Flatten(t.batches) == Rows(stream) && |steps| <= 3 * |stream| + 3
  {
    StartInv(maxEvents, maxBytes, stream);
    RunKeepsInv(Start(maxEvents, maxBytes, stream), steps, batchSize, t, stream);
    NeverBothBlocked(t, batchSize, stream);
    BufferIsFaithful(maxEvents, maxBytes, stream, steps, batchSize, t);
    SchedulesAreFinite(Start(maxEvents, maxBytes, stream), steps, batchSize, t, stream);
  }

  // -- high-water marks and waits -------------------------------------------

  /** A put is refused after an abort, blocks exactly while the row does not fit beside what is held, and otherwise
      stores the row. */
  lemma PutTells<T>(s: System<T>, batchSize: nat)
    requires Enabled(s, PutStep)
    ensures var t := Next(s, PutStep, batchSize);
            var (row, size) := s.todo[0];
            var full := s.buf.items != [] && (|s.buf.items| >= s.buf.maxEvents || s.buf.bytes + size > s.buf.maxBytes);
            if s.buf.aborted then t.producer.Stopped? && t.buf.items == s.buf.items && t.todo == s.todo
            else if full then t.producer.Waiting? && t.buf.items == s.buf.items && t.todo == s.todo
            else t.producer.Running? && t.buf.items == s.buf.items + [(row, size)] && t.todo == s.todo[1..]
  {}

  /** How often the producer went from running to waiting. */
  ghost function Waits<T>(s: System<T>, steps: seq<Step>, batchSize: nat): nat
    decreases |steps|
  {
    if steps == [] || !Enabled(s, steps[0]) then 0 else
    var t := Next(s, steps[0], batchSize);
    (if s.producer.Running? && t.producer.Waiting? then 1 else 0) + Waits(t, steps[1..], batchSize)
  }

  /** The schedule passes through `u`. */
  ghost predicate Passes<T>(s: System<T>, steps: seq<Step>, batchSize: nat, n: nat, u: System<T>) {
    n <= |steps| && Runs(s, steps[..n], batchSize, u)
  }

  /** The marks cover what is held. */
  ghost predicate Marked<T>(b: Buffer<T>) { |b.items| <= b.highEvents && b.bytes <= b.highBytes && b.bytes == Bytes(b.items) && b.highBytes >= 0 }

  lemma NextIsMarked<T>(s: System<T>, step: Step, batchSize: nat)
    requires Enabled(s, step) && Marked(s.buf)
    ensures var t := Next(s, step, batchSize);
            && Marked(t.buf)
            && t.buf.highEvents >= s.buf.highEvents && (t.buf.highEvents == s.buf.highEvents || t.buf.highEvents == |t.buf.items|)
            && t.buf.highBytes >= s.buf.highBytes && (t.buf.highBytes == s.buf.highBytes || t.buf.highBytes == t.buf.bytes)
            && t.buf.waits == s.buf.waits + if s.producer.Running? && t.producer.Waiting? then 1 else 0
  {
    hide Rows;
    match step
    case PutStep =>
      if s.todo != [] {
        BytesOfSnoc(s.buf.items, (s.todo[0].0, s.todo[0].1));
      }
    case GetStep =>
      BytesSplit(s.buf.items, BatchLength(s.buf, batchSize));
    case _ =>
  }

  lemma PassesOne<T>(s: System<T>, steps: seq<Step>, batchSize: nat, n: nat, u: System<T>)
    requires steps != [] && Enabled(s, steps[0])
    ensures n > 0 ==> (Passes(s, steps, batchSize, n, u) <==> Passes(Next(s, steps[0], batchSize), steps[1..], batchSize, n - 1, u))
    ensures Passes(s, steps, batchSize, 0, u) <==> u == s
  {
    if 0 < n <= |steps| {
      assert steps[..n][0] == steps[0] && steps[..n][1..] == steps[1..][..n - 1];
    }
  }

  /** Over every schedule the marks are the most events and the most bytes ever held, and the wait counter is how
      often the producer had to start waiting. */
  lemma {:induction false} MarksArePeaks<T>(s: System<T>, steps: seq<Step>, batchSize: nat, t: System<T>)
    requires Marked(s.buf) && Runs(s, steps, batchSize, t)
    ensures Marked(t.buf) && t.buf.highEvents >= s.buf.highEvents && t.buf.highBytes >= s.buf.highBytes
    ensures t.buf.waits == s.buf.waits + Waits(s, steps, batchSize)
    ensures forall n: nat, u | Passes(s, steps, batchSize, n, u) :: |u.buf.items| <= t.buf.highEvents && u.buf.bytes <= t.buf.highBytes
    ensures t.buf.highEvents == s.buf.highEvents || exists n: nat, u :: Passes(s, steps, batchSize, n, u) && |u.buf.items| == t.buf.highEvents
    ensures t.buf.highBytes == s.buf.highBytes || exists n: nat, u :: Passes(s, steps, batchSize, n, u) && u.buf.bytes == t.buf.highBytes
    decreases |steps|
  {
    hide Next, Enabled, Marked;
    if steps == [] {
      forall n: nat, u | Passes(s, steps, batchSize, n, u) ensures u == s {}
      MarkedCovers(s.buf);
    } else {
      var v := Next(s, steps[0], batchSize);
      NextIsMarked(s, steps[0], batchSize);
      MarksArePeaks(v, steps[1..], batchSize, t);
      MarkedCovers(s.buf);
      forall n: nat, u | Passes(s, steps, batchSize, n, u) ensures |u.buf.items| <= t.buf.highEvents && u.buf.bytes <= t.buf.highBytes {
        PassesOne(s, steps, batchSize, n, u);
      }
      if n: nat, u :| Passes(v, steps[1..], batchSize, n, u) && |u.buf.items| == t.buf.highEvents {
        PassesOne(s, steps, batchSize, n + 1, u);
      }
      if n: nat, u :| Passes(v, steps[1..], batchSize, n, u) && u.buf.bytes == t.buf.highBytes {
        PassesOne(s, steps, batchSize, n + 1, u);
      }
      assert steps[1..][..0] == [];
      assert Passes(v, steps[1..], batchSize, 0, v);
      PassesOne(s, steps, batchSize, 1, v);
    }
  }

  lemma MarkedCovers<T>(b: Buffer<T>)
    requires Marked(b)
    ensures |b.items| <= b.highEvents && b.bytes <= b.highBytes
  {}
}
