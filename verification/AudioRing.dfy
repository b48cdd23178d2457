/**
 The audio ring buffer: a queue that keeps the newest `capacity - 1` samples, whatever the sizes of
 the pushes.
 */
module AudioRing {
  import opened Numbers
  import opened Wrappers

  type Sample = i: int | -0x8000 <= i < 0x8000

  function Scaled(x: Sample): real {
    x as real / 32768.0
  }

  function Frames(left: seq<Sample>, right: seq<Sample>): nat {
    if |left| < |right| then |left| else |right|
  }

  /** Left and right samples in turn; a longer channel's rest is ignored. */
  function Interleaved(left: seq<Sample>, right: seq<Sample>): seq<real> {
    seq(2 * Frames(left, right), (k: nat) requires k < 2 * Frames(left, right) =>
      if k % 2 == 0 then Scaled(left[k / 2]) else Scaled(right[k / 2]))
  }

  /** The last `n` elements, or all. */
  function Newest<T>(q: seq<T>, n: nat): seq<T> {
    if |q| <= n then q else q[|q| - n..]
  }

  lemma NewestLength<T>(q: seq<T>, n: nat)
    ensures |Newest(q, n)| == |q| - Surplus(|q|, n) <= n
  {
  }

  /** How many of `n` do not fit. */
  function Surplus(n: nat, room: nat): nat {
    if n <= room then 0 else n - room
  }

  // ---- positions modulo the capacity ----

  lemma ModAdd(a: nat, b: nat, c: nat)
    requires c > 0
    ensures (a % c + b) % c == (a + b) % c
  {
    var q, s := a / c, a % c + b;
    assert a + b == (q + s / c) * c + s % c;
    Quotient(a + b, c, q + s / c, s % c);
  }

  /** Positions less than a turn apart are different slots. */
  lemma ModDistinct(a: nat, b: nat, c: nat)
    requires a < b < a + c
    ensures a % c != b % c
  {
    if a % c == b % c {
      assert (b / c - a / c) * c == b - a;
      SmallMultiple(b / c - a / c, c);
    }
  }

  /** The free room as the source computes it. */
  lemma Available(read: nat, write: nat, c: nat)
    requires read <= write < read + c
    ensures read % c + c - write % c - 1 >= 0
    ensures (read % c + c - write % c - 1) % c == c - 1 - (write - read)
  {
    var n := write - read;
    ModAdd(read, n, c);
    var r := read % c;
    if r + n < c {
      Quotient(r + n, c, 0, r + n);
      Quotient(c - 1 - n, c, 0, c - 1 - n);
    } else {
      Quotient(r + n, c, 1, r + n - c);
      Quotient(c + (c - 1 - n), c, 1, c - 1 - n);
    }
  }

  /** The slot of an absolute position: what is left after whole turns. */
  function Slot(position: nat, capacity: nat): (slot: nat)
    requires capacity > 0
    ensures slot < capacity
    decreases position
  {
    if position < capacity then position else Slot(position - capacity, capacity)
  }

  lemma {:induction false} SlotIsRemainder(position: nat, capacity: nat)
    requires capacity > 0
    ensures Slot(position, capacity) == position % capacity
    decreases position
  {
    if position < capacity {
      Quotient(position, capacity, 0, position);
    } else {
      SlotIsRemainder(position - capacity, capacity);
      ModAdd(position - capacity, capacity, capacity);
      var r := (position - capacity) % capacity;
      Quotient(r + capacity, capacity, 1, r);
    }
  }

  /** Moving on from a slot. */
  lemma SlotMoves(position: nat, n: nat, capacity: nat)
    requires capacity > 0
    ensures (Slot(position, capacity) + n) % capacity == Slot(position + n, capacity)
  {
    SlotIsRemainder(position, capacity);
    SlotIsRemainder(position + n, capacity);
    ModAdd(position, n, capacity);
  }

  /** Positions less than a turn apart are different slots. */
  lemma SlotsDiffer(a: nat, b: nat, capacity: nat)
    requires a < b < a + capacity
    ensures Slot(a, capacity) != Slot(b, capacity)
  {
    SlotIsRemainder(a, capacity);
    SlotIsRemainder(b, capacity);
    ModDistinct(a, b, capacity);
  }

  /** The free room as the source computes it. */
  lemma FreeRoom(read: nat, n: nat, capacity: nat)
    requires n < capacity
    ensures Slot(read, capacity) + capacity - Slot(read + n, capacity) - 1 >= 0
    ensures (Slot(read, capacity) + capacity - Slot(read + n, capacity) - 1) % capacity == capacity - 1 - n
  {
    SlotIsRemainder(read, capacity);
    SlotIsRemainder(read + n, capacity);
    Available(read, read + n, capacity);
  }

  /** The samples `q` are in the slots from position `first` on. */
  ghost predicate QueueAt(buffer: seq<real>, first: nat, q: seq<real>) {
    |buffer| > 0 && forall k :: 0 <= k < |q| ==> buffer[Slot(first + k, |buffer|)] == q[k]
  }

  /** The last turn of a stream that began at `start` and has reached `at` is in its slots. */
  ghost predicate HoldsTurn(buffer: seq<real>, start: nat, at: nat, stream: seq<real>) {
    && |buffer| > 0 && at - start <= |stream|
    && forall k :: 0 <= k < at - start && at - start - k <= |buffer| ==> buffer[Slot(start + k, |buffer|)] == stream[k]
  }

  /** A buffer that holds the last turn of a stream holds its newest samples in order. */
  lemma QueueIsNewest(buffer: seq<real>, start: nat, stream: seq<real>, first: nat, q: seq<real>)
    requires HoldsTurn(buffer, start, start + |stream|, stream)
    requires first == start + Surplus(|stream|, |buffer| - 1) && q == Newest(stream, |buffer| - 1)
    ensures QueueAt(buffer, first, q) && Slot(first + |q|, |buffer|) == Slot(start + |stream|, |buffer|)
  {
    forall k | 0 <= k < |q| ensures buffer[Slot(first + k, |buffer|)] == q[k] {
      var n := first - start + k;
      assert q[k] == stream[n] && start + n == first + k;
    }
  }

  /** The queue behind a push: the newest samples, ending where the writer stopped. */
  lemma PushedIsQueue(buffer: seq<real>, start: nat, end: nat, stream: seq<real>, first: nat)
    requires HoldsTurn(buffer, start, end, stream) && end == start + |stream|
    requires first == start + Surplus(|stream|, |buffer| - 1)
    ensures var q := Newest(stream, |buffer| - 1);
            QueueAt(buffer, first, q) && |q| < |buffer| && Slot(first + |q|, |buffer|) == Slot(end, |buffer|)
  {
    NewestLength(stream, |buffer| - 1);
    QueueIsNewest(buffer, start, stream, first, Newest(stream, |buffer| - 1));
  }

  /** A queue with more behind it. */
  lemma QueueIsTurn(buffer: seq<real>, start: nat, queued: seq<real>, more: seq<real>)
    requires QueueAt(buffer, start, queued)
    ensures HoldsTurn(buffer, start, start + |queued|, queued + more) && (queued + more)[|queued|..] == more
  {
    forall k | 0 <= k < |queued| ensures buffer[Slot(start + k, |buffer|)] == (queued + more)[k] {
      assert buffer[Slot(start + k, |buffer|)] == queued[k];
    }
  }

  /** One more sample of the stream. */
  lemma StoreKeepsTurn(buffer: seq<real>, start: nat, at: nat, stream: seq<real>, x: real)
    requires HoldsTurn(buffer, start, at, stream) && start <= at < start + |stream| && stream[at - start] == x
    ensures HoldsTurn(buffer[Slot(at, |buffer|) := x], start, at + 1, stream)
  {
    var after := buffer[Slot(at, |buffer|) := x];
    forall k | 0 <= k < at + 1 - start && at + 1 - start - k <= |buffer| ensures after[Slot(start + k, |buffer|)] == stream[k] {
      if start + k < at {
        SlotsDiffer(start + k, at, |buffer|);
      }
    }
  }

  class AudioRingBuffer {
    const buffer: array<real>
    const capacity: nat
    var readPos: nat
    var writePos: nat
    /** The queued samples, and the positions before they were reduced to slots. */
    ghost var contents: seq<real>
    ghost var absoluteRead: nat

    ghost predicate Valid()
      reads this, buffer
    {
      && capacity > 0 && buffer.Length == capacity && |contents| < capacity
      && readPos == Slot(absoluteRead, capacity) && writePos == Slot(absoluteRead + |contents|, capacity)
      && QueueAt(buffer[..], absoluteRead, contents)
    }

    constructor (capacity: nat)
      requires capacity > 0
      ensures Valid() && fresh(buffer) && this.capacity == capacity && contents == []
    {
      this.capacity := capacity;
      buffer := new real[capacity](_ => 0.0);
      readPos, writePos, contents, absoluteRead := 0, 0, [], 0;
    }

    /** Stores one sample at position `at`. */
    method Put(cur: nat, ghost at: nat, ghost start: nat, ghost stream: seq<real>, x: real) returns (next: nat)
      requires capacity > 0 && buffer.Length == capacity && cur == Slot(at, capacity)
      requires HoldsTurn(buffer[..], start, at, stream) && start <= at < start + |stream| && stream[at - start] == x
      modifies buffer
      ensures next == Slot(at + 1, capacity) && HoldsTurn(buffer[..], start, at + 1, stream)
    {
      StoreKeepsTurn(buffer[..], start, at, stream, x);
      SlotMoves(at, 1, capacity);
      ghost var before := buffer[..];
      buffer[cur] := x;
      assert buffer[..] == before[cur := x];
      next := (cur + 1) % capacity;
    }

    /** Stores all frames behind position `start + n`. */
    method PutFrames(left: seq<Sample>, right: seq<Sample>, ghost start: nat, ghost n: nat, ghost stream: seq<real>)
      returns (cur: nat)
      requires capacity > 0 && buffer.Length == capacity && writePos == Slot(start + n, capacity)
      requires |stream| == n + 2 * Frames(left, right) && stream[n..] == Interleaved(left, right)
      requires HoldsTurn(buffer[..], start, start + n, stream)
      modifies buffer
      ensures cur == Slot(start + |stream|, capacity) && HoldsTurn(buffer[..], start, start + |stream|, stream)
    {
      var frames := Frames(left, right);
      cur := writePos;
      var i := 0;
      while i < frames
        invariant i <= frames && cur == Slot(start + n + 2 * i, capacity)
        invariant HoldsTurn(buffer[..], start, start + n + 2 * i, stream)
      {
        FrameAt(left, right, stream, n, i);
        cur := Put(cur, start + n + 2 * i, start, stream, Scaled(left[i]));
        cur := Put(cur, start + n + 2 * i + 1, start, stream, Scaled(right[i]));
        i := i + 1;
      }
    }

    /** Moves the read position past the samples that will not fit. */
    method MakeRoom(sampleCount: nat)
      requires Valid()
      modifies this`readPos, this`absoluteRead
      ensures absoluteRead == old(absoluteRead) + Surplus(|contents| + sampleCount, capacity - 1)
      ensures readPos == Slot(absoluteRead, capacity)
    {
      FreeRoom(absoluteRead, |contents|, capacity);
      var available := (readPos + capacity - writePos - 1) % capacity;
      if sampleCount > available {
        var skip := sampleCount - available;
        SlotMoves(absoluteRead, skip, capacity);
        readPos := (readPos + skip) % capacity;
        absoluteRead := absoluteRead + skip;
      }
    }

    /** `push_stereo_i16`: of the queue and the new samples, the newest `capacity - 1` stay, also when
        the push is longer than the buffer. */
    method PushStereo(left: seq<Sample>, right: seq<Sample>)
      requires Valid()
      modifies this, buffer
      ensures Valid() && contents == Newest(old(contents) + Interleaved(left, right), capacity - 1)
    {
      ghost var start := absoluteRead;
      MakeRoom(Frames(left, right) * 2);
      Append(left, right, start, contents);
    }

    /** The part of a push behind `MakeRoom`, for a queue that began at `start`. */
    method Append(left: seq<Sample>, right: seq<Sample>, ghost start: nat, ghost queued: seq<real>)
      requires capacity > 0 && buffer.Length == capacity && QueueAt(buffer[..], start, queued) && |queued| < capacity
      requires writePos == Slot(start + |queued|, capacity) && readPos == Slot(absoluteRead, capacity)
      requires absoluteRead == start + Surplus(|queued| + 2 * Frames(left, right), capacity - 1)
      modifies this`writePos, this`contents, buffer
      ensures Valid() && contents == Newest(queued + Interleaved(left, right), capacity - 1)
    {
      ghost var stream := queued + Interleaved(left, right);
      QueueIsTurn(buffer[..], start, queued, Interleaved(left, right));
      var cur := PutFrames(left, right, start, |queued|, stream);
      PushedIsQueue(buffer[..], start, start + |stream|, stream, absoluteRead);
      Settle(cur, Newest(stream, capacity - 1));
    }

    /** Stores the write position. */
    method Settle(cur: nat, ghost queue: seq<real>)
      requires capacity > 0 && buffer.Length == capacity && |queue| < capacity
      requires readPos == Slot(absoluteRead, capacity) && cur == Slot(absoluteRead + |queue|, capacity)
      requires QueueAt(buffer[..], absoluteRead, queue)
      modifies this`writePos, this`contents
      ensures Valid() && contents == queue
    {
      ghost var filled := buffer[..];
      writePos := cur;
      contents := queue;
      assert buffer[..] == filled;
    }

    /** `pop`: the oldest sample. */
    method Pop() returns (sample: Option<real>)
      requires Valid()
      modifies this
      ensures Valid() && buffer[..] == old(buffer[..])
      ensures sample.None? <==> old(contents) == []
      ensures old(contents) == [] ==> contents == []
      ensures sample.Some? ==> old(contents) == [sample.value] + contents
    {
      if contents != [] {
        SlotsDiffer(absoluteRead, absoluteRead + |contents|, capacity);
      }
      if readPos == writePos {
        return None;
      }
      sample := Some(buffer[readPos]);
      SlotMoves(absoluteRead, 1, capacity);
      QueueTail(buffer[..], absoluteRead, contents);
      readPos := (readPos + 1) % capacity;
      contents := contents[1..];
      absoluteRead := absoluteRead + 1;
    }
  }

  lemma QueueTail(buffer: seq<real>, first: nat, q: seq<real>)
    requires QueueAt(buffer, first, q) && q != []
    ensures buffer[Slot(first, |buffer|)] == q[0] && QueueAt(buffer, first + 1, q[1..])
  {
    assert buffer[Slot(first + 0, |buffer|)] == q[0];
    forall k | 0 <= k < |q[1..]| ensures buffer[Slot(first + 1 + k, |buffer|)] == q[1..][k] {
      assert buffer[Slot(first + (k + 1), |buffer|)] == q[k + 1];
    }
  }

  lemma FrameAt(left: seq<Sample>, right: seq<Sample>, stream: seq<real>, n: nat, i: nat)
    requires |stream| == n + 2 * Frames(left, right) && stream[n..] == Interleaved(left, right) && i < Frames(left, right)
    ensures stream[n + 2 * i] == Scaled(left[i]) && stream[n + 2 * i + 1] == Scaled(right[i])
  {
    assert stream[n + 2 * i] == stream[n..][2 * i] && stream[n + 2 * i + 1] == stream[n..][2 * i + 1];
  }

  /** Left and right samples alternate, a left one first, up to the shorter channel; full scale is 1. */
  lemma FramesAlternate(left: seq<Sample>, right: seq<Sample>, k: nat)
    ensures |Interleaved(left, right)| == if |left| <= |right| then 2 * |left| else 2 * |right|
    ensures k < |left| && k < |right| ==>
              && Interleaved(left, right)[2 * k] * 32768.0 == left[k] as real
              && Interleaved(left, right)[2 * k + 1] * 32768.0 == right[k] as real
  {
    if k < |left| && k < |right| {
      assert (2 * k) / 2 == k && (2 * k + 1) / 2 == k && (2 * k) % 2 == 0 && (2 * k + 1) % 2 == 1;
    }
  }

  // ---- whole runs ----

  datatype Op = PushOp(left: seq<Sample>, right: seq<Sample>) | PopOp

  /** A queue that never loses anything, and how many of its oldest samples are gone. */
  datatype Log = Log(pushed: seq<real>, gone: nat)

  function Kept(l: Log): seq<real>
    requires l.gone <= |l.pushed|
  {
    l.pushed[l.gone..]
  }

  function StepLog(l: Log, room: nat, op: Op): (m: Log)
    requires l.gone <= |l.pushed|
    ensures m.gone <= |m.pushed| && l.gone <= m.gone && l.pushed <= m.pushed
  {
    match op
    case PushOp(left, right) =>
      var all := l.pushed + Interleaved(left, right);
      Log(all, if |all| - l.gone <= room then l.gone else |all| - room)
    case PopOp => if l.gone < |l.pushed| then l.(gone := l.gone + 1) else l
  }

  /** What one operation does to the queue. */
  function StepQueue(q: seq<real>, room: nat, op: Op): seq<real> {
    match op
    case PushOp(left, right) => Newest(q + Interleaved(left, right), room)
    case PopOp => if q == [] then q else q[1..]
  }

  function RunQueue(q: seq<real>, room: nat, ops: seq<Op>): seq<real> {
    if ops == [] then q else StepQueue(RunQueue(q, room, ops[..|ops| - 1]), room, ops[|ops| - 1])
  }

  function RunLog(l: Log, room: nat, ops: seq<Op>): (m: Log)
    requires l.gone <= |l.pushed|
    ensures m.gone <= |m.pushed|
  {
    if ops == [] then l else StepLog(RunLog(l, room, ops[..|ops| - 1]), room, ops[|ops| - 1])
  }

  /** Over every run of pushes and pops the queue is what is left of everything ever pushed after
      dropping some of the oldest: order is kept and only the oldest are lost. */
  lemma {:induction false} OnlyOldestLost(room: nat, ops: seq<Op>)
    ensures RunQueue([], room, ops) == Kept(RunLog(Log([], 0), room, ops))
    ensures |RunQueue([], room, ops)| <= room
    decreases |ops|
  {
    if ops == [] {
    } else {
      OnlyOldestLost(room, ops[..|ops| - 1]);
      StepKeeps(RunLog(Log([], 0), room, ops[..|ops| - 1]), room, ops[|ops| - 1]);
    }
  }

  lemma PushKeeps(pushed: seq<real>, more: seq<real>, gone: nat, room: nat)
    requires gone <= |pushed|
    ensures var all := pushed + more;
            Newest(pushed[gone..] + more, room) == all[if |all| - gone <= room then gone else |all| - room..]
  {
    assert pushed[gone..] + more == (pushed + more)[gone..];
  }

  lemma StepKeeps(l: Log, room: nat, op: Op)
    requires l.gone <= |l.pushed| && |l.pushed| - l.gone <= room
    ensures StepQueue(Kept(l), room, op) == Kept(StepLog(l, room, op))
    ensures |Kept(StepLog(l, room, op))| <= room
  {
    hide Interleaved, Newest;
    if op.PushOp? {
      PushKeeps(l.pushed, Interleaved(op.left, op.right), l.gone, room);
    }
  }
}
