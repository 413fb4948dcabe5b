/**
 The bounded buffer of log events awaiting forwarding: a circular array that drops its oldest
 event when full, and what any interleaving of pushes and drains leaves in it.
 */
module LogBuffer {
  import opened Numbers

  /** The number of events the agent buffers before it drops the oldest. */
  const CAPACITY: nat := 256

  /** The last `n` elements of `s`, or all of it. */
  function LastOf<T>(s: seq<T>, n: nat): seq<T> {
    s[|s| - Min(n, |s|)..]
  }

  /** The buffer after a push: the new event last, the oldest dropped when the buffer was full. */
  function Pushed<T>(s: seq<T>, x: T, capacity: nat): seq<T> {
    (if |s| >= capacity && s != [] then s[1..] else s) + [x]
  }

  /** A deque held in a circular array. */
  class Ring<T(0)> {
    const data: array<T>
    var start: nat
    var len: nat

    ghost predicate Valid()
      reads this
    {
      data.Length > 0 && start < data.Length && len <= data.Length
    }

    function Slot(i: nat): nat
      requires Valid() && i <= data.Length
      reads this
      ensures Slot(i) < data.Length
    {
      if start + i < data.Length then start + i else start + i - data.Length
    }

    ghost function Contents(): (s: seq<T>)
      requires Valid()
      reads this, data
      ensures |s| == len
      ensures forall i :: 0 <= i < len ==> s[i] == data[Slot(i)]
    {
      seq(len, i requires 0 <= i < len && Valid() reads this, data => data[Slot(i)])
    }

    constructor ()
      ensures Valid() && data.Length == CAPACITY && fresh(data) && Contents() == []
    {
      data := new T[CAPACITY];
      start, len := 0, 0;
    }

    method Push(x: T)
      requires Valid()
      modifies this, data
      ensures Valid() && Contents() == Pushed(old(Contents()), x, data.Length)
    {
      if len >= data.Length {
        start, len := Slot(1), len - 1;
      }
      data[Slot(len)] := x;
      len := len + 1;
    }

    /** Removes and returns up to `max` events, oldest first. */
    method DrainInto(max: nat) returns (out: seq<T>)
      requires Valid()
      modifies this
      ensures Valid()
      ensures out == old(Contents())[..Min(max, old(len))]
      ensures Contents() == old(Contents())[Min(max, old(len))..]
    {
      var n := Min(max, len);
      out := [];
      for i := 0 to n
        invariant out == Contents()[..i]
        invariant Valid() && Contents() == old(Contents()) && n <= len
      {
        out := out + [data[Slot(i)]];
      }
      start, len := Slot(n), len - n;
    }
  }

  // ---- Interleavings ----

  datatype Op<T> = Push(event: T) | Drain(max: nat)

  /**
   Everything that has happened: all events pushed, how many of them were drained and which, the
   buffer, and how many were dropped.
   */
  datatype History<T> = History(pushed: seq<T>, drained: seq<nat>, buffer: seq<T>, dropped: nat)

  /** The index just after the newest drained event. */
  function DrainedUpTo<T>(h: History<T>): nat {
    if h.drained == [] then 0 else h.drained[|h.drained| - 1] + 1
  }

  /** The first pushed event still buffered sits at this index. */
  function FirstBuffered<T>(h: History<T>): nat {
    if |h.pushed| < |h.buffer| then 0 else |h.pushed| - |h.buffer|
  }

  /** `n` consecutive indices from `first`. */
  function Indices(first: nat, n: nat): (r: seq<nat>)
    ensures |r| == n
    ensures forall i :: 0 <= i < n ==> r[i] == first + i
  {
    seq(n, i requires 0 <= i < n => first + i)
  }

  function Apply<T>(h: History<T>, op: Op<T>, capacity: nat): History<T> {
    match op
    case Push(x) =>
      History(h.pushed + [x], h.drained, Pushed(h.buffer, x, capacity),
              h.dropped + (if |h.buffer| >= capacity && h.buffer != [] then 1 else 0))
    case Drain(max) =>
      var n := Min(max, |h.buffer|);
      var first := FirstBuffered(h);
      History(h.pushed,
              h.drained + Indices(first, n),
              h.buffer[n..], h.dropped)
  }

  function Run<T>(ops: seq<Op<T>>, capacity: nat): History<T> {
    if ops == [] then History([], [], [], 0)
    else Apply(Run(ops[..|ops| - 1], capacity), ops[|ops| - 1], capacity)
  }

  /**
   The buffer is exactly the last `min(capacity, n)` of the `n` events pushed since the newest
   drained one; the drained stream is a strictly increasing selection of the pushed events; and
   every pushed event is drained, buffered or dropped.
   */
  ghost predicate Sound<T>(h: History<T>, capacity: nat) {
    && DrainedUpTo(h) <= |h.pushed|
    && |h.buffer| == Min(capacity, |h.pushed| - DrainedUpTo(h))
    && h.buffer == h.pushed[|h.pushed| - |h.buffer|..]
    && Increasing(h.drained)
    && |h.pushed| == |h.drained| + |h.buffer| + h.dropped
  }

  ghost predicate Increasing(s: seq<nat>) {
    forall i, j :: 0 <= i < j < |s| ==> s[i] < s[j]
  }

  lemma PushIsSound<T>(h: History<T>, x: T, capacity: nat)
    requires capacity > 0 && Sound(h, capacity)
    ensures Sound(Apply(h, Push(x), capacity), capacity)
  {
  }

  lemma DrainIsSound<T>(h: History<T>, max: nat, capacity: nat)
    requires capacity > 0 && Sound(h, capacity)
    ensures Sound(Apply(h, Drain(max), capacity), capacity)
  {
  }

  lemma {:induction false} EveryRunSound<T>(ops: seq<Op<T>>, capacity: nat)
    requires capacity > 0
    ensures Sound(Run(ops, capacity), capacity)
    ensures
      var h := Run(ops, capacity);
      && |h.pushed| == |h.drained| + |h.buffer| + h.dropped
      && forall i, j :: 0 <= i < j < |h.drained| ==> h.drained[i] < h.drained[j]
  {
    if ops != [] {
      var before := Run(ops[..|ops| - 1], capacity);
      EveryRunSound(ops[..|ops| - 1], capacity);
      match ops[|ops| - 1] {
        case Push(x) => PushIsSound(before, x, capacity);
        case Drain(max) => DrainIsSound(before, max, capacity);
      }
    }
  }

  /** Spelled out: the buffer is the end of what was pushed since the newest drained event. */
  lemma {:induction false} BufferIsTail<T>(ops: seq<Op<T>>, capacity: nat)
    requires capacity > 0
    ensures
      var h := Run(ops, capacity);
      DrainedUpTo(h) <= |h.pushed| && h.buffer == LastOf(h.pushed[DrainedUpTo(h)..], capacity)
  {
    EveryRunSound(ops, capacity);
  }

  /** What a drain hands out is the events at the indices it records. */
  lemma DrainHandsOutRecorded<T>(h: History<T>, max: nat, capacity: nat, i: nat)
    requires capacity > 0 && Sound(h, capacity)
    requires i < Min(max, |h.buffer|)
    ensures
      var h' := Apply(h, Drain(max), capacity);
      && |h.drained| + i < |h'.drained|
      && h'.drained[|h.drained| + i] < |h.pushed|
      && h.buffer[i] == h.pushed[h'.drained[|h.drained| + i]]
  {
  }

  /** Drains that keep up lose nothing: an event is dropped only by a push into a full buffer. */
  lemma {:induction false} DropsNeedFullBuffer<T>(ops: seq<Op<T>>, capacity: nat)
    requires capacity > 0
    requires forall k :: 0 <= k < |ops| && ops[k].Push? ==> |Run(ops[..k], capacity).buffer| < capacity
    ensures Run(ops, capacity).dropped == 0
  {
    if ops != [] {
      var n := |ops| - 1;
      assert forall k :: 0 <= k < n ==> ops[..n][..k] == ops[..k];
      DropsNeedFullBuffer(ops[..n], capacity);
      assert ops[n].Push? ==> |Run(ops[..n], capacity).buffer| < capacity;
    }
  }

  // ---- The drain task ----

  /** The most events one wake-up drains. */
  const BATCH: nat := 64

  /** The task of the current session: none, waiting for a wake-up, or woken and about to drain. */
  datatype Task = Away | Parked | Woken

  /** The buffer, the task, and the one wake-up that is kept for a task that is not waiting. */
  datatype Forwarder<T> = Forwarder(history: History<T>, task: Task, permit: bool)

  /** An event is pushed; the task runs; a session starts or ends. */
  datatype Move<T> = Logged(event: T) | Runs | Starts | Ends

  function Buffered<T>(f: Forwarder<T>): nat { |f.history.buffer| }

  /** A task that asks for a wake-up takes the one that was kept, or waits. */
  function Asks<T>(f: Forwarder<T>): Forwarder<T> {
    if f.permit then f.(task := Woken, permit := false) else f.(task := Parked)
  }

  /**
   A push wakes a waiting task and otherwise leaves its wake-up behind, at most one; a woken task
   drains a batch and asks again; a session that ends hands an unused wake-up back.
   */
  function Moved<T>(f: Forwarder<T>, m: Move<T>, capacity: nat): Forwarder<T> {
    match m
    case Logged(x) =>
      var g := f.(history := Apply(f.history, Push(x), capacity));
      if f.task == Parked then g.(task := Woken) else g.(permit := true)
    case Runs =>
      if f.task != Woken then f else Asks(f.(history := Apply(f.history, Drain(BATCH), capacity)))
    case Starts => if f.task == Away then Asks(f) else f
    case Ends => f.(task := Away, permit := f.permit || f.task == Woken)
  }

  function Forwarded<T>(f: Forwarder<T>, moves: seq<Move<T>>, capacity: nat): Forwarder<T> {
    if moves == [] then f
    else Moved(Forwarded(f, moves[..|moves| - 1], capacity), moves[|moves| - 1], capacity)
  }

  function Idle<T>(): Forwarder<T> {
    Forwarder(History([], [], [], 0), Away, false)
  }

  /** How often the task will still run when nothing more is pushed. */
  function Owed<T>(f: Forwarder<T>): nat {
    (if f.task == Woken then 1 else 0) + if f.permit then 1 else 0
  }

  /** What those runs leave in the buffer. */
  function Left<T>(f: Forwarder<T>): nat {
    Max(0, Buffered(f) - Owed(f) * BATCH)
  }

  /** A waiting task has no wake-up kept for it, and the wake-ups owed leave at most the capacity less a batch. */
  ghost predicate Proper<T>(f: Forwarder<T>, capacity: nat) {
    Sound(f.history, capacity) && (f.task == Parked ==> !f.permit) && Left(f) <= capacity - BATCH
  }

  lemma MoveKeepsProper<T>(f: Forwarder<T>, m: Move<T>, capacity: nat)
    requires capacity >= BATCH && Proper(f, capacity)
    ensures Proper(Moved(f, m, capacity), capacity)
  {
    match m
    case Logged(x) => PushIsSound(f.history, x, capacity);
    case Runs => DrainIsSound(f.history, BATCH, capacity);
    case Starts =>
    case Ends =>
  }

  lemma IdleIsProper<T>(capacity: nat)
    requires capacity >= BATCH
    ensures Proper<T>(Idle(), capacity)
  {
  }

  lemma {:induction false} RunKeepsProper<T>(moves: seq<Move<T>>, capacity: nat)
    requires capacity >= BATCH
    ensures Proper(Forwarded(Idle(), moves, capacity), capacity)
  {
    if moves == [] {
      IdleIsProper<T>(capacity);
    } else {
      var n := |moves| - 1;
      RunKeepsProper(moves[..n], capacity);
      MoveKeepsProper(Forwarded(Idle(), moves[..n], capacity), moves[n], capacity);
    }
  }

  /** In every run, whenever the task waits, at most the capacity less one batch waits in the buffer with it. */
  lemma {:induction false} WaitingBound<T>(moves: seq<Move<T>>, capacity: nat)
    requires capacity >= BATCH
    ensures
      var f := Forwarded(Idle(), moves, capacity);
      f.task == Parked ==> !f.permit && Buffered(f) == Left(f) <= capacity - BATCH
  {
    RunKeepsProper(moves, capacity);
  }

  function Running<T>(n: nat): seq<Move<T>> {
    seq(n, _ => Runs)
  }

  /** The task's runs leave exactly what was said: no more and no fewer, after exactly that many runs. */
  lemma {:induction false} LeavesExactly<T>(f: Forwarder<T>, n: nat, capacity: nat)
    requires capacity >= BATCH && Proper(f, capacity) && f.task != Away
    ensures
      var g := Forwarded(f, Running(n), capacity);
      && Proper(g, capacity) && g.task != Away && Left(g) == Left(f)
      && Owed(g) == Max(0, Owed(f) - n)
      && (n >= Owed(f) ==> g.task == Parked && Buffered(g) == Left(f))
  {
    if n > 0 {
      LeavesExactly(f, n - 1, capacity);
      var runs: seq<Move<T>> := Running(n);
      assert runs[..n - 1] == Running(n - 1);
      var g := Forwarded(f, Running(n - 1), capacity);
      MoveKeepsProper(g, Runs, capacity);
      RunStep(g, capacity);
    }
  }

  lemma RunStep<T>(g: Forwarder<T>, capacity: nat)
    requires capacity >= BATCH && Proper(g, capacity) && g.task != Away
    ensures
      var g' := Moved(g, Runs, capacity);
      g'.task != Away && Left(g') == Left(g) && Owed(g') == Max(0, Owed(g) - 1)
  {
  }

  function Logging<T>(xs: seq<T>): seq<Move<T>> {
    seq(|xs|, i requires 0 <= i < |xs| => Logged(xs[i]))
  }

  lemma {:induction false} BurstOwes<T>(f: Forwarder<T>, xs: seq<T>, capacity: nat)
    requires capacity >= BATCH && Proper(f, capacity)
    ensures
      var g := Forwarded(f, Logging(xs), capacity);
      && Proper(g, capacity) && Buffered(g) == Min(capacity, Buffered(f) + |xs|)
      && g.task == (if f.task == Parked && xs != [] then Woken else f.task)
      && g.permit == (f.permit || |xs| > if f.task == Parked then 1 else 0)
  {
    if xs != [] {
      var n := |xs| - 1;
      BurstOwes(f, xs[..n], capacity);
      LoggingStep(f, xs, n, capacity);
      LoggedStep(Forwarded(f, Logging(xs[..n]), capacity), xs[n], capacity);
    }
  }

  lemma {:induction false} LoggingStep<T>(f: Forwarder<T>, xs: seq<T>, n: nat, capacity: nat)
    requires |xs| == n + 1
    ensures Forwarded(f, Logging(xs), capacity)
         == Moved(Forwarded(f, Logging(xs[..n]), capacity), Logged(xs[n]), capacity)
  {
    assert Logging(xs)[..n] == Logging(xs[..n]);
  }

  lemma LoggedStep<T>(g: Forwarder<T>, x: T, capacity: nat)
    requires capacity >= BATCH && Proper(g, capacity)
    ensures
      var g' := Moved(g, Logged(x), capacity);
      && Proper(g', capacity) && Buffered(g') == Min(capacity, Buffered(g) + 1)
      && g'.task == (if g.task == Parked then Woken else g.task)
      && g'.permit == (g.permit || g.task != Parked)
  {
    MoveKeepsProper(g, Logged(x), capacity);
  }

  /**
   What a burst leaves to wait once the task has caught up, exactly. A waiting task is woken by the
   first push and finds the wake-up of the others kept, so it drains twice; one push is drained once.
   Pushes while no session is there, or while the task is about to drain, leave one wake-up between them.
   */
  lemma {:induction false} BurstLeaves<T>(f: Forwarder<T>, xs: seq<T>, capacity: nat)
    requires capacity >= BATCH && Proper(f, capacity) && xs != []
    ensures
      var filled := Min(capacity, Buffered(f) + |xs|);
      Left(Forwarded(f, Logging(xs), capacity)) ==
        Max(0, filled - BATCH * (if f.task == Woken || (f.task == Parked && |xs| > 1) then 2 else 1))
  {
    BurstOwes(f, xs, capacity);
  }

  /**
   Both bounds are met: a burst that fills the buffer leaves two batches less than it holds, or one
   when no task was waiting.
   */
  lemma {:induction false} FullBursts<T>(xs: seq<T>, capacity: nat)
    requires capacity >= 2 * BATCH && |xs| == capacity
    ensures
      var away: Forwarder<T> := Idle();
      var parked := Moved(away, Starts, capacity);
      && parked.task == Parked
      && Left(Forwarded(parked, Logging(xs), capacity)) == capacity - 2 * BATCH
      && Left(Forwarded(away, Logging(xs), capacity)) == capacity - BATCH
  {
    var away: Forwarder<T> := Idle();
    MoveKeepsProper(away, Starts, capacity);
    BurstLeaves(Moved(away, Starts, capacity), xs, capacity);
    BurstLeaves(away, xs, capacity);
  }

  /** In the agent, with 256 events buffered at most and 64 drained at a time, that is 128 events or 192. */
  lemma AgentBursts<T>(xs: seq<T>)
    requires |xs| == 256
    ensures
      var away: Forwarder<T> := Idle();
      var parked := Moved(away, Starts, CAPACITY);
      && Left(Forwarded(parked, Logging(xs), CAPACITY)) == 128
      && Left(Forwarded(away, Logging(xs), CAPACITY)) == 192
  {
    FullBursts(xs, CAPACITY);
  }
}
