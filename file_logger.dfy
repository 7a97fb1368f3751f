/**
 * The file log sink: FileLoggerProvider's queue and flags, run sequentially,
 * and FileLogger's level filter and line format.
 *
 * The background consumer thread is modelled by explicit consumer steps, the
 * file by the sequence of lines written to it, and Dispose's bounded wait for
 * the consumer by the number of lines the consumer gets through before it.
 */
module FileLogging {
  import Wrappers

  /** Microsoft.Extensions.Logging.LogLevel. */
  datatype LogLevel = Trace | Debug | Information | Warning | Error | Critical | None {

    /** The enum's numeric value. */
    function Ordinal(): nat {
      match this
      case Trace => 0
      case Debug => 1
      case Information => 2
      case Warning => 3
      case Error => 4
      case Critical => 5
      case None => 6
    }

    /** The enum's ToString, as the line format interpolates it. */
    function Name(): string {
      match this
      case Trace => "Trace"
      case Debug => "Debug"
      case Information => "Information"
      case Warning => "Warning"
      case Error => "Error"
      case Critical => "Critical"
      case None => "None"
    }
  }

  // ---------------------------------------------------------------------------
  // Line format

  /** The line Log enqueues: four tab-separated fields, then the exception on a line of its own. */
  function FormatLine(timestamp: string, level: LogLevel, category: string, message: string,
                      exception: Wrappers.Option<string>): (line: string)
    ensures |line| == |timestamp| + |level.Name()| + |category| + |message| + 3
                      + (if exception.Some? then 1 + |exception.value| else 0)
    ensures exception.None? ==> line[|line| - |message|..] == message
    ensures exception.Some? ==> line[|line| - |exception.value| - 1..] == "\n" + exception.value
  {
    var head := timestamp + "\t" + level.Name() + "\t" + category + "\t" + message;
    if exception.Some? then head + "\n" + exception.value else head
  }

  /** The fields of a line: the text up to each of the first three tabs, and the rest. */
  datatype LineFields = LineFields(timestamp: string, level: string, category: string, rest: string)

  /** The text before the first tab and the text after it; None if there is no tab. */
  function SplitAtTab(s: string): Wrappers.Option<(string, string)> {
    if s == [] then Wrappers.None
    else if s[0] == '\t' then Wrappers.Some(([], s[1..]))
    else
      match SplitAtTab(s[1..])
      case None => Wrappers.None
      case Some(p) => Wrappers.Some(([s[0]] + p.0, p.1))
  }

  /** Reads a line back into its fields. */
  function ParseLine(line: string): Wrappers.Option<LineFields> {
    match SplitAtTab(line)
    case None => Wrappers.None
    case Some(p1) =>
      match SplitAtTab(p1.1)
      case None => Wrappers.None
      case Some(p2) =>
        match SplitAtTab(p2.1)
        case None => Wrappers.None
        case Some(p3) => Wrappers.Some(LineFields(p1.0, p2.0, p3.0, p3.1))
  }

  /** Splitting at the first tab undoes joining with a tab when the left part has none. */
  lemma {:induction false} SplitAtTabJoin(a: string, b: string)
    requires '\t' !in a
    ensures SplitAtTab(a + "\t" + b) == Wrappers.Some((a, b))
  {
    if a == [] {
      assert a + "\t" + b == "\t" + b;
    } else {
      assert (a + "\t" + b)[0] == a[0];
      assert (a + "\t" + b)[1..] == a[1..] + "\t" + b;
      SplitAtTabJoin(a[1..], b);
      assert [a[0]] + a[1..] == a;
    }
  }

  /** No level name contains a tab. */
  lemma LevelNameHasNoTab(level: LogLevel)
    ensures '\t' !in level.Name()
  {
  }

  /** Reading back four fields joined by tabs, when the first three have no tab. */
  lemma ParseJoined(a: string, b: string, c: string, rest: string)
    requires '\t' !in a && '\t' !in b && '\t' !in c
    ensures ParseLine(a + "\t" + (b + "\t" + (c + "\t" + rest))) == Wrappers.Some(LineFields(a, b, c, rest))
  {
    SplitAtTabJoin(a, b + "\t" + (c + "\t" + rest));
    SplitAtTabJoin(b, c + "\t" + rest);
    SplitAtTabJoin(c, rest);
  }

  /**
   * A line reads back into the timestamp, the level's name, the category and
   * the message (with the exception after a newline when there is one),
   * provided the timestamp and the category contain no tab.
   */
  lemma LineRoundTrip(timestamp: string, level: LogLevel, category: string, message: string,
                      exception: Wrappers.Option<string>)
    requires '\t' !in timestamp && '\t' !in category
    ensures ParseLine(FormatLine(timestamp, level, category, message, exception))
      == Wrappers.Some(LineFields(timestamp, level.Name(), category,
                                  if exception.Some? then message + "\n" + exception.value else message))
  {
    var rest := if exception.Some? then message + "\n" + exception.value else message;
    var name := level.Name();
    LevelNameHasNoTab(level);
    assert FormatLine(timestamp, level, category, message, exception)
        == timestamp + "\t" + (name + "\t" + (category + "\t" + rest));
    ParseJoined(timestamp, name, category, rest);
  }

  // ---------------------------------------------------------------------------
  // The sink's state machine, as values

  /** The provider's state: the queue, the lines written to the file, and its three flags. */
  datatype Sink = Sink(
    queue: seq<string>,
    written: seq<string>,
    disposed: bool,         // _disposed
    addingCompleted: bool,  // _queue.CompleteAdding() has run
    closed: bool)           // the writer and the queue are disposed

  const Initial: Sink := Sink([], [], false, false, false)

  /**
   * Dispose sets _disposed before it completes adding and completes adding
   * before it closes; so Enqueue, which tests only _disposed, never adds to a
   * completed queue.
   */
  predicate SinkInv(s: Sink) {
    (s.addingCompleted ==> s.disposed) && (s.closed ==> s.addingCompleted)
  }

  /** Enqueue: dropped once disposed, appended at the back otherwise. */
  function EnqueueSpec(s: Sink, line: string): Sink {
    if s.disposed then s else s.(queue := s.queue + [line])
  }

  /** One consumer step: the front line, if any, is written; nothing once closed. */
  function ConsumeSpec(s: Sink): Sink {
    if s.closed || s.queue == [] then s
    else s.(queue := s.queue[1..], written := s.written + [s.queue[0]])
  }

  function Min(a: int, b: int): int { if a <= b then a else b }

  /**
   * Dispose, where the consumer writes `budget` more lines (at most what is
   * queued) before the bounded wait ends; the rest is never written.
   */
  function DisposeSpec(s: Sink, budget: nat): Sink {
    if s.disposed then s
    else
      var k := Min(budget, |s.queue|);
      Sink(s.queue[k..], s.written + s.queue[..k], true, true, true)
  }

  /** An operation on the provider: a producer's Enqueue, a consumer step, or Dispose. */
  datatype Op = OpEnqueue(line: string) | OpConsume | OpDispose(budget: nat)

  function Apply(s: Sink, op: Op): Sink {
    match op
    case OpEnqueue(line) => EnqueueSpec(s, line)
    case OpConsume => ConsumeSpec(s)
    case OpDispose(budget) => DisposeSpec(s, budget)
  }

  /** The state after a sequence of operations. */
  function Run(s: Sink, ops: seq<Op>): Sink
    decreases |ops|
  {
    if ops == [] then s else Run(Apply(s, ops[0]), ops[1..])
  }

  /** The lines Enqueue accepts along a sequence of operations, in acceptance order. */
  function Accepted(s: Sink, ops: seq<Op>): seq<string>
    decreases |ops|
  {
    if ops == [] then []
    else
      AcceptedBy(s, ops[0]) + Accepted(Apply(s, ops[0]), ops[1..])
  }

  /** Every operation keeps the flag order. */
  lemma {:induction false} RunKeepsInv(s: Sink, ops: seq<Op>)
    requires SinkInv(s)
    ensures SinkInv(Run(s, ops))
    decreases |ops|
  {
    if ops != [] {
      RunKeepsInv(Apply(s, ops[0]), ops[1..]);
    }
  }

  /** What one operation accepts. */
  function AcceptedBy(s: Sink, op: Op): seq<string> {
    if op.OpEnqueue? && !s.disposed then [op.line] else []
  }

  /** One operation moves lines from the front of the queue to the file, or accepts one at the back. */
  lemma ApplyIsFifo(s: Sink, op: Op)
    ensures Apply(s, op).written + Apply(s, op).queue == s.written + s.queue + AcceptedBy(s, op)
  {
    var w, q := s.written, s.queue;
    match op
    case OpEnqueue(line) =>
      if !s.disposed {
        assert Apply(s, op).written + Apply(s, op).queue == w + (q + [line]);
      } else {
        assert AcceptedBy(s, op) == [];
      }
    case OpConsume =>
      assert AcceptedBy(s, op) == [];
      if !s.closed && q != [] {
        assert Apply(s, op).written == w + [q[0]] && Apply(s, op).queue == q[1..];
        assert q == [q[0]] + q[1..];
      }
    case OpDispose(budget) =>
      assert AcceptedBy(s, op) == [];
      if !s.disposed {
        var k := Min(budget, |q|);
        assert Apply(s, op).written == w + q[..k] && Apply(s, op).queue == q[k..];
        assert q == q[..k] + q[k..];
      }
  }

  /**
   * FIFO: the lines written followed by the lines still queued are the lines
   * there were at the start followed by the lines accepted, in acceptance order.
   */
  lemma {:induction false} RunIsFifo(s: Sink, ops: seq<Op>)
    ensures Run(s, ops).written + Run(s, ops).queue == s.written + s.queue + Accepted(s, ops)
    decreases |ops|
  {
    if ops != [] {
      var s' := Apply(s, ops[0]);
      RunIsFifo(s', ops[1..]);
      ApplyIsFifo(s, ops[0]);
      assert Accepted(s, ops) == AcceptedBy(s, ops[0]) + Accepted(s', ops[1..]);
    }
  }

  /** A line once written stays written: the file only grows. */
  lemma {:induction false} RunOnlyAppends(s: Sink, ops: seq<Op>)
    ensures s.written <= Run(s, ops).written
    decreases |ops|
  {
    if ops != [] {
      RunOnlyAppends(Apply(s, ops[0]), ops[1..]);
    }
  }

  /** After Dispose no line is accepted, and nothing new is queued or written. */
  lemma {:induction false} NothingAcceptedAfterDispose(s: Sink, ops: seq<Op>)
    requires s.disposed
    ensures Accepted(s, ops) == []
    ensures Run(s, ops).disposed
    ensures Run(s, ops).written + Run(s, ops).queue == s.written + s.queue
    decreases |ops|
  {
    if ops != [] {
      NothingAcceptedAfterDispose(Apply(s, ops[0]), ops[1..]);
      ApplyIsFifo(s, ops[0]);
    }
  }

  /** A second Dispose changes nothing. */
  lemma DisposeIsIdempotent(s: Sink, first: nat, second: nat)
    ensures DisposeSpec(DisposeSpec(s, first), second) == DisposeSpec(s, first)
  {
  }

  /** When the consumer finishes within the wait, every queued line is written. */
  lemma DisposeDrainsWithinBudget(s: Sink, budget: nat)
    requires !s.disposed && budget >= |s.queue|
    ensures DisposeSpec(s, budget).written == s.written + s.queue
    ensures DisposeSpec(s, budget).queue == []
  {
  }

  function Enqueues(lines: seq<string>): (ops: seq<Op>)
    ensures |ops| == |lines|
    ensures forall i :: 0 <= i < |lines| ==> ops[i] == OpEnqueue(lines[i])
  {
    seq(|lines|, i requires 0 <= i < |lines| => OpEnqueue(lines[i]))
  }

  /** Starting from an open sink, consecutive Enqueues accept every line, in order. */
  lemma {:induction false} EnqueuesAcceptAll(s: Sink, lines: seq<string>)
    requires !s.disposed
    ensures Accepted(s, Enqueues(lines)) == lines
    ensures !Run(s, Enqueues(lines)).disposed
    decreases |lines|
  {
    if lines != [] {
      assert Enqueues(lines)[1..] == Enqueues(lines[1..]);
      EnqueuesAcceptAll(EnqueueSpec(s, lines[0]), lines[1..]);
    }
  }

  /**
   * Enqueuing N lines and then disposing, with the consumer finishing in
   * time, leaves exactly those N lines in the file, in order.
   */
  lemma EnqueueAllThenDispose(lines: seq<string>, budget: nat)
    requires budget >= |lines|
    ensures Run(Initial, Enqueues(lines) + [OpDispose(budget)]).written == lines
  {
    var ops := Enqueues(lines);
    RunSplit(Initial, ops, [OpDispose(budget)]);
    EnqueuesAcceptAll(Initial, lines);
    RunIsFifo(Initial, ops);
    RunOnlyAppends(Initial, ops);
    var mid := Run(Initial, ops);
    assert mid.written + mid.queue == lines;
    assert Run(mid, [OpDispose(budget)]) == DisposeSpec(mid, budget);
  }

  /** Running two sequences of operations one after the other. */
  lemma {:induction false} RunSplit(s: Sink, a: seq<Op>, b: seq<Op>)
    ensures Run(s, a + b) == Run(Run(s, a), b)
    decreases |a|
  {
    if a == [] {
      assert a + b == b;
    } else {
      assert (a + b)[0] == a[0] && (a + b)[1..] == a[1..] + b;
      RunSplit(Apply(s, a[0]), a[1..], b);
    }
  }

  // ---------------------------------------------------------------------------
  // The classes

  /** FileLoggerProvider, with the consumer thread's work done by explicit steps. */
  class FileLoggerProvider {
    var queue: seq<string>
    var written: seq<string>
    var disposed: bool
    var addingCompleted: bool
    var closed: bool
    const minimumLevel: LogLevel
    /** Every line Enqueue has accepted, in acceptance order. */
    ghost var accepted: seq<string>

    function State(): Sink
      reads this
    {
      Sink(queue, written, disposed, addingCompleted, closed)
    }

    /** The class invariant: the flag order, and written ++ queue == accepted. */
    ghost predicate Valid()
      reads this
    {
      SinkInv(State()) && written + queue == accepted
    }

    /** The constructor; opening the file and starting the thread are not modelled. */
    constructor (minimumLevel: LogLevel)
      ensures Valid() && State() == Initial && accepted == []
      ensures this.minimumLevel == minimumLevel
    {
      queue, written := [], [];
      disposed, addingCompleted, closed := false, false, false;
      this.minimumLevel := minimumLevel;
      accepted := [];
    }

    /** CreateLogger: a logger for the category that shares this provider and its level. */
    method CreateLogger(categoryName: string) returns (logger: FileLogger)
      ensures fresh(logger)
      ensures logger.categoryName == categoryName && logger.provider == this
      ensures logger.minimumLevel == minimumLevel
    {
      logger := new FileLogger(categoryName, this, minimumLevel);
    }

    /** Enqueue: after Dispose a no-op, before it the line goes to the back of the queue. */
    method Enqueue(message: string)
      requires Valid()
      modifies this
      ensures Valid()
      ensures State() == EnqueueSpec(old(State()), message)
      ensures accepted == old(accepted) + (if old(disposed) then [] else [message])
    {
      if !disposed {
        assert !addingCompleted;  // so BlockingCollection.Add does not throw
        queue := queue + [message];
        accepted := accepted + [message];
      }
    }

    /** One iteration of Consume's loop: take the front line and write it. */
    method ConsumeStep() returns (line: Wrappers.Option<string>)
      requires Valid()
      modifies this
      ensures Valid() && accepted == old(accepted)
      ensures State() == ConsumeSpec(old(State()))
      ensures line == if old(!closed && queue != []) then Wrappers.Some(old(queue[0])) else Wrappers.None
    {
      if closed || queue == [] {
        return Wrappers.None;
      }
      line := Wrappers.Some(queue[0]);
      written := written + [queue[0]];
      queue := queue[1..];
      assert written + queue == old(written) + old(queue);
    }

    /**
     * Consume, run until it would block: while the sink is open, every queued
     * line is written, in order.
     */
    method Consume()
      requires Valid()
      modifies this
      ensures Valid() && accepted == old(accepted)
      ensures old(closed) ==> State() == old(State())
      ensures !old(closed) ==> State() == old(State()).(queue := [], written := old(written) + old(queue))
    {
      while !closed && queue != []
        invariant Valid() && accepted == old(accepted)
        invariant closed == old(closed) && disposed == old(disposed) && addingCompleted == old(addingCompleted)
        invariant written + queue == old(written) + old(queue)
        invariant !old(closed) ==> old(written) <= written
        invariant old(closed) ==> State() == old(State())
        decreases |queue|
      {
        var _ := ConsumeStep();
      }
      if !old(closed) {
        assert queue == [];
        assert written == old(written) + old(queue);
      }
    }

    /**
     * Dispose: a second call returns at once. The first sets _disposed,
     * completes adding, waits for the consumer (which writes `budget` more
     * lines at most, the bounded wait) and closes the file.
     */
    method Dispose(budget: nat)
      requires Valid()
      modifies this
      ensures Valid() && accepted == old(accepted)
      ensures State() == DisposeSpec(old(State()), budget)
      ensures disposed
    {
      if disposed {
        return;
      }
      disposed := true;
      addingCompleted := true;
      var n := 0;
      while n < budget && queue != []
        invariant Valid() && accepted == old(accepted)
        invariant 0 <= n <= |old(queue)|
        invariant n <= budget
        invariant queue == old(queue)[n..] && written == old(written) + old(queue)[..n]
        invariant disposed && addingCompleted && !closed
        decreases |queue|
      {
        var _ := ConsumeStep();
        assert old(queue)[..n + 1] == old(queue)[..n] + [old(queue)[n]];
        n := n + 1;
      }
      closed := true;
      assert n == Min(budget, |old(queue)|);
    }
  }

  /** FileLogger: one category's logger. */
  class FileLogger {
    const categoryName: string
    const provider: FileLoggerProvider
    const minimumLevel: LogLevel

    constructor (categoryName: string, provider: FileLoggerProvider, minimumLevel: LogLevel)
      ensures this.categoryName == categoryName && this.provider == provider
      ensures this.minimumLevel == minimumLevel
    {
      this.categoryName := categoryName;
      this.provider := provider;
      this.minimumLevel := minimumLevel;
    }

    /** IsEnabled: a level passes exactly when it is at least the minimum level. */
    function IsEnabled(logLevel: LogLevel): (r: bool)
      ensures r <==> logLevel.Ordinal() >= minimumLevel.Ordinal()
    {
      logLevel.Ordinal() >= minimumLevel.Ordinal()
    }

    /**
     * Log: a disabled level enqueues nothing; an enabled one enqueues its line.
     * `timestamp` is DateTimeOffset.Now rendered with "O", `message` what the
     * caller's formatter produced.
     */
    method Log(logLevel: LogLevel, timestamp: string, message: string, exception: Wrappers.Option<string>)
      requires provider.Valid()
      modifies provider
      ensures provider.Valid()
      ensures provider.State() ==
        if IsEnabled(logLevel)
        then EnqueueSpec(old(provider.State()), FormatLine(timestamp, logLevel, categoryName, message, exception))
        else old(provider.State())
      ensures provider.accepted == old(provider.accepted) +
        (if IsEnabled(logLevel) && !old(provider.disposed)
         then [FormatLine(timestamp, logLevel, categoryName, message, exception)] else [])
    {
      if !IsEnabled(logLevel) {
        return;
      }
      var line := timestamp + "\t" + logLevel.Name() + "\t" + categoryName + "\t" + message;
      if exception.Some? {
        line := line + "\n" + exception.value;
      }
      provider.Enqueue(line);
    }
  }

  /** The level filter is monotone: a level above an enabled one is enabled too. */
  lemma EnabledIsUpwardClosed(logger: FileLogger, low: LogLevel, high: LogLevel)
    requires logger.IsEnabled(low) && low.Ordinal() <= high.Ordinal()
    ensures logger.IsEnabled(high) && logger.IsEnabled(logger.minimumLevel)
  {
  }
}
