/**
 * The replay loop of the stream populator: after priming the event buffer it
 * takes the events one by one, sleeps until each one's scheduled ingestion
 * time when it is early, hands it to the producer (or, in a dry run, to a
 * throttled trace log), reports statistics once per time slot, and always ends
 * by interrupting the buffer and flushing and destroying the producer.
 *
 * The buffer is the sequence of events it will yield, the clock is a sequence
 * of millisecond readings consumed one per call, and the cancellation of the
 * thread is a schedule saying at which suspension point it arrives.
 */
module Replay {
  import opened Wrappers
  import opened ReplayLog
  import JavaLong

  /** The fields of the populator that the loop reads. `backpressure` is whether
      the semaphore exists, i.e. `!noBackpressure`. */
  datatype Config = Config(notSend: bool, backpressure: bool, statisticsFrequencyMillies: JavaLong.Long)

  /** The suspension points an `InterruptedException` can leave. */
  datatype InterruptPoint = InFill | InTake | InSleep

  /** How `populate` ends: normally when the buffer has no next event, early
      when priming found no event, by the caught `InterruptedException`, or by
      the two exceptions it does not catch (the `NullPointerException` of
      `eventBuffer.peek().timestamp` on an empty buffer and the
      `ArithmeticException` of a zero statistics frequency). */
  datatype Exit = Completed | NoEvents | Interrupted(at: InterruptPoint) | NullPointer | DivisionByZero

  /** Whether the thread is interrupted during `fill()`, and during the `take()`
      and the pacing sleep of the iteration with a given number (from 0). */
  datatype Interrupts = Interrupts(inFill: bool, inTake: nat -> bool, inSleep: nat -> bool)

  /** The state of the loop: the events still in the buffer, the `traceEvent`
      field, the locals `statisticsBatchEventCount` and
      `statisticsLastOutputTimeslot`, the number of clock readings made so far
      and the number of iterations begun. */
  datatype Loop = Loop(
    remaining: seq<Event>,
    traceEvent: Option<Event>,
    batchCount: int,
    lastSlot: int,
    tick: nat,
    iteration: nat)

  datatype Outcome = Outcome(exit: Exit, state: Loop, effects: seq<Effect>)

  /** The pacing sleep: `Duration.between(ingestionTime, now)` is negative
      exactly when the event is early, and the sleep lasts the gap. */
  function PacingDelay(ingestionTime: int, now: int): (delay: nat)
    ensures delay > 0 <==> ingestionTime > now
    ensures delay > 0 ==> now + delay == ingestionTime
    ensures delay == 0 ==> now >= ingestionTime
  {
    if ingestionTime > now then ingestionTime - now else 0
  }

  /** The dry-run throttle: an event is traced when nothing was traced yet or it
      is due more than 1000 ms after the last traced one. */
  predicate TraceDue(traceEvent: Option<Event>, e: Event) {
    traceEvent.None? || e.ingestionTime - traceEvent.value.ingestionTime > 1000
  }

  datatype Ingestion = Ingestion(traceEvent: Option<Event>, effects: seq<Effect>)

  /** `ingestEvent`: the new `traceEvent` field and the calls made. */
  function Ingest(cfg: Config, traceEvent: Option<Event>, e: Event): Ingestion {
    if cfg.notSend then
      if TraceDue(traceEvent, e) then Ingestion(Some(e), [Trace(e)]) else Ingestion(traceEvent, [])
    else if cfg.backpressure then
      Ingestion(traceEvent, [Send(e), Acquire])
    else
      Ingestion(traceEvent, [Send(e)])
  }

  /**
   * A dry run traces the event when the throttle lets it through and never
   * touches the producer or the semaphore; otherwise the event is sent once,
   * the semaphore is acquired once exactly when it exists, and `traceEvent`
   * is left alone.
   */
  lemma IngestFacts(cfg: Config, traceEvent: Option<Event>, e: Event)
    ensures var r := Ingest(cfg, traceEvent, e);
      && (cfg.notSend ==> Sent(r.effects) == [] && Acquires(r.effects) == 0)
      && (cfg.notSend && TraceDue(traceEvent, e) ==> r.traceEvent == Some(e) && Traced(r.effects) == [e])
      && (cfg.notSend && !TraceDue(traceEvent, e) ==> r.traceEvent == traceEvent && Traced(r.effects) == [])
      && (!cfg.notSend ==> r.traceEvent == traceEvent && Traced(r.effects) == [] && Sent(r.effects) == [e])
      && (!cfg.notSend ==> Acquires(r.effects) == if cfg.backpressure then 1 else 0)
  {
    if !cfg.notSend && cfg.backpressure {
      assert [Send(e), Acquire] == [Send(e)] + [Acquire];
      SelectAppend([Send(e)], [Acquire]);
    }
  }

  /** `ingestEvent` takes nothing, sleeps never, reports nothing and never cleans up. */
  lemma IngestQuiet(cfg: Config, traceEvent: Option<Event>, e: Event)
    ensures var r := Ingest(cfg, traceEvent, e);
      && Taken(r.effects) == [] && Sleeps(r.effects) == [] && ReportCounts(r.effects) == []
      && NoCleanup(r.effects)
  {
    if !cfg.notSend && cfg.backpressure {
      assert [Send(e), Acquire] == [Send(e)] + [Acquire];
      TakenAppend([Send(e)], [Acquire]);
      SleepsAppend([Send(e)], [Acquire]);
      ReportCountsAppend([Send(e)], [Acquire]);
      NoCleanupAppend([Send(e)], [Acquire]);
    }
  }

  /** The take, and the pacing sleep when the event is early. */
  function Paced(e: Event, delay: nat): seq<Effect> {
    if delay > 0 then [Take(e), Sleep(delay)] else [Take(e)]
  }

  lemma PacedFacts(e: Event, delay: nat)
    ensures var r := Paced(e, delay);
      && Taken(r) == [e] && Sleeps(r) == (if delay > 0 then [delay] else [])
      && Sent(r) == [] && Traced(r) == [] && Acquires(r) == 0 && ReportCounts(r) == []
      && NoCleanup(r)
  {
    if delay > 0 {
      assert Paced(e, delay) == [Take(e)] + [Sleep(delay)];
      SelectAppend([Take(e)], [Sleep(delay)]);
    }
  }

  datatype Stepped = Stepped(exit: Option<Exit>, next: Loop, effects: seq<Effect>)

  /** The statistics `if` of `populate`, run after the batch count was raised. */
  function Statistics(cfg: Config, clock: nat -> int, start: int, st: Loop): (r: Stepped)
    ensures r.next.remaining == st.remaining && r.next.traceEvent == st.traceEvent && r.next.iteration == st.iteration
  {
    var freq := cfg.statisticsFrequencyMillies;
    var read := st.(tick := st.tick + 1);
    if freq == 0 then Stepped(Some(DivisionByZero), read, [])
    else if JavaLong.Div(clock(st.tick) - start, freq) == st.lastSlot then Stepped(None, read, [])
    else if st.remaining == [] then Stepped(Some(NullPointer), read, [])
    else
      var report := Report(st.batchCount, st.remaining[0].timestamp, |st.remaining|);
      var slot := JavaLong.Div(clock(st.tick + 1) - start, freq);
      Stepped(None, st.(batchCount := 0, lastSlot := slot, tick := st.tick + 2), [report])
  }

  /**
   * The elapsed time is divided into slots with Java's truncating long
   * division, which throws on a zero frequency. A report is made exactly when
   * the slot differs from the last one; it carries the batch count, the time
   * stamp of the next buffered event (the dereference fails on an empty
   * buffer) and the buffer size, and afterwards the count is zero and the last
   * slot is the current one, read again from the clock. Otherwise nothing
   * changes but the clock.
   */
  lemma StatisticsFacts(cfg: Config, clock: nat -> int, start: int, st: Loop)
    ensures var r := Statistics(cfg, clock, start, st);
      (r.exit == Some(DivisionByZero) <==> cfg.statisticsFrequencyMillies == 0)
    ensures var r := Statistics(cfg, clock, start, st);
      cfg.statisticsFrequencyMillies != 0 ==>
      var slot := JavaLong.Div(clock(st.tick) - start, cfg.statisticsFrequencyMillies);
      && (slot == st.lastSlot ==> r == Stepped(None, st.(tick := st.tick + 1), []))
      && (slot != st.lastSlot && st.remaining == [] ==> r.exit == Some(NullPointer) && r.effects == [])
      && (slot != st.lastSlot && st.remaining != [] ==>
            && r.exit.None?
            && r.effects == [Report(st.batchCount, st.remaining[0].timestamp, |st.remaining|)]
            && r.next.batchCount == 0
            && r.next.lastSlot == JavaLong.Div(clock(st.tick + 1) - start, cfg.statisticsFrequencyMillies))
  {
  }

  /**
   * The statistics block only fails by one of its two exceptions, the null
   * dereference only on an empty buffer; it logs nothing but the report, and
   * either leaves the batch count alone or reports it and resets it.
   */
  lemma StatisticsQuiet(cfg: Config, clock: nat -> int, start: int, st: Loop)
    ensures var r := Statistics(cfg, clock, start, st);
      && (r.exit.None? || r.exit == Some(NullPointer) || r.exit == Some(DivisionByZero))
      && (r.exit == Some(NullPointer) ==> st.remaining == [])
      && (r.exit == Some(DivisionByZero) <==> cfg.statisticsFrequencyMillies == 0)
      && Taken(r.effects) == [] && Sleeps(r.effects) == [] && Sent(r.effects) == [] && Traced(r.effects) == []
      && Acquires(r.effects) == 0 && NoCleanup(r.effects)
      && (|| (ReportCounts(r.effects) == [] && r.next.batchCount == st.batchCount)
          || (ReportCounts(r.effects) == [st.batchCount] && r.next.batchCount == 0))
  {
  }

  /** The rest of an iteration once the event is taken and the pacing is over
      (`ingestEvent`, `statisticsBatchEventCount++` and the statistics `if`). */
  function Proceed(cfg: Config, clock: nat -> int, start: int, st: Loop, e: Event): Stepped {
    var ing := Ingest(cfg, st.traceEvent, e);
    var r := Statistics(cfg, clock, start, st.(traceEvent := ing.traceEvent, batchCount := st.batchCount + 1));
    Stepped(r.exit, r.next, ing.effects + r.effects)
  }

  /** One iteration of the do-while loop of `populate`, from `take()` on, on a
      buffer that holds at least one event. */
  function Step(cfg: Config, clock: nat -> int, irq: Interrupts, start: int, st: Loop): (s: Stepped)
    requires st.remaining != []
    ensures s.exit.None? ==> s.next.remaining == st.remaining[1..]
  {
    var e := st.remaining[0];
    if irq.inTake(st.iteration) then Stepped(Some(Interrupted(InTake)), st, [])
    else
      var delay := PacingDelay(e.ingestionTime, clock(st.tick));
      var paced := Paced(e, delay);
      var woken := st.(remaining := st.remaining[1..], tick := st.tick + 1, iteration := st.iteration + 1);
      if delay > 0 && irq.inSleep(st.iteration) then
        Stepped(Some(Interrupted(InSleep)), woken, paced)
      else
        var p := Proceed(cfg, clock, start, woken, e);
        Stepped(p.exit, p.next, paced + p.effects)
  }

  /** The do-while loop from the current state until it ends. */
  function Run(cfg: Config, clock: nat -> int, irq: Interrupts, start: int, st: Loop): Outcome
    requires st.remaining != []
    decreases |st.remaining|
  {
    var s := Step(cfg, clock, irq, start, st);
    match s.exit
    case Some(x) => Outcome(x, s.next, s.effects)
    case None =>
      if s.next.remaining == [] then Outcome(Completed, s.next, s.effects)
      else
        var o := Run(cfg, clock, irq, start, s.next);
        Outcome(o.exit, o.state, s.effects + o.effects)
  }

  /** `populate`: prime the buffer, give up when it is empty, otherwise read the
      start time and run the loop; the `finally` block runs on every path. */
  function Populated(cfg: Config, clock: nat -> int, irq: Interrupts, buffer: seq<Event>, traceEvent: Option<Event>): Outcome {
    var primed := Loop(buffer, traceEvent, 0, 0, 0, 0);
    if irq.inFill then Outcome(Interrupted(InFill), primed, Cleanup)
    else if buffer == [] then Outcome(NoEvents, primed, Cleanup)
    else
      var o := Run(cfg, clock, irq, clock(0), primed.(tick := 1));
      Outcome(o.exit, o.state, o.effects + Cleanup)
  }

  /** The iteration ended in the pacing sleep, after taking an event it never ingested. */
  predicate Dropped(exit: Option<Exit>) {
    exit == Some(Interrupted(InSleep))
  }

  /** The iteration got as far as `ingestEvent`. */
  predicate Ingested(exit: Option<Exit>) {
    exit != Some(Interrupted(InTake)) && !Dropped(exit)
  }

  /**
   * Past the pacing, an iteration takes nothing, sleeps never and never cleans
   * up; it can fail only in the statistics block (the null dereference only on
   * an empty buffer), and it leaves the buffer and the iteration number alone.
   */
  lemma ProceedExits(cfg: Config, clock: nat -> int, start: int, st: Loop, e: Event)
    ensures var p := Proceed(cfg, clock, start, st, e);
      && (p.exit.None? || p.exit == Some(NullPointer) || p.exit == Some(DivisionByZero))
      && (p.exit == Some(NullPointer) ==> st.remaining == [])
      && (p.exit == Some(DivisionByZero) <==> cfg.statisticsFrequencyMillies == 0)
      && p.next.remaining == st.remaining && p.next.iteration == st.iteration
      && Taken(p.effects) == [] && Sleeps(p.effects) == [] && NoCleanup(p.effects)
  {
    var ing := Ingest(cfg, st.traceEvent, e);
    var st' := st.(traceEvent := ing.traceEvent, batchCount := st.batchCount + 1);
    var r := Statistics(cfg, clock, start, st');
    IngestQuiet(cfg, st.traceEvent, e);
    StatisticsQuiet(cfg, clock, start, st');
    TakenLeft(ing.effects, r.effects);
    SleepsLeft(ing.effects, r.effects);
    NoCleanupAppend(ing.effects, r.effects);
  }

  /** Past the pacing, the producer, the semaphore and the trace log see exactly
      what `ingestEvent` does. */
  lemma ProceedIngests(cfg: Config, clock: nat -> int, start: int, st: Loop, e: Event)
    ensures var p := Proceed(cfg, clock, start, st, e);
      var ing := Ingest(cfg, st.traceEvent, e);
      && Sent(p.effects) == Sent(ing.effects) && Traced(p.effects) == Traced(ing.effects)
      && Acquires(p.effects) == Acquires(ing.effects)
      && p.next.traceEvent == ing.traceEvent
  {
    var ing := Ingest(cfg, st.traceEvent, e);
    var st' := st.(traceEvent := ing.traceEvent, batchCount := st.batchCount + 1);
    var r := Statistics(cfg, clock, start, st');
    StatisticsQuiet(cfg, clock, start, st');
    SentLeft(ing.effects, r.effects);
    TracedLeft(ing.effects, r.effects);
    AcquiresAppend(ing.effects, r.effects);
  }

  /** Past the pacing, the event is counted: either the count rises by one, or
      the batch including it is reported and the count starts again at zero. */
  lemma ProceedCounts(cfg: Config, clock: nat -> int, start: int, st: Loop, e: Event)
    ensures var p := Proceed(cfg, clock, start, st, e);
      || (ReportCounts(p.effects) == [] && p.next.batchCount == st.batchCount + 1)
      || (ReportCounts(p.effects) == [st.batchCount + 1] && p.next.batchCount == 0)
  {
    var ing := Ingest(cfg, st.traceEvent, e);
    var st' := st.(traceEvent := ing.traceEvent, batchCount := st.batchCount + 1);
    var r := Statistics(cfg, clock, start, st');
    IngestQuiet(cfg, st.traceEvent, e);
    StatisticsQuiet(cfg, clock, start, st');
    ReportCountsRight(ing.effects, r.effects);
  }

  /**
   * The three ways an iteration goes: interrupted in `take()`, interrupted in
   * the pacing sleep after taking the event, or on to `Proceed`.
   */
  lemma StepShape(cfg: Config, clock: nat -> int, irq: Interrupts, start: int, st: Loop)
    requires st.remaining != []
    ensures var s := Step(cfg, clock, irq, start, st);
      var e := st.remaining[0];
      var delay := PacingDelay(e.ingestionTime, clock(st.tick));
      var woken := st.(remaining := st.remaining[1..], tick := st.tick + 1, iteration := st.iteration + 1);
      && (irq.inTake(st.iteration) ==> s == Stepped(Some(Interrupted(InTake)), st, []))
      && (!irq.inTake(st.iteration) && delay > 0 && irq.inSleep(st.iteration) ==>
            s == Stepped(Some(Interrupted(InSleep)), woken, Paced(e, delay)))
      && (!irq.inTake(st.iteration) && !(delay > 0 && irq.inSleep(st.iteration)) ==>
            var p := Proceed(cfg, clock, start, woken, e);
            s == Stepped(p.exit, p.next, Paced(e, delay) + p.effects))
  {
  }

  /**
   * One iteration: interrupted in `take()` it changes nothing; otherwise it
   * takes the head of the buffer and moves on to the next iteration.
   */
  lemma StepTakes(cfg: Config, clock: nat -> int, irq: Interrupts, start: int, st: Loop)
    requires st.remaining != []
    ensures var s := Step(cfg, clock, irq, start, st);
      && (s.exit == Some(Interrupted(InTake)) <==> irq.inTake(st.iteration))
      && (irq.inTake(st.iteration) ==> s.next == st && s.effects == [])
      && (!irq.inTake(st.iteration) ==>
            && Taken(s.effects) == [st.remaining[0]]
            && s.next.remaining == st.remaining[1..]
            && s.next.iteration == st.iteration + 1)
  {
    StepShape(cfg, clock, irq, start, st);
    var e := st.remaining[0];
    if !irq.inTake(st.iteration) {
      var delay := PacingDelay(e.ingestionTime, clock(st.tick));
      var woken := st.(remaining := st.remaining[1..], tick := st.tick + 1, iteration := st.iteration + 1);
      PacedFacts(e, delay);
      if !(delay > 0 && irq.inSleep(st.iteration)) {
        var p := Proceed(cfg, clock, start, woken, e);
        ProceedExits(cfg, clock, start, woken, e);
        TakenLeft(Paced(e, delay), p.effects);
      }
    }
  }

  /**
   * An iteration never runs the cleanup. It ends in `take()` only when
   * interrupted there, in the sleep only when interrupted there after sleeping,
   * by a division by zero only when the frequency is zero, and by the null
   * dereference only when the buffer is empty; otherwise it ends normally.
   */
  lemma StepExits(cfg: Config, clock: nat -> int, irq: Interrupts, start: int, st: Loop)
    requires st.remaining != []
    ensures var s := Step(cfg, clock, irq, start, st);
      && NoCleanup(s.effects)
      && (s.exit == Some(NullPointer) ==> s.next.remaining == [])
      && (s.exit.Some? ==> s.exit.value in {Interrupted(InTake), Interrupted(InSleep), NullPointer, DivisionByZero})
      && (s.exit == Some(Interrupted(InTake)) ==> irq.inTake(st.iteration))
      && (Dropped(s.exit) ==> irq.inSleep(st.iteration))
      && (s.exit == Some(DivisionByZero) <==> !irq.inTake(st.iteration) && !Dropped(s.exit) && cfg.statisticsFrequencyMillies == 0)
  {
    StepShape(cfg, clock, irq, start, st);
    var e := st.remaining[0];
    if !irq.inTake(st.iteration) {
      var delay := PacingDelay(e.ingestionTime, clock(st.tick));
      var woken := st.(remaining := st.remaining[1..], tick := st.tick + 1, iteration := st.iteration + 1);
      PacedFacts(e, delay);
      if !(delay > 0 && irq.inSleep(st.iteration)) {
        var p := Proceed(cfg, clock, start, woken, e);
        ProceedExits(cfg, clock, start, woken, e);
        NoCleanupAppend(Paced(e, delay), p.effects);
      }
    }
  }

  /** An iteration sleeps exactly when its event is early, by the gap, and ends
      in that sleep exactly when it slept and the interruption came then. */
  lemma StepSleeps(cfg: Config, clock: nat -> int, irq: Interrupts, start: int, st: Loop)
    requires st.remaining != []
    ensures var s := Step(cfg, clock, irq, start, st);
      var e := st.remaining[0];
      var delay := PacingDelay(e.ingestionTime, clock(st.tick));
      && (!irq.inTake(st.iteration) ==> Sleeps(s.effects) == (if delay > 0 then [delay] else []))
      && (Dropped(s.exit) <==> !irq.inTake(st.iteration) && delay > 0 && irq.inSleep(st.iteration))
  {
    StepShape(cfg, clock, irq, start, st);
    var e := st.remaining[0];
    if !irq.inTake(st.iteration) {
      var delay := PacingDelay(e.ingestionTime, clock(st.tick));
      var woken := st.(remaining := st.remaining[1..], tick := st.tick + 1, iteration := st.iteration + 1);
      PacedFacts(e, delay);
      if !(delay > 0 && irq.inSleep(st.iteration)) {
        var p := Proceed(cfg, clock, start, woken, e);
        ProceedExits(cfg, clock, start, woken, e);
        SleepsLeft(Paced(e, delay), p.effects);
      }
    }
  }

  /** An iteration interrupted in its sleep ingests nothing and counts nothing. */
  lemma StepDrops(cfg: Config, clock: nat -> int, irq: Interrupts, start: int, st: Loop)
    requires st.remaining != []
    ensures var s := Step(cfg, clock, irq, start, st);
      Dropped(s.exit) ==>
        && Sent(s.effects) == [] && Traced(s.effects) == [] && Acquires(s.effects) == 0 && ReportCounts(s.effects) == []
        && s.next.traceEvent == st.traceEvent && s.next.batchCount == st.batchCount
  {
    var e := st.remaining[0];
    var woken := st.(remaining := st.remaining[1..], tick := st.tick + 1, iteration := st.iteration + 1);
    PacedFacts(e, PacingDelay(e.ingestionTime, clock(st.tick)));
    ProceedExits(cfg, clock, start, woken, e);
  }

  /** An iteration that gets past the sleep ingests the event exactly once. */
  lemma StepIngests(cfg: Config, clock: nat -> int, irq: Interrupts, start: int, st: Loop)
    requires st.remaining != []
    ensures var s := Step(cfg, clock, irq, start, st);
      var ing := Ingest(cfg, st.traceEvent, st.remaining[0]);
      Ingested(s.exit) ==>
        && Sent(s.effects) == Sent(ing.effects) && Traced(s.effects) == Traced(ing.effects)
        && Acquires(s.effects) == Acquires(ing.effects)
        && s.next.traceEvent == ing.traceEvent
  {
    StepShape(cfg, clock, irq, start, st);
    var e := st.remaining[0];
    if !irq.inTake(st.iteration) {
      var delay := PacingDelay(e.ingestionTime, clock(st.tick));
      var woken := st.(remaining := st.remaining[1..], tick := st.tick + 1, iteration := st.iteration + 1);
      PacedFacts(e, delay);
      if !(delay > 0 && irq.inSleep(st.iteration)) {
        var p := Proceed(cfg, clock, start, woken, e);
        ProceedExits(cfg, clock, start, woken, e);
        ProceedIngests(cfg, clock, start, woken, e);
        SentRight(Paced(e, delay), p.effects);
        TracedRight(Paced(e, delay), p.effects);
        AcquiresAppend(Paced(e, delay), p.effects);
      }
    }
  }

  /** An iteration that gets past the sleep either adds its event to the batch
      count or reports the batch including it and starts a new one. */
  lemma StepCounts(cfg: Config, clock: nat -> int, irq: Interrupts, start: int, st: Loop)
    requires st.remaining != []
    ensures var s := Step(cfg, clock, irq, start, st);
      Ingested(s.exit) ==>
        || (ReportCounts(s.effects) == [] && s.next.batchCount == st.batchCount + 1)
        || (ReportCounts(s.effects) == [st.batchCount + 1] && s.next.batchCount == 0)
  {
    StepShape(cfg, clock, irq, start, st);
    var e := st.remaining[0];
    if !irq.inTake(st.iteration) {
      var delay := PacingDelay(e.ingestionTime, clock(st.tick));
      var woken := st.(remaining := st.remaining[1..], tick := st.tick + 1, iteration := st.iteration + 1);
      PacedFacts(e, delay);
      if !(delay > 0 && irq.inSleep(st.iteration)) {
        var p := Proceed(cfg, clock, start, woken, e);
        ProceedExits(cfg, clock, start, woken, e);
        ProceedCounts(cfg, clock, start, woken, e);
        ReportCountsRight(Paced(e, delay), p.effects);
      }
    }
  }

  /** The taken events that reached `ingestEvent`: all of them, except the
      last one when the loop ended in its pacing sleep. */
  function Handed(exit: Exit, taken: seq<Event>): (r: seq<Event>)
    ensures exit != Interrupted(InSleep) ==> r == taken
    ensures exit == Interrupted(InSleep) && taken != [] ==> r + [taken[|taken| - 1]] == taken
  {
    if exit == Interrupted(InSleep) && taken != [] then taken[..|taken| - 1] else taken
  }

  /** Taking the head of a buffer and then the rest in order is taking it all in order. */
  lemma TakeOne(all: seq<Event>, taken: seq<Event>, rest: seq<Event>)
    requires all != [] && taken + rest == all[1..]
    ensures [all[0]] + taken + rest == all
  {
    assert all == [all[0]] + all[1..];
  }

  /**
   * The loop takes the buffered events in order, one per iteration, and leaves
   * the rest in the buffer.
   */
  lemma {:induction false} RunOrder(cfg: Config, clock: nat -> int, irq: Interrupts, start: int, st: Loop)
    requires st.remaining != []
    ensures var o := Run(cfg, clock, irq, start, st);
      && Taken(o.effects) + o.state.remaining == st.remaining
      && o.state.iteration == st.iteration + |Taken(o.effects)|
    decreases |st.remaining|
  {
    var s := Step(cfg, clock, irq, start, st);
    StepTakes(cfg, clock, irq, start, st);
    RunUnfold(cfg, clock, irq, start, st);
    if s.exit.None? && s.next.remaining != [] {
      var o' := Run(cfg, clock, irq, start, s.next);
      RunOrder(cfg, clock, irq, start, s.next);
      TakenAppend(s.effects, o'.effects);
      TakeOne(st.remaining, Taken(o'.effects), o'.state.remaining);
    }
  }

  /**
   * The loop ends normally only when the buffer is empty, an interruption in
   * the sleep comes after a take, and the loop never runs the cleanup itself.
   */
  lemma {:induction false} RunExits(cfg: Config, clock: nat -> int, irq: Interrupts, start: int, st: Loop)
    requires st.remaining != []
    ensures var o := Run(cfg, clock, irq, start, st);
      && NoCleanup(o.effects)
      && (o.exit == Completed || o.exit == NullPointer ==> o.state.remaining == [])
      && o.exit in {Completed, Interrupted(InTake), Interrupted(InSleep), NullPointer, DivisionByZero}
      && (o.exit == Interrupted(InSleep) ==> Taken(o.effects) != [])
    decreases |st.remaining|
  {
    var s := Step(cfg, clock, irq, start, st);
    StepTakes(cfg, clock, irq, start, st);
    StepExits(cfg, clock, irq, start, st);
    if s.exit.None? && s.next.remaining != [] {
      var o' := Run(cfg, clock, irq, start, s.next);
      RunExits(cfg, clock, irq, start, s.next);
      TakenAppend(s.effects, o'.effects);
      NoCleanupAppend(s.effects, o'.effects);
    }
  }

  /** Handing one more event on before the rest of the run. */
  lemma HandedCons(exit: Exit, e: Event, taken: seq<Event>)
    requires exit == Interrupted(InSleep) ==> taken != []
    ensures Handed(exit, [e] + taken) == [e] + Handed(exit, taken)
  {
    if exit == Interrupted(InSleep) {
      assert ([e] + taken)[..|taken|] == [e] + taken[..|taken| - 1];
    }
  }

  /**
   * Every event that reaches `ingestEvent` is sent, in order, when sending; in
   * a dry run nothing is sent. The semaphore is acquired once per sent event
   * when backpressure is on, and never otherwise.
   */
  lemma {:induction false} RunSends(cfg: Config, clock: nat -> int, irq: Interrupts, start: int, st: Loop)
    requires st.remaining != []
    ensures var o := Run(cfg, clock, irq, start, st);
      && (cfg.notSend ==> Sent(o.effects) == [])
      && (!cfg.notSend ==> Sent(o.effects) == Handed(o.exit, Taken(o.effects)))
      && Acquires(o.effects) == (if cfg.backpressure && !cfg.notSend then |Sent(o.effects)| else 0)
    decreases |st.remaining|
  {
    var s := Step(cfg, clock, irq, start, st);
    RunUnfold(cfg, clock, irq, start, st);
    StepTakes(cfg, clock, irq, start, st);
    StepDrops(cfg, clock, irq, start, st);
    StepIngests(cfg, clock, irq, start, st);
    IngestFacts(cfg, st.traceEvent, st.remaining[0]);
    if s.exit.None? && s.next.remaining != [] {
      var o' := Run(cfg, clock, irq, start, s.next);
      RunSends(cfg, clock, irq, start, s.next);
      RunExits(cfg, clock, irq, start, s.next);
      SelectAppend(s.effects, o'.effects);
      HandedCons(o'.exit, st.remaining[0], Taken(o'.effects));
    }
  }

  /**
   * Every event that reaches `ingestEvent` is counted exactly once: the
   * reported batch counts and the final count add up to the events ingested.
   */
  lemma {:induction false} RunCounts(cfg: Config, clock: nat -> int, irq: Interrupts, start: int, st: Loop)
    requires st.remaining != []
    ensures var o := Run(cfg, clock, irq, start, st);
      Sum(ReportCounts(o.effects)) + o.state.batchCount == st.batchCount + |Handed(o.exit, Taken(o.effects))|
    decreases |st.remaining|
  {
    var s := Step(cfg, clock, irq, start, st);
    StepTakes(cfg, clock, irq, start, st);
    StepDrops(cfg, clock, irq, start, st);
    StepCounts(cfg, clock, irq, start, st);
    if s.exit.None? && s.next.remaining != [] {
      var o' := Run(cfg, clock, irq, start, s.next);
      RunCounts(cfg, clock, irq, start, s.next);
      RunExits(cfg, clock, irq, start, s.next);
      SelectAppend(s.effects, o'.effects);
      SumAppend(ReportCounts(s.effects), ReportCounts(o'.effects));
      HandedCons(o'.exit, st.remaining[0], Taken(o'.effects));
    }
  }

  /** Every element of a sequence of batch counts is at least one. */
  predicate AllPositive(xs: seq<int>) {
    forall i :: 0 <= i < |xs| ==> xs[i] >= 1
  }

  lemma AllPositiveAppend(a: seq<int>, b: seq<int>)
    requires AllPositive(a) && AllPositive(b)
    ensures AllPositive(a + b)
  {
    assert forall i :: |a| <= i < |a + b| ==> (a + b)[i] == b[i - |a|];
  }

  /** One unfolding of the loop. */
  lemma RunUnfold(cfg: Config, clock: nat -> int, irq: Interrupts, start: int, st: Loop)
    requires st.remaining != []
    ensures var s := Step(cfg, clock, irq, start, st);
      var o := Run(cfg, clock, irq, start, st);
      && (s.exit.Some? ==> o == Outcome(s.exit.value, s.next, s.effects))
      && (s.exit.None? && s.next.remaining == [] ==> o == Outcome(Completed, s.next, s.effects))
      && (s.exit.None? && s.next.remaining != [] ==>
            var o' := Run(cfg, clock, irq, start, s.next);
            o == Outcome(o'.exit, o'.state, s.effects + o'.effects))
  {
  }

  /** From a non-negative count, every report covers at least one event and
      the count stays non-negative. */
  lemma {:induction false} RunReportsNonEmpty(cfg: Config, clock: nat -> int, irq: Interrupts, start: int, st: Loop)
    requires st.remaining != [] && st.batchCount >= 0
    ensures var o := Run(cfg, clock, irq, start, st);
      o.state.batchCount >= 0 && AllPositive(ReportCounts(o.effects))
    decreases |st.remaining|
  {
    var s := Step(cfg, clock, irq, start, st);
    RunUnfold(cfg, clock, irq, start, st);
    StepTakes(cfg, clock, irq, start, st);
    StepDrops(cfg, clock, irq, start, st);
    StepCounts(cfg, clock, irq, start, st);
    assert s.next.batchCount >= 0 && AllPositive(ReportCounts(s.effects));
    if s.exit.None? && s.next.remaining != [] {
      var o' := Run(cfg, clock, irq, start, s.next);
      RunReportsNonEmpty(cfg, clock, irq, start, s.next);
      ReportCountsAppend(s.effects, o'.effects);
      AllPositiveAppend(ReportCounts(s.effects), ReportCounts(o'.effects));
    }
  }

  /** No interruption arrives in any `take()` or sleep from iteration `from` on. */
  ghost predicate Uninterrupted(irq: Interrupts, from: nat) {
    forall i: nat :: from <= i ==> !irq.inTake(i) && !irq.inSleep(i)
  }

  /**
   * With no interruption in any later iteration and a non-zero frequency, the
   * loop does not stop early: it ends normally, or with the null dereference of
   * the last report, and either way after taking every event.
   */
  lemma {:induction false} RunNoDrops(cfg: Config, clock: nat -> int, irq: Interrupts, start: int, st: Loop)
    requires st.remaining != [] && cfg.statisticsFrequencyMillies != 0 && Uninterrupted(irq, st.iteration)
    ensures var o := Run(cfg, clock, irq, start, st);
      o.exit == Completed || o.exit == NullPointer
    decreases |st.remaining|
  {
    var s := Step(cfg, clock, irq, start, st);
    StepTakes(cfg, clock, irq, start, st);
    StepExits(cfg, clock, irq, start, st);
    StepSleeps(cfg, clock, irq, start, st);
    RunUnfold(cfg, clock, irq, start, st);
    if s.exit.None? && s.next.remaining != [] {
      RunNoDrops(cfg, clock, irq, start, s.next);
    }
  }

  /** The event traced last: the last of `traces`, or `anchor` when there is none. */
  function LastTraced(anchor: Option<Event>, traces: seq<Event>): Option<Event> {
    if traces == [] then anchor else Some(traces[|traces| - 1])
  }

  /** Each traced event was due more than 1000 ms after the one traced before it
      (the first one: after `anchor`, if any). */
  predicate Spaced(anchor: Option<Event>, traces: seq<Event>)
    decreases |traces|
  {
    traces == [] || (TraceDue(anchor, traces[0]) && Spaced(Some(traces[0]), traces[1..]))
  }

  lemma {:induction false} SpacedAppend(anchor: Option<Event>, a: seq<Event>, b: seq<Event>)
    requires Spaced(anchor, a) && Spaced(LastTraced(anchor, a), b)
    ensures Spaced(anchor, a + b)
    ensures LastTraced(LastTraced(anchor, a), b) == LastTraced(anchor, a + b)
    decreases |a|
  {
    if a == [] {
      assert a + b == b;
    } else {
      assert (a + b)[1..] == a[1..] + b;
      assert LastTraced(Some(a[0]), a[1..]) == LastTraced(anchor, a);
      SpacedAppend(Some(a[0]), a[1..], b);
      if b != [] {
        assert (a + b)[|a + b| - 1] == b[|b| - 1];
      }
    }
  }

  /**
   * In a dry run the trace log is throttled: each traced event is due more
   * than 1000 ms after the previously traced one, and the `traceEvent` field
   * ends as the last traced event.
   */
  lemma {:induction false} RunThrottle(cfg: Config, clock: nat -> int, irq: Interrupts, start: int, st: Loop)
    requires st.remaining != [] && cfg.notSend
    ensures var o := Run(cfg, clock, irq, start, st);
      && Spaced(st.traceEvent, Traced(o.effects))
      && o.state.traceEvent == LastTraced(st.traceEvent, Traced(o.effects))
    decreases |st.remaining|
  {
    var s := Step(cfg, clock, irq, start, st);
    StepTakes(cfg, clock, irq, start, st);
    StepDrops(cfg, clock, irq, start, st);
    StepIngests(cfg, clock, irq, start, st);
    IngestFacts(cfg, st.traceEvent, st.remaining[0]);
    assert Spaced(st.traceEvent, Traced(s.effects)) && s.next.traceEvent == LastTraced(st.traceEvent, Traced(s.effects));
    if s.exit.None? && s.next.remaining != [] {
      var o' := Run(cfg, clock, irq, start, s.next);
      RunThrottle(cfg, clock, irq, start, s.next);
      TracedAppend(s.effects, o'.effects);
      SpacedAppend(st.traceEvent, Traced(s.effects), Traced(o'.effects));
    }
  }

  /** When the replay is behind schedule at every clock reading, it never sleeps. */
  lemma {:induction false} RunCatchUp(cfg: Config, clock: nat -> int, irq: Interrupts, start: int, st: Loop)
    requires st.remaining != []
    requires forall t: nat, i :: 0 <= i < |st.remaining| ==> st.remaining[i].ingestionTime <= clock(t)
    ensures var o := Run(cfg, clock, irq, start, st);
      Sleeps(o.effects) == [] && o.exit != Interrupted(InSleep)
    decreases |st.remaining|
  {
    var s := Step(cfg, clock, irq, start, st);
    StepTakes(cfg, clock, irq, start, st);
    StepSleeps(cfg, clock, irq, start, st);
    assert st.remaining[0].ingestionTime <= clock(st.tick);
    if s.exit.None? && s.next.remaining != [] {
      var o' := Run(cfg, clock, irq, start, s.next);
      assert forall i :: 0 <= i < |s.next.remaining| ==> s.next.remaining[i] == st.remaining[i + 1];
      RunCatchUp(cfg, clock, irq, start, s.next);
      SleepsAppend(s.effects, o'.effects);
    }
  }

  // ---------------------------------------------------------------------------
  // populate as a whole

  /** The cleanup runs exactly once, last, on every path. */
  lemma PopulateCleansUpOnce(cfg: Config, clock: nat -> int, irq: Interrupts, buffer: seq<Event>, traceEvent: Option<Event>)
    ensures var o := Populated(cfg, clock, irq, buffer, traceEvent);
      && |o.effects| >= |Cleanup|
      && o.effects[|o.effects| - |Cleanup|..] == Cleanup
      && NoCleanup(o.effects[..|o.effects| - |Cleanup|])
  {
    var o := Populated(cfg, clock, irq, buffer, traceEvent);
    if !irq.inFill && buffer != [] {
      var r := Run(cfg, clock, irq, clock(0), Loop(buffer, traceEvent, 0, 0, 1, 0));
      RunExits(cfg, clock, irq, clock(0), Loop(buffer, traceEvent, 0, 0, 1, 0));
      assert o.effects[..|o.effects| - |Cleanup|] == r.effects;
    }
  }

  /** Priming: an interrupted fill or an empty buffer ends `populate` before any
      event is taken, with nothing but the cleanup. */
  lemma PopulateNoEvents(cfg: Config, clock: nat -> int, irq: Interrupts, buffer: seq<Event>, traceEvent: Option<Event>)
    ensures var o := Populated(cfg, clock, irq, buffer, traceEvent);
      && (o.exit == NoEvents <==> !irq.inFill && buffer == [])
      && (o.exit == Interrupted(InFill) <==> irq.inFill)
      && (irq.inFill || buffer == [] ==> o.effects == Cleanup && o.state.remaining == buffer)
  {
    if !irq.inFill && buffer != [] {
      RunExits(cfg, clock, irq, clock(0), Loop(buffer, traceEvent, 0, 0, 1, 0));
    }
  }

  /**
   * Events are taken in buffer order, each at most once, and the rest stay in
   * the buffer; a normal end (and the failing statistics report after the
   * last event) leaves nothing untaken.
   */
  lemma PopulateOrder(cfg: Config, clock: nat -> int, irq: Interrupts, buffer: seq<Event>, traceEvent: Option<Event>)
    ensures var o := Populated(cfg, clock, irq, buffer, traceEvent);
      && Taken(o.effects) + o.state.remaining == buffer
      && (o.exit == Completed || o.exit == NullPointer ==> Taken(o.effects) == buffer)
  {
    var o := Populated(cfg, clock, irq, buffer, traceEvent);
    CleanupSelects();
    if !irq.inFill && buffer != [] {
      var first := Loop(buffer, traceEvent, 0, 0, 1, 0);
      var r := Run(cfg, clock, irq, clock(0), first);
      RunOrder(cfg, clock, irq, clock(0), first);
      RunExits(cfg, clock, irq, clock(0), first);
      TakenLeft(r.effects, Cleanup);
    }
  }

  /**
   * When sending, every event that reached `ingestEvent` is handed to the
   * producer once and in order; a dry run sends nothing. The semaphore is
   * acquired once per sent event when backpressure is on, never otherwise.
   */
  lemma PopulateSends(cfg: Config, clock: nat -> int, irq: Interrupts, buffer: seq<Event>, traceEvent: Option<Event>)
    ensures var o := Populated(cfg, clock, irq, buffer, traceEvent);
      && (cfg.notSend ==> Sent(o.effects) == [])
      && (!cfg.notSend ==> Sent(o.effects) == Handed(o.exit, Taken(o.effects)))
      && Acquires(o.effects) == (if cfg.backpressure && !cfg.notSend then |Sent(o.effects)| else 0)
  {
    var o := Populated(cfg, clock, irq, buffer, traceEvent);
    CleanupSelects();
    if !irq.inFill && buffer != [] {
      var first := Loop(buffer, traceEvent, 0, 0, 1, 0);
      var r := Run(cfg, clock, irq, clock(0), first);
      RunSends(cfg, clock, irq, clock(0), first);
      SentLeft(r.effects, Cleanup);
      TakenLeft(r.effects, Cleanup);
      AcquiresAppend(r.effects, Cleanup);
    }
  }

  /**
   * Statistics: the reported batch counts and the final batch count add up to
   * the number of events ingested, and every report covers at least one event.
   */
  lemma PopulateCounts(cfg: Config, clock: nat -> int, irq: Interrupts, buffer: seq<Event>, traceEvent: Option<Event>)
    ensures var o := Populated(cfg, clock, irq, buffer, traceEvent);
      && Sum(ReportCounts(o.effects)) + o.state.batchCount == |Handed(o.exit, Taken(o.effects))|
      && AllPositive(ReportCounts(o.effects))
  {
    var o := Populated(cfg, clock, irq, buffer, traceEvent);
    CleanupSelects();
    if !irq.inFill && buffer != [] {
      var first := Loop(buffer, traceEvent, 0, 0, 1, 0);
      var r := Run(cfg, clock, irq, clock(0), first);
      RunCounts(cfg, clock, irq, clock(0), first);
      RunReportsNonEmpty(cfg, clock, irq, clock(0), first);
      ReportCountsLeft(r.effects, Cleanup);
      TakenLeft(r.effects, Cleanup);
    }
  }

  /** The dry-run trace throttle over a whole replay. */
  lemma PopulateThrottle(cfg: Config, clock: nat -> int, irq: Interrupts, buffer: seq<Event>, traceEvent: Option<Event>)
    requires cfg.notSend
    ensures var o := Populated(cfg, clock, irq, buffer, traceEvent);
      && Spaced(traceEvent, Traced(o.effects))
      && o.state.traceEvent == LastTraced(traceEvent, Traced(o.effects))
  {
    var o := Populated(cfg, clock, irq, buffer, traceEvent);
    CleanupSelects();
    if !irq.inFill && buffer != [] {
      var first := Loop(buffer, traceEvent, 0, 0, 1, 0);
      var r := Run(cfg, clock, irq, clock(0), first);
      RunThrottle(cfg, clock, irq, clock(0), first);
      TracedLeft(r.effects, Cleanup);
    }
  }

  /** A replay that is behind schedule at every clock reading never sleeps. */
  lemma PopulateCatchUp(cfg: Config, clock: nat -> int, irq: Interrupts, buffer: seq<Event>, traceEvent: Option<Event>)
    requires forall t: nat, i :: 0 <= i < |buffer| ==> buffer[i].ingestionTime <= clock(t)
    ensures var o := Populated(cfg, clock, irq, buffer, traceEvent);
      Sleeps(o.effects) == [] && o.exit != Interrupted(InSleep)
  {
    var o := Populated(cfg, clock, irq, buffer, traceEvent);
    CleanupSelects();
    if !irq.inFill && buffer != [] {
      var first := Loop(buffer, traceEvent, 0, 0, 1, 0);
      var r := Run(cfg, clock, irq, clock(0), first);
      RunCatchUp(cfg, clock, irq, clock(0), first);
      SleepsLeft(r.effects, Cleanup);
    }
  }

  /**
   * No drops: when the fill, every `take()` and every sleep go uninterrupted
   * and the frequency is not zero, `populate` takes every event of the buffer
   * and, unless in a dry run, sends every one of them in order.
   */
  lemma PopulateNoDrops(cfg: Config, clock: nat -> int, irq: Interrupts, buffer: seq<Event>, traceEvent: Option<Event>)
    requires !irq.inFill && cfg.statisticsFrequencyMillies != 0 && Uninterrupted(irq, 0)
    ensures var o := Populated(cfg, clock, irq, buffer, traceEvent);
      && o.exit in {Completed, NoEvents, NullPointer}
      && Taken(o.effects) == buffer
      && (!cfg.notSend ==> Sent(o.effects) == buffer)
  {
    var o := Populated(cfg, clock, irq, buffer, traceEvent);
    CleanupSelects();
    PopulateOrder(cfg, clock, irq, buffer, traceEvent);
    PopulateSends(cfg, clock, irq, buffer, traceEvent);
    if buffer != [] {
      RunNoDrops(cfg, clock, irq, clock(0), Loop(buffer, traceEvent, 0, 0, 1, 0));
    }
  }

  /** Regrouping a log built in three parts. */
  lemma Concat3(a: seq<Effect>, b: seq<Effect>, c: seq<Effect>)
    ensures a + b + c == a + (b + c)
  {
  }

  /** The loop's outcome seen from the state after one more iteration: what
      was done so far grows by that iteration's effects. */
  lemma RunResumes(cfg: Config, clock: nat -> int, irq: Interrupts, start: int, st: Loop, done: seq<Effect>, whole: Outcome)
    requires st.remaining != []
    requires var o := Run(cfg, clock, irq, start, st); whole == Outcome(o.exit, o.state, done + o.effects)
    ensures var s := Step(cfg, clock, irq, start, st);
      && (s.exit.Some? ==> whole == Outcome(s.exit.value, s.next, done + s.effects))
      && (s.exit.None? && s.next.remaining == [] ==> whole == Outcome(Completed, s.next, done + s.effects))
      && (s.exit.None? && s.next.remaining != [] ==>
            var o' := Run(cfg, clock, irq, start, s.next);
            whole == Outcome(o'.exit, o'.state, done + s.effects + o'.effects))
  {
    var s := Step(cfg, clock, irq, start, st);
    RunUnfold(cfg, clock, irq, start, st);
    if s.exit.None? && s.next.remaining != [] {
      var o' := Run(cfg, clock, irq, start, s.next);
      Concat3(done, s.effects, o'.effects);
    }
  }

  // ---------------------------------------------------------------------------
  // The populator object

  /** The populator: its configuration, the event buffer (as the events it will
      still yield), the `traceEvent` field, and the log of what it did. */
  class StreamPopulator {
    const notSend: bool
    const backpressure: bool
    const statisticsFrequencyMillies: JavaLong.Long
    var eventBuffer: seq<Event>
    var traceEvent: Option<Event>
    var log: seq<Effect>

    /** The parts of the constructor the loop depends on: the semaphore exists
        exactly when backpressure was not switched off. */
    constructor (statisticsFrequencyMillies: JavaLong.Long, events: seq<Event>, noBackpressure: bool, notSend: bool)
      ensures this.notSend == notSend && backpressure == !noBackpressure
      ensures this.statisticsFrequencyMillies == statisticsFrequencyMillies
      ensures eventBuffer == events && traceEvent == None && log == []
    {
      this.notSend := notSend;
      this.statisticsFrequencyMillies := statisticsFrequencyMillies;
      backpressure := !noBackpressure;
      eventBuffer := events;
      traceEvent := None;
      log := [];
    }

    function Settings(): Config {
      Config(notSend, backpressure, statisticsFrequencyMillies)
    }

    /** `ingestEvent`: trace (throttled) in a dry run, otherwise send and, with
        backpressure, acquire a permit. */
    method IngestEvent(event: Event)
      modifies this`traceEvent, this`log
      ensures var ing := Ingest(Settings(), old(traceEvent), event);
        traceEvent == ing.traceEvent && log == old(log) + ing.effects
    {
      if notSend {
        if traceEvent.None? || event.ingestionTime - traceEvent.value.ingestionTime > 1000 {
          traceEvent := Some(event);
          log := log + [Trace(event)];
        }
        return;
      }
      log := log + [Send(event)];
      if backpressure {
        log := log + [Acquire];
      }
    }

    /** The statistics `if` of `populate`, on the loop's locals. */
    method ReportStatistics(clock: nat -> int, start: int, batchCount: int, lastSlot: int, tick: nat, ghost iteration: nat)
      returns (failure: Option<Exit>, batchCount': int, lastSlot': int, tick': nat)
      modifies this`log
      ensures var r := Statistics(Settings(), clock, start, Loop(eventBuffer, traceEvent, batchCount, lastSlot, tick, iteration));
        && failure == r.exit
        && Loop(eventBuffer, traceEvent, batchCount', lastSlot', tick', iteration) == r.next
        && log == old(log) + r.effects
    {
      batchCount', lastSlot', tick' := batchCount, lastSlot, tick;
      failure := None;
      if statisticsFrequencyMillies == 0 {
        tick' := tick' + 1;
        failure := Some(DivisionByZero);
        return;
      }
      var slot := JavaLong.Div(clock(tick') - start, statisticsFrequencyMillies);
      tick' := tick' + 1;
      if slot != lastSlot {
        if eventBuffer == [] {
          failure := Some(NullPointer);
          return;
        }
        log := log + [Report(batchCount, eventBuffer[0].timestamp, |eventBuffer|)];
        batchCount' := 0;
        lastSlot' := JavaLong.Div(clock(tick') - start, statisticsFrequencyMillies);
        tick' := tick' + 1;
      }
    }

    /** After pacing: ingest the taken event, count it and run the statistics `if`. */
    method Process(clock: nat -> int, start: int, event: Event, batchCount: int, lastSlot: int, tick: nat, ghost iteration: nat)
      returns (failure: Option<Exit>, batchCount': int, lastSlot': int, tick': nat)
      modifies this`traceEvent, this`log
      ensures var p := Proceed(Settings(), clock, start, Loop(eventBuffer, old(traceEvent), batchCount, lastSlot, tick, iteration), event);
        && failure == p.exit
        && Loop(eventBuffer, traceEvent, batchCount', lastSlot', tick', iteration) == p.next
        && log == old(log) + p.effects
    {
      IngestEvent(event);
      ghost var ingested := log;
      failure, batchCount', lastSlot', tick' := ReportStatistics(clock, start, batchCount + 1, lastSlot, tick, iteration);
      ghost var ing := Ingest(Settings(), old(traceEvent), event);
      Concat3(old(log), ing.effects, log[|ingested|..]);
    }

    /** One pass through the body of the do-while loop of `populate`. */
    method Iterate(clock: nat -> int, irq: Interrupts, start: int, batchCount: int, lastSlot: int, tick: nat, iteration: nat)
      returns (failure: Option<Exit>, batchCount': int, lastSlot': int, tick': nat, iteration': nat)
      requires eventBuffer != []
      modifies this`eventBuffer, this`traceEvent, this`log
      ensures var s := Step(Settings(), clock, irq, start, Loop(old(eventBuffer), old(traceEvent), batchCount, lastSlot, tick, iteration));
        && failure == s.exit
        && Loop(eventBuffer, traceEvent, batchCount', lastSlot', tick', iteration') == s.next
        && log == old(log) + s.effects
    {
      batchCount', lastSlot', tick', iteration' := batchCount, lastSlot, tick, iteration;
      if irq.inTake(iteration) {
        return Some(Interrupted(InTake)), batchCount', lastSlot', tick', iteration';
      }
      var event := eventBuffer[0];
      eventBuffer := eventBuffer[1..];
      log := log + [Take(event)];
      var now := clock(tick');
      tick' := tick' + 1;
      iteration' := iteration' + 1;
      var gap := now - event.ingestionTime;
      if gap < 0 {
        log := log + [Sleep(-gap)];
        if irq.inSleep(iteration) {
          return Some(Interrupted(InSleep)), batchCount', lastSlot', tick', iteration';
        }
      }
      ghost var paced := log;
      assert paced == old(log) + Paced(event, PacingDelay(event.ingestionTime, now));
      failure, batchCount', lastSlot', tick' := Process(clock, start, event, batchCount', lastSlot', tick', iteration');
      Concat3(old(log), Paced(event, PacingDelay(event.ingestionTime, now)), log[|paced|..]);
    }

    /**
     * `populate`: the priming, the do-while loop, which runs while the last
     * pass ended without an exception and the buffer has a next event, and the
     * `finally` cleanup. The clock is read through `clock(tick)` with one tick
     * per call, and `irq` says where the thread is interrupted.
     */
    method Populate(clock: nat -> int, irq: Interrupts) returns (exit: Exit)
      modifies this`eventBuffer, this`traceEvent, this`log
      ensures var o := Populated(Settings(), clock, irq, old(eventBuffer), old(traceEvent));
        && exit == o.exit
        && eventBuffer == o.state.remaining
        && traceEvent == o.state.traceEvent
        && log == old(log) + o.effects
    {
      if irq.inFill {
        exit := Interrupted(InFill);
      } else if eventBuffer == [] {
        exit := NoEvents;
      } else {
        var batchCount: int := 0;
        var lastSlot: int := 0;
        var tick: nat := 0;
        var start := clock(tick);
        tick := tick + 1;
        var iteration: nat := 0;
        ghost var whole := Run(Settings(), clock, irq, start, Loop(eventBuffer, traceEvent, 0, 0, 1, 0));
        ghost var done: seq<Effect> := [];
        assert whole.effects == done + whole.effects;
        var running := true;
        exit := Completed;
        while running
          invariant log == old(log) + done
          invariant running ==> eventBuffer != []
          invariant running ==>
            var rest := Run(Settings(), clock, irq, start, Loop(eventBuffer, traceEvent, batchCount, lastSlot, tick, iteration));
            whole == Outcome(rest.exit, rest.state, done + rest.effects)
          invariant !running ==>
            whole == Outcome(exit, Loop(eventBuffer, traceEvent, batchCount, lastSlot, tick, iteration), done)
          decreases |eventBuffer| + (if running then 1 else 0)
        {
          ghost var before := Loop(eventBuffer, traceEvent, batchCount, lastSlot, tick, iteration);
          RunResumes(Settings(), clock, irq, start, before, done, whole);
          ghost var s := Step(Settings(), clock, irq, start, before);
          var failure;
          failure, batchCount, lastSlot, tick, iteration := Iterate(clock, irq, start, batchCount, lastSlot, tick, iteration);
          Concat3(old(log), done, s.effects);
          done := done + s.effects;
          if failure.Some? {
            exit := failure.value;
            running := false;
          } else if eventBuffer == [] {
            exit := Completed;
            running := false;
          }
        }
        Concat3(old(log), done, Cleanup);
      }
      log := log + Cleanup;
    }
  }
}
