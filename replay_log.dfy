/**
 * The events the replay works on and the log of what the populator does with
 * them: the calls it makes on the event buffer, the producer and the
 * backpressure semaphore, its sleeps and its statistics reports, in order.
 */
module ReplayLog {

  /** An event: its payload, its original (domain) time stamp, and the
      wall-clock time in milliseconds at which the replay should ingest it. */
  datatype Event = Event(payload: string, timestamp: int, ingestionTime: int)

  /** One observable action of the populator. */
  datatype Effect =
    | Take(event: Event)            // eventBuffer.take() returned the event
    | Sleep(millis: nat)            // Thread.sleep(millis) was entered
    | Send(event: Event)            // kinesisProducer.addUserRecord(..event..)
    | Acquire                       // backpressureSemaphore.acquire(f)
    | Trace(event: Event)           // the dry-run log line "Event: payload"
    | Report(count: int, dropoffTime: int, bufferSize: nat)  // the statistics line
    | InterruptBuffer               // eventBuffer.interrupt()
    | FlushSync                     // kinesisProducer.flushSync()
    | Destroy                       // kinesisProducer.destroy()

  predicate IsCleanup(f: Effect) {
    f.InterruptBuffer? || f.FlushSync? || f.Destroy?
  }

  /** The `finally` block of `populate`, in its order. */
  const Cleanup: seq<Effect> := [InterruptBuffer, FlushSync, Destroy]

  /** No call of the cleanup block occurs in the log. */
  predicate NoCleanup(log: seq<Effect>) {
    log == [] || (!IsCleanup(log[0]) && NoCleanup(log[1..]))
  }

  /** The events taken from the buffer, in order. */
  function Taken(log: seq<Effect>): seq<Event> {
    if log == [] then []
    else if log[0].Take? then [log[0].event] + Taken(log[1..])
    else Taken(log[1..])
  }

  /** The events handed to the producer, in order. */
  function Sent(log: seq<Effect>): seq<Event> {
    if log == [] then []
    else if log[0].Send? then [log[0].event] + Sent(log[1..])
    else Sent(log[1..])
  }

  /** The events written to the dry-run log, in order. */
  function Traced(log: seq<Effect>): seq<Event> {
    if log == [] then []
    else if log[0].Trace? then [log[0].event] + Traced(log[1..])
    else Traced(log[1..])
  }

  /** The lengths of the sleeps, in order. */
  function Sleeps(log: seq<Effect>): seq<nat> {
    if log == [] then []
    else if log[0].Sleep? then [log[0].millis] + Sleeps(log[1..])
    else Sleeps(log[1..])
  }

  /** The batch counts of the statistics reports, in order. */
  function ReportCounts(log: seq<Effect>): seq<int> {
    if log == [] then []
    else if log[0].Report? then [log[0].count] + ReportCounts(log[1..])
    else ReportCounts(log[1..])
  }

  /** How often the backpressure semaphore was acquired. */
  function Acquires(log: seq<Effect>): nat {
    if log == [] then 0
    else if log[0].Acquire? then 1 + Acquires(log[1..])
    else Acquires(log[1..])
  }

  lemma {:induction false} TakenAppend(a: seq<Effect>, b: seq<Effect>)
    ensures Taken(a + b) == Taken(a) + Taken(b)
  {
    if a == [] {
      assert a + b == b;
    } else {
      assert (a + b)[1..] == a[1..] + b;
      TakenAppend(a[1..], b);
    }
  }

  lemma {:induction false} SentAppend(a: seq<Effect>, b: seq<Effect>)
    ensures Sent(a + b) == Sent(a) + Sent(b)
  {
    if a == [] {
      assert a + b == b;
    } else {
      assert (a + b)[1..] == a[1..] + b;
      SentAppend(a[1..], b);
    }
  }

  lemma {:induction false} TracedAppend(a: seq<Effect>, b: seq<Effect>)
    ensures Traced(a + b) == Traced(a) + Traced(b)
  {
    if a == [] {
      assert a + b == b;
    } else {
      assert (a + b)[1..] == a[1..] + b;
      TracedAppend(a[1..], b);
    }
  }

  lemma {:induction false} SleepsAppend(a: seq<Effect>, b: seq<Effect>)
    ensures Sleeps(a + b) == Sleeps(a) + Sleeps(b)
  {
    if a == [] {
      assert a + b == b;
    } else {
      assert (a + b)[1..] == a[1..] + b;
      SleepsAppend(a[1..], b);
    }
  }

  lemma {:induction false} ReportCountsAppend(a: seq<Effect>, b: seq<Effect>)
    ensures ReportCounts(a + b) == ReportCounts(a) + ReportCounts(b)
  {
    if a == [] {
      assert a + b == b;
    } else {
      assert (a + b)[1..] == a[1..] + b;
      ReportCountsAppend(a[1..], b);
    }
  }

  lemma {:induction false} AcquiresAppend(a: seq<Effect>, b: seq<Effect>)
    ensures Acquires(a + b) == Acquires(a) + Acquires(b)
  {
    if a == [] {
      assert a + b == b;
    } else {
      assert (a + b)[1..] == a[1..] + b;
      AcquiresAppend(a[1..], b);
    }
  }

  // When one side of a concatenation selects nothing, the selection is the other side's.

  lemma TakenLeft(a: seq<Effect>, b: seq<Effect>)
    requires Taken(b) == []
    ensures Taken(a + b) == Taken(a)
  {
    TakenAppend(a, b);
    assert Taken(a) + [] == Taken(a);
  }

  lemma SleepsLeft(a: seq<Effect>, b: seq<Effect>)
    requires Sleeps(b) == []
    ensures Sleeps(a + b) == Sleeps(a)
  {
    SleepsAppend(a, b);
    assert Sleeps(a) + [] == Sleeps(a);
  }

  lemma ReportCountsLeft(a: seq<Effect>, b: seq<Effect>)
    requires ReportCounts(b) == []
    ensures ReportCounts(a + b) == ReportCounts(a)
  {
    ReportCountsAppend(a, b);
    assert ReportCounts(a) + [] == ReportCounts(a);
  }

  lemma SentRight(a: seq<Effect>, b: seq<Effect>)
    requires Sent(a) == []
    ensures Sent(a + b) == Sent(b)
  {
    SentAppend(a, b);
    assert [] + Sent(b) == Sent(b);
  }

  lemma TracedRight(a: seq<Effect>, b: seq<Effect>)
    requires Traced(a) == []
    ensures Traced(a + b) == Traced(b)
  {
    TracedAppend(a, b);
    assert [] + Traced(b) == Traced(b);
  }

  lemma ReportCountsRight(a: seq<Effect>, b: seq<Effect>)
    requires ReportCounts(a) == []
    ensures ReportCounts(a + b) == ReportCounts(b)
  {
    ReportCountsAppend(a, b);
    assert [] + ReportCounts(b) == ReportCounts(b);
  }

  lemma SentLeft(a: seq<Effect>, b: seq<Effect>)
    requires Sent(b) == []
    ensures Sent(a + b) == Sent(a)
  {
    SentAppend(a, b);
    assert Sent(a) + [] == Sent(a);
  }

  lemma TracedLeft(a: seq<Effect>, b: seq<Effect>)
    requires Traced(b) == []
    ensures Traced(a + b) == Traced(a)
  {
    TracedAppend(a, b);
    assert Traced(a) + [] == Traced(a);
  }

  /** The selections of a concatenated log are the concatenated selections. */
  lemma SelectAppend(a: seq<Effect>, b: seq<Effect>)
    ensures Taken(a + b) == Taken(a) + Taken(b)
    ensures Sent(a + b) == Sent(a) + Sent(b)
    ensures Traced(a + b) == Traced(a) + Traced(b)
    ensures Sleeps(a + b) == Sleeps(a) + Sleeps(b)
    ensures ReportCounts(a + b) == ReportCounts(a) + ReportCounts(b)
    ensures Acquires(a + b) == Acquires(a) + Acquires(b)
  {
    TakenAppend(a, b);
    SentAppend(a, b);
    TracedAppend(a, b);
    SleepsAppend(a, b);
    ReportCountsAppend(a, b);
    AcquiresAppend(a, b);
  }

  lemma {:induction false} NoCleanupAppend(a: seq<Effect>, b: seq<Effect>)
    requires NoCleanup(a) && NoCleanup(b)
    ensures NoCleanup(a + b)
  {
    if a == [] {
      assert a + b == b;
    } else {
      assert (a + b)[1..] == a[1..] + b;
      NoCleanupAppend(a[1..], b);
    }
  }

  function Sum(s: seq<int>): int {
    if s == [] then 0 else s[0] + Sum(s[1..])
  }

  lemma {:induction false} SumAppend(a: seq<int>, b: seq<int>)
    ensures Sum(a + b) == Sum(a) + Sum(b)
  {
    if a == [] {
      assert a + b == b;
    } else {
      assert (a + b)[1..] == a[1..] + b;
      SumAppend(a[1..], b);
    }
  }

  /** The cleanup block holds nothing but the three cleanup calls. */
  lemma CleanupSelects()
    ensures Taken(Cleanup) == [] && Sent(Cleanup) == [] && Traced(Cleanup) == []
    ensures Acquires(Cleanup) == 0 && Sleeps(Cleanup) == [] && ReportCounts(Cleanup) == []
    ensures forall i :: 0 <= i < |Cleanup| ==> IsCleanup(Cleanup[i])
    ensures !NoCleanup(Cleanup)
  {
    assert Cleanup[1..][1..][1..] == [];
  }
}
