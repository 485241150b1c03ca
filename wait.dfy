/**
 * The readiness poll of cmd/wait.go: one status fetch at once, then one
 * fetch per tick of a 10-second ticker until the instance reports ready, a
 * fetch fails, or the timeout's deadline passes.
 *
 * Time is not modelled as a clock: the loop's `select` sees a sequence of
 * events, each either a ticker tick (carrying what the fetch made on that
 * tick returned) or the deadline. Any interleaving the Go runtime can
 * produce, including its free choice when both channels are ready, is one
 * such sequence. The context deadline always fires eventually, so every
 * sequence the loop is run on contains a `Deadline`.
 */
module Wait {
  import opened Wrappers

  /** What one `GetInstance` call returned: an error, or the instance with its `Ready` flag. */
  datatype Snapshot = FetchFailed(cause: string) | Fetched(ready: bool)

  /** What the loop's `select` receives next. */
  datatype Event = Tick(fetch: Snapshot) | Deadline

  /** The progress lines written to standard error (their elapsed times are not modelled). */
  datatype Notice = Waiting | StillWaiting | BecameReady

  /** The errors the wait returns; a nil error is `None`. */
  datatype WaitError = StatusCheckFailed(cause: string) | TimedOut

  /**
   * One run of the wait: the error it returns, how many times it called
   * `GetInstance`, how many events its loop consumed, and the notices it
   * wrote, in order.
   */
  datatype Run = Run(err: Option<WaitError>, fetches: nat, consumed: nat, notices: seq<Notice>)

  /** An event after which the loop returns: anything but a tick whose instance is not ready yet. */
  predicate Decisive(e: Event)
  {
    e != Tick(Fetched(false))
  }

  /** What the loop returns when `e` ends it. */
  function Verdict(e: Event): (err: Option<WaitError>)
    requires Decisive(e)
    ensures err == None <==> e == Tick(Fetched(true))
    ensures err == Some(TimedOut) <==> e == Deadline
  {
    match e
    case Deadline => Some(TimedOut)
    case Tick(FetchFailed(cause)) => Some(StatusCheckFailed(cause))
    case Tick(Fetched(_)) => None
  }

  /** The number of ticks, hence of fetches, in a sequence of events. */
  function Ticks(events: seq<Event>): (n: nat)
    ensures n <= |events|
  {
    if events == [] then 0
    else Ticks(events[..|events| - 1]) + (if events[|events| - 1].Tick? then 1 else 0)
  }

  /** `n` copies of the same notice. */
  function Notices(n: nat, notice: Notice): (r: seq<Notice>)
    ensures |r| == n
  {
    if n == 0 then [] else Notices(n - 1, notice) + [notice]
  }

  /** A run continued by `r` after `fetches` fetches, `consumed` events and `notices`. */
  function Continue(r: Run, fetches: nat, consumed: nat, notices: seq<Notice>): Run
  {
    Run(r.err, fetches + r.fetches, consumed + r.consumed, notices + r.notices)
  }

  /** The loop of lines 32-52, started on `events`. */
  function Watch(events: seq<Event>): Run
    requires Deadline in events
  {
    match events[0]
    case Deadline => Run(Some(TimedOut), 0, 1, [])
    case Tick(FetchFailed(cause)) => Run(Some(StatusCheckFailed(cause)), 1, 1, [])
    case Tick(Fetched(true)) => Run(None, 1, 1, [BecameReady])
    case Tick(Fetched(false)) =>
      assert events == [events[0]] + events[1..];
      Continue(Watch(events[1..]), 1, 1, [StillWaiting])
  }

  /** The whole wait: the immediate fetch, then the loop if the instance is not ready yet. */
  function Await(initial: Snapshot, events: seq<Event>): Run
    requires Deadline in events
  {
    match initial
    case FetchFailed(cause) => Run(Some(StatusCheckFailed(cause)), 1, 0, [])
    case Fetched(true) => Run(None, 1, 0, [])
    case Fetched(false) => Continue(Watch(events), 1, 0, [Waiting])
  }

  /**
   * `waitForInstanceReady`: `initial` is what the first `GetInstance` call
   * returns, `events` what the loop's `select` receives afterwards.
   */
  method WaitForInstanceReady(initial: Snapshot, events: seq<Event>)
      returns (err: Option<WaitError>, fetches: nat, consumed: nat, notices: seq<Notice>)
    requires Deadline in events
    ensures Run(err, fetches, consumed, notices) == Await(initial, events)
  {
    fetches, consumed, notices := 1, 0, [];
    match initial {
      case FetchFailed(cause) =>
        return Some(StatusCheckFailed(cause)), fetches, consumed, notices;
      case Fetched(ready) =>
        if ready {
          return None, fetches, consumed, notices;
        }
    }
    notices := notices + [Waiting];
    ghost var run := Await(initial, events);
    while true
      invariant consumed <= |events| && Deadline in events[consumed..]
      invariant run == Continue(Watch(events[consumed..]), fetches, consumed, notices)
      decreases |events| - consumed
    {
      var e := events[consumed];
      WatchStep(events, consumed);
      if e == Tick(Fetched(false)) {
        ContinueTwice(Watch(events[consumed + 1..]), fetches, consumed, notices, StillWaiting);
      }
      consumed := consumed + 1;
      match e {
        case Deadline =>
          return Some(TimedOut), fetches, consumed, notices;
        case Tick(snapshot) =>
          fetches := fetches + 1;
          match snapshot {
            case FetchFailed(cause) =>
              return Some(StatusCheckFailed(cause)), fetches, consumed, notices;
            case Fetched(ready) =>
              if ready {
                notices := notices + [BecameReady];
                return None, fetches, consumed, notices;
              }
              notices := notices + [StillWaiting];
          }
      }
    }
  }

  /** One iteration of the loop on the events from `i` on. */
  lemma WatchStep(events: seq<Event>, i: nat)
    requires i < |events| && Deadline in events[i..]
    ensures events[i] == Deadline ==> Watch(events[i..]) == Run(Some(TimedOut), 0, 1, [])
    ensures events[i].Tick? && events[i].fetch.FetchFailed? ==>
              Watch(events[i..]) == Run(Some(StatusCheckFailed(events[i].fetch.cause)), 1, 1, [])
    ensures events[i] == Tick(Fetched(true)) ==> Watch(events[i..]) == Run(None, 1, 1, [BecameReady])
    ensures events[i] == Tick(Fetched(false)) ==>
              Deadline in events[i + 1..]
              && Watch(events[i..]) == Continue(Watch(events[i + 1..]), 1, 1, [StillWaiting])
  {
    var rest := events[i..];
    assert rest[0] == events[i] && rest[1..] == events[i + 1..];
  }

  lemma ContinueTwice(r: Run, fetches: nat, consumed: nat, notices: seq<Notice>, notice: Notice)
    ensures Continue(Continue(r, 1, 1, [notice]), fetches, consumed, notices)
         == Continue(r, fetches + 1, consumed + 1, notices + [notice])
  {
    assert notices + ([notice] + r.notices) == (notices + [notice]) + r.notices;
  }

  /** Every event before `j` is a tick whose instance was not ready. */
  predicate StillPending(events: seq<Event>, j: nat)
    requires j <= |events|
  {
    forall m :: 0 <= m < j ==> events[m] == Tick(Fetched(false))
  }

  lemma {:induction false} TicksOfPending(events: seq<Event>, j: nat)
    requires j < |events| && StillPending(events, j)
    ensures Ticks(events[..j + 1]) == j + (if events[j].Tick? then 1 else 0)
  {
    assert events[..j + 1][..j] == events[..j];
    if j > 0 {
      TicksOfPending(events, j - 1);
    }
  }

  /**
   * The loop returns at the first decisive event `j` and at no other: it
   * consumes exactly the events up to and including `j`, fetches once per
   * tick among them, returns that event's verdict, and writes one "still
   * waiting" line per pending tick, then "ready" if `j` is the ready tick.
   */
  lemma WatchStopsAt(events: seq<Event>, j: nat)
    requires Deadline in events
    requires j < |events| && Decisive(events[j]) && StillPending(events, j)
    ensures Watch(events)
      == Run(Verdict(events[j]), Ticks(events[..j + 1]), j + 1,
             Notices(j, StillWaiting) + (if events[j] == Tick(Fetched(true)) then [BecameReady] else []))
  {
    WatchPending(events, j);
    TicksOfPending(events, j);
  }

  /** `WatchStopsAt` with the fetches counted directly: one per pending tick, plus one if `j` is a tick. */
  lemma {:induction false} WatchPending(events: seq<Event>, j: nat)
    requires Deadline in events
    requires j < |events| && Decisive(events[j]) && StillPending(events, j)
    ensures Watch(events)
      == Run(Verdict(events[j]), j + (if events[j].Tick? then 1 else 0), j + 1,
             Notices(j, StillWaiting) + (if events[j] == Tick(Fetched(true)) then [BecameReady] else []))
  {
    if j == 0 {
      WatchStopsNow(events);
    } else {
      var rest := events[1..];
      PendingRest(events, j);
      assert Deadline in rest by {
        assert events == [events[0]] + rest;
      }
      WatchPending(rest, j - 1);
      WatchPendingHead(events, Watch(rest));
      ContinuePending(Verdict(events[j]), j, if events[j].Tick? then 1 else 0,
                      if events[j] == Tick(Fetched(true)) then [BecameReady] else []);
    }
  }

  /** A decisive first event ends the loop at once with its verdict. */
  lemma WatchStopsNow(events: seq<Event>)
    requires Deadline in events && Decisive(events[0])
    ensures Watch(events)
      == Run(Verdict(events[0]), if events[0].Tick? then 1 else 0, 1,
             if events[0] == Tick(Fetched(true)) then [BecameReady] else [])
  {
  }

  /** A pending first tick is one fetch and one "still waiting" line in front of the loop's run `r` on the rest. */
  lemma WatchPendingHead(events: seq<Event>, r: Run)
    requires Deadline in events && events[0] == Tick(Fetched(false))
    requires Deadline in events[1..] && Watch(events[1..]) == r
    ensures Watch(events) == Continue(r, 1, 1, [StillWaiting])
  {
    assert events == [events[0]] + events[1..];
  }

  /** Dropping a pending first tick shifts the first decisive event by one. */
  lemma PendingRest(events: seq<Event>, j: nat)
    requires 0 < j < |events| && StillPending(events, j)
    ensures events[1..][j - 1] == events[j] && StillPending(events[1..], j - 1)
  {
    forall m | 0 <= m < j - 1
      ensures events[1..][m] == Tick(Fetched(false))
    {
      assert events[1..][m] == events[m + 1];
    }
  }

  /** A pending tick in front of a run that stopped at `j - 1` gives a run that stops at `j`. */
  lemma ContinuePending(err: Option<WaitError>, j: nat, last: nat, tail: seq<Notice>)
    requires j > 0
    ensures Continue(Run(err, j - 1 + last, j, Notices(j - 1, StillWaiting) + tail), 1, 1, [StillWaiting])
         == Run(err, j + last, j + 1, Notices(j, StillWaiting) + tail)
  {
    NoticesCons(j, StillWaiting);
  }

  lemma {:induction false} NoticesCons(n: nat, notice: Notice)
    requires n > 0
    ensures Notices(n, notice) == [notice] + Notices(n - 1, notice)
  {
    if n > 1 {
      NoticesCons(n - 1, notice);
    }
  }

  /** Every sequence with a deadline has a first decisive event, at or before the first deadline. */
  lemma {:induction false} FirstDecisive(events: seq<Event>) returns (j: nat)
    requires Deadline in events
    ensures j < |events| && Decisive(events[j]) && StillPending(events, j)
  {
    if Decisive(events[0]) {
      j := 0;
    } else {
      assert events == [events[0]] + events[1..];
      var k := FirstDecisive(events[1..]);
      j := k + 1;
    }
  }

  /**
   * The whole wait, event by event: an immediate failure or ready instance
   * returns without consuming an event or writing a notice; otherwise the
   * wait writes "waiting", then behaves as the loop, stopping at the first
   * decisive event, with one more fetch (the immediate one).
   */
  lemma AwaitStopsAt(initial: Snapshot, events: seq<Event>, j: nat)
    requires Deadline in events
    requires j < |events| && Decisive(events[j]) && StillPending(events, j)
    ensures initial.FetchFailed? ==> Await(initial, events) == Run(Some(StatusCheckFailed(initial.cause)), 1, 0, [])
    ensures initial == Fetched(true) ==> Await(initial, events) == Run(None, 1, 0, [])
    ensures initial == Fetched(false) ==>
              Await(initial, events)
              == Run(Verdict(events[j]), 1 + Ticks(events[..j + 1]), j + 1,
                     [Waiting] + Notices(j, StillWaiting) + (if events[j] == Tick(Fetched(true)) then [BecameReady] else []))
  {
    WatchStopsAt(events, j);
  }

  /**
   * The wait succeeds only on a ready snapshot, times out only on the
   * deadline, and fails only on a failed fetch, carrying that fetch's
   * error; it never calls `GetInstance` more than once per tick plus once.
   */
  lemma AwaitOutcome(initial: Snapshot, events: seq<Event>)
    requires Deadline in events
    ensures var r := Await(initial, events);
      r.fetches <= 1 + r.consumed <= 1 + |events|
      && (r.err == None <==> initial == Fetched(true) || (r.consumed > 0 && events[r.consumed - 1] == Tick(Fetched(true))))
      && (r.err == Some(TimedOut) <==> r.consumed > 0 && events[r.consumed - 1] == Deadline)
      && (forall cause :: r.err == Some(StatusCheckFailed(cause)) <==>
            initial == FetchFailed(cause) || (r.consumed > 0 && events[r.consumed - 1] == Tick(FetchFailed(cause))))
  {
    var j := FirstDecisive(events);
    AwaitStopsAt(initial, events, j);
  }
}
