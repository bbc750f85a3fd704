/** The resource sampler: a worker thread that records samples while the main thread starts it,
    stops it and publishes a result. Every event is one atomic region of one thread. */
module SamplerProtocol {
  import opened Options
  import opened Thresholds

  // ----- what one collection turns into -----

  /** The names that the code itself mentions, and any other. */
  datatype Name = ProcessRssMib | FdCount | SqliteDbFileFdCount | Sampler | ContainerProbe | Named(text: string)

  predicate Required(name: Name) {
    name.ProcessRssMib? || name.FdCount? || name.SqliteDbFileFdCount?
  }

  predicate Nonzero(name: Name) {
    name.ProcessRssMib? || name.FdCount?
  }

  /** How reading a collection ended: through, at metadata that are no mapping, or at an exception. */
  datatype Ending = Whole | MalformedMetadata | BrokeOff(message: string)

  /** What the collector handed back, as far as it was read: when an exception ends the reading, the
      values and errors taken over before it stay. */
  datatype Raw = Raw(values: map<Name, Value>, errors: map<Name, string>, ending: Ending)

  predicate Accepted(name: Name, v: Value) {
    var x := FiniteNumber(v);
    x.Some? && x.value >= 0.0 && (Nonzero(name) ==> x.value != 0.0)
  }

  function Rejection(v: Value): string {
    var x := FiniteNumber(v);
    if x == None || x.value < 0.0 then "invalid or non-finite measurement"
    else "zero measurement is invalid for a running application"
  }

  function ValuesOf(raw: Raw): map<Name, real> {
    map name | name in raw.values && Accepted(name, raw.values[name]) :: FiniteNumber(raw.values[name]).value
  }

  function Rejections(values: map<Name, Value>): map<Name, string> {
    map name | name in values && values[name] != Null && !Accepted(name, values[name]) :: Rejection(values[name])
  }

  function ErrorsOf(raw: Raw): map<Name, string> {
    var read := Rejections(raw.values) + raw.errors;
    match raw.ending
    case Whole => read
    case MalformedMetadata => read[Sampler := "resource collector metadata is malformed"]
    case BrokeOff(message) => read[Sampler := message]
  }

  /** Fail-closed: a reading that is not recorded leaves an error, and a collection that is malformed
      or raises leaves one that counts against every required metric. */
  lemma NoReadingVanishes(raw: Raw)
    ensures forall name | name in raw.values && raw.values[name] != Null ::
              name in ValuesOf(raw) <==> name !in Rejections(raw.values)
    ensures forall name | name in Rejections(raw.values) || name in raw.errors :: name in ErrorsOf(raw)
    ensures !raw.ending.Whole? ==> Sampler in ErrorsOf(raw)
  {
  }

  /** Only non-negative finite numbers are recorded, no zero of the two metrics that a running
      application cannot have zero of, and what is recorded is the reading itself. */
  lemma RecordedIsReading(raw: Raw, name: Name)
    ensures name in ValuesOf(raw)
       <==> && name in raw.values
            && match raw.values[name]
               case Int(n) => !Overflows(n) && n >= 0 && (name == ProcessRssMib || name == FdCount ==> n != 0)
               case Float(x) =>
                 x.Some? && x.value >= 0.0 && (name == ProcessRssMib || name == FdCount ==> x.value != 0.0)
               case _ => false
    ensures name in ValuesOf(raw) ==>
              match raw.values[name]
              case Int(n) => ValuesOf(raw)[name] == n as real
              case Float(x) => x.Some? && ValuesOf(raw)[name] == x.value
              case _ => false
  {
  }

  /** A reading that is null leaves nothing; a reported error of the same name replaces a rejection; and
      the sampler's own error replaces both. */
  lemma ErrorsAre(raw: Raw, name: Name)
    ensures name in ErrorsOf(raw)
       <==> || name in raw.errors
            || (name in raw.values && raw.values[name] != Null && name !in ValuesOf(raw))
            || (name == Sampler && raw.ending != Whole)
    ensures name in raw.errors && (name != Sampler || raw.ending == Whole) ==> ErrorsOf(raw)[name] == raw.errors[name]
    ensures raw.ending.BrokeOff? ==> ErrorsOf(raw)[Sampler] == raw.ending.message
  {
  }

  datatype Kind = Periodic | Terminal
  datatype Sample = Sample(
    sequence: nat, kind: Kind, offset: real, values: map<Name, real>, errors: map<Name, string>)

  // ----- the state machine -----

  datatype Worker = Unborn | AtLoopHead | Collecting(since: real) | Waiting | Exited
  datatype Main = Idle | Joining | TimedOut | RecordingTerminal(since: real) | Closing | Summarizing(stopped: bool)

  /** What stop() caches: the summary is a function of these. */
  datatype Final = Final(stopped: bool, finishedAt: real, samples: seq<Sample>)

  datatype State = State(
    clock: real, stop: bool, closed: bool, started: bool, startedAt: Option<real>,
    samples: seq<Sample>, worker: Worker, main: Main, final: Option<Final>)

  datatype Event =
    | Tick(now: real)            // monotonic time passes
    | Start(launches: bool)      // start(), with the thread launch succeeding or not
    | WorkerCheck                // the loop test, then the start of a collection
    | WorkerCommit(raw: Raw)     // the collection ends and the lock region of _record runs
    | WorkerWait                 // the wait between iterations returns
    | Stop                       // stop() up to setting the event, or its early returns
    | JoinReturns                // join() returns and is_alive() is read
    | TimeoutClose               // the lock region of the timeout branch
    | TerminalCommit(raw: Raw)   // the lock region of the terminal _record
    | Close                      // the lock region that closes after it
    | Finish                     // the finishing time and the summary

  function Initial(): State {
    State(0.0, false, false, false, None, [], Unborn, Idle, None)
  }

  function Recorded(s: State, kind: Kind, since: real, raw: Raw): seq<Sample> {
    if s.closed then s.samples
    else
      var start := if s.startedAt.Some? then since - s.startedAt.value else 0.0;
      s.samples + [Sample(|s.samples| + 1, kind, start, ValuesOf(raw), ErrorsOf(raw))]
  }

  /** An event that is not enabled changes nothing. */
  function Next(s: State, e: Event): State {
    match e
    case Tick(now) => if now > s.clock then s.(clock := now) else s
    case Start(launches) =>
      if s.main != Idle || s.started || s.closed then s
      else if launches then s.(started := true, startedAt := Some(s.clock), worker := AtLoopHead)
      else s.(closed := true, startedAt := Some(s.clock))
    case WorkerCheck =>
      if s.worker != AtLoopHead then s
      else if s.stop then s.(worker := Exited)
      else s.(worker := Collecting(s.clock))
    case WorkerCommit(raw) =>
      if !s.worker.Collecting? then s
      else s.(samples := Recorded(s, Periodic, s.worker.since, raw), worker := Waiting)
    case WorkerWait =>
      if s.worker != Waiting then s
      else if s.stop then s.(worker := Exited)
      else s.(worker := AtLoopHead)
    case Stop =>
      if s.main != Idle || s.final.Some? then s
      else if !s.started then s.(closed := true, main := Summarizing(false))
      else s.(stop := true, main := Joining)
    case JoinReturns =>
      if s.main != Joining then s
      else if s.worker == Exited then s.(main := RecordingTerminal(s.clock))
      else s.(main := TimedOut)
    case TimeoutClose =>
      if s.main != TimedOut then s else s.(closed := true, main := Summarizing(false))
    case TerminalCommit(raw) =>
      if !s.main.RecordingTerminal? then s
      else s.(samples := Recorded(s, Terminal, s.main.since, raw), main := Closing)
    case Close =>
      if s.main != Closing then s else s.(closed := true, main := Summarizing(true))
    case Finish =>
      if !s.main.Summarizing? then s
      else s.(final := Some(Final(s.main.stopped, s.clock, s.samples)), main := Idle)
  }

  function After(events: seq<Event>, k: nat): State
    requires k <= |events|
  {
    if k == 0 then Initial() else Next(After(events, k - 1), events[k - 1])
  }

  // ----- what holds in every interleaving -----

  /** No negative reading, and no zero where a running application cannot have one. */
  ghost predicate Clean(values: map<Name, real>) {
    forall name | name in values :: values[name] >= 0.0 && (Nonzero(name) ==> values[name] > 0.0)
  }

  /** The list of samples in itself: numbered 1..n, in order of time, clean, terminal only last. */
  ghost predicate WellFormed(samples: seq<Sample>, upTo: real) {
    && (forall i | 0 <= i < |samples| :: samples[i].sequence == i + 1)
    && (forall i | 0 <= i < |samples| :: 0.0 <= samples[i].offset <= upTo)
    && (forall i, j | 0 <= i <= j < |samples| :: samples[i].offset <= samples[j].offset)
    && (forall i | 0 <= i < |samples| :: samples[i].kind == Terminal ==> i == |samples| - 1)
    && (forall i | 0 <= i < |samples| :: Clean(samples[i].values))
  }

  ghost predicate HasTerminal(samples: seq<Sample>) {
    samples != [] && samples[|samples| - 1].kind == Terminal
  }

  /** Time since the start; the earliest offset the next sample may still get. */
  ghost function Elapsed(s: State): real {
    if s.startedAt.Some? then s.clock - s.startedAt.value else 0.0
  }

  ghost predicate InFlight(s: State, since: real) {
    && s.startedAt.Some? && s.startedAt.value <= since <= s.clock
    && forall i | 0 <= i < |s.samples| :: s.samples[i].offset <= since - s.startedAt.value
  }

  ghost predicate ControlInv(s: State) {
    && (s.startedAt.Some? ==> s.startedAt.value <= s.clock)
    && (s.started <==> s.worker != Unborn)
    && (s.started ==> s.startedAt.Some?)
    && (s.startedAt.Some? && !s.started ==> s.closed)
    && (!s.started ==> s.samples == [])
    && (s.stop ==> s.started && (s.main.Idle? ==> s.final.Some?))
    && (s.started && (!s.main.Idle? || s.final.Some?) ==> s.stop)
    && (s.worker.Collecting? ==> InFlight(s, s.worker.since))
    && (s.main.RecordingTerminal? ==> s.worker == Exited && InFlight(s, s.main.since))
    && (s.main.Joining? || s.main.TimedOut? || s.main.Closing? || s.main.RecordingTerminal? ==>
         s.started && s.final == None && !s.closed)
    && (s.main.Closing? ==> s.worker == Exited)
    && (s.main.Idle? && s.closed && s.started ==> s.final.Some?)
    && (s.main.Closing? ==> HasTerminal(s.samples))
    && (s.main.Summarizing? ==> s.closed && s.final == None && (s.main.stopped <==> HasTerminal(s.samples)))
    && (HasTerminal(s.samples) ==> s.worker == Exited && (s.main.Closing? || s.closed))
  }

  ghost predicate FinalInv(s: State) {
    s.final.Some? ==>
      && s.closed && s.final.value.samples == s.samples
      && (s.final.value.stopped <==> HasTerminal(s.samples))
      && (s.startedAt.Some? ==> WellFormed(s.samples, s.final.value.finishedAt - s.startedAt.value))
  }

  ghost predicate Inv(s: State) {
    WellFormed(s.samples, Elapsed(s)) && ControlInv(s) && FinalInv(s)
  }

  lemma CleanReading(raw: Raw)
    ensures Clean(ValuesOf(raw))
  {
  }

  lemma AppendKeepsWellFormed(samples: seq<Sample>, upTo: real, x: Sample)
    requires WellFormed(samples, upTo) && !HasTerminal(samples)
    requires x.sequence == |samples| + 1 && 0.0 <= x.offset <= upTo && Clean(x.values)
    requires forall i | 0 <= i < |samples| :: samples[i].offset <= x.offset
    ensures WellFormed(samples + [x], upTo)
  {
    assert forall i | 0 <= i < |samples| :: samples[i].kind != Terminal;
  }

  /** Recording appends a clean sample with the next number, at the end in time as well. */
  lemma RecordKeepsWellFormed(s: State, kind: Kind, since: real, raw: Raw)
    requires WellFormed(s.samples, Elapsed(s)) && InFlight(s, since) && !s.closed
    requires !HasTerminal(s.samples)
    ensures var next := Recorded(s, kind, since, raw);
            && WellFormed(next, Elapsed(s)) && (HasTerminal(next) <==> kind == Terminal)
            && |next| == |s.samples| + 1 && next[..|s.samples|] == s.samples
            && next[|s.samples|].offset == since - s.startedAt.value
  {
    CleanReading(raw);
    var x := Sample(|s.samples| + 1, kind, since - s.startedAt.value, ValuesOf(raw), ErrorsOf(raw));
    assert Recorded(s, kind, since, raw) == s.samples + [x];
    AppendKeepsWellFormed(s.samples, Elapsed(s), x);
  }

  lemma WorkerCommitKeepsInv(s: State, raw: Raw)
    requires Inv(s)
    ensures Inv(Next(s, WorkerCommit(raw)))
  {
    if !s.closed && s.worker.Collecting? {
      RecordKeepsWellFormed(s, Periodic, s.worker.since, raw);
    }
  }

  lemma TerminalCommitKeepsInv(s: State, raw: Raw)
    requires Inv(s)
    ensures Inv(Next(s, TerminalCommit(raw)))
  {
    if !s.closed && s.main.RecordingTerminal? {
      RecordKeepsWellFormed(s, Terminal, s.main.since, raw);
    }
  }

  lemma TickKeepsInv(s: State, now: real)
    requires Inv(s)
    ensures Inv(Next(s, Tick(now)))
  {
    assert Elapsed(s) <= Elapsed(Next(s, Tick(now)));
  }

  lemma StartKeepsInv(s: State, launches: bool)
    requires Inv(s)
    ensures Inv(Next(s, Start(launches)))
  {
  }

  lemma FinishKeepsInv(s: State)
    requires Inv(s)
    ensures Inv(Next(s, Finish))
  {
  }

  lemma WorkerCheckKeepsInv(s: State)
    requires Inv(s)
    ensures Inv(Next(s, WorkerCheck))
  {
  }

  lemma WorkerWaitKeepsInv(s: State)
    requires Inv(s)
    ensures Inv(Next(s, WorkerWait))
  {
  }

  predicate ByWorker(e: Event) {
    e.Tick? || e.WorkerCheck? || e.WorkerCommit? || e.WorkerWait?
  }

  lemma WorkerKeepsInv(s: State, e: Event)
    requires Inv(s) && ByWorker(e)
    ensures Inv(Next(s, e))
  {
    match e
    case Tick(now) => TickKeepsInv(s, now);
    case WorkerCommit(raw) => WorkerCommitKeepsInv(s, raw);
    case WorkerCheck => WorkerCheckKeepsInv(s);
    case WorkerWait => WorkerWaitKeepsInv(s);
  }

  lemma MainKeepsInv(s: State, e: Event)
    requires Inv(s) && !ByWorker(e)
    ensures Inv(Next(s, e))
  {
    match e
    case TerminalCommit(raw) => TerminalCommitKeepsInv(s, raw);
    case Start(launches) => StartKeepsInv(s, launches);
    case Finish => FinishKeepsInv(s);
    case _ =>
  }

  lemma {:induction false} EveryStateSound(events: seq<Event>, k: nat)
    requires k <= |events|
    ensures Inv(After(events, k))
  {
    if k > 0 {
      EveryStateSound(events, k - 1);
      if ByWorker(events[k - 1]) {
        WorkerKeepsInv(After(events, k - 1), events[k - 1]);
      } else {
        MainKeepsInv(After(events, k - 1), events[k - 1]);
      }
    }
  }

  /** In every interleaving the samples are numbered 1..n in the order of their start times, and a
      terminal sample can only be the last. */
  lemma SamplesInOrder(events: seq<Event>, k: nat)
    requires k <= |events|
    ensures var s := After(events, k).samples;
            && (forall i | 0 <= i < |s| :: s[i].sequence == i + 1)
            && (forall i, j | 0 <= i <= j < |s| :: 0.0 <= s[i].offset <= s[j].offset)
            && (forall i | 0 <= i < |s| && s[i].kind == Terminal :: i == |s| - 1)
  {
    EveryStateSound(events, k);
  }

  lemma ClosedStays(s: State, e: Event)
    requires Inv(s) && s.closed
    ensures Next(s, e).closed && Next(s, e).samples == s.samples
    ensures s.final.Some? ==> Next(s, e).final == s.final
  {
  }

  /** Once the sampler is closed its list never changes, and once a result is cached every later
      stop() returns that result, which still agrees with the samples. */
  lemma {:induction false} ClosedForEver(events: seq<Event>, i: nat, j: nat)
    requires i <= j <= |events| && After(events, i).closed
    ensures After(events, j).closed && After(events, j).samples == After(events, i).samples
    ensures After(events, i).final.Some? ==>
              && After(events, j).final == After(events, i).final
              && After(events, j).final.value.samples == After(events, j).samples
  {
    if i < j {
      ClosedForEver(events, i, j - 1);
      EveryStateSound(events, j - 1);
      ClosedStays(After(events, j - 1), events[j - 1]);
    } else if After(events, i).final.Some? {
      CachedAgrees(events, i);
    }
  }

  lemma CachedAgrees(events: seq<Event>, k: nat)
    requires k <= |events| && After(events, k).final.Some?
    ensures After(events, k).final.value.samples == After(events, k).samples
  {
    EveryStateSound(events, k);
  }

  /** Samples recorded, in flight, or still to come from stop() itself. */
  ghost function Committed(s: State): nat {
    |s.samples| + (if s.worker.Collecting? then 1 else 0)
    + (if s.main.Joining? || s.main.RecordingTerminal? then 1 else 0)
  }

  lemma StopAddsNothing(s: State, e: Event)
    requires Inv(s) && s.stop
    ensures Next(s, e).stop && Committed(Next(s, e)) <= Committed(s)
  {
  }

  /** After the stop event is set, at most the collection in flight and the terminal one are added. */
  lemma {:induction false} AtMostTwoMoreAfterStop(events: seq<Event>, i: nat, j: nat)
    requires i <= j <= |events| && After(events, i).stop
    ensures After(events, j).stop && |After(events, j).samples| <= Committed(After(events, j))
    ensures Committed(After(events, j)) <= Committed(After(events, i)) <= |After(events, i).samples| + 2
  {
    if i < j {
      AtMostTwoMoreAfterStop(events, i, j - 1);
      EveryStateSound(events, j - 1);
      StopAddsNothing(After(events, j - 1), events[j - 1]);
    }
  }

  /** A result says that the sampler stopped exactly when the list ends in the terminal sample. */
  lemma StoppedMeansTerminal(events: seq<Event>, k: nat)
    requires k <= |events| && After(events, k).final.Some?
    ensures After(events, k).final.value.stopped <==> HasTerminal(After(events, k).samples)
  {
    EveryStateSound(events, k);
  }

  // ----- which branch stop() takes -----

  /** The join has returned: what stop() will say is settled. */
  ghost predicate Joined(s: State) {
    && s.started && s.stop
    && (s.main.RecordingTerminal? || s.main.Closing? || s.main.TimedOut? || s.main.Summarizing? || s.final.Some?)
  }

  ghost predicate SaysStopped(s: State) {
    if s.final.Some? then s.final.value.stopped
    else s.main.RecordingTerminal? || s.main.Closing? || (s.main.Summarizing? && s.main.stopped)
  }

  lemma JoinDecides(s: State, e: Event)
    requires Inv(s)
    ensures Joined(s) ==> Joined(Next(s, e)) && (SaysStopped(Next(s, e)) <==> SaysStopped(s))
    ensures !Joined(s) && Joined(Next(s, e)) ==>
              e.JoinReturns? && s.main.Joining? && (SaysStopped(Next(s, e)) <==> s.worker == Exited)
    ensures s.main.Joining? && e.JoinReturns? ==>
              !Joined(s) && Joined(Next(s, e)) && (SaysStopped(Next(s, e)) <==> s.worker == Exited)
  {
  }

  ghost predicate JoinReturnsAt(events: seq<Event>, j: nat)
    requires j < |events|
  {
    events[j].JoinReturns? && After(events, j).main.Joining?
  }

  lemma JoinDecidesAt(events: seq<Event>, k: nat)
    requires k < |events|
    ensures Joined(After(events, k)) ==>
              Joined(After(events, k + 1)) && (SaysStopped(After(events, k + 1)) <==> SaysStopped(After(events, k)))
    ensures !Joined(After(events, k)) && Joined(After(events, k + 1)) ==>
              JoinReturnsAt(events, k) && (SaysStopped(After(events, k + 1)) <==> After(events, k).worker == Exited)
    ensures JoinReturnsAt(events, k) ==>
              Joined(After(events, k + 1)) && (SaysStopped(After(events, k + 1)) <==> After(events, k).worker == Exited)
  {
    EveryStateSound(events, k);
    JoinDecides(After(events, k), events[k]);
  }

  lemma {:induction false} JoinedSince(events: seq<Event>, k: nat) returns (j: nat)
    requires k <= |events| && Joined(After(events, k))
    ensures j < k && JoinReturnsAt(events, j)
    ensures SaysStopped(After(events, k)) <==> After(events, j).worker == Exited
  {
    JoinDecidesAt(events, k - 1);
    if Joined(After(events, k - 1)) {
      j := JoinedSince(events, k - 1);
    } else {
      j := k - 1;
    }
  }

  lemma {:induction false} JoinedFrom(events: seq<Event>, j: nat, k: nat)
    requires j < k <= |events| && JoinReturnsAt(events, j)
    ensures Joined(After(events, k))
    ensures SaysStopped(After(events, k)) <==> After(events, j).worker == Exited
  {
    JoinDecidesAt(events, k - 1);
    if j < k - 1 {
      JoinedFrom(events, j, k - 1);
    }
  }

  /** In every interleaving, the result of a sampler that was started says "stopped" exactly when the
      worker had exited at the moment the join returned, and the join did return once. */
  lemma StoppedIffExited(events: seq<Event>, k: nat, j: nat)
    requires k <= |events| && After(events, k).started && After(events, k).final.Some?
    ensures exists i | 0 <= i < k :: JoinReturnsAt(events, i)
    ensures j < k && JoinReturnsAt(events, j) ==>
              && (After(events, k).final.value.stopped <==> After(events, j).worker == Exited)
              && (HasTerminal(After(events, k).samples) <==> After(events, j).worker == Exited)
  {
    EveryStateSound(events, k);
    var i := JoinedSince(events, k);
    if j < k && JoinReturnsAt(events, j) {
      JoinedFrom(events, j, k);
    }
  }

  // ----- the object as it runs -----

  /** The fields of the sampler, and one method per atomic region. The program counters of the two
      threads are explicit; a region whose turn it is not does nothing. */
  class ResourceSampler {
    var clock: real
    var stop: bool
    var closed: bool
    var started: bool
    var startedAt: Option<real>
    var samples: seq<Sample>
    var worker: Worker
    var main: Main
    var final: Option<Final>

    ghost function View(): State
      reads this
    {
      State(clock, stop, closed, started, startedAt, samples, worker, main, final)
    }

    constructor ()
      ensures View() == Initial()
    {
      clock, stop, closed, started, startedAt := 0.0, false, false, false, None;
      samples, worker, main, final := [], Unborn, Idle, None;
    }

    method Tick(now: real)
      modifies this`clock
      ensures View() == Next(old(View()), Event.Tick(now))
    {
      if now > clock { clock := now; }
    }

    method Start(launches: bool) returns (ok: bool)
      requires main == Idle
      modifies this`started, this`startedAt, this`worker, this`closed
      ensures View() == Next(old(View()), Event.Start(launches))
      ensures ok <==> launches && !old(started) && !old(closed)
    {
      if started || closed {
        return false;
      }
      startedAt := Some(clock);
      started := true;
      if launches {
        worker := AtLoopHead;
      } else {
        started := false;
        closed := true;
      }
      return started;
    }

    method WorkerCheck()
      modifies this`worker
      ensures View() == Next(old(View()), Event.WorkerCheck)
    {
      if worker == AtLoopHead {
        worker := if stop then Exited else Collecting(clock);
      }
    }

    // The lock region of _record.
    method Append(kind: Kind, since: real, raw: Raw)
      modifies this`samples
      ensures samples == Recorded(old(View()), kind, since, raw)
    {
      if closed {
        return;
      }
      var offset := if startedAt.Some? then since - startedAt.value else 0.0;
      samples := samples + [Sample(|samples| + 1, kind, offset, ValuesOf(raw), ErrorsOf(raw))];
    }

    method WorkerCommit(raw: Raw)
      modifies this`samples, this`worker
      ensures View() == Next(old(View()), Event.WorkerCommit(raw))
    {
      if worker.Collecting? {
        Append(Periodic, worker.since, raw);
        worker := Waiting;
      }
    }

    method WorkerWait()
      modifies this`worker
      ensures View() == Next(old(View()), Event.WorkerWait)
    {
      if worker == Waiting {
        worker := if stop then Exited else AtLoopHead;
      }
    }

    method Stop() returns (cached: Option<Final>)
      requires main == Idle
      modifies this`stop, this`closed, this`main
      ensures View() == Next(old(View()), Event.Stop)
      ensures cached == old(final)
    {
      if final.Some? {
        return final;
      }
      if !started {
        closed := true;
        main := Summarizing(false);
      } else {
        stop := true;
        main := Joining;
      }
      return None;
    }

    method JoinReturns()
      modifies this`main
      ensures View() == Next(old(View()), Event.JoinReturns)
    {
      if main == Joining {
        main := if worker == Exited then RecordingTerminal(clock) else TimedOut;
      }
    }

    method TimeoutClose()
      modifies this`closed, this`main
      ensures View() == Next(old(View()), Event.TimeoutClose)
    {
      if main == TimedOut {
        closed := true;
        main := Summarizing(false);
      }
    }

    method TerminalCommit(raw: Raw)
      modifies this`samples, this`main
      ensures View() == Next(old(View()), Event.TerminalCommit(raw))
    {
      if main.RecordingTerminal? {
        Append(Terminal, main.since, raw);
        main := Closing;
      }
    }

    method Close()
      modifies this`closed, this`main
      ensures View() == Next(old(View()), Event.Close)
    {
      if main == Closing {
        closed := true;
        main := Summarizing(true);
      }
    }

    method Finish()
      modifies this`final, this`main
      ensures View() == Next(old(View()), Event.Finish)
    {
      if main.Summarizing? {
        final := Some(Final(main.stopped, clock, samples));
        main := Idle;
      }
    }

    /** The region that an event stands for, run by the thread whose region it is. */
    method Perform(e: Event)
      modifies this
      ensures View() == Next(old(View()), e)
    {
      match e
      case Tick(now) => Tick(now);
      case Start(launches) => if main == Idle { var ok := Start(launches); }
      case WorkerCheck => WorkerCheck();
      case WorkerCommit(raw) => WorkerCommit(raw);
      case WorkerWait => WorkerWait();
      case Stop => if main == Idle { var cached := Stop(); }
      case JoinReturns => JoinReturns();
      case TimeoutClose => TimeoutClose();
      case TerminalCommit(raw) => TerminalCommit(raw);
      case Close => Close();
      case Finish => Finish();
    }

    /** Any interleaving, played on a new sampler, goes through the states that the theorems above
        speak of. */
    method Play(events: seq<Event>) returns (ghost states: seq<State>)
      requires View() == Initial()
      modifies this
      ensures |states| == |events| + 1 && View() == After(events, |events|)
      ensures forall k | 0 <= k < |states| :: states[k] == After(events, k)
    {
      states := [View()];
      for k := 0 to |events|
        invariant |states| == k + 1 && View() == After(events, k)
        invariant forall i | 0 <= i <= k :: states[i] == After(events, i)
      {
        Perform(events[k]);
        states := states + [View()];
      }
    }
  }
}
