/** Whole runs of the sampler, event by event: what the ordinary run, the run whose worker hangs, and
    the runs that never start leave behind. */
module SamplerRuns {
  import opened Options
  import opened Thresholds
  import opened SamplerProtocol
  import opened SamplerSummary

  function Played(s: State, events: seq<Event>): State
    decreases events
  {
    if events == [] then s else Played(Next(s, events[0]), events[1..])
  }

  lemma {:induction false} PlayedFrom(events: seq<Event>, k: nat)
    requires k <= |events|
    ensures Played(Initial(), events) == Played(After(events, k), events[k..])
  {
    if k == 0 {
      assert events[0..] == events;
    } else {
      PlayedFrom(events, k - 1);
      assert events[k - 1..][0] == events[k - 1] && events[k - 1..][1..] == events[k..];
    }
  }

  /** Playing events one after the other ends in the state that the theorems speak of. */
  lemma PlayedIsAfter(events: seq<Event>)
    ensures Played(Initial(), events) == After(events, |events|)
  {
    PlayedFrom(events, |events|);
  }

  lemma {:induction false} PlayMore(s: State, first: seq<Event>, rest: seq<Event>)
    ensures Played(s, first + rest) == Played(Played(s, first), rest)
    decreases first
  {
    if first == [] {
      assert first + rest == rest;
    } else {
      assert (first + rest)[1..] == first[1..] + rest;
      PlayMore(Next(s, first[0]), first[1..], rest);
    }
  }

  lemma PlayThree(s: State, a: Event, b: Event, c: Event)
    ensures Played(s, [a, b, c]) == Next(Next(Next(s, a), b), c)
  {
    var s1 := Next(s, a);
    var s2 := Next(s1, b);
    assert [a, b, c][1..] == [b, c] && [b, c][1..] == [c] && [c][1..] == [];
    assert Played(s2, [c]) == Played(Next(s2, c), []);
    assert Played(s1, [b, c]) == Played(s2, [c]);
  }

  // ----- a turn of the worker -----

  /** Between two turns of the worker. */
  ghost predicate Sampling(s: State, start: real, now: real, samples: seq<Sample>) {
    s == State(now, false, false, true, Some(start), samples, AtLoopHead, Idle, None)
  }

  datatype Turn = Turn(now: real, later: real, raw: Raw)

  function Begins(t: Turn): seq<Event> {
    [Tick(t.now), WorkerCheck, Tick(t.later)]
  }

  function Ends(t: Turn): seq<Event> {
    [WorkerCommit(t.raw), WorkerWait, Tick(t.later)]
  }

  /** A turn appends one periodic sample, with the next number, the reading, and the time at which the
      collection began. */
  lemma TurnRecords(s: State, start: real, clock: real, samples: seq<Sample>, t: Turn)
    requires Sampling(s, start, clock, samples) && clock <= t.now <= t.later
    ensures Sampling(Played(s, Begins(t) + Ends(t)), start, t.later,
                     samples + [Sample(|samples| + 1, Periodic, t.now - start, ValuesOf(t.raw), ErrorsOf(t.raw))])
  {
    PlayMore(s, Begins(t), Ends(t));
    PlayThree(s, Tick(t.now), WorkerCheck, Tick(t.later));
    var mid := Played(s, Begins(t));
    assert mid == s.(clock := t.later, worker := Collecting(t.now));
    PlayThree(mid, WorkerCommit(t.raw), WorkerWait, Tick(t.later));
  }

  function AllTurns(turns: seq<Turn>): seq<Event> {
    if turns == [] then []
    else
      var t := turns[|turns| - 1];
      AllTurns(turns[..|turns| - 1]) + (Begins(t) + Ends(t))
  }

  function Recordings(start: real, turns: seq<Turn>): seq<Sample> {
    seq(|turns|, i requires 0 <= i < |turns| =>
      Sample(i + 1, Periodic, turns[i].now - start, ValuesOf(turns[i].raw), ErrorsOf(turns[i].raw)))
  }

  function TimeAfter(start: real, turns: seq<Turn>): real {
    if turns == [] then start else turns[|turns| - 1].later
  }

  ghost predicate Consecutive(start: real, turns: seq<Turn>) {
    forall i | 0 <= i < |turns| :: TimeAfter(start, turns[..i]) <= turns[i].now <= turns[i].later
  }

  lemma PrefixIsConsecutive(start: real, turns: seq<Turn>, n: nat)
    requires Consecutive(start, turns) && n < |turns|
    ensures Consecutive(start, turns[..n]) && TimeAfter(start, turns[..n]) <= turns[n].now <= turns[n].later
  {
    forall i | 0 <= i < n
      ensures TimeAfter(start, turns[..n][..i]) <= turns[..n][i].now <= turns[..n][i].later
    {
      assert turns[..n][..i] == turns[..i];
    }
  }

  lemma OneMoreRecording(start: real, turns: seq<Turn>)
    requires turns != []
    ensures var t := turns[|turns| - 1];
            Recordings(start, turns) == Recordings(start, turns[..|turns| - 1])
              + [Sample(|turns|, Periodic, t.now - start, ValuesOf(t.raw), ErrorsOf(t.raw))]
  {
  }

  lemma {:induction false} TurnsRecord(s: State, start: real, turns: seq<Turn>)
    requires Sampling(s, start, start, []) && Consecutive(start, turns)
    ensures Sampling(Played(s, AllTurns(turns)), start, TimeAfter(start, turns), Recordings(start, turns))
  {
    if turns != [] {
      var n := |turns| - 1;
      var t := turns[n];
      PrefixIsConsecutive(start, turns, n);
      TurnsRecord(s, start, turns[..n]);
      PlayMore(s, AllTurns(turns[..n]), Begins(t) + Ends(t));
      var mid := Played(s, AllTurns(turns[..n]));
      TurnRecords(mid, start, TimeAfter(start, turns[..n]), Recordings(start, turns[..n]), t);
      OneMoreRecording(start, turns);
    } else {
      assert Recordings(start, turns) == [];
    }
  }

  // ----- the ordinary run -----

  /** start() at `start`, the turns of the worker, then stop(): the worker sees the event, the join
      returns at `last.now`, the terminal collection ends and the summary is made at `last.later`. */
  function OrdinaryRun(start: real, turns: seq<Turn>, last: Turn): seq<Event> {
    [Tick(start), Start(true), Tick(start)] + AllTurns(turns)
    + ([Stop, WorkerCheck, Tick(last.now)] + ([JoinReturns, TerminalCommit(last.raw), Close]
    + [Tick(last.later), Finish, Tick(last.later)]))
  }

  lemma Launches(start: real)
    requires start > 0.0
    ensures Sampling(Played(Initial(), [Tick(start), Start(true), Tick(start)]), start, start, [])
  {
    PlayThree(Initial(), Tick(start), Start(true), Tick(start));
  }

  lemma StopsAndFinishes(s: State, start: real, clock: real, samples: seq<Sample>, last: Turn)
    requires Sampling(s, start, clock, samples) && clock <= last.now <= last.later
    ensures var all := samples
                       + [Sample(|samples| + 1, Terminal, last.now - start, ValuesOf(last.raw), ErrorsOf(last.raw))];
            Played(s, [Stop, WorkerCheck, Tick(last.now)] + ([JoinReturns, TerminalCommit(last.raw), Close]
                      + [Tick(last.later), Finish, Tick(last.later)]))
            == State(last.later, true, true, true, Some(start), all, Exited, Idle, Some(Final(true, last.later, all)))
  {
    var second, third := [JoinReturns, TerminalCommit(last.raw), Close], [Tick(last.later), Finish, Tick(last.later)];
    var s1 := Stops(s, start, clock, samples, last);
    PlayMore(s, [Stop, WorkerCheck, Tick(last.now)], second + third);
    PlayMore(s1, second, third);
    var s2 := Closes(s1, last);
    PlayThree(s2, Tick(last.later), Finish, Tick(last.later));
  }

  lemma Stops(s: State, start: real, clock: real, samples: seq<Sample>, last: Turn) returns (s1: State)
    requires Sampling(s, start, clock, samples) && clock <= last.now <= last.later
    ensures s1 == Played(s, [Stop, WorkerCheck, Tick(last.now)])
    ensures s1 == State(last.now, true, false, true, Some(start), samples, Exited, Joining, None)
  {
    PlayThree(s, Stop, WorkerCheck, Tick(last.now));
    s1 := Played(s, [Stop, WorkerCheck, Tick(last.now)]);
  }

  lemma Closes(s: State, last: Turn) returns (s2: State)
    requires s.main == Joining && s.worker == Exited && !s.closed && s.startedAt.Some? && s.clock == last.now
    ensures s2 == Played(s, [JoinReturns, TerminalCommit(last.raw), Close])
    ensures s2 == s.(closed := true, main := Summarizing(true),
                     samples := s.samples + [Sample(|s.samples| + 1, Terminal, last.now - s.startedAt.value,
                                                    ValuesOf(last.raw), ErrorsOf(last.raw))])
  {
    PlayThree(s, JoinReturns, TerminalCommit(last.raw), Close);
    s2 := Played(s, [JoinReturns, TerminalCommit(last.raw), Close]);
  }

  /** The ordinary run caches a stopped result with one sample for every turn, in order, and the terminal
      one, each with its reading and the time at which its collection began. */
  lemma OrdinaryRunResult(start: real, turns: seq<Turn>, last: Turn)
    requires start > 0.0 && Consecutive(start, turns) && TimeAfter(start, turns) <= last.now <= last.later
    ensures var events := OrdinaryRun(start, turns, last);
            var all := Recordings(start, turns)
                       + [Sample(|turns| + 1, Terminal, last.now - start, ValuesOf(last.raw), ErrorsOf(last.raw))];
            var s := After(events, |events|);
            s.startedAt == Some(start) && s.samples == all && s.final == Some(Final(true, last.later, all))
  {
    var first := [Tick(start), Start(true), Tick(start)];
    var rest := [Stop, WorkerCheck, Tick(last.now)] + ([JoinReturns, TerminalCommit(last.raw), Close]
                + [Tick(last.later), Finish, Tick(last.later)]);
    PlayedIsAfter(OrdinaryRun(start, turns, last));
    PlayMore(Initial(), first + AllTurns(turns), rest);
    PlayMore(Initial(), first, AllTurns(turns));
    Launches(start);
    TurnsRecord(Played(Initial(), first), start, turns);
    StopsAndFinishes(Played(Initial(), first + AllTurns(turns)), start, TimeAfter(start, turns),
                     Recordings(start, turns), last);
  }

  // ----- a complete summary exists -----

  function GoodReading(): Raw {
    Raw(map[ProcessRssMib := Int(1), FdCount := Int(1), SqliteDbFileFdCount := Int(1)], map[], Whole)
  }

  lemma GoodReadingIsRecorded()
    ensures ValuesOf(GoodReading()) == map[ProcessRssMib := 1.0, FdCount := 1.0, SqliteDbFileFdCount := 1.0]
    ensures ErrorsOf(GoodReading()) == map[]
  {
    OneFits();
  }

  lemma OneFits()
    ensures FiniteNumber(Int(1)) == Some(1.0)
  {
    PowersGrow(970, 1023);
    PowersGrow(1, 1023);
    assert Pow2(1024) == 2 * Pow2(1023);
  }

  /** Good readings often enough: the ordinary run with one turn is fully sampled, so its summary is
      complete. */
  lemma OrdinaryRunIsComplete(r: Summary)
    ensures var events := OrdinaryRun(1.0, [Turn(2.0, 2.0, GoodReading())], Turn(3.0, 4.0, GoodReading()));
            var s := After(events, |events|);
            FullySampled(s, 2.0) && (Published(s, 2.0, r) ==> r.complete)
  {
    var turns, last := [Turn(2.0, 2.0, GoodReading())], Turn(3.0, 4.0, GoodReading());
    var events := OrdinaryRun(1.0, turns, last);
    assert turns[..0] == [];
    OrdinaryRunResult(1.0, turns, last);
    GoodReadingIsRecorded();
    var s := After(events, |events|);
    TwoGoodSamples(s);
    if Published(s, 2.0, r) {
      CompleteIff(events, |events|, 2.0, r);
    }
  }

  lemma TwoGoodSamples(s: State)
    requires s.final.Some? && s.final.value.stopped && s.final.value.finishedAt == 4.0 && s.startedAt == Some(1.0)
    requires |s.samples| == 2 && s.samples[0].offset == 1.0 && s.samples[1].kind == Terminal
    requires forall i | 0 <= i < 2 ::
               && s.samples[i].values == map[ProcessRssMib := 1.0, FdCount := 1.0, SqliteDbFileFdCount := 1.0]
               && s.samples[i].errors == map[]
    ensures FullySampled(s, 2.0)
  {
    forall w: real | 0.0 <= w && w + 2.0 <= 3.0 ensures StartsIn(s.samples, w, 2.0) {
      assert w <= s.samples[0].offset <= w + 2.0;
    }
    assert s.samples[0].values[ProcessRssMib] > 0.0 && s.samples[0].values[FdCount] > 0.0;
    assert s.samples[0].values[SqliteDbFileFdCount] > 0.0;
  }

  // ----- the other runs -----

  /** The worker hangs in a collection: stop() times out, the result says so, and the sample that comes
      in afterwards is dropped. */
  lemma HangingRun(s: State, start: real, clock: real, samples: seq<Sample>, since: real, later: real, raw: Raw)
    requires Sampling(s, start, clock, samples) && clock <= since <= later
    ensures Played(s, [Tick(since), WorkerCheck, Stop] + ([JoinReturns, TimeoutClose, Tick(later)]
                      + [Finish, WorkerCommit(raw), WorkerWait]))
            == State(later, true, true, true, Some(start), samples, Exited, Idle, Some(Final(false, later, samples)))
  {
    var first, second := [Tick(since), WorkerCheck, Stop], [JoinReturns, TimeoutClose, Tick(later)];
    var third := [Finish, WorkerCommit(raw), WorkerWait];
    PlayMore(s, first, second + third);
    PlayMore(Played(s, first), second, third);
    var s1 := Hangs(s, start, clock, samples, since);
    var s2 := TimesOut(s1, later);
    PlayThree(s2, Finish, WorkerCommit(raw), WorkerWait);
  }

  lemma Hangs(s: State, start: real, clock: real, samples: seq<Sample>, since: real) returns (s1: State)
    requires Sampling(s, start, clock, samples) && clock <= since
    ensures s1 == Played(s, [Tick(since), WorkerCheck, Stop])
    ensures s1 == State(since, true, false, true, Some(start), samples, Collecting(since), Joining, None)
  {
    PlayThree(s, Tick(since), WorkerCheck, Stop);
    s1 := Played(s, [Tick(since), WorkerCheck, Stop]);
  }

  lemma TimesOut(s: State, later: real) returns (s2: State)
    requires s.main == Joining && s.worker.Collecting? && s.clock <= later
    ensures s2 == Played(s, [JoinReturns, TimeoutClose, Tick(later)])
    ensures s2 == s.(clock := later, closed := true, main := Summarizing(false))
  {
    PlayThree(s, JoinReturns, TimeoutClose, Tick(later));
    s2 := Played(s, [JoinReturns, TimeoutClose, Tick(later)]);
  }

  /** Without a started worker the result is empty and not stopped, and a later start() does nothing. */
  lemma NeverStarted(launches: bool)
    ensures Played(Initial(), [Stop, Finish, Start(launches)])
            == State(0.0, false, true, false, None, [], Unborn, Idle, Some(Final(false, 0.0, [])))
    ensures Played(Initial(), [Start(false), Stop, Finish])
            == State(0.0, false, true, false, Some(0.0), [], Unborn, Idle, Some(Final(false, 0.0, [])))
  {
    PlayThree(Initial(), Stop, Finish, Start(launches));
    PlayThree(Initial(), Start(false), Stop, Finish);
  }

  /** A second start() does nothing while the sampler runs, and a second stop() nothing after the first. */
  lemma OnlyOnce(s: State, launches: bool)
    ensures s.started || s.closed ==> Next(s, Start(launches)) == s
    ensures s.final.Some? ==> Next(s, Stop) == s
  {
  }
}
