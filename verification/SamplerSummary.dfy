/** The summary that stop() caches: how well the samples cover the run, and which maxima of which
    metrics may be relied on. */
module SamplerSummary {
  import opened Options
  import opened SamplerProtocol

  // ----- coverage of the run -----

  function Max0(x: real): real {
    if x < 0.0 then 0.0 else x
  }

  function Between(offsets: seq<real>): seq<real> {
    if |offsets| < 2 then []
    else
      var n := |offsets| - 1;
      Between(offsets[..n]) + [Max0(offsets[n] - offsets[n - 1])]
  }

  /** The stretches without a sample: up to the first, between neighbours, after the last. */
  function Gaps(offsets: seq<real>, length: real): seq<real> {
    if offsets == [] then []
    else [Max0(offsets[0])] + Between(offsets) + [Max0(length - offsets[|offsets| - 1])]
  }

  function Sum(xs: seq<real>): real {
    if xs == [] then 0.0 else Sum(xs[..|xs| - 1]) + xs[|xs| - 1]
  }

  function MaxOf(xs: seq<real>): (m: Option<real>)
    ensures m.Some? <==> xs != []
    ensures m.Some? ==> m.value in xs && forall i :: 0 <= i < |xs| ==> xs[i] <= m.value
  {
    if xs == [] then None
    else
      var m := MaxOf(xs[..|xs| - 1]);
      var x := xs[|xs| - 1];
      if m.Some? && m.value > x then m else Some(x)
  }

  predicate GapOk(offsets: seq<real>, length: real, maxGap: real) {
    var m := MaxOf(Gaps(offsets, length));
    m.Some? && m.value <= maxGap
  }

  ghost predicate InOrder(offsets: seq<real>, length: real) {
    && (forall i, j | 0 <= i <= j < |offsets| :: offsets[i] <= offsets[j])
    && (forall i | 0 <= i < |offsets| :: 0.0 <= offsets[i] <= length)
  }

  lemma {:induction false} BetweenAt(offsets: seq<real>)
    ensures |Between(offsets)| == if |offsets| < 2 then 0 else |offsets| - 1
    ensures forall i | 0 <= i < |Between(offsets)| :: Between(offsets)[i] == Max0(offsets[i + 1] - offsets[i])
  {
    if |offsets| >= 2 {
      BetweenAt(offsets[..|offsets| - 1]);
    }
  }

  lemma {:induction false} BetweenTelescopes(offsets: seq<real>)
    requires offsets != [] && forall i, j | 0 <= i <= j < |offsets| :: offsets[i] <= offsets[j]
    ensures Sum(Between(offsets)) == offsets[|offsets| - 1] - offsets[0]
  {
    if |offsets| >= 2 {
      var n := |offsets| - 1;
      BetweenTelescopes(offsets[..n]);
      SumAppend(Between(offsets[..n]), Max0(offsets[n] - offsets[n - 1]));
    }
  }

  lemma SumAppend(xs: seq<real>, x: real)
    ensures Sum(xs + [x]) == Sum(xs) + x
  {
    assert (xs + [x])[..|xs|] == xs;
  }

  lemma {:induction false} SumPrepend(x: real, xs: seq<real>)
    ensures Sum([x] + xs) == x + Sum(xs)
  {
    if xs == [] {
      SumAppend([], x);
      assert [x] + xs == [] + [x];
    } else {
      var n := |xs| - 1;
      SumPrepend(x, xs[..n]);
      assert ([x] + xs)[..|xs|] == [x] + xs[..n];
    }
  }

  /** With monotone times the gaps add up to the whole run. */
  lemma GapsTelescope(offsets: seq<real>, length: real)
    requires offsets != [] && InOrder(offsets, length)
    ensures Sum(Gaps(offsets, length)) == length
  {
    BetweenTelescopes(offsets);
    SumPrepend(Max0(offsets[0]), Between(offsets));
    SumAppend([Max0(offsets[0])] + Between(offsets), Max0(length - offsets[|offsets| - 1]));
  }

  lemma {:induction false} SumBound(xs: seq<real>, n: nat, bound: real)
    requires |xs| == n && forall i :: 0 <= i < |xs| ==> xs[i] <= bound
    ensures Sum(xs) <= n as real * bound
  {
    if n > 0 {
      SumBound(xs[..n - 1], n - 1, bound);
      assert (n - 1) as real * bound + bound == n as real * bound;
    }
  }

  /** Every closed window of that width inside the run contains the start of a sample. */
  ghost predicate Covered(offsets: seq<real>, length: real, width: real) {
    forall w: real | 0.0 <= w && w + width <= length :: Hit(offsets, w, width)
  }

  ghost predicate Hit(offsets: seq<real>, w: real, width: real) {
    exists i :: 0 <= i < |offsets| && w <= offsets[i] <= w + width
  }

  lemma GapAt(offsets: seq<real>, length: real, n: nat)
    requires offsets != [] && InOrder(offsets, length) && n <= |offsets|
    ensures |Gaps(offsets, length)| == |offsets| + 1
    ensures Gaps(offsets, length)[n] ==
            (if n < |offsets| then offsets[n] else length) - (if n == 0 then 0.0 else offsets[n - 1])
  {
    BetweenAt(offsets);
  }

  lemma {:induction false} WindowHit(offsets: seq<real>, length: real, maxGap: real, w: real, n: nat)
    requires InOrder(offsets, length) && GapOk(offsets, length, maxGap)
    requires 0.0 <= w && n <= |offsets| && w + maxGap <= if n < |offsets| then offsets[n] else length
    ensures Hit(offsets, w, maxGap)
  {
    GapAt(offsets, length, n);
    assert Gaps(offsets, length)[n] <= maxGap;
    if n == 0 {
      assert offsets[0] == w + maxGap;
    } else if offsets[n - 1] > w + maxGap {
      WindowHit(offsets, length, maxGap, w, n - 1);
    }
  }

  lemma WideGapMisses(offsets: seq<real>, length: real, maxGap: real, n: nat)
    requires offsets != [] && InOrder(offsets, length) && maxGap > 0.0
    requires n < |Gaps(offsets, length)| == |offsets| + 1 && Gaps(offsets, length)[n] > maxGap
    ensures !Covered(offsets, length, maxGap)
  {
    GapAt(offsets, length, n);
    var left := if n == 0 then 0.0 else offsets[n - 1];
    var right := if n < |offsets| then offsets[n] else length;
    // Strictly between the neighbours, except that at the ends of the run it touches the end.
    var w := if n == 0 then 0.0 else if n == |offsets| then length - maxGap else (left + right - maxGap) / 2.0;
    forall i | 0 <= i < |offsets| ensures !(w <= offsets[i] <= w + maxGap) {
      assert if i < n then offsets[i] <= left else offsets[i] >= right;
    }
    assert !Hit(offsets, w, maxGap);
  }

  /** The gap test means coverage, both ways: it passes exactly when every window of the allowed gap
      inside the run contains a sample. */
  lemma GapOkIffCovered(offsets: seq<real>, length: real, maxGap: real)
    requires offsets != [] && InOrder(offsets, length) && maxGap > 0.0
    ensures GapOk(offsets, length, maxGap) <==> Covered(offsets, length, maxGap)
  {
    if GapOk(offsets, length, maxGap) {
      forall w: real | 0.0 <= w && w + maxGap <= length ensures Hit(offsets, w, maxGap) {
        WindowHit(offsets, length, maxGap, w, |offsets|);
      }
    } else {
      var g := Gaps(offsets, length);
      var n :| 0 <= n < |g| && g[n] == MaxOf(g).value;
      GapAt(offsets, length, 0);
      WideGapMisses(offsets, length, maxGap, n);
    }
  }

  /** A run whose gaps all pass is at most as long as that many of the allowed gaps. */
  lemma LengthBound(offsets: seq<real>, length: real, maxGap: real, gaps: nat)
    requires InOrder(offsets, length) && GapOk(offsets, length, maxGap) && gaps == |offsets| + 1
    ensures length <= gaps as real * maxGap
  {
    GapsTelescope(offsets, length);
    GapAt(offsets, length, 0);
    SumBound(Gaps(offsets, length), gaps, maxGap);
  }

  // ----- metrics -----

  function Offsets(samples: seq<Sample>): seq<real> {
    seq(|samples|, i requires 0 <= i < |samples| => samples[i].offset)
  }

  /** The errors that count against a metric. */
  function ErrorNames(name: Name): seq<Name> {
    if Required(name) then [name, Sampler, ContainerProbe] else [name]
  }

  function Observed(samples: seq<Sample>, name: Name): seq<real> {
    if samples == [] then []
    else
      var s := samples[|samples| - 1];
      Observed(samples[..|samples| - 1], name) + (if name in s.values then [s.values[name]] else [])
  }

  datatype MetricError = MetricError(sequence: Option<nat>, error: string)

  function ErrorsIn(s: Sample, names: seq<Name>): seq<MetricError> {
    if names == [] then []
    else (if names[0] in s.errors then [MetricError(Some(s.sequence), s.errors[names[0]])] else [])
         + ErrorsIn(s, names[1..])
  }

  function SampleErrors(samples: seq<Sample>, names: seq<Name>): seq<MetricError> {
    if samples == [] then []
    else SampleErrors(samples[..|samples| - 1], names) + ErrorsIn(samples[|samples| - 1], names)
  }

  function Missing(samples: seq<Sample>, name: Name): seq<nat> {
    if samples == [] then []
    else
      var s := samples[|samples| - 1];
      Missing(samples[..|samples| - 1], name)
      + (if Required(name) && name !in s.values then [s.sequence] else [])
  }

  datatype MetricSummary = MetricSummary(
    sampledMax: Option<real>, observedCount: nat, sampleCount: nat, missing: seq<nat>,
    errors: seq<MetricError>, complete: bool)

  /** `usable` says that the sampler stopped, has its terminal sample and left no wide gap. */
  function MetricOf(samples: seq<Sample>, name: Name, usable: bool): MetricSummary {
    var observed := Observed(samples, name);
    var zero := Required(name) && MaxOf(observed) == Some(0.0);
    var errors := SampleErrors(samples, ErrorNames(name))
                  + (if zero then [MetricError(None, "all observed samples were zero")] else []);
    var missing := Missing(samples, name);
    var complete := usable && samples != [] && errors == [] && (Required(name) ==> missing == [])
                    && |observed| == |samples|;
    MetricSummary(MaxOf(observed), |observed|, |samples|, missing, errors, complete)
  }

  /** A sample says something about the metric and nothing against it. */
  ghost predicate Sound(s: Sample, name: Name) {
    && name in s.values && name !in s.errors
    && (name == ProcessRssMib || name == FdCount || name == SqliteDbFileFdCount ==>
         Sampler !in s.errors && ContainerProbe !in s.errors)
  }

  lemma {:induction false} ObservedAll(samples: seq<Sample>, name: Name)
    ensures |Observed(samples, name)| <= |samples|
    ensures |Observed(samples, name)| == |samples| <==> forall i | 0 <= i < |samples| :: name in samples[i].values
    ensures |Observed(samples, name)| == |samples| ==>
              forall i | 0 <= i < |samples| :: Observed(samples, name)[i] == samples[i].values[name]
  {
    if samples != [] {
      ObservedAll(samples[..|samples| - 1], name);
    }
  }

  lemma {:induction false} NoErrorsIn(s: Sample, names: seq<Name>)
    ensures ErrorsIn(s, names) == [] <==> forall e | e in names :: e !in s.errors
  {
    if names != [] {
      NoErrorsIn(s, names[1..]);
      assert forall e :: e in names <==> e == names[0] || e in names[1..];
    }
  }

  lemma {:induction false} NoSampleErrors(samples: seq<Sample>, names: seq<Name>)
    ensures SampleErrors(samples, names) == []
       <==> forall i | 0 <= i < |samples| :: forall e | e in names :: e !in samples[i].errors
  {
    if samples != [] {
      NoSampleErrors(samples[..|samples| - 1], names);
      NoErrorsIn(samples[|samples| - 1], names);
    }
  }

  lemma {:induction false} NoneMissing(samples: seq<Sample>, name: Name)
    requires forall i | 0 <= i < |samples| :: name in samples[i].values
    ensures Missing(samples, name) == []
  {
    if samples != [] {
      NoneMissing(samples[..|samples| - 1], name);
    }
  }

  lemma ErrorNamesAre(name: Name, e: Name)
    ensures e in ErrorNames(name)
       <==> e == name || ((name == ProcessRssMib || name == FdCount || name == SqliteDbFileFdCount)
                          && (e == Sampler || e == ContainerProbe))
  {
  }

  lemma SoundIff(samples: seq<Sample>, name: Name, i: nat)
    requires i < |samples|
    ensures Sound(samples[i], name)
       <==> name in samples[i].values && forall e | e in ErrorNames(name) :: e !in samples[i].errors
  {
    ErrorNamesAre(name, name);
    ErrorNamesAre(name, Sampler);
    ErrorNamesAre(name, ContainerProbe);
    forall e | e in ErrorNames(name) && Sound(samples[i], name) ensures e !in samples[i].errors {
      ErrorNamesAre(name, e);
    }
  }

  /** A metric is complete exactly when the sampling is usable, every sample speaks for the metric and
      none against it, and a required metric was not zero throughout. */
  lemma MetricCompleteIff(samples: seq<Sample>, name: Name, usable: bool)
    ensures MetricOf(samples, name, usable).complete
       <==> && usable && samples != []
            && (forall i | 0 <= i < |samples| :: Sound(samples[i], name))
            && (Required(name) ==> MaxOf(Observed(samples, name)) != Some(0.0))
  {
    ObservedAll(samples, name);
    NoSampleErrors(samples, ErrorNames(name));
    forall i | 0 <= i < |samples|
      ensures Sound(samples[i], name)
         <==> name in samples[i].values && forall e | e in ErrorNames(name) :: e !in samples[i].errors
    {
      SoundIff(samples, name, i);
    }
    if forall i | 0 <= i < |samples| :: name in samples[i].values {
      NoneMissing(samples, name);
    }
  }

  /** The maximum of a complete metric is attained by a sample and bounds every sample. */
  ghost predicate IsMaximum(samples: seq<Sample>, name: Name, m: real) {
    && (exists i :: 0 <= i < |samples| && name in samples[i].values && samples[i].values[name] == m)
    && (forall i | 0 <= i < |samples| :: name in samples[i].values && samples[i].values[name] <= m)
  }

  lemma CompleteMaximum(samples: seq<Sample>, name: Name, usable: bool)
    requires MetricOf(samples, name, usable).complete
    ensures MetricOf(samples, name, usable).sampledMax.Some?
    ensures IsMaximum(samples, name, MetricOf(samples, name, usable).sampledMax.value)
    ensures Required(name) ==> MetricOf(samples, name, usable).sampledMax.value != 0.0
    ensures usable
  {
    ObservedAll(samples, name);
    var xs := Observed(samples, name);
    var m := MaxOf(xs).value;
    var i :| 0 <= i < |xs| && xs[i] == m;
    assert samples[i].values[name] == m;
    forall j | 0 <= j < |samples| ensures name in samples[j].values && samples[j].values[name] <= m {
      assert xs[j] <= m;
    }
  }

  // ----- what the summary of a metric reports -----

  lemma {:induction false} ObservedAre(samples: seq<Sample>, name: Name, x: real)
    ensures x in Observed(samples, name)
       <==> exists i :: 0 <= i < |samples| && name in samples[i].values && samples[i].values[name] == x
  {
    if samples != [] {
      var n := |samples| - 1;
      ObservedAre(samples[..n], name, x);
      if i :| 0 <= i < n && name in samples[i].values && samples[i].values[name] == x {
        assert samples[..n][i] == samples[i];
      }
    }
  }

  function Having(samples: seq<Sample>, name: Name): set<int> {
    set i | 0 <= i < |samples| && name in samples[i].values
  }

  lemma HavingOneMore(samples: seq<Sample>, s: Sample, name: Name)
    ensures Having(samples + [s], name) == Having(samples, name) + if name in s.values then {|samples|} else {}
  {
  }

  lemma {:induction false} ObservedCount(samples: seq<Sample>, name: Name)
    ensures |Observed(samples, name)| == |Having(samples, name)|
  {
    if samples != [] {
      var n := |samples| - 1;
      ObservedCount(samples[..n], name);
      HavingOneMore(samples[..n], samples[n], name);
      assert samples == samples[..n] + [samples[n]];
    }
  }

  lemma {:induction false} MissingAre(samples: seq<Sample>, name: Name, k: nat)
    ensures k in Missing(samples, name)
       <==> Required(name)
            && exists i :: 0 <= i < |samples| && name !in samples[i].values && samples[i].sequence == k
  {
    if samples != [] {
      var n := |samples| - 1;
      MissingAre(samples[..n], name, k);
      if i :| 0 <= i < n && name !in samples[i].values && samples[i].sequence == k {
        assert samples[..n][i] == samples[i];
      }
    }
  }

  /** The error is one that the sample has under one of these names. */
  ghost predicate StemsFrom(s: Sample, names: seq<Name>, e: MetricError) {
    exists n :: n in names && n in s.errors && e == MetricError(Some(s.sequence), s.errors[n])
  }

  lemma {:induction false} ErrorsInAre(s: Sample, names: seq<Name>, e: MetricError)
    ensures e in ErrorsIn(s, names) <==> StemsFrom(s, names, e)
  {
    if names != [] {
      ErrorsInAre(s, names[1..], e);
      assert forall n :: n in names <==> n == names[0] || n in names[1..];
    }
  }

  ghost predicate AnyStems(samples: seq<Sample>, names: seq<Name>, e: MetricError) {
    exists i :: 0 <= i < |samples| && StemsFrom(samples[i], names, e)
  }

  lemma AnyOfOneMore(samples: seq<Sample>, s: Sample, names: seq<Name>, e: MetricError)
    ensures AnyStems(samples + [s], names, e) <==> AnyStems(samples, names, e) || StemsFrom(s, names, e)
  {
    var all := samples + [s];
    if AnyStems(samples, names, e) {
      var i :| 0 <= i < |samples| && StemsFrom(samples[i], names, e);
      assert all[i] == samples[i];
    }
    if StemsFrom(s, names, e) {
      assert all[|samples|] == s;
    }
  }

  lemma {:induction false} SampleErrorsAre(samples: seq<Sample>, names: seq<Name>, e: MetricError)
    ensures e in SampleErrors(samples, names) <==> AnyStems(samples, names, e)
  {
    if samples != [] {
      var last := |samples| - 1;
      SampleErrorsAre(samples[..last], names, e);
      ErrorsInAre(samples[last], names, e);
      AnyOfOneMore(samples[..last], samples[last], names, e);
      assert samples == samples[..last] + [samples[last]];
    }
  }

  /** The reported maximum is the greatest value that any sample has for the metric, complete or not. */
  ghost predicate GreatestObserved(samples: seq<Sample>, name: Name, m: Option<real>) {
    if m.Some? then
      && (exists i :: 0 <= i < |samples| && name in samples[i].values && samples[i].values[name] == m.value)
      && (forall i | 0 <= i < |samples| && name in samples[i].values :: samples[i].values[name] <= m.value)
    else forall i | 0 <= i < |samples| :: name !in samples[i].values
  }

  lemma ReportsMaximum(samples: seq<Sample>, name: Name, usable: bool)
    ensures GreatestObserved(samples, name, MetricOf(samples, name, usable).sampledMax)
  {
    var xs := Observed(samples, name);
    var m := MaxOf(xs);
    forall i | 0 <= i < |samples| && name in samples[i].values
      ensures samples[i].values[name] in xs
    {
      ObservedAre(samples, name, samples[i].values[name]);
    }
    if m.Some? {
      ObservedAre(samples, name, m.value);
    }
  }

  /** The counts, the samples without a required metric, and the errors that count against a metric. */
  lemma ReportsSamples(samples: seq<Sample>, name: Name, usable: bool, k: nat, e: MetricError)
    ensures var m := MetricOf(samples, name, usable);
            && m.sampleCount == |samples|
            && m.observedCount == |Having(samples, name)|
            && (k in m.missing <==>
                 && Required(name)
                 && exists i :: 0 <= i < |samples| && name !in samples[i].values && samples[i].sequence == k)
            && (e in m.errors <==>
                 || AnyStems(samples, ErrorNames(name), e)
                 || (Required(name) && m.sampledMax == Some(0.0)
                     && e == MetricError(None, "all observed samples were zero")))
  {
    ObservedCount(samples, name);
    MissingAre(samples, name, k);
    SampleErrorsAre(samples, ErrorNames(name), e);
  }

  // ----- the whole summary -----

  function MetricNames(samples: seq<Sample>): set<Name> {
    {ProcessRssMib, FdCount, SqliteDbFileFdCount}
    + (set i, name | 0 <= i < |samples| && name in samples[i].values :: name)
    + (set i, name | 0 <= i < |samples| && name in samples[i].errors :: name)
  }

  predicate Usable(f: Final, startedAt: Option<real>, maxGap: real) {
    && f.stopped && f.samples != [] && f.samples[|f.samples| - 1].kind == Terminal
    && startedAt.Some? && GapOk(Offsets(f.samples), f.finishedAt - startedAt.value, maxGap)
  }

  datatype Summary = Summary(
    complete: bool, metrics: map<Name, MetricSummary>,
    observedMaxima: map<Name, real>, authoritativeMaxima: map<Name, real>)

  function Metrics(f: Final, startedAt: Option<real>, maxGap: real): map<Name, MetricSummary> {
    map name | name in MetricNames(f.samples) :: MetricOf(f.samples, name, Usable(f, startedAt, maxGap))
  }

  /** The three dictionaries after the loop has handled `names` of the metrics in `of`. */
  ghost predicate Tables(of: map<Name, MetricSummary>, names: set<Name>, r: Summary) {
    && names <= of.Keys && r.metrics.Keys == names
    && (forall name | name in names :: r.metrics[name] == of[name])
    && (forall name :: name in r.observedMaxima <==> name in names && of[name].sampledMax.Some?)
    && (forall name | name in r.observedMaxima :: of[name].sampledMax == Some(r.observedMaxima[name]))
    && (forall name :: name in r.authoritativeMaxima <==> name in names && of[name].complete)
    && (forall name | name in r.authoritativeMaxima :: of[name].sampledMax == Some(r.authoritativeMaxima[name]))
  }

  lemma CompleteHasMaximum(f: Final, startedAt: Option<real>, maxGap: real)
    ensures var of := Metrics(f, startedAt, maxGap);
            forall name | name in of && of[name].complete :: of[name].sampledMax.Some?
  {
    forall name | name in MetricNames(f.samples) && MetricOf(f.samples, name, Usable(f, startedAt, maxGap)).complete
      ensures MetricOf(f.samples, name, Usable(f, startedAt, maxGap)).sampledMax.Some?
    {
      CompleteMaximum(f.samples, name, Usable(f, startedAt, maxGap));
    }
  }

  /** One turn of the loop: a summary is stored, and its maximum with it. */
  method AddMetric(ghost of: map<Name, MetricSummary>, ghost names: set<Name>, r: Summary, name: Name, m: MetricSummary)
    returns (next: Summary)
    requires Tables(of, names, r) && name in of && name !in names && of[name] == m
    requires m.complete ==> m.sampledMax.Some?
    ensures Tables(of, names + {name}, next)
  {
    var observed, authoritative := r.observedMaxima, r.authoritativeMaxima;
    if m.sampledMax.Some? {
      observed := observed[name := m.sampledMax.value];
    }
    if m.complete && m.sampledMax.Some? {
      authoritative := authoritative[name := m.sampledMax.value];
    }
    next := Summary(r.complete, r.metrics[name := m], observed, authoritative);
  }

  method CollectMaxima(of: map<Name, MetricSummary>) returns (r: Summary)
    requires forall name | name in of && of[name].complete :: of[name].sampledMax.Some?
    ensures Tables(of, of.Keys, r)
  {
    r := Summary(false, map[], map[], map[]);
    var todo := of.Keys;
    while exists name :: name in todo
      invariant todo <= of.Keys && Tables(of, of.Keys - todo, r)
      decreases |todo|
    {
      var name :| name in todo;
      r := AddMetric(of, of.Keys - todo, r, name, of[name]);
      assert of.Keys - (todo - {name}) == of.Keys - todo + {name};
      todo := todo - {name};
    }
    assert of.Keys - todo == of.Keys;
  }

  ghost predicate RequiredComplete(r: Summary) {
    forall name | Required(name) :: name in r.authoritativeMaxima
  }

  /** A metric has an authoritative maximum exactly when its summary is complete; the whole summary
      is complete exactly when the sampling is usable and every required metric has one. */
  method Summarize(f: Final, startedAt: Option<real>, maxGap: real) returns (r: Summary)
    ensures Tables(Metrics(f, startedAt, maxGap), MetricNames(f.samples), r)
    ensures r.complete <==> Usable(f, startedAt, maxGap) && RequiredComplete(r)
  {
    var of := Metrics(f, startedAt, maxGap);
    CompleteHasMaximum(f, startedAt, maxGap);
    r := CollectMaxima(of);
    r := WithVerdict(of, r, Usable(f, startedAt, maxGap));
  }

  method WithVerdict(of: map<Name, MetricSummary>, r: Summary, usable: bool) returns (next: Summary)
    requires Tables(of, of.Keys, r) && ProcessRssMib in of && FdCount in of && SqliteDbFileFdCount in of
    ensures Tables(of, of.Keys, next)
    ensures next.complete <==> usable && RequiredComplete(next)
  {
    var required := of[ProcessRssMib].complete && of[FdCount].complete && of[SqliteDbFileFdCount].complete;
    next := r.(complete := usable && required);
    assert Required(ProcessRssMib) && Required(FdCount) && Required(SqliteDbFileFdCount);
  }

  // ----- what a complete summary of a run means -----

  lemma MaximumIsPositive(samples: seq<Sample>, upTo: real, name: Name, m: real)
    requires WellFormed(samples, upTo) && IsMaximum(samples, name, m) && m != 0.0
    ensures m > 0.0
  {
    var i :| 0 <= i < |samples| && name in samples[i].values && samples[i].values[name] == m;
    assert Clean(samples[i].values);
  }

  /** Every complete metric has the true maximum of its samples, a required one a positive maximum. */
  lemma AuthoritativeIsTrue(samples: seq<Sample>, upTo: real, name: Name, usable: bool)
    requires WellFormed(samples, upTo) && MetricOf(samples, name, usable).complete
    ensures var m := MetricOf(samples, name, usable).sampledMax;
            m.Some? && IsMaximum(samples, name, m.value) && (Required(name) ==> m.value > 0.0)
  {
    CompleteMaximum(samples, name, usable);
    if Required(name) {
      MaximumIsPositive(samples, upTo, name, MetricOf(samples, name, usable).sampledMax.value);
    }
  }

  /** r is the summary that s has cached. */
  ghost predicate Published(s: State, maxGap: real, r: Summary) {
    && s.final.Some?
    && Tables(Metrics(s.final.value, s.startedAt, maxGap), MetricNames(s.final.value.samples), r)
    && (r.complete <==> Usable(s.final.value, s.startedAt, maxGap) && RequiredComplete(r))
  }

  ghost predicate RunCovered(s: State, maxGap: real) {
    && s.final.Some? && s.startedAt.Some? && HasTerminal(s.samples)
    && var length := s.final.value.finishedAt - s.startedAt.value;
       Covered(Offsets(s.samples), length, maxGap) && length <= (|s.samples| + 1) as real * maxGap
  }

  ghost predicate MaximaTrue(samples: seq<Sample>, r: Summary) {
    forall name | name in r.authoritativeMaxima ::
      IsMaximum(samples, name, r.authoritativeMaxima[name]) && (Required(name) ==> r.authoritativeMaxima[name] > 0.0)
  }

  lemma OffsetsInOrder(samples: seq<Sample>, length: real)
    requires WellFormed(samples, length)
    ensures InOrder(Offsets(samples), length)
  {
  }

  lemma OffsetsCover(offsets: seq<real>, n: nat, length: real, maxGap: real)
    requires InOrder(offsets, length) && n == |offsets| > 0 && maxGap > 0.0 && GapOk(offsets, length, maxGap)
    ensures Covered(offsets, length, maxGap) && length <= (n + 1) as real * maxGap
  {
    GapOkIffCovered(offsets, length, maxGap);
    LengthBound(offsets, length, maxGap, n + 1);
  }

  lemma SamplesCover(samples: seq<Sample>, length: real, maxGap: real)
    requires InOrder(Offsets(samples), length) && samples != [] && maxGap > 0.0
    requires GapOk(Offsets(samples), length, maxGap)
    ensures Covered(Offsets(samples), length, maxGap) && length <= (|samples| + 1) as real * maxGap
  {
    OffsetsCover(Offsets(samples), |samples|, length, maxGap);
  }

  lemma TablesAreTrue(f: Final, startedAt: Option<real>, maxGap: real, upTo: real, r: Summary)
    requires WellFormed(f.samples, upTo)
    requires Tables(Metrics(f, startedAt, maxGap), MetricNames(f.samples), r)
    ensures MaximaTrue(f.samples, r)
  {
    forall name | name in r.authoritativeMaxima
      ensures IsMaximum(f.samples, name, r.authoritativeMaxima[name])
      ensures Required(name) ==> r.authoritativeMaxima[name] > 0.0
    {
      AuthoritativeIsTrue(f.samples, upTo, name, Usable(f, startedAt, maxGap));
    }
  }

  ghost predicate FinalSound(s: State) {
    && s.final.Some? && s.startedAt.Some? && s.final.value.samples == s.samples
    && WellFormed(s.samples, s.final.value.finishedAt - s.startedAt.value)
  }

  lemma FinalFacts(s: State)
    requires Inv(s) && s.final.Some? && s.startedAt.Some?
    ensures FinalSound(s)
  {
  }

  ghost predicate FinalOrdered(s: State) {
    && s.final.Some? && s.startedAt.Some? && s.final.value.samples == s.samples
    && InOrder(Offsets(s.samples), s.final.value.finishedAt - s.startedAt.value)
  }

  lemma FinalInOrder(s: State)
    requires FinalSound(s)
    ensures FinalOrdered(s)
  {
    OffsetsInOrder(s.samples, s.final.value.finishedAt - s.startedAt.value);
  }

  lemma UsableIsCovered(s: State, maxGap: real)
    requires FinalOrdered(s) && maxGap > 0.0 && Usable(s.final.value, s.startedAt, maxGap)
    ensures RunCovered(s, maxGap)
  {
    SamplesCover(s.samples, s.final.value.finishedAt - s.startedAt.value, maxGap);
  }

  lemma PublishedIsTrue(s: State, maxGap: real, r: Summary)
    requires FinalSound(s) && Published(s, maxGap, r)
    ensures MaximaTrue(s.samples, r)
  {
    TablesAreTrue(s.final.value, s.startedAt, maxGap, s.final.value.finishedAt - s.startedAt.value, r);
  }

  /** Every window of the allowed gap inside the run contains the start of a sample. */
  ghost predicate SampledThroughout(samples: seq<Sample>, length: real, maxGap: real) {
    forall w: real | 0.0 <= w && w + maxGap <= length :: StartsIn(samples, w, maxGap)
  }

  ghost predicate StartsIn(samples: seq<Sample>, w: real, width: real) {
    exists i :: 0 <= i < |samples| && w <= samples[i].offset <= w + width
  }

  lemma StartsInIff(samples: seq<Sample>, w: real, width: real)
    ensures StartsIn(samples, w, width) <==> Hit(Offsets(samples), w, width)
  {
    if StartsIn(samples, w, width) {
      var i :| 0 <= i < |samples| && w <= samples[i].offset <= w + width;
      assert Offsets(samples)[i] == samples[i].offset;
    }
    if Hit(Offsets(samples), w, width) {
      var i :| 0 <= i < |Offsets(samples)| && w <= Offsets(samples)[i] <= w + width;
      assert Offsets(samples)[i] == samples[i].offset;
    }
  }

  lemma CoveredIff(samples: seq<Sample>, length: real, maxGap: real)
    ensures Covered(Offsets(samples), length, maxGap) <==> SampledThroughout(samples, length, maxGap)
  {
    forall w: real ensures StartsIn(samples, w, maxGap) <==> Hit(Offsets(samples), w, maxGap) {
      StartsInIff(samples, w, maxGap);
    }
  }

  lemma UsableIff(s: State, maxGap: real)
    requires FinalOrdered(s) && maxGap > 0.0
    ensures Usable(s.final.value, s.startedAt, maxGap)
       <==> && s.final.value.stopped && HasTerminal(s.samples)
            && SampledThroughout(s.samples, s.final.value.finishedAt - s.startedAt.value, maxGap)
  {
    var length := s.final.value.finishedAt - s.startedAt.value;
    CoveredIff(s.samples, length, maxGap);
    if s.samples != [] {
      GapOkIffCovered(Offsets(s.samples), length, maxGap);
    }
  }

  /** Every sample speaks for the metric, none against it, and one of them is not zero. */
  ghost predicate Vouched(samples: seq<Sample>, name: Name) {
    && (forall i | 0 <= i < |samples| :: Sound(samples[i], name))
    && (exists i :: 0 <= i < |samples| && name in samples[i].values && samples[i].values[name] > 0.0)
  }

  lemma RequiredCompleteIff(samples: seq<Sample>, upTo: real, name: Name, usable: bool)
    requires WellFormed(samples, upTo) && Required(name)
    ensures MetricOf(samples, name, usable).complete <==> usable && samples != [] && Vouched(samples, name)
  {
    MetricCompleteIff(samples, name, usable);
    ReportsMaximum(samples, name, usable);
    if MetricOf(samples, name, usable).complete {
      AuthoritativeIsTrue(samples, upTo, name, usable);
    }
  }

  /** Stopped with the terminal sample, sampled throughout, and every sample speaks for the three
      required metrics. */
  ghost predicate FullySampled(s: State, maxGap: real) {
    && s.final.Some? && s.startedAt.Some? && s.final.value.stopped && HasTerminal(s.samples)
    && SampledThroughout(s.samples, s.final.value.finishedAt - s.startedAt.value, maxGap)
    && Vouched(s.samples, ProcessRssMib) && Vouched(s.samples, FdCount) && Vouched(s.samples, SqliteDbFileFdCount)
  }

  lemma AuthoritativeIff(f: Final, startedAt: Option<real>, maxGap: real, r: Summary, name: Name)
    requires Tables(Metrics(f, startedAt, maxGap), MetricNames(f.samples), r)
    ensures name in r.authoritativeMaxima
       <==> name in MetricNames(f.samples) && MetricOf(f.samples, name, Usable(f, startedAt, maxGap)).complete
  {
  }

  lemma VouchedIff(s: State, maxGap: real, r: Summary, name: Name)
    requires FinalSound(s) && Published(s, maxGap, r) && Usable(s.final.value, s.startedAt, maxGap)
    requires Required(name)
    ensures name in r.authoritativeMaxima <==> Vouched(s.samples, name)
  {
    AuthoritativeIff(s.final.value, s.startedAt, maxGap, r, name);
    RequiredCompleteIff(s.samples, s.final.value.finishedAt - s.startedAt.value, name, true);
  }

  lemma RequiredCompleteMeans(r: Summary)
    ensures RequiredComplete(r)
       <==> && ProcessRssMib in r.authoritativeMaxima && FdCount in r.authoritativeMaxima
            && SqliteDbFileFdCount in r.authoritativeMaxima
  {
    assert Required(ProcessRssMib) && Required(FdCount) && Required(SqliteDbFileFdCount);
  }

  lemma CompleteStateIff(s: State, maxGap: real, r: Summary)
    requires FinalSound(s) && FinalOrdered(s) && Published(s, maxGap, r) && maxGap > 0.0
    ensures r.complete <==> FullySampled(s, maxGap)
  {
    UsableIff(s, maxGap);
    RequiredCompleteMeans(r);
    if Usable(s.final.value, s.startedAt, maxGap) {
      VouchedIff(s, maxGap, r, ProcessRssMib);
      VouchedIff(s, maxGap, r, FdCount);
      VouchedIff(s, maxGap, r, SqliteDbFileFdCount);
    }
  }

  /** Sound and complete, for every interleaving of the two threads: the published summary is complete
      exactly when the run was fully sampled. */
  lemma CompleteIff(events: seq<Event>, k: nat, maxGap: real, r: Summary)
    requires k <= |events| && maxGap > 0.0
    requires Published(After(events, k), maxGap, r) && After(events, k).startedAt.Some?
    ensures r.complete <==> FullySampled(After(events, k), maxGap)
  {
    EveryStateSound(events, k);
    FinalFacts(After(events, k));
    FinalInOrder(After(events, k));
    CompleteStateIff(After(events, k), maxGap, r);
  }

  lemma NamesAre(samples: seq<Sample>, name: Name)
    ensures name in MetricNames(samples)
       <==> || name == ProcessRssMib || name == FdCount || name == SqliteDbFileFdCount
            || exists i :: 0 <= i < |samples| && (name in samples[i].values || name in samples[i].errors)
  {
  }

  lemma EntryOf(f: Final, startedAt: Option<real>, maxGap: real, r: Summary, name: Name)
    requires Tables(Metrics(f, startedAt, maxGap), MetricNames(f.samples), r)
    ensures name in r.metrics <==> name in MetricNames(f.samples)
    ensures var m := MetricOf(f.samples, name, Usable(f, startedAt, maxGap));
            && (name in r.metrics ==> r.metrics[name] == m)
            && (name in r.observedMaxima <==> name in MetricNames(f.samples) && m.sampledMax.Some?)
            && (name in r.observedMaxima ==> m.sampledMax == Some(r.observedMaxima[name]))
  {
  }

  /** A metric is reported exactly when it is required or some sample mentions it; it has an observed
      maximum exactly when some sample has a value for it, and that is the greatest of them. */
  lemma ReportedIff(f: Final, startedAt: Option<real>, maxGap: real, r: Summary, name: Name)
    requires Tables(Metrics(f, startedAt, maxGap), MetricNames(f.samples), r)
    ensures name in r.metrics
       <==> || name == ProcessRssMib || name == FdCount || name == SqliteDbFileFdCount
            || exists i :: 0 <= i < |f.samples| && (name in f.samples[i].values || name in f.samples[i].errors)
    ensures name in r.observedMaxima <==> exists i :: 0 <= i < |f.samples| && name in f.samples[i].values
    ensures name in r.observedMaxima ==> GreatestObserved(f.samples, name, Some(r.observedMaxima[name]))
  {
    ReportsMaximum(f.samples, name, Usable(f, startedAt, maxGap));
    NamesAre(f.samples, name);
    EntryOf(f, startedAt, maxGap, r, name);
  }

  /** End to end, for every interleaving of the two threads: when the published summary is complete,
      every window of the allowed gap inside the run contains the start of a sample, the run is no
      longer than the samples allow, every authoritative maximum is the true one, and every required
      metric has a positive one. */
  lemma CompleteRun(events: seq<Event>, k: nat, maxGap: real, r: Summary)
    requires k <= |events| && maxGap > 0.0
    requires Published(After(events, k), maxGap, r) && r.complete
    ensures RunCovered(After(events, k), maxGap)
    ensures RequiredComplete(r) && MaximaTrue(After(events, k).samples, r)
  {
    EveryStateSound(events, k);
    FinalFacts(After(events, k));
    FinalInOrder(After(events, k));
    UsableIsCovered(After(events, k), maxGap);
    PublishedIsTrue(After(events, k), maxGap, r);
  }
}
