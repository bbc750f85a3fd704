/** The fail-closed evaluation of a benchmark result against a threshold manifest. */
module Thresholds {
  import opened Options

  /** A float that is not finite stands for NaN and both infinities. An object of any other type
      either turns into text or raises when asked to. */
  datatype Value =
    | Null | Bool(flag: bool) | Int(n: int) | Float(finite: Option<real>) | Str(text: string)
    | List(items: seq<Value>) | Obj(fields: map<string, Value>) | Other(printable: bool)

  datatype Status =
    | Pass | Fail | InvalidSpecification | Unavailable | InvalidMeasurement | InvalidTarget | InvalidOperator

  /** What is stored for a key. The text of an invalid measurement is not modelled. */
  datatype Evaluation = Evaluation(
    status: Status, source: Option<string>, observed: Option<real>, target: Option<Value>,
    operator: Option<Value>, proxyNote: bool)

  datatype Failure = Failure(key: string, status: Status)

  const THROUGHPUT := "cold_scan_throughput_tracks_per_sec"
  const CONNECTIONS := "sqlite_connections_max"
  const ALIASES: map<string, string> := map[
    "incremental_scan_p95_ms" := "incremental_scan_ms",
    "sqlite_connections_max" := "sqlite_db_file_fd_sampled_max"]

  // ----- numbers -----

  function Pow2(n: nat): nat {
    if n == 0 then 1 else 2 * Pow2(n - 1)
  }

  /** Integers from here on do not fit a double: float() raises OverflowError. */
  function OverflowBound(): int {
    Pow2(1024) - Pow2(970)
  }

  predicate Overflows(n: int) {
    n >= OverflowBound() || -n >= OverflowBound()
  }

  function FiniteNumber(v: Value): Option<real> {
    match v
    case Int(n) => if Overflows(n) then None else Some(n as real)
    case Float(x) => x
    case _ => None
  }

  function Digits(n: nat): nat {
    if n < 10 then (if n == 0 then 0 else 1) else 1 + Digits(n / 10)
  }

  const MAX_DIGITS: nat := 4300

  /** str() and repr() raise ValueError for an integer of more than 4300 digits, and for whatever
      contains one. */
  predicate Prints(v: Value) {
    match v
    case Int(n) => Digits(if n < 0 then -n else n) <= MAX_DIGITS
    case List(items) => forall i | 0 <= i < |items| :: Prints(items[i])
    case Obj(fields) => forall key | key in fields :: Prints(fields[key])
    case Other(printable) => printable
    case _ => true
  }

  // ----- observing one key -----

  function Get(m: map<string, Value>, key: string): Value {
    if key in m then m[key] else Null
  }

  function MetricsOf(result: map<string, Value>): map<string, Value> {
    match Get(result, "metrics")
    case Obj(fields) => fields
    case _ => map[]
  }

  /** The result as it reads while its metrics are `metrics`: they are one and the same dict. */
  function ResultGet(result: map<string, Value>, metrics: map<string, Value>, key: string): Value {
    if key == "metrics" && Get(result, key).Obj? then Obj(metrics) else Get(result, key)
  }

  datatype Observation = Raised | Derived(rate: Option<real>) | Seen(value: Value, source: string)

  function FromMetrics(metrics: map<string, Value>, key: string): (Value, string) {
    if key == CONNECTIONS then (Get(metrics, ALIASES[key]), ALIASES[key])
    else if Get(metrics, key) == Null && key in ALIASES then (Get(metrics, ALIASES[key]), ALIASES[key])
    else (Get(metrics, key), key)
  }

  /** A quotient as a double to one decimal; None when it overflows to infinity. */
  type Rounding = real -> Option<real>

  /** Tracks per second of the cold scan, when duration and count allow it. */
  function Throughput(round1: Rounding, result: map<string, Value>, metrics: map<string, Value>): Observation {
    var duration := Get(metrics, "cold_scan_s");
    var dataset := ResultGet(result, metrics, "dataset");
    var count := if dataset.Obj? then Get(dataset.fields, "count") else Null;
    if duration.Int? && Overflows(duration.n) then Raised
    else
      var seconds := FiniteNumber(duration);
      if seconds == None || seconds.value <= 0.0 || !count.Int? then Seen(Null, THROUGHPUT)
      else if Overflows(count.n) then Raised
      else Derived(round1(count.n as real / seconds.value))
  }

  function Observe(round1: Rounding, result: map<string, Value>, metrics: map<string, Value>, key: string)
    : Observation
  {
    var (value, source) := FromMetrics(metrics, key);
    if value != Null then Seen(value, source)
    else if key != CONNECTIONS && ResultGet(result, metrics, key) != Null
    then Seen(ResultGet(result, metrics, key), source)
    else if key == THROUGHPUT then Throughput(round1, result, metrics)
    else Seen(Null, source)
  }

  function FirstNonNull(values: seq<Value>): Value {
    if values == [] then Null else if values[0] != Null then values[0] else FirstNonNull(values[1..])
  }

  /** Where a key may be found, in order of preference. */
  function Sources(result: map<string, Value>, metrics: map<string, Value>, key: string): seq<Value> {
    if key == CONNECTIONS then [Get(metrics, "sqlite_db_file_fd_sampled_max")]
    else if key == "incremental_scan_p95_ms"
    then [Get(metrics, key), Get(metrics, "incremental_scan_ms"), ResultGet(result, metrics, key)]
    else [Get(metrics, key), ResultGet(result, metrics, key)]
  }

  /** The throughput is derived from a duration, or from a count over a positive duration, that is an
      integer too large for a double. */
  predicate DerivationRaises(result: map<string, Value>, metrics: map<string, Value>) {
    var duration, dataset := Get(metrics, "cold_scan_s"), Get(result, "dataset");
    if duration.Int? && Overflows(duration.n) then true
    else
      && FiniteNumber(duration).Some? && FiniteNumber(duration).value > 0.0
      && dataset.Obj? && Get(dataset.fields, "count").Int? && Overflows(Get(dataset.fields, "count").n)
  }

  /** There is a positive duration and a count to divide by it. */
  predicate HasRate(result: map<string, Value>, metrics: map<string, Value>) {
    var duration, dataset := Get(metrics, "cold_scan_s"), Get(result, "dataset");
    && FiniteNumber(duration).Some? && FiniteNumber(duration).value > 0.0
    && dataset.Obj? && Get(dataset.fields, "count").Int? && !Overflows(Get(dataset.fields, "count").n)
  }

  /** Tracks per second: the count of the dataset over the seconds of the cold scan. */
  function RateOf(round1: Rounding, result: map<string, Value>, metrics: map<string, Value>): Option<real>
    requires HasRate(result, metrics)
  {
    var tracks, duration := Get(Get(result, "dataset").fields, "count").n, Get(metrics, "cold_scan_s");
    match duration
    case Int(seconds) => round1(tracks as real / seconds as real)
    case Float(seconds) => round1(tracks as real / seconds.value)
  }

  /** What the evaluation of a key names as its source. */
  function SourceName(result: map<string, Value>, metrics: map<string, Value>, key: string): string {
    if key == CONNECTIONS then "sqlite_db_file_fd_sampled_max"
    else if key == "incremental_scan_p95_ms" && Get(metrics, key) == Null then "incremental_scan_ms"
    else if key == THROUGHPUT && FirstNonNull(Sources(result, metrics, key)) == Null && HasRate(result, metrics)
    then "cold_scan_s+dataset.count"
    else key
  }

  lemma ThroughputCases(round1: Rounding, result: map<string, Value>, metrics: map<string, Value>)
    ensures Throughput(round1, result, metrics) ==
            if DerivationRaises(result, metrics) then Raised
            else if HasRate(result, metrics) then Derived(RateOf(round1, result, metrics))
            else Seen(Null, THROUGHPUT)
  {
  }

  /** A key is read from the first of its sources that has a value; only the throughput can still be
      derived when none has, and then it is the count over the duration. */
  lemma ObservesFirstSource(round1: Rounding, result: map<string, Value>, metrics: map<string, Value>, key: string)
    ensures var first := FirstNonNull(Sources(result, metrics, key));
            Observe(round1, result, metrics, key) ==
            if first == Null && key == THROUGHPUT && DerivationRaises(result, metrics) then Raised
            else if first == Null && key == THROUGHPUT && HasRate(result, metrics)
            then Derived(RateOf(round1, result, metrics))
            else Seen(first, SourceName(result, metrics, key))
  {
    ThroughputCases(round1, result, metrics);
    var x, z := Get(metrics, key), ResultGet(result, metrics, key);
    FirstOf(x, Get(metrics, "incremental_scan_ms"), z);
    FirstOf(Get(metrics, "sqlite_db_file_fd_sampled_max"), Null, Null);
    if key == CONNECTIONS {
      assert key in ALIASES && ALIASES[key] == "sqlite_db_file_fd_sampled_max" && key != THROUGHPUT;
    } else if key == "incremental_scan_p95_ms" {
      assert key in ALIASES && ALIASES[key] == "incremental_scan_ms" && key != THROUGHPUT;
    } else {
      assert key !in ALIASES;
    }
  }

  lemma FirstOf(x: Value, y: Value, z: Value)
    ensures FirstNonNull([x]) == x
    ensures FirstNonNull([x, z]) == if x != Null then x else z
    ensures FirstNonNull([x, y, z]) == if x != Null then x else if y != Null then y else z
  {
    assert [x][1..] == [] && [x, z][1..] == [z] && [z][1..] == [];
    assert [x, y, z][1..] == [y, z] && [y, z][1..] == [z];
  }

  // ----- judging one key -----

  /** None for an operator that is not one of the three. */
  function Compare(operator: Value, x: real, y: real): Option<bool> {
    if operator == Str("<=") then Some(x <= y)
    else if operator == Str(">=") then Some(x >= y)
    else if operator == Str("==") then Some(x == y)
    else None
  }

  function JudgeValue(key: string, value: Value, source: string, target: Value, operator: Value): Evaluation {
    var seen, bound := FiniteNumber(value), FiniteNumber(target);
    if value == Null then Evaluation(Unavailable, Some(source), None, Some(target), Some(operator), false)
    else if seen == None then Evaluation(InvalidMeasurement, Some(source), None, Some(target), Some(operator), false)
    else if bound == None then Evaluation(InvalidTarget, Some(source), seen, Some(target), Some(operator), false)
    else match Compare(operator, seen.value, bound.value)
      case None => Evaluation(InvalidOperator, Some(source), seen, Some(target), Some(operator), false)
      case Some(holds) =>
        Evaluation(if holds then Pass else Fail, Some(source), seen, Some(target), Some(operator), key == CONNECTIONS)
  }

  /** Reporting a measurement, a target or an operator that is not valid puts it into text. */
  predicate ReportRaises(value: Value, target: Value, operator: Value) {
    var seen, bound := FiniteNumber(value), FiniteNumber(target);
    if value == Null then false
    else if seen == None then !Prints(value)
    else if bound == None then !Prints(target)
    else Compare(operator, seen.value, bound.value) == None && !Prints(operator)
  }

  function Reported(key: string, value: Value, source: string, target: Value, operator: Value): Option<Evaluation> {
    if ReportRaises(value, target, operator) then None
    else Some(JudgeValue(key, value, source, target, operator))
  }

  /** The evaluation of one key on its own; None when the call raises there. */
  function Judge(
    round1: Rounding, result: map<string, Value>, metrics: map<string, Value>, key: string, spec: Value)
    : Option<Evaluation>
  {
    if !spec.Obj? then Some(Evaluation(InvalidSpecification, None, None, None, None, false))
    else
      var target, operator := Get(spec.fields, "target"), Get(spec.fields, "operator");
      match Observe(round1, result, metrics, key)
      case Raised => None
      case Derived(rate) => Reported(key, Float(rate), "cold_scan_s+dataset.count", target, operator)
      case Seen(value, source) => Reported(key, value, source, target, operator)
  }

  /** The operator is one of the three and the numbers stand in its relation. */
  predicate Relates(operator: Value, x: real, y: real) {
    || (operator == Str("<=") && x <= y)
    || (operator == Str(">=") && x >= y)
    || (operator == Str("==") && x == y)
  }

  /** What is measured for a key: the first stored value, or the derived throughput. */
  function Measured(round1: Rounding, result: map<string, Value>, key: string): Value {
    var metrics := MetricsOf(result);
    var stored := FirstNonNull(Sources(result, metrics, key));
    if stored == Null && key == THROUGHPUT && HasRate(result, metrics) then Float(RateOf(round1, result, metrics))
    else stored
  }

  /** The requirement itself: a finite measurement and a finite target that the operator relates. */
  predicate Meets(round1: Rounding, result: map<string, Value>, key: string, spec: Value) {
    && spec.Obj?
    && var x, y := FiniteNumber(Measured(round1, result, key)), FiniteNumber(Get(spec.fields, "target"));
       && x.Some? && y.Some? && Relates(Get(spec.fields, "operator"), x.value, y.value)
  }

  /** The status of a key whose measurement is known. */
  ghost predicate StatusFits(status: Status, measured: Value, target: Value, operator: Value) {
    var x, y := FiniteNumber(measured), FiniteNumber(target);
    match status
    case InvalidSpecification => false
    case Unavailable => measured == Null
    case InvalidMeasurement => measured != Null && x == None
    case InvalidTarget => x.Some? && y == None
    case InvalidOperator =>
      x.Some? && y.Some? && operator != Str("<=") && operator != Str(">=") && operator != Str("==")
    case Fail =>
      && x.Some? && y.Some? && !Relates(operator, x.value, y.value)
      && (operator == Str("<=") || operator == Str(">=") || operator == Str("=="))
    case Pass => x.Some? && y.Some? && Relates(operator, x.value, y.value)
  }

  lemma JudgedValueFits(key: string, value: Value, source: string, target: Value, operator: Value)
    ensures var e := JudgeValue(key, value, source, target, operator);
            && StatusFits(e.status, value, target, operator)
            && e.source == Some(source) && e.target == Some(target) && e.operator == Some(operator)
            && e.observed == (if e.status == InvalidMeasurement then None else FiniteNumber(value))
            && (e.proxyNote <==> key == CONNECTIONS && (e.status == Pass || e.status == Fail))
  {
  }

  /** Every evaluation that is not raised tells what was measured, against which target and operator,
      from where, and how the three compare. */
  lemma JudgedFits(round1: Rounding, result: map<string, Value>, key: string, spec: Value, e: Evaluation)
    requires Judge(round1, result, MetricsOf(result), key, spec) == Some(e)
    ensures !spec.Obj? ==> e == Evaluation(InvalidSpecification, None, None, None, None, false)
    ensures spec.Obj? ==>
              var measured, target, operator :=
                Measured(round1, result, key), Get(spec.fields, "target"), Get(spec.fields, "operator");
              && StatusFits(e.status, measured, target, operator)
              && e.target == Some(target) && e.operator == Some(operator)
              && e.observed == FiniteNumber(measured)
              && e.source == Some(SourceName(result, MetricsOf(result), key))
              && (e.proxyNote <==> key == CONNECTIONS && (e.status == Pass || e.status == Fail))
  {
    if spec.Obj? {
      var target, operator := Get(spec.fields, "target"), Get(spec.fields, "operator");
      ObservesFirstSource(round1, result, MetricsOf(result), key);
      match Observe(round1, result, MetricsOf(result), key)
      case Raised =>
      case Derived(rate) => JudgedValueFits(key, Float(rate), "cold_scan_s+dataset.count", target, operator);
      case Seen(value, source) => JudgedValueFits(key, value, source, target, operator);
    }
  }

  predicate Passes(e: Option<Evaluation>) {
    e.Some? && e.value.status == Pass
  }

  lemma StatusIsUnique(a: Status, b: Status, measured: Value, target: Value, operator: Value)
    requires StatusFits(a, measured, target, operator) && StatusFits(b, measured, target, operator)
    ensures a == b
  {
  }

  /** A requirement that is met never raises, and passes; nothing else passes. */
  lemma PassMeansMeets(round1: Rounding, result: map<string, Value>, key: string, spec: Value)
    ensures Meets(round1, result, key, spec)
       <==> Passes(Judge(round1, result, MetricsOf(result), key, spec))
  {
    var j := Judge(round1, result, MetricsOf(result), key, spec);
    RaisesIff(round1, result, MetricsOf(result), key, spec);
    if j.Some? {
      JudgedFits(round1, result, key, spec, j.value);
      if Meets(round1, result, key, spec) {
        StatusIsUnique(j.value.status, Pass, Measured(round1, result, key),
                       Get(spec.fields, "target"), Get(spec.fields, "operator"));
      }
    }
  }

  /** Where the measurement is fine: the target is no number and has no text, or it is a number and
      the operator has no text. */
  predicate SpecRaises(fields: map<string, Value>) {
    if FiniteNumber(Get(fields, "target")) == None then !Prints(Get(fields, "target"))
    else !Prints(Get(fields, "operator"))
  }

  lemma ReportRaisesIff(value: Value, fields: map<string, Value>)
    ensures ReportRaises(value, Get(fields, "target"), Get(fields, "operator"))
       <==> if FiniteNumber(value) == None then !Prints(value) else SpecRaises(fields)
  {
  }

  /** The call is not total. A key raises exactly when its throughput has to be derived from too large
      an integer, or when the first thing wrong with its measurement, target and operator, in this
      order, has no text. */
  lemma RaisesIff(
    round1: Rounding, result: map<string, Value>, metrics: map<string, Value>, key: string, spec: Value)
    ensures Judge(round1, result, metrics, key, spec) == None
       <==> && spec.Obj?
            && var value := FirstNonNull(Sources(result, metrics, key));
               if key == THROUGHPUT && value == Null then
                 || DerivationRaises(result, metrics)
                 || (HasRate(result, metrics) && RateOf(round1, result, metrics).Some? && SpecRaises(spec.fields))
               else if FiniteNumber(value) == None then !Prints(value)
               else SpecRaises(spec.fields)
  {
    ObservesFirstSource(round1, result, metrics, key);
    if spec.Obj? {
      match Observe(round1, result, metrics, key)
      case Raised =>
      case Derived(rate) => ReportRaisesIff(Float(rate), spec.fields);
      case Seen(value, source) => ReportRaisesIff(value, spec.fields);
    }
  }

  lemma HugeDurationRaises(round1: Rounding)
    ensures var metrics := map["cold_scan_s" := Int(OverflowBound())];
            Judge(round1, map["metrics" := Obj(metrics)], metrics, THROUGHPUT, Obj(map[])) == None
  {
    var metrics := map["cold_scan_s" := Int(OverflowBound())];
    var result := map["metrics" := Obj(metrics)];
    assert Throughput(round1, result, metrics) == Raised;
  }

  lemma {:induction false} PowersGrow(m: nat, n: nat)
    requires m <= n
    ensures 1 <= Pow2(m) <= Pow2(n)
  {
    if m < n {
      PowersGrow(m, n - 1);
    } else if m > 0 {
      PowersGrow(m - 1, n - 1);
    }
  }

  lemma {:induction false} ManyDigits(n: nat, k: nat)
    requires Digits(n) > k
    ensures n >= Pow2(k)
  {
    if k > 0 {
      ManyDigits(n / 10, k - 1);
    } else {
      assert n > 0;
    }
  }

  function Pow10(k: nat): nat {
    if k == 0 then 1 else 10 * Pow10(k - 1)
  }

  lemma {:induction false} PowerDigits(k: nat)
    ensures Digits(Pow10(k)) == k + 1
  {
    if k > 0 {
      PowerDigits(k - 1);
      assert Pow10(k) / 10 == Pow10(k - 1);
    }
  }

  /** 10^k has k + 1 digits, and 4300 are still turned into text. */
  lemma PowerPrintsIff(k: nat)
    ensures Prints(Int(Pow10(k))) <==> k < 4300
  {
    PowerDigits(k);
  }

  /** A list or mapping with such an integer inside has no text either. */
  lemma NestedHasNoText(items: seq<Value>, fields: map<string, Value>, k: nat)
    requires k >= 4300
    ensures Int(Pow10(k)) in items ==> !Prints(List(items))
    ensures Int(Pow10(k)) in fields.Values ==> !Prints(Obj(fields))
  {
    PowerPrintsIff(k);
  }

  /** The bound is halfway between the largest double, 2^1024 - 2^971, and 2^1024. */
  lemma OverflowIsHalfway()
    ensures 2 * OverflowBound() == (Pow2(1024) - Pow2(971)) + Pow2(1024)
  {
    assert Pow2(971) == 2 * Pow2(970);
  }

  lemma LongIntegerHasNoText(n: nat)
    requires Digits(n) > MAX_DIGITS
    ensures FiniteNumber(Int(n)) == None && !Prints(Int(n))
  {
    ManyDigits(n, 1024);
    PowersGrow(970, 1024);
  }

  /** A measurement of more than 4300 digits is invalid, and saying so raises. */
  lemma LongMeasurementRaises(round1: Rounding, k: nat)
    requires k >= MAX_DIGITS
    ensures var metrics := map["cold_scan_s" := Int(Pow10(k))];
            Judge(round1, map["metrics" := Obj(metrics)], metrics, "cold_scan_s", Obj(map[])) == None
  {
    PowerDigits(k);
    LongIntegerHasNoText(Pow10(k));
    assert "cold_scan_s" !in ALIASES && "cold_scan_s" != CONNECTIONS;
  }

  /** Storing the derived throughput, which is done only where there was none, changes no other key's
      evaluation. */
  lemma StoringIsInvisible(
    round1: Rounding, result: map<string, Value>, metrics: map<string, Value>, rate: Option<real>,
    key: string, spec: Value)
    requires key != THROUGHPUT && Get(metrics, THROUGHPUT) == Null
    ensures Judge(round1, result, metrics[THROUGHPUT := Float(rate)], key, spec)
         == Judge(round1, result, metrics, key, spec)
  {
    var stored := metrics[THROUGHPUT := Float(rate)];
    if key == "metrics" && Get(result, key).Obj? {
      assert FromMetrics(stored, key) == FromMetrics(metrics, key);
      StoringKeepsPrints(metrics, rate);
    } else {
      assert Observe(round1, result, stored, key) == Observe(round1, result, metrics, key);
    }
  }

  lemma StoringKeepsPrints(metrics: map<string, Value>, rate: Option<real>)
    requires Get(metrics, THROUGHPUT) == Null
    ensures Prints(Obj(metrics[THROUGHPUT := Float(rate)])) <==> Prints(Obj(metrics))
  {
    var stored := metrics[THROUGHPUT := Float(rate)];
    if Prints(Obj(stored)) {
      forall key | key in metrics ensures Prints(metrics[key]) {
        assert key in stored;
      }
    }
  }

  // ----- the whole manifest -----

  type Manifest = seq<(string, Value)>

  /** A mapping, in whatever order it lists its keys. */
  ghost predicate DistinctKeys(m: Manifest) {
    forall i, j :: 0 <= i < j < |m| ==> m[i].0 != m[j].0
  }

  ghost predicate Lists(m: Manifest, key: string) {
    exists i :: 0 <= i < |m| && m[i].0 == key
  }

  lemma LastKey(m: Manifest)
    requires m != [] && DistinctKeys(m)
    ensures DistinctKeys(m[..|m| - 1]) && !Lists(m[..|m| - 1], m[|m| - 1].0)
    ensures forall key :: Lists(m, key) <==> Lists(m[..|m| - 1], key) || key == m[|m| - 1].0
  {
    var n := |m| - 1;
    forall key ensures Lists(m, key) <==> Lists(m[..n], key) || key == m[n].0 {
      if i :| 0 <= i < n && m[i].0 == key {
        assert m[..n][i].0 == key;
      }
    }
  }

  /** Every listed key, and no other, has the evaluation it would get alone. */
  ghost predicate JudgedAlone(
    round1: Rounding, result: map<string, Value>, m: Manifest, evaluations: map<string, Evaluation>)
  {
    && (forall key :: key in evaluations <==> Lists(m, key))
    && forall i | 0 <= i < |m| ::
         m[i].0 in evaluations
         && Judge(round1, result, MetricsOf(result), m[i].0, m[i].1) == Some(evaluations[m[i].0])
  }

  ghost predicate SomeKeyRaises(round1: Rounding, result: map<string, Value>, m: Manifest) {
    exists i | 0 <= i < |m| :: Judge(round1, result, MetricsOf(result), m[i].0, m[i].1) == None
  }

  /** One failure for every key that did not pass, in the order of the manifest. */
  function FailuresOf(m: Manifest, evaluations: map<string, Evaluation>): seq<Failure> {
    if m == [] then []
    else
      var key := m[|m| - 1].0;
      FailuresOf(m[..|m| - 1], evaluations)
      + (if key in evaluations && evaluations[key].status != Pass then [Failure(key, evaluations[key].status)] else [])
  }

  lemma {:induction false} OtherKeysKeepFailures(
    m: Manifest, evaluations: map<string, Evaluation>, key: string, e: Evaluation)
    requires !Lists(m, key)
    ensures FailuresOf(m, evaluations[key := e]) == FailuresOf(m, evaluations)
  {
    if m != [] {
      var n := |m| - 1;
      assert m[n].0 != key;
      assert forall i :: 0 <= i < n ==> m[..n][i] == m[i];
      OtherKeysKeepFailures(m[..n], evaluations, key, e);
    }
  }

  ghost predicate StoredIn(base: map<string, Value>, metrics: map<string, Value>) {
    Get(base, THROUGHPUT) == Null && exists rate :: metrics == base[THROUGHPUT := Float(rate)]
  }

  /** The metrics are untouched, or a listed throughput key had its derived value stored in them. */
  ghost predicate OnlyStored(m: Manifest, base: map<string, Value>, metrics: map<string, Value>) {
    || metrics == base
    || (Lists(m, THROUGHPUT) && StoredIn(base, metrics))
  }

  lemma StoredIsInvisible(
    round1: Rounding, result: map<string, Value>, m: Manifest, metrics: map<string, Value>,
    key: string, spec: Value)
    requires OnlyStored(m, MetricsOf(result), metrics) && !Lists(m, key)
    ensures Judge(round1, result, metrics, key, spec) == Judge(round1, result, MetricsOf(result), key, spec)
  {
    if metrics != MetricsOf(result) {
      var rate :| metrics == MetricsOf(result)[THROUGHPUT := Float(rate)];
      StoringIsInvisible(round1, result, MetricsOf(result), rate, key, spec);
    }
  }

  lemma JudgedOneMore(
    round1: Rounding, result: map<string, Value>, m: Manifest, evaluations: map<string, Evaluation>, e: Evaluation)
    requires m != [] && DistinctKeys(m) && JudgedAlone(round1, result, m[..|m| - 1], evaluations)
    requires Judge(round1, result, MetricsOf(result), m[|m| - 1].0, m[|m| - 1].1) == Some(e)
    ensures JudgedAlone(round1, result, m, evaluations[m[|m| - 1].0 := e])
  {
    var n := |m| - 1;
    LastKey(m);
    forall i | 0 <= i < n ensures m[i].0 != m[n].0 && m[i] == m[..n][i] {
    }
  }

  lemma FailuresOneMore(m: Manifest, evaluations: map<string, Evaluation>, e: Evaluation)
    requires m != [] && DistinctKeys(m)
    ensures FailuresOf(m, evaluations[m[|m| - 1].0 := e]) ==
            FailuresOf(m[..|m| - 1], evaluations)
            + (if e.status == Pass then [] else [Failure(m[|m| - 1].0, e.status)])
  {
    LastKey(m);
    OtherKeysKeepFailures(m[..|m| - 1], evaluations, m[|m| - 1].0, e);
  }

  /** One turn of the loop: the evaluation, and the metrics with a derived throughput stored. */
  method JudgeKey(
    round1: Rounding, result: map<string, Value>, metrics: map<string, Value>, key: string, spec: Value)
    returns (judged: Option<Evaluation>, stored: map<string, Value>)
    ensures judged == Judge(round1, result, metrics, key, spec)
    ensures stored == metrics || (key == THROUGHPUT && StoredIn(metrics, stored))
  {
    stored := metrics;
    judged := Judge(round1, result, metrics, key, spec);
    if spec.Obj? {
      var o := Observe(round1, result, metrics, key);
      if o.Derived? {
        stored := metrics[key := Float(o.rate)];
      }
    }
  }

  lemma StoredOnce(m: Manifest, base: map<string, Value>, before: map<string, Value>, metrics: map<string, Value>)
    requires m != [] && DistinctKeys(m) && OnlyStored(m[..|m| - 1], base, before)
    requires metrics == before
          || (m[|m| - 1].0 == THROUGHPUT && StoredIn(before, metrics))
    ensures OnlyStored(m, base, metrics)
  {
    LastKey(m);
  }

  /** One turn keeps what the loop has established, on one more key. */
  lemma OneMoreKey(
    round1: Rounding, result: map<string, Value>, m: Manifest, k: nat, evaluations: map<string, Evaluation>,
    before: map<string, Value>, judged: Option<Evaluation>, stored: map<string, Value>)
    requires k < |m| && DistinctKeys(m)
    requires OnlyStored(m[..k], MetricsOf(result), before) && JudgedAlone(round1, result, m[..k], evaluations)
    requires judged == Judge(round1, result, before, m[k].0, m[k].1)
    requires stored == before || (m[k].0 == THROUGHPUT && StoredIn(before, stored))
    ensures judged == None ==> SomeKeyRaises(round1, result, m)
    ensures judged.Some? ==>
              && OnlyStored(m[..k + 1], MetricsOf(result), stored)
              && JudgedAlone(round1, result, m[..k + 1], evaluations[m[k].0 := judged.value])
              && FailuresOf(m[..k + 1], evaluations[m[k].0 := judged.value]) ==
                 FailuresOf(m[..k], evaluations)
                 + (if judged.value.status == Pass then [] else [Failure(m[k].0, judged.value.status)])
  {
    var longer := m[..k + 1];
    assert longer[..k] == m[..k] && longer[k] == m[k] && DistinctKeys(longer);
    LastKey(longer);
    StoredIsInvisible(round1, result, m[..k], before, m[k].0, m[k].1);
    if judged.Some? {
      StoredOnce(longer, MetricsOf(result), before, stored);
      JudgedOneMore(round1, result, longer, evaluations, judged.value);
      FailuresOneMore(longer, evaluations, judged.value);
    }
  }

  datatype Report = Report(failures: seq<Failure>, evaluations: map<string, Evaluation>) | NoMapping | Exception

  /** Every key is judged as if it stood alone, in the order of the manifest; the call raises exactly
      when reading some key raises. A manifest that is no mapping is one failure by itself. */
  method Evaluate(round1: Rounding, manifest: Option<Manifest>, result: map<string, Value>) returns (report: Report)
    requires manifest.Some? ==> DistinctKeys(manifest.value)
    ensures report == NoMapping <==> manifest == None
    ensures report == Exception <==> manifest.Some? && SomeKeyRaises(round1, result, manifest.value)
    ensures report.Report? ==>
              && manifest.Some? && JudgedAlone(round1, result, manifest.value, report.evaluations)
              && report.failures == FailuresOf(manifest.value, report.evaluations)
  {
    if manifest == None {
      return NoMapping;
    }
    var m, metrics := manifest.value, MetricsOf(result);
    var failures: seq<Failure>, evaluations: map<string, Evaluation> := [], map[];
    var k := 0;
    while k < |m|
      invariant 0 <= k <= |m|
      invariant OnlyStored(m[..k], MetricsOf(result), metrics)
      invariant JudgedAlone(round1, result, m[..k], evaluations)
      invariant failures == FailuresOf(m[..k], evaluations)
    {
      var (key, spec) := m[k];
      ghost var before := metrics;
      var judged;
      judged, metrics := JudgeKey(round1, result, metrics, key, spec);
      OneMoreKey(round1, result, m, k, evaluations, before, judged, metrics);
      if judged == None {
        return Exception;
      }
      evaluations := evaluations[key := judged.value];
      if judged.value.status != Pass {
        failures := failures + [Failure(key, judged.value.status)];
      }
      k := k + 1;
    }
    assert m[..k] == m;
    return Report(failures, evaluations);
  }

  // ----- what the result means -----

  /** The evaluation stored for each key of the manifest tells what was measured for it. */
  lemma EvaluatedFits(
    round1: Rounding, m: Manifest, result: map<string, Value>, evaluations: map<string, Evaluation>, i: nat)
    requires JudgedAlone(round1, result, m, evaluations) && i < |m|
    ensures m[i].0 in evaluations
    ensures var e := evaluations[m[i].0];
            if !m[i].1.Obj? then e.status == InvalidSpecification
            else
              var measured := Measured(round1, result, m[i].0);
              && StatusFits(e.status, measured, Get(m[i].1.fields, "target"), Get(m[i].1.fields, "operator"))
              && e.observed == FiniteNumber(measured)
  {
    JudgedFits(round1, result, m[i].0, m[i].1, evaluations[m[i].0]);
  }

  /** A throughput with no stored value is the dataset's count over the seconds of the cold scan, and
      passes exactly when that stands in the operator's relation to the target. */
  lemma ThroughputEvaluated(
    round1: Rounding, m: Manifest, result: map<string, Value>, evaluations: map<string, Evaluation>, i: nat,
    count: int, seconds: real)
    requires JudgedAlone(round1, result, m, evaluations) && i < |m| && m[i].0 == THROUGHPUT && m[i].1.Obj?
    requires Get(MetricsOf(result), THROUGHPUT) == Null && Get(result, THROUGHPUT) == Null
    requires Get(MetricsOf(result), "cold_scan_s") == Float(Some(seconds)) && seconds > 0.0
    requires Get(result, "dataset").Obj? && Get(Get(result, "dataset").fields, "count") == Int(count)
    requires !Overflows(count)
    ensures THROUGHPUT in evaluations
    ensures var e, rate := evaluations[THROUGHPUT], round1(count as real / seconds);
            && e.observed == rate
            && (e.status == Pass <==>
                 && rate.Some? && FiniteNumber(Get(m[i].1.fields, "target")).Some?
                 && Relates(Get(m[i].1.fields, "operator"), rate.value,
                            FiniteNumber(Get(m[i].1.fields, "target")).value))
  {
    EvaluatedFits(round1, m, result, evaluations, i);
    FirstOf(Null, Null, Null);
    assert Measured(round1, result, THROUGHPUT) == Float(round1(count as real / seconds));
  }

  /** The failures come in the order of the manifest. */
  lemma {:induction false} FailuresInOrder(m: Manifest, n: Manifest, evaluations: map<string, Evaluation>)
    ensures FailuresOf(m + n, evaluations) == FailuresOf(m, evaluations) + FailuresOf(n, evaluations)
  {
    if n == [] {
      assert m + n == m;
    } else {
      var last := |n| - 1;
      FailuresInOrder(m, n[..last], evaluations);
      assert (m + n)[..|m + n| - 1] == m + n[..last];
    }
  }

  lemma FailureOfOne(key: string, spec: Value, evaluations: map<string, Evaluation>)
    requires key in evaluations
    ensures FailuresOf([(key, spec)], evaluations) ==
            if evaluations[key].status == Pass then [] else [Failure(key, evaluations[key].status)]
    ensures FailuresOf([], evaluations) == []
  {
    assert [(key, spec)][..0] == [];
  }

  lemma {:induction false} FailuresCount(m: Manifest, evaluations: map<string, Evaluation>, f: Failure)
    requires DistinctKeys(m)
    ensures multiset(FailuresOf(m, evaluations))[f] ==
            if Lists(m, f.key) && f.key in evaluations && evaluations[f.key].status == f.status != Pass then 1 else 0
  {
    if m != [] {
      LastKey(m);
      FailuresCount(m[..|m| - 1], evaluations, f);
    }
  }

  /** Exactly one failure per key that did not pass, and none without such a key. */
  lemma OneFailurePerKey(
    round1: Rounding, m: Manifest, result: map<string, Value>, evaluations: map<string, Evaluation>, f: Failure)
    requires DistinctKeys(m) && JudgedAlone(round1, result, m, evaluations)
    ensures multiset(FailuresOf(m, evaluations))[f] ==
            if f.key in evaluations && evaluations[f.key].status == f.status != Pass then 1 else 0
  {
    FailuresCount(m, evaluations, f);
  }

  /** Sound and complete: there is no failure exactly when every key of the manifest is met. */
  lemma NoFailureIff(
    round1: Rounding, m: Manifest, result: map<string, Value>, evaluations: map<string, Evaluation>)
    requires DistinctKeys(m) && JudgedAlone(round1, result, m, evaluations)
    ensures FailuresOf(m, evaluations) == []
       <==> forall i | 0 <= i < |m| :: Meets(round1, result, m[i].0, m[i].1)
  {
    forall i | 0 <= i < |m|
      ensures Meets(round1, result, m[i].0, m[i].1) <==> evaluations[m[i].0].status == Pass
    {
      PassMeansMeets(round1, result, m[i].0, m[i].1);
    }
    if i :| 0 <= i < |m| && evaluations[m[i].0].status != Pass {
      FailuresCount(m, evaluations, Failure(m[i].0, evaluations[m[i].0].status));
    } else if FailuresOf(m, evaluations) != [] {
      var f := FailuresOf(m, evaluations)[0];
      assert f in multiset(FailuresOf(m, evaluations));
      FailuresCount(m, evaluations, f);
    }
  }

  lemma JudgedAlike(
    round1: Rounding, m: Manifest, n: Manifest, result: map<string, Value>,
    e: map<string, Evaluation>, f: map<string, Evaluation>, key: string)
    requires multiset(m) == multiset(n) && key in e
    requires JudgedAlone(round1, result, m, e) && JudgedAlone(round1, result, n, f)
    ensures key in f && e[key] == f[key]
  {
    var i :| 0 <= i < |m| && m[i].0 == key;
    assert m[i] in multiset(n);
    var j :| 0 <= j < |n| && n[j] == m[i];
  }

  /** The order of the manifest does not matter: two listings of the same specifications are
      evaluated alike and have the same failures up to order. */
  lemma OrderDoesNotMatter(
    round1: Rounding, m: Manifest, n: Manifest, result: map<string, Value>,
    e: map<string, Evaluation>, f: map<string, Evaluation>)
    requires DistinctKeys(m) && DistinctKeys(n) && multiset(m) == multiset(n)
    requires JudgedAlone(round1, result, m, e) && JudgedAlone(round1, result, n, f)
    ensures e == f && multiset(FailuresOf(m, e)) == multiset(FailuresOf(n, f))
  {
    forall key | key in e ensures key in f && e[key] == f[key] {
      JudgedAlike(round1, m, n, result, e, f, key);
    }
    forall key | key in f ensures key in e {
      JudgedAlike(round1, n, m, result, f, e, key);
    }
    assert e == f;
    forall x: Failure ensures multiset(FailuresOf(m, e))[x] == multiset(FailuresOf(n, f))[x] {
      OneFailurePerKey(round1, m, result, e, x);
      OneFailurePerKey(round1, n, result, f, x);
    }
  }
}
