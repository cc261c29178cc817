/**
 Alert rules (internal/alerting/rules.go) and the engine that evaluates them against
 each batch of metrics (internal/alerting/engine.go). Times and durations are
 nanoseconds; the clock is an input.
 */
module Alerting {
  import opened Wrappers
  import opened Metrics

  // ---- One rule: its state machine and what it means over a history ----

  datatype State = OK | Pending | Firing

  /** One evaluation of a rule: whether its condition was met, and when. */
  datatype Tick = Tick(met: bool, at: int)

  /** The zero time stands for "not triggered". */
  const NEVER: int := 0

  datatype Phase = Phase(state: State, triggeredAt: int)

  const INITIAL := Phase(OK, NEVER)

  /** EvaluatedRule.ConditionMet. */
  function Next(d: int, p: Phase, t: Tick): Phase {
    match p.state
    case OK =>
      if !t.met then p else if d == 0 then p.(state := Firing) else Phase(Pending, t.at)
    case Pending =>
      if !t.met then INITIAL else if t.at - p.triggeredAt >= d then p.(state := Firing) else p
    case Firing =>
      if !t.met then INITIAL else p
  }

  function After(d: int, h: seq<Tick>): Phase {
    if h == [] then INITIAL else Next(d, After(d, h[..|h| - 1]), h[|h| - 1])
  }

  /** Where the unbroken met run at the end of the history starts. */
  function RunStart(h: seq<Tick>): (s: nat)
    ensures s <= |h|
    ensures forall i :: s <= i < |h| ==> h[i].met
    ensures s > 0 ==> !h[s - 1].met
  {
    if h == [] || !h[|h| - 1].met then |h| else RunStart(h[..|h| - 1])
  }

  /** Some evaluation after `s` came `d` or more after the one at `s`. */
  ghost predicate Elapsed(d: int, h: seq<Tick>, s: nat) {
    exists i :: s < i < |h| && h[i].at - h[s].at >= d
  }

  /** The current run has lasted `d` at one of its later evaluations. */
  ghost predicate Matured(d: int, h: seq<Tick>) {
    Elapsed(d, h, RunStart(h))
  }

  lemma ElapsedNext(d: int, g: seq<Tick>, t: Tick, s: nat)
    ensures Elapsed(d, g + [t], s) <==> Elapsed(d, g, s) || (s < |g| && t.at - g[s].at >= d)
  {
    var h := g + [t];
    assert forall i :: 0 <= i < |g| ==> h[i] == g[i];
    if Elapsed(d, g, s) {
      var i :| s < i < |g| && g[i].at - g[s].at >= d;
      assert h[i].at - h[s].at >= d;
    }
    if s < |g| && t.at - g[s].at >= d {
      assert h[|g|].at - h[s].at >= d;
    }
  }

  /** The complete law, for every duration and every order of times. */
  lemma {:induction false} PhaseLaw(d: int, h: seq<Tick>)
    ensures var s, p := RunStart(h), After(d, h);
            && (p.state == OK <==> s == |h|)
            && (p.state == Firing <==> s < |h| && (d == 0 || Matured(d, h)))
            && (p.state == Pending ==> p.triggeredAt == h[s].at)
    decreases |h|
  {
    if h != [] {
      var n := |h| - 1;
      PhaseLaw(d, h[..n]);
      assert h == h[..n] + [h[n]];
      ElapsedNext(d, h[..n], h[n], RunStart(h));
    }
  }

  predicate Ordered(h: seq<Tick>) {
    forall i, j :: 0 <= i <= j < |h| ==> h[i].at <= h[j].at
  }

  /** The last evaluation was met, and `d` or more has passed since the run it ends began. */
  predicate Due(d: int, h: seq<Tick>) {
    h != [] && h[|h| - 1].met && h[|h| - 1].at - h[RunStart(h)].at >= d
  }

  lemma TraceLaw(d: int, h: seq<Tick>)
    requires Ordered(h) && d >= 0
    ensures After(d, h).state == Firing <==> Due(d, h)
  {
    PhaseLaw(d, h);
    var s := RunStart(h);
    if Matured(d, h) {
      var i :| s < i < |h| && h[i].at - h[s].at >= d;
      assert h[i].at <= h[|h| - 1].at;
    }
  }

  /** A negative duration, which the rule parser lets through, fires one evaluation late. */
  lemma NegativeDuration(d: int, h: seq<Tick>)
    requires Ordered(h) && d < 0
    ensures After(d, h).state == Firing <==> RunStart(h) + 1 < |h|
  {
    PhaseLaw(d, h);
    var s := RunStart(h);
    if s + 1 < |h| {
      assert h[s].at <= h[s + 1].at;
    }
  }

  /** The trace law holds of every history exactly when the duration is not negative. */
  lemma TraceLawExactly(d: int)
    ensures (forall h :: Ordered(h) ==> (After(d, h).state == Firing <==> Due(d, h))) <==> d >= 0
  {
    if d >= 0 {
      forall h | Ordered(h) ensures After(d, h).state == Firing <==> Due(d, h) {
        TraceLaw(d, h);
      }
    } else {
      var h := [Tick(true, 0)];
      NegativeDuration(d, h);
      assert h[..0] == [] && RunStart(h) == 0;
      assert Ordered(h) && Due(d, h);
    }
  }

  // ---- Alerts: the rising edges ----

  predicate AlertAt(d: int, h: seq<Tick>, i: nat)
    requires i < |h|
  {
    After(d, h[..i + 1]).state == Firing && After(d, h[..i]).state != Firing
  }

  lemma {:induction false} StaysFiring(d: int, h: seq<Tick>, i: nat, j: nat)
    requires i <= j <= |h| && After(d, h[..i]).state == Firing
    requires forall k :: i <= k < j ==> h[k].met
    ensures After(d, h[..j]).state == Firing
    decreases j
  {
    if i < j {
      StaysFiring(d, h, i, j - 1);
      assert h[..j][..j - 1] == h[..j - 1];
    }
  }

  /** Between two alerts of one rule there is an unmet evaluation. */
  lemma AlertsSeparated(d: int, h: seq<Tick>, i: nat, j: nat)
    requires i < j < |h| && AlertAt(d, h, i) && AlertAt(d, h, j)
    ensures exists k :: i < k < j && !h[k].met
  {
    if forall k :: i < k < j ==> h[k].met {
      StaysFiring(d, h, i + 1, j);
    }
  }

  /** In an unbroken met run the alert comes at the first evaluation that is due, and only there. */
  lemma AlertLaw(d: int, h: seq<Tick>, i: nat)
    requires Ordered(h) && d >= 0 && i < |h|
    ensures AlertAt(d, h, i) <==> Due(d, h[..i + 1]) && !Due(d, h[..i])
  {
    TraceLaw(d, h[..i + 1]);
    TraceLaw(d, h[..i]);
  }

  // ---- Conditions and the value map ----

  datatype Condition = Condition(metric: string, operator: string, threshold: real)

  predicate Satisfied(c: Condition, v: real) {
    match c.operator
    case ">" => v > c.threshold
    case "<" => v < c.threshold
    case ">=" => v >= c.threshold
    case "<=" => v <= c.threshold
    case "==" => v == c.threshold
    case "!=" => v != c.threshold
    case _ => false
  }

  /** What the operators mean, each by its neighbours; any other operator is never satisfied. */
  lemma OperatorLaws(metric: string, t: real, v: real, w: real, op: string)
    ensures Satisfied(Condition(metric, ">", t), v) <==> !Satisfied(Condition(metric, "<=", t), v)
    ensures Satisfied(Condition(metric, "<", t), v) <==> !Satisfied(Condition(metric, ">=", t), v)
    ensures Satisfied(Condition(metric, "==", t), v) <==> !Satisfied(Condition(metric, "!=", t), v)
    ensures v <= w && Satisfied(Condition(metric, ">", t), v) ==> Satisfied(Condition(metric, ">", t), w)
    ensures v <= w && Satisfied(Condition(metric, ">=", t), v) ==> Satisfied(Condition(metric, ">=", t), w)
    ensures v > t <==> Satisfied(Condition(metric, ">", t), v)
    ensures v < t <==> Satisfied(Condition(metric, "<", t), v)
    ensures Satisfied(Condition(metric, op, t), t) <==> op in [">=", "<=", "=="]
    ensures op !in [">", "<", ">=", "<=", "==", "!="] ==> !Satisfied(Condition(metric, op, t), v)
  {}

  function Number(v: FieldValue): Option<real> {
    match v
    case Float64(r) => Some(r)
    case Int64(i) => Some(i as real)
    case PlainInt(n) => Some(n as real)
    case _ => None
  }

  function KeyOf(name: string, field: string): string {
    name + "_" + field
  }

  /** What a metric says about a key, counting only the fields in `ks`. */
  function Reading(m: Metric, ks: set<string>, key: string): Option<real> {
    var n := |m.name| + 1;
    if n <= |key| && key[..n] == m.name + "_" && key[n..] in ks && key[n..] in m.fields then Number(m.fields[key[n..]])
    else None
  }

  /** The last metric with a number under that key decides. */
  function LastReading(metrics: seq<Metric>, key: string): Option<real> {
    if metrics == [] then None
    else
      var m := metrics[|metrics| - 1];
      Over(Reading(m, m.fields.Keys, key), LastReading(metrics[..|metrics| - 1], key))
  }

  function Over(a: Option<real>, b: Option<real>): Option<real> {
    if a.Some? then a else b
  }

  function Lookup(values: map<string, real>, key: string): Option<real> {
    if key in values then Some(values[key]) else None
  }

  ghost predicate Covers(values: map<string, real>, base: map<string, real>, m: Metric, ks: set<string>) {
    forall key :: Lookup(values, key) == Over(Reading(m, ks, key), Lookup(base, key))
  }

  ghost predicate Reads(values: map<string, real>, metrics: seq<Metric>) {
    forall key :: Lookup(values, key) == LastReading(metrics, key)
  }

  lemma KeySplits(name: string, field: string, key: string)
    ensures key == KeyOf(name, field) <==> |name| < |key| && key[..|name| + 1] == name + "_" && key[|name| + 1..] == field
  {}

  /** One more field of a metric goes into the map. */
  lemma CoversStep(values: map<string, real>, base: map<string, real>, m: Metric, ks: set<string>, k: string, next: map<string, real>)
    requires Covers(values, base, m, ks) && k in m.fields
    requires next == match Number(m.fields[k]) case Some(v) => values[KeyOf(m.name, k) := v] case None => values
    ensures Covers(next, base, m, ks + {k})
  {
    var more := ks + {k};
    forall key ensures Lookup(next, key) == Over(Reading(m, more, key), Lookup(base, key)) {
      assert Lookup(values, key) == Over(Reading(m, ks, key), Lookup(base, key));
      KeySplits(m.name, k, key);
    }
  }

  /** The last metric's own numbers are found under "<name>_<field>"; under any other key the earlier metrics decide. */
  lemma LastReadingLaw(metrics: seq<Metric>, m: Metric, field: string, key: string)
    ensures field in m.fields ==>
              match m.fields[field]
              case Float64(r) => LastReading(metrics + [m], m.name + "_" + field) == Some(r)
              case Int64(i) => LastReading(metrics + [m], m.name + "_" + field) == Some(i as real)
              case PlainInt(n) => LastReading(metrics + [m], m.name + "_" + field) == Some(n as real)
              case _ => LastReading(metrics + [m], m.name + "_" + field) == LastReading(metrics, m.name + "_" + field)
    ensures (forall f :: f in m.fields ==> key != m.name + "_" + f) ==> LastReading(metrics + [m], key) == LastReading(metrics, key)
    ensures LastReading([], key) == None
  {
    assert (metrics + [m])[..|metrics|] == metrics;
    KeySplits(m.name, field, m.name + "_" + field);
    if |m.name| < |key| {
      KeySplits(m.name, key[|m.name| + 1..], key);
    }
  }

  method ReadMetric(base: map<string, real>, m: Metric) returns (values: map<string, real>)
    ensures Covers(values, base, m, m.fields.Keys)
  {
    hide Covers;
    values := base;
    var todo := m.fields.Keys;
    CoversNone(base, m);
    assert m.fields.Keys - todo == {};
    while todo != {}
      invariant todo <= m.fields.Keys && Covers(values, base, m, m.fields.Keys - todo)
      decreases todo
    {
      ghost var before := values;
      var k :| k in todo;
      match Number(m.fields[k]) {
        case Some(v) => values := values[KeyOf(m.name, k) := v];
        case None =>
      }
      CoversStep(before, base, m, m.fields.Keys - todo, k, values);
      assert m.fields.Keys - todo + {k} == m.fields.Keys - (todo - {k});
      todo := todo - {k};
    }
    assert m.fields.Keys - todo == m.fields.Keys;
  }

  lemma CoversNone(base: map<string, real>, m: Metric)
    ensures Covers(base, base, m, {})
  {}

  method ReadMetrics(metrics: seq<Metric>) returns (values: map<string, real>)
    ensures Reads(values, metrics)
  {
    values := map[];
    for i := 0 to |metrics|
      invariant Reads(values, metrics[..i])
    {
      var base := values;
      values := ReadMetric(base, metrics[i]);
      ReadsStep(base, values, metrics, i);
    }
    assert metrics[..|metrics|] == metrics;
  }

  lemma ReadsStep(base: map<string, real>, values: map<string, real>, metrics: seq<Metric>, i: nat)
    requires i < |metrics| && Reads(base, metrics[..i]) && Covers(values, base, metrics[i], metrics[i].fields.Keys)
    ensures Reads(values, metrics[..i + 1])
  {
    var more := metrics[..i + 1];
    assert more[..i] == metrics[..i];
    forall key ensures Lookup(values, key) == LastReading(more, key) {
      assert Lookup(base, key) == LastReading(metrics[..i], key);
    }
  }

  // ---- The engine ----

  datatype RuleSpec = RuleSpec(name: string, condition: Condition, severity: string, duration: int)

  /** One call of Evaluate. */
  datatype Round = Round(metrics: seq<Metric>, now: int)

  datatype Alert = Alert(name: string, state: State, severity: string, currentValue: real, threshold: real)

  /** A missing metric counts as unmet. */
  function TickOf(c: Condition, reading: Option<real>, now: int): Tick {
    Tick(reading.Some? && Satisfied(c, reading.value), now)
  }

  function ReadingIn(c: Condition, round: Round): Option<real> {
    LastReading(round.metrics, c.metric)
  }

  function Ticks(c: Condition, rounds: seq<Round>): (h: seq<Tick>)
    ensures |h| == |rounds|
    ensures forall i :: 0 <= i < |rounds| ==> h[i] == TickOf(c, ReadingIn(c, rounds[i]), rounds[i].now)
  {
    seq(|rounds|, i requires 0 <= i < |rounds| => TickOf(c, ReadingIn(c, rounds[i]), rounds[i].now))
  }

  /** The value the rule saw last, kept over rounds that lack the metric. */
  function LastSeen(c: Condition, rounds: seq<Round>): real {
    if rounds == [] then 0.0
    else
      match ReadingIn(c, rounds[|rounds| - 1])
      case Some(v) => v
      case None => LastSeen(c, rounds[..|rounds| - 1])
  }

  /** The alert a rule raises in the last of the rounds, if any. */
  function AlertIn(spec: RuleSpec, rounds: seq<Round>): seq<Alert>
    requires rounds != []
  {
    if AlertAt(spec.duration, Ticks(spec.condition, rounds), |rounds| - 1)
    then [Alert(spec.name, Firing, spec.severity, LastSeen(spec.condition, rounds), spec.condition.threshold)]
    else []
  }

  function AlertsIn(specs: seq<RuleSpec>, rounds: seq<Round>): seq<Alert>
    requires rounds != []
  {
    if specs == [] then []
    else AlertsIn(specs[..|specs| - 1], rounds) + AlertIn(specs[|specs| - 1], rounds)
  }

  /** Alerts come in rule order. */
  lemma {:induction false} AlertsInRuleOrder(first: seq<RuleSpec>, second: seq<RuleSpec>, rounds: seq<Round>)
    requires rounds != []
    ensures AlertsIn(first + second, rounds) == AlertsIn(first, rounds) + AlertsIn(second, rounds)
    decreases |second|
  {
    hide AlertIn;
    if second == [] {
      assert first + second == first;
    } else {
      var n := |second| - 1;
      assert (first + second)[..|first| + n] == first + second[..n];
      AlertsInRuleOrder(first, second[..n], rounds);
    }
  }

  lemma OneRuleAlerts(spec: RuleSpec, rounds: seq<Round>)
    requires rounds != []
    ensures AlertsIn([spec], rounds) == AlertIn(spec, rounds)
  {
    hide AlertIn;
    assert [spec][..0] == [];
  }

  /** Everything a rule remembers. */
  datatype Memory = Memory(phase: Phase, currentValue: real)

  function MemoryAfter(spec: RuleSpec, rounds: seq<Round>): Memory {
    Memory(After(spec.duration, Ticks(spec.condition, rounds)), LastSeen(spec.condition, rounds))
  }

  /** One rule in one round, against its own memory. */
  function Checked(spec: RuleSpec, mem: Memory, reading: Option<real>, now: int): Memory {
    Memory(Next(spec.duration, mem.phase, TickOf(spec.condition, reading, now)),
           if reading.Some? then reading.value else mem.currentValue)
  }

  function Raised(spec: RuleSpec, before: Memory, after: Memory): seq<Alert> {
    if after.phase.state == Firing && before.phase.state != Firing
    then [Alert(spec.name, Firing, spec.severity, after.currentValue, spec.condition.threshold)]
    else []
  }

  lemma CheckedIsNext(spec: RuleSpec, rounds: seq<Round>, round: Round)
    ensures var more := rounds + [round];
            && MemoryAfter(spec, more) == Checked(spec, MemoryAfter(spec, rounds), ReadingIn(spec.condition, round), round.now)
            && AlertIn(spec, more) == Raised(spec, MemoryAfter(spec, rounds), MemoryAfter(spec, more))
  {
    var more := rounds + [round];
    var h := Ticks(spec.condition, more);
    assert more[..|rounds|] == rounds;
    assert h[..|rounds|] == Ticks(spec.condition, rounds) && h[..|rounds| + 1] == h;
  }

  lemma TicksOfPrefix(c: Condition, feed: seq<Round>, n: nat)
    requires n <= |feed|
    ensures Ticks(c, feed[..n]) == Ticks(c, feed)[..n]
  {}

  /** Over any feed, two alerts of one rule have between them a round where its metric is missing or its condition false. */
  lemma RaisedSeparated(spec: RuleSpec, feed: seq<Round>, i: nat, j: nat)
    requires i < j < |feed| && AlertIn(spec, feed[..i + 1]) != [] && AlertIn(spec, feed[..j + 1]) != []
    ensures exists k :: i < k < j && !TickOf(spec.condition, ReadingIn(spec.condition, feed[k]), feed[k].now).met
  {
    var h := Ticks(spec.condition, feed);
    AlertInFeed(spec, feed, i);
    AlertInFeed(spec, feed, j);
    AlertsSeparated(spec.duration, h, i, j);
    var k :| i < k < j && !h[k].met;
    assert !TickOf(spec.condition, ReadingIn(spec.condition, feed[k]), feed[k].now).met;
  }

  lemma AlertInFeed(spec: RuleSpec, feed: seq<Round>, i: nat)
    requires i < |feed|
    ensures AlertIn(spec, feed[..i + 1]) != [] <==> AlertAt(spec.duration, Ticks(spec.condition, feed), i)
  {
    var h := Ticks(spec.condition, feed);
    TicksOfPrefix(spec.condition, feed, i + 1);
    assert h[..i + 1][..i] == h[..i] && h[..i + 1][..i + 1] == h[..i + 1];
  }

  /** A round without the metric clears the rule; an alert says why: the reading that met the condition. */
  lemma AlertSaysWhy(spec: RuleSpec, rounds: seq<Round>)
    requires rounds != []
    ensures var reading := LastReading(rounds[|rounds| - 1].metrics, spec.condition.metric);
            && (reading.None? ==> MemoryAfter(spec, rounds).phase.state == OK && AlertIn(spec, rounds) == [])
            && MemoryAfter(spec, rounds).currentValue ==
               (if reading.Some? then reading.value else MemoryAfter(spec, rounds[..|rounds| - 1]).currentValue)
            && (AlertIn(spec, rounds) != [] ==>
                  && reading.Some? && Satisfied(spec.condition, reading.value)
                  && AlertIn(spec, rounds) ==
                     [Alert(spec.name, Firing, spec.severity, reading.value, spec.condition.threshold)])
  {
    var n := |rounds| - 1;
    var h := Ticks(spec.condition, rounds);
    assert h[..n + 1] == h;
    assert h[n] == TickOf(spec.condition, ReadingIn(spec.condition, rounds[n]), rounds[n].now);
  }

  /** The rule met its condition in this round. */
  predicate MetIn(c: Condition, round: Round) {
    var reading := LastReading(round.metrics, c.metric);
    reading.Some? && Satisfied(c, reading.value)
  }

  /**
   Over rounds in time order, a rule of duration d >= 0 is firing exactly when some run of
   rounds up to the last one all met the condition and spans d or more.
   */
  lemma FiringOverRounds(spec: RuleSpec, rounds: seq<Round>)
    requires spec.duration >= 0
    requires forall i, j :: 0 <= i <= j < |rounds| ==> rounds[i].now <= rounds[j].now
    ensures MemoryAfter(spec, rounds).phase.state == Firing <==>
            exists s :: 0 <= s < |rounds| && rounds[|rounds| - 1].now - rounds[s].now >= spec.duration &&
                        forall i :: s <= i < |rounds| ==> MetIn(spec.condition, rounds[i])
  {
    var h := Ticks(spec.condition, rounds);
    assert forall i :: 0 <= i < |rounds| ==> h[i].at == rounds[i].now && (h[i].met <==> MetIn(spec.condition, rounds[i]));
    TraceLaw(spec.duration, h);
    var r := RunStart(h);
    if s :| 0 <= s < |rounds| && rounds[|rounds| - 1].now - rounds[s].now >= spec.duration &&
            forall i :: s <= i < |rounds| ==> MetIn(spec.condition, rounds[i])
    {
      assert h[|h| - 1].met;
      assert r <= s;
    }
  }

  class EvaluatedRule {
    const spec: RuleSpec
    var state: State
    var triggeredAt: int
    var currentValue: real

    function View(): Memory
      reads this
    {
      Memory(Phase(state, triggeredAt), currentValue)
    }

    constructor (spec: RuleSpec)
      ensures this.spec == spec && View() == MemoryAfter(spec, [])
    {
      this.spec, state, triggeredAt, currentValue := spec, OK, NEVER, 0.0;
    }

    method ConditionMet(met: bool, now: int)
      modifies this`state, this`triggeredAt
      ensures View() == old(View()).(phase := Next(spec.duration, old(View()).phase, Tick(met, now)))
    {
      match state {
        case OK =>
          if met {
            if spec.duration == 0 {
              state := Firing;
            } else {
              state := Pending;
              triggeredAt := now;
            }
          }
        case Pending =>
          if !met {
            state := OK;
            triggeredAt := NEVER;
          } else if now - triggeredAt >= spec.duration {
            state := Firing;
          }
        case Firing =>
          if !met {
            state := OK;
            triggeredAt := NEVER;
          }
      }
    }

    /** The body of the engine's loop over its rules. */
    method Check(values: map<string, real>, now: int) returns (alerts: seq<Alert>)
      modifies this
      ensures View() == Checked(spec, old(View()), Lookup(values, spec.condition.metric), now)
      ensures alerts == Raised(spec, old(View()), View())
    {
      var prevState := state;
      if spec.condition.metric !in values {
        ConditionMet(false, now);
        return [];
      }
      currentValue := values[spec.condition.metric];
      var met := Satisfied(spec.condition, currentValue);
      ConditionMet(met, now);
      if state == Firing && prevState != Firing {
        return [Alert(spec.name, Firing, spec.severity, currentValue, spec.condition.threshold)];
      }
      return [];
    }
  }

  class Engine {
    const rules: seq<EvaluatedRule>
    const specs: seq<RuleSpec>
    ghost var rounds: seq<Round>

    /** Every rule remembers exactly what the rounds so far imply. */
    ghost predicate Valid()
      reads this, rules
    {
      && |rules| == |specs|
      && (forall i :: 0 <= i < |rules| ==> rules[i].spec == specs[i])
      && (forall i, j :: 0 <= i < j < |rules| ==> rules[i] != rules[j])
      && (forall i :: 0 <= i < |rules| ==> rules[i].View() == MemoryAfter(specs[i], rounds))
    }

    constructor (specs: seq<RuleSpec>)
      ensures Valid() && fresh(rules) && this.specs == specs && rounds == []
    {
      var made: seq<EvaluatedRule> := [];
      for i := 0 to |specs|
        invariant |made| == i && fresh(made)
        invariant forall k :: 0 <= k < i ==> made[k].spec == specs[k] && made[k].View() == MemoryAfter(specs[k], [])
        invariant forall k, l :: 0 <= k < l < i ==> made[k] != made[l]
      {
        var rule := new EvaluatedRule(specs[i]);
        made := made + [rule];
      }
      rules, this.specs, rounds := made, specs, [];
    }

    /** Raises, in rule order, exactly the alerts whose rising edge is this round. */
    method Evaluate(metrics: seq<Metric>, now: int) returns (alerts: seq<Alert>)
      requires Valid()
      modifies this, rules
      ensures Valid() && rounds == old(rounds) + [Round(metrics, now)]
      ensures alerts == AlertsIn(specs, rounds)
    {
      hide MemoryAfter, AlertIn, Checked, Raised;
      var values := ReadMetrics(metrics);
      ghost var round := Round(metrics, now);
      ghost var more := rounds + [round];
      alerts := [];
      for i := 0 to |rules|
        invariant rounds == old(rounds) && |rules| == |specs|
        invariant forall k :: 0 <= k < |rules| ==> rules[k].View() == MemoryAfter(specs[k], if k < i then more else rounds)
        invariant alerts == AlertsIn(specs[..i], more)
      {
        assert Lookup(values, specs[i].condition.metric) == ReadingIn(specs[i].condition, round);
        var raised := rules[i].Check(values, now);
        CheckedIsNext(specs[i], rounds, round);
        assert specs[..i + 1][..i] == specs[..i];
        alerts := alerts + raised;
      }
      assert specs[..|specs|] == specs;
      rounds := more;
    }
  }

  /** A whole run: every round's alerts, from the feed alone. */
  method Watch(specs: seq<RuleSpec>, feed: seq<Round>) returns (raised: seq<seq<Alert>>)
    ensures |raised| == |feed|
    ensures forall i :: 0 <= i < |feed| ==> raised[i] == AlertsIn(specs, feed[..i + 1])
  {
    hide AlertsIn, MemoryAfter;
    var engine := new Engine(specs);
    raised := [];
    for i := 0 to |feed|
      invariant engine.Valid() && fresh(engine) && fresh(engine.rules) && engine.specs == specs && engine.rounds == feed[..i]
      invariant |raised| == i && forall k :: 0 <= k < i ==> raised[k] == AlertsIn(specs, feed[..k + 1])
    {
      var alerts := engine.Evaluate(feed[i].metrics, feed[i].now);
      assert feed[..i] + [feed[i]] == feed[..i + 1];
      raised := raised + [alerts];
    }
  }
}
