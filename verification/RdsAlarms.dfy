/** Generating the checks of an RDS instance: default thresholds from the instance class, overridden by the customer's
    CloudWatch alarms, plus one imported assertion per other alarm. Thresholds are reals. */
module RdsAlarms {

  datatype Dimension = Dimension(name: string, value: string)

  datatype Alarm = Alarm(
    namespace: string, metric: string, dimensions: seq<Dimension>, threshold: real, statistic: string,
    comparison: string)

  datatype Operand = Fixed(amount: real) | Whole(count: int)

  datatype Metric = Metric(namespace: string, name: string)

  datatype Assertion = Assertion(relationship: string, operand: Operand, value: string)

  const RDS := "AWS/RDS"
  const CPU := "CPUUtilization"
  const CONNECTIONS := "DatabaseConnections"
  const MEMORY := "FreeableMemory"
  const MAX_CONN_RATIO: real := 0.85
  const MIN_MEM_RATIO: real := 0.10
  const MAX_CPU_UTIL: real := 95.0

  // The memory of an instance class, in bytes

  function InstanceClassMemory(c: string): real {
    1_000_000_000.0 *
    if c == "db.t1.micro" then 0.615
    else if c == "db.m1.small" then 1.7
    else if c == "db.m4.large" then 8.0
    else if c == "db.m4.xlarge" then 16.0
    else if c == "db.m4.2xlarge" then 32.0
    else if c == "db.m4.4xlarge" then 64.0
    else if c == "db.m4.10xlarge" then 160.0
    else if c == "db.r3.large" then 15.0
    else if c == "db.r3.xlarge" then 30.5
    else if c == "db.r3.2xlarge" then 61.0
    else if c == "db.r3.4xlarge" then 122.0
    else if c == "db.r3.8xlarge" then 244.0
    else if c == "db.t2.micro" then 1.0
    else if c == "db.t2.small" then 2.0
    else if c == "db.t2.medium" then 4.0
    else if c == "db.t2.large" then 8.0
    else if c == "db.m3.medium" then 3.75
    else if c == "db.m3.large" then 7.5
    else if c == "db.m3.xlarge" then 15.0
    else if c == "db.m3.2xlarge" then 30.0
    else if c == "db.m2.xlarge" then 17.1
    else if c == "db.m2.2xlarge" then 34.2
    else if c == "db.m2.4xlarge" then 68.4
    else if c == "db.cr1.8xlarge" then 244.0
    else 0.0
  }

  function Relationship(comparison: string): string {
    if comparison == "GreaterThanOrEqualToThreshold" || comparison == "GreaterThanThreshold" then "greaterThan"
    else "lessThan"
  }

  // The specification

  predicate IsOf(d: Dimension, db: string) {
    d.name == "DBInstanceIdentifier" && d.value == db
  }

  /** How many of the alarm's dimensions name the instance. */
  function Hits(dims: seq<Dimension>, db: string): nat {
    if dims == [] then 0 else Hits(dims[..|dims| - 1], db) + if IsOf(dims[|dims| - 1], db) then 1 else 0
  }

  predicate Matches(a: Alarm, db: string) {
    a.namespace == RDS && Hits(a.dimensions, db) > 0
  }

  /** The threshold of the last matching alarm for a metric, or the default. */
  function LastThreshold(alarms: seq<Alarm>, db: string, metric: string, fallback: real): real {
    if alarms == [] then fallback
    else
      var last := alarms[|alarms| - 1];
      if Matches(last, db) && last.metric == metric then last.threshold
      else LastThreshold(alarms[..|alarms| - 1], db, metric, fallback)
  }

  function Repeat(a: Alarm, n: nat): seq<Alarm> {
    seq(n, i => a)
  }

  predicate IsDefaultMetric(metric: string) {
    metric == CPU || metric == CONNECTIONS || metric == MEMORY
  }

  /** The matching alarms on other metrics, in order, once per matching dimension. */
  function Imported(alarms: seq<Alarm>, db: string): seq<Alarm> {
    if alarms == [] then []
    else
      var last := alarms[|alarms| - 1];
      Imported(alarms[..|alarms| - 1], db) +
      if Matches(last, db) && !IsDefaultMetric(last.metric) then Repeat(last, Hits(last.dimensions, db)) else []
  }

  function Averages(alarms: seq<Alarm>): seq<Alarm> {
    if alarms == [] then []
    else
      var last := alarms[|alarms| - 1];
      Averages(alarms[..|alarms| - 1]) + if last.statistic == "Average" then [last] else []
  }

  function DefaultAssertions(cpu: real, connections: real, memory: real): seq<Assertion> {
    [Assertion("lessThan", Fixed(cpu), CPU)] +
    (if connections > 0.0 then [Assertion("lessThan", Whole(connections.Floor), CONNECTIONS)] else []) +
    (if memory > 0.0 then [Assertion("greaterThan", Fixed(memory), MEMORY)] else [])
  }

  function ImportedAssertions(alarms: seq<Alarm>): seq<Assertion> {
    seq(|alarms|, i requires 0 <= i < |alarms| =>
      Assertion(Relationship(alarms[i].comparison), Fixed(alarms[i].threshold), alarms[i].metric))
  }

  /** The assertions of an instance's check. */
  function Assertions(db: string, instanceClass: string, alarms: seq<Alarm>): seq<Assertion> {
    var memory := InstanceClassMemory(instanceClass);
    DefaultAssertions(
      LastThreshold(alarms, db, CPU, MAX_CPU_UTIL),
      LastThreshold(alarms, db, CONNECTIONS, memory / 12582880.0 * MAX_CONN_RATIO),
      LastThreshold(alarms, db, MEMORY, memory * MIN_MEM_RATIO)) +
    ImportedAssertions(Averages(Imported(alarms, db)))
  }

  // The generator

  ghost predicate Paired(metrics: seq<Metric>, assertions: seq<Assertion>) {
    |metrics| == |assertions| &&
    forall i | 0 <= i < |metrics| :: metrics[i] == Metric(RDS, assertions[i].value)
  }

  /** The metrics to collect and the assertions about them: always as many of one as of the other, about the same
      metric at each index. */
  method Generate(db: string, instanceClass: string, alarms: seq<Alarm>)
    returns (metrics: seq<Metric>, assertions: seq<Assertion>)
    ensures assertions == Assertions(db, instanceClass, alarms)
    ensures |assertions| > 0 && assertions[0] == Assertion("lessThan", Fixed(CPULimit(db, alarms)), "CPUUtilization")
    ensures |metrics| == |assertions|
    ensures forall i | 0 <= i < |metrics| :: metrics[i] == Metric("AWS/RDS", assertions[i].value)
  {
    DefaultsByPosition(db, instanceClass, alarms);
    hide InstanceClassMemory, LastThreshold, Imported, Averages;
    var maxCPU := MAX_CPU_UTIL;
    var maxConnections := InstanceClassMemory(instanceClass) / 12582880.0 * MAX_CONN_RATIO;
    var minFreeMem := InstanceClassMemory(instanceClass) * MIN_MEM_RATIO;
    var imported: seq<Alarm>;
    maxCPU, maxConnections, minFreeMem, imported := ReadAlarms(db, alarms, maxCPU, maxConnections, minFreeMem);
    metrics := [Metric(RDS, CPU)];
    assertions := [Assertion("lessThan", Fixed(maxCPU), CPU)];
    if maxConnections > 0.0 {
      metrics := metrics + [Metric(RDS, CONNECTIONS)];
      assertions := assertions + [Assertion("lessThan", Whole(maxConnections.Floor), CONNECTIONS)];
    }
    if minFreeMem > 0.0 {
      metrics := metrics + [Metric(RDS, MEMORY)];
      assertions := assertions + [Assertion("greaterThan", Fixed(minFreeMem), MEMORY)];
    }
    assert assertions == DefaultAssertions(maxCPU, maxConnections, minFreeMem);
    metrics, assertions := AddImported(metrics, assertions, imported);
  }

  /** The first loop: alarms on this instance override the defaults or are imported. */
  method ReadAlarms(db: string, alarms: seq<Alarm>, cpu: real, connections: real, memory: real)
    returns (maxCPU: real, maxConnections: real, minFreeMem: real, imported: seq<Alarm>)
    ensures maxCPU == LastThreshold(alarms, db, CPU, cpu)
    ensures maxConnections == LastThreshold(alarms, db, CONNECTIONS, connections)
    ensures minFreeMem == LastThreshold(alarms, db, MEMORY, memory)
    ensures imported == Imported(alarms, db)
  {
    maxCPU, maxConnections, minFreeMem, imported := cpu, connections, memory, [];
    for i := 0 to |alarms|
      invariant maxCPU == LastThreshold(alarms[..i], db, CPU, cpu)
      invariant maxConnections == LastThreshold(alarms[..i], db, CONNECTIONS, connections)
      invariant minFreeMem == LastThreshold(alarms[..i], db, MEMORY, memory)
      invariant imported == Imported(alarms[..i], db)
    {
      assert alarms[..i + 1][..i] == alarms[..i];
      if alarms[i].namespace != RDS {
        continue;
      }
      maxCPU, maxConnections, minFreeMem, imported :=
        ReadAlarm(db, alarms[i], maxCPU, maxConnections, minFreeMem, imported);
    }
    assert alarms[..|alarms|] == alarms;
  }

  /** The inner loop over one alarm's dimensions. */
  method ReadAlarm(db: string, alarm: Alarm, cpu: real, connections: real, memory: real, before: seq<Alarm>)
    returns (maxCPU: real, maxConnections: real, minFreeMem: real, imported: seq<Alarm>)
    ensures var hits := Hits(alarm.dimensions, db);
            && maxCPU == (if hits > 0 && alarm.metric == CPU then alarm.threshold else cpu)
            && maxConnections == (if hits > 0 && alarm.metric == CONNECTIONS then alarm.threshold else connections)
            && minFreeMem == (if hits > 0 && alarm.metric == MEMORY then alarm.threshold else memory)
            && imported == before + if IsDefaultMetric(alarm.metric) then [] else Repeat(alarm, hits)
  {
    maxCPU, maxConnections, minFreeMem, imported := cpu, connections, memory, before;
    for j := 0 to |alarm.dimensions|
      invariant var hits := Hits(alarm.dimensions[..j], db);
                && maxCPU == (if hits > 0 && alarm.metric == CPU then alarm.threshold else cpu)
                && maxConnections == (if hits > 0 && alarm.metric == CONNECTIONS then alarm.threshold else connections)
                && minFreeMem == (if hits > 0 && alarm.metric == MEMORY then alarm.threshold else memory)
                && imported == before + if IsDefaultMetric(alarm.metric) then [] else Repeat(alarm, hits)
    {
      var dim := alarm.dimensions[j];
      assert alarm.dimensions[..j + 1][..j] == alarm.dimensions[..j];
      if dim.name == "DBInstanceIdentifier" {
        if dim.value == db {
          if alarm.metric == CPU {
            maxCPU := alarm.threshold;
          } else if alarm.metric == CONNECTIONS {
            maxConnections := alarm.threshold;
          } else if alarm.metric == MEMORY {
            minFreeMem := alarm.threshold;
          } else {
            imported := imported + [alarm];
          }
        }
      }
    }
    assert alarm.dimensions[..|alarm.dimensions|] == alarm.dimensions;
  }

  /** The last loop: one assertion for each imported alarm on an average. */
  method AddImported(metrics0: seq<Metric>, assertions0: seq<Assertion>, imported: seq<Alarm>)
    returns (metrics: seq<Metric>, assertions: seq<Assertion>)
    requires Paired(metrics0, assertions0)
    ensures assertions == assertions0 + ImportedAssertions(Averages(imported))
    ensures Paired(metrics, assertions)
  {
    metrics, assertions := metrics0, assertions0;
    for i := 0 to |imported|
      invariant assertions == assertions0 + ImportedAssertions(Averages(imported[..i]))
      invariant Paired(metrics, assertions)
    {
      var alarm := imported[i];
      assert imported[..i + 1][..i] == imported[..i];
      if alarm.statistic != "Average" {
        continue;
      }
      metrics := metrics + [Metric(RDS, alarm.metric)];
      assertions := assertions + [Assertion(Relationship(alarm.comparison), Fixed(alarm.threshold), alarm.metric)];
    }
    assert imported[..|imported|] == imported;
  }

  // Filtering by namespace

  method FilterAlarms(alarms: seq<Alarm>, namespace: string) returns (filtered: seq<Alarm>)
    ensures filtered == Filtered(alarms, namespace)
  {
    filtered := [];
    for i := 0 to |alarms|
      invariant filtered == Filtered(alarms[..i], namespace)
    {
      assert alarms[..i + 1][..i] == alarms[..i];
      if alarms[i].namespace == namespace {
        filtered := filtered + [alarms[i]];
      }
    }
    assert alarms[..|alarms|] == alarms;
  }

  function Filtered(alarms: seq<Alarm>, namespace: string): seq<Alarm> {
    if alarms == [] then []
    else
      Filtered(alarms[..|alarms| - 1], namespace) +
      if alarms[|alarms| - 1].namespace == namespace then [alarms[|alarms| - 1]] else []
  }

  lemma {:induction false} FilteringChangesNoThreshold(alarms: seq<Alarm>, db: string, metric: string, fallback: real)
    ensures LastThreshold(Filtered(alarms, RDS), db, metric, fallback) == LastThreshold(alarms, db, metric, fallback)
  {
    if alarms == [] {
    } else {
      var front, last := alarms[..|alarms| - 1], alarms[|alarms| - 1];
      FilteringChangesNoThreshold(front, db, metric, fallback);
      if last.namespace == RDS {
        assert Filtered(alarms, RDS)[..|Filtered(front, RDS)|] == Filtered(front, RDS);
      } else {
        assert Filtered(alarms, RDS) == Filtered(front, RDS);
      }
    }
  }

  lemma {:induction false} FilteringChangesNoImport(alarms: seq<Alarm>, db: string)
    ensures Imported(Filtered(alarms, RDS), db) == Imported(alarms, db)
  {
    if alarms == [] {
    } else {
      var front, last := alarms[..|alarms| - 1], alarms[|alarms| - 1];
      FilteringChangesNoImport(front, db);
      if last.namespace == RDS {
        assert Filtered(alarms, RDS)[..|Filtered(front, RDS)|] == Filtered(front, RDS);
      } else {
        assert Filtered(alarms, RDS) == Filtered(front, RDS);
      }
    }
  }

  /** Filtering the alarms by namespace first does not change the check. */
  lemma FilteringChangesNothing(db: string, instanceClass: string, alarms: seq<Alarm>)
    ensures Assertions(db, instanceClass, Filtered(alarms, RDS)) == Assertions(db, instanceClass, alarms)
  {
    hide InstanceClassMemory, LastThreshold, Imported, Averages, Filtered, DefaultAssertions;
    var memory := InstanceClassMemory(instanceClass);
    FilteringChangesNoThreshold(alarms, db, CPU, MAX_CPU_UTIL);
    FilteringChangesNoThreshold(alarms, db, CONNECTIONS, memory / 12582880.0 * MAX_CONN_RATIO);
    FilteringChangesNoThreshold(alarms, db, MEMORY, memory * MIN_MEM_RATIO);
    FilteringChangesNoImport(alarms, db);
  }

  /** The last matching alarm for a default metric wins, wherever it stands. */
  lemma {:induction false} LastMatchingAlarmWins(
    before: seq<Alarm>, a: Alarm, after: seq<Alarm>, db: string, fallback: real)
    requires Matches(a, db) && forall b | b in after :: !(Matches(b, db) && b.metric == a.metric)
    ensures LastThreshold(before + [a] + after, db, a.metric, fallback) == a.threshold
    decreases |after|
  {
    var alarms := before + [a] + after;
    if after == [] {
      assert alarms == before + [a];
    } else {
      var front := after[..|after| - 1];
      assert alarms[..|alarms| - 1] == before + [a] + front;
      assert after[|after| - 1] in after;
      LastMatchingAlarmWins(before, a, front, db, fallback);
    }
  }

  lemma {:induction false} ImportedConcat(a: seq<Alarm>, b: seq<Alarm>, db: string)
    ensures Imported(a + b, db) == Imported(a, db) + Imported(b, db)
  {
    if b == [] {
      assert a + b == a;
    } else {
      ImportedConcat(a, b[..|b| - 1], db);
      assert (a + b)[..|a + b| - 1] == a + b[..|b| - 1];
    }
  }

  lemma {:induction false} AveragesConcat(a: seq<Alarm>, b: seq<Alarm>)
    ensures Averages(a + b) == Averages(a) + Averages(b)
  {
    if b == [] {
      assert a + b == a;
    } else {
      AveragesConcat(a, b[..|b| - 1]);
      assert (a + b)[..|a + b| - 1] == a + b[..|b| - 1];
    }
  }

  /** Imported alarms keep their order: those of an earlier part of the list come before those of a later part. */
  lemma ImportsKeepOrder(a: seq<Alarm>, b: seq<Alarm>, db: string)
    ensures Averages(Imported(a + b, db)) == Averages(Imported(a, db)) + Averages(Imported(b, db))
  {
    ImportedConcat(a, b, db);
    AveragesConcat(Imported(a, db), Imported(b, db));
  }

  lemma {:induction false} ImportedExactly(alarms: seq<Alarm>, db: string, a: Alarm)
    ensures a in Imported(alarms, db) <==> a in alarms && Matches(a, db) && !IsDefaultMetric(a.metric)
  {
    if alarms == [] {
    } else {
      var front, last := alarms[..|alarms| - 1], alarms[|alarms| - 1];
      ImportedExactly(front, db, a);
      assert alarms == front + [last];
      assert Matches(last, db) ==> Repeat(last, Hits(last.dimensions, db))[0] == last;
    }
  }

  lemma {:induction false} AveragesExactly(alarms: seq<Alarm>, a: Alarm)
    ensures a in Averages(alarms) <==> a in alarms && a.statistic == "Average"
  {
    if alarms == [] {
    } else {
      AveragesExactly(alarms[..|alarms| - 1], a);
      assert alarms == alarms[..|alarms| - 1] + [alarms[|alarms| - 1]];
    }
  }

  /** An alarm is imported exactly when it is on this instance, on another metric, and on an average. */
  lemma ImportsExactly(alarms: seq<Alarm>, db: string, a: Alarm)
    ensures a in Averages(Imported(alarms, db)) <==>
            && a in alarms && a.namespace == "AWS/RDS"
            && (exists d | d in a.dimensions :: d.name == "DBInstanceIdentifier" && d.value == db)
            && a.metric !in {"CPUUtilization", "DatabaseConnections", "FreeableMemory"}
            && a.statistic == "Average"
  {
    MatchesExactly(a, db);
    ImportedExactly(alarms, db, a);
    AveragesExactly(Imported(alarms, db), a);
  }

  // The check, by its literal parts

  lemma MatchesExactly(a: Alarm, db: string)
    ensures Matches(a, db) <==>
            a.namespace == "AWS/RDS" &&
            exists d | d in a.dimensions :: d.name == "DBInstanceIdentifier" && d.value == db
  {
    HitsSome(a.dimensions, db);
  }

  lemma {:induction false} HitsSome(dims: seq<Dimension>, db: string)
    ensures Hits(dims, db) > 0 <==> exists d | d in dims :: d.name == "DBInstanceIdentifier" && d.value == db
  {
    if dims == [] {
    } else {
      var front, last := dims[..|dims| - 1], dims[|dims| - 1];
      HitsSome(front, db);
      assert dims == front + [last];
    }
  }

  /** The positions of the dimensions that name the instance. */
  function Naming(dims: seq<Dimension>, db: string): set<int> {
    set i | 0 <= i < |dims| && dims[i] == Dimension("DBInstanceIdentifier", db)
  }

  lemma NamingSnoc(front: seq<Dimension>, last: Dimension, db: string)
    ensures Naming(front + [last], db) == Naming(front, db) + if IsOf(last, db) then {|front|} else {}
  {
    assert IsOf(last, db) <==> last == Dimension("DBInstanceIdentifier", db);
  }

  /** One alarm is imported once for each of its dimensions that names the instance. */
  lemma {:induction false} HitsCount(dims: seq<Dimension>, db: string)
    ensures Hits(dims, db) == |Naming(dims, db)|
  {
    if dims == [] {
    } else {
      hide Naming, IsOf;
      var front, last := dims[..|dims| - 1], dims[|dims| - 1];
      HitsCount(front, db);
      NamingSnoc(front, last, db);
      assert dims == front + [last];
      NamingBounded(front, db);
    }
  }

  lemma NamingBounded(dims: seq<Dimension>, db: string)
    ensures |dims| !in Naming(dims, db)
  {
  }

  /** Without a matching alarm the default threshold stands. */
  lemma {:induction false} NoMatchFallsBack(alarms: seq<Alarm>, db: string, metric: string, fallback: real)
    requires forall a | a in alarms :: !(Matches(a, db) && a.metric == metric)
    ensures LastThreshold(alarms, db, metric, fallback) == fallback
  {
    if alarms == [] {
    } else {
      assert alarms[|alarms| - 1] in alarms;
      NoMatchFallsBack(alarms[..|alarms| - 1], db, metric, fallback);
    }
  }

  /** The memory of some classes, and of one that is not listed. */
  lemma SomeClasses()
    ensures InstanceClassMemory("db.t1.micro") == 615_000_000.0
    ensures InstanceClassMemory("db.t2.micro") == 1_000_000_000.0
    ensures InstanceClassMemory("db.m4.large") == 8_000_000_000.0
    ensures InstanceClassMemory("db.r3.8xlarge") == 244_000_000_000.0
    ensures InstanceClassMemory("unknown") == 0.0
  {
  }

  /** The thresholds of the three default metrics. */
  function CPULimit(db: string, alarms: seq<Alarm>): real {
    LastThreshold(alarms, db, "CPUUtilization", 95.0)
  }

  function ConnectionLimit(db: string, instanceClass: string, alarms: seq<Alarm>): real {
    LastThreshold(alarms, db, "DatabaseConnections", InstanceClassMemory(instanceClass) / 12582880.0 * 0.85)
  }

  function MemoryLimit(db: string, instanceClass: string, alarms: seq<Alarm>): real {
    LastThreshold(alarms, db, "FreeableMemory", InstanceClassMemory(instanceClass) * 0.1)
  }

  /** The defaults of every check, by position: CPU below its limit; then connections below theirs and free memory above
      its own, each exactly when its limit is positive. */
  lemma DefaultsByPosition(db: string, instanceClass: string, alarms: seq<Alarm>)
    ensures var all := Assertions(db, instanceClass, alarms);
            var connections := ConnectionLimit(db, instanceClass, alarms);
            var memory := MemoryLimit(db, instanceClass, alarms);
            var c, m := if connections > 0.0 then 1 else 0, if memory > 0.0 then 1 else 0;
            && |all| == 1 + c + m + |Averages(Imported(alarms, db))|
            && all[0] == Assertion("lessThan", Fixed(CPULimit(db, alarms)), "CPUUtilization")
            && (connections > 0.0 ==>
                  all[1] == Assertion("lessThan", Whole(connections.Floor), "DatabaseConnections"))
            && (memory > 0.0 ==> all[1 + c] == Assertion("greaterThan", Fixed(memory), "FreeableMemory"))
            && all[1 + c + m..] == ImportedAssertions(Averages(Imported(alarms, db)))
  {
    hide InstanceClassMemory, LastThreshold, Imported, Averages;
  }

  /** The rest of the check: one assertion for each imported average, in order, with its threshold, that asks for more
      when the alarm goes off above its threshold and for less otherwise. */
  lemma ImportsByPosition(imported: seq<Alarm>, j: nat)
    requires j < |imported|
    ensures var all, a := ImportedAssertions(imported), imported[j];
            && |all| == |imported|
            && all[j].operand == Fixed(a.threshold) && all[j].value == a.metric
            && all[j].relationship == if a.comparison in {"GreaterThanThreshold", "GreaterThanOrEqualToThreshold"}
                                      then "greaterThan" else "lessThan"
  {
  }

  /** An instance without alarms, of a known class and of an unknown one. */
  lemma ChecksWithoutAlarms(db: string)
    ensures Assertions(db, "db.t2.micro", []) ==
            [Assertion("lessThan", Fixed(95.0), "CPUUtilization"),
             Assertion("lessThan", Whole(67), "DatabaseConnections"),
             Assertion("greaterThan", Fixed(100_000_000.0), "FreeableMemory")]
    ensures Assertions(db, "unknown", []) == [Assertion("lessThan", Fixed(95.0), "CPUUtilization")]
  {
    SomeClasses();
    DefaultsByPosition(db, "db.t2.micro", []);
    DefaultsByPosition(db, "unknown", []);
    hide InstanceClassMemory;
    assert (1_000_000_000.0 / 12582880.0 * 0.85).Floor == 67;
  }

  /** Filtering keeps exactly the alarms of the namespace, one by one and in order. */
  lemma {:induction false} FilteredExactly(a: seq<Alarm>, one: Alarm, b: seq<Alarm>, namespace: string)
    ensures Filtered([], namespace) == []
    ensures Filtered(a + [one] + b, namespace) ==
            Filtered(a, namespace) + (if one.namespace == namespace then [one] else []) + Filtered(b, namespace)
    decreases |b|
  {
    if b == [] {
      assert a + [one] + b == a + [one] && (a + [one])[..|a|] == a;
    } else {
      var front := b[..|b| - 1];
      FilteredExactly(a, one, front, namespace);
      assert (a + [one] + b)[..|a + [one] + b| - 1] == a + [one] + front;
    }
  }
}
