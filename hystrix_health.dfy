/**
 * The Hystrix health indicator: it walks the registered command metrics in
 * order, collects "<group>::<key>" for every command whose circuit breaker
 * exists and is open, and reports the custom status CIRCUIT_OPEN with those
 * names as the detail "openCircuitBreakers", or UP when no breaker is open.
 *
 * Hystrix's registries are inputs here: the metrics instances as a sequence
 * in iteration order, and the circuit-breaker factory as a map from command
 * key name to the answer of that breaker's isOpen(). A key without an entry
 * is a lookup that returns null.
 */
module HystrixHealth {

  /** What the health check reads from one HystrixCommandMetrics instance. */
  datatype CommandMetrics = CommandMetrics(group: string, key: string)

  /** The circuit breakers known to Hystrix, by command key name; the value is isOpen(). */
  type BreakerRegistry = map<string, bool>

  /** A Spring Boot health status, identified by its code. */
  datatype Status = Status(code: string)

  const UNKNOWN := Status("UNKNOWN")
  const UP := Status("UP")
  /** The custom status this indicator reports when a breaker is open. */
  const CIRCUIT_OPEN := Status("CIRCUIT_OPEN")
  /** The detail key under which the open breaker names are reported. */
  const OPEN_CIRCUIT_BREAKERS := "openCircuitBreakers"
  /** The separator between the command group name and the command key name. */
  const SEPARATOR := "::"

  /** A health report as the builder holds it: a status and named details. */
  datatype Health = Health(status: Status, details: map<string, seq<string>>)

  // ---------------------------------------------------------------------
  // Specification
  // ---------------------------------------------------------------------

  /** The breaker of `m` was found in the registry and reports itself open. */
  function IsOpen(m: CommandMetrics, breakers: BreakerRegistry): (open: bool)
    ensures m.key !in breakers ==> !open
    ensures m.key in breakers ==> (open <==> breakers[m.key])
  {
    m.key in breakers && breakers[m.key]
  }

  /** Some metric in `metrics` has an open circuit breaker. */
  predicate AnyOpen(metrics: seq<CommandMetrics>, breakers: BreakerRegistry) {
    exists i :: 0 <= i < |metrics| && IsOpen(metrics[i], breakers)
  }

  /** The name reported for an open breaker: group name, "::", command key name. */
  function BreakerName(m: CommandMetrics): (name: string)
    ensures |name| == |m.group| + |SEPARATOR| + |m.key|
    ensures name[..|m.group|] == m.group
    ensures name[|m.group|..|m.group| + |SEPARATOR|] == SEPARATOR
    ensures name[|m.group| + |SEPARATOR|..] == m.key
  {
    m.group + SEPARATOR + m.key
  }

  /** The list the loop builds: the names of the open breakers, in iteration order. */
  function OpenCircuitBreakers(metrics: seq<CommandMetrics>, breakers: BreakerRegistry): (open: seq<string>)
    ensures |open| <= |metrics|
  {
    if metrics == [] then []
    else
      var last := metrics[|metrics| - 1];
      OpenCircuitBreakers(metrics[..|metrics| - 1], breakers)
        + (if IsOpen(last, breakers) then [BreakerName(last)] else [])
  }

  /** The positions of the metrics whose breaker is open, in iteration order. */
  function OpenPositions(metrics: seq<CommandMetrics>, breakers: BreakerRegistry): seq<int>
  {
    if metrics == [] then []
    else
      OpenPositions(metrics[..|metrics| - 1], breakers)
        + (if IsOpen(metrics[|metrics| - 1], breakers) then [|metrics| - 1] else [])
  }

  ghost predicate StrictlyIncreasing(s: seq<int>) {
    forall i, j :: 0 <= i < j < |s| ==> s[i] < s[j]
  }

  /** The report doHealthCheck leaves in a builder that held `before`. */
  function HealthCheck(metrics: seq<CommandMetrics>, breakers: BreakerRegistry, before: Health): (after: Health)
    ensures after.status == CIRCUIT_OPEN <==> AnyOpen(metrics, breakers)
    ensures after.status == UP <==> !AnyOpen(metrics, breakers)
    ensures AnyOpen(metrics, breakers) ==>
      OPEN_CIRCUIT_BREAKERS in after.details && after.details[OPEN_CIRCUIT_BREAKERS] != []
    ensures !AnyOpen(metrics, breakers) ==> after.details == before.details
    ensures forall k :: k != OPEN_CIRCUIT_BREAKERS ==>
      (k in after.details <==> k in before.details) &&
      (k in before.details ==> after.details[k] == before.details[k])
  {
    OpenCircuitBreakersEmptyIff(metrics, breakers);
    var open := OpenCircuitBreakers(metrics, breakers);
    if open != [] then
      Health(CIRCUIT_OPEN, before.details[OPEN_CIRCUIT_BREAKERS := open])
    else
      Health(UP, before.details)
  }

  // ---------------------------------------------------------------------
  // Properties of the specification
  // ---------------------------------------------------------------------

  /** One step of the loop: the list for a longer prefix extends the list for the shorter one. */
  lemma OpenCircuitBreakersSnoc(metrics: seq<CommandMetrics>, breakers: BreakerRegistry, i: nat)
    requires i < |metrics|
    ensures OpenCircuitBreakers(metrics[..i + 1], breakers)
         == OpenCircuitBreakers(metrics[..i], breakers)
          + (if IsOpen(metrics[i], breakers) then [BreakerName(metrics[i])] else [])
  {
    assert metrics[..i + 1][..i] == metrics[..i];
  }

  /** The list is empty exactly when no metric has an open breaker. */
  lemma {:induction false} OpenCircuitBreakersEmptyIff(metrics: seq<CommandMetrics>, breakers: BreakerRegistry)
    ensures OpenCircuitBreakers(metrics, breakers) == [] <==> !AnyOpen(metrics, breakers)
  {
    if metrics != [] {
      var front := metrics[..|metrics| - 1];
      OpenCircuitBreakersEmptyIff(front, breakers);
      if AnyOpen(front, breakers) {
        var i :| 0 <= i < |front| && IsOpen(front[i], breakers);
        assert metrics[i] == front[i];
      }
      if AnyOpen(metrics, breakers) && !IsOpen(metrics[|metrics| - 1], breakers) {
        var i :| 0 <= i < |metrics| && IsOpen(metrics[i], breakers);
        assert front[i] == metrics[i];
      }
    }
  }

  /** OpenPositions enumerates, in increasing order, exactly the positions whose breaker is open. */
  lemma {:induction false} OpenPositionsEnumerate(metrics: seq<CommandMetrics>, breakers: BreakerRegistry)
    ensures StrictlyIncreasing(OpenPositions(metrics, breakers))
    ensures forall p :: p in OpenPositions(metrics, breakers) <==> 0 <= p < |metrics| && IsOpen(metrics[p], breakers)
  {
    if metrics != [] {
      var n := |metrics| - 1;
      var front := metrics[..n];
      OpenPositionsEnumerate(front, breakers);
      var pre := OpenPositions(front, breakers);
      forall i | 0 <= i < |pre| ensures pre[i] < n {
        assert pre[i] in pre;
      }
      forall p ensures p in OpenPositions(metrics, breakers) <==> 0 <= p < |metrics| && IsOpen(metrics[p], breakers) {
        if 0 <= p < n {
          assert front[p] == metrics[p];
        }
      }
    }
  }

  /** The list is the names of the metrics at the open positions, one for one: a filter followed by a map. */
  lemma {:induction false} OpenCircuitBreakersAtPositions(metrics: seq<CommandMetrics>, breakers: BreakerRegistry)
    ensures var names, pos := OpenCircuitBreakers(metrics, breakers), OpenPositions(metrics, breakers);
      |names| == |pos| &&
      forall j :: 0 <= j < |pos| ==> 0 <= pos[j] < |metrics| && names[j] == BreakerName(metrics[pos[j]])
  {
    if metrics != [] {
      var n := |metrics| - 1;
      var front := metrics[..n];
      OpenCircuitBreakersAtPositions(front, breakers);
      OpenPositionsEnumerate(front, breakers);
      var pos := OpenPositions(front, breakers);
      forall j | 0 <= j < |pos| ensures pos[j] < n && front[pos[j]] == metrics[pos[j]] {
        assert pos[j] in pos;
      }
    }
  }

  /** Two increasing sequences with the same elements are equal. */
  lemma {:induction false} IncreasingEnumerationUnique(s: seq<int>, t: seq<int>)
    requires StrictlyIncreasing(s) && StrictlyIncreasing(t)
    requires forall x :: x in s <==> x in t
    ensures s == t
  {
    assert s != [] ==> s[0] in s && s[0] in t;
    assert t != [] ==> t[0] in t && t[0] in s;
    if s != [] && t != [] {
      assert s[0] == t[0];
      forall x ensures x in s[1..] <==> x in t[1..] {
        if x in s[1..] {
          assert x in t && x != t[0];
        }
        if x in t[1..] {
          assert x in s && x != s[0];
        }
      }
      IncreasingEnumerationUnique(s[1..], t[1..]);
    }
  }

  /**
   * Independent characterisation of the reported list: for ANY increasing
   * enumeration `pos` of the positions whose breaker is open, the list is
   * the breaker names taken at those positions. So every open breaker is
   * reported once, nothing else (no null or closed breaker) is reported, and
   * the iteration order is kept.
   */
  lemma OpenCircuitBreakersCharacterized(metrics: seq<CommandMetrics>, breakers: BreakerRegistry, pos: seq<int>)
    requires StrictlyIncreasing(pos)
    requires forall p :: p in pos <==> 0 <= p < |metrics| && IsOpen(metrics[p], breakers)
    ensures var names := OpenCircuitBreakers(metrics, breakers);
      |names| == |pos| &&
      forall j :: 0 <= j < |pos| ==> 0 <= pos[j] < |metrics| && names[j] == BreakerName(metrics[pos[j]])
  {
    OpenPositionsEnumerate(metrics, breakers);
    IncreasingEnumerationUnique(pos, OpenPositions(metrics, breakers));
    OpenCircuitBreakersAtPositions(metrics, breakers);
  }

  /** Every reported name belongs to a metric with an open breaker: a null or closed breaker contributes nothing. */
  lemma {:induction false} OpenCircuitBreakersSound(metrics: seq<CommandMetrics>, breakers: BreakerRegistry, name: string)
    requires name in OpenCircuitBreakers(metrics, breakers)
    ensures exists i :: 0 <= i < |metrics| && IsOpen(metrics[i], breakers) && name == BreakerName(metrics[i])
  {
    OpenCircuitBreakersAtPositions(metrics, breakers);
    OpenPositionsEnumerate(metrics, breakers);
    var pos := OpenPositions(metrics, breakers);
    var j :| 0 <= j < |OpenCircuitBreakers(metrics, breakers)| && OpenCircuitBreakers(metrics, breakers)[j] == name;
    assert pos[j] in pos;
  }

  /** Every metric whose breaker is open is reported. */
  lemma {:induction false} OpenCircuitBreakersComplete(metrics: seq<CommandMetrics>, breakers: BreakerRegistry, i: int)
    requires 0 <= i < |metrics|
    ensures IsOpen(metrics[i], breakers) ==> BreakerName(metrics[i]) in OpenCircuitBreakers(metrics, breakers)
  {
    if IsOpen(metrics[i], breakers) {
      OpenCircuitBreakersAtPositions(metrics, breakers);
      OpenPositionsEnumerate(metrics, breakers);
      var pos := OpenPositions(metrics, breakers);
      var j :| 0 <= j < |pos| && pos[j] == i;
      assert OpenCircuitBreakers(metrics, breakers)[j] == BreakerName(metrics[i]);
    }
  }

  /** With a breaker open, the detail is exactly the collected list. */
  lemma HealthCheckDetail(metrics: seq<CommandMetrics>, breakers: BreakerRegistry, before: Health)
    requires AnyOpen(metrics, breakers)
    ensures HealthCheck(metrics, breakers, before).details[OPEN_CIRCUIT_BREAKERS]
         == OpenCircuitBreakers(metrics, breakers)
  {
    OpenCircuitBreakersEmptyIff(metrics, breakers);
  }

  // ---------------------------------------------------------------------
  // Implementation
  // ---------------------------------------------------------------------

  /** The mutable Spring Health.Builder the indicator writes to. */
  class HealthBuilder {
    var status: Status
    var details: map<string, seq<string>>

    function Build(): Health
      reads this
    {
      Health(status, details)
    }

    /** A fresh builder: status UNKNOWN and no details. */
    constructor ()
      ensures Build() == Health(UNKNOWN, map[])
    {
      status := UNKNOWN;
      details := map[];
    }

    method SetStatus(s: Status)
      modifies this
      ensures Build() == old(Build()).(status := s)
    {
      status := s;
    }

    method Up()
      modifies this
      ensures Build() == old(Build()).(status := UP)
    {
      status := UP;
    }

    method WithDetail(key: string, value: seq<string>)
      modifies this
      ensures Build() == old(Build()).(details := old(details)[key := value])
    {
      details := details[key := value];
    }
  }

  /** The loop of doHealthCheck: collect the names of the open breakers. */
  method CollectOpenCircuitBreakers(metrics: seq<CommandMetrics>, breakers: BreakerRegistry)
    returns (open: seq<string>)
    ensures open == OpenCircuitBreakers(metrics, breakers)
  {
    open := [];
    var i := 0;
    while i < |metrics|
      invariant 0 <= i <= |metrics|
      invariant open == OpenCircuitBreakers(metrics[..i], breakers)
    {
      var m := metrics[i];
      OpenCircuitBreakersSnoc(metrics, breakers, i);
      if m.key in breakers && breakers[m.key] {
        open := open + [m.group + SEPARATOR + m.key];
      }
      i := i + 1;
    }
    assert metrics[..i] == metrics;
  }

  /** doHealthCheck: report the open breakers, or UP. */
  method DoHealthCheck(metrics: seq<CommandMetrics>, breakers: BreakerRegistry, builder: HealthBuilder)
    modifies builder
    ensures builder.Build() == HealthCheck(metrics, breakers, old(builder.Build()))
  {
    var open := CollectOpenCircuitBreakers(metrics, breakers);
    if open != [] {
      builder.SetStatus(CIRCUIT_OPEN);
      builder.WithDetail(OPEN_CIRCUIT_BREAKERS, open);
    } else {
      builder.Up();
    }
  }

  /**
   * The health check only asks breakers isOpen(): it changes no registry, so
   * two checks against the same registries report the same health.
   */
  method RepeatedHealthCheck(metrics: seq<CommandMetrics>, breakers: BreakerRegistry)
    returns (first: Health, second: Health)
    ensures first == second
    ensures first.status == CIRCUIT_OPEN <==> AnyOpen(metrics, breakers)
  {
    var b1 := new HealthBuilder();
    DoHealthCheck(metrics, breakers, b1);
    first := b1.Build();
    var b2 := new HealthBuilder();
    DoHealthCheck(metrics, breakers, b2);
    second := b2.Build();
  }
}
