/**
 * One iteration of the `sendMetrics` loop (main.go:162-191), after its one-second sleep: skip when
 * nobody listens, skip when sampling fails, otherwise write the snapshot to every member and
 * drop those whose write failed.
 */
module Broadcast {
  import opened Wrappers
  import opened Snapshot
  import opened Network
  import opened Sampler
  import opened Connections

  /** One write of the snapshot to one subscriber, and whether it went through. */
  datatype Attempt = Attempt(conn: Connection, payload: Metrics, delivered: bool)

  /** What one tick did. */
  datatype TickOutcome =
    | Idle
    | SampleFailed(error: ProviderError)
    | Broadcast(snapshot: Metrics, attempts: seq<Attempt>)

  /** The subscribers a sequence of attempts wrote to. */
  function Targets(attempts: seq<Attempt>): set<Connection>
  {
    set a | a in attempts :: a.conn
  }

  /** No subscriber is written to twice. */
  predicate OncePerTarget(attempts: seq<Attempt>)
  {
    forall i, j :: 0 <= i < j < |attempts| ==> attempts[i].conn != attempts[j].conn
  }

  /**
   * The write-and-prune pass over the registry's members, with `failing` the subscribers whose
   * write fails: every member is written `snapshot` exactly once, and exactly the failing ones
   * are removed.
   */
  method WriteToAll(registry: Registry, snapshot: Metrics, failing: set<Connection>)
    returns (attempts: seq<Attempt>)
    modifies registry
    ensures Targets(attempts) == old(registry.connections)
    ensures OncePerTarget(attempts)
    ensures forall a :: a in attempts ==> a.payload == snapshot && (a.delivered <==> a.conn !in failing)
    ensures registry.connections == old(registry.connections) - failing
  {
    var members := registry.connections;
    var pending := members;
    attempts := [];
    while pending != {}
      invariant pending <= members
      invariant Targets(attempts) == members - pending
      invariant OncePerTarget(attempts)
      invariant forall a :: a in attempts ==> a.payload == snapshot && (a.delivered <==> a.conn !in failing)
      invariant registry.connections == members - (failing * (members - pending))
      decreases pending
    {
      var conn :| conn in pending;
      var delivered := conn !in failing;
      var attempt := Attempt(conn, snapshot, delivered);
      assert Targets(attempts + [attempt]) == Targets(attempts) + {conn} by {
        assert forall a :: a in attempts + [attempt] <==> a in attempts || a == attempt;
      }
      attempts := attempts + [attempt];
      if !delivered {
        registry.connections := registry.connections - {conn};
      }
      pending := pending - {conn};
    }
  }

  /**
   * One tick. `readings` are the provider's answers if it is asked; `failing` is the set of
   * subscribers whose write fails.
   */
  method SendMetricsTick(registry: Registry, table: CounterTable, readings: Readings, failing: set<Connection>)
    returns (outcome: TickOutcome)
    modifies registry, table
    ensures old(registry.connections) == {} ==>
      outcome == Idle && registry.connections == {} && table.entries == old(table.entries)
    ensures old(registry.connections) != {} && MandatoryFailure(readings).Some? ==>
      outcome == SampleFailed(MandatoryFailure(readings).value) &&
      registry.connections == old(registry.connections) &&
      table.entries == old(table.entries)
    ensures old(registry.connections) != {} && MandatoryFailure(readings).None? ==>
      && outcome.Broadcast?
      && table.entries == Advance(old(table.entries), readings.ioCounters.value)
      && IsSnapshotOf(outcome.snapshot, old(table.entries), readings)
      && Targets(outcome.attempts) == old(registry.connections)
      && OncePerTarget(outcome.attempts)
      && (forall a :: a in outcome.attempts ==>
            a.payload == outcome.snapshot && (a.delivered <==> a.conn !in failing))
      && registry.connections == old(registry.connections) - failing
  {
    if registry.connections == {} {
      return Idle;
    }
    var sampled := GetMetrics(table, readings);
    if sampled.Failure? {
      return SampleFailed(sampled.error);
    }
    var attempts := WriteToAll(registry, sampled.value, failing);
    outcome := Broadcast(sampled.value, attempts);
  }
}
