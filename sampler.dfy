/**
 * One call of `getMetrics` (main.go:97-160): the four mandatory provider queries in order, each
 * ending the call with its error, then the network stage on the persistent counter table, then
 * the best-effort process-manager query.
 */
module Sampler {
  import opened Wrappers
  import opened UInt64
  import opened Names
  import opened Snapshot
  import opened Network

  /** The error `getMetrics` returns: that of the first mandatory query to fail, if any. */
  function MandatoryFailure(r: Readings): Option<ProviderError>
  {
    if r.cpuPercent.Failure? then Some(r.cpuPercent.error)
    else if r.virtualMemory.Failure? then Some(r.virtualMemory.error)
    else if r.diskUsage.Failure? then Some(r.diskUsage.error)
    else if r.ioCounters.Failure? then Some(r.ioCounters.error)
    else None
  }

  /**
   * `m` is the snapshot a successful call builds from `r` when the counter table held `table`:
   * truncated CPU values, memory and disk copied, the deltas sorted by name (one per provider
   * record), and the process list exactly when its query succeeded.
   */
  ghost predicate IsSnapshotOf(m: Metrics, table: map<string, NetworkUsage>, r: Readings)
    requires MandatoryFailure(r).None?
  {
    && |m.cpu| == |r.cpuPercent.value|
    && (forall i :: 0 <= i < |m.cpu| ==> m.cpu[i] == TruncateToHundredths(r.cpuPercent.value[i]))
    && m.memory == r.virtualMemory.value
    && m.disk == r.diskUsage.value
    && SortedByName(m.network)
    && multiset(m.network) == multiset(Deltas(table, r.ioCounters.value))
    && m.pm2 == (if r.pm2.Success? then Some(r.pm2.value) else None)
  }

  /** With distinct interface names, the snapshot's network section has an entry for every record, measured against the table as it was before the cycle. */
  lemma SnapshotCoversEachInterface(m: Metrics, table: map<string, NetworkUsage>, r: Readings, i: nat)
    requires MandatoryFailure(r).None? && IsSnapshotOf(m, table, r)
    requires Distinct(ProviderNames(r.ioCounters.value))
    requires i < |r.ioCounters.value|
    ensures DeltaAgainst(table, r.ioCounters.value[i]) in m.network
  {
    var cs := r.ioCounters.value;
    DeltasOfDistinct(table, cs);
    assert Deltas(table, cs)[i] in multiset(Deltas(table, cs));
  }

  /**
   * With distinct interface names, the entry of the snapshot's network section that carries an
   * interface's name reports `current - stored` (wrapping modulo 2^64) for an interface the table
   * knew, and the full cumulative count for one it did not.
   */
  lemma SnapshotEntryDelta(m: Metrics, table: map<string, NetworkUsage>, r: Readings, i: nat, e: NetworkUsage)
    requires MandatoryFailure(r).None? && IsSnapshotOf(m, table, r)
    requires Distinct(ProviderNames(r.ioCounters.value))
    requires i < |r.ioCounters.value|
    requires e in m.network && e.name == r.ioCounters.value[i].name
    ensures e.name in table ==>
      e.bytesSent == Sub(r.ioCounters.value[i].bytesSent, table[e.name].bytesSent) &&
      e.bytesRecv == Sub(r.ioCounters.value[i].bytesRecv, table[e.name].bytesRecv)
    ensures e.name !in table ==>
      e.bytesSent == r.ioCounters.value[i].bytesSent && e.bytesRecv == r.ioCounters.value[i].bytesRecv
  {
    var cs := r.ioCounters.value;
    var ds := Deltas(table, cs);
    assert e in multiset(ds);
    var p :| 0 <= p < |ds| && ds[p] == e;
    DeltasNames(table, cs, p);
    ProviderNamesDistinct(cs);
    assert p == i;
    FirstSighting(table, cs, i);
  }

  method GetMetrics(table: CounterTable, r: Readings) returns (result: Result<Metrics, ProviderError>)
    modifies table
    ensures result.Failure? <==> MandatoryFailure(r).Some?
    ensures result.Failure? ==> result.error == MandatoryFailure(r).value
    ensures result.Failure? ==> table.entries == old(table.entries)
    ensures result.Success? ==> table.entries == Advance(old(table.entries), r.ioCounters.value)
    ensures result.Success? ==> IsSnapshotOf(result.value, old(table.entries), r)
  {
    if r.cpuPercent.Failure? {
      return Failure(r.cpuPercent.error);
    }
    var cpu := TruncateCpu(r.cpuPercent.value);

    if r.virtualMemory.Failure? {
      return Failure(r.virtualMemory.error);
    }
    var memory := r.virtualMemory.value;

    if r.diskUsage.Failure? {
      return Failure(r.diskUsage.error);
    }
    var disk := r.diskUsage.value;

    if r.ioCounters.Failure? {
      return Failure(r.ioCounters.error);
    }
    var network := SampleNetwork(table, r.ioCounters.value);

    var pm2 := if r.pm2.Success? then Some(r.pm2.value) else None;
    result := Success(Metrics(cpu, memory, disk, network, pm2));
  }
}
