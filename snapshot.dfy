/**
 * The values one sampling cycle works with: what the metrics provider reports and the
 * `Metrics` snapshot that is pushed to every subscriber (main.go, `NetworkUsage`, `Metrics`,
 * `PM2Process`).
 */
module Snapshot {
  import opened Wrappers
  import opened UInt64

  /** One network section entry: per-interface byte counts. */
  datatype NetworkUsage = NetworkUsage(name: string, bytesSent: u64, bytesRecv: u64)

  /** One per-interface record from the provider's network query: cumulative byte counts. */
  datatype IOCounters = IOCounters(name: string, bytesSent: u64, bytesRecv: u64)

  /** Total, free and used bytes, as reported for memory and for the root volume. */
  datatype Usage = Usage(total: u64, free: u64, used: u64)

  /** One record of the process manager's process list. */
  datatype PM2Process = PM2Process(
    name: string, pid: int, pmId: int, monitMemory: int, monitCpu: int, status: string)

  /** The snapshot sent to subscribers; `pm2` is `None` where the Go slice stays nil. */
  datatype Metrics = Metrics(
    cpu: seq<real>,
    memory: Usage,
    disk: Usage,
    network: seq<NetworkUsage>,
    pm2: Option<seq<PM2Process>>)

  /** An error value returned by a provider query; the sampler hands it on unchanged. */
  datatype ProviderError = ProviderError(message: string)

  /** The outcome of each provider query of one cycle, in the order the sampler makes them. */
  datatype Readings = Readings(
    cpuPercent: Result<seq<real>, ProviderError>,
    virtualMemory: Result<Usage, ProviderError>,
    diskUsage: Result<Usage, ProviderError>,
    ioCounters: Result<seq<IOCounters>, ProviderError>,
    pm2: Result<seq<PM2Process>, ProviderError>)

  /**
   * `truncateToDecimals(v, 2)`: drop every digit after the second decimal, toward zero
   * (never rounding up), computed on exact reals.
   */
  function TruncateToHundredths(v: real): (t: real)
    ensures 0.0 <= v ==> 0.0 <= t <= v < t + 0.01
    ensures v < 0.0 ==> t - 0.01 < v <= t <= 0.0
    ensures (t * 100.0).Floor as real == t * 100.0
  {
    var k := (if 0.0 <= v then v * 100.0 else -v * 100.0).Floor;
    assert k as real <= (if 0.0 <= v then v * 100.0 else -v * 100.0) < k as real + 1.0;
    var t := if 0.0 <= v then k as real / 100.0 else -k as real / 100.0;
    assert t * 100.0 == (if 0.0 <= v then k else -k) as real;
    t
  }

  /** Truncating a value that already has at most two decimals changes nothing. */
  lemma TruncateIdempotent(v: real)
    ensures TruncateToHundredths(TruncateToHundredths(v)) == TruncateToHundredths(v)
  {
    var t := TruncateToHundredths(v);
    var k := (t * 100.0).Floor;
    assert t * 100.0 == k as real;
    if 0.0 <= t {
      assert (t * 100.0).Floor == k;
    } else {
      assert (-t * 100.0) == (-k) as real;
      assert (-t * 100.0).Floor == -k;
    }
  }

  lemma TruncateExamples()
    ensures TruncateToHundredths(33.456) == 33.45
    ensures TruncateToHundredths(0.0) == 0.0
    ensures TruncateToHundredths(99.999) == 99.99
  {
    assert (33.456 * 100.0).Floor == 3345;
    assert (99.999 * 100.0).Floor == 9999;
  }

  /** The truncation loop over the per-core CPU percentages, done in place. */
  method TruncateAll(a: array<real>)
    modifies a
    ensures forall i :: 0 <= i < a.Length ==> a[i] == TruncateToHundredths(old(a[i]))
  {
    for i := 0 to a.Length
      invariant forall k :: 0 <= k < i ==> a[k] == TruncateToHundredths(old(a[k]))
      invariant forall k :: i <= k < a.Length ==> a[k] == old(a[k])
    {
      a[i] := TruncateToHundredths(a[i]);
    }
  }

  /** The CPU stage: the provider's per-core percentages, each truncated to two decimals. */
  method TruncateCpu(raw: seq<real>) returns (cpu: seq<real>)
    ensures |cpu| == |raw|
    ensures forall i :: 0 <= i < |raw| ==> cpu[i] == TruncateToHundredths(raw[i])
  {
    var a := new real[|raw|](i requires 0 <= i < |raw| => raw[i]);
    TruncateAll(a);
    cpu := a[..];
  }
}
