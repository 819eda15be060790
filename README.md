# Host metrics broadcaster: a Dafny model of its sampling and broadcast core

The program samples host metrics once a second and pushes each sample as JSON to every connected
WebSocket client. Its one Go file, `main.go`, is mostly I/O glue. This project models the parts
of it that are sequential logic:

- **The snapshot builder `getMetrics`.** It makes four mandatory provider queries in order: CPU,
  memory, disk and network. The first one that fails ends the call with its error. The network
  stage then reads and updates the persistent table `networkMetrics`, which maps an interface
  name to the last cumulative counters seen. It reports per-interface deltas, using wrapping
  `uint64` subtraction, and sorts them by name. Last, the process-manager (pm2) query runs. It is
  best-effort: when it fails, the process list is just left out.
- **The connection registry.** `addConnection` and `removeConnection` act on the global
  `connections` map. The `/metrics` handler registers each new channel.
- **One tick of `sendMetrics`.** When nobody is connected it samples nothing. When sampling fails
  it writes nothing. Otherwise it writes the same snapshot once to every member and removes
  exactly the members whose write failed.

Everything outside the program becomes an input:

- Each provider query is a `Result` in `Snapshot.Readings`.
- The protocol upgrade is a `Result<Connection, string>`.
- The outcome of each WebSocket write is the set `failing` of connections whose write fails.

Modules, one per component:

- `UInt64` (uint64.dfy): wrapping subtraction.
- `Names` (names.dfy): Go's `<` on strings.
- `Snapshot` (snapshot.dfy): the data types and CPU truncation.
- `Network` (network.dfy): the network stage.
- `Sampler` (sampler.dfy): `getMetrics`.
- `Connections` (connections.dfy): the registry and the handler.
- `Broadcast` (broadcast.dfy): the tick.
- `Wrappers` (wrappers.dfy): `Option` and `Result`.

State the program changes in place is kept in classes:

- `Network.CounterTable` holds the `map` field `entries`. It stands for `networkMetrics`, which
  `sendMetrics` creates and passes by reference to `getMetrics`.
- `Connections.Registry` holds the `set` field `connections`, a map whose values are always
  `true`.
- The per-core CPU values and the network section are sorted or rewritten in place in arrays, as
  the Go slices are.

Each method states its new state in terms of specification functions: `Advance` is the table
after a batch of provider records, and `Deltas` is the deltas the loop appends. Lemmas state
what those functions promise.

Two behaviours of the program that the model keeps as they are:

- `getMetrics` returns the provider's error value unchanged and does not tag it with the failing
  stage; `Sampler.MandatoryFailure` says which query failed.
- A counter that goes backwards makes the `uint64` subtraction wrap modulo 2^64; the model does
  the same and does not clamp (`UInt64.SubCases`).

## Data model

| datatype | source | stands for |
|---|---|---|
| `Snapshot.NetworkUsage` | main.go:46-50 | one entry of the network section, and one entry of the counter table: interface name, bytes sent, bytes received |
| `Snapshot.IOCounters` | main.go:125 | one per-interface record of the provider's network query, with the cumulative counts the program reads |
| `Snapshot.Usage` | main.go:54-63 | the total, free and used byte counts of the memory and disk sections |
| `Snapshot.PM2Process` | main.go:68-79 | one record of the process manager's process list |
| `Snapshot.Metrics` | main.go:52-66 | the snapshot pushed to subscribers; `pm2` is `None` where the Go slice stays nil |
| `Snapshot.Readings` | main.go:100-125, 154 | the outcome of each provider query of one cycle, success value or error |
| `Snapshot.ProviderError` | main.go:100-128 | the error value a failing provider query returns |
| `Broadcast.Attempt` | main.go:182 | one `WriteJSON` call: the connection, the snapshot written, and whether the write succeeded |
| `Broadcast.TickOutcome` | main.go:167-189 | which of the three branches one tick took |

## Model

| member | source | states |
|---|---|---|
| `UInt64.Sub` | main.go:135-136 | uint64 subtraction: adding the result back to the subtrahend (modulo 2^64) gives the minuend |
| `UInt64.SubCases` | main.go:135-136 | the difference is exact when the counter did not go backwards; otherwise it is 2^64 above the true difference and positive (wrap, not clamp) |
| `UInt64.SubUnique` | main.go:135-136 | wrapping subtraction is the only inverse of wrapping addition |
| `Names.Below` | main.go:150 | Go's `<` on strings: a proper prefix, or smaller at the first place the names differ |
| `Names.BelowIrreflexive` | main.go:149-151 | no name sorts before itself under Go's string `<` |
| `Names.BelowAsymmetric` | main.go:149-151 | two names are never each below the other |
| `Names.BelowTransitive` | main.go:149-151 | string `<` is transitive |
| `Names.BelowTotal` | main.go:149-151 | any two different names are ordered one way or the other |
| `Names.NotBelowTransitive` | main.go:149-151 | "not below" is transitive, which is what sorting with `<` relies on |
| `Snapshot.TruncateToHundredths` | main.go:81-84 | truncation to two decimals goes toward zero and is never more than 0.01 away; the result has at most two decimals |
| `Snapshot.TruncateIdempotent` | main.go:81-84 | on exact reals, truncating an already truncated value changes nothing (Go's float64 version does not have this property; see Left out) |
| `Snapshot.TruncateExamples` | main.go:81-84 | 33.456 becomes 33.45, 0.0 stays 0.0 and 99.999 becomes 99.99 (no rounding up) |
| `Snapshot.TruncateAll` | main.go:104-106 | the in-place loop replaces every per-core value by its truncation and nothing else |
| `Snapshot.TruncateCpu` | main.go:100-107 | the CPU section has one value per provider value, each the truncation of its counterpart |
| `Network.DeltaAgainst` | main.go:132-137 | a known interface's delta, added to the stored counter modulo 2^64, gives the current counter; an unknown interface reports its whole cumulative count |
| `Network.Deltas` | main.go:143-147 | the loop appends exactly one delta per provider record |
| `Network.DeltasNames` | main.go:143-147 | each appended delta carries the name of its record |
| `Network.DeltasAt` | main.go:131-147 | the i-th delta is the i-th record measured against the table as the earlier records of the batch left it |
| `Network.FirstSighting` | main.go:131-137 | for the first record of an interface in a batch, the delta is current minus stored (wrapping) when the table has the interface, and the full cumulative value when it does not |
| `Network.Stored` | main.go:138-142 | the entry written to the table for a record: its name and cumulative counts |
| `Network.Advance` | main.go:131-142 | the table after the loop has written each record of the batch in order |
| `Network.AdvanceKeys` | main.go:138-142 | after the loop the table's names are the old ones plus those of the batch |
| `Network.AdvanceKeepsOthers` | main.go:138-142 | entries of interfaces the batch does not mention are unchanged |
| `Network.AdvanceStoresLast` | main.go:138-142 | each interface of the batch maps to the cumulative counters of its last record |
| `Network.AdvanceLeavesUnmentioned` | main.go:138-142 | a name the batch does not mention is present afterwards exactly when it was before, with the same entry |
| `Network.ConsecutiveCycles` | main.go:131-142 | over two consecutive cycles, an interface reported in both shows in the second the growth of its counters between them (modulo 2^64) |
| `Network.SortedUnique` | main.go:149-151 | two name-sorted arrangements of the same entries with distinct names are equal |
| `Network.DeltasOfDistinct` | main.go:131-137 | in a batch with distinct names, every record is measured against the table as it was before the batch |
| `Network.NetworkOrderIndependent` | main.go:131-151 | with distinct interface names, the sorted network section is the same whatever order the provider lists the interfaces in |
| `Network.CounterTable.constructor` | main.go:163 | the counter table starts empty |
| `Network.RecordCounters` | main.go:130-148 | the loop leaves the table equal to `Advance` of the old table and returns `Deltas` of the old table, in provider order |
| `Network.SortByName` | main.go:149-151 | after the in-place sort no entry's name is below that of an entry in front of it, and the entries are a permutation of those before |
| `Network.SampleNetwork` | main.go:130-152 | the network stage updates the table to `Advance` of the old one and returns a name-sorted permutation of the deltas, one per record |
| `Sampler.MandatoryFailure` | main.go:100-128 | the error of the first of the CPU, memory, disk and network queries that failed, in the order `getMetrics` makes them; none when all four succeeded |
| `Sampler.IsSnapshotOf` | main.go:97-160 | what a successful call returns: truncated CPU values, memory and disk copied, a name-sorted permutation of the deltas, and the process list exactly when its query succeeded |
| `Sampler.SnapshotCoversEachInterface` | main.go:131-151 | with distinct interface names, the snapshot's network section holds each record's delta against the table as it was before the cycle |
| `Sampler.SnapshotEntryDelta` | main.go:131-151 | with distinct interface names, the section's entry for an interface reports current minus stored (wrapping) when the table knew it, and the full cumulative count when it did not |
| `Sampler.GetMetrics` | main.go:97-160 | fails exactly when a CPU, memory, disk or network query fails, with the first such error, and then leaves the table unchanged; otherwise advances the table and returns truncated CPU values, the memory and disk figures, the sorted deltas, and the process list exactly when its query succeeded (a pm2 failure never fails the call) |
| `Connections.Registry.constructor` | main.go:30 | the registry starts with no members |
| `Connections.Registry.AddConnection` | main.go:34-38 | the connection becomes a member and every other membership is unchanged |
| `Connections.Registry.RemoveConnection` | main.go:40-44 | the connection stops being a member, removing a non-member changes nothing, and every other membership is unchanged |
| `Connections.HandleMetricsRequest` | main.go:199-210 | on a failed upgrade the handler answers with a 400 reply holding the error and the fixed message, and registers nothing; a successful one registers the new channel and sends no reply |
| `Broadcast.WriteToAll` | main.go:180-189 | every member at the start gets exactly one write, all of the same snapshot; the write is delivered exactly when the connection is not failing; afterwards the registry is the old one minus the failing connections |
| `Broadcast.SendMetricsTick` | main.go:166-189 | with no members: no sampling, no writes, registry and counter table unchanged; when sampling fails: the error is reported, with no writes and registry and table unchanged; otherwise the table advances and each member present at the start gets exactly one write of the same snapshot, and exactly the members whose write failed are removed |

## Left out

- The provider queries `cpu.Percent`, `mem.VirtualMemory`, `disk.Usage` and `net.IOCounters`
  (main.go:100, 109, 117, 125) are OS queries. They are inputs in `Snapshot.Readings`, and only
  the fields the program copies are kept.
- `getPm2Metrics` (main.go:86-95) runs the external `pm2 jlist` command and decodes its JSON.
  Its outcome is an input: a JSON decoding error counts as a failure, just as the caller
  ignores it.
- The WebSocket upgrade, `WriteJSON` serialisation and `conn.Close` are transport I/O. A write
  is a success/failure oracle (`failing`). Closing a failed connection is not modelled; only
  its removal from the registry is.
- The per-connection watcher loop (main.go:211-221) reads until the first error. Its exit is
  `RemoveConnection`; the reading loop itself is not modelled.
- `sync.Mutex` locking and the goroutines are not modelled. The model has one sequential
  caller, so it cannot show an add or remove interleaving with a tick.
- The endless loop and `time.Sleep` of `sendMetrics` are not modelled, nor are log output and
  the gin server setup. One call of `SendMetricsTick` is one iteration after its sleep.
- When a query fails, `getMetrics` also returns a partly filled `Metrics` value, which its
  caller discards. The model returns only the error.
- Snapshot.TruncateToHundredths: computes on exact reals, not on float64, and so does not
  model binary rounding error. For example, Go truncates 0.29 to 0.28, because 0.29 * 100 is
  28.999999999999996 in float64; the model gives 0.29. The precision argument is fixed at 2,
  the only value the program passes.
- Snapshot.TruncateIdempotent: holds only on exact reals. Go's float64 truncation is not
  idempotent: 0.2951 truncates to 0.29, and 0.29 truncates to 0.28, because 0.29 * 100 is
  28.999999999999996 in float64.
- Network.SortByName: the sort is an insertion sort, not Go's pattern-defeating quicksort. Its
  contract is what `sort.Slice` promises: sorted by name and a permutation. Entries with equal
  names, which only a provider listing an interface twice would produce, may end up in a
  different order than in Go.
- Names.Below: compares characters, not the bytes of the UTF-8 encoding. For well-formed UTF-8
  the two orders agree.
- Go's nil slices are empty sequences, except for the process list, which is `None` when its
  query failed. `int` fields of process records are unbounded integers.
- Broadcast.WriteToAll: visits the members in an arbitrary order, as Go's map iteration does.
  Its contract does not fix the order of the attempts.
