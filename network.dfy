/**
 * The network stage of a sampling cycle (main.go, `getMetrics`, lines 125-152): per-interface
 * deltas against a persistent table of the last cumulative counters, the table's update, and
 * the sort of the deltas by interface name.
 */
module Network {
  import opened UInt64
  import opened Names
  import opened Snapshot

  /** What the table keeps for an interface after seeing one provider record. */
  function Stored(c: IOCounters): NetworkUsage
  {
    NetworkUsage(c.name, c.bytesSent, c.bytesRecv)
  }

  /** The names that occur in a batch of provider records. */
  function NamesOf(cs: seq<IOCounters>): set<string>
  {
    set c | c in cs :: c.name
  }

  /**
   * The delta reported for record `c` against `table`: for a known interface, what must be added
   * (modulo 2^64) to the stored counter to reach the current one; for an unknown interface,
   * the whole cumulative count.
   */
  function DeltaAgainst(table: map<string, NetworkUsage>, c: IOCounters): (u: NetworkUsage)
    ensures u.name == c.name
    ensures c.name !in table ==> u.bytesSent == c.bytesSent && u.bytesRecv == c.bytesRecv
    ensures c.name in table ==>
      Add(table[c.name].bytesSent, u.bytesSent) == c.bytesSent &&
      Add(table[c.name].bytesRecv, u.bytesRecv) == c.bytesRecv
  {
    if c.name in table then
      var prev := table[c.name];
      NetworkUsage(c.name, Sub(c.bytesSent, prev.bytesSent), Sub(c.bytesRecv, prev.bytesRecv))
    else
      NetworkUsage(c.name, c.bytesSent, c.bytesRecv)
  }

  /**
   * The table after the loop has processed the records `cs` in order: each record overwrites
   * the entry of its interface.
   */
  function Advance(table: map<string, NetworkUsage>, cs: seq<IOCounters>): map<string, NetworkUsage>
    decreases |cs|
  {
    if cs == [] then table
    else
      var last := cs[|cs| - 1];
      Advance(table, cs[..|cs| - 1])[last.name := Stored(last)]
  }

  /**
   * The deltas the loop appends, in provider order: each record is compared with the table as
   * the records before it have left it. There is one delta per record.
   */
  function Deltas(table: map<string, NetworkUsage>, cs: seq<IOCounters>): (ds: seq<NetworkUsage>)
    ensures |ds| == |cs|
    decreases |cs|
  {
    if cs == [] then []
    else
      var init := cs[..|cs| - 1];
      Deltas(table, init) + [DeltaAgainst(Advance(table, init), cs[|cs| - 1])]
  }

  lemma NamesOfSnoc(cs: seq<IOCounters>)
    requires cs != []
    ensures NamesOf(cs) == NamesOf(cs[..|cs| - 1]) + {cs[|cs| - 1].name}
  {
    assert cs == cs[..|cs| - 1] + [cs[|cs| - 1]];
  }

  /** After the loop the table knows the interfaces it knew before and those of the batch. */
  lemma {:induction false} AdvanceKeys(table: map<string, NetworkUsage>, cs: seq<IOCounters>)
    ensures Advance(table, cs).Keys == table.Keys + NamesOf(cs)
    decreases |cs|
  {
    if cs != [] {
      AdvanceKeys(table, cs[..|cs| - 1]);
      NamesOfSnoc(cs);
    }
  }

  /** An interface the batch does not mention keeps its entry. */
  lemma {:induction false} AdvanceKeepsOthers(table: map<string, NetworkUsage>, cs: seq<IOCounters>, n: string)
    requires n in table && n !in NamesOf(cs)
    ensures n in Advance(table, cs) && Advance(table, cs)[n] == table[n]
    decreases |cs|
  {
    if cs != [] {
      NamesOfSnoc(cs);
      AdvanceKeepsOthers(table, cs[..|cs| - 1], n);
    }
  }

  /** The interface of a batch's record now holds that record's cumulative counters, when no later record of the batch has the same name. */
  lemma {:induction false} AdvanceStoresLast(table: map<string, NetworkUsage>, cs: seq<IOCounters>, i: nat)
    requires i < |cs|
    requires forall j :: i < j < |cs| ==> cs[j].name != cs[i].name
    ensures cs[i].name in Advance(table, cs) && Advance(table, cs)[cs[i].name] == Stored(cs[i])
    decreases |cs|
  {
    if i < |cs| - 1 {
      AdvanceStoresLast(table, cs[..|cs| - 1], i);
    }
  }

  /** A name that the records do not mention is as present, or as absent, as it was. */
  lemma {:induction false} AdvanceLeavesUnmentioned(table: map<string, NetworkUsage>, cs: seq<IOCounters>, n: string)
    requires n !in NamesOf(cs)
    ensures n in Advance(table, cs) <==> n in table
    ensures n in table ==> Advance(table, cs)[n] == table[n]
  {
    AdvanceKeys(table, cs);
    if n in table {
      AdvanceKeepsOthers(table, cs, n);
    }
  }

  /** Each delta carries the name of its record. */
  lemma {:induction false} DeltasNames(table: map<string, NetworkUsage>, cs: seq<IOCounters>, i: nat)
    requires i < |cs|
    ensures Deltas(table, cs)[i].name == cs[i].name
    decreases |cs|
  {
    if i < |cs| - 1 {
      DeltasNames(table, cs[..|cs| - 1], i);
    }
  }

  /** The i-th delta is the i-th record measured against the table left by the records before it. */
  lemma {:induction false} DeltasAt(table: map<string, NetworkUsage>, cs: seq<IOCounters>, i: nat)
    requires i < |cs|
    ensures Deltas(table, cs)[i] == DeltaAgainst(Advance(table, cs[..i]), cs[i])
    decreases |cs|
  {
    var init := cs[..|cs| - 1];
    if i < |cs| - 1 {
      DeltasAt(table, init, i);
      assert init[..i] == cs[..i];
    } else {
      assert init == cs[..i];
    }
  }

  /**
   * The first record of an interface in a batch reports `current - stored` (wrapping modulo 2^64)
   * when the table knows the interface, and its full cumulative count when it does not.
   */
  lemma FirstSighting(table: map<string, NetworkUsage>, cs: seq<IOCounters>, i: nat)
    requires i < |cs|
    requires forall j :: 0 <= j < i ==> cs[j].name != cs[i].name
    ensures Deltas(table, cs)[i].name == cs[i].name
    ensures cs[i].name in table ==>
      Deltas(table, cs)[i].bytesSent == Sub(cs[i].bytesSent, table[cs[i].name].bytesSent) &&
      Deltas(table, cs)[i].bytesRecv == Sub(cs[i].bytesRecv, table[cs[i].name].bytesRecv)
    ensures cs[i].name !in table ==>
      Deltas(table, cs)[i].bytesSent == cs[i].bytesSent &&
      Deltas(table, cs)[i].bytesRecv == cs[i].bytesRecv
  {
    DeltasAt(table, cs, i);
    assert cs[i].name !in NamesOf(cs[..i]);
    AdvanceLeavesUnmentioned(table, cs[..i], cs[i].name);
  }

  /** The interface names of a batch, in provider order. */
  function ProviderNames(cs: seq<IOCounters>): seq<string>
  {
    seq(|cs|, i requires 0 <= i < |cs| => cs[i].name)
  }

  /** The names of a network section, in order. */
  function EntryNames(s: seq<NetworkUsage>): seq<string>
  {
    seq(|s|, i requires 0 <= i < |s| => s[i].name)
  }

  lemma ProviderNamesDistinct(cs: seq<IOCounters>)
    ensures Distinct(ProviderNames(cs)) <==>
      forall i, j :: 0 <= i < j < |cs| ==> cs[i].name != cs[j].name
  {
    var ns := ProviderNames(cs);
    assert forall i :: 0 <= i < |cs| ==> ns[i] == cs[i].name;
  }

  lemma EntryNamesDistinct(s: seq<NetworkUsage>)
    ensures Distinct(EntryNames(s)) <==>
      forall i, j :: 0 <= i < j < |s| ==> s[i].name != s[j].name
  {
    var ns := EntryNames(s);
    assert forall i :: 0 <= i < |s| ==> ns[i] == s[i].name;
  }

  /**
   * Two consecutive cycles: an interface reported in both shows, in the second, exactly the
   * growth of its cumulative counters between them (modulo 2^64).
   */
  lemma ConsecutiveCycles(
    table: map<string, NetworkUsage>, first: seq<IOCounters>, second: seq<IOCounters>, i: nat, k: nat)
    requires Distinct(ProviderNames(first)) && Distinct(ProviderNames(second))
    requires k < |first| && i < |second| && first[k].name == second[i].name
    ensures Deltas(Advance(table, first), second)[i].bytesSent == Sub(second[i].bytesSent, first[k].bytesSent)
    ensures Deltas(Advance(table, first), second)[i].bytesRecv == Sub(second[i].bytesRecv, first[k].bytesRecv)
  {
    ProviderNamesDistinct(first);
    ProviderNamesDistinct(second);
    AdvanceStoresLast(table, first, k);
    FirstSighting(Advance(table, first), second, i);
  }

  /** No entry has a name that comes before the name of an entry in front of it. */
  predicate SortedByName(s: seq<NetworkUsage>)
  {
    forall i, j :: 0 <= i < j < |s| ==> !Below(s[j].name, s[i].name)
  }

  lemma OccursTwice(a: seq<NetworkUsage>, i: nat, j: nat)
    requires i < j < |a| && a[i] == a[j]
    ensures multiset(a)[a[i]] >= 2
  {
    assert a == a[..j] + [a[j]] + a[j + 1..];
    assert a[i] in a[..j];
  }

  lemma OccursOnce(b: seq<NetworkUsage>, p: nat)
    requires p < |b| && Distinct(EntryNames(b))
    ensures multiset(b)[b[p]] == 1
  {
    EntryNamesDistinct(b);
    assert b == b[..p] + [b[p]] + b[p + 1..];
    assert b[p] !in b[..p];
    assert b[p] !in b[p + 1..];
  }

  /** Rearranging entries keeps their names apart. */
  lemma UniqueNamesPermuted(a: seq<NetworkUsage>, b: seq<NetworkUsage>)
    requires multiset(a) == multiset(b) && Distinct(EntryNames(b))
    ensures Distinct(EntryNames(a))
  {
    EntryNamesDistinct(a);
    EntryNamesDistinct(b);
    forall i, j | 0 <= i < j < |a|
      ensures a[i].name != a[j].name
    {
      if a[i].name == a[j].name {
        assert a[i] in multiset(b) && a[j] in multiset(b);
        var p :| 0 <= p < |b| && b[p] == a[i];
        var q :| 0 <= q < |b| && b[q] == a[j];
        OccursOnce(b, p);
        OccursTwice(a, i, j);
        assert false;
      }
    }
  }

  /** Two name-sorted arrangements of the same distinct-named entries start with the same entry. */
  lemma SameFirst(s1: seq<NetworkUsage>, s2: seq<NetworkUsage>)
    requires SortedByName(s1) && SortedByName(s2)
    requires Distinct(EntryNames(s1)) && multiset(s1) == multiset(s2)
    requires s1 != []
    ensures s2 != [] && s1[0] == s2[0]
  {
    assert s1[0] in multiset(s2);
    var j :| 0 <= j < |s2| && s2[j] == s1[0];
    assert s2[0] in multiset(s1);
    var i :| 0 <= i < |s1| && s1[i] == s2[0];
    EntryNamesDistinct(s1);
    if i != 0 && j != 0 {
      BelowTotal(s1[0].name, s1[i].name);
      assert false;
    }
  }

  /** With distinct names there is only one way to order a collection of entries by name. */
  lemma {:induction false} SortedUnique(s1: seq<NetworkUsage>, s2: seq<NetworkUsage>)
    requires SortedByName(s1) && SortedByName(s2)
    requires Distinct(EntryNames(s1)) && multiset(s1) == multiset(s2)
    ensures s1 == s2
    decreases |s1|
  {
    if s1 == [] {
      assert |s2| == |multiset(s2)| == 0;
    } else {
      SameFirst(s1, s2);
      EntryNamesDistinct(s1);
      EntryNamesDistinct(s1[1..]);
      MultisetRemoveFirst(s1);
      MultisetRemoveFirst(s2);
      MultisetCancel(multiset(s1[1..]), multiset(s2[1..]), s1[0]);
      SortedUnique(s1[1..], s2[1..]);
    }
  }

  /** Taking out the element at `k` takes one occurrence of it out of the multiset. */
  lemma MultisetRemoveAt<T>(s: seq<T>, k: nat)
    requires k < |s|
    ensures multiset(s) == multiset(s[..k] + s[k + 1..]) + multiset{s[k]}
  {
    assert s == s[..k] + [s[k]] + s[k + 1..];
  }

  lemma MultisetRemoveFirst<T>(s: seq<T>)
    requires s != []
    ensures multiset(s) == multiset(s[1..]) + multiset{s[0]}
  {
    assert s == [s[0]] + s[1..];
  }

  lemma MultisetCancel<T>(a: multiset<T>, b: multiset<T>, x: T)
    requires a + multiset{x} == b + multiset{x}
    ensures a == b
  {
    assert a == (a + multiset{x}) - multiset{x};
    assert b == (b + multiset{x}) - multiset{x};
  }

  /** Within a batch of distinct names, every record is measured against the table as it was. */
  lemma DeltasOfDistinct(table: map<string, NetworkUsage>, cs: seq<IOCounters>)
    requires Distinct(ProviderNames(cs))
    ensures forall i :: 0 <= i < |cs| ==> Deltas(table, cs)[i] == DeltaAgainst(table, cs[i])
  {
    ProviderNamesDistinct(cs);
    forall i | 0 <= i < |cs|
      ensures Deltas(table, cs)[i] == DeltaAgainst(table, cs[i])
    {
      FirstSighting(table, cs, i);
    }
  }

  /** Measuring the records of two listings in the same order-free way gives the same entries. */
  lemma {:induction false} MeasuredPermutation(
    table: map<string, NetworkUsage>, cs1: seq<IOCounters>, cs2: seq<IOCounters>,
    d1: seq<NetworkUsage>, d2: seq<NetworkUsage>)
    requires multiset(cs1) == multiset(cs2)
    requires |d1| == |cs1| && forall i :: 0 <= i < |cs1| ==> d1[i] == DeltaAgainst(table, cs1[i])
    requires |d2| == |cs2| && forall i :: 0 <= i < |cs2| ==> d2[i] == DeltaAgainst(table, cs2[i])
    ensures multiset(d1) == multiset(d2)
    decreases |cs1|
  {
    if cs1 == [] {
      assert |cs2| == |multiset(cs2)| == 0;
    } else {
      assert cs1[0] in multiset(cs2);
      var k :| 0 <= k < |cs2| && cs2[k] == cs1[0];
      var rest2, drest2 := cs2[..k] + cs2[k + 1..], d2[..k] + d2[k + 1..];
      MultisetRemoveAt(cs2, k);
      MultisetRemoveAt(d2, k);
      MultisetRemoveFirst(cs1);
      MultisetRemoveFirst(d1);
      MultisetCancel(multiset(cs1[1..]), multiset(rest2), cs1[0]);
      forall i | 0 <= i < |rest2|
        ensures drest2[i] == DeltaAgainst(table, rest2[i])
      {
        if i >= k {
          assert drest2[i] == d2[i + 1] && rest2[i] == cs2[i + 1];
        }
      }
      MeasuredPermutation(table, cs1[1..], rest2, d1[1..], drest2);
    }
  }

  /**
   * The network section does not depend on the order in which the provider lists the
   * interfaces: for the same table and the same distinct-named records in any order, every
   * name-sorted arrangement of the deltas is the same sequence.
   */
  lemma NetworkOrderIndependent(
    table: map<string, NetworkUsage>, cs1: seq<IOCounters>, cs2: seq<IOCounters>,
    n1: seq<NetworkUsage>, n2: seq<NetworkUsage>)
    requires Distinct(ProviderNames(cs1)) && Distinct(ProviderNames(cs2)) && multiset(cs1) == multiset(cs2)
    requires SortedByName(n1) && multiset(n1) == multiset(Deltas(table, cs1))
    requires SortedByName(n2) && multiset(n2) == multiset(Deltas(table, cs2))
    ensures n1 == n2
  {
    DeltasOfDistinct(table, cs1);
    DeltasOfDistinct(table, cs2);
    MeasuredPermutation(table, cs1, cs2, Deltas(table, cs1), Deltas(table, cs2));
    var d1 := Deltas(table, cs1);
    forall i | 0 <= i < |d1|
      ensures d1[i].name == cs1[i].name
    {
      DeltasNames(table, cs1, i);
    }
    ProviderNamesDistinct(cs1);
    EntryNamesDistinct(d1);
    UniqueNamesPermuted(n1, d1);
    SortedUnique(n1, n2);
  }

  /** The persistent table from interface name to the last cumulative counters seen. */
  class CounterTable {
    var entries: map<string, NetworkUsage>

    constructor ()
      ensures entries == map[]
    {
      entries := map[];
    }
  }

  /** The loop over the provider's records: reads and updates the table, collects the deltas. */
  method RecordCounters(table: CounterTable, stats: seq<IOCounters>) returns (deltas: seq<NetworkUsage>)
    modifies table
    ensures table.entries == Advance(old(table.entries), stats)
    ensures deltas == Deltas(old(table.entries), stats)
  {
    deltas := [];
    for i := 0 to |stats|
      invariant table.entries == Advance(old(table.entries), stats[..i])
      invariant deltas == Deltas(old(table.entries), stats[..i])
    {
      var stat := stats[i];
      assert stats[..i + 1][..i] == stats[..i];
      var deltaSent, deltaRecv := stat.bytesSent, stat.bytesRecv;
      if stat.name in table.entries {
        var prev := table.entries[stat.name];
        deltaSent := Sub(deltaSent, prev.bytesSent);
        deltaRecv := Sub(deltaRecv, prev.bytesRecv);
      }
      table.entries := table.entries[stat.name := NetworkUsage(stat.name, stat.bytesSent, stat.bytesRecv)];
      deltas := deltas + [NetworkUsage(stat.name, deltaSent, deltaRecv)];
    }
    assert stats[..|stats|] == stats;
  }

  /** Exchanges two neighbouring entries. */
  method SwapDown(a: array<NetworkUsage>, j: nat)
    requires 0 < j < a.Length
    modifies a
    ensures a[..] == old(a[..])[j - 1 := old(a[j])][j := old(a[j - 1])]
    ensures multiset(a[..]) == multiset(old(a[..]))
  {
    a[j - 1], a[j] := a[j], a[j - 1];
  }

  /** One step of the sort: moves `a[i]` left into the already sorted prefix `a[..i]`. */
  method InsertIntoSorted(a: array<NetworkUsage>, i: nat)
    requires i < a.Length
    requires SortedByName(a[..i])
    modifies a
    ensures SortedByName(a[..i + 1])
    ensures multiset(a[..]) == multiset(old(a[..]))
  {
    var j := i;
    while 0 < j && Below(a[j].name, a[j - 1].name)
      invariant 0 <= j <= i
      invariant forall k, l :: 0 <= k < l <= i && k != j && l != j ==> !Below(a[l].name, a[k].name)
      invariant forall l :: j < l <= i ==> Below(a[j].name, a[l].name)
      invariant multiset(a[..]) == multiset(old(a[..]))
    {
      SwapDown(a, j);
      j := j - 1;
    }
    forall k, l | 0 <= k < l <= i
      ensures !Below(a[l].name, a[k].name)
    {
      if l == j {
        if k < j - 1 {
          NotBelowTransitive(a[k].name, a[j - 1].name, a[j].name);
        }
      } else if k == j {
        BelowAsymmetric(a[k].name, a[l].name);
      }
    }
  }

  /** The sort of the network section by name, in place; equal names may end up in any order. */
  method SortByName(a: array<NetworkUsage>)
    modifies a
    ensures SortedByName(a[..])
    ensures multiset(a[..]) == multiset(old(a[..]))
  {
    for i := 0 to a.Length
      invariant SortedByName(a[..i])
      invariant multiset(a[..]) == multiset(old(a[..]))
    {
      InsertIntoSorted(a, i);
    }
    assert a[..a.Length] == a[..];
  }

  /**
   * The whole network stage under its lock: the loop over the provider's records, then the sort.
   * The result holds one entry per record, ordered by name.
   */
  method SampleNetwork(table: CounterTable, stats: seq<IOCounters>) returns (network: seq<NetworkUsage>)
    modifies table
    ensures table.entries == Advance(old(table.entries), stats)
    ensures SortedByName(network)
    ensures multiset(network) == multiset(Deltas(old(table.entries), stats))
  {
    var deltas := RecordCounters(table, stats);
    var a := new NetworkUsage[|deltas|](i requires 0 <= i < |deltas| => deltas[i]);
    assert a[..] == deltas;
    SortByName(a);
    network := a[..];
  }
}
