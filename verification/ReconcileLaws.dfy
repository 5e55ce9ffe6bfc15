/** What a pass of the ServiceEntry reconciler guarantees. */
module ReconcileLaws {
  import opened Floats
  import opened Ordering
  import opened Weights
  import opened Cycle
  import opened ServiceEntries

  /* ---- addressesChanged ---- */

  lemma {:induction false} Pigeonhole(existing: seq<Address>, merged: seq<Address>)
    requires NoDup(merged) && |existing| == |merged|
    requires forall a :: a in merged ==> a in existing
    ensures multiset(existing) == multiset(merged)
  {
    if merged != [] {
      var x, t := merged[0], merged[1..];
      assert x in merged;
      var j :| 0 <= j < |existing| && existing[j] == x;
      var r := Without(existing, j);
      assert existing == existing[..j] + [x] + existing[j + 1..];
      forall a | a in t ensures a in r {
        var k :| 0 <= k < |t| && t[k] == a;
        assert merged[k + 1] == a && a in merged && a != x;
        var m :| 0 <= m < |existing| && existing[m] == a;
        assert r[if m < j then m else m - 1] == a;
      }
      Pigeonhole(r, t);
      assert merged == [x] + t;
    }
  }

  /** For a list of endpoints without repetition, "no change" means that the ServiceEntry
      holds exactly those addresses, whatever the ServiceEntry was. */
  lemma NoChangeIsPermutation(existing: seq<Address>, merged: seq<Address>)
    requires NoDup(merged)
    ensures !Changed(existing, merged) <==> multiset(existing) == multiset(merged)
  {
    if !Changed(existing, merged) {
      forall a | a in merged ensures a in existing {}
      Pigeonhole(existing, merged);
    }
    if multiset(existing) == multiset(merged) {
      assert |existing| == |multiset(existing)| == |multiset(merged)| == |merged|;
      forall i | 0 <= i < |merged| ensures merged[i] in existing {
        assert merged[i] in multiset(merged);
      }
    }
  }

  lemma UnusedAddress(s: seq<Address>) returns (f: Address)
    ensures forall a :: a in s ==> |a| < |f|
    ensures f !in s
  {
    if s == [] {
      f := "x";
    } else {
      var g := UnusedAddress(s[1..]);
      f := if |g| > |s[0]| then g else s[0] + "x";
      assert s == [s[0]] + s[1..];
    }
  }

  /** The test is exact for every ServiceEntry if and only if the endpoints list no address
      twice. */
  lemma ChangedIsExactIffNoDup(merged: seq<Address>)
    ensures (forall existing: seq<Address> :: !Changed(existing, merged) ==> multiset(existing) == multiset(merged))
            <==> NoDup(merged)
  {
    if NoDup(merged) {
      forall existing: seq<Address> | !Changed(existing, merged) ensures multiset(existing) == multiset(merged) {
        NoChangeIsPermutation(existing, merged);
      }
    } else {
      var i, j :| 0 <= i < j < |merged| && merged[i] == merged[j];
      var f := UnusedAddress(merged);
      var existing := merged[i := f];
      forall k | 0 <= k < |merged| ensures merged[k] in existing {
        assert existing[if k == i then j else k] == merged[k];
      }
      assert !Changed(existing, merged);
      assert existing[i] == f;
      assert f in multiset(existing) && f !in multiset(merged);
    }
  }

  /* ---- Merge, then overlay ---- */

  datatype Optimiser = Absent | Present(endpoints: seq<Endpoint>)

  /** `Reconcile` with all its writes accepted. */
  ghost function Reconciled(cfg: Config, entries: seq<Entry>, addresses: seq<Address>, optimiser: Optimiser): seq<Entry>
    requires PercentileInRange(cfg)
  {
    var merged := AfterMerge(cfg, entries, addresses);
    match optimiser
    case Absent => merged
    case Present(endpoints) => Overlaid(OptimisedWeights(endpoints), merged)
  }

  lemma OverlayKeepsAddresses(weights: map<Address, Weight>, entries: seq<Entry>)
    ensures Addresses(Overlaid(weights, entries)) == Addresses(entries)
  {
  }

  lemma MergedAddresses(cfg: Config, entries: seq<Entry>, addresses: seq<Address>)
    requires PercentileInRange(cfg)
    ensures Addresses(Merged(cfg, entries, addresses)) == addresses
  {
  }

  lemma NothingChangedTwice(addresses: seq<Address>)
    ensures !Changed(addresses, addresses)
  {
    forall i | 0 <= i < |addresses| ensures addresses[i] in addresses {}
  }

  lemma OverlayIsIdempotent(weights: map<Address, Weight>, entries: seq<Entry>)
    ensures Overlaid(weights, Overlaid(weights, entries)) == Overlaid(weights, entries)
  {
  }

  /** One pass settles the merge: on its result the endpoints show no change. */
  lemma MergeSettles(cfg: Config, entries: seq<Entry>, addresses: seq<Address>, settled: seq<Entry>)
    requires PercentileInRange(cfg)
    requires Addresses(settled) == Addresses(AfterMerge(cfg, entries, addresses))
    ensures AfterMerge(cfg, settled, addresses) == settled
  {
    MergedAddresses(cfg, entries, addresses);
    NothingChangedTwice(addresses);
  }

  /** Reconciling converges in one pass: with unchanged endpoints and optimiser, a second pass
      leaves the ServiceEntry as it is, even when addresses repeat on either side. */
  lemma ReconcileConvergesInOnePass(cfg: Config, entries: seq<Entry>, addresses: seq<Address>, optimiser: Optimiser)
    requires PercentileInRange(cfg)
    ensures var once := Reconciled(cfg, entries, addresses, optimiser);
            Reconciled(cfg, once, addresses, optimiser) == once
  {
    hide Merged, Changed, OptimisedWeights, Overlaid;
    var merged := AfterMerge(cfg, entries, addresses);
    if optimiser.Absent? {
      MergeSettles(cfg, entries, addresses, merged);
    } else {
      var weights := OptimisedWeights(optimiser.endpoints);
      OverlayKeepsAddresses(weights, merged);
      MergeSettles(cfg, entries, addresses, Overlaid(weights, merged));
      OverlayIsIdempotent(weights, merged);
    }
  }

  lemma {:induction false} WeightMapKeys(entries: seq<Entry>)
    ensures forall a :: a in WeightMap(entries) <==> a in Addresses(entries)
  {
    if entries != [] {
      var n := |entries| - 1;
      WeightMapKeys(entries[..n]);
      assert Addresses(entries) == Addresses(entries[..n]) + [entries[n].address];
    }
  }

  lemma {:induction false} WeightMapEntry(entries: seq<Entry>, i: nat)
    requires i < |entries| && NoDup(Addresses(entries))
    ensures entries[i].address in WeightMap(entries)
    ensures WeightMap(entries)[entries[i].address] == entries[i].weight
  {
    var n := |entries| - 1;
    if i < n {
      var front := entries[..n];
      assert Addresses(front) == Addresses(entries)[..n];
      WeightMapEntry(front, i);
      assert Addresses(entries)[i] != Addresses(entries)[n];
    }
  }

  /** A merge over endpoints without repetition: the ServiceEntry ends with exactly those
      addresses, each with the weight it had, or else the newcomer weight. */
  lemma MergeOutcome(cfg: Config, entries: seq<Entry>, addresses: seq<Address>)
    requires PercentileInRange(cfg) && NoDup(addresses)
    ensures var had, after := WeightMap(entries), AfterMerge(cfg, entries, addresses);
            multiset(Addresses(after)) == multiset(addresses) &&
            forall i :: 0 <= i < |after| ==>
              var a := after[i].address;
              after[i].weight == if a in had then had[a] else DefaultWeight(cfg, had)
  {
    hide WeightMap, DefaultWeight;
    MergedAddresses(cfg, entries, addresses);
    NoChangeIsPermutation(Addresses(entries), addresses);
    if !Changed(Addresses(entries), addresses) {
      PermutationNoDup(addresses, Addresses(entries));
      forall i | 0 <= i < |entries|
        ensures entries[i].address in WeightMap(entries) && WeightMap(entries)[entries[i].address] == entries[i].weight
      {
        WeightMapEntry(entries, i);
      }
    }
  }

  /** A pass over endpoints without repetition: the ServiceEntry ends with exactly those
      addresses; each carries the optimiser's weight if there is an optimiser and that weight is
      not 0, else the weight it had, else the newcomer weight. */
  lemma ReconcileOutcome(cfg: Config, entries: seq<Entry>, addresses: seq<Address>, optimiser: Optimiser)
    requires PercentileInRange(cfg) && NoDup(addresses)
    ensures var weights := if optimiser.Present? then OptimisedWeights(optimiser.endpoints) else map[];
            var had, after := WeightMap(entries), Reconciled(cfg, entries, addresses, optimiser);
            multiset(Addresses(after)) == multiset(addresses) &&
            forall i :: 0 <= i < |after| ==>
              var a := after[i].address;
              after[i].weight == if a in weights && weights[a] != 0 then weights[a]
                                 else if a in had then had[a]
                                 else DefaultWeight(cfg, had)
  {
    hide OptimisedWeights, WeightMap, DefaultWeight, AfterMerge;
    MergeOutcome(cfg, entries, addresses);
    if optimiser.Present? {
      OverlayKeepsAddresses(OptimisedWeights(optimiser.endpoints), AfterMerge(cfg, entries, addresses));
    }
  }

  lemma NoDupMultiplicity(s: seq<Address>, a: Address)
    requires NoDup(s)
    ensures multiset(s)[a] <= 1
  {
    var keys := set x | x in s;
    OrderIsMultisetOfKeys(s, keys);
    assert multiset(keys)[a] <= 1;
  }

  lemma TwiceCounted(t: seq<Address>, i: nat, j: nat)
    requires i < j < |t| && t[i] == t[j]
    ensures multiset(t)[t[i]] >= 2
  {
    assert t == t[..j] + [t[j]] + t[j + 1..];
    assert t[..j][i] == t[i];
    assert t[i] in multiset(t[..j]);
  }

  lemma PermutationNoDup(s: seq<Address>, t: seq<Address>)
    requires NoDup(s) && multiset(s) == multiset(t)
    ensures NoDup(t)
  {
    forall i, j | 0 <= i < j < |t| ensures t[i] != t[j] {
      NoDupMultiplicity(s, t[i]);
      if t[i] == t[j] { TwiceCounted(t, i, j); }
    }
  }

  /* ---- The 0 that means absent ---- */

  /** What the overlay is for: take the optimiser's weight when it has the address. */
  function PlainOverlaid(weights: map<Address, Weight>, entries: seq<Entry>): seq<Entry> {
    seq(|entries|, i requires 0 <= i < |entries| =>
      if entries[i].address in weights then Entry(entries[i].address, weights[entries[i].address]) else entries[i])
  }

  /** The sentinel is harmless exactly when no listed address has an optimiser weight of 0 that
      differs from the weight it has. */
  lemma SentinelIsHarmlessIff(weights: map<Address, Weight>, entries: seq<Entry>)
    ensures Overlaid(weights, entries) == PlainOverlaid(weights, entries) <==>
            forall i :: 0 <= i < |entries| && entries[i].address in weights && weights[entries[i].address] == 0
              ==> entries[i].weight == 0
  {
    if Overlaid(weights, entries) == PlainOverlaid(weights, entries) {
      forall i | 0 <= i < |entries| && entries[i].address in weights && weights[entries[i].address] == 0
        ensures entries[i].weight == 0
      {
        assert Overlaid(weights, entries)[i] == PlainOverlaid(weights, entries)[i];
      }
    }
  }
}
