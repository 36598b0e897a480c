/** The LinkGuardian solution, and its combination with CorrOpt. */
module LinkGuardian {
  import opened Collections
  import opened Fabrics
  import opened Indexes
  import opened Topologies
  import opened Events
  import opened CorrOpt

  /** sys.maxsize on the 64-bit platforms the simulator runs on. */
  const MAX_SIZE := 9223372036854775807.0

  datatype PerfEntry = PerfEntry(lossRate: real, effectiveLossRate: real, effectiveCapacity: real)

  function Distance(x: real, y: real): real {
    if x < y then y - x else x - y
  }

  /** `q` lies strictly between `r` and the mirror image of `r` in `x`. */
  predicate Closer(x: real, q: real, r: real) {
    r < q < 2.0 * x - r || 2.0 * x - r < q < r
  }

  /** LinkGuardian runs on `l` with the values of `e`. */
  function Guard(s: State, l: Link, e: PerfEntry): State {
    s.(lgEnabled := s.lgEnabled + {l}, effectiveRate := s.effectiveRate[l := e.effectiveLossRate],
       effectiveCapacity := s.effectiveCapacity[l := e.effectiveCapacity])
  }

  /** The performance table as a dictionary: measured rates in the order of their first entry, each with the values
      of its last. */
  datatype PerfTable = PerfTable(rates: seq<real>, perf: map<real, PerfEntry>)
  {
    ghost predicate WellFormed() {
      NoDup(rates) && forall r :: r in rates <==> r in perf
    }

    /** Some measured rate is close enough to be looked up; otherwise the lookup raises a key error. */
    ghost predicate Covers(lossRate: real) {
      exists i :: 0 <= i < |rates| && lossRate - MAX_SIZE < rates[i] < lossRate + MAX_SIZE
    }

    /** No measured rate is closer to `lossRate` than rate `i`, and none before it is as close. */
    ghost predicate FirstNearest(lossRate: real, i: nat) {
      && i < |rates|
      && (forall j :: 0 <= j < |rates| ==> !Closer(lossRate, rates[j], rates[i]))
      && (forall j :: 0 <= j < i ==> Closer(lossRate, rates[i], rates[j]))
    }

    /** `e` holds the values of the measured rate nearest to `lossRate`. */
    ghost predicate Nearest(lossRate: real, e: PerfEntry) {
      exists i: nat :: FirstNearest(lossRate, i) && rates[i] in perf && e == perf[rates[i]]
    }

    /** A measured rate is looked up as itself. */
    lemma NearestMeasured(lossRate: real, e: PerfEntry)
      requires WellFormed() && Nearest(lossRate, e) && lossRate in perf
      ensures e == perf[lossRate]
    {
      var i: nat :| FirstNearest(lossRate, i) && rates[i] in perf && e == perf[rates[i]];
      assert lossRate in rates && !Closer(lossRate, lossRate, rates[i]);
    }

    /** What activating LinkGuardian does after a failure of `l`: a capable link runs with the effective values of the
        nearest measured rate, any other is left alone. */
    ghost predicate Guarded(s: State, s': State, l: Link, lossRate: real) {
      if l in s.fabric.lgCapable then exists e :: Nearest(lossRate, e) && s' == Guard(s, l, e) else s' == s
    }
  }

  function Insert(t: PerfTable, e: PerfEntry): PerfTable {
    PerfTable(if e.lossRate in t.perf then t.rates else t.rates + [e.lossRate], t.perf[e.lossRate := e])
  }

  function TableOf(entries: seq<PerfEntry>): PerfTable {
    if entries == [] then PerfTable([], map[]) else Insert(TableOf(entries[..|entries| - 1]), entries[|entries| - 1])
  }

  lemma {:induction false} TableWellFormed(entries: seq<PerfEntry>)
    ensures TableOf(entries).WellFormed()
    ensures forall r :: r in TableOf(entries).perf ==> exists k :: 0 <= k < |entries| && entries[k].lossRate == r
  {
    if entries != [] {
      var before, last := entries[..|entries| - 1], entries[|entries| - 1];
      TableWellFormed(before);
      if last.lossRate !in TableOf(before).perf {
        AppendNoDup(TableOf(before).rates, last.lossRate);
      }
      forall r | r in TableOf(entries).perf
        ensures exists k :: 0 <= k < |entries| && entries[k].lossRate == r
      {
        if r == last.lossRate {
          assert entries[|entries| - 1].lossRate == r;
        } else {
          var k :| 0 <= k < |before| && before[k].lossRate == r;
          assert entries[k].lossRate == r;
        }
      }
    }
  }

  /** The table holds exactly the measured rates, each once and with the values of its last entry. */
  lemma {:induction false} TableHolds(entries: seq<PerfEntry>, k: nat)
    requires k < |entries| && forall j :: k < j < |entries| ==> entries[j].lossRate != entries[k].lossRate
    ensures TableOf(entries).WellFormed()
    ensures entries[k].lossRate in TableOf(entries).perf && TableOf(entries).perf[entries[k].lossRate] == entries[k]
  {
    var before := entries[..|entries| - 1];
    TableWellFormed(entries);
    if k < |before| {
      TableHolds(before, k);
    }
  }

  /** Activating LinkGuardian disables nothing and changes no raw rate. */
  lemma GuardedKeeps(t: PerfTable, s: State, s': State, l: Link, lossRate: real)
    requires t.Guarded(s, s', l, lossRate)
    ensures s'.fabric == s.fabric && s'.down == s.down && s'.corrupting == s.corrupting && s'.rate == s.rate
    ensures s'.podKeys == s.podKeys && s'.Up() == s.Up()
  {
  }

  lemma GuardedFabric(t: PerfTable, s: State, l: Link, lossRate: real)
    ensures forall s' :: t.Guarded(s, s', l, lossRate) ==> s'.fabric == s.fabric
  {
  }

  class LinkGuardianSolution {
    const topo: Topology
    const table: PerfTable
    var activeLgLinks: set<Link>

    /** Loads the performance data into a dictionary; a repeated rate keeps its place and takes the new values. */
    constructor (topo: Topology, entries: seq<PerfEntry>)
      ensures this.topo == topo && table == TableOf(entries) && table.WellFormed() && activeLgLinks == {}
    {
      var loaded := PerfTable([], map[]);
      for i := 0 to |entries|
        invariant loaded == TableOf(entries[..i])
      {
        assert entries[..i + 1][..i] == entries[..i];
        loaded := Insert(loaded, entries[i]);
      }
      assert entries[..|entries|] == entries;
      TableWellFormed(entries);
      this.topo, table, activeLgLinks := topo, loaded, {};
    }

    /** The values of the measured rate nearest to `lossRate`, the first one of several. */
    method GetEffectiveLossRateCapacity(lossRate: real) returns (closest: Option<PerfEntry>)
      requires table.WellFormed()
      ensures closest.Some? <==> table.Covers(lossRate)
      ensures closest.Some? ==> table.Nearest(lossRate, closest.value)
      ensures lossRate in table.perf ==> closest == Some(table.perf[lossRate])
    {
      var minDistance := MAX_SIZE;
      var closestRate := None;
      ghost var at := 0;
      for i := 0 to |table.rates|
        invariant forall j :: 0 <= j < i ==> minDistance <= Distance(lossRate, table.rates[j])
        invariant closestRate.None? ==> minDistance == MAX_SIZE
        invariant closestRate.Some? ==>
                    && 0 <= at < i && closestRate.value == table.rates[at]
                    && minDistance == Distance(lossRate, table.rates[at]) < MAX_SIZE
                    && forall j :: 0 <= j < at ==> minDistance < Distance(lossRate, table.rates[j])
      {
        var distance := Distance(lossRate, table.rates[i]);
        if distance < minDistance {
          minDistance, closestRate, at := distance, Some(table.rates[i]), i;
        }
      }
      closest := if closestRate.None? then None else Some(table.perf[closestRate.value]);
      if closest.Some? {
        assert table.FirstNearest(lossRate, at);
      }
      if lossRate in table.perf {
        var k :| 0 <= k < |table.rates| && table.rates[k] == lossRate;
        table.NearestMeasured(lossRate, closest.value);
      }
    }

    /** Runs LinkGuardian on `l` with the given effective values, whether it ran there before or not. */
    method Activate(l: Link, e: PerfEntry)
      requires topo.Valid() && l in topo.Up()
      modifies this, topo
      ensures topo.Valid() && topo.CurrentState() == Guard(old(topo.CurrentState()), l, e)
      ensures l in topo.effectiveLossRate && topo.effectiveLossRate[l] == e.effectiveLossRate
      ensures l in topo.effectiveCapacity && topo.effectiveCapacity[l] == e.effectiveCapacity
      ensures activeLgLinks == old(activeLgLinks) + {l}
    {
      hide Topology.Valid;
      topo.SetLinkGuardianEnabled(l);
      topo.UpdateEffectiveLinkCapacity(l, e.effectiveCapacity);
      topo.SetGuardedEffectiveLossRate(l, e.effectiveLossRate);
      activeLgLinks := activeLgLinks + {l};
    }

    /** Activates LinkGuardian on a capable link, or refreshes its effective values if it runs there already. */
    method ProcessFailure(l: Link, lossRate: real)
      requires topo.Valid() && l in topo.Up() && table.WellFormed()
      requires l in topo.fabric.lgCapable ==> table.Covers(lossRate)
      modifies this, topo
      ensures topo.Valid() && table.Guarded(old(topo.CurrentState()), topo.CurrentState(), l, lossRate)
      ensures l in old(topo.fabric).lgCapable ==>
                exists e :: table.Nearest(lossRate, e) && l in topo.effectiveLossRate && l in topo.effectiveCapacity
                            && topo.effectiveLossRate[l] == e.effectiveLossRate
                            && topo.effectiveCapacity[l] == e.effectiveCapacity
      ensures activeLgLinks == (if l in old(topo.fabric).lgCapable then old(activeLgLinks) + {l}
                                else old(activeLgLinks))
    {
      hide Topology.Valid, PerfTable.WellFormed, PerfTable.Covers, PerfTable.Nearest, Guard;
      if l in topo.fabric.lgCapable {
        var closest := GetEffectiveLossRateCapacity(lossRate);
        Activate(l, closest.value);
      }
    }
  }

  /** LinkGuardian first, then CorrOpt's fast checker; CorrOpt's optimizer on recoveries. */
  class LgCorrOptSolution {
    const topo: Topology
    const linkguardian: LinkGuardianSolution
    const corropt: CorrOptSolution
    var failedToDisable: nat
    var failedWithoutLg: nat
    var unhandled: nat

    constructor (linkguardian: LinkGuardianSolution, corropt: CorrOptSolution)
      requires linkguardian.topo == corropt.topo
      ensures this.linkguardian == linkguardian && this.corropt == corropt && topo == corropt.topo
      ensures failedToDisable == failedWithoutLg == unhandled == 0
    {
      this.topo, this.linkguardian, this.corropt := corropt.topo, linkguardian, corropt;
      failedToDisable, failedWithoutLg, unhandled := 0, 0, 0;
    }

    ghost predicate Wired() {
      linkguardian.topo == topo && corropt.topo == topo && linkguardian.table.WellFormed()
    }

    /** `l` does not support LinkGuardian, or its rate can be looked up. */
    ghost predicate CanGuard(l: Link, lossRate: real)
      reads topo
    {
      l in topo.fabric.lgCapable ==> linkguardian.table.Covers(lossRate)
    }

    /** Activates LinkGuardian where the link supports it, which leads to `guarded`; then the fast checker decides. */
    method ActivateAndCheck(l: Link, lossRate: real, now: int) returns (e: LinkEvent, ghost guarded: State)
      requires Wired() && topo.Valid() && l in topo.corruptingLinks && CanGuard(l, lossRate)
      modifies linkguardian, corropt`failedToDisable, topo
      ensures topo.Valid() && linkguardian.table.Guarded(old(topo.CurrentState()), guarded, l, lossRate)
      ensures if old(corropt.Allows({l})) then IsRepairOf(e, l, now) && topo.CurrentState() == guarded.Without({l})
              else e == Nop && topo.CurrentState() == guarded
    {
      hide Topology.Valid, Safe, PerfTable.WellFormed, PerfTable.Covers, PerfTable.Nearest;
      topo.Shape();
      ghost var s := topo.CurrentState();
      if l in topo.fabric.lgCapable {
        linkguardian.ProcessFailure(l, lossRate);
        GuardedKeeps(linkguardian.table, s, topo.CurrentState(), l, lossRate);
      }
      guarded := topo.CurrentState();
      assert corropt.Allows({l}) == old(corropt.Allows({l}));
      e := corropt.FastChecker(l, now);
    }

    method ProcessFailure(l: Link, lossRate: real, now: int) returns (e: LinkEvent, ghost guarded: State)
      requires Wired() && topo.Valid() && l in topo.corruptingLinks && CanGuard(l, lossRate)
      modifies this, linkguardian, corropt`failedToDisable, topo
      ensures topo.Valid() && linkguardian.table.Guarded(old(topo.CurrentState()), guarded, l, lossRate)
      ensures if old(corropt.Allows({l})) then IsRepairOf(e, l, now) && topo.CurrentState() == guarded.Without({l})
              else e == Nop && topo.CurrentState() == guarded
      ensures failedToDisable == old(failedToDisable) + (if e == Nop then 1 else 0)
      ensures failedWithoutLg == old(failedWithoutLg) + (if l in old(topo.fabric).lgCapable then 0 else 1)
      ensures unhandled == old(unhandled) + (if l !in old(topo.fabric).lgCapable && e == Nop then 1 else 0)
    {
      hide Topology.Valid, Safe, PerfTable.Guarded, PerfTable.WellFormed, PerfTable.Covers;
      GuardedFabric(linkguardian.table, topo.CurrentState(), l, lossRate);
      if l !in topo.fabric.lgCapable {
        failedWithoutLg := failedWithoutLg + 1;
      }
      e, guarded := ActivateAndCheck(l, lossRate, now);
      if e == Nop {
        failedToDisable := failedToDisable + 1;
        if l !in topo.fabric.lgCapable {
          unhandled := unhandled + 1;
        }
      }
    }
  }
}
