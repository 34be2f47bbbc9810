/**
 Engine times of DRM clients (src/extract_gpuinfo_amdgpu.c:1099-1198): the usage
 of an engine is the time it was busy since the client was last measured.
 */
module ClientCache {
  import opened Options
  import opened CIntegers
  import opened Arithmetic
  import opened Generations

  datatype ClientId = ClientId(clientId: nat, pid: int, pdev: string)

  /** What is remembered of a client; an engine time is present when its valid bit is set. */
  datatype Measurement = Measurement(gfx: Option<nat>, compute: Option<nat>, dec: Option<nat>, enc: Option<nat>,
                                     time: nat)

  /** The part of a process row that is read and set here. */
  datatype Process = Process(
    gfxUsed: Option<nat>, computeUsed: Option<nat>, decUsed: Option<nat>, encUsed: Option<nat>,
    gpuUsage: Option<nat>, decodeUsage: Option<nat>, encodeUsage: Option<nat>)

  /** Rounding of the busy share: new time, old time, time elapsed. */
  type Rounding = (nat, nat, nat) -> nat

  /** The busy share of an engine, if both times are there and plausible. */
  function Share(busy: Rounding, old_: Option<nat>, used: Option<nat>, elapsed: nat): Option<nat> {
    if old_.Some? && used.Some? && used.value >= old_.value && used.value - old_.value <= elapsed
    then Some(busy(used.value, old_.value, elapsed))
    else None
  }

  function OrElse(a: Option<nat>, b: Option<nat>): Option<nat> {
    if a.Some? then a else b
  }

  function ValueOf(a: Option<nat>): nat {
    if a.Some? then a.value else 0
  }

  /** The usages with respect to the previous measurement of the client. */
  function Measured(busy: Rounding, p: Process, m: Measurement, now: nat): Process {
    var elapsed := U64(now - m.time);
    var gfx, compute := Share(busy, m.gfx, p.gfxUsed, elapsed), Share(busy, m.compute, p.computeUsed, elapsed);
    var gpu := OrElse(gfx, p.gpuUsage);
    p.(gpuUsage := if compute.Some? then Some(ValueOf(gpu) + compute.value) else gpu,
       decodeUsage := OrElse(Share(busy, m.dec, p.decUsed, elapsed), p.decodeUsage),
       encodeUsage := OrElse(Share(busy, m.enc, p.encUsed, elapsed), p.encodeUsage))
  }

  function Shared(shared: bool, p: Process): Process {
    if shared then p.(decodeUsage := Some(ValueOf(p.decodeUsage) + ValueOf(p.encodeUsage))) else p
  }

  function MeasurementOf(p: Process, now: nat): Measurement {
    Measurement(p.gfxUsed, p.computeUsed, p.decUsed, p.encUsed, now)
  }

  // --------------------------------------------------- what the usages are ----

  /** Both times are there, the new one is not less, and the engine was not busy for longer than the time elapsed. */
  ghost predicate Plausible(before: Option<nat>, used: Option<nat>, elapsed: nat) {
    before.Some? && used.Some? && before.value <= used.value <= before.value + elapsed
  }

  /** The usage shown for an engine: measured if that is plausible, and otherwise the one that was given. */
  ghost predicate EngineShown(busy: Rounding, before: Option<nat>, used: Option<nat>, elapsed: nat,
                              given: Option<nat>, shown: Option<nat>)
  {
    && (Plausible(before, used, elapsed) ==> shown == Some(busy(used.value, before.value, elapsed)))
    && (!Plausible(before, used, elapsed) ==> shown == given)
  }

  /** The usage of the GPU: graphics and compute together. */
  ghost predicate GpuShown(busy: Rounding, m: Measurement, p: Process, elapsed: nat, shown: Option<nat>) {
    exists graphics ::
      && EngineShown(busy, m.gfx, p.gfxUsed, elapsed, p.gpuUsage, graphics)
      && (!Plausible(m.compute, p.computeUsed, elapsed) ==> shown == graphics)
      && (Plausible(m.compute, p.computeUsed, elapsed) ==>
            var compute := busy(p.computeUsed.value, m.compute.value, elapsed);
            shown == match graphics case Some(g) => Some(g + compute) case None => Some(compute))
  }

  /** Every engine is measured by its own times, since the time of the measurement; the times stay. */
  ghost predicate AllShown(busy: Rounding, m: Measurement, p: Process, elapsed: nat, shown: Process) {
    && GpuShown(busy, m, p, elapsed, shown.gpuUsage)
    && EngineShown(busy, m.dec, p.decUsed, elapsed, p.decodeUsage, shown.decodeUsage)
    && EngineShown(busy, m.enc, p.encUsed, elapsed, p.encodeUsage, shown.encodeUsage)
    && shown.gfxUsed == p.gfxUsed && shown.computeUsed == p.computeUsed
    && shown.decUsed == p.decUsed && shown.encUsed == p.encUsed
  }

  /** The time elapsed, as an unsigned difference. */
  ghost predicate Elapsed(before: nat, now: nat, elapsed: CULong) {
    elapsed == now - before || elapsed == now - before + TWO_64
  }

  lemma UsagesAreMeasured(busy: Rounding, p: Process, m: Measurement, now: nat, elapsed: CULong)
    requires Elapsed(m.time, now, elapsed)
    ensures AllShown(busy, m, p, elapsed, Measured(busy, p, m, now))
  {
    var graphics := OrElse(Share(busy, m.gfx, p.gfxUsed, elapsed), p.gpuUsage);
    assert EngineShown(busy, m.gfx, p.gfxUsed, elapsed, p.gpuUsage, graphics);
  }

  /** Where encoder and decoder are one engine, its usage is that of both; nothing else changes. */
  lemma SharedEngine(p: Process, decode: nat, encode: nat)
    requires p.decodeUsage == Some(decode) || (p.decodeUsage == None && decode == 0)
    requires p.encodeUsage == Some(encode) || (p.encodeUsage == None && encode == 0)
    ensures Shared(true, p).decodeUsage == Some(decode + encode)
    ensures Shared(true, p).(decodeUsage := p.decodeUsage) == p == Shared(false, p)
  {
  }

  /** 100 times the quotient, rounded to the nearest: busy_usage_from_time_usage_round. */
  function Rounded(used: nat, before: nat, elapsed: nat): nat
    requires elapsed > 0
  {
    U64(U64(used - before) * 100 + elapsed / 2) / elapsed
  }

  lemma QuotientBetween(x: nat, e: nat)
    requires e > 0
    ensures (x / e) * e <= x < (x / e) * e + e
  {
    assert x == e * (x / e) + x % e;
    assert e * (x / e) == (x / e) * e;
  }

  /** The rounded share is within half a percent, and at most 100, as long as the product does not wrap around. */
  lemma RoundedToNearest(used: nat, before: nat, elapsed: nat)
    requires 0 < elapsed < TWO_64 / 200 && Plausible(Some(before), Some(used), elapsed)
    ensures var busy := Rounded(used, before, elapsed);
            && 2 * (busy * elapsed) <= 200 * (used - before) + elapsed
            && 200 * (used - before) < 2 * (busy * elapsed) + elapsed + 1
            && busy <= 100
  {
    var x: nat := (used - before) * 100 + elapsed / 2;
    assert U64(used - before) == used - before && U64(x) == x;
    QuotientBetween(x, elapsed);
    if x / elapsed >= 101 {
      MulOrder(101, x / elapsed, elapsed);
    }
  }

  /** If no time has elapsed, the share is computed all the same, for an engine that was not busy. */
  lemma NoTimeElapsed(before: Option<nat>, used: Option<nat>)
    ensures Plausible(before, used, 0) <==> before.Some? && used == before
  {
  }

  /** The cache part of parse_drm_fdinfo_amd, for a file that names its client. */
  method ParseClient(cache: Cache<ClientId, Measurement>, id: ClientId, p: Process, now: nat, shared: bool,
                     busy: Rounding)
    returns (p': Process)
    requires cache.Valid()
    modifies cache, cache.live
    ensures cache.Valid() && old(cache.freed) <= cache.freed && old(cache.live) <= cache.live + cache.freed
    ensures fresh(cache.live - old(cache.live))
    ensures p' == Shared(shared,
                         if id in old(cache.lastValues) then Measured(busy, p, old(cache.lastValues)[id], now) else p)
    ensures cache.lastValues == old(cache.lastValues) - {id}
    ensures cache.currentValues == if id in old(cache.currentValues) then old(cache.currentValues)
                                   else old(cache.currentValues)[id := MeasurementOf(p, now)]
  {
    p' := p;
    var e: Entry<ClientId, Measurement>;
    if id in cache.last {
      e := cache.TakeLast(id);
      p' := Measured(busy, p, e.value, now);
    } else {
      e := cache.New(id, Measurement(None, None, None, None, 0));
      assert cache.lastValues - {id} == cache.lastValues;
    }
    p' := Shared(shared, p');
    if e.key in cache.current {
      cache.Free(e);
      return;
    }
    cache.SetHeld(e, MeasurementOf(p, now));
    cache.AddCurrent(e);
  }

  // ------------------------------------------------------------ refresh cycles ----

  /** One parsed file. */
  datatype Observation = Observation(id: ClientId, process: Process, now: nat)

  /** The values of both generations. */
  datatype Tables = Tables(last: map<ClientId, Measurement>, current: map<ClientId, Measurement>)

  function Observe(t: Tables, o: Observation): Tables {
    Tables(t.last - {o.id},
           if o.id in t.current then t.current else t.current[o.id := MeasurementOf(o.process, o.now)])
  }

  /** The observations of a refresh. */
  function ObserveAll(t: Tables, os: seq<Observation>): Tables
    decreases os
  {
    if os == [] then t else ObserveAll(Observe(t, os[0]), os[1..])
  }

  ghost predicate Observed(os: seq<Observation>, id: ClientId) {
    exists i :: 0 <= i < |os| && os[i].id == id
  }

  /** The measurement of the first file that names the client. */
  function FirstMeasurement(os: seq<Observation>, id: ClientId): Option<Measurement> {
    if os == [] then None
    else if os[0].id == id then Some(MeasurementOf(os[0].process, os[0].now))
    else FirstMeasurement(os[1..], id)
  }

  lemma {:induction false} FirstIsObserved(os: seq<Observation>, id: ClientId)
    ensures FirstMeasurement(os, id).Some? <==> Observed(os, id)
  {
    if os != [] {
      FirstIsObserved(os[1..], id);
      if Observed(os[1..], id) {
        var i :| 0 <= i < |os[1..]| && os[1..][i].id == id;
        assert os[i + 1].id == id;
      }
      if i :| 0 <= i < |os| && os[i].id == id {
        assert i > 0 ==> os[1..][i - 1].id == id;
      }
    }
  }

  function Lookup(t: map<ClientId, Measurement>, id: ClientId): Option<Measurement> {
    if id in t then Some(t[id]) else None
  }

  /** What becomes of a client during a refresh. */
  lemma {:induction false} ClientDuringRefresh(t: Tables, os: seq<Observation>, id: ClientId)
    ensures Lookup(ObserveAll(t, os).last, id) == if Observed(os, id) then None else Lookup(t.last, id)
    ensures Lookup(ObserveAll(t, os).current, id) ==
            if id in t.current then Lookup(t.current, id) else FirstMeasurement(os, id)
    decreases os
  {
    if os != [] {
      ClientDuringRefresh(Observe(t, os[0]), os[1..], id);
      FirstIsObserved(os[1..], id);
      FirstIsObserved(os, id);
    }
  }

  /** No client is in both generations at any time of a refresh. */
  lemma GenerationsStayApart(t: Tables, os: seq<Observation>)
    requires t.last.Keys !! t.current.Keys
    ensures ObserveAll(t, os).last.Keys !! ObserveAll(t, os).current.Keys
  {
    forall id: ClientId ensures id !in ObserveAll(t, os).last || id !in ObserveAll(t, os).current {
      ClientDuringRefresh(t, os, id);
      FirstIsObserved(os, id);
    }
  }

  /**
   A file contributes usages with respect to the previous refresh if and only if
   it is the first one of its client in this refresh and the client was in the
   previous one; further descriptors of a client are not measured against the first.
   */
  lemma MeasuredOncePerRefresh(t: Tables, os: seq<Observation>, i: nat)
    requires i < |os|
    ensures Lookup(ObserveAll(t, os[..i]).last, os[i].id)
            == if Observed(os[..i], os[i].id) then None else Lookup(t.last, os[i].id)
  {
    ClientDuringRefresh(t, os[..i], os[i].id);
  }

  /** The last generation after a number of refreshes, each ending with a swap. */
  function AfterRefreshes(last: map<ClientId, Measurement>,
                          refreshes: seq<seq<Observation>>): map<ClientId, Measurement> {
    if refreshes == [] then last
    else ObserveAll(Tables(AfterRefreshes(last, refreshes[..|refreshes| - 1]), map[]),
                    refreshes[|refreshes| - 1]).current
  }

  /** After any run, exactly the clients of the last refresh are remembered, each as it was seen first. */
  lemma OnlyTheLastRefreshIsRemembered(last: map<ClientId, Measurement>, refreshes: seq<seq<Observation>>, id: ClientId)
    requires refreshes != []
    ensures Lookup(AfterRefreshes(last, refreshes), id) == FirstMeasurement(refreshes[|refreshes| - 1], id)
    ensures id in AfterRefreshes(last, refreshes) <==> Observed(refreshes[|refreshes| - 1], id)
  {
    var os := refreshes[|refreshes| - 1];
    ClientDuringRefresh(Tables(AfterRefreshes(last, refreshes[..|refreshes| - 1]), map[]), os, id);
    FirstIsObserved(os, id);
  }

  lemma ObserveNext(t: Tables, os: seq<Observation>, o: Observation)
    ensures ObserveAll(t, os + [o]) == Observe(ObserveAll(t, os), o)
    decreases os
  {
    if os == [] {
      assert os + [o] == [o] && [o][1..] == [];
    } else {
      assert (os + [o])[1..] == os[1..] + [o];
      ObserveNext(Observe(t, os[0]), os[1..], o);
    }
  }

  /** The usages a file contributes. */
  function Contribution(last: map<ClientId, Measurement>, os: seq<Observation>, i: nat, shared: bool,
                        busy: Rounding): Process
    requires i < |os|
  {
    var o := os[i];
    Shared(shared,
           if FirstMeasurement(os[..i], o.id) == None && o.id in last then Measured(busy, o.process, last[o.id], o.now)
                   else o.process)
  }

  /**
   Two refreshes: the first file of a client in the second one shows what every
   engine did since the first file of the client in the first one.
   */
  lemma UsagesBetweenRefreshes(last: map<ClientId, Measurement>, os: seq<Observation>, j: nat, os': seq<Observation>,
                               i: nat, busy: Rounding, elapsed: CULong)
    requires j < |os| && i < |os'| && os[j].id == os'[i].id && !Observed(os[..j], os[j].id)
    requires !Observed(os'[..i], os'[i].id) && Elapsed(os[j].now, os'[i].now, elapsed)
    ensures var before, shown := os[j], Contribution(AfterRefreshes(last, [os]), os', i, false, busy);
      var m := Measurement(gfx := before.process.gfxUsed, compute := before.process.computeUsed,
                           dec := before.process.decUsed, enc := before.process.encUsed, time := before.now);
      AllShown(busy, m, os'[i].process, elapsed, shown)
  {
    var m := MeasurementOf(os[j].process, os[j].now);
    FirstOfClient(os, j);
    OnlyTheLastRefreshIsRemembered(last, [os], os[j].id);
    assert Lookup(AfterRefreshes(last, [os]), os[j].id) == Some(m);
    FirstIsObserved(os'[..i], os'[i].id);
    UsagesAreMeasured(busy, os'[i].process, m, os'[i].now, elapsed);
  }

  lemma {:induction false} FirstOfClient(os: seq<Observation>, j: nat)
    requires j < |os| && !Observed(os[..j], os[j].id)
    ensures FirstMeasurement(os, os[j].id) == Some(MeasurementOf(os[j].process, os[j].now))
  {
    if j > 0 {
      assert os[..j][0] == os[0];
      var between := os[1..][..j - 1];
      forall k | 0 <= k < |between| ensures between[k].id != os[j].id {
        assert between[k] == os[..j][k + 1];
      }
      FirstOfClient(os[1..], j - 1);
    }
  }

  /** The cache and the contributions after the first n files of a refresh. */
  ghost predicate Refreshing(cache: Cache<ClientId, Measurement>, last: map<ClientId, Measurement>,
                             os: seq<Observation>, n: nat, shared: bool, busy: Rounding, processes: seq<Process>)
    reads cache, cache.live
  {
    && n <= |os| && |processes| == n && cache.Valid()
    && Tables(cache.lastValues, cache.currentValues) == ObserveAll(Tables(last, map[]), os[..n])
    && forall k :: 0 <= k < n ==> processes[k] == Contribution(last, os, k, shared, busy)
  }

  method ParseNext(cache: Cache<ClientId, Measurement>, os: seq<Observation>, i: nat, shared: bool, busy: Rounding,
                   processes: seq<Process>, ghost last: map<ClientId, Measurement>)
    returns (processes': seq<Process>)
    requires i < |os| && Refreshing(cache, last, os, i, shared, busy, processes)
    modifies cache, cache.live
    ensures Refreshing(cache, last, os, i + 1, shared, busy, processes') && fresh(cache.live - old(cache.live))
    ensures old(cache.freed) <= cache.freed && old(cache.live) <= cache.live + cache.freed
  {
    MeasuredOncePerRefresh(Tables(last, map[]), os, i);
    FirstIsObserved(os[..i], os[i].id);
    assert os[..i + 1] == os[..i] + [os[i]];
    ObserveNext(Tables(last, map[]), os[..i], os[i]);
    var p := ParseClient(cache, os[i].id, os[i].process, os[i].now, shared, busy);
    processes' := processes + [p];
  }

  /** swap_process_cache_for_next_update after the files of a refresh were parsed. */
  method Refresh(cache: Cache<ClientId, Measurement>, os: seq<Observation>, shared: bool, busy: Rounding)
    returns (processes: seq<Process>)
    requires cache.Valid() && cache.currentValues == map[]
    modifies cache, cache.live
    ensures cache.Valid() && cache.currentValues == map[]
    ensures cache.lastValues == AfterRefreshes(old(cache.lastValues), [os])
    ensures old(cache.live) + old(cache.freed) <= cache.live + cache.freed
    ensures |processes| == |os|
    ensures forall i :: 0 <= i < |os| ==> processes[i] == Contribution(old(cache.lastValues), os, i, shared, busy)
  {
    ghost var last := cache.lastValues;
    processes := [];
    for i := 0 to |os|
      invariant Refreshing(cache, last, os, i, shared, busy, processes) && fresh(cache.live - old(cache.live))
      invariant old(cache.freed) <= cache.freed && old(cache.live) <= cache.live + cache.freed
    {
      processes := ParseNext(cache, os, i, shared, busy, processes, last);
    }
    assert os[..|os|] == os && [os][..0] == [];
    cache.Swap();
  }
}
