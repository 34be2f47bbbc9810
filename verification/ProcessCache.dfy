/**
 The cache of process information (src/extract_gpuinfo.c:202-277): the CPU usage of
 a process is measured between two visits of its pid.
 */
module ProcessCache {
  import opened Options
  import opened Generations

  /** Processor time consumed so far, and when it was read. */
  datatype Reading = Reading(total: real, time: real)

  /** What the cache keeps of a process; no reading is the negative total of the source. */
  type Known = Option<Reading>

  /** Rounding of the share in percent. */
  type Percent = (Reading, Reading) -> nat

  /** The usage a row gets: none if the process cannot be read, 0 without an earlier reading. */
  function Usage(percent: Percent, known: Known, reading: Known): Option<nat> {
    if reading.None? then None
    else if known.Some? then Some(percent(known.value, reading.value))
    else Some(0)
  }

  /** What is known of a process, in whichever generation it is. */
  function KnownOf(last: map<int, Known>, current: map<int, Known>, pid: int): Known {
    if pid in last then last[pid] else if pid in current then current[pid] else None
  }

  /** The entry of the pid moves to, or starts in, the current generation. */
  method FindEntry(cache: Cache<int, Known>, pid: int) returns (known: Known)
    requires cache.Valid()
    modifies cache, cache.live
    ensures cache.Valid() && cache.freed == old(cache.freed) && old(cache.live) <= cache.live
            && fresh(cache.live - old(cache.live))
    ensures known == old(KnownOf(cache.lastValues, cache.currentValues, pid))
    ensures pid in cache.current && cache.lastValues == old(cache.lastValues) - {pid}
    ensures cache.currentValues == old(cache.currentValues)[pid := known]
  {
    if pid in cache.last {
      var e := cache.TakeLast(pid);
      known := e.value;
      cache.AddCurrent(e);
    } else {
      assert cache.lastValues - {pid} == cache.lastValues;
      if pid !in cache.current {
        var e := cache.New(pid, None);
        cache.AddCurrent(e);
      }
      known := cache.current[pid].value;
    }
  }

  /** gpuinfo_populate_process_info for one row. */
  method VisitRow(cache: Cache<int, Known>, pid: int, reading: Known, percent: Percent) returns (usage: Option<nat>)
    requires cache.Valid()
    modifies cache, cache.live
    ensures cache.Valid() && cache.freed == old(cache.freed) && old(cache.live) <= cache.live
            && fresh(cache.live - old(cache.live))
    ensures usage == Usage(percent, old(KnownOf(cache.lastValues, cache.currentValues, pid)), reading)
    // no usage without a reading, 0 without an earlier one, and else the share between the two
    ensures reading.None? <==> usage.None?
    ensures reading.Some? && old(pid in cache.lastValues && cache.lastValues[pid].Some?) ==>
              usage == Some(percent(old(cache.lastValues)[pid].value, reading.value))
    ensures reading.Some? && old(pid !in cache.lastValues && pid in cache.currentValues
                                 && cache.currentValues[pid].Some?) ==>
              usage == Some(percent(old(cache.currentValues)[pid].value, reading.value))
    ensures reading.Some? && old(pid !in cache.lastValues && pid !in cache.currentValues) ==> usage == Some(0)
    ensures cache.lastValues == old(cache.lastValues) - {pid}
    ensures cache.currentValues == old(cache.currentValues)[pid := reading]
  {
    var known := FindEntry(cache, pid);
    usage := Usage(percent, known, reading);
    cache.SetCurrent(pid, reading);
  }

  // -------------------------------------------------------------- refreshes ----

  datatype Visit = Visit(pid: int, reading: Known)

  datatype Tables = Tables(last: map<int, Known>, current: map<int, Known>)

  function Visited(t: Tables, v: Visit): Tables {
    Tables(t.last - {v.pid}, t.current[v.pid := v.reading])
  }

  /** The rows of all devices, in order. */
  function VisitAll(t: Tables, vs: seq<Visit>): Tables {
    if vs == [] then t else Visited(VisitAll(t, vs[..|vs| - 1]), vs[|vs| - 1])
  }

  /** The last reading of the process among the visits. */
  function LastReading(vs: seq<Visit>, pid: int): Option<Known> {
    if vs == [] then None
    else if vs[|vs| - 1].pid == pid then Some(vs[|vs| - 1].reading)
    else LastReading(vs[..|vs| - 1], pid)
  }

  /** The last reading, or another one if the process was not visited. */
  function Latest(vs: seq<Visit>, pid: int, otherwise: Known): Known {
    if LastReading(vs, pid).Some? then LastReading(vs, pid).value else otherwise
  }

  ghost predicate IsVisited(vs: seq<Visit>, pid: int) {
    exists i :: 0 <= i < |vs| && vs[i].pid == pid
  }

  lemma {:induction false} LastReadingIsVisited(vs: seq<Visit>, pid: int)
    ensures LastReading(vs, pid).Some? <==> IsVisited(vs, pid)
  {
    if vs != [] {
      var n := |vs| - 1;
      LastReadingIsVisited(vs[..n], pid);
      if IsVisited(vs[..n], pid) {
        var i :| 0 <= i < n && vs[..n][i].pid == pid;
        assert vs[i].pid == pid;
      }
      if i :| 0 <= i < |vs| && vs[i].pid == pid {
        assert i < n ==> vs[..n][i].pid == pid;
      }
    }
  }

  /** What becomes of a process during a refresh: it is in one generation, and its last reading is kept. */
  lemma {:induction false} ProcessDuringRefresh(t: Tables, vs: seq<Visit>, pid: int)
    requires pid in t.last ==> pid !in t.current
    ensures pid in VisitAll(t, vs).last <==> pid in t.last && !IsVisited(vs, pid)
    ensures pid in VisitAll(t, vs).current <==> pid in t.current || IsVisited(vs, pid)
    ensures !(pid in VisitAll(t, vs).last && pid in VisitAll(t, vs).current)
    ensures KnownOf(VisitAll(t, vs).last, VisitAll(t, vs).current, pid) ==
            Latest(vs, pid, KnownOf(t.last, t.current, pid))
  {
    LastReadingIsVisited(vs, pid);
    if vs != [] {
      var n := |vs| - 1;
      ProcessDuringRefresh(t, vs[..n], pid);
      LastReadingIsVisited(vs[..n], pid);
    }
  }

  /**
   The usage of a row is measured from the latest earlier row of the same process,
   be it of another device in the same refresh; if there is none, from the
   previous refresh.
   */
  lemma MeasuredFromLatestVisit(percent: Percent, last: map<int, Known>, vs: seq<Visit>, i: nat)
    requires i < |vs|
    ensures var t := VisitAll(Tables(last, map[]), vs[..i]);
      Usage(percent, KnownOf(t.last, t.current, vs[i].pid), vs[i].reading) ==
      Usage(percent, Latest(vs[..i], vs[i].pid, KnownOf(last, map[], vs[i].pid)), vs[i].reading)
  {
    ProcessDuringRefresh(Tables(last, map[]), vs[..i], vs[i].pid);
    LastReadingIsVisited(vs[..i], vs[i].pid);
  }

  /** A row after row j of the same process, with none in between: the share is that since row j. */
  lemma MeasuredFromRow(percent: Percent, last: map<int, Known>, vs: seq<Visit>, j: nat, i: nat)
    requires j < i < |vs| && vs[j].pid == vs[i].pid && forall k :: j < k < i ==> vs[k].pid != vs[i].pid
    ensures var usage := UsageAt(percent, last, vs, i);
      && (vs[i].reading.None? ==> usage == None)
      && (vs[i].reading.Some? && vs[j].reading.None? ==> usage == Some(0))
      && (vs[i].reading.Some? && vs[j].reading.Some? ==>
            usage == Some(percent(vs[j].reading.value, vs[i].reading.value)))
  {
    LastReadingIs(vs[..i], j, vs[i].pid);
  }

  lemma {:induction false} LastReadingIs(vs: seq<Visit>, j: nat, pid: int)
    requires j < |vs| && vs[j].pid == pid && forall k :: j < k < |vs| ==> vs[k].pid != pid
    ensures LastReading(vs, pid) == Some(vs[j].reading)
  {
    if j < |vs| - 1 {
      LastReadingIs(vs[..|vs| - 1], j, pid);
    }
  }

  /** The first row of a process: the share is that since the last refresh, or 0 if it was not read there. */
  lemma MeasuredFromLastRefresh(percent: Percent, last: map<int, Known>, vs: seq<Visit>, i: nat)
    requires i < |vs| && !IsVisited(vs[..i], vs[i].pid)
    ensures var usage := UsageAt(percent, last, vs, i);
      && (vs[i].reading.None? ==> usage == None)
      && (vs[i].reading.Some? && (vs[i].pid in last ==> last[vs[i].pid].None?) ==> usage == Some(0))
      && (vs[i].reading.Some? && vs[i].pid in last && last[vs[i].pid].Some? ==>
            usage == Some(percent(last[vs[i].pid].value, vs[i].reading.value)))
  {
    LastReadingIsVisited(vs[..i], vs[i].pid);
  }

  /** The last generation after a number of refreshes. */
  function AfterRefreshes(last: map<int, Known>, refreshes: seq<seq<Visit>>): map<int, Known> {
    if refreshes == [] then last
    else VisitAll(Tables(AfterRefreshes(last, refreshes[..|refreshes| - 1]), map[]), refreshes[|refreshes| - 1]).current
  }

  /** After any run the cache holds exactly the processes of the last refresh, with their last readings. */
  lemma OnlyTheLastRefreshIsRemembered(last: map<int, Known>, refreshes: seq<seq<Visit>>, pid: int)
    requires refreshes != []
    ensures pid in AfterRefreshes(last, refreshes) <==> IsVisited(refreshes[|refreshes| - 1], pid)
    ensures pid in AfterRefreshes(last, refreshes) ==>
              LastReading(refreshes[|refreshes| - 1], pid) == Some(AfterRefreshes(last, refreshes)[pid])
  {
    var vs := refreshes[|refreshes| - 1];
    ProcessDuringRefresh(Tables(AfterRefreshes(last, refreshes[..|refreshes| - 1]), map[]), vs, pid);
    LastReadingIsVisited(vs, pid);
  }

  /** The usage of row i. */
  function UsageAt(percent: Percent, last: map<int, Known>, vs: seq<Visit>, i: nat): Option<nat>
    requires i < |vs|
  {
    Usage(percent, Latest(vs[..i], vs[i].pid, KnownOf(last, map[], vs[i].pid)), vs[i].reading)
  }

  /** The cache and the usages after the first n rows of a refresh. */
  ghost predicate Refreshing(cache: Cache<int, Known>, last: map<int, Known>, vs: seq<Visit>, n: nat, percent: Percent,
                             usages: seq<Option<nat>>)
    reads cache, cache.live
  {
    && n <= |vs| && |usages| == n && cache.Valid()
    && Tables(cache.lastValues, cache.currentValues) == VisitAll(Tables(last, map[]), vs[..n])
    && forall k :: 0 <= k < n ==> usages[k] == UsageAt(percent, last, vs, k)
  }

  method VisitNext(cache: Cache<int, Known>, vs: seq<Visit>, i: nat, percent: Percent, usages: seq<Option<nat>>,
                   ghost last: map<int, Known>)
    returns (usages': seq<Option<nat>>)
    requires i < |vs| && Refreshing(cache, last, vs, i, percent, usages)
    modifies cache, cache.live
    ensures Refreshing(cache, last, vs, i + 1, percent, usages') && cache.freed == old(cache.freed)
    ensures old(cache.live) <= cache.live && fresh(cache.live - old(cache.live))
  {
    MeasuredFromLatestVisit(percent, last, vs, i);
    assert vs[..i + 1][..i] == vs[..i];
    var usage := VisitRow(cache, vs[i].pid, vs[i].reading, percent);
    usages' := usages + [usage];
  }

  /** gpuinfo_refresh_processes, as far as the cache is concerned: the rows of all devices, and the swap. */
  method Refresh(cache: Cache<int, Known>, vs: seq<Visit>, percent: Percent) returns (usages: seq<Option<nat>>)
    requires cache.Valid() && cache.currentValues == map[]
    modifies cache, cache.live
    ensures cache.Valid() && cache.currentValues == map[]
    ensures cache.lastValues == AfterRefreshes(old(cache.lastValues), [vs])
    ensures old(cache.live) + old(cache.freed) <= cache.live + cache.freed
    ensures |usages| == |vs|
    ensures forall i :: 0 <= i < |vs| ==> usages[i] == UsageAt(percent, old(cache.lastValues), vs, i)
  {
    ghost var last := cache.lastValues;
    usages := [];
    for i := 0 to |vs|
      invariant Refreshing(cache, last, vs, i, percent, usages) && cache.freed == old(cache.freed)
      invariant old(cache.live) <= cache.live && fresh(cache.live - old(cache.live))
    {
      usages := VisitNext(cache, vs, i, percent, usages, last);
    }
    assert vs[..|vs|] == vs && [vs][..0] == [];
    cache.Swap();
  }
}
