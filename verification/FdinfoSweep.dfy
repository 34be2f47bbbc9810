/**
 The walk over the descriptors of all processes
 (src/extract_processinfo_fdinfo.c:101-300). What the system answers is an input:
 the directories, the comparison of descriptors, and what each callback makes of
 a descriptor.
 */
module FdinfoSweep {
  import opened Options
  import opened FdinfoCallbacks

  const PROCESS_ARRAY_INCREMENT: nat := 16

  datatype Kind = Graphical | Compute

  datatype Counter =
    | GpuMemoryUsage | GpuUsage | EncodeUsage | DecodeUsage | GfxEngineUsed | ComputeEngineUsed
    | EncEngineUsed | DecEngineUsed | GpuCycles | SampleDelta

  /** What a callback reads from a descriptor; a counter is present when its valid bit is set. */
  datatype Usage = Usage(kinds: set<Kind>, counters: map<Counter, nat>)

  /** A process row of a device. */
  datatype Row = Row(pid: int, usage: Usage)

  const NO_USAGE: Usage := Usage({}, map[])

  /** A descriptor: its number, whether it is a DRM device, and whether its information can be opened. */
  datatype Fd = Fd(num: int, drm: bool, opens: bool)

  /** A process directory; pid 0 stands for a name that is not a number. */
  datatype Process = Process(pid: int, accessible: bool, fds: seq<Fd>)

  /** kcmp of two descriptors of a process, and what callback number i makes of a descriptor. */
  datatype World = World(kcmp: (int, int, int) -> int, answer: (nat, int, int) -> Option<Usage>)

  // ----------------------------------------------------------- specification ----

  /** The descriptor refers to an open file that was seen already, or cannot be compared. */
  predicate SeenBefore(w: World, pid: int, num: int, seen: seq<int>) {
    exists i :: 0 <= i < |seen| && w.kcmp(pid, num, seen[i]) <= 0
  }

  predicate IsUnique(w: World, pid: int, fd: Fd, seen: seq<int>) {
    fd.drm && !SeenBefore(w, pid, fd.num, seen)
  }

  /** The numbers of the unique descriptors. */
  function Seen(w: World, pid: int, fds: seq<Fd>): seq<int> {
    if fds == [] then []
    else
      var seen, fd := Seen(w, pid, fds[..|fds| - 1]), fds[|fds| - 1];
      if IsUnique(w, pid, fd, seen) then seen + [fd.num] else seen
  }

  /** The first active callback from i on that accepts the descriptor; the number of callbacks if there is none. */
  function Winner<G>(w: World, entries: seq<Callback<G>>, pid: int, num: int, i: nat): (r: nat)
    requires i <= |entries|
    ensures i <= r <= |entries|
    ensures r < |entries| ==> entries[r].active && w.answer(r, pid, num).Some?
    ensures forall k :: i <= k < r ==> !entries[k].active || w.answer(k, pid, num).None?
    decreases |entries| - i
  {
    if i == |entries| then i
    else if entries[i].active && w.answer(i, pid, num).Some? then i
    else Winner(w, entries, pid, num, i + 1)
  }

  /** A contribution to a device. */
  datatype Event<G> = Event(gpu: G, pid: int, usage: Usage)

  /** The type defaults to graphical. */
  function WithKind(u: Usage): Usage {
    if u.kinds == {} then u.(kinds := {Graphical}) else u
  }

  /** What one descriptor contributes: something to one device, or nothing. */
  function EventOf<G>(w: World, entries: seq<Callback<G>>, pid: int, fd: Fd, seen: seq<int>): seq<Event<G>> {
    var r := Winner(w, entries, pid, fd.num, 0);
    if IsUnique(w, pid, fd, seen) && fd.opens && r < |entries|
    then [Event(entries[r].gpu, pid, WithKind(w.answer(r, pid, fd.num).value))]
    else []
  }

  function EventsOfFds<G>(w: World, entries: seq<Callback<G>>, pid: int, fds: seq<Fd>): seq<Event<G>> {
    if fds == [] then []
    else
      var before := fds[..|fds| - 1];
      EventsOfFds(w, entries, pid, before) + EventOf(w, entries, pid, fds[|fds| - 1], Seen(w, pid, before))
  }

  function EventsOf<G>(w: World, entries: seq<Callback<G>>, ps: seq<Process>): seq<Event<G>> {
    if ps == [] then []
    else
      var p := ps[|ps| - 1];
      EventsOf(w, entries, ps[..|ps| - 1])
      + if p.accessible && p.pid != 0 then EventsOfFds(w, entries, p.pid, p.fds) else []
  }

  function CountOf(u: Usage, c: Counter): nat {
    if c in u.counters then u.counters[c] else 0
  }

  /** Counters of the contribution are added, the kinds are united. */
  function Added(a: Usage, b: Usage): Usage {
    Usage(a.kinds + b.kinds,
          map c | c in a.counters.Keys + b.counters.Keys ::
            if c in b.counters then CountOf(a, c) + b.counters[c] else a.counters[c])
  }

  /** A contribution goes to the last row if that is of the same process, else to a new row. */
  function Recorded(rows: seq<Row>, pid: int, u: Usage): (r: seq<Row>) {
    if rows != [] && rows[|rows| - 1].pid == pid
    then rows[|rows| - 1 := Row(pid, Added(rows[|rows| - 1].usage, u))]
    else rows + [Row(pid, Added(NO_USAGE, u))]
  }

  /** The rows of a device after a number of contributions. */
  function RowsAfter<G(==)>(rows: seq<Row>, events: seq<Event<G>>, gpu: G): seq<Row> {
    if events == [] then rows
    else
      var before, e := RowsAfter(rows, events[..|events| - 1], gpu), events[|events| - 1];
      if e.gpu == gpu then Recorded(before, e.pid, e.usage) else before
  }

  // ----------------------------------------------------------- the devices ----

  class GpuInfo {
    var processes: seq<Row>   // the allocated array
    var count: nat

    ghost predicate Valid()
      reads this
    {
      count <= |processes|
    }

    ghost function Rows(): seq<Row>
      reads this
      requires Valid()
    {
      processes[..count]
    }

    constructor ()
      ensures Valid() && Rows() == []
    {
      processes, count := [], 0;
    }

    /** The contribution is added to the last row, or to a new one; the array grows when it is full. */
    method Record(pid: int, u: Usage)
      requires Valid()
      modifies this
      ensures Valid() && Rows() == Recorded(old(Rows()), pid, u)
      ensures |processes| == |old(processes)|
              + if old(count) == |old(processes)| && count > old(count) then PROCESS_ARRAY_INCREMENT else 0
    {
      var index := if count > 0 then count - 1 else 0;
      if count == 0 || processes[index].pid != pid {
        if count == |processes| {
          processes := processes + seq(PROCESS_ARRAY_INCREMENT, _ => Row(0, NO_USAGE));
        }
        index := count;
        count := count + 1;
        processes := processes[index := Row(pid, NO_USAGE)];
      }
      processes := processes[index := Row(pid, Added(processes[index].usage, u))];
    }
  }

  // -------------------------------------------------------------- the sweep ----

  /** The devices have the rows that the events make of the initial rows. */
  ghost predicate Advanced(gpus: set<GpuInfo>, initial: map<GpuInfo, seq<Row>>, events: seq<Event<GpuInfo>>)
    reads gpus
  {
    forall g :: g in gpus ==> g in initial && g.Valid() && g.Rows() == RowsAfter(initial[g], events, g)
  }

  lemma OneMoreEvent(rows: seq<Row>, events: seq<Event<GpuInfo>>, e: Event<GpuInfo>, g: GpuInfo)
    ensures RowsAfter(rows, events + [e], g) ==
            if e.gpu == g then Recorded(RowsAfter(rows, events, g), e.pid, e.usage) else RowsAfter(rows, events, g)
  {
    assert (events + [e])[..|events|] == events;
  }

  /** The linear search among the descriptors seen. */
  method IsSeen(w: World, pid: int, num: int, seen: seq<int>) returns (r: bool)
    ensures r == SeenBefore(w, pid, num, seen)
  {
    for i := 0 to |seen|
      invariant forall k :: 0 <= k < i ==> w.kcmp(pid, num, seen[k]) > 0
    {
      if w.kcmp(pid, num, seen[i]) <= 0 {
        return true;
      }
    }
    return false;
  }

  /** The callbacks are asked in turn, until one accepts. */
  method Ask(w: World, entries: seq<Callback<GpuInfo>>, pid: int, num: int) returns (r: nat, answer: Option<Usage>)
    ensures r == Winner(w, entries, pid, num, 0)
    ensures answer == if r < |entries| then w.answer(r, pid, num) else None
  {
    answer := None;
    r := 0;
    while answer.None? && r < |entries|
      invariant r <= |entries| && (answer.None? ==> Winner(w, entries, pid, num, r) == Winner(w, entries, pid, num, 0))
      invariant answer.Some? ==> r < |entries| && r == Winner(w, entries, pid, num, 0)
                                 && answer == w.answer(r, pid, num)
      decreases answer.None?, |entries| - r
    {
      if entries[r].active {
        answer := w.answer(r, pid, num);
      }
      if answer.None? {
        r := r + 1;
      }
    }
  }

  method RecordEvent(g: GpuInfo, pid: int, u: Usage, ghost gpus: set<GpuInfo>, ghost initial: map<GpuInfo, seq<Row>>,
                     ghost events: seq<Event<GpuInfo>>)
    requires Advanced(gpus, initial, events) && g in gpus
    modifies g
    ensures Advanced(gpus, initial, events + [Event(g, pid, u)])
  {
    g.Record(pid, u);
    forall h | h in gpus ensures h.Valid() && h.Rows() == RowsAfter(initial[h], events + [Event(g, pid, u)], h) {
      OneMoreEvent(initial[h], events, Event(g, pid, u), h);
    }
  }

  /** One descriptor. */
  method SweepFd(w: World, entries: seq<Callback<GpuInfo>>, pid: int, fd: Fd, seen: seq<int>,
                 ghost gpus: set<GpuInfo>, ghost initial: map<GpuInfo, seq<Row>>, ghost events: seq<Event<GpuInfo>>)
    returns (seen': seq<int>)
    requires Advanced(gpus, initial, events) && forall i :: 0 <= i < |entries| ==> entries[i].gpu in gpus
    modifies gpus
    ensures Advanced(gpus, initial, events + EventOf(w, entries, pid, fd, seen))
    ensures seen' == if IsUnique(w, pid, fd, seen) then seen + [fd.num] else seen
  {
    seen' := seen;
    assert events + [] == events;
    if !fd.drm {
      return;
    }
    var known := IsSeen(w, pid, fd.num, seen);
    if known {
      return;
    }
    seen' := seen + [fd.num];
    if !fd.opens {
      return;
    }
    var r, answer := Ask(w, entries, pid, fd.num);
    if answer.Some? {
      RecordEvent(entries[r].gpu, pid, WithKind(answer.value), gpus, initial, events);
    }
  }

  /** The descriptors of a process. */
  method SweepProcess(w: World, entries: seq<Callback<GpuInfo>>, p: Process,
                      ghost gpus: set<GpuInfo>, ghost initial: map<GpuInfo, seq<Row>>,
                      ghost events: seq<Event<GpuInfo>>)
    requires Advanced(gpus, initial, events) && forall i :: 0 <= i < |entries| ==> entries[i].gpu in gpus
    modifies gpus
    ensures Advanced(gpus, initial, events + EventsOfFds(w, entries, p.pid, p.fds))
  {
    var seen: seq<int> := [];
    assert p.fds[..0] == [] && events + [] == events;
    for i := 0 to |p.fds|
      invariant Advanced(gpus, initial, events + EventsOfFds(w, entries, p.pid, p.fds[..i]))
      invariant seen == Seen(w, p.pid, p.fds[..i])
    {
      NextFd(w, entries, p.pid, p.fds, i, events);
      seen := SweepFd(w, entries, p.pid, p.fds[i], seen, gpus, initial,
                      events + EventsOfFds(w, entries, p.pid, p.fds[..i]));
    }
    assert p.fds[..|p.fds|] == p.fds;
  }

  lemma NextFd(w: World, entries: seq<Callback<GpuInfo>>, pid: int, fds: seq<Fd>, i: nat, events: seq<Event<GpuInfo>>)
    requires i < |fds|
    ensures events + EventsOfFds(w, entries, pid, fds[..i + 1]) ==
            (events + EventsOfFds(w, entries, pid, fds[..i])) + EventOf(w, entries, pid, fds[i], Seen(w, pid, fds[..i]))
    ensures Seen(w, pid, fds[..i + 1]) ==
            if IsUnique(w, pid, fds[i], Seen(w, pid, fds[..i])) then Seen(w, pid, fds[..i]) + [fds[i].num]
            else Seen(w, pid, fds[..i])
  {
    assert fds[..i + 1][..i] == fds[..i];
  }

  /** Without an active callback there is nothing to do. */
  lemma {:induction false} InactiveWinsNothing<G>(w: World, entries: seq<Callback<G>>, pid: int, num: int, i: nat)
    requires i <= |entries| && forall k :: 0 <= k < |entries| ==> !entries[k].active
    ensures Winner(w, entries, pid, num, i) == |entries|
    decreases |entries| - i
  {
    if i < |entries| {
      InactiveWinsNothing(w, entries, pid, num, i + 1);
    }
  }

  lemma {:induction false} InactiveFds<G>(w: World, entries: seq<Callback<G>>, pid: int, fds: seq<Fd>)
    requires forall k :: 0 <= k < |entries| ==> !entries[k].active
    ensures EventsOfFds(w, entries, pid, fds) == []
  {
    if fds != [] {
      InactiveFds(w, entries, pid, fds[..|fds| - 1]);
      InactiveWinsNothing(w, entries, pid, fds[|fds| - 1].num, 0);
    }
  }

  lemma {:induction false} InactiveProcesses<G>(w: World, entries: seq<Callback<G>>, ps: seq<Process>)
    requires forall k :: 0 <= k < |entries| ==> !entries[k].active
    ensures EventsOf(w, entries, ps) == []
  {
    if ps != [] {
      InactiveProcesses(w, entries, ps[..|ps| - 1]);
      InactiveFds(w, entries, ps[|ps| - 1].pid, ps[|ps| - 1].fds);
    }
  }

  lemma NextProcess(w: World, entries: seq<Callback<GpuInfo>>, ps: seq<Process>, i: nat)
    requires i < |ps|
    ensures EventsOf(w, entries, ps[..i + 1]) ==
            EventsOf(w, entries, ps[..i])
            + if ps[i].accessible && ps[i].pid != 0 then EventsOfFds(w, entries, ps[i].pid, ps[i].fds) else []
  {
    assert ps[..i + 1][..i] == ps[..i];
  }

  /** processinfo_sweep_fdinfos; no directory is what a failed opendir gives. */
  method Sweep(w: World, registry: Registry<GpuInfo>, ps: seq<Process>, ghost gpus: set<GpuInfo>,
               ghost initial: map<GpuInfo, seq<Row>>)
    requires Advanced(gpus, initial, [])
    requires forall i :: 0 <= i < |registry.entries| ==> registry.entries[i].gpu in gpus
    modifies gpus
    ensures Advanced(gpus, initial, EventsOf(w, registry.entries, ps))
  {
    var entries := registry.entries;
    var anyActive, k := false, 0;
    while !anyActive && k < |entries|
      invariant k <= |entries| && (!anyActive ==> forall i :: 0 <= i < k ==> !entries[i].active)
    {
      anyActive := entries[k].active;
      k := k + 1;
    }
    if !anyActive {
      InactiveProcesses(w, entries, ps);
      return;
    }
    for i := 0 to |ps|
      invariant Advanced(gpus, initial, EventsOf(w, entries, ps[..i]))
    {
      NextProcess(w, entries, ps, i);
      if ps[i].accessible && ps[i].pid != 0 {
        SweepProcess(w, entries, ps[i], gpus, initial, EventsOf(w, entries, ps[..i]));
      } else {
        assert EventsOf(w, entries, ps[..i]) + [] == EventsOf(w, entries, ps[..i]);
      }
    }
    assert ps[..|ps|] == ps;
  }

  // ------------------------------------------------------------- properties ----

  /** The descriptors counted for a process are pairwise different open files, and each counts once at most. */
  lemma {:induction false} CountedFdsDiffer<G>(w: World, entries: seq<Callback<G>>, pid: int, fds: seq<Fd>)
    ensures forall i, j :: 0 <= i < j < |Seen(w, pid, fds)| ==>
              w.kcmp(pid, Seen(w, pid, fds)[j], Seen(w, pid, fds)[i]) > 0
    ensures |EventsOfFds(w, entries, pid, fds)| <= |Seen(w, pid, fds)|
    ensures forall i :: 0 <= i < |EventsOfFds(w, entries, pid, fds)| ==> EventsOfFds(w, entries, pid, fds)[i].pid == pid
  {
    if fds != [] {
      CountedFdsDiffer(w, entries, pid, fds[..|fds| - 1]);
    }
  }

  /** The events of a process follow each other. */
  ghost predicate Grouped<G>(events: seq<Event<G>>) {
    forall i, j, k :: 0 <= i < j < k < |events| && events[i].pid == events[k].pid ==> events[j].pid == events[i].pid
  }

  lemma {:induction false} EventsAreOfProcesses<G>(w: World, entries: seq<Callback<G>>, ps: seq<Process>, i: nat)
    requires i < |EventsOf(w, entries, ps)|
    ensures exists k :: 0 <= k < |ps| && ps[k].pid != 0 && ps[k].pid == EventsOf(w, entries, ps)[i].pid
  {
    var n := |ps| - 1;
    var before := EventsOf(w, entries, ps[..n]);
    if i < |before| {
      EventsAreOfProcesses(w, entries, ps[..n], i);
      var k :| 0 <= k < n && ps[..n][k].pid != 0 && ps[..n][k].pid == before[i].pid;
      assert ps[k].pid == before[i].pid;
    } else {
      CountedFdsDiffer(w, entries, ps[n].pid, ps[n].fds);
    }
  }

  /** The directory lists every process once. */
  ghost predicate ListedOnce(ps: seq<Process>) {
    forall i, j :: 0 <= i < j < |ps| && ps[i].pid != 0 ==> ps[i].pid != ps[j].pid
  }

  lemma {:induction false} EventsAreGrouped<G>(w: World, entries: seq<Callback<G>>, ps: seq<Process>)
    requires ListedOnce(ps)
    ensures Grouped(EventsOf(w, entries, ps))
  {
    if ps != [] {
      var n := |ps| - 1;
      var before, own := EventsOf(w, entries, ps[..n]), EventsOfFds(w, entries, ps[n].pid, ps[n].fds);
      EventsAreGrouped(w, entries, ps[..n]);
      CountedFdsDiffer(w, entries, ps[n].pid, ps[n].fds);
      forall i: nat | i < |before| ensures before[i].pid != ps[n].pid {
        EventsAreOfProcesses(w, entries, ps[..n], i);
      }
    }
  }

  /** The sum of what the events contribute to a counter of a process on a device. */
  function Total<G(==)>(events: seq<Event<G>>, gpu: G, pid: int, c: Counter): nat {
    if events == [] then 0
    else
      var e := events[|events| - 1];
      Total(events[..|events| - 1], gpu, pid, c) + if e.gpu == gpu && e.pid == pid then CountOf(e.usage, c) else 0
  }

  /** The kinds of work that the events of a process on a device report. */
  function Kinds<G(==)>(events: seq<Event<G>>, gpu: G, pid: int): set<Kind> {
    if events == [] then {}
    else
      var e := events[|events| - 1];
      Kinds(events[..|events| - 1], gpu, pid) + if e.gpu == gpu && e.pid == pid then e.usage.kinds else {}
  }

  /** The counters that they report. */
  function Counters<G(==)>(events: seq<Event<G>>, gpu: G, pid: int): set<Counter> {
    if events == [] then {}
    else
      var e := events[|events| - 1];
      Counters(events[..|events| - 1], gpu, pid) + if e.gpu == gpu && e.pid == pid then e.usage.counters.Keys else {}
  }

  /**
   An event is what the first active callback that accepts makes of a new
   descriptor; without a kind it is graphical.
   */
  lemma EventIsFirstAnswer<G>(w: World, entries: seq<Callback<G>>, pid: int, fd: Fd, seen: seq<int>, r: nat)
    requires fd.drm && (forall i :: 0 <= i < |seen| ==> w.kcmp(pid, fd.num, seen[i]) > 0)
    requires fd.opens && r < |entries|
    requires entries[r].active && w.answer(r, pid, fd.num).Some?
    requires forall k :: 0 <= k < r ==> !entries[k].active || w.answer(k, pid, fd.num).None?
    ensures |EventOf(w, entries, pid, fd, seen)| == 1
    ensures var e, u := EventOf(w, entries, pid, fd, seen)[0], w.answer(r, pid, fd.num).value;
      && e.gpu == entries[r].gpu && e.pid == pid && e.usage.counters == u.counters
      && e.usage.kinds != {} && u.kinds <= e.usage.kinds && (u.kinds == {} ==> e.usage.kinds == {Graphical})
      && (u.kinds != {} ==> e.usage.kinds == u.kinds)
  {
  }

  /** Nothing comes of a descriptor that is no DRM device, was seen, cannot be opened or is not accepted. */
  lemma NoEvent<G>(w: World, entries: seq<Callback<G>>, pid: int, fd: Fd, seen: seq<int>)
    requires !fd.drm || !fd.opens || (exists i :: 0 <= i < |seen| && w.kcmp(pid, fd.num, seen[i]) <= 0)
             || forall k :: 0 <= k < |entries| ==> !entries[k].active || w.answer(k, pid, fd.num).None?
    ensures EventOf(w, entries, pid, fd, seen) == []
  {
  }

  /** The last event of the device is of this process. */
  ghost predicate EndsWith<G>(events: seq<Event<G>>, gpu: G, pid: int) {
    exists b :: 0 <= b < |events| && events[b].gpu == gpu && events[b].pid == pid
      && forall k :: b < k < |events| ==> events[k].gpu != gpu
  }

  ghost predicate HasEvent<G>(events: seq<Event<G>>, gpu: G, pid: int) {
    exists i :: 0 <= i < |events| && events[i].gpu == gpu && events[i].pid == pid
  }

  ghost predicate HasRow(rows: seq<Row>, pid: int) {
    exists i :: 0 <= i < |rows| && rows[i].pid == pid
  }

  ghost predicate RowsDistinct(rows: seq<Row>) {
    forall i, j :: 0 <= i < j < |rows| ==> rows[i].pid != rows[j].pid
  }

  /** Every row holds the sums of its process, the kinds and the counters that were reported. */
  ghost predicate RowsAreTotals<G>(rows: seq<Row>, events: seq<Event<G>>, gpu: G) {
    && (forall i, c :: 0 <= i < |rows| ==> CountOf(rows[i].usage, c) == Total(events, gpu, rows[i].pid, c))
    && (forall i :: 0 <= i < |rows| ==> rows[i].usage.kinds == Kinds(events, gpu, rows[i].pid))
    && (forall i :: 0 <= i < |rows| ==> rows[i].usage.counters.Keys == Counters(events, gpu, rows[i].pid))
  }

  /** What is known of the rows after a number of events. */
  ghost predicate Summed<G>(rows: seq<Row>, events: seq<Event<G>>, gpu: G) {
    && RowsDistinct(rows) && RowsAreTotals(rows, events, gpu)
    && (forall p :: HasRow(rows, p) <==> HasEvent(events, gpu, p))
    && (rows != [] ==> EndsWith(events, gpu, rows[|rows| - 1].pid))
  }

  lemma {:induction false} NoEventNoTotal<G>(events: seq<Event<G>>, gpu: G, pid: int, c: Counter)
    requires forall i :: 0 <= i < |events| ==> events[i].gpu != gpu || events[i].pid != pid
    ensures Total(events, gpu, pid, c) == 0
  {
    if events != [] {
      NoEventNoTotal(events[..|events| - 1], gpu, pid, c);
    }
  }

  lemma AddedCounts(a: Usage, b: Usage, c: Counter)
    ensures CountOf(Added(a, b), c) == CountOf(a, c) + CountOf(b, c)
  {
  }

  /** A process whose rows were closed does not come back. */
  lemma LastRowOrNew<G>(rows: seq<Row>, events: seq<Event<G>>, e: Event<G>)
    requires Summed(rows, events, e.gpu) && Grouped(events + [e])
    ensures HasRow(rows, e.pid) ==> rows[|rows| - 1].pid == e.pid
  {
    var all := events + [e];
    if HasRow(rows, e.pid) {
      var q := rows[|rows| - 1].pid;
      var a :| 0 <= a < |events| && events[a].gpu == e.gpu && events[a].pid == e.pid;
      var b :| 0 <= b < |events| && events[b].gpu == e.gpu && events[b].pid == q
        && forall k :: b < k < |events| ==> events[k].gpu != e.gpu;
      assert all[a] == events[a] && all[b] == events[b] && all[|events|] == e;
      assert a <= b;
    }
  }

  /** An event of another device changes nothing. */
  lemma OtherEvent<G>(rows: seq<Row>, events: seq<Event<G>>, e: Event<G>, gpu: G)
    requires Summed(rows, events, gpu) && e.gpu != gpu
    ensures Summed(rows, events + [e], gpu)
  {
    var all := events + [e];
    assert all[..|events|] == events;
    forall p: int ensures HasEvent(all, gpu, p) <==> HasEvent(events, gpu, p) {
      EventsGrow(events, e, gpu, p);
    }
    if rows != [] {
      var b :| 0 <= b < |events| && events[b].gpu == gpu && events[b].pid == rows[|rows| - 1].pid
        && forall k :: b < k < |events| ==> events[k].gpu != gpu;
      assert all[b] == events[b];
    }
  }

  lemma EventsGrow<G>(events: seq<Event<G>>, e: Event<G>, gpu: G, p: int)
    ensures HasEvent(events + [e], gpu, p) <==> HasEvent(events, gpu, p) || (e.gpu == gpu && e.pid == p)
  {
    var all := events + [e];
    assert all[|events|] == e;
    if HasEvent(events, gpu, p) {
      var i :| 0 <= i < |events| && events[i].gpu == gpu && events[i].pid == p;
      assert all[i] == events[i];
    }
  }

  lemma RecordedRows(rows: seq<Row>, pid: int, u: Usage)
    requires RowsDistinct(rows) && (HasRow(rows, pid) ==> rows[|rows| - 1].pid == pid)
    ensures RowsDistinct(Recorded(rows, pid, u)) && Recorded(rows, pid, u) != []
    ensures Recorded(rows, pid, u)[|Recorded(rows, pid, u)| - 1].pid == pid
    ensures forall p :: HasRow(Recorded(rows, pid, u), p) <==> HasRow(rows, p) || p == pid
  {
    var r := Recorded(rows, pid, u);
    forall p: int ensures HasRow(r, p) <==> HasRow(rows, p) || p == pid {
      if i :| 0 <= i < |rows| && rows[i].pid == p {
        assert r[i].pid == p;
      }
      assert r[|r| - 1].pid == pid;
    }
  }

  lemma {:induction false} NoEventNoKind<G>(events: seq<Event<G>>, gpu: G, pid: int)
    requires forall i :: 0 <= i < |events| ==> events[i].gpu != gpu || events[i].pid != pid
    ensures Kinds(events, gpu, pid) == {} && Counters(events, gpu, pid) == {}
  {
    if events != [] {
      NoEventNoKind(events[..|events| - 1], gpu, pid);
    }
  }

  lemma RecordedKinds<G>(rows: seq<Row>, events: seq<Event<G>>, e: Event<G>)
    requires RowsDistinct(rows) && RowsAreTotals(rows, events, e.gpu)
    requires HasRow(rows, e.pid) ==> rows[|rows| - 1].pid == e.pid
    requires HasRow(rows, e.pid) <==> HasEvent(events, e.gpu, e.pid)
    ensures var r := Recorded(rows, e.pid, e.usage);
      forall i :: 0 <= i < |r| ==> r[i].usage.kinds == Kinds(events + [e], e.gpu, r[i].pid)
                                   && r[i].usage.counters.Keys == Counters(events + [e], e.gpu, r[i].pid)
  {
    var r, all := Recorded(rows, e.pid, e.usage), events + [e];
    assert all[..|events|] == events;
    forall i: nat | i < |r|
      ensures r[i].usage.kinds == Kinds(all, e.gpu, r[i].pid)
      ensures r[i].usage.counters.Keys == Counters(all, e.gpu, r[i].pid)
    {
      if i < |rows| && rows[i].pid != e.pid {
        assert r[i] == rows[i];
      } else if rows != [] && rows[|rows| - 1].pid == e.pid {
        assert i == |rows| - 1;
      } else {
        NoEventNoKind(events, e.gpu, e.pid);
      }
    }
  }

  lemma RecordedTotals<G>(rows: seq<Row>, events: seq<Event<G>>, e: Event<G>)
    requires RowsDistinct(rows) && RowsAreTotals(rows, events, e.gpu)
    requires HasRow(rows, e.pid) ==> rows[|rows| - 1].pid == e.pid
    requires HasRow(rows, e.pid) <==> HasEvent(events, e.gpu, e.pid)
    ensures RowsAreTotals(Recorded(rows, e.pid, e.usage), events + [e], e.gpu)
  {
    var r, all := Recorded(rows, e.pid, e.usage), events + [e];
    assert all[..|events|] == events;
    RecordedKinds(rows, events, e);
    forall i: nat, c | i < |r| ensures CountOf(r[i].usage, c) == Total(all, e.gpu, r[i].pid, c) {
      if i < |rows| && rows[i].pid != e.pid {
        assert r[i] == rows[i];
      } else if rows != [] && rows[|rows| - 1].pid == e.pid {
        assert i == |rows| - 1;
        AddedCounts(rows[i].usage, e.usage, c);
      } else {
        NoEventNoTotal(events, e.gpu, e.pid, c);
        AddedCounts(NO_USAGE, e.usage, c);
      }
    }
  }

  lemma OwnEvent<G>(rows: seq<Row>, events: seq<Event<G>>, e: Event<G>)
    requires Summed(rows, events, e.gpu) && Grouped(events + [e])
    ensures Summed(Recorded(rows, e.pid, e.usage), events + [e], e.gpu)
  {
    LastRowOrNew(rows, events, e);
    RecordedRows(rows, e.pid, e.usage);
    assert HasRow(rows, e.pid) <==> HasEvent(events, e.gpu, e.pid);
    RecordedTotals(rows, events, e);
    var all := events + [e];
    forall p: int ensures HasEvent(all, e.gpu, p) <==> HasEvent(events, e.gpu, p) || e.pid == p {
      EventsGrow(events, e, e.gpu, p);
    }
    assert all[|events|] == e;
  }

  lemma {:induction false} EventsAreSummed<G>(events: seq<Event<G>>, gpu: G)
    requires Grouped(events)
    ensures Summed(RowsAfter([], events, gpu), events, gpu)
  {
    if events != [] {
      var n := |events| - 1;
      var e := events[n];
      EventsAreSummed(events[..n], gpu);
      assert events == events[..n] + [e];
      if e.gpu == gpu {
        OwnEvent(RowsAfter([], events[..n], gpu), events[..n], e);
      } else {
        OtherEvent(RowsAfter([], events[..n], gpu), events[..n], e, gpu);
      }
    }
  }

  /**
   After a sweep that starts without rows: a device has one row for each process
   that contributed to it, and every counter of the row is the sum over the unique
   descriptors of the process that this device's callback was the first active
   one to accept.
   */
  lemma SweepTotals<G>(w: World, entries: seq<Callback<G>>, ps: seq<Process>, gpu: G)
    requires ListedOnce(ps)
    ensures Summed(RowsAfter([], EventsOf(w, entries, ps), gpu), EventsOf(w, entries, ps), gpu)
  {
    EventsAreGrouped(w, entries, ps);
    EventsAreSummed(EventsOf(w, entries, ps), gpu);
  }

  /** The rows of all listed devices are dropped. */
  method ForgetRows(devices: seq<GpuInfo>)
    requires forall d :: d in devices ==> d.Valid()
    modifies devices
    ensures forall d :: d in devices ==> d.Valid() && d.Rows() == []
  {
    for i := 0 to |devices|
      invariant forall d :: d in devices ==> d.Valid()
      invariant forall k :: 0 <= k < i ==> devices[k].Rows() == []
    {
      devices[i].count := 0;
    }
  }

  /**
   The sweep of gpuinfo_refresh_processes: afterwards every listed device has one
   row for each process that contributed to it, with the sums of its counters;
   the other devices only get what active callbacks of theirs accept.
   */
  method RefreshRows(w: World, registry: Registry<GpuInfo>, ps: seq<Process>, devices: seq<GpuInfo>,
                     ghost gpus: set<GpuInfo>)
    requires ListedOnce(ps) && (forall d :: d in devices ==> d in gpus) && forall g :: g in gpus ==> g.Valid()
    requires forall i :: 0 <= i < |registry.entries| ==> registry.entries[i].gpu in gpus
    modifies gpus
    ensures forall g :: g in gpus ==> g.Valid()
    ensures forall d :: d in devices ==> Summed(d.Rows(), EventsOf(w, registry.entries, ps), d)
    ensures forall g :: g in gpus && g !in devices ==>
                          g.Rows() == RowsAfter(old(g.Rows()), EventsOf(w, registry.entries, ps), g)
  {
    ForgetRows(devices);
    ghost var initial := map g | g in gpus :: g.Rows();
    Sweep(w, registry, ps, gpus, initial);
    forall d | d in devices ensures Summed(d.Rows(), EventsOf(w, registry.entries, ps), d) {
      SweepTotals(w, registry.entries, ps, d);
    }
  }
}
