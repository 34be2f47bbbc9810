/**
 The pool of process records (djeti/sys_proc_pool.c:88-103, 339-357, 380-484,
 502-506): one allocated record per process, found by its pid; the display frame
 holds pointers to the same records. The directory of processes is an input.
 */
module ProcPool {
  import opened Options
  import opened ProcessFields
  import opened MergeSort
  import opened ProcOrder
  import opened CIntegers

  const HYSTERESIS: nat := 32

  type Positive = x: real | x > 0.0 witness 1.0

  /** Clock ticks per second and bytes of memory. */
  datatype Machine = Machine(ticks: Positive, totalRam: real)

  /** The previous sample of a record, for the CPU share. */
  datatype Baseline = Baseline(utime: nat, stime: nat, time: real)

  /** One directory entry with a numeric name: what the files of the process say when they are read. */
  datatype Entry = Entry(pid: nat, readable: bool, stat: Values, shr: Option<nat>, command: Option<string>, time: real)

  /** The contents of a record. */
  datatype Proc = Proc(row: Values, baseline: Option<Baseline>, isFresh: bool)

  type View = seq<Option<Proc>>   // by pid

  // ------------------------------------------------------ what a scan does ----

  /** A record as calloc gives it, with its pid set. */
  function NewProc(pid: nat): Proc {
    Proc(Values(pid, 0, 0, 0, 0, 0, 0, 0, 0, 0, 0, 0, 0.0, 0.0, ""), None, false)
  }

  function CpuShare(m: Machine, b: Option<Baseline>, e: Entry): real {
    if b.None? || e.time - b.value.time <= 0.0 then 0.0
    else
      var dt: Positive := e.time - b.value.time;
      100.0 * (U64(e.stat.utime - b.value.utime) as real / m.ticks) / dt
      + 100.0 * (U64(e.stat.stime - b.value.stime) as real / m.ticks) / dt
  }

  function MemShare(m: Machine, rss: nat): real {
    if m.totalRam > 0.0 then 100.0 * (rss as real) / m.totalRam else 0.0
  }

  /** The record after its process was read; unreadable parts keep their values. */
  function Sampled(m: Machine, p: Proc, e: Entry): Proc {
    Proc(e.stat.(pid := p.row.pid,
                 shr := if e.shr.Some? then e.shr.value else p.row.shr,
                 command := if e.command.Some? then e.command.value else p.row.command,
                 cpuPct := CpuShare(m, p.baseline, e),
                 memPct := MemShare(m, e.stat.rss)),
         Some(Baseline(e.stat.utime, e.stat.stime, e.time)), true)
  }

  /** The record of an entry after the scan has passed it. */
  function Visited(m: Machine, old_: Option<Proc>, e: Entry): Proc {
    var p := if old_.Some? then old_.value else NewProc(e.pid);
    if e.readable then Sampled(m, p, e) else p
  }

  // What the record shows, in terms of the samples.

  lemma ShareTimes(x: real, ticks: Positive, dt: Positive)
    ensures 100.0 * (x / ticks) / dt * (dt * ticks) == 100.0 * x
  {
    var seconds := x / ticks;
    var share := 100.0 * seconds / dt;
    assert share * dt == 100.0 * seconds;
    assert share * (dt * ticks) == share * dt * ticks;
    assert seconds * ticks == x;
  }

  /**
   Since the baseline the process used u ticks of user and s ticks of kernel
   time, as unsigned differences: that is the share of the ticks there were.
   */
  lemma CpuShareOfTicks(m: Machine, b: Baseline, e: Entry, u: CULong, s: CULong)
    requires e.time > b.time
    requires u == e.stat.utime - b.utime || u == e.stat.utime - b.utime + TWO_64
    requires s == e.stat.stime - b.stime || s == e.stat.stime - b.stime + TWO_64
    ensures CpuShare(m, Some(b), e) * ((e.time - b.time) * m.ticks) == 100.0 * (u + s) as real
  {
    var dt: Positive := e.time - b.time;
    TicksSince(e.stat.utime, b.utime, u);
    TicksSince(e.stat.stime, b.stime, s);
    SharesTimes(u as real, s as real, m.ticks, dt);
  }

  lemma TicksSince(now: nat, before: nat, ticks: CULong)
    requires ticks == now - before || ticks == now - before + TWO_64
    ensures U64(now - before) == ticks
  {
  }

  lemma SharesTimes(u: real, s: real, ticks: Positive, dt: Positive)
    ensures (100.0 * (u / ticks) / dt + 100.0 * (s / ticks) / dt) * (dt * ticks) == 100.0 * (u + s)
  {
    ShareTimes(u, ticks, dt);
    ShareTimes(s, ticks, dt);
    Distribute(100.0 * (u / ticks) / dt, 100.0 * (s / ticks) / dt, dt * ticks);
  }

  lemma Distribute(x: real, y: real, z: real)
    ensures (x + y) * z == x * z + y * z
  {
  }

  /** A process that was read: everything is as read, and the sample is the next baseline. */
  lemma ReadRecord(m: Machine, old_: Option<Proc>, e: Entry)
    requires e.readable
    ensures var now := Visited(m, old_, e);
      && now.isFresh && now.baseline == Some(Baseline(e.stat.utime, e.stat.stime, e.time))
      && (old_.None? ==> now.row.pid == e.pid) && (old_.Some? ==> now.row.pid == old_.value.row.pid)
      && now.row.ppid == e.stat.ppid && now.row.priority == e.stat.priority && now.row.nice == e.stat.nice
      && now.row.threads == e.stat.threads && now.row.vsize == e.stat.vsize && now.row.rss == e.stat.rss
      && now.row.utime == e.stat.utime && now.row.stime == e.stat.stime
      && now.row.cutime == e.stat.cutime && now.row.cstime == e.stat.cstime
    // without its file a value stays
    ensures var was, now := if old_.Some? then old_.value else NewProc(e.pid), Visited(m, old_, e);
      && now.row.shr == (if e.shr.Some? then e.shr.value else was.row.shr)
      && now.row.command == (if e.command.Some? then e.command.value else was.row.command)
    ensures Visited(m, old_, e).row.memPct * m.totalRam == 100.0 * e.stat.rss as real || m.totalRam <= 0.0
    ensures m.totalRam <= 0.0 ==> Visited(m, old_, e).row.memPct == 0.0
  {
  }

  /** The CPU share of a process that was read: of the time since its own last sample, if it had one before now. */
  lemma ReadCpuShare(m: Machine, old_: Option<Proc>, e: Entry, u: CULong, s: CULong)
    requires e.readable && old_.Some? && old_.value.baseline.Some?
    requires var b := old_.value.baseline.value;
      && (u == e.stat.utime - b.utime || u == e.stat.utime - b.utime + TWO_64)
      && (s == e.stat.stime - b.stime || s == e.stat.stime - b.stime + TWO_64)
    ensures var b, pct := old_.value.baseline.value, Visited(m, old_, e).row.cpuPct;
      if e.time > b.time then pct * ((e.time - b.time) * m.ticks) == 100.0 * (u + s) as real else pct == 0.0
  {
    if e.time > old_.value.baseline.value.time {
      CpuShareOfTicks(m, old_.value.baseline.value, e, u, s);
    }
  }

  /** Without a baseline the share is 0, and a process that cannot be read keeps its record or gets an empty one. */
  lemma FirstReading(m: Machine, old_: Option<Proc>, e: Entry)
    ensures e.readable && (old_.None? || old_.value.baseline.None?) ==> Visited(m, old_, e).row.cpuPct == 0.0
    ensures !e.readable && old_.Some? ==> Visited(m, old_, e) == old_.value
    ensures !e.readable && old_.None? ==>
              var now := Visited(m, old_, e);
              && now.row.pid == e.pid && now.baseline.None? && !now.isFresh
              && now.row.ppid == now.row.priority == now.row.nice == now.row.threads == 0
              && now.row.vsize == now.row.rss == now.row.shr == 0
              && now.row.utime == now.row.stime == now.row.cutime == now.row.cstime == 0
              && now.row.cpuPct == now.row.memPct == 0.0 && now.row.command == ""
  {
  }

  /** Entries of the scan: pids in range, each once. */
  ghost predicate Scannable(es: seq<Entry>, n: nat) {
    && (forall i :: 0 <= i < |es| ==> 0 < es[i].pid < n)
    && (forall i, j :: 0 <= i < j < |es| ==> es[i].pid != es[j].pid)
  }

  function VisitAll(m: Machine, view: View, es: seq<Entry>): (r: View)
    requires forall i :: 0 <= i < |es| ==> es[i].pid < |view|
    ensures |r| == |view|
  {
    if es == [] then view
    else
      var e, v := es[|es| - 1], VisitAll(m, view, es[..|es| - 1]);
      v[e.pid := Some(Visited(m, v[e.pid], e))]
  }

  /** The pids that could be read, in scan order. */
  function Listed(es: seq<Entry>): (r: seq<nat>)
    ensures |r| <= |es|
  {
    if es == [] then []
    else Listed(es[..|es| - 1]) + if es[|es| - 1].readable then [es[|es| - 1].pid] else []
  }

  /** Records of the frame whose process is gone are dropped. */
  function Collected(view: View, frame: seq<nat>, alive: set<nat>): (r: View)
    requires forall i :: 0 <= i < |frame| ==> frame[i] < |view|
    ensures |r| == |view|
  {
    if frame == [] then view
    else
      var p, v := frame[|frame| - 1], Collected(view, frame[..|frame| - 1], alive);
      if p in alive then v else v[p := None]
  }

  lemma {:induction false} CollectedAt(view: View, frame: seq<nat>, alive: set<nat>, p: nat)
    requires p < |view| && forall i :: 0 <= i < |frame| ==> frame[i] < |view|
    ensures Collected(view, frame, alive)[p] == if p in frame && p !in alive then None else view[p]
  {
    if frame != [] {
      CollectedAt(view, frame[..|frame| - 1], alive, p);
      assert p in frame <==> p in frame[..|frame| - 1] || p == frame[|frame| - 1];
    }
  }

  /** A pid without entry keeps its record. */
  lemma {:induction false} NotVisited(m: Machine, view: View, es: seq<Entry>, p: nat)
    requires Scannable(es, |view|) && p < |view| && forall i :: 0 <= i < |es| ==> es[i].pid != p
    ensures VisitAll(m, view, es)[p] == view[p]
  {
    if es != [] {
      NotVisited(m, view, es[..|es| - 1], p);
    }
  }

  /** Every process is measured against its own previous sample, wherever the directory lists it. */
  lemma {:induction false} VisitedOnce(m: Machine, view: View, es: seq<Entry>, i: nat)
    requires Scannable(es, |view|) && i < |es|
    ensures VisitAll(m, view, es)[es[i].pid] == Some(Visited(m, view[es[i].pid], es[i]))
  {
    var n := |es| - 1;
    if i < n {
      VisitedOnce(m, view, es[..n], i);
    } else {
      NotVisited(m, view, es[..n], es[i].pid);
    }
  }

  lemma {:induction false} ListedAre(es: seq<Entry>, p: nat)
    ensures p in Listed(es) <==> exists i :: 0 <= i < |es| && es[i].readable && es[i].pid == p
  {
    if es != [] {
      var n := |es| - 1;
      ListedAre(es[..n], p);
      if p in Listed(es[..n]) {
        var i :| 0 <= i < n && es[..n][i].readable && es[..n][i].pid == p;
        assert es[i].readable;
      }
      if i :| 0 <= i < |es| && es[i].readable && es[i].pid == p {
        assert i < n ==> es[..n][i] == es[i];
      }
    }
  }

  lemma {:induction false} ListedDistinct(es: seq<Entry>, n: nat)
    requires Scannable(es, n)
    ensures forall i, j :: 0 <= i < j < |Listed(es)| ==> Listed(es)[i] != Listed(es)[j]
  {
    if es != [] {
      ListedDistinct(es[..|es| - 1], n);
      ListedAre(es[..|es| - 1], es[|es| - 1].pid);
    }
  }

  // There are no more entries than pids.

  ghost function PidSet(es: seq<Entry>): set<nat> {
    set i | 0 <= i < |es| :: es[i].pid
  }

  lemma {:induction false} PidCount(es: seq<Entry>, n: nat)
    requires Scannable(es, n)
    ensures |PidSet(es)| == |es|
  {
    if es != [] {
      var k := |es| - 1;
      PidCount(es[..k], n);
      assert PidSet(es) == PidSet(es[..k]) + {es[k].pid};
      assert es[k].pid !in PidSet(es[..k]);
    }
  }

  lemma {:induction false} RangeCount(s: set<nat>, n: nat)
    requires forall p :: p in s ==> p < n
    ensures |s| <= n
  {
    if n > 0 {
      RangeCount(s - {n - 1}, n - 1);
    } else {
      assert s == {};
    }
  }

  lemma EntriesFit(es: seq<Entry>, n: nat)
    requires Scannable(es, n)
    ensures |es| <= n
  {
    PidCount(es, n);
    RangeCount(PidSet(es), n);
  }

  // -------------------------------------------------------------- the frame ----

  /** The row of a pid. */
  function RowOf(view: View, p: nat): Row {
    if p < |view| && view[p].Some? && 0 < view[p].value.row.pid < 0x8000_0000 then view[p].value.row
    else Values(1, 0, 0, 0, 0, 0, 0, 0, 0, 0, 0, 0, 0.0, 0.0, "")
  }

  /** The frame lists these pids, in the order of the comparator. */
  ghost predicate IsFrameOf(key: Field, desc: bool, view: View, frame: seq<nat>, pids: seq<nat>) {
    && |frame| == |pids| && (forall p :: p in frame <==> p in pids)
    && Ascends(Comparator(key, desc), (p: nat) => RowOf(view, p), frame)
  }

  /** A slot of the frame, with the row it points to. */
  datatype Slot = Slot(rec: Record, row: Row)

  function SlotRow(s: Slot): Row { s.row }

  function Pids(slots: seq<Slot>): (r: seq<nat>)
    ensures |r| == |slots|
  {
    seq(|slots|, i requires 0 <= i < |slots| => slots[i].row.pid)
  }

  function Recs(slots: seq<Slot>): (r: seq<Record?>)
    ensures |r| == |slots|
  {
    seq(|slots|, i requires 0 <= i < |slots| => slots[i].rec)
  }

  /** The slots show what the view holds for their pids. */
  ghost predicate SlotsShow(view: View, slots: seq<Slot>, pids: seq<nat>) {
    && Pids(slots) == pids
    && (forall i :: 0 <= i < |slots| ==> slots[i].row == RowOf(view, slots[i].row.pid))
    && (forall i, j :: 0 <= i < j < |pids| ==> pids[i] != pids[j])
  }

  /** Sorting the slots permutes them. */
  lemma PermutedSlots(view: View, slots: seq<Slot>, t: seq<Slot>, pids: seq<nat>)
    requires SlotsShow(view, slots, pids) && multiset(t) == multiset(slots)
    ensures |t| == |slots| && (forall i :: 0 <= i < |t| ==> t[i] in slots) && forall p :: p in Pids(t) <==> p in pids
    ensures forall i :: 0 <= i < |t| ==> t[i].row == RowOf(view, Pids(t)[i])
    ensures forall i, j :: 0 <= i < j < |t| ==> Pids(t)[i] != Pids(t)[j]
  {
    assert |multiset(t)| == |t| && |multiset(slots)| == |slots|;
    assert forall i :: 0 <= i < |slots| ==> slots[i].row.pid == pids[i];
    forall i | 0 <= i < |t| ensures t[i] in slots && Pids(t)[i] in pids && t[i].row == RowOf(view, Pids(t)[i]) {
      SameElements(slots, t, t[i]);
      var k :| 0 <= k < |slots| && slots[k] == t[i];
      assert pids[k] == Pids(t)[i];
    }
    forall i | 0 <= i < |pids| ensures pids[i] in Pids(t) {
      SameElements(slots, t, slots[i]);
      var k :| 0 <= k < |t| && t[k] == slots[i];
      assert Pids(t)[k] == pids[i];
    }
    PermutedPids(SlotRow, slots, t);
    forall i, j | 0 <= i < j < |t| ensures Pids(t)[i] != Pids(t)[j] {
      assert SlotRow(t[i]).pid != SlotRow(t[j]).pid;
    }
  }

  /** Sorting the slots sorts the pids. */
  lemma SortedSlots(key: Field, desc: bool, view: View, slots: seq<Slot>, pids: seq<nat>, t: seq<Slot>)
    requires SlotsShow(view, slots, pids) && t == SortFrame(key, desc, SlotRow, slots)
    ensures |t| == |slots| && IsFrameOf(key, desc, view, Pids(t), pids)
    ensures forall i :: 0 <= i < |t| ==> t[i] in slots
    ensures forall i, j :: 0 <= i < j < |t| ==> Pids(t)[i] != Pids(t)[j]
  {
    assert forall i :: 0 <= i < |slots| ==> slots[i].row.pid == pids[i];
    FrameIsSorted(key, desc, SlotRow, slots);
    PermutedSlots(view, slots, t, pids);
    forall i, j | 0 <= i < j < |t|
      ensures Comparator(key, desc)(RowOf(view, Pids(t)[i]), RowOf(view, Pids(t)[j])) < 0
    {
      assert Comparator(key, desc)(SlotRow(t[i]), SlotRow(t[j])) < 0;
    }
  }

  // ------------------------------------------- the order of the directory ----

  lemma {:induction false} Multiplicity(s: seq<nat>, x: nat)
    requires forall i, j :: 0 <= i < j < |s| ==> s[i] != s[j]
    ensures multiset(s)[x] == if x in s then 1 else 0
  {
    if s != [] {
      FirstAndRest(s);
      Multiplicity(s[1..], x);
    }
  }

  lemma FrameIsDistinct(key: Field, desc: bool, view: View, frame: seq<nat>, pids: seq<nat>)
    requires IsFrameOf(key, desc, view, frame, pids)
    ensures forall i, j :: 0 <= i < j < |frame| ==> frame[i] != frame[j]
  {
    forall i, j | 0 <= i < j < |frame| ensures frame[i] != frame[j] {
      assert Comparator(key, desc)(RowOf(view, frame[i]), RowOf(view, frame[j])) < 0;
      DescendingIsReverse(key, desc, RowOf(view, frame[i]), RowOf(view, frame[i]));
    }
  }

  /** A frame is determined by the view and the set of its pids. */
  lemma OneFrame(key: Field, desc: bool, view: View, frame: seq<nat>, frame': seq<nat>, pids: seq<nat>, pids': seq<nat>)
    requires IsFrameOf(key, desc, view, frame, pids) && IsFrameOf(key, desc, view, frame', pids')
    requires forall p :: p in pids <==> p in pids'
    ensures frame == frame'
  {
    FrameIsDistinct(key, desc, view, frame, pids);
    FrameIsDistinct(key, desc, view, frame', pids');
    forall x: nat ensures multiset(frame)[x] == multiset(frame')[x] {
      Multiplicity(frame, x);
      Multiplicity(frame', x);
    }
    ComparatorIsOrder(key, desc);
    OneOrder(Comparator(key, desc), (p: nat) => RowOf(view, p), frame, frame');
  }

  lemma SameVisit(m: Machine, view: View, es: seq<Entry>, es': seq<Entry>, p: nat)
    requires Scannable(es, |view|) && Scannable(es', |view|) && multiset(es) == multiset(es') && p < |view|
    ensures VisitAll(m, view, es)[p] == VisitAll(m, view, es')[p]
  {
    if i :| 0 <= i < |es| && es[i].pid == p {
      SameElements(es, es', es[i]);
      var j :| 0 <= j < |es'| && es'[j] == es[i];
      VisitedOnce(m, view, es, i);
      VisitedOnce(m, view, es', j);
    } else {
      forall j | 0 <= j < |es'| ensures es'[j].pid != p {
        SameElements(es, es', es'[j]);
      }
      NotVisited(m, view, es, p);
      NotVisited(m, view, es', p);
    }
  }

  lemma SameVisits(m: Machine, view: View, es: seq<Entry>, es': seq<Entry>)
    requires Scannable(es, |view|) && Scannable(es', |view|) && multiset(es) == multiset(es')
    ensures VisitAll(m, view, es) == VisitAll(m, view, es')
  {
    forall p: nat | p < |view| ensures VisitAll(m, view, es)[p] == VisitAll(m, view, es')[p] {
      SameVisit(m, view, es, es', p);
    }
  }

  lemma SameListings(es: seq<Entry>, es': seq<Entry>)
    requires multiset(es) == multiset(es')
    ensures forall p :: p in Listed(es) <==> p in Listed(es')
  {
    forall p: nat ensures p in Listed(es) <==> p in Listed(es') {
      SameListing(es, es', p);
      SameListing(es', es, p);
    }
  }

  /** Neither the records nor the frame depend on the order in which the directory lists the processes. */
  lemma ScanOrderDoesNotMatter(m: Machine, view: View, es: seq<Entry>, es': seq<Entry>, key: Field, desc: bool,
                               frame: seq<nat>, frame': seq<nat>)
    requires Scannable(es, |view|) && Scannable(es', |view|) && multiset(es) == multiset(es')
    requires IsFrameOf(key, desc, VisitAll(m, view, es), frame, Listed(es))
    requires IsFrameOf(key, desc, VisitAll(m, view, es'), frame', Listed(es'))
    ensures VisitAll(m, view, es) == VisitAll(m, view, es') && frame == frame'
  {
    SameVisits(m, view, es, es');
    SameListings(es, es');
    OneFrame(key, desc, VisitAll(m, view, es), frame, frame', Listed(es), Listed(es'));
  }

  lemma SameListing(es: seq<Entry>, es': seq<Entry>, p: nat)
    requires multiset(es) == multiset(es')
    ensures p in Listed(es) ==> p in Listed(es')
  {
    ListedAre(es, p);
    ListedAre(es', p);
    if i :| 0 <= i < |es| && es[i].readable && es[i].pid == p {
      SameElements(es, es', es[i]);
      var j :| 0 <= j < |es'| && es'[j] == es[i];
      assert es'[j].readable;
    }
  }

  /**
   Whether a process starts without a baseline: exactly if its pid had no
   record, or had one in the last frame that was collected since.
   */
  lemma CleanStart(m: Machine, view: View, frame: seq<nat>, alive: set<nat>, es: seq<Entry>, i: nat)
    requires forall k :: 0 <= k < |frame| ==> frame[k] < |view|
    requires Scannable(es, |view|) && i < |es| && es[i].readable
    ensures var p := es[i].pid;
      var v := Collected(view, frame, alive);
      var start := if v[p].Some? then v[p].value else NewProc(p);
      && VisitAll(m, v, es)[p] == Some(Sampled(m, start, es[i]))
      && (start.baseline == None <==>
          view[p] == None || view[p].value.baseline == None || (p in frame && p !in alive))
  {
    VisitedOnce(m, Collected(view, frame, alive), es, i);
    CollectedAt(view, frame, alive, es[i].pid);
  }

  /** The consumer has seen these records. */
  function Rendered(view: View, pids: seq<nat>): (r: View)
    requires forall i :: 0 <= i < |pids| ==> pids[i] < |view|
    ensures |r| == |view|
  {
    if pids == [] then view
    else
      var p, v := pids[|pids| - 1], Rendered(view, pids[..|pids| - 1]);
      if v[p].Some? then v[p := Some(v[p].value.(isFresh := false))] else v
  }

  lemma {:induction false} RenderedAt(view: View, pids: seq<nat>, p: nat)
    requires p < |view| && forall i :: 0 <= i < |pids| ==> pids[i] < |view|
    ensures Rendered(view, pids)[p] ==
            if p in pids && view[p].Some? then Some(view[p].value.(isFresh := false)) else view[p]
  {
    if pids != [] {
      RenderedAt(view, pids[..|pids| - 1], p);
      RenderedAt(view, pids[..|pids| - 1], pids[|pids| - 1]);
    }
  }

  // ------------------------------------------------------------------ heap ----

  class Record {
    var row: Values
    var baseline: Option<Baseline>
    var isFresh: bool

    constructor (pid: nat)
      ensures Shows(this, NewProc(pid))
    {
      row, baseline, isFresh := NewProc(pid).row, None, false;
    }
  }

  ghost predicate Shows(r: Record, p: Proc)
    reads r
  {
    r.row == p.row && r.baseline == p.baseline && r.isFresh == p.isFresh
  }

  /** size_t subtraction. */
  function SizeSub(a: nat, b: nat): int { U64(a - b) }

  class Pool {
    const machine: Machine
    const pidMax: nat
    var records: seq<Record?>
    var sorted: seq<Record?>
    var sortedCount: nat
    const index: array<Record?>
    ghost var live: set<Record>     // allocated and not yet freed
    ghost var freed: set<Record>
    ghost var view: View            // what the index holds
    ghost var frame: seq<nat>       // pids of the frame
    ghost var arraysGone: bool      // an array was released by a request for zero bytes

    /** The index owns every allocated record, and the record of a pid is found at that pid. */
    ghost predicate Owned()
      reads this`live, this`freed, this`view, index, live
    {
      && pidMax < 0x8000_0000 && index.Length == |view| == pidMax + 1 && view[0] == None
      && (forall p :: 0 <= p < |view| ==> (index[p] == null <==> view[p] == None))
      && (forall p :: 0 <= p < |view| && view[p].Some? ==>
            index[p] in live && Shows(index[p], view[p].value) && view[p].value.row.pid == p)
      && (forall r :: r in live ==> 0 <= r.row.pid < |view| && index[r.row.pid] == r)
      && live !! freed
    }

    /** The frame holds pointers to distinct live records, those that the index has for their pids. */
    ghost predicate FrameOk()
      reads this`sorted, this`sortedCount, this`view, this`frame, index
    {
      && index.Length == |view| && sortedCount == |frame| <= |sorted|
      && (forall i :: 0 <= i < |frame| ==> frame[i] < |view| && view[frame[i]].Some? && sorted[i] == index[frame[i]])
      && (forall i, j :: 0 <= i < j < |frame| ==> frame[i] != frame[j])
    }

    ghost predicate SlotsOk()
      reads this`records, this`sorted, this`sortedCount, this`arraysGone
    {
      && !arraysGone && |records| < TWO_64 && |sorted| < TWO_64
      && sortedCount <= |records| <= sortedCount + HYSTERESIS
      && sortedCount <= |sorted| <= sortedCount + HYSTERESIS
    }

    ghost predicate Valid()
      reads this, index, live
    {
      Owned() && FrameOk() && SlotsOk()
    }

    /** sys_proc_pool_new. */
    constructor (machine: Machine, pidMax: nat)
      requires pidMax < 0x8000_0000
      ensures Valid() && this.machine == machine && this.pidMax == pidMax && frame == [] && live == {} && freed == {}
      ensures forall p :: 0 <= p < |view| ==> view[p] == None
      ensures fresh(index)
    {
      this.machine, this.pidMax := machine, pidMax;
      index := new Record?[pidMax + 1](_ => null);
      records, sorted, sortedCount := [], [], 0;
      live, freed, view, frame, arraysGone := {}, {}, seq(pidMax + 1, _ => None), [], false;
    }

    // ---------------------------------------------------------- collection ----

    /** free: only of a record that is allocated. */
    ghost method Free(r: Record)
      requires r in live
      modifies this`live, this`freed
      ensures live == old(live) - {r} && freed == old(freed) + {r}
    {
      live, freed := live - {r}, freed + {r};
    }

    /** The index entry of a dead process is cleared and its record freed. */
    method Drop(rec: Record, ghost p: nat)
      requires Owned() && p < |view| && view[p].Some? && rec == index[p]
      modifies this`live, this`freed, this`view, index
      ensures Owned() && view == old(view)[p := None] && live == old(live) - {rec} && freed == old(freed) + {rec}
      ensures forall q :: 0 <= q < index.Length && q != p ==> index[q] == old(index[q])
    {
      assert Shows(rec, view[p].value);
      index[rec.row.pid] := null;
      Free(rec);
      view := view[p := None];
    }

    /** The first n records of the frame have been checked. */
    ghost predicate Checked(n: nat, old_: View, alive: set<nat>)
      reads this`sorted, this`view, this`frame, index
    {
      && n <= |frame| <= |sorted| && index.Length == |view| == |old_|
      && (forall i :: 0 <= i < |frame| ==> frame[i] < |old_|)
      && (forall i, j :: 0 <= i < j < |frame| ==> frame[i] != frame[j])
      && view == Collected(old_, frame[..n], alive)
      && (forall i :: n <= i < |frame| ==> view[frame[i]].Some? && sorted[i] == index[frame[i]])
    }

    /** Nothing is allocated; what is freed stays freed; records that stay in the index stay where they are. */
    twostate predicate OnlyFrees()
      reads this`live, this`freed, this`view, index
    {
      && live + freed == old(live + freed) && old(freed) <= freed
      && (forall p :: 0 <= p < index.Length && p < |view| && view[p].Some? ==> index[p] == old(index[p]))
    }

    method CheckOne(i: nat, alive: set<nat>, ghost old_: View)
      requires Owned() && Checked(i, old_, alive) && i < |frame|
      modifies this`live, this`freed, this`view, index
      ensures Owned() && Checked(i + 1, old_, alive) && OnlyFrees()
    {
      var rec := sorted[i];
      assert frame[..i + 1][..i] == frame[..i];
      if rec.row.pid !in alive {
        Drop(rec, frame[i]);
      }
    }

    /** The collection at the beginning of produce. */
    method Collect(alive: set<nat>)
      requires Owned() && FrameOk()
      modifies this`live, this`freed, this`view, index
      ensures Owned() && Checked(|frame|, old(view), alive) && OnlyFrees()
    {
      ghost var old_ := view;
      assert Checked(0, old_, alive);
      for i := 0 to sortedCount
        invariant Owned() && Checked(i, old_, alive) && OnlyFrees()
      {
        CheckOne(i, alive, old_);
      }
    }

    // ---------------------------------------------------------------- scan ----

    /** Records stay where they are; nothing is freed. */
    twostate predicate OnlyAllocates()
      reads this`live, this`freed, index
    {
      && freed == old(freed) && old(live) <= live
      && (forall p :: 0 <= p < index.Length && old(index[p]) != null ==> index[p] == old(index[p]))
    }

    /** The record of the pid, which is allocated if there is none. */
    method FindRecord(pid: nat) returns (rec: Record)
      requires Owned() && 0 < pid <= pidMax
      modifies this`live, this`view, index
      ensures Owned() && OnlyAllocates() && rec == index[pid] && fresh(live - old(live))
      ensures view == old(view)[pid := Some(if old(view)[pid].Some? then old(view)[pid].value else NewProc(pid))]
    {
      if index[pid] == null {
        var r := new Record(pid);
        assert r !in live && r !in freed;
        index[pid] := r;
        live := live + {r};
        view := view[pid := Some(NewProc(pid))];
      }
      rec := index[pid];
    }

    /** read_stat and the other readers, and the CPU share. */
    method Sample(rec: Record, e: Entry)
      requires Owned() && 0 < e.pid < |view| && view[e.pid].Some? && rec == index[e.pid]
      modifies this`view, rec
      ensures Owned() && view == old(view)[e.pid := Some(Sampled(machine, old(view)[e.pid].value, e))]
    {
      assert Shows(rec, view[e.pid].value);
      ghost var p := Sampled(machine, view[e.pid].value, e);
      var cpu := CpuShare(machine, rec.baseline, e);
      rec.row := e.stat.(pid := rec.row.pid,
                         shr := if e.shr.Some? then e.shr.value else rec.row.shr,
                         command := if e.command.Some? then e.command.value else rec.row.command,
                         cpuPct := cpu,
                         memPct := MemShare(machine, e.stat.rss));
      rec.baseline := Some(Baseline(e.stat.utime, e.stat.stime, e.time));
      rec.isFresh := true;
      view := view[e.pid := Some(p)];
    }

    /** The first |pids| slots hold the records of these pids. */
    ghost predicate Slots(pids: seq<nat>)
      reads this`records, this`view, index
    {
      && |pids| <= |records| && index.Length == |view|
      && (forall i :: 0 <= i < |pids| ==> pids[i] < |view| && view[pids[i]].Some? && records[i] == index[pids[i]])
    }

    /** records_append_slot where there is no slot left, and the assignment of the slot. */
    method Place(rec: Record, h: nat, ghost pids: seq<nat>, ghost p: nat)
      requires Slots(pids) && h == |pids| && p < |view| && view[p].Some? && index[p] == rec
      modifies this`records
      ensures Slots(pids + [p]) && |records| == if |old(records)| > h then |old(records)| else h + 1
    {
      if h >= |records| {
        records := records + [null];
      }
      records := records[h := rec];
    }

    /** One directory entry. */
    method Visit(e: Entry, h: nat, ghost pids: seq<nat>) returns (h': nat)
      requires Owned() && 0 < e.pid <= pidMax && Slots(pids) && h == |pids|
      modifies this`live, this`view, this`records, index, live
      ensures Owned() && OnlyAllocates() && fresh(live - old(live))
      ensures view == old(view)[e.pid := Some(Visited(machine, old(view)[e.pid], e))]
      ensures h' == h + (if e.readable then 1 else 0) && Slots(if e.readable then pids + [e.pid] else pids)
      ensures |records| == if |old(records)| > h' then |old(records)| else h'
    {
      h' := h;
      var rec := FindRecord(e.pid);
      if e.readable {
        Sample(rec, e);
        Place(rec, h, pids, e.pid);
        h' := h + 1;
      }
    }

    lemma OneMoreEntry(es: seq<Entry>, n: nat, old_: View)
      requires n < |es| && forall i :: 0 <= i < |es| ==> es[i].pid < |old_|
      ensures VisitAll(machine, old_, es[..n + 1])
              == VisitAll(machine, old_, es[..n])
                 [es[n].pid := Some(Visited(machine, VisitAll(machine, old_, es[..n])[es[n].pid], es[n]))]
      ensures Listed(es[..n + 1]) == Listed(es[..n]) + if es[n].readable then [es[n].pid] else []
    {
      assert es[..n + 1][..n] == es[..n];
    }

    /** The first n entries have been visited. */
    ghost predicate Walked(es: seq<Entry>, n: nat, h: nat, old_: View, slots: nat)
      reads this`records, this`view, index
    {
      && n <= |es| && Scannable(es, |old_|)
      && view == VisitAll(machine, old_, es[..n]) && h == |Listed(es[..n])| && Slots(Listed(es[..n]))
      && |records| == if slots > h then slots else h
    }

    method VisitNext(es: seq<Entry>, n: nat, h: nat, ghost old_: View, ghost slots: nat) returns (h': nat)
      requires Owned() && Walked(es, n, h, old_, slots) && n < |es|
      modifies this`live, this`view, this`records, index, live
      ensures Owned() && OnlyAllocates() && fresh(live - old(live)) && Walked(es, n + 1, h', old_, slots)
    {
      OneMoreEntry(es, n, old_);
      h' := Visit(es[n], h, Listed(es[..n]));
    }

    /** The walk over the directory. */
    method Scan(es: seq<Entry>) returns (h: nat)
      requires Owned() && Scannable(es, |view|)
      modifies this`live, this`view, this`records, index, live
      ensures Owned() && OnlyAllocates() && fresh(live - old(live)) && Walked(es, |es|, h, old(view), |old(records)|)
    {
      h := 0;
      ghost var old_, slots := view, |records|;
      for n := 0 to |es|
        invariant Owned() && OnlyAllocates() && fresh(live - old(live)) && Walked(es, n, h, old_, slots)
      {
        h := VisitNext(es, n, h, old_, slots);
      }
    }

    // --------------------------------------------------------------- frame ----

    /** realloc of the slot array: a request for zero bytes releases the array and gives no other. */
    method ShrinkRecords(h: nat)
      requires h <= |records| < TWO_64 && !arraysGone
      modifies this`records, this`arraysGone
      ensures h <= |records| && records[..h] == old(records)[..h]
      ensures arraysGone <==> h == 0 && |old(records)| > HYSTERESIS
      ensures !arraysGone ==> |records| <= h + HYSTERESIS && |records| < TWO_64
    {
      if SizeSub(|records|, h) > HYSTERESIS {
        if h > 0 {
          records := records[..h];
        } else {
          arraysGone := true;
        }
      }
    }

    /** realloc and sorted_append_slot: the frame gets room for h pointers. */
    method ResizeSorted(h: nat)
      requires |sorted| < TWO_64 && h < TWO_64
      modifies this`sorted, this`arraysGone
      ensures h <= |sorted|
      ensures arraysGone <==> old(arraysGone) || (h == 0 && |old(sorted)| > HYSTERESIS)
      ensures !arraysGone ==> |sorted| <= h + HYSTERESIS && |sorted| < TWO_64
    {
      if SizeSub(|sorted|, h) > HYSTERESIS {
        if h > 0 {
          sorted := if h <= |sorted| then sorted[..h] else sorted + seq(h - |sorted|, _ => null);
        } else {
          arraysGone := true;
        }
      }
      ghost var gone := arraysGone;
      while |sorted| < h
        invariant arraysGone == gone
        invariant !arraysGone ==> |sorted| <= h + HYSTERESIS && |sorted| < TWO_64
      {
        sorted := sorted + [null];
      }
    }

    /** The pointers of the scan are copied. */
    method CopySlots(h: nat, ghost pids: seq<nat>) returns (slots: seq<Slot>)
      requires Owned() && Slots(pids) && h == |pids|
      requires forall i, j :: 0 <= i < j < |pids| ==> pids[i] != pids[j]
      ensures SlotsShow(view, slots, pids) && forall i :: 0 <= i < h ==> slots[i].rec == index[pids[i]]
    {
      slots := [];
      for i := 0 to h
        invariant |slots| == i
        invariant forall k :: 0 <= k < i ==> slots[k].row.pid == pids[k] && slots[k].row == RowOf(view, pids[k])
        invariant forall k :: 0 <= k < i ==> slots[k].rec == index[pids[k]]
      {
        assert view[pids[i]].Some? && Shows(index[pids[i]], view[pids[i]].value) && pids[i] != 0;
        slots := slots + [Slot(records[i], records[i].row)];
      }
      assert Pids(slots) == pids;
      forall i | 0 <= i < h
        ensures slots[i].row == RowOf(view, slots[i].row.pid)
      {
        assert slots[i].row.pid == pids[i];
      }
    }

    /** The frame is sorted. */
    method BuildFrame(h: nat, key: Field, desc: bool, ghost pids: seq<nat>)
      requires Owned() && Slots(pids) && h == |pids| <= |sorted|
      requires forall i, j :: 0 <= i < j < |pids| ==> pids[i] != pids[j]
      modifies this`sorted, this`sortedCount, this`frame
      ensures FrameOk() && IsFrameOf(key, desc, view, frame, pids) && |sorted| == |old(sorted)|
    {
      var slots := CopySlots(h, pids);
      var t := SortFrame(key, desc, SlotRow, slots);
      SortedSlots(key, desc, view, slots, pids, t);
      forall i | 0 <= i < h
        ensures Pids(t)[i] < |view| && view[Pids(t)[i]].Some? && Recs(t)[i] == index[Pids(t)[i]]
      {
        assert t[i] in slots;
        var k :| 0 <= k < h && slots[k] == t[i];
        assert Pids(slots)[k] == pids[k];
      }
      sorted := Recs(t) + sorted[h..];
      sortedCount := h;
      frame := Pids(t);
    }

    // -------------------------------------------------------------- produce ----

    /** The arrays survive resizing for h processes. */
    ghost predicate RoomFor(h: nat)
      reads this`records, this`sorted
    {
      h > 0 || (|records| <= HYSTERESIS && |sorted| <= HYSTERESIS)
    }

    /** The frame for the entries that have been scanned. */
    method Publish(h: nat, key: Field, desc: bool, ghost pids: seq<nat>)
      requires Owned() && Slots(pids) && h == |pids| && |records| < TWO_64 && |sorted| < TWO_64 && !arraysGone
      requires forall i, j :: 0 <= i < j < |pids| ==> pids[i] != pids[j]
      modifies this`records, this`sorted, this`sortedCount, this`frame, this`arraysGone
      ensures Owned() && FrameOk() && IsFrameOf(key, desc, view, frame, pids)
      ensures SlotsOk() <==> old(RoomFor(h))
    {
      ShrinkRecords(h);
      assert forall i :: 0 <= i < h ==> records[i] == records[..h][i];
      ResizeSorted(h);
      BuildFrame(h, key, desc, pids);
    }

    /** A record of the old frame is freed if and only if its process is gone. */
    twostate lemma FreedAreGone(alive: set<nat>)
      requires old(Owned()) && old(FrameOk()) && Owned() && sorted == old(sorted) && frame == old(frame)
      requires Checked(|frame|, old(view), alive) && OnlyFrees()
      requires forall r :: r in old(live) ==> r.row == old(r.row)
      ensures forall i :: 0 <= i < |frame| ==> (sorted[i] in freed <==> frame[i] !in alive)
    {
      assert frame[..|frame|] == frame;
      forall i | 0 <= i < |frame| ensures sorted[i] in freed <==> frame[i] !in alive {
        CollectedAt(old(view), frame, alive, frame[i]);
        assert old(Shows(index[frame[i]], view[frame[i]].value));
      }
    }

    /** The scan, and the frame it makes. */
    method ScanToFrame(es: seq<Entry>, key: Field, desc: bool)
      requires Owned() && SlotsOk() && Scannable(es, |view|)
      modifies this, index, live
      ensures Owned() && OnlyAllocates() && fresh(live - old(live))
      ensures FrameOk() && IsFrameOf(key, desc, view, frame, Listed(es))
      ensures view == VisitAll(machine, old(view), es)
      ensures SlotsOk() <==> Listed(es) != [] || old(RoomFor(0))
    {
      EntriesFit(es, pidMax + 1);
      ListedDistinct(es, pidMax + 1);
      assert es[..|es|] == es;
      var h := Scan(es);
      Publish(h, key, desc, Listed(es));
    }

    lemma DeadFrame(alive: set<nat>, old_: View)
      requires Owned() && Checked(|frame|, old_, alive) && sortedCount == |frame|
      requires forall i :: 0 <= i < |frame| ==> old_[frame[i]].Some?
      requires forall i :: 0 <= i < |frame| && frame[i] in alive ==> sorted[i] == index[frame[i]]
      ensures FrameOk() <==> forall i :: 0 <= i < |frame| ==> frame[i] in alive
    {
      assert frame[..|frame|] == frame;
      forall i | 0 <= i < |frame| ensures view[frame[i]].Some? <==> frame[i] in alive {
        CollectedAt(old_, frame, alive, frame[i]);
      }
    }

    /**
     sys_proc_pool_produce. The environment gives the directory (or the failure
     to open it) and the processes that exist during the collection.
     */
    method Produce(dir: Option<seq<Entry>>, alive: set<nat>, key: Field, desc: bool) returns (posted: bool)
      requires Valid()
      requires dir.Some? ==> Scannable(dir.value, pidMax + 1)
      modifies this, index, live
      ensures posted <==> dir.Some?
      ensures Owned() && old(freed) <= freed <= old(live + freed) && old(live) <= live + freed
              && fresh(live - old(live))
      // the directory was read
      ensures posted ==> FrameOk() && IsFrameOf(key, desc, view, frame, Listed(dir.value))
      ensures posted ==> view == VisitAll(machine, Collected(old(view), old(frame), alive), dir.value)
      ensures posted ==> (SlotsOk() <==> Listed(dir.value) != [] || old(RoomFor(0)))
      // it was not: the frame keeps its pointers, and those to dead processes dangle
      ensures !posted ==> frame == old(frame) && sorted == old(sorted) && SlotsOk()
      ensures !posted ==> forall i :: 0 <= i < |frame| ==> (sorted[i] in freed <==> frame[i] !in alive)
      ensures !posted ==> (FrameOk() <==> forall i :: 0 <= i < |frame| ==> frame[i] in alive)
    {
      Collect(alive);
      FreedAreGone(alive);
      posted := dir.Some?;
      if posted {
        assert frame[..|frame|] == frame;
        ScanToFrame(dir.value, key, desc);
      } else {
        DeadFrame(alive, old(view));
      }
    }

    // ------------------------------------------------- frame_done and free ----

    method Seen(i: nat, ghost old_: View)
      requires Owned() && FrameOk() && i < |frame| && |view| == |old_|
      requires (forall k :: 0 <= k < |frame| ==> frame[k] < |old_|) && view == Rendered(old_, frame[..i])
      modifies this`view, live
      ensures Owned() && FrameOk() && view == Rendered(old_, frame[..i + 1])
    {
      ghost var p := frame[i];
      assert frame[..i + 1][..i] == frame[..i];
      assert Shows(sorted[i], view[p].value);
      sorted[i].isFresh := false;
      view := view[p := Some(view[p].value.(isFresh := false))];
    }

    /** sys_proc_pool_frame_done: the records of the frame are no longer fresh. */
    method FrameDone()
      requires Valid()
      modifies this`view, live
      ensures Valid() && view == Rendered(old(view), frame)
    {
      ghost var old_ := view;
      for i := 0 to sortedCount
        invariant Owned() && FrameOk() && |view| == |old_| && view == Rendered(old_, frame[..i])
      {
        Seen(i, old_);
      }
      assert frame[..|frame|] == frame;
    }

    /** The records from pid p on are still to be freed. */
    ghost predicate Freeing(p: nat)
      reads this`live, this`view, index, live
    {
      && index.Length == |view|
      && (forall q :: p <= q < |view| ==> index[q] != null ==> index[q] in live && index[q].row.pid == q)
      && (forall r :: r in live ==> p <= r.row.pid < |view| && index[r.row.pid] == r)
    }

    method FreeOne(p: nat)
      requires Freeing(p) && p < |view|
      modifies this`live, this`freed
      ensures Freeing(p + 1) && live + freed == old(live + freed)
    {
      if index[p] != null {
        Free(index[p]);
      }
    }

    /** sys_proc_pool_free: every record that is still allocated is freed, once. */
    method FreeAll()
      requires Owned()
      modifies this`live, this`freed
      ensures live == {} && freed == old(live + freed)
    {
      assert Freeing(0) by {
        assert forall q :: 0 <= q < |view| && view[q].Some? ==> Shows(index[q], view[q].value);
      }
      for p := 0 to pidMax + 1
        invariant Freeing(p) && live + freed == old(live + freed)
      {
        FreeOne(p);
      }
      assert live == {};
    }
  }
}
