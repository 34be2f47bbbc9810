/**
 The life of a pool (djeti/sys_proc_pool.c:309-506): any number of frames, of
 which some are shown, and the release at the end.
 */
module ProcRuns {
  import opened Options
  import opened ProcessFields
  import opened MergeSort
  import opened ProcOrder
  import opened ProcPool

  /** What happens for one frame: the scan, the order it is shown in, and whether it is shown. */
  datatype Cycle = Cycle(dir: seq<Entry>, alive: set<nat>, key: Field, desc: bool, shown: bool)

  /** What the index and the frame hold. */
  datatype Contents = Contents(view: View, frame: seq<nat>)

  ghost predicate Fits(c: Contents, n: nat) {
    |c.view| == n && forall i :: 0 <= i < |c.frame| ==> c.frame[i] < n
  }

  /** The pids in the order of the comparator. */
  function FrameOf(key: Field, desc: bool, view: View, pids: seq<nat>): seq<nat> {
    SortFrame(key, desc, (p: nat) => RowOf(view, p), pids)
  }

  /** Index and frame after a cycle. */
  ghost function After(m: Machine, c: Contents, cycle: Cycle, n: nat): (r: Contents)
    requires Fits(c, n) && Scannable(cycle.dir, n)
    ensures Fits(r, n)
  {
    var view := VisitAll(m, Collected(c.view, c.frame, cycle.alive), cycle.dir);
    var frame := FrameOf(cycle.key, cycle.desc, view, Listed(cycle.dir));
    FrameFits(cycle, view, n);
    Contents(if cycle.shown then Rendered(view, frame) else view, frame)
  }

  /** The scans of a run list processes, and succeed. */
  ghost predicate Runs(cycles: seq<Cycle>, n: nat) {
    forall i :: 0 <= i < |cycles| ==> Scannable(cycles[i].dir, n) && Listed(cycles[i].dir) != []
  }

  /** Index and frame as a function of the history. */
  ghost function History(m: Machine, n: nat, cycles: seq<Cycle>): (r: Contents)
    requires Runs(cycles, n)
    ensures Fits(r, n)
  {
    if cycles == [] then Contents(seq(n, _ => None), [])
    else After(m, History(m, n, cycles[..|cycles| - 1]), cycles[|cycles| - 1], n)
  }

  lemma FrameFits(cycle: Cycle, view: View, n: nat)
    requires |view| == n && Scannable(cycle.dir, n)
    ensures forall i :: 0 <= i < |FrameOf(cycle.key, cycle.desc, view, Listed(cycle.dir))| ==>
              FrameOf(cycle.key, cycle.desc, view, Listed(cycle.dir))[i] < n
  {
    var pids := Listed(cycle.dir);
    var frame := FrameOf(cycle.key, cycle.desc, view, pids);
    PassesKeep(Comparator(cycle.key, cycle.desc), (p: nat) => RowOf(view, p), pids, 1);
    forall i | 0 <= i < |frame| ensures frame[i] < n {
      SameElements(pids, frame, frame[i]);
      ListedAre(cycle.dir, frame[i]);
    }
  }

  /** The records of these pids show them. */
  ghost predicate RowsShow(view: View, pids: seq<nat>) {
    forall i :: 0 <= i < |pids| ==> RowOf(view, pids[i]).pid == pids[i]
  }

  /** The frame of a pool is the one the history tells. */
  lemma FrameIsDetermined(key: Field, desc: bool, view: View, frame: seq<nat>, pids: seq<nat>)
    requires IsFrameOf(key, desc, view, frame, pids) && RowsShow(view, pids)
    requires forall i, j :: 0 <= i < j < |pids| ==> pids[i] != pids[j]
    ensures frame == FrameOf(key, desc, view, pids)
  {
    var row := (p: nat) => RowOf(view, p);
    var t := FrameOf(key, desc, view, pids);
    assert DistinctPids(row, pids);
    FrameIsSorted(key, desc, row, pids);
    forall p: nat ensures p in t <==> p in pids {
      SameElements(pids, t, p);
    }
    assert |multiset(pids)| == |pids| && |multiset(t)| == |t|;
    OneFrame(key, desc, view, frame, t, pids, pids);
  }

  /** The rows of a pool's frame are those of its pids. */
  lemma PoolRowsShow(pool: Pool, pids: seq<nat>)
    requires pool.Owned() && pool.FrameOk() && forall p :: p in pool.frame <==> p in pids
    ensures RowsShow(pool.view, pids)
  {
    forall i | 0 <= i < |pids| ensures RowOf(pool.view, pids[i]).pid == pids[i] {
      assert pids[i] in pool.frame;
      var k :| 0 <= k < |pool.frame| && pool.frame[k] == pids[i];
      assert pool.view[pool.frame[k]].Some? && pids[i] != 0;
    }
  }

  /** One frame is made, and shown or not. */
  method OneCycle(pool: Pool, c: Cycle)
    requires pool.Valid() && Scannable(c.dir, pool.pidMax + 1) && Listed(c.dir) != []
    requires Fits(Contents(pool.view, pool.frame), pool.pidMax + 1)
    modifies pool, pool.index, pool.live
    ensures pool.Valid() && fresh(pool.live - old(pool.live))
    ensures Contents(pool.view, pool.frame)
            == After(pool.machine, old(Contents(pool.view, pool.frame)), c, pool.pidMax + 1)
    ensures old(pool.freed) <= pool.freed <= old(pool.live + pool.freed) && old(pool.live) <= pool.live + pool.freed
  {
    var posted := pool.Produce(Some(c.dir), c.alive, c.key, c.desc);
    ListedDistinct(c.dir, pool.pidMax + 1);
    PoolRowsShow(pool, Listed(c.dir));
    FrameIsDetermined(c.key, c.desc, pool.view, pool.frame, Listed(c.dir));
    if c.shown {
      pool.FrameDone();
    }
  }

  /** The pool after the first n cycles. */
  ghost predicate Lived(pool: Pool, machine: Machine, pidMax: nat, cycles: seq<Cycle>, n: nat)
    requires n <= |cycles| && Runs(cycles, pidMax + 1)
    reads pool, pool.index, pool.live
  {
    && pool.Valid() && pool.machine == machine && pool.pidMax == pidMax
    && Contents(pool.view, pool.frame) == History(machine, pidMax + 1, cycles[..n])
  }

  /** A new pool, and some frames. */
  method SomeCycles(machine: Machine, pidMax: nat, cycles: seq<Cycle>) returns (pool: Pool)
    requires pidMax < 0x8000_0000 && Runs(cycles, pidMax + 1)
    ensures Lived(pool, machine, pidMax, cycles, |cycles|) && fresh(pool) && fresh(pool.index) && fresh(pool.live)
  {
    pool := new Pool(machine, pidMax);
    assert pool.view == seq(pidMax + 1, _ => None) && cycles[..0] == [];
    for i := 0 to |cycles|
      invariant fresh(pool) && fresh(pool.index) && fresh(pool.live)
      invariant Lived(pool, machine, pidMax, cycles, i)
    {
      assert cycles[..i + 1][..i] == cycles[..i];
      OneCycle(pool, cycles[i]);
    }
  }

  /**
   A whole life: after any run of successful scans index and frame, with every
   baseline in them, are what the history tells, and releasing the pool leaves
   no record allocated (Free takes only records that are).
   */
  method WholeLife(machine: Machine, pidMax: nat, cycles: seq<Cycle>) returns (pool: Pool)
    requires pidMax < 0x8000_0000 && Runs(cycles, pidMax + 1)
    ensures Contents(pool.view, pool.frame) == History(machine, pidMax + 1, cycles) && pool.live == {}
  {
    pool := SomeCycles(machine, pidMax, cycles);
    assert cycles[..|cycles|] == cycles;
    pool.FreeAll();
  }

  /** After a run the baseline of every process that was read last is its last sample. */
  lemma LastSampleIsBaseline(m: Machine, n: nat, cycles: seq<Cycle>, i: nat)
    requires Runs(cycles, n) && cycles != [] && i < |cycles[|cycles| - 1].dir| && cycles[|cycles| - 1].dir[i].readable
    ensures var e := cycles[|cycles| - 1].dir[i];
      var now := History(m, n, cycles).view[e.pid];
      now.Some? && now.value.baseline == Some(Baseline(e.stat.utime, e.stat.stime, e.time))
  {
    var c := cycles[|cycles| - 1];
    var before := History(m, n, cycles[..|cycles| - 1]);
    var view := VisitAll(m, Collected(before.view, before.frame, c.alive), c.dir);
    VisitedOnce(m, Collected(before.view, before.frame, c.alive), c.dir, i);
    var frame := FrameOf(c.key, c.desc, view, Listed(c.dir));
    FrameFits(c, view, n);
    RenderedAt(view, frame, c.dir[i].pid);
  }
}
