/**
 The two threads that share a process pool: the producer loop of
 proc_pool_thread (src/interface.c:681-695) over sys_proc_pool_produce, and the
 main thread, which takes frames in draw_sys_processes (src/interface.c:1723-1755)
 and stops the producer in proc_pool_stop (src/interface.c:709-721). The
 semaphores are counters, and every semaphore operation and every access to the
 running flag is one step of one thread; the threads interleave arbitrarily.
 */
module ProcHandoff {

  /** Where the producer is: at the loop test, at sem_wait(frame_done), at work on the frame, or returned. */
  datatype Producer = CheckFlag | WaitDone | Inside | Exited

  /**
   Where the main thread is: between two frames, rendering a frame, at the
   sem_trywait of sys_proc_pool_drain or between that and its sem_post, in
   pthread_join, at the sem_trywait of sys_proc_pool_free or before its
   sem_post, or past the release of the records.
   */
  datatype Main = Idle | Rendering | Draining | DrainPost | Joining | FreeDraining | FreePost | Freed

  /** frame_ready, frame_done and the flag; frames are numbered as they are produced. */
  datatype State = State(
    running: bool, ready: nat, done: nat, producer: Producer, main: Main,
    produced: nat, taken: seq<nat>, shown: seq<nat>)

  datatype Step =
    | TestFlag | AcquireDone | PostReady | ScanFails
    | TakeFrame | FrameDone | ClearFlag | DrainTake | DrainRelease | DrainEmpty | Join
    | FreeTake | FreeRelease | Free

  const START: State := State(true, 0, 1, CheckFlag, Idle, 0, [], [])

  predicate Enabled(s: State, step: Step) {
    match step
    case TestFlag => s.producer == CheckFlag
    case AcquireDone => s.producer == WaitDone && s.done > 0
    case PostReady => s.producer == Inside
    case ScanFails => s.producer == Inside
    case TakeFrame => s.main == Idle && s.ready > 0
    case FrameDone => s.main == Rendering
    case ClearFlag => s.main == Idle
    case DrainTake => s.main == Draining && s.ready > 0
    case DrainRelease => s.main == DrainPost
    case DrainEmpty => s.main == Draining && s.ready == 0
    case Join => s.main == Joining && s.producer == Exited
    case FreeTake => s.main == FreeDraining && s.ready > 0
    case FreeRelease => s.main == FreePost
    case Free => s.main == FreeDraining && s.ready == 0
  }

  function Do(s: State, step: Step): State
    requires Enabled(s, step)
  {
    match step
    case TestFlag => s.(producer := if s.running then WaitDone else Exited)
    case AcquireDone => s.(done := s.done - 1, producer := Inside)
    case PostReady => s.(ready := s.ready + 1, producer := CheckFlag, produced := s.produced + 1)
    case ScanFails => s.(done := s.done + 1, producer := CheckFlag)
    case TakeFrame => s.(ready := s.ready - 1, main := Rendering, taken := s.taken + [s.produced],
                         shown := s.shown + [s.produced])
    case FrameDone => s.(done := s.done + 1, main := Idle)
    case ClearFlag => s.(running := false, main := Draining)
    case DrainTake => s.(ready := s.ready - 1, main := DrainPost, taken := s.taken + [s.produced])
    case DrainRelease => s.(done := s.done + 1, main := Draining)
    case DrainEmpty => s.(main := Joining)
    case Join => s.(main := FreeDraining)
    case FreeTake => s.(ready := s.ready - 1, main := FreePost, taken := s.taken + [s.produced])
    case FreeRelease => s.(done := s.done + 1, main := FreeDraining)
    case Free => s.(main := Freed)
  }

  /** An interleaving: each step is enabled when it is taken. */
  predicate Possible(s: State, run: seq<Step>)
    decreases run
  {
    run == [] || (Enabled(s, run[0]) && Possible(Do(s, run[0]), run[1..]))
  }

  function After(s: State, run: seq<Step>): State
    requires Possible(s, run)
    decreases run
  {
    if run == [] then s else After(Do(s, run[0]), run[1..])
  }

  // ----------------------------------------------------------- invariants ----

  function InsideCount(s: State): nat { if s.producer == Inside then 1 else 0 }

  /** The main thread has taken frame_ready and has not posted frame_done yet. */
  predicate HoldsFrame(m: Main) { m == Rendering || m == DrainPost || m == FreePost }

  function HoldCount(s: State): nat { if HoldsFrame(s.main) then 1 else 0 }

  /** The main thread has cleared the flag. */
  predicate Stopping(m: Main) { m != Idle && m != Rendering }

  /** Past pthread_join. */
  predicate Joined(m: Main) { m == FreeDraining || m == FreePost || m == Freed }

  /** The numbers of the first n frames. */
  function Numbers(n: nat): (r: seq<nat>)
    ensures |r| == n && forall i :: 0 <= i < n ==> r[i] == i + 1
  {
    seq(n, i requires 0 <= i < n => i + 1)
  }

  /** What holds in every state of every interleaving. */
  predicate Inv(s: State) {
    // a single token moves between the semaphores and the threads
    && s.ready + s.done + InsideCount(s) + HoldCount(s) == 1
    // every frame is taken at most once, in order, before the next one is produced
    && s.taken == Numbers(|s.taken|) && s.produced == |s.taken| + s.ready
    && s.shown <= s.taken && (s.running ==> s.shown == s.taken)
    && (s.running <==> !Stopping(s.main))
    // the producer leaves its loop only after the flag is cleared, and join waits for that
    && (s.producer == Exited ==> !s.running)
    && (Joined(s.main) ==> s.producer == Exited)
    // in join, a producer that waits for frame_done is not blocked
    && (s.main == Joining && s.producer == WaitDone ==> s.done == 1)
    && (s.main == Freed ==> s.ready == 0)
  }

  lemma NextNumber(n: nat)
    ensures Numbers(n) + [n + 1] == Numbers(n + 1)
  {
  }

  lemma StepKeepsInv(s: State, step: Step)
    requires Inv(s) && Enabled(s, step)
    ensures Inv(Do(s, step))
  {
    NextNumber(|s.taken|);
  }

  /** The invariant holds after every interleaving. */
  lemma {:induction false} RunKeepsInv(s: State, run: seq<Step>)
    requires Inv(s) && Possible(s, run)
    ensures Inv(After(s, run))
    decreases run
  {
    if run != [] {
      StepKeepsInv(s, run[0]);
      RunKeepsInv(Do(s, run[0]), run[1..]);
    }
  }

  /** One token for the frame; records go only after the producer returned. */
  predicate Exclusive(s: State) {
    && s.ready + s.done + InsideCount(s) + HoldCount(s) == 1
    && !(s.producer == Inside && HoldsFrame(s.main))
    && (Joined(s.main) ==> s.producer == Exited)
  }

  /**
   From the start of the two threads: exactly one of the semaphores and the
   threads has the token, so the producer and the main thread are never at the
   frame together, and records are released only after the producer returned.
   */
  lemma NeverTogether(run: seq<Step>)
    requires Possible(START, run)
    ensures Exclusive(After(START, run))
  {
    RunKeepsInv(START, run);
  }

  /**
   The frames shown are the first ones produced, each once and in order; while
   running at most one is not taken yet.
   */
  predicate ShownInOrder(s: State) {
    && s.shown == Numbers(|s.shown|) && |s.shown| <= s.produced
    && (s.running ==> s.produced - |s.shown| <= 1)
  }

  lemma EveryFrameOnce(run: seq<Step>)
    requires Possible(START, run)
    ensures ShownInOrder(After(START, run))
  {
    RunKeepsInv(START, run);
    var s := After(START, run);
    assert s.shown == s.taken[..|s.shown|] == Numbers(|s.shown|);
  }

  ghost predicate CanStep(s: State) {
    exists step :: Enabled(s, step)
  }

  /** The producer is never blocked for good while the main thread is in join. */
  lemma JoinIsNotBlocked(run: seq<Step>)
    requires Possible(START, run) && After(START, run).main == Joining
    ensures CanStep(After(START, run))
    ensures After(START, run).producer == WaitDone ==> Enabled(After(START, run), AcquireDone)
  {
    RunKeepsInv(START, run);
    var s := After(START, run);
    match s.producer
    case CheckFlag => assert Enabled(s, TestFlag);
    case WaitDone => assert Enabled(s, AcquireDone);
    case Inside => assert Enabled(s, PostReady);
    case Exited => assert Enabled(s, Join);
  }
}
