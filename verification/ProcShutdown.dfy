/**
 Stopping the producer (src/interface.c:709-721, djeti/sys_proc_pool.c:339-368):
 the step system of ProcHandoff once the running flag is cleared.
 */
module ProcShutdown {
  import opened ProcHandoff

  /** The producer will still finish a frame at most once. */
  function Pending(s: State): nat {
    if s.producer == WaitDone || s.producer == Inside then 1 else 0
  }

  function ProducerRank(p: Producer): nat {
    match p
    case WaitDone => 3
    case Inside => 2
    case CheckFlag => 1
    case Exited => 0
  }

  function MainRank(m: Main): nat {
    match m
    case Idle | Rendering => 6
    case DrainPost => 5
    case Draining => 4
    case Joining => 3
    case FreePost => 2
    case FreeDraining => 1
    case Freed => 0
  }

  /** Steps that are left once the flag is cleared, at most. */
  function Rank(s: State): nat {
    ProducerRank(s.producer) + 2 * (s.ready + Pending(s)) + MainRank(s.main)
  }

  lemma StepAfterStop(s: State, step: Step)
    requires Inv(s) && !s.running && Enabled(s, step)
    ensures !Do(s, step).running && Rank(Do(s, step)) < Rank(s)
    ensures Do(s, step).produced + Pending(Do(s, step)) <= s.produced + Pending(s)
  {
  }

  /**
   Once the flag is cleared, at most one more frame is produced (none if the
   producer is past its wait), and no interleaving takes more than Rank(s) steps.
   */
  lemma {:induction false} StopEnds(s: State, run: seq<Step>)
    requires Inv(s) && !s.running && Possible(s, run)
    ensures |run| <= Rank(s) <= 14
    ensures s.produced <= After(s, run).produced <= s.produced + Pending(s)
    decreases run
  {
    if run != [] {
      StepKeepsInv(s, run[0]);
      StepAfterStop(s, run[0]);
      StopEnds(Do(s, run[0]), run[1..]);
    }
  }

  /** A state without a next step is the one with everything released: shutting down cannot get stuck. */
  lemma OnlyFreedIsFinal(s: State)
    requires Inv(s)
    ensures !CanStep(s) <==> s.main == Freed
  {
    if s.main == Freed {
      assert s.producer == Exited;
    } else {
      if s.main == Idle { assert Enabled(s, ClearFlag); }
      if s.main == Rendering { assert Enabled(s, FrameDone); }
      if s.main == Draining { assert Enabled(s, DrainTake) || Enabled(s, DrainEmpty); }
      if s.main == DrainPost { assert Enabled(s, DrainRelease); }
      if s.main == Joining {
        assert Enabled(s, TestFlag) || Enabled(s, AcquireDone) || Enabled(s, PostReady) || Enabled(s, Join);
      }
      if s.main == FreeDraining { assert Enabled(s, FreeTake) || Enabled(s, Free); }
      if s.main == FreePost { assert Enabled(s, FreeRelease); }
    }
  }

  /** Frames taken only to be dropped: sem_trywait of drain or free succeeded. */
  function Dropped(run: seq<Step>): nat {
    if run == [] then 0
    else (if run[0] == DrainTake || run[0] == FreeTake then 1 else 0) + Dropped(run[1..])
  }

  lemma {:induction false} DropsAfterStop(s: State, run: seq<Step>)
    requires Inv(s) && !s.running && Possible(s, run)
    ensures Dropped(run) <= s.ready + Pending(s)
    decreases run
  {
    if run != [] {
      StepKeepsInv(s, run[0]);
      StepAfterStop(s, run[0]);
      DropsAfterStop(Do(s, run[0]), run[1..]);
    }
  }

  /** The frames that are not shown are the dropped ones and the one that is not taken yet. */
  lemma {:induction false} DropsAccount(s: State, run: seq<Step>)
    requires Inv(s) && Possible(s, run)
    ensures After(s, run).produced - |After(s, run).shown| - After(s, run).ready
            == s.produced - |s.shown| - s.ready + Dropped(run)
    decreases run
  {
    if run != [] {
      StepKeepsInv(s, run[0]);
      DropsAccount(Do(s, run[0]), run[1..]);
    }
  }

  lemma {:induction false} AtMostTwoDrops(s: State, run: seq<Step>)
    requires Inv(s) && Possible(s, run) && s.running
    ensures Dropped(run) <= 2
    decreases run
  {
    if run != [] {
      StepKeepsInv(s, run[0]);
      var s' := Do(s, run[0]);
      if s'.running {
        AtMostTwoDrops(s', run[1..]);
      } else {
        DropsAfterStop(s', run[1..]);
      }
    }
  }

  /** Over a whole life of the pool at most two frames are produced and never shown. */
  lemma AtMostTwoFramesLost(run: seq<Step>)
    requires Possible(START, run) && After(START, run).main == Freed
    ensures After(START, run).produced <= |After(START, run).shown| + 2
  {
    RunKeepsInv(START, run);
    DropsAccount(START, run);
    AtMostTwoDrops(START, run);
  }

  /** A run can end in the state, and run is one of the ways to get there. */
  ghost predicate Leads(s: State, run: seq<Step>, last: State) {
    Possible(s, run) && After(s, run) == last
  }

  lemma Then(s: State, step: Step, next: State, rest: seq<Step>, last: State) returns (run: seq<Step>)
    requires Enabled(s, step) && Do(s, step) == next && Leads(next, rest, last)
    ensures Leads(s, run, last)
  {
    run := [step] + rest;
    assert run[1..] == rest;
  }

  /** With a pending frame and a producer that is past the flag, stopping can lose two frames. */
  lemma StopLosesTwo(last: State) returns (run: seq<Step>)
    requires last == State(false, 0, 1, Exited, Freed, 2, [1, 2], [])
    ensures Leads(State(true, 1, 0, WaitDone, Idle, 1, [], []), run, last)
  {
    var a := State(false, 0, 0, WaitDone, DrainPost, 1, [1], []);
    var b := State(false, 0, 0, CheckFlag, DrainPost, 2, [1, 2], []);
    var c := State(false, 0, 1, Exited, FreeDraining, 2, [1, 2], []);
    run := Then(c, Free, last, [], last);
    run := Then(c.(main := Joining), Join, c, run, last);
    run := Then(b.(done := 1, main := Joining), TestFlag, c.(main := Joining), run, last);
    run := Then(b.(done := 1, main := Draining), DrainEmpty, b.(done := 1, main := Joining), run, last);
    run := Then(b, DrainRelease, b.(done := 1, main := Draining), run, last);
    run := Then(b.(ready := 1, taken := [1], main := Draining), DrainTake, b, run, last);
    run := Then(a.(producer := Inside, main := Draining), PostReady, b.(ready := 1, taken := [1], main := Draining),
                run, last);
    run := Then(a.(done := 1, main := Draining), AcquireDone, a.(producer := Inside, main := Draining), run, last);
    run := Then(a, DrainRelease, a.(done := 1, main := Draining), run, last);
    run := Then(a.(ready := 1, taken := [], main := Draining), DrainTake, a, run, last);
    run := Then(State(true, 1, 0, WaitDone, Idle, 1, [], []), ClearFlag,
                a.(ready := 1, taken := [], main := Draining), run, last);
  }

  /** Two frames can be lost: the pending one, and the one for which the producer was already past the flag. */
  lemma TwoFramesCanBeLost() returns (run: seq<Step>)
    ensures Possible(START, run) && After(START, run).main == Freed
    ensures After(START, run).produced == 2 && After(START, run).shown == []
  {
    var last := State(false, 0, 1, Exited, Freed, 2, [1, 2], []);
    run := StopLosesTwo(last);
    run := Then(START.(ready := 1, done := 0, produced := 1), TestFlag, State(true, 1, 0, WaitDone, Idle, 1, [], []),
                run, last);
    run := Then(START.(done := 0, producer := Inside), PostReady, START.(ready := 1, done := 0, produced := 1), run,
                last);
    run := Then(START.(producer := WaitDone), AcquireDone, START.(done := 0, producer := Inside), run, last);
    run := Then(START, TestFlag, START.(producer := WaitDone), run, last);
  }
}
