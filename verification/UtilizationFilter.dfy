/**
 Utilization samples of processes on NVIDIA devices
 (src/extract_gpuinfo_nvidia.c:1017-1071): the driver may report samples of dead
 processes, impossible values and samples that were reported before.
 */
module UtilizationFilter {
  import opened Options
  import opened CIntegers

  datatype Sample = Sample(pid: nat, timeStamp: nat, smUtil: nat, encUtil: nat, decUtil: nat)

  /** A process row; a usage is present when its valid bit is set. */
  datatype Row = Row(pid: CInt, gpuUsage: Option<nat>, encodeUsage: Option<nat>, decodeUsage: Option<nat>)

  // -------------------------------------------------------- specification ----

  /** The sample is plausible and newer than the last ones. */
  predicate Plausible(s: Sample, last: nat) {
    s.smUtil <= 100 && s.encUtil <= 100 && s.decUtil <= 100 && s.timeStamp > last
  }

  /** The first row of the process; the number of rows if there is none. */
  function RowOf(rows: seq<Row>, pid: int): (j: nat)
    ensures j <= |rows| && (j < |rows| ==> rows[j].pid == pid)
    ensures forall i :: 0 <= i < j ==> rows[i].pid != pid
  {
    if rows == [] then 0 else if rows[0].pid == pid then 0 else 1 + RowOf(rows[1..], pid)
  }

  predicate Accepted(rows: seq<Row>, s: Sample, last: nat) {
    Plausible(s, last) && RowOf(rows, Int32(s.pid)) < |rows|
  }

  function WithSample(r: Row, s: Sample): Row {
    r.(gpuUsage := Some(s.smUtil), encodeUsage := Some(s.encUtil), decodeUsage := Some(s.decUtil))
  }

  function Applied(rows: seq<Row>, s: Sample, last: nat): (r: seq<Row>)
    ensures |r| == |rows|
  {
    if Accepted(rows, s, last) then
      var j := RowOf(rows, Int32(s.pid));
      rows[j := WithSample(rows[j], s)]
    else rows
  }

  /** The rows after all samples, in the order in which they are reported. */
  function AllApplied(rows: seq<Row>, samples: seq<Sample>, last: nat): (r: seq<Row>)
    ensures |r| == |rows|
  {
    if samples == [] then rows
    else Applied(AllApplied(rows, samples[..|samples| - 1], last), samples[|samples| - 1], last)
  }

  /** The newest time stamp that was accepted. */
  function Newest(rows: seq<Row>, samples: seq<Sample>, last: nat): (r: nat)
    ensures r >= last
  {
    if samples == [] then last
    else
      var before, s := Newest(rows, samples[..|samples| - 1], last), samples[|samples| - 1];
      if Accepted(rows, s, last) && s.timeStamp > before then s.timeStamp else before
  }

  /** Rows without a usage get 0. */
  function Completed(r: Row): Row {
    Row(r.pid,
        if r.gpuUsage.Some? then r.gpuUsage else Some(0),
        if r.encodeUsage.Some? then r.encodeUsage else Some(0),
        if r.decodeUsage.Some? then r.decodeUsage else Some(0))
  }

  function AllCompleted(rows: seq<Row>): (r: seq<Row>)
    ensures |r| == |rows|
  {
    seq(|rows|, j requires 0 <= j < |rows| => Completed(rows[j]))
  }

  /** What the driver answers: whether it can be asked, and the samples if both queries go through. */
  datatype Answer = NoFunction | SizeQueryFails | SampleQueryFails | Samples(samples: seq<Sample>)

  function RowsAfter(rows: seq<Row>, answer: Answer, last: nat): seq<Row> {
    if rows == [] then rows
    else match answer
      case NoFunction => AllCompleted(rows)
      case SizeQueryFails => rows
      case SampleQueryFails => rows
      case Samples(samples) => AllCompleted(AllApplied(rows, samples, last))
  }

  function LastAfter(rows: seq<Row>, answer: Answer, last: nat): (r: nat)
    ensures r >= last
  {
    if rows != [] && answer.Samples? then Newest(rows, answer.samples, last) else last
  }

  // ---------------------------------------------------------- implementation ----

  /** The pids of the rows do not change. */
  lemma {:induction false} SamePids(rows: seq<Row>, rows': seq<Row>, pid: int)
    requires |rows| == |rows'| && forall i :: 0 <= i < |rows| ==> rows[i].pid == rows'[i].pid
    ensures RowOf(rows, pid) == RowOf(rows', pid)
  {
    if rows != [] && rows[0].pid != pid {
      SamePids(rows[1..], rows'[1..], pid);
    }
  }

  lemma {:induction false} PidsStay(rows: seq<Row>, samples: seq<Sample>, last: nat)
    ensures forall i :: 0 <= i < |rows| ==> AllApplied(rows, samples, last)[i].pid == rows[i].pid
  {
    if samples != [] {
      PidsStay(rows, samples[..|samples| - 1], last);
    }
  }

  class Device {
    var lastUtilizationTimestamp: nat

    /** The inner loop: the first row that matches the sample is set. */
    method Apply(processes: array<Row>, s: Sample, candidate: nat) returns (candidate': nat)
      modifies processes
      ensures processes[..] == Applied(old(processes[..]), s, lastUtilizationTimestamp)
      ensures candidate' == if Accepted(old(processes[..]), s, lastUtilizationTimestamp) && s.timeStamp > candidate
                            then s.timeStamp else candidate
    {
      candidate' := candidate;
      var matched, j := false, 0;
      ghost var rows := processes[..];
      ghost var k := RowOf(rows, Int32(s.pid));
      while !matched && j < processes.Length
        invariant j <= processes.Length
        invariant !matched ==> processes[..] == rows && candidate' == candidate
        invariant !matched && Plausible(s, lastUtilizationTimestamp) ==> j <= k
        invariant matched ==> Accepted(rows, s, lastUtilizationTimestamp)
                              && processes[..] == rows[k := WithSample(rows[k], s)]
        invariant matched ==> candidate' == if s.timeStamp > candidate then s.timeStamp else candidate
        decreases !matched, processes.Length - j
      {
        if Int32(s.pid) == processes[j].pid && s.smUtil <= 100 && s.encUtil <= 100 && s.decUtil <= 100 &&
          s.timeStamp > lastUtilizationTimestamp
        {
          if s.timeStamp > candidate {
            candidate' := s.timeStamp;
          }
          assert rows[j].pid == Int32(s.pid);
          processes[j] := WithSample(processes[j], s);
          matched := true;
        }
        j := j + 1;
      }
    }

    lemma NextSample(rows: seq<Row>, samples: seq<Sample>, i: nat, last: nat)
      requires i < |samples|
      ensures AllApplied(rows, samples[..i + 1], last)
              == Applied(AllApplied(rows, samples[..i], last), samples[i], last)
      ensures Newest(rows, samples[..i + 1], last) ==
              if Accepted(AllApplied(rows, samples[..i], last), samples[i], last)
                 && samples[i].timeStamp > Newest(rows, samples[..i], last)
              then samples[i].timeStamp else Newest(rows, samples[..i], last)
    {
      assert samples[..i + 1][..i] == samples[..i];
      PidsStay(rows, samples[..i], last);
      SamePids(rows, AllApplied(rows, samples[..i], last), Int32(samples[i].pid));
    }

    method ApplyAll(processes: array<Row>, samples: seq<Sample>) returns (candidate: nat)
      modifies processes
      ensures processes[..] == AllApplied(old(processes[..]), samples, lastUtilizationTimestamp)
      ensures candidate == Newest(old(processes[..]), samples, lastUtilizationTimestamp)
    {
      candidate := lastUtilizationTimestamp;
      ghost var rows := processes[..];
      for i := 0 to |samples|
        invariant processes[..] == AllApplied(rows, samples[..i], lastUtilizationTimestamp)
        invariant candidate == Newest(rows, samples[..i], lastUtilizationTimestamp)
      {
        NextSample(rows, samples, i, lastUtilizationTimestamp);
        candidate := Apply(processes, samples[i], candidate);
      }
      assert samples[..|samples|] == samples;
    }

    /** The rows without update since the last sample period. */
    method MarkUnused(processes: array<Row>)
      modifies processes
      ensures processes[..] == AllCompleted(old(processes[..]))
    {
      ghost var rows := processes[..];
      for j := 0 to processes.Length
        invariant forall i :: 0 <= i < processes.Length ==>
                    processes[i] == if i < j then Completed(rows[i]) else rows[i]
      {
        processes[j] := Completed(processes[j]);
      }
      assert processes[..] == AllCompleted(rows);
    }

    /** gpuinfo_nvidia_get_process_utilization. */
    method GetProcessUtilization(processes: array<Row>, answer: Answer)
      modifies this, processes
      ensures processes[..] == RowsAfter(old(processes[..]), answer, old(lastUtilizationTimestamp))
      ensures lastUtilizationTimestamp == LastAfter(old(processes[..]), answer, old(lastUtilizationTimestamp))
    {
      if processes.Length > 0 && answer != NoFunction {
        if answer == SizeQueryFails || answer == SampleQueryFails {
          return;
        }
        var candidate := ApplyAll(processes, answer.samples);
        lastUtilizationTimestamp := candidate;
      }
      MarkUnused(processes);
    }
  }

  // --------------------------------------------------------------- properties ----

  /** The new high-water mark covers every accepted sample. */
  lemma {:induction false} NewestCovers(rows: seq<Row>, samples: seq<Sample>, last: nat, i: nat)
    requires i < |samples| && Accepted(rows, samples[i], last)
    ensures last < samples[i].timeStamp <= Newest(rows, samples, last)
  {
    if i < |samples| - 1 {
      NewestCovers(rows, samples[..|samples| - 1], last, i);
    }
  }

  /** The high-water mark is one of the accepted samples, or the old mark. */
  lemma {:induction false} NewestIsAccepted(rows: seq<Row>, samples: seq<Sample>, last: nat)
    ensures Newest(rows, samples, last) == last
            || exists i :: 0 <= i < |samples| && Accepted(rows, samples[i], last)
                           && samples[i].timeStamp == Newest(rows, samples, last)
  {
    if samples != [] {
      var n := |samples| - 1;
      NewestIsAccepted(rows, samples[..n], last);
      if Newest(rows, samples[..n], last) != last {
        var i :| 0 <= i < n && Accepted(rows, samples[..n][i], last)
          && samples[..n][i].timeStamp == Newest(rows, samples[..n], last);
        assert samples[i] == samples[..n][i];
      }
    }
  }

  /** One call: the rows it is made for and the answer it gets. */
  datatype Call = Call(rows: seq<Row>, answer: Answer)

  function MarkAfter(last: nat, calls: seq<Call>): (r: nat) {
    if calls == [] then last
    else LastAfter(calls[|calls| - 1].rows, calls[|calls| - 1].answer, MarkAfter(last, calls[..|calls| - 1]))
  }

  /** The call gives the sample to a row. */
  ghost predicate Gives(call: Call, last: nat, s: Sample) {
    && call.rows != [] && call.answer.Samples?
    && exists i :: 0 <= i < |call.answer.samples| && call.answer.samples[i] == s && Accepted(call.rows, s, last)
  }

  lemma {:induction false} MarkGrows(last: nat, calls: seq<Call>, n: nat)
    requires n <= |calls|
    ensures last <= MarkAfter(last, calls[..n]) <= MarkAfter(last, calls)
  {
    if n < |calls| {
      MarkGrows(last, calls[..|calls| - 1], n);
      assert calls[..|calls| - 1][..n] == calls[..n];
    } else {
      assert calls[..n] == calls;
      if calls != [] {
        MarkGrows(last, calls[..n - 1], n - 1);
        assert calls[..n - 1][..n - 1] == calls[..n - 1];
      }
    }
  }

  /**
   Over any sequence of calls, for any rows and answers: a sample given to a row
   by a later call is newer than every sample given by an earlier one, so no
   sample is given twice.
   */
  lemma NoSampleTwice(last: nat, calls: seq<Call>, a: nat, b: nat, s: Sample, t: Sample)
    requires a < b < |calls|
    requires Gives(calls[a], MarkAfter(last, calls[..a]), s) && Gives(calls[b], MarkAfter(last, calls[..b]), t)
    ensures s.timeStamp < t.timeStamp
  {
    var m := MarkAfter(last, calls[..a]);
    var i :| 0 <= i < |calls[a].answer.samples| && calls[a].answer.samples[i] == s;
    NewestCovers(calls[a].rows, calls[a].answer.samples, m, i);
    assert calls[..a + 1][..a] == calls[..a];
    MarkGrows(last, calls[..b], a + 1);
    assert calls[..b][..a + 1] == calls[..a + 1];
  }

  predicate UsageOk(u: Option<nat>) { u.None? || u.value <= 100 }

  predicate RowOk(r: Row) { UsageOk(r.gpuUsage) && UsageOk(r.encodeUsage) && UsageOk(r.decodeUsage) }

  predicate RowComplete(r: Row) { r.gpuUsage.Some? && r.encodeUsage.Some? && r.decodeUsage.Some? }

  lemma {:induction false} UsagesStayOk(rows: seq<Row>, samples: seq<Sample>, last: nat)
    requires forall i :: 0 <= i < |rows| ==> RowOk(rows[i])
    ensures forall i :: 0 <= i < |rows| ==> RowOk(AllApplied(rows, samples, last)[i])
  {
    if samples != [] {
      UsagesStayOk(rows, samples[..|samples| - 1], last);
    }
  }

  /** No usage exceeds 100 percent, whatever the driver reports. */
  lemma UsagesAreBounded(rows: seq<Row>, answer: Answer, last: nat)
    requires forall i :: 0 <= i < |rows| ==> RowOk(rows[i])
    ensures |RowsAfter(rows, answer, last)| == |rows|
    ensures forall i :: 0 <= i < |rows| ==> RowOk(RowsAfter(rows, answer, last)[i])
  {
    if answer.Samples? {
      UsagesStayOk(rows, answer.samples, last);
    }
  }

  /** Every row has all usages afterwards if and only if no query failed, or the rows had them before. */
  lemma RowsAreComplete(rows: seq<Row>, answer: Answer, last: nat)
    ensures (forall i :: 0 <= i < |rows| ==>
               i < |RowsAfter(rows, answer, last)| && RowComplete(RowsAfter(rows, answer, last)[i]))
            <==> answer.NoFunction? || answer.Samples? || (forall i :: 0 <= i < |rows| ==> RowComplete(rows[i]))
  {
    var after := RowsAfter(rows, answer, last);
    assert |after| == |rows|;
    if answer.NoFunction? || answer.Samples? {
      assert forall i :: 0 <= i < |rows| ==> RowComplete(after[i]);
    }
  }

  /** What a row shows: the last accepted sample of its process, in the order of the report. */
  lemma {:induction false} LastSampleCounts(rows: seq<Row>, samples: seq<Sample>, last: nat, j: nat, i: nat)
    requires i < |samples| && j < |rows| && Accepted(rows, samples[i], last) && j == RowOf(rows, Int32(samples[i].pid))
    requires forall k :: i < k < |samples| && Accepted(rows, samples[k], last) ==>
               RowOf(rows, Int32(samples[k].pid)) != j
    ensures AllApplied(rows, samples, last)[j] == WithSample(rows[j], samples[i])
  {
    var n := |samples| - 1;
    var before := AllApplied(rows, samples[..n], last);
    PidsStay(rows, samples[..n], last);
    SamePids(rows, before, Int32(samples[n].pid));
    if i < n {
      LastSampleCounts(rows, samples[..n], last, j, i);
    } else {
      OnlyUsagesChange(rows, samples[..n], last, j);
    }
  }

  /** After the call the row shows the three usages of that sample, each in its place. */
  lemma SampleIsShown(rows: seq<Row>, samples: seq<Sample>, last: nat, j: nat, i: nat)
    requires i < |samples| && j < |rows| && Accepted(rows, samples[i], last) && j == RowOf(rows, Int32(samples[i].pid))
    requires forall k :: i < k < |samples| && Accepted(rows, samples[k], last) ==>
               RowOf(rows, Int32(samples[k].pid)) != j
    ensures |RowsAfter(rows, Samples(samples), last)| == |rows|
    ensures var row, s := RowsAfter(rows, Samples(samples), last)[j], samples[i];
            && row.pid == rows[j].pid && row.gpuUsage == Some(s.smUtil)
            && row.encodeUsage == Some(s.encUtil) && row.decodeUsage == Some(s.decUtil)
  {
    LastSampleCounts(rows, samples, last, j, i);
  }

  /** A sample is accepted if and only if it is newer than the mark, plausible, and of a process with a row. */
  lemma AcceptedExactly(rows: seq<Row>, s: Sample, last: nat)
    ensures Accepted(rows, s, last) <==>
            && s.timeStamp > last && s.smUtil <= 100 && s.encUtil <= 100 && s.decUtil <= 100
            && exists j :: 0 <= j < |rows| && rows[j].pid == Int32(s.pid)
  {
  }

  ghost predicate KeptOrZero(before: Option<nat>, after: Option<nat>) {
    after == if before.Some? then before else Some(0)
  }

  /** A row without an accepted sample keeps its usages, and shows 0 for those it did not have. */
  lemma WithoutSample(rows: seq<Row>, answer: Answer, last: nat, j: nat)
    requires j < |rows| && !answer.SizeQueryFails? && !answer.SampleQueryFails?
    requires answer.Samples? ==> forall k :: 0 <= k < |answer.samples| && Accepted(rows, answer.samples[k], last) ==>
                                   RowOf(rows, Int32(answer.samples[k].pid)) != j
    ensures |RowsAfter(rows, answer, last)| == |rows|
    ensures var row := RowsAfter(rows, answer, last)[j];
            && row.pid == rows[j].pid && KeptOrZero(rows[j].gpuUsage, row.gpuUsage)
            && KeptOrZero(rows[j].encodeUsage, row.encodeUsage) && KeptOrZero(rows[j].decodeUsage, row.decodeUsage)
  {
    if answer.Samples? {
      NoSampleNoChange(rows, answer.samples, last, j);
    }
  }

  lemma {:induction false} OnlyUsagesChange(rows: seq<Row>, samples: seq<Sample>, last: nat, j: nat)
    requires j < |rows|
    ensures forall s :: WithSample(AllApplied(rows, samples, last)[j], s) == WithSample(rows[j], s)
  {
    PidsStay(rows, samples, last);
  }

  /** Rows no sample is accepted for keep what they had, and get 0 for what they did not. */
  lemma {:induction false} NoSampleNoChange(rows: seq<Row>, samples: seq<Sample>, last: nat, j: nat)
    requires j < |rows| && forall k :: 0 <= k < |samples| && Accepted(rows, samples[k], last) ==>
               RowOf(rows, Int32(samples[k].pid)) != j
    ensures AllApplied(rows, samples, last)[j] == rows[j]
  {
    if samples != [] {
      var n := |samples| - 1;
      NoSampleNoChange(rows, samples[..n], last, j);
      PidsStay(rows, samples[..n], last);
      SamePids(rows, AllApplied(rows, samples[..n], last), Int32(samples[n].pid));
    }
  }
}
