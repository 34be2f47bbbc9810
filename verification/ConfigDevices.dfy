/**
 The device sections of a saved file, and what the handler makes of them
 (src/interface_options.c:323-352, 448-464, include/nvtop/interface_options.h:59-80).
 */
module ConfigDevices {
  import opened PlotLimits
  import opened ConfigNames
  import opened ConfigFile
  import H = ConfigHandler
  import opened IniRoundTrip
  import opened ConfigSettings

  /** What the handler makes of the first n metrics of a saved set. */
  function Taken(t: Marked<Metric>, metrics: set<Metric>, n: nat): Marked<Metric>
    requires n <= |ALL_METRICS|
  {
    if n == 0 then t
    else if ALL_METRICS[n - 1] in metrics then H.AddMark(H.AddMetric(Taken(t, metrics, n - 1), ALL_METRICS[n - 1]))
    else Taken(t, metrics, n - 1)
  }

  /** The metrics that are drawn after loading: as many as a plot has lines. */
  function Drawn(metrics: set<Metric>): set<Metric> {
    Taken(Marked({}, false), metrics, |ALL_METRICS|).chosen
  }

  function MetricIndex(m: Metric): (i: nat)
    ensures i < |ALL_METRICS| && ALL_METRICS[i] == m
  {
    match m
    case ShowGpuRate => 0 case ShowGpuMemRate => 1 case ShowEncodeRate => 2 case ShowDecodeRate => 3
    case ShowTemperature => 4 case ShowPowerDrawRate => 5 case ShowFanSpeed => 6 case ShowGpuClockRate => 7
    case ShowGpuMemClockRate => 8 case ShowEffectiveLoadRate => 9 case ShowPcieRxRate => 10 case ShowPcieTxRate => 11
    case ShowHvxUtilRate => 12 case ShowHmxUtilRate => 13
  }

  ghost function FirstMetrics(metrics: set<Metric>, n: nat): set<Metric> {
    set m | m in metrics && MetricIndex(m) < n
  }

  /** The handler's set after the first n metrics. */
  ghost predicate TakenFrom(t: Marked<Metric>, first: set<Metric>) {
    && t.chosen <= first && |t.chosen| <= MAX_LINES_PER_PLOT
    && (|first| <= MAX_LINES_PER_PLOT ==> t.chosen == first)
    && (t.marked <==> first != {}) && (first != {} ==> t.chosen != {})
  }

  lemma TakeOne(t: Marked<Metric>, first: set<Metric>, m: Metric)
    requires TakenFrom(t, first) && m !in first
    ensures TakenFrom(H.AddMark(H.AddMetric(t, m)), first + {m})
  {
    assert |first + {m}| == |first| + 1;
    assert |t.chosen + {m}| == |t.chosen| + 1;
    if |first| < MAX_LINES_PER_PLOT {
      assert t.chosen == first;
    } else if |t.chosen| < MAX_LINES_PER_PLOT {
      assert t.chosen + {m} <= first + {m};
    }
  }

  lemma NextMetric(metrics: set<Metric>, n: nat, m: Metric)
    requires 0 < n <= |ALL_METRICS| && m == ALL_METRICS[n - 1]
    ensures m in metrics ==> FirstMetrics(metrics, n) == FirstMetrics(metrics, n - 1) + {m}
    ensures m !in metrics ==> FirstMetrics(metrics, n) == FirstMetrics(metrics, n - 1)
    ensures m !in FirstMetrics(metrics, n - 1)
  {
    assert MetricIndex(m) == n - 1;
    forall x: Metric ensures MetricIndex(x) == n - 1 ==> x == m {
    }
  }

  lemma {:induction false} TakenSoFar(metrics: set<Metric>, n: nat)
    requires n <= |ALL_METRICS|
    ensures TakenFrom(Taken(Marked({}, false), metrics, n), FirstMetrics(metrics, n))
  {
    if n == 0 {
      assert FirstMetrics(metrics, 0) == {};
    } else {
      TakenSoFar(metrics, n - 1);
      var m := ALL_METRICS[n - 1];
      NextMetric(metrics, n, m);
      if m in metrics {
        TakeOne(Taken(Marked({}, false), metrics, n - 1), FirstMetrics(metrics, n - 1), m);
      }
    }
  }

  /** The drawn set is restored if and only if it fits the lines of a plot. */
  lemma DrawnSetRestored(metrics: set<Metric>)
    ensures Drawn(metrics) == metrics <==> |metrics| <= MAX_LINES_PER_PLOT
    ensures Drawn(metrics) <= metrics && |Drawn(metrics)| <= MAX_LINES_PER_PLOT
    ensures Taken(Marked({}, false), metrics, |ALL_METRICS|).marked <==> metrics != {}
  {
    TakenSoFar(metrics, |ALL_METRICS|);
    assert FirstMetrics(metrics, |ALL_METRICS|) == metrics;
  }

  // ------------------------------------------------------- one device section ----

  /** The selected device with another set of metrics. */
  function WithDrawn(d: H.Data, t: Marked<Metric>): H.Data
    requires d.selected < |d.devices|
  {
    d.(devices := d.devices[d.selected := d.devices[d.selected].(toDraw := t)])
  }

  lemma ShownStep(d: H.Data, t: Marked<Metric>, value: string, scan: H.TimerScan)
    requires d.selected < |d.devices|
    ensures Step(WithDrawn(d, t), Pair(SHOWN_INFO, value), DEVICE, scan) == WithDrawn(d, H.Shown(t, value))
  {
  }

  lemma ShownMetric(t: Marked<Metric>, i: nat)
    requires i < |ALL_METRICS|
    ensures |METRIC_NAMES| == |ALL_METRICS|
    ensures H.Shown(t, METRIC_NAMES[i]) == H.AddMark(H.AddMetric(t, ALL_METRICS[i]))
  {
    MetricNamesDistinct();
    IndexOfName(METRIC_NAMES, i);
  }

  lemma ShownNone(t: Marked<Metric>)
    ensures H.Shown(t, NONE) == H.AddMark(H.AddMark(t))
  {
    MetricNamesDistinct();
    IndexOfOther(METRIC_NAMES, NONE);
  }

  /** Without a selected device the handler ignores everything but a new name. */
  lemma UnselectedStep(d: H.Data, name: string, value: string, scan: H.TimerScan)
    requires d.selected >= |d.devices| && name != PDEV
    ensures Step(d, Pair(name, value), DEVICE, scan) == d
  {
  }

  lemma {:induction false} MetricsApplied(d: H.Data, t: Marked<Metric>, metrics: set<Metric>, n: nat, scan: H.TimerScan)
    requires d.selected < |d.devices| && n <= |ALL_METRICS|
    ensures |METRIC_NAMES| == |ALL_METRICS|
    ensures Apply(WithDrawn(d, t), MetricItems(metrics, n), DEVICE, scan) == WithDrawn(d, Taken(t, metrics, n))
    ensures LastSection(MetricItems(metrics, n), DEVICE) == DEVICE
  {
    MetricNamesDistinct();
    if n > 0 {
      var before := MetricItems(metrics, n - 1);
      MetricsApplied(d, t, metrics, n - 1, scan);
      if ALL_METRICS[n - 1] in metrics {
        NextItem(WithDrawn(d, t), before, Pair(SHOWN_INFO, METRIC_NAMES[n - 1]), DEVICE, scan);
        ShownStep(d, Taken(t, metrics, n - 1), METRIC_NAMES[n - 1], scan);
        ShownMetric(Taken(t, metrics, n - 1), n - 1);
      } else {
        assert MetricItems(metrics, n) == before;
      }
    }
  }

  lemma {:induction false} MetricsIgnored(d: H.Data, metrics: set<Metric>, n: nat, scan: H.TimerScan)
    requires d.selected >= |d.devices| && n <= |ALL_METRICS|
    ensures |METRIC_NAMES| == |ALL_METRICS|
    ensures Apply(d, MetricItems(metrics, n), DEVICE, scan) == d
    ensures LastSection(MetricItems(metrics, n), DEVICE) == DEVICE
  {
    MetricNamesDistinct();
    if n > 0 {
      var before := MetricItems(metrics, n - 1);
      MetricsIgnored(d, metrics, n - 1, scan);
      if ALL_METRICS[n - 1] in metrics {
        NextItem(d, before, Pair(SHOWN_INFO, METRIC_NAMES[n - 1]), DEVICE, scan);
        UnselectedStep(d, SHOWN_INFO, METRIC_NAMES[n - 1], scan);
      } else {
        assert MetricItems(metrics, n) == before;
      }
    }
  }

  /** Nothing is printed exactly for the empty set. */
  lemma {:induction false} NoMetricItems(metrics: set<Metric>, n: nat)
    requires n <= |ALL_METRICS|
    ensures |METRIC_NAMES| == |ALL_METRICS|
    ensures MetricItems(metrics, n) == [] <==> FirstMetrics(metrics, n) == {}
  {
    MetricNamesDistinct();
    if n == 0 {
      assert FirstMetrics(metrics, 0) == {};
    } else {
      NoMetricItems(metrics, n - 1);
      NextMetric(metrics, n, ALL_METRICS[n - 1]);
    }
  }

  /** What loading makes of a saved set. */
  function Reloaded(metrics: set<Metric>): Marked<Metric> {
    Marked(Drawn(metrics), true)
  }

  /** The metrics of a device: those printed, or "none". */
  lemma ShownApplied(d: H.Data, metrics: set<Metric>, scan: H.TimerScan)
    requires d.selected < |d.devices|
    ensures |METRIC_NAMES| == |ALL_METRICS|
    ensures Apply(WithDrawn(d, Marked({}, false)), OrNone(MetricItems(metrics, |ALL_METRICS|), SHOWN_INFO), DEVICE,
                  scan)
            == WithDrawn(d, Reloaded(metrics))
    ensures LastSection(OrNone(MetricItems(metrics, |ALL_METRICS|), SHOWN_INFO), DEVICE) == DEVICE
  {
    var n, t := |ALL_METRICS|, Marked({}, false);
    MetricsApplied(d, t, metrics, n, scan);
    NoMetricItems(metrics, n);
    assert FirstMetrics(metrics, n) == metrics;
    DrawnSetRestored(metrics);
    if metrics == {} {
      ApplyOne(WithDrawn(d, t), Pair(SHOWN_INFO, NONE), DEVICE, scan);
      ShownStep(d, t, NONE, scan);
      ShownNone(t);
    }
  }

  lemma ShownIgnored(d: H.Data, metrics: set<Metric>, scan: H.TimerScan)
    requires d.selected >= |d.devices|
    ensures |METRIC_NAMES| == |ALL_METRICS|
    ensures Apply(d, OrNone(MetricItems(metrics, |ALL_METRICS|), SHOWN_INFO), DEVICE, scan) == d
    ensures LastSection(OrNone(MetricItems(metrics, |ALL_METRICS|), SHOWN_INFO), DEVICE) == DEVICE
  {
    MetricsIgnored(d, metrics, |ALL_METRICS|, scan);
    ApplyOne(d, Pair(SHOWN_INFO, NONE), DEVICE, scan);
    UnselectedStep(d, SHOWN_INFO, NONE, scan);
  }

  lemma HeadApplied(d: H.Data, dev: Device, section: string, scan: H.TimerScan)
    ensures var i := H.Selected(d.devices, dev.pdev);
      Apply(d, DeviceHead(dev), section, scan) ==
      H.Data(i, d.settings,
             if i < |d.devices| then d.devices[i := d.devices[i].(doNotMonitor := dev.doNotMonitor)] else d.devices)
    ensures LastSection(DeviceHead(dev), section) == DEVICE
  {
    var a, b := Pair(PDEV, dev.pdev), Pair(MONITOR, BooleanString(!dev.doNotMonitor));
    assert DeviceHead(dev) == [Blank, Section(DEVICE)] + ([a] + [b]);
    ApplyHead(d, DEVICE, [a] + [b], section, scan);
    ApplyOne(d, a, DEVICE, scan);
    NextItem(d, [a], b, DEVICE, scan);
  }

  /** One section: the named device gets the saved flag and metrics; a name that is not there is ignored. */
  lemma DeviceApplied(d: H.Data, dev: Device, section: string, scan: H.TimerScan)
    requires forall i :: 0 <= i < |d.devices| && d.devices[i].pdev == dev.pdev ==>
               d.devices[i].toDraw == Marked({}, false)
    ensures var i := H.Selected(d.devices, dev.pdev);
      Apply(d, DeviceItems(dev), section, scan) ==
      H.Data(i, d.settings,
             if i < |d.devices|
             then d.devices[i := Device(dev.pdev, dev.doNotMonitor, Reloaded(dev.toDraw.chosen))]
             else d.devices)
    ensures LastSection(DeviceItems(dev), section) == DEVICE
  {
    MetricNamesDistinct();
    var i := H.Selected(d.devices, dev.pdev);
    var shown := OrNone(MetricItems(dev.toDraw.chosen, |ALL_METRICS|), SHOWN_INFO);
    var d1 := Apply(d, DeviceHead(dev), section, scan);
    HeadApplied(d, dev, section, scan);
    ApplyJoin(d, DeviceHead(dev) + shown, [Blank], section, scan);
    ApplyJoin(d, DeviceHead(dev), shown, section, scan);
    if i < |d.devices| {
      assert d1 == WithDrawn(d1, Marked({}, false));
      ShownApplied(d1, dev.toDraw.chosen, scan);
    } else {
      ShownIgnored(d1, dev.toDraw.chosen, scan);
    }
    ApplyOne(Apply(d, DeviceHead(dev) + shown, section, scan), Blank, DEVICE, scan);
  }
}
