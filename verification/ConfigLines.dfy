/**
 What a line of the configuration file does, whoever wrote it
 (src/interface_options.c:211-354): one option changes, if the line names it and
 gives a value it knows; every other line does nothing.
 */
module ConfigLines {
  import opened PlotLimits
  import opened Options
  import opened Decimal
  import opened ProcessFields
  import opened ConfigNames
  import opened ConfigFile
  import opened ConfigHandler

  /** A flag after a line with this value. */
  ghost predicate FlagSet(value: string, was: bool, now: bool) {
    && (value == "true" ==> now)
    && (value == "false" ==> !now)
    && (value != "true" && value != "false" ==> now == was)
  }

  lemma GeneralLine(d: Data, name: string, value: string, scan: TimerScan)
    ensures var was, after := d.settings, Handled(d, GENERAL, name, value, scan);
      var now := after.settings;
      && after.selected == d.selected && after.devices == d.devices
      && (name == USE_COLOR ==> FlagSet(value, was.useColor, now.useColor) && now == was.(useColor := now.useColor))
      && (name == SHOW_MESSAGES ==>
            FlagSet(value, was.showMessages, now.showMessages) && now == was.(showMessages := now.showMessages))
      && (name == UPDATE_INTERVAL ==> now == was.(updateInterval := now.updateInterval))
      && (name !in [USE_COLOR, UPDATE_INTERVAL, SHOW_MESSAGES] ==> now == was)
  {
  }

  /** An interval without a digit is not read. */
  lemma IntervalWithoutDigits(d: Data, value: string, scan: TimerScan)
    requires forall i :: 0 <= i < |value| ==> !IsDigit(value[i])
    ensures Handled(d, GENERAL, UPDATE_INTERVAL, value, scan) == d
  {
    SkipsToEnd(value);
  }

  lemma {:induction false} SkipsToEnd(s: string)
    ensures exists k: nat :: k <= |s| && SkipSpace(s) == s[k..]
  {
    if s != [] && IsSpace(s[0]) {
      SkipsToEnd(s[1..]);
      var k: nat :| k <= |s[1..]| && SkipSpace(s[1..]) == s[1..][k..];
      assert s[1..][k..] == s[k + 1..];
    } else {
      assert s[0..] == s;
    }
  }

  lemma HeaderLine(d: Data, name: string, value: string, scan: TimerScan)
    ensures var was, after := d.settings, Handled(d, HEADER, name, value, scan);
      var now := after.settings;
      && after.selected == d.selected && after.devices == d.devices
      && (name == USE_FAHRENHEIT ==>
            FlagSet(value, was.fahrenheit, now.fahrenheit) && now == was.(fahrenheit := now.fahrenheit))
      && (name == GPU_INFO_BAR ==>
            FlagSet(value, was.gpuInfoBar, now.gpuInfoBar) && now == was.(gpuInfoBar := now.gpuInfoBar))
      && (name == HIDE_TIMER && scan(value).Some? ==> now == was.(hideTimer := scan(value).value))
      && (name == HIDE_TIMER && scan(value).None? ==> now == was)
      && (name !in [USE_FAHRENHEIT, HIDE_TIMER, GPU_INFO_BAR] ==> now == was)
  {
  }

  lemma ReverseLine(d: Data, value: string, scan: TimerScan)
    ensures var was, now := d.settings, Handled(d, CHART, REVERSE_CHART, value, scan).settings;
      FlagSet(value, was.reverseChart, now.reverseChart) && now == was.(reverseChart := now.reverseChart)
  {
  }

  /** Color i for plot line k. */
  lemma ColorLine(d: Data, k: nat, i: nat, scan: TimerScan)
    requires k < |PLOT_COLORS| && k < |d.settings.colors| && i < |COLOR_NAMES|
    ensures Handled(d, CHART, PLOT_COLORS[k], COLOR_NAMES[i], scan)
            == d.(settings := d.settings.(colors := d.settings.colors[k := i]))
  {
    ColorNamesDistinct();
    IndexOfName(PLOT_COLORS, k);
    IndexOfName(COLOR_NAMES, i);
  }

  lemma OtherChartLine(d: Data, name: string, value: string, scan: TimerScan)
    requires name != REVERSE_CHART && (name !in PLOT_COLORS || value !in COLOR_NAMES)
    ensures Handled(d, CHART, name, value, scan) == d
  {
    if name !in PLOT_COLORS {
      IndexOfOther(PLOT_COLORS, name);
    } else {
      IndexOfOther(COLOR_NAMES, value);
    }
  }

  lemma ListLine(d: Data, name: string, value: string, scan: TimerScan)
    ensures var was, after := d.settings, Handled(d, PROCESS_LIST, name, value, scan);
      var now := after.settings;
      && after.selected == d.selected && after.devices == d.devices
      && (name == HIDE_LIST ==> FlagSet(value, was.hideList, now.hideList) && now == was.(hideList := now.hideList))
      && (name == HIDE_NVTOP ==>
            FlagSet(value, was.hideNvtop, now.hideNvtop) && now == was.(hideNvtop := now.hideNvtop))
      && (name !in [HIDE_LIST, HIDE_NVTOP, SORT_BY, DISPLAY_FIELD, SORT_ORDER] ==> now == was)
  {
  }

  lemma OrderLine(d: Data, value: string, scan: TimerScan)
    ensures var was, now := d.settings, Handled(d, PROCESS_LIST, SORT_ORDER, value, scan).settings;
      && now == was.(descending := now.descending)
      && (value == DESCENDING ==> now.descending) && (value == ASCENDING ==> !now.descending)
      && (value != DESCENDING && value != ASCENDING ==> now == was)
  {
  }

  /** Column i is displayed besides the others, or sorted by. */
  lemma FieldLine(d: Data, i: nat, scan: TimerScan)
    requires i < |FIELD_NAMES| == |ALL_FIELDS|
    ensures Handled(d, PROCESS_LIST, DISPLAY_FIELD, FIELD_NAMES[i], scan)
            == d.(settings := d.settings.(fields := Marked(d.settings.fields.chosen + {ALL_FIELDS[i]}, true)))
    ensures Handled(d, PROCESS_LIST, SORT_BY, FIELD_NAMES[i], scan)
            == d.(settings := d.settings.(sortBy := Some(ALL_FIELDS[i])))
  {
    FieldNamesDistinct();
    IndexOfName(FIELD_NAMES, i);
  }

  lemma OtherFieldLine(d: Data, value: string, scan: TimerScan)
    requires value !in FIELD_NAMES
    ensures Handled(d, PROCESS_LIST, DISPLAY_FIELD, value, scan) == d
    ensures Handled(d, PROCESS_LIST, SORT_BY, value, scan) == d
  {
    IndexOfOther(FIELD_NAMES, value);
  }

  // ---------------------------------------------------------------- devices ----

  /** The name of a device selects the first one that has it; without one, no device. */
  lemma DeviceLine(d: Data, pdev: string, scan: TimerScan)
    ensures var after := Handled(d, DEVICE, PDEV, pdev, scan);
      && after.settings == d.settings && after.devices == d.devices && after.selected <= |d.devices|
      && (after.selected < |d.devices| ==> d.devices[after.selected].pdev == pdev)
      && forall k :: 0 <= k < after.selected ==> d.devices[k].pdev != pdev
  {
  }

  /** Without a selected device, the other lines do nothing. */
  lemma NoDevice(d: Data, name: string, value: string, scan: TimerScan)
    requires d.selected >= |d.devices| && name != PDEV
    ensures Handled(d, DEVICE, name, value, scan) == d
  {
  }

  /** A line of the selected device changes this device only. */
  lemma MonitorLine(d: Data, value: string, scan: TimerScan)
    requires d.selected < |d.devices|
    ensures var was, after := d.devices[d.selected], Handled(d, DEVICE, MONITOR, value, scan);
      && after == d.(devices := after.devices) && |after.devices| == |d.devices|
      && (forall k :: 0 <= k < |d.devices| && k != d.selected ==> after.devices[k] == d.devices[k])
      && FlagSet(value, !was.doNotMonitor, !after.devices[d.selected].doNotMonitor)
      && after.devices[d.selected] == was.(doNotMonitor := after.devices[d.selected].doNotMonitor)
  {
  }

  /** A metric is drawn as long as there are less than four; the set is marked as given if there is room after that. */
  lemma MetricLine(d: Data, i: nat, scan: TimerScan)
    requires d.selected < |d.devices| && i < |METRIC_NAMES| == |ALL_METRICS|
    ensures var was := d.devices[d.selected].toDraw;
      var more := was.chosen + {ALL_METRICS[i]};
      var now := if |was.chosen| < 4 then Marked(more, was.marked || |more| < 4) else was;
      Handled(d, DEVICE, SHOWN_INFO, METRIC_NAMES[i], scan)
      == d.(devices := d.devices[d.selected := d.devices[d.selected].(toDraw := now)])
  {
    MetricNamesDistinct();
    IndexOfName(METRIC_NAMES, i);
  }

  lemma NoMetricLine(d: Data, value: string, scan: TimerScan)
    requires d.selected < |d.devices| && value !in METRIC_NAMES
    ensures var was := d.devices[d.selected].toDraw;
      var now := if value == NONE && |was.chosen| < 4 then was.(marked := true) else was;
      Handled(d, DEVICE, SHOWN_INFO, value, scan)
      == d.(devices := d.devices[d.selected := d.devices[d.selected].(toDraw := now)])
  {
    NotShown(d.devices[d.selected].toDraw, value);
  }

  lemma NotShown(was: Marked<Metric>, value: string)
    requires value !in METRIC_NAMES
    ensures Shown(was, value) == if value == NONE && |was.chosen| < 4 then was.(marked := true) else was
  {
    MetricNamesDistinct();
    IndexOfOther(METRIC_NAMES, value);
  }

  /** Anything else does nothing. */
  lemma OtherDeviceLine(d: Data, name: string, value: string, scan: TimerScan)
    requires name !in [PDEV, MONITOR, SHOWN_INFO]
    ensures Handled(d, DEVICE, name, value, scan) == d
  {
  }

  lemma OtherSection(d: Data, section: string, name: string, value: string, scan: TimerScan)
    requires section !in [GENERAL, HEADER, CHART, PROCESS_LIST, DEVICE]
    ensures Handled(d, section, name, value, scan) == d
  {
  }
}
