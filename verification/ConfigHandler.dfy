/** What the option handler makes of a name and a value (src/interface_options.c:211-354). */
module ConfigHandler {
  import opened PlotLimits
  import opened Options
  import opened CIntegers
  import opened Decimal
  import opened ProcessFields
  import opened ConfigNames
  import opened ConfigFile
  import opened IniParser

  /** nvtop_option_ini_data: the selected device (the number of devices if there is none), and the options. */
  datatype Data = Data(selected: nat, settings: Settings, devices: seq<Device>)

  /** How "%le" reads a number. */
  type TimerScan = string -> Option<real>

  /** "%d": nothing without a digit. */
  function ScanInt(value: string): Option<CInt> {
    var t := SkipSpace(value);
    var u := if t != [] && (t[0] == '-' || t[0] == '+') then t[1..] else t;
    if u != [] && IsDigit(u[0]) then Some(Int32(StrToL(value))) else None
  }

  // ---------------------------------------------------------- specification ----

  function HandledGeneral(s: Settings, name: string, value: string): Settings {
    if name == USE_COLOR then s.(useColor := FlagOf(value, s.useColor))
    else if name == UPDATE_INTERVAL then
      (var n := ScanInt(value); if n.Some? then s.(updateInterval := n.value) else s)
    else if name == SHOW_MESSAGES then s.(showMessages := FlagOf(value, s.showMessages))
    else s
  }

  function HandledHeader(s: Settings, name: string, value: string, scan: TimerScan): Settings {
    if name == USE_FAHRENHEIT then s.(fahrenheit := FlagOf(value, s.fahrenheit))
    else if name == HIDE_TIMER then
      (var t := scan(value); if t.Some? then s.(hideTimer := t.value) else s)
    else if name == GPU_INFO_BAR then s.(gpuInfoBar := FlagOf(value, s.gpuInfoBar))
    else s
  }

  function HandledChart(s: Settings, name: string, value: string): Settings {
    if name == REVERSE_CHART then s.(reverseChart := FlagOf(value, s.reverseChart))
    else
      var line, color := IndexOf(PLOT_COLORS, name), IndexOf(COLOR_NAMES, value);
      if line < |PLOT_COLORS| && line < |s.colors| && color < |COLOR_NAMES|
      then s.(colors := s.colors[line := color])
      else s
  }

  function FieldOf(value: string): (f: Option<Field>)
    ensures |FIELD_NAMES| == |ALL_FIELDS|
  {
    FieldNamesDistinct();
    var i := IndexOf(FIELD_NAMES, value);
    if i < |FIELD_NAMES| then Some(ALL_FIELDS[i]) else None
  }

  function HandledList(s: Settings, name: string, value: string): Settings {
    if name == HIDE_LIST then s.(hideList := FlagOf(value, s.hideList))
    else if name == HIDE_NVTOP then s.(hideNvtop := FlagOf(value, s.hideNvtop))
    else if name == SORT_BY then (if FieldOf(value).Some? then s.(sortBy := FieldOf(value)) else s)
    else if name == DISPLAY_FIELD then
      (if FieldOf(value).Some? then s.(fields := Marked(s.fields.chosen + {FieldOf(value).value}, true)) else s)
    else if name == SORT_ORDER then
      s.(descending := if value == DESCENDING then true else if value == ASCENDING then false else s.descending)
    else s
  }

  /** plot_add_draw_info: as long as there are less than four metrics, for a metric or the mark. */
  function AddMetric(d: Marked<Metric>, m: Metric): Marked<Metric> {
    if |d.chosen| < MAX_LINES_PER_PLOT then d.(chosen := d.chosen + {m}) else d
  }

  function AddMark(d: Marked<Metric>): Marked<Metric> {
    if |d.chosen| < MAX_LINES_PER_PLOT then d.(marked := true) else d
  }

  /** The value is a metric, or "none". */
  function Shown(d: Marked<Metric>, value: string): Marked<Metric> {
    MetricNamesDistinct();
    var i := IndexOf(METRIC_NAMES, value);
    if i < |METRIC_NAMES| then AddMark(AddMetric(d, ALL_METRICS[i]))
    else if value == NONE then AddMark(AddMark(d))
    else d
  }

  /** The first device with this name; the number of devices if there is none. */
  function Selected(ds: seq<Device>, pdev: string): (i: nat)
    ensures i <= |ds| && (i < |ds| ==> ds[i].pdev == pdev)
    ensures forall k :: 0 <= k < i ==> ds[k].pdev != pdev
  {
    if ds == [] || ds[0].pdev == pdev then 0 else 1 + Selected(ds[1..], pdev)
  }

  /** A line of the selected device. */
  function HandledSelected(dev: Device, name: string, value: string): Device {
    if name == SHOWN_INFO then dev.(toDraw := Shown(dev.toDraw, value))
    else if name == MONITOR then dev.(doNotMonitor := !FlagOf(value, !dev.doNotMonitor))
    else dev
  }

  function HandledDevice(d: Data, name: string, value: string): Data {
    if name == PDEV then d.(selected := Selected(d.devices, value))
    else if d.selected >= |d.devices| then d
    else d.(devices := d.devices[d.selected := HandledSelected(d.devices[d.selected], name, value)])
  }

  /** nvtop_option_ini_handler, as a function. */
  function Handled(d: Data, section: string, name: string, value: string, scan: TimerScan): Data {
    if section == GENERAL then d.(settings := HandledGeneral(d.settings, name, value))
    else if section == HEADER then d.(settings := HandledHeader(d.settings, name, value, scan))
    else if section == CHART then d.(settings := HandledChart(d.settings, name, value))
    else if section == PROCESS_LIST then d.(settings := HandledList(d.settings, name, value))
    else if section == DEVICE then HandledDevice(d, name, value)
    else d
  }

  function HandledAll(d: Data, calls: seq<Call>, scan: TimerScan): Data
    decreases |calls|
  {
    if calls == [] then d
    else HandledAll(Handled(d, calls[0].section, calls[0].name, calls[0].value, scan), calls[1..], scan)
  }

  // ----------------------------------------------------------- the handler ----

  class Handler {
    const scan: TimerScan
    var selected: nat
    var settings: Settings
    var devices: seq<Device>

    ghost function All(): Data
      reads this
    {
      Data(selected, settings, devices)
    }

    constructor (scan: TimerScan, settings: Settings, devices: seq<Device>)
      ensures All() == Data(|devices|, settings, devices) && this.scan == scan
    {
      this.scan, selected, this.settings, this.devices := scan, |devices|, settings, devices;
    }

    method HandleGeneral(name: string, value: string)
      modifies this`settings
      ensures settings == HandledGeneral(old(settings), name, value)
    {
      if name == USE_COLOR {
        if value == "true" { settings := settings.(useColor := true); }
        if value == "false" { settings := settings.(useColor := false); }
      }
      if name == UPDATE_INTERVAL {
        var n := ScanInt(value);
        if n.Some? { settings := settings.(updateInterval := n.value); }
      }
      if name == SHOW_MESSAGES {
        if value == "true" { settings := settings.(showMessages := true); }
        if value == "false" { settings := settings.(showMessages := false); }
      }
    }

    method HandleHeader(name: string, value: string)
      modifies this`settings
      ensures settings == HandledHeader(old(settings), name, value, scan)
    {
      if name == USE_FAHRENHEIT {
        if value == "true" { settings := settings.(fahrenheit := true); }
        if value == "false" { settings := settings.(fahrenheit := false); }
      }
      if name == HIDE_TIMER {
        var t := scan(value);
        if t.Some? { settings := settings.(hideTimer := t.value); }
      }
      if name == GPU_INFO_BAR {
        if value == "true" { settings := settings.(gpuInfoBar := true); }
        if value == "false" { settings := settings.(gpuInfoBar := false); }
      }
    }

    method HandleChart(name: string, value: string)
      modifies this`settings
      ensures settings == HandledChart(old(settings), name, value)
    {
      ColorNamesDistinct();
      if name == REVERSE_CHART {
        if value == "true" { settings := settings.(reverseChart := true); }
        if value == "false" { settings := settings.(reverseChart := false); }
      }
      var line := LookUp(PLOT_COLORS, name);
      if line < |PLOT_COLORS| && line < |settings.colors| {
        var color := LookUp(COLOR_NAMES, value);
        if color < |COLOR_NAMES| { settings := settings.(colors := settings.colors[line := color]); }
      }
    }

    method HandleList(name: string, value: string)
      modifies this`settings
      ensures settings == HandledList(old(settings), name, value)
    {
      FieldNamesDistinct();
      if name == HIDE_LIST {
        if value == "true" { settings := settings.(hideList := true); }
        if value == "false" { settings := settings.(hideList := false); }
      }
      if name == HIDE_NVTOP {
        if value == "true" { settings := settings.(hideNvtop := true); }
        if value == "false" { settings := settings.(hideNvtop := false); }
      }
      if name == SORT_BY {
        var i := LookUp(FIELD_NAMES, value);
        if i < |FIELD_NAMES| { settings := settings.(sortBy := Some(ALL_FIELDS[i])); }
      }
      if name == DISPLAY_FIELD {
        var i := LookUp(FIELD_NAMES, value);
        if i < |FIELD_NAMES| {
          settings := settings.(fields := Marked(settings.fields.chosen + {ALL_FIELDS[i]}, true));
        }
      }
      if name == SORT_ORDER {
        if value == DESCENDING { settings := settings.(descending := true); }
        if value == ASCENDING { settings := settings.(descending := false); }
      }
    }

    /** The search among the devices. */
    method Select(pdev: string)
      modifies this`selected
      ensures selected == Selected(devices, pdev)
    {
      selected := |devices|;
      for i := 0 to |devices|
        invariant selected == |devices|
        invariant forall k :: 0 <= k < i ==> devices[k].pdev != pdev
      {
        if devices[i].pdev == pdev {
          selected := i;
          break;
        }
      }
    }

    /** The lines of the selected device. */
    method HandleSelected(name: string, value: string)
      requires selected < |devices|
      modifies this`devices
      ensures devices == old(devices)[selected := HandledSelected(old(devices)[selected], name, value)]
    {
      MetricNamesDistinct();
      var d := devices[selected];
      if name == SHOWN_INFO {
        var j := LookUp(METRIC_NAMES, value);
        if j < |METRIC_NAMES| {
          d := d.(toDraw := AddMetric(d.toDraw, ALL_METRICS[j]));
          d := d.(toDraw := AddMark(d.toDraw));
        } else if value == NONE {
          d := d.(toDraw := AddMark(d.toDraw));
          d := d.(toDraw := AddMark(d.toDraw));
        }
      }
      if name == MONITOR {
        if value == "true" { d := d.(doNotMonitor := false); }
        if value == "false" { d := d.(doNotMonitor := true); }
      }
      devices := devices[selected := d];
    }

    method HandleDevice(name: string, value: string)
      modifies this`selected, this`devices
      ensures All() == HandledDevice(old(All()), name, value)
    {
      if name == PDEV {
        Select(value);
      }
      if selected < |devices| {
        HandleSelected(name, value);
      }
    }

    /** nvtop_option_ini_handler. */
    method Handle(section: string, name: string, value: string)
      modifies this
      ensures All() == Handled(old(All()), section, name, value, scan)
    {
      if section == GENERAL { HandleGeneral(name, value); }
      if section == HEADER { HandleHeader(name, value); }
      if section == CHART { HandleChart(name, value); }
      if section == PROCESS_LIST { HandleList(name, value); }
      if section == DEVICE { HandleDevice(name, value); }
    }

    /** The calls the parser makes. */
    method HandleAll(calls: seq<Call>)
      modifies this
      ensures All() == HandledAll(old(All()), calls, scan)
    {
      for i := 0 to |calls|
        invariant HandledAll(All(), calls[i..], scan) == HandledAll(old(All()), calls, scan)
      {
        assert calls[i..][1..] == calls[i + 1..];
        Handle(calls[i].section, calls[i].name, calls[i].value);
      }
    }
  }
}
