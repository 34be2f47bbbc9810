/** Writing the configuration file (src/interface_options.c:396-469). */
module ConfigFile {
  import opened PlotLimits
  import opened Options
  import opened CIntegers
  import opened Decimal
  import opened ProcessFields
  import opened ConfigNames
  import opened IniText
  import opened IniRoundTrip

  const PDEV_LENGTH: nat := 16

  /** A set of columns or metrics, and the bit beyond the last one, which marks the set as given. */
  datatype Marked<T> = Marked(chosen: set<T>, marked: bool)

  /** The options that are not about a device; no sort column stands for process_field_count. */
  datatype Settings = Settings(
    useColor: bool, updateInterval: CInt, showMessages: bool,
    fahrenheit: bool, hideTimer: real, gpuInfoBar: bool,
    reverseChart: bool, colors: seq<nat>,
    hideList: bool, hideNvtop: bool, descending: bool, sortBy: Option<Field>, fields: Marked<Field>,
    plotHeightModifier: int)

  datatype Device = Device(pdev: string, doNotMonitor: bool, toDraw: Marked<Metric>)

  /** Plot colors are indices into the list of names. */
  ghost predicate ColorsOk(colors: seq<nat>) {
    |colors| == MAX_LINES_PER_PLOT && forall i :: 0 <= i < |colors| ==> colors[i] < |COLOR_NAMES|
  }

  /** A PCI address or other name of a device: fits its array, and can be read back. */
  ghost predicate PdevOk(pdev: string) {
    |pdev| < PDEV_LENGTH && Plain(pdev, "") && Trimmed(pdev) && (pdev != [] ==> pdev[0] != INLINE_COMMENT)
  }

  /** How "%e" prints a number. */
  type TimerText = real -> string

  // ----------------------------------------------------------------- items ----

  // The notice, in pieces.
  const NOTICE_1 := " Please do not edit this file."
  const NOTICE_2A := " The file is automatically generated"
  const NOTICE_2B := " and modified by nvtop by pressing F12."
  const NOTICE_3A := " If you wish to modify an option,"
  const NOTICE_3B := " use nvtop's setup window (F2) and"
  const NOTICE_3C := " follow up by saving the preference (F12)."

  const NOTICE: seq<Item> :=
    [Comment(NOTICE_1), Comment(NOTICE_2A + NOTICE_2B), Comment(NOTICE_3A + NOTICE_3B + NOTICE_3C)]

  function GeneralItems(s: Settings): seq<Item> {
    [Section(GENERAL),
     Pair(USE_COLOR, BooleanString(s.useColor)),
     Pair(UPDATE_INTERVAL, Print(s.updateInterval)),
     Pair(SHOW_MESSAGES, BooleanString(s.showMessages))]
  }

  function HeaderItems(s: Settings, timer: TimerText): seq<Item> {
    [Blank, Section(HEADER),
     Pair(USE_FAHRENHEIT, BooleanString(s.fahrenheit)),
     Pair(HIDE_TIMER, timer(s.hideTimer)),
     Pair(GPU_INFO_BAR, BooleanString(s.gpuInfoBar))]
  }

  /** The colors of the first n plot lines. */
  function ColorItems(colors: seq<nat>, n: nat): seq<Item>
    requires n <= |colors| && n <= |PLOT_COLORS| && forall i :: 0 <= i < |colors| ==> colors[i] < |COLOR_NAMES|
  {
    if n == 0 then [] else ColorItems(colors, n - 1) + [Pair(PLOT_COLORS[n - 1], COLOR_NAMES[colors[n - 1]])]
  }

  function ChartItems(s: Settings): seq<Item> {
    [Blank, Section(CHART), Pair(REVERSE_CHART, BooleanString(s.reverseChart))]
  }

  /** The chosen ones among the first n columns. */
  function FieldItems(fields: set<Field>, n: nat): seq<Item>
    requires n <= |ALL_FIELDS| && |FIELD_NAMES| == |ALL_FIELDS|
  {
    if n == 0 then []
    else FieldItems(fields, n - 1)
         + if ALL_FIELDS[n - 1] in fields then [Pair(DISPLAY_FIELD, FIELD_NAMES[n - 1])] else []
  }

  function FieldIndex(f: Field): (i: nat)
    ensures i < |ALL_FIELDS| == |FIELD_NAMES| && ALL_FIELDS[i] == f
  {
    match f
    case Pid => 0 case User => 1 case Ppid => 2 case Priority => 3 case Nice => 4 case State => 5 case Threads => 6
    case Virt => 7 case Res => 8 case Shr => 9 case CpuPct => 10 case Time => 11 case GpuId => 12 case Type => 13
    case GpuRate => 14 case EncRate => 15 case DecRate => 16 case Memory => 17 case CpuUsage => 18
    case CpuMemUsage => 19 case Command => 20
  }

  function FieldName(f: Option<Field>): string {
    if f.Some? then FIELD_NAMES[FieldIndex(f.value)] else NONE
  }

  function ListItems(s: Settings): seq<Item> {
    [Blank, Section(PROCESS_LIST),
     Pair(HIDE_LIST, BooleanString(s.hideList)),
     Pair(HIDE_NVTOP, BooleanString(s.hideNvtop)),
     Pair(SORT_ORDER, if s.descending then DESCENDING else ASCENDING),
     Pair(SORT_BY, FieldName(s.sortBy))]
  }

  function OrNone(items: seq<Item>, name: string): seq<Item> {
    if items == [] then [Pair(name, NONE)] else items
  }

  /** The chosen ones among the first n metrics. */
  function MetricItems(metrics: set<Metric>, n: nat): seq<Item>
    requires n <= |ALL_METRICS| && |METRIC_NAMES| == |ALL_METRICS|
  {
    if n == 0 then []
    else MetricItems(metrics, n - 1)
         + if ALL_METRICS[n - 1] in metrics then [Pair(SHOWN_INFO, METRIC_NAMES[n - 1])] else []
  }

  function DeviceHead(d: Device): seq<Item> {
    [Blank, Section(DEVICE), Pair(PDEV, d.pdev), Pair(MONITOR, BooleanString(!d.doNotMonitor))]
  }

  function DeviceItems(d: Device): seq<Item> {
    DeviceHead(d) + OrNone(MetricItems(d.toDraw.chosen, |ALL_METRICS|), SHOWN_INFO) + [Blank]
  }

  /** The sections of the first n devices. */
  function DevicesItems(ds: seq<Device>, n: nat): seq<Item>
    requires n <= |ds|
  {
    if n == 0 then [] else DevicesItems(ds, n - 1) + DeviceItems(ds[n - 1])
  }

  /** Everything in front of the columns. */
  function HeadItems(s: Settings, timer: TimerText): seq<Item>
    requires ColorsOk(s.colors)
  {
    NOTICE + GeneralItems(s) + HeaderItems(s, timer) + ChartItems(s) + ColorItems(s.colors, MAX_LINES_PER_PLOT)
    + ListItems(s)
  }

  /** Everything in front of the devices. */
  function SettingsItems(s: Settings, timer: TimerText): seq<Item>
    requires ColorsOk(s.colors)
  {
    HeadItems(s, timer) + OrNone(FieldItems(s.fields.chosen, |ALL_FIELDS|), DISPLAY_FIELD)
  }

  function FileItems(s: Settings, ds: seq<Device>, timer: TimerText): seq<Item>
    requires ColorsOk(s.colors)
  {
    SettingsItems(s, timer) + DevicesItems(ds, |ds|)
  }

  // --------------------------------------------------------------- writing ----

  lemma {:induction false} TextJoin(a: seq<Item>, b: seq<Item>)
    ensures Text(a + b) == Text(a) + Text(b)
  {
    if a == [] {
      assert a + b == b;
    } else {
      assert (a + b)[1..] == a[1..] + b;
      TextJoin(a[1..], b);
    }
  }

  lemma Together(a: seq<Item>, b: seq<Item>, c: seq<Item>)
    ensures (a + b) + c == a + (b + c)
  {
  }

  lemma Parts(a: seq<Item>, b: seq<Item>, c: seq<Item>, d: seq<Item>)
    ensures ((a + b) + c) + d == a + ((b + c) + d)
  {
  }

  lemma TextOne(item: Item)
    ensures Text([item]) == ItemLine(item)
  {
    assert [item][1..] == [];
  }

  /** The open file: what was written, line by line. */
  class File {
    var text: string
    ghost var items: seq<Item>

    ghost predicate Valid()
      reads this
    {
      text == Text(items)
    }

    constructor ()
      ensures Valid() && items == []
    {
      text, items := "", [];
    }

    /** fprintf of one line. */
    method Put(item: Item)
      requires Valid()
      modifies this
      ensures Valid() && items == old(items) + [item]
    {
      TextJoin(items, [item]);
      TextOne(item);
      text := text + ItemLine(item);
      items := items + [item];
    }

    /** fprintf of several lines without a condition among them. */
    method PutAll(more: seq<Item>)
      requires Valid()
      modifies this
      ensures Valid() && items == old(items) + more
    {
      for i := 0 to |more|
        invariant Valid() && items == old(items) + more[..i]
      {
        Put(more[i]);
      }
      assert more[..|more|] == more;
    }

    method PutColors(colors: seq<nat>)
      requires Valid() && ColorsOk(colors)
      modifies this
      ensures Valid() && items == old(items) + ColorItems(colors, MAX_LINES_PER_PLOT)
    {
      for i := 0 to MAX_LINES_PER_PLOT
        invariant Valid() && items == old(items) + ColorItems(colors, i)
      {
        Put(Pair(PLOT_COLORS[i], COLOR_NAMES[colors[i]]));
      }
    }

    method PutFields(fields: set<Field>)
      requires Valid()
      modifies this
      ensures Valid() && items == old(items) + OrNone(FieldItems(fields, |ALL_FIELDS|), DISPLAY_FIELD)
    {
      var any := false;
      for i := 0 to |ALL_FIELDS|
        invariant Valid() && items == old(items) + FieldItems(fields, i)
        invariant any <==> FieldItems(fields, i) != []
      {
        if ALL_FIELDS[i] in fields {
          Put(Pair(DISPLAY_FIELD, FIELD_NAMES[i]));
          any := true;
        }
      }
      if !any {
        Put(Pair(DISPLAY_FIELD, NONE));
      }
    }

    method PutMetrics(metrics: set<Metric>)
      requires Valid()
      modifies this
      ensures Valid() && items == old(items) + OrNone(MetricItems(metrics, |ALL_METRICS|), SHOWN_INFO)
    {
      var any := false;
      for j := 0 to |ALL_METRICS|
        invariant Valid() && items == old(items) + MetricItems(metrics, j)
        invariant any <==> MetricItems(metrics, j) != []
      {
        if ALL_METRICS[j] in metrics {
          Put(Pair(SHOWN_INFO, METRIC_NAMES[j]));
          any := true;
        }
      }
      if !any {
        Put(Pair(SHOWN_INFO, NONE));
      }
    }

    method PutDevice(d: Device)
      requires Valid()
      modifies this
      ensures Valid() && items == old(items) + DeviceItems(d)
    {
      ghost var before := items;
      PutAll(DeviceHead(d));
      PutMetrics(d.toDraw.chosen);
      Put(Blank);
      Parts(before, DeviceHead(d), OrNone(MetricItems(d.toDraw.chosen, |ALL_METRICS|), SHOWN_INFO), [Blank]);
    }

    method PutHead(s: Settings, timer: TimerText)
      requires Valid() && items == [] && ColorsOk(s.colors)
      modifies this
      ensures Valid() && items == HeadItems(s, timer)
    {
      PutAll(NOTICE);
      assert [] + NOTICE == NOTICE;
      PutAll(GeneralItems(s));
      PutAll(HeaderItems(s, timer));
      PutAll(ChartItems(s));
      PutColors(s.colors);
      PutAll(ListItems(s));
    }

    method PutDevices(ds: seq<Device>)
      requires Valid()
      modifies this
      ensures Valid() && items == old(items) + DevicesItems(ds, |ds|)
    {
      ghost var before := items;
      assert before + [] == before;
      for i := 0 to |ds|
        invariant Valid() && items == before + DevicesItems(ds, i)
      {
        var d := ds[i];
        PutDevice(d);
        Together(before, DevicesItems(ds, i), DeviceItems(d));
      }
    }

    /** save_interface_options_to_config_file, on an open file. */
    method Save(s: Settings, ds: seq<Device>, timer: TimerText)
      requires Valid() && items == [] && ColorsOk(s.colors)
      modifies this
      ensures Valid() && items == FileItems(s, ds, timer)
    {
      PutHead(s, timer);
      PutFields(s.fields.chosen);
      PutDevices(ds);
    }
  }
}
