/**
 Loading options, and what the handler makes of the saved settings
 (src/interface_options.c:107-165, 356-368, 396-469, 493-519, src/nvtop.c:285-304).
 */
module ConfigSettings {
  import opened PlotLimits
  import opened Options
  import opened CIntegers
  import opened Decimal
  import opened ProcessFields
  import opened ConfigNames
  import opened ConfigFile
  import H = ConfigHandler
  import opened IniReader
  import opened IniParser
  import opened IniRoundTrip

  // --------------------------------------------------------------- loading ----

  /** alloc_interface_options_internals. */
  const FRESH: Settings := Settings(
    true, 1000, true, false, 30.0, false, false, [1, 3, 2, 4], false, true, true, Some(CpuPct), Marked({}, false), 0)

  function FreshDevices(pdevs: seq<string>): (ds: seq<Device>)
    ensures |ds| == |pdevs|
  {
    seq(|pdevs|, i requires 0 <= i < |pdevs| => Device(pdevs[i], false, Marked({}, false)))
  }

  /** process_default_sort_by_from. */
  function DefaultSortBy(fields: set<Field>): Option<Field> {
    FirstOf([CpuPct, Memory, CpuMemUsage, GpuRate, CpuUsage, Command, Type, EncRate, DecRate, User, GpuId, Pid], fields)
  }

  function FirstOf(candidates: seq<Field>, fields: set<Field>): Option<Field> {
    if candidates == [] then None
    else if candidates[0] in fields then Some(candidates[0])
    else FirstOf(candidates[1..], fields)
  }

  /** The default sort column is the first candidate that is displayed. */
  lemma {:induction false} FirstOfIsFirst(candidates: seq<Field>, fields: set<Field>, i: nat)
    requires i < |candidates| && candidates[i] in fields && forall j :: 0 <= j < i ==> candidates[j] !in fields
    ensures FirstOf(candidates, fields) == Some(candidates[i])
  {
    if i > 0 {
      FirstOfIsFirst(candidates[1..], fields, i - 1);
    }
  }

  /** process_default_displayed_field. */
  const DEFAULT_FIELDS: set<Field> := {Pid, User, Priority, Nice, Field.State, Virt, Res, Shr, CpuPct, Time, Command}

  /** The sort column is displayed; the mark is the bit of process_field_count. */
  predicate IsDisplayed(f: Option<Field>, fields: Marked<Field>) {
    if f.Some? then f.value in fields.chosen else fields.marked
  }

  function FixSort(s: Settings): Settings {
    if IsDisplayed(s.sortBy, s.fields) then s else s.(sortBy := DefaultSortBy(s.fields.chosen))
  }

  /** What the program makes of a set: without a mark nothing was given, and the default is taken. */
  function Given<T>(m: Marked<T>, otherwise: set<T>): Marked<T> {
    Marked(if m.marked then m.chosen else otherwise, false)
  }

  /** The metrics a device draws by default. */
  type DrawDefault = string -> set<Metric>

  function FinishSettings(s: Settings): Settings {
    s.(fields := Given(s.fields, DEFAULT_FIELDS))
  }

  function FinishDevices(ds: seq<Device>, draw: DrawDefault): (r: seq<Device>)
    ensures |r| == |ds|
  {
    seq(|ds|, i requires 0 <= i < |ds| => ds[i].(toDraw := Given(ds[i].toDraw, draw(ds[i].pdev))))
  }

  const ACCEPT: Handler := (c: Call) => true

  /** The options after the file was parsed. */
  function ParsedOptions(text: string, pdevs: seq<string>, scan: H.TimerScan): H.Data {
    H.HandledAll(H.Data(|pdevs|, FRESH, FreshDevices(pdevs)), Parse(ACCEPT, text).calls, scan)
  }

  /** The loop over the devices in main. */
  method FinishAll(ds: seq<Device>, draw: DrawDefault) returns (finished: seq<Device>)
    ensures finished == FinishDevices(ds, draw)
  {
    finished := [];
    for i := 0 to |ds|
      invariant finished == FinishDevices(ds[..i], draw)
    {
      finished := finished + [ds[i].(toDraw := Given(ds[i].toDraw, draw(ds[i].pdev)))];
    }
    assert ds[..|ds|] == ds;
  }

  /** load_interface_options_from_config_file, and what follows it in main; no text is a file that cannot be opened. */
  method Load(text: Option<string>, pdevs: seq<string>, scan: H.TimerScan, draw: DrawDefault)
    returns (s: Settings, ds: seq<Device>)
    ensures text.Some? ==> s == FinishSettings(FixSort(ParsedOptions(text.value, pdevs, scan).settings))
    ensures text.Some? ==> ds == FinishDevices(ParsedOptions(text.value, pdevs, scan).devices, draw)
    ensures text.None? ==> s == FinishSettings(FRESH) && ds == FinishDevices(FreshDevices(pdevs), draw)
  {
    s, ds := FRESH, FreshDevices(pdevs);
    if text.Some? {
      var stream := new StringContext(text.value);
      var calls, _ := ParseStream(ACCEPT, stream);
      var handler := new H.Handler(scan, s, ds);
      handler.HandleAll(calls);
      s, ds := FixSort(handler.settings), handler.devices;
    }
    s := FinishSettings(s);
    ds := FinishAll(ds, draw);
  }

  // ------------------------------------------------- the handler on items ----

  /** The handler on the calls that printed lines cause. */
  function Apply(d: H.Data, items: seq<Item>, section: string, scan: H.TimerScan): H.Data {
    H.HandledAll(d, CallsOf(items, section), scan)
  }

  function Step(d: H.Data, item: Item, section: string, scan: H.TimerScan): H.Data {
    if item.Pair? then H.Handled(d, section, item.name, item.value, scan) else d
  }

  function LastSection(items: seq<Item>, section: string): string {
    if items == [] then section else LastSection(items[1..], SectionAfter(items[0], section))
  }

  lemma ApplyFirst(d: H.Data, items: seq<Item>, section: string, scan: H.TimerScan)
    requires items != []
    ensures Apply(d, items, section, scan)
            == Apply(Step(d, items[0], section, scan), items[1..], SectionAfter(items[0], section), scan)
    ensures LastSection(items, section) == LastSection(items[1..], SectionAfter(items[0], section))
  {
    if items[0].Pair? {
      var call := Call(section, items[0].name, items[0].value);
      assert ([call] + CallsOf(items[1..], section))[1..] == CallsOf(items[1..], section);
    }
  }

  lemma {:induction false} ApplyJoin(d: H.Data, a: seq<Item>, b: seq<Item>, section: string, scan: H.TimerScan)
    ensures Apply(d, a + b, section, scan) == Apply(Apply(d, a, section, scan), b, LastSection(a, section), scan)
    ensures LastSection(a + b, section) == LastSection(b, LastSection(a, section))
    decreases |a|
  {
    if a == [] {
      assert a + b == b;
    } else {
      assert (a + b)[0] == a[0] && (a + b)[1..] == a[1..] + b;
      ApplyFirst(d, a + b, section, scan);
      ApplyFirst(d, a, section, scan);
      ApplyJoin(Step(d, a[0], section, scan), a[1..], b, SectionAfter(a[0], section), scan);
    }
  }

  lemma ApplyOne(d: H.Data, item: Item, section: string, scan: H.TimerScan)
    ensures Apply(d, [item], section, scan) == Step(d, item, section, scan)
    ensures LastSection([item], section) == SectionAfter(item, section)
  {
    ApplyFirst(d, [item], section, scan);
    assert [item][1..] == [];
  }

  lemma ApplyThree(d: H.Data, a: Item, b: Item, c: Item, section: string, scan: H.TimerScan)
    requires a.Pair? && b.Pair? && c.Pair?
    ensures Apply(d, [a, b, c], section, scan)
            == Step(Step(Step(d, a, section, scan), b, section, scan), c, section, scan)
    ensures LastSection([a, b, c], section) == section
  {
    ApplyFirst(d, [a, b, c], section, scan);
    assert [a, b, c][1..] == [b, c] && [b, c][1..] == [c];
    ApplyFirst(Step(d, a, section, scan), [b, c], section, scan);
    ApplyOne(Step(Step(d, a, section, scan), b, section, scan), c, section, scan);
  }

  /** A blank line and the head of a section. */
  lemma ApplyHead(d: H.Data, name: string, items: seq<Item>, section: string, scan: H.TimerScan)
    ensures Apply(d, [Section(name)] + items, section, scan) == Apply(d, items, name, scan)
    ensures LastSection([Section(name)] + items, section) == LastSection(items, name)
    ensures Apply(d, [Blank, Section(name)] + items, section, scan) == Apply(d, items, name, scan)
    ensures LastSection([Blank, Section(name)] + items, section) == LastSection(items, name)
  {
    var with := [Section(name)] + items;
    ApplyFirst(d, with, section, scan);
    assert with[1..] == items;
    ApplyFirst(d, [Blank, Section(name)] + items, section, scan);
    assert ([Blank, Section(name)] + items)[1..] == with;
  }

  // -------------------------------------------------------------- settings ----

  lemma PrintedForm(n: int)
    ensures SkipSpace(Print(n)) == Print(n)
    ensures if n < 0 then Print(n)[0] == '-' && Print(n)[1..] == Digits(-n) else IsDigit(Print(n)[0])
  {
    assert IsDigit(Digits(if n < 0 then -n else n)[0]);
  }

  /** What a printed whole number is read as. */
  lemma ScannedInt(n: CInt)
    ensures H.ScanInt(Print(n)) == Some(n)
  {
    PrintedForm(n);
    PrintedNumber(n, "");
    assert Print(n) + "" == Print(n);
    assert StrToL(Print(n)) == n;
  }

  lemma GeneralApplied(d: H.Data, s: Settings, section: string, scan: H.TimerScan)
    ensures Apply(d, GeneralItems(s), section, scan) ==
            d.(settings := d.settings.(useColor := s.useColor, updateInterval := s.updateInterval,
                                       showMessages := s.showMessages))
    ensures LastSection(GeneralItems(s), section) == GENERAL
  {
    var a, b, c := Pair(USE_COLOR, BooleanString(s.useColor)), Pair(UPDATE_INTERVAL, Print(s.updateInterval)),
                   Pair(SHOW_MESSAGES, BooleanString(s.showMessages));
    assert GeneralItems(s) == [Section(GENERAL)] + [a, b, c];
    ApplyHead(d, GENERAL, [a, b, c], section, scan);
    ApplyThree(d, a, b, c, GENERAL, scan);
    ScannedInt(s.updateInterval);
  }

  lemma HeaderApplied(d: H.Data, s: Settings, timer: TimerText, section: string, scan: H.TimerScan)
    ensures Apply(d, HeaderItems(s, timer), section, scan) ==
            d.(settings := d.settings.(
                 fahrenheit := s.fahrenheit,
                 hideTimer := if scan(timer(s.hideTimer)).Some? then scan(timer(s.hideTimer)).value
                              else d.settings.hideTimer,
                 gpuInfoBar := s.gpuInfoBar))
    ensures LastSection(HeaderItems(s, timer), section) == HEADER
  {
    var a, b, c := Pair(USE_FAHRENHEIT, BooleanString(s.fahrenheit)), Pair(HIDE_TIMER, timer(s.hideTimer)),
                   Pair(GPU_INFO_BAR, BooleanString(s.gpuInfoBar));
    assert HeaderItems(s, timer) == [Blank, Section(HEADER)] + [a, b, c];
    ApplyHead(d, HEADER, [a, b, c], section, scan);
    ApplyThree(d, a, b, c, HEADER, scan);
  }

  lemma ChartApplied(d: H.Data, s: Settings, section: string, scan: H.TimerScan)
    ensures Apply(d, ChartItems(s), section, scan) == d.(settings := d.settings.(reverseChart := s.reverseChart))
    ensures LastSection(ChartItems(s), section) == CHART
  {
    var a := Pair(REVERSE_CHART, BooleanString(s.reverseChart));
    assert ChartItems(s) == [Blank, Section(CHART)] + [a];
    ApplyHead(d, CHART, [a], section, scan);
    ApplyOne(d, a, CHART, scan);
  }

  lemma ColorApplied(d: H.Data, line: nat, color: nat, scan: H.TimerScan)
    requires line < |PLOT_COLORS| && color < |COLOR_NAMES| && |d.settings.colors| == MAX_LINES_PER_PLOT
    ensures Step(d, Pair(PLOT_COLORS[line], COLOR_NAMES[color]), CHART, scan)
            == d.(settings := d.settings.(colors := d.settings.colors[line := color]))
  {
    ColorNamesDistinct();
    IndexOfName(PLOT_COLORS, line);
    IndexOfName(COLOR_NAMES, color);
    assert PLOT_COLORS[line] != REVERSE_CHART;
  }

  lemma NextColor(colors: seq<nat>, old_: seq<nat>, n: nat)
    requires 0 < n <= |colors| == |old_|
    ensures (colors[..n - 1] + old_[n - 1..])[n - 1 := colors[n - 1]] == colors[..n] + old_[n..]
  {
  }

  lemma {:induction false} ColorsApplied(d: H.Data, colors: seq<nat>, n: nat, scan: H.TimerScan)
    requires n <= MAX_LINES_PER_PLOT && ColorsOk(colors) && |d.settings.colors| == MAX_LINES_PER_PLOT
    ensures Apply(d, ColorItems(colors, n), CHART, scan)
            == d.(settings := d.settings.(colors := colors[..n] + d.settings.colors[n..]))
    ensures LastSection(ColorItems(colors, n), CHART) == CHART
  {
    if n > 0 {
      var before, item := ColorItems(colors, n - 1), Pair(PLOT_COLORS[n - 1], COLOR_NAMES[colors[n - 1]]);
      ColorsApplied(d, colors, n - 1, scan);
      NextItem(d, before, item, CHART, scan);
      ColorApplied(Apply(d, before, CHART, scan), n - 1, colors[n - 1], scan);
      NextColor(colors, d.settings.colors, n);
    } else {
      assert colors[..0] + d.settings.colors[0..] == d.settings.colors;
    }
  }

  /** One more pair of the same section. */
  lemma NextItem(d: H.Data, before: seq<Item>, item: Item, section: string, scan: H.TimerScan)
    requires item.Pair? && LastSection(before, section) == section
    ensures Apply(d, before + [item], section, scan) == Step(Apply(d, before, section, scan), item, section, scan)
    ensures LastSection(before + [item], section) == section
  {
    ApplyJoin(d, before, [item], section, scan);
    ApplyOne(Apply(d, before, section, scan), item, section, scan);
  }

  // ---------------------------------------------------------- process list ----

  lemma FieldNameRead(f: Option<Field>)
    ensures H.FieldOf(FieldName(f)) == f
  {
    FieldNamesDistinct();
    if f.Some? {
      IndexOfName(FIELD_NAMES, FieldIndex(f.value));
    } else {
      IndexOfOther(FIELD_NAMES, NONE);
    }
  }

  lemma HideSteps(d: H.Data, list: bool, nvtop: bool, scan: H.TimerScan)
    ensures Step(d, Pair(HIDE_LIST, BooleanString(list)), PROCESS_LIST, scan)
            == d.(settings := d.settings.(hideList := list))
    ensures Step(d, Pair(HIDE_NVTOP, BooleanString(nvtop)), PROCESS_LIST, scan)
            == d.(settings := d.settings.(hideNvtop := nvtop))
  {
  }

  lemma SortSteps(d: H.Data, desc: bool, f: Option<Field>, scan: H.TimerScan)
    ensures Step(d, Pair(SORT_ORDER, if desc then DESCENDING else ASCENDING), PROCESS_LIST, scan)
            == d.(settings := d.settings.(descending := desc))
    ensures Step(d, Pair(SORT_BY, FieldName(f)), PROCESS_LIST, scan)
            == if f.Some? then d.(settings := d.settings.(sortBy := f)) else d
  {
    FieldNameRead(f);
  }

  lemma ListBeginning(d: H.Data, s: Settings, scan: H.TimerScan)
    ensures Apply(d, [Pair(HIDE_LIST, BooleanString(s.hideList)), Pair(HIDE_NVTOP, BooleanString(s.hideNvtop)),
                      Pair(SORT_ORDER, if s.descending then DESCENDING else ASCENDING)], PROCESS_LIST, scan)
            == d.(settings := d.settings.(hideList := s.hideList, hideNvtop := s.hideNvtop, descending := s.descending))
    ensures LastSection([Pair(HIDE_LIST, BooleanString(s.hideList)), Pair(HIDE_NVTOP, BooleanString(s.hideNvtop)),
                         Pair(SORT_ORDER, if s.descending then DESCENDING else ASCENDING)], PROCESS_LIST)
            == PROCESS_LIST
  {
    var a, b := Pair(HIDE_LIST, BooleanString(s.hideList)), Pair(HIDE_NVTOP, BooleanString(s.hideNvtop));
    var c := Pair(SORT_ORDER, if s.descending then DESCENDING else ASCENDING);
    ApplyThree(d, a, b, c, PROCESS_LIST, scan);
    var d1 := d.(settings := d.settings.(hideList := s.hideList));
    HideSteps(d, s.hideList, s.hideNvtop, scan);
    HideSteps(d1, s.hideList, s.hideNvtop, scan);
    SortSteps(d1.(settings := d1.settings.(hideNvtop := s.hideNvtop)), s.descending, s.sortBy, scan);
  }

  lemma ListApplied(d: H.Data, s: Settings, section: string, scan: H.TimerScan)
    ensures Apply(d, ListItems(s), section, scan) ==
            d.(settings := d.settings.(hideList := s.hideList, hideNvtop := s.hideNvtop, descending := s.descending,
                                       sortBy := if s.sortBy.Some? then s.sortBy else d.settings.sortBy))
    ensures LastSection(ListItems(s), section) == PROCESS_LIST
  {
    var first := [Pair(HIDE_LIST, BooleanString(s.hideList)), Pair(HIDE_NVTOP, BooleanString(s.hideNvtop)),
                  Pair(SORT_ORDER, if s.descending then DESCENDING else ASCENDING)];
    var last := Pair(SORT_BY, FieldName(s.sortBy));
    assert ListItems(s) == [Blank, Section(PROCESS_LIST)] + (first + [last]);
    ApplyHead(d, PROCESS_LIST, first + [last], section, scan);
    ListBeginning(d, s, scan);
    NextItem(d, first, last, PROCESS_LIST, scan);
    SortSteps(Apply(d, first, PROCESS_LIST, scan), s.descending, s.sortBy, scan);
  }

  /** The chosen ones among the first n columns. */
  function FirstFields(fields: set<Field>, n: nat): set<Field>
    requires n <= |ALL_FIELDS|
  {
    if n == 0 then {}
    else FirstFields(fields, n - 1) + if ALL_FIELDS[n - 1] in fields then {ALL_FIELDS[n - 1]} else {}
  }

  lemma NextField(n: nat, f: Field)
    requires 0 < n <= |ALL_FIELDS|
    ensures FieldIndex(f) < n <==> FieldIndex(f) < n - 1 || f == ALL_FIELDS[n - 1]
  {
    assert ALL_FIELDS[FieldIndex(f)] == f;
    assert FieldIndex(ALL_FIELDS[n - 1]) == n - 1;
  }

  lemma {:induction false} FieldChosen(fields: set<Field>, n: nat, f: Field)
    requires n <= |ALL_FIELDS|
    ensures f in FirstFields(fields, n) <==> f in fields && FieldIndex(f) < n
  {
    if n > 0 {
      FieldChosen(fields, n - 1, f);
      NextField(n, f);
    }
  }

  /** The options with these columns in addition. */
  function WithFields(d: H.Data, fields: set<Field>): H.Data {
    d.(settings := d.settings.(fields := Marked(d.settings.fields.chosen + fields,
                                                d.settings.fields.marked || fields != {})))
  }

  lemma FieldStep(d: H.Data, i: nat, before: set<Field>, scan: H.TimerScan)
    requires i < |ALL_FIELDS|
    ensures |FIELD_NAMES| == |ALL_FIELDS|
    ensures Step(WithFields(d, before), Pair(DISPLAY_FIELD, FIELD_NAMES[i]), PROCESS_LIST, scan)
            == WithFields(d, before + {ALL_FIELDS[i]})
  {
    FieldNamesDistinct();
    IndexOfName(FIELD_NAMES, i);
    assert ALL_FIELDS[i] in before + {ALL_FIELDS[i]};
    assert (d.settings.fields.chosen + before) + {ALL_FIELDS[i]}
            == d.settings.fields.chosen + (before + {ALL_FIELDS[i]});
  }

  lemma NoFields(d: H.Data)
    ensures WithFields(d, {}) == d
  {
    assert d.settings.fields.chosen + {} == d.settings.fields.chosen;
  }

  /** These lines add these columns. */
  ghost predicate AddsFields(d: H.Data, items: seq<Item>, fields: set<Field>, scan: H.TimerScan) {
    && Apply(d, items, PROCESS_LIST, scan) == WithFields(d, fields) && LastSection(items, PROCESS_LIST) == PROCESS_LIST
    && (items == [] <==> fields == {})
  }

  lemma AddsOneField(d: H.Data, items: seq<Item>, fields: set<Field>, i: nat, scan: H.TimerScan)
    requires i < |ALL_FIELDS| && AddsFields(d, items, fields, scan)
    ensures |FIELD_NAMES| == |ALL_FIELDS|
    ensures AddsFields(d, items + [Pair(DISPLAY_FIELD, FIELD_NAMES[i])], fields + {ALL_FIELDS[i]}, scan)
  {
    FieldStep(d, i, fields, scan);
    NextItem(d, items, Pair(DISPLAY_FIELD, FIELD_NAMES[i]), PROCESS_LIST, scan);
    assert ALL_FIELDS[i] in fields + {ALL_FIELDS[i]};
  }

  lemma FieldItemsNext(fields: set<Field>, n: nat)
    requires 0 < n <= |ALL_FIELDS|
    ensures |FIELD_NAMES| == |ALL_FIELDS|
    ensures ALL_FIELDS[n - 1] in fields ==>
              && FieldItems(fields, n) == FieldItems(fields, n - 1) + [Pair(DISPLAY_FIELD, FIELD_NAMES[n - 1])]
              && FirstFields(fields, n) == FirstFields(fields, n - 1) + {ALL_FIELDS[n - 1]}
    ensures ALL_FIELDS[n - 1] !in fields ==>
              FieldItems(fields, n) == FieldItems(fields, n - 1) && FirstFields(fields, n) == FirstFields(fields, n - 1)
  {
    FieldNamesDistinct();
  }

  lemma {:induction false} FieldsApplied(d: H.Data, fields: set<Field>, n: nat, scan: H.TimerScan)
    requires n <= |ALL_FIELDS|
    ensures |FIELD_NAMES| == |ALL_FIELDS|
    ensures AddsFields(d, FieldItems(fields, n), FirstFields(fields, n), scan)
  {
    FieldNamesDistinct();
    if n == 0 {
      NoFields(d);
    } else {
      FieldsApplied(d, fields, n - 1, scan);
      FieldItemsNext(fields, n);
      if ALL_FIELDS[n - 1] in fields {
        AddsOneField(d, FieldItems(fields, n - 1), FirstFields(fields, n - 1), n - 1, scan);
      }
    }
  }

  /** The columns of a file that was saved. */
  lemma ColumnsApplied(d: H.Data, fields: set<Field>, scan: H.TimerScan)
    requires d.settings.fields == Marked({}, false)
    ensures |FIELD_NAMES| == |ALL_FIELDS|
    ensures Apply(d, OrNone(FieldItems(fields, |ALL_FIELDS|), DISPLAY_FIELD), PROCESS_LIST, scan)
            == d.(settings := d.settings.(fields := Marked(fields, fields != {})))
  {
    var n := |ALL_FIELDS|;
    FieldsApplied(d, fields, n, scan);
    forall f: Field ensures f in FirstFields(fields, n) <==> f in fields {
      FieldChosen(fields, n, f);
    }
    assert FirstFields(fields, n) == fields;
    if FieldItems(fields, n) == [] {
      ApplyOne(d, Pair(DISPLAY_FIELD, NONE), PROCESS_LIST, scan);
      FieldNameRead(None);
    }
  }
}
