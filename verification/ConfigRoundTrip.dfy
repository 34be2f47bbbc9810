/**
 Loading what was saved gives back what was saved: when it does, and what it
 gives otherwise (src/interface_options.c:356-368, 396-469, src/nvtop.c:285-304).
 */
module ConfigRoundTrip {
  import opened PlotLimits
  import opened Options
  import opened ProcessFields
  import opened ConfigNames
  import opened ConfigFile
  import H = ConfigHandler
  import opened IniParser
  import opened IniRoundTrip
  import opened ConfigSettings
  import opened ConfigDevices
  import opened ConfigText

  // ------------------------------------------------------- all the devices ----

  ghost predicate DistinctPdevs(ds: seq<Device>) {
    forall i, j :: 0 <= i < j < |ds| ==> ds[i].pdev != ds[j].pdev
  }

  lemma SelectedAt(ds: seq<Device>, j: nat)
    requires DistinctPdevs(ds) && j < |ds|
    ensures H.Selected(ds, ds[j].pdev) == j
  {
    var k := H.Selected(ds, ds[j].pdev);
    assert k <= j;
  }

  /** A device after the sections of the saved ones: that of its own name counts, wherever it is. */
  function LoadedDevice(l: Device, ds: seq<Device>): Device {
    var j := H.Selected(ds, l.pdev);
    if j < |ds| then Device(l.pdev, ds[j].doNotMonitor, Reloaded(ds[j].toDraw.chosen)) else l
  }

  function LoadedDevices(ls: seq<Device>, ds: seq<Device>): (r: seq<Device>)
    ensures |r| == |ls| && forall i :: 0 <= i < |ls| ==> r[i].pdev == ls[i].pdev
  {
    seq(|ls|, i requires 0 <= i < |ls| => LoadedDevice(ls[i], ds))
  }

  lemma OneMoreSaved(l: Device, ds: seq<Device>, n: nat)
    requires n < |ds| && DistinctPdevs(ds)
    ensures LoadedDevice(l, ds[..n + 1]) ==
            if l.pdev == ds[n].pdev then Device(l.pdev, ds[n].doNotMonitor, Reloaded(ds[n].toDraw.chosen))
            else LoadedDevice(l, ds[..n])
    ensures l.pdev == ds[n].pdev ==> LoadedDevice(l, ds[..n]) == l
  {
    var a, b := H.Selected(ds[..n], l.pdev), H.Selected(ds[..n + 1], l.pdev);
    assert forall k :: 0 <= k < n ==> ds[..n + 1][k] == ds[..n][k];
    assert ds[..n + 1][n] == ds[n];
    if a < n {
      assert b == a;
    } else if l.pdev == ds[n].pdev {
      assert b == n;
    }
  }

  ghost predicate AllFresh(ls: seq<Device>) {
    forall i :: 0 <= i < |ls| ==> ls[i].toDraw == Marked({}, false)
  }

  lemma NextDevice(ls: seq<Device>, ds: seq<Device>, n: nat)
    requires n < |ds| && DistinctPdevs(ds) && DistinctPdevs(ls) && AllFresh(ls)
    ensures forall k :: 0 <= k < |ls| && ls[k].pdev == ds[n].pdev ==>
              LoadedDevices(ls, ds[..n])[k].toDraw == Marked({}, false)
    ensures var i := H.Selected(LoadedDevices(ls, ds[..n]), ds[n].pdev);
      LoadedDevices(ls, ds[..n + 1]) ==
      if i < |ls|
      then LoadedDevices(ls, ds[..n])[i := Device(ds[n].pdev, ds[n].doNotMonitor, Reloaded(ds[n].toDraw.chosen))]
      else LoadedDevices(ls, ds[..n])
  {
    var before := LoadedDevices(ls, ds[..n]);
    var i := H.Selected(before, ds[n].pdev);
    forall k: nat | k < |ls|
      ensures LoadedDevices(ls, ds[..n + 1])[k]
              == if k == i then Device(ds[n].pdev, ds[n].doNotMonitor, Reloaded(ds[n].toDraw.chosen)) else before[k]
      ensures ls[k].pdev == ds[n].pdev ==> before[k] == ls[k]
    {
      OneMoreSaved(ls[k], ds, n);
      if ls[k].pdev == ds[n].pdev {
        assert before[k].pdev == ds[n].pdev && i <= k;
        assert before[i].pdev == ls[i].pdev;
      }
    }
  }

  lemma NoneSaved(ls: seq<Device>)
    ensures LoadedDevices(ls, []) == ls
  {
  }

  lemma NextApplied(d: H.Data, ls: seq<Device>, ds: seq<Device>, k: nat, section: string, scan: H.TimerScan)
    requires k < |ds| && DistinctPdevs(ds) && DistinctPdevs(ls) && AllFresh(ls)
             && d.devices == LoadedDevices(ls, ds[..k])
    ensures Apply(d, DeviceItems(ds[k]), section, scan).devices == LoadedDevices(ls, ds[..k + 1])
    ensures Apply(d, DeviceItems(ds[k]), section, scan).settings == d.settings
  {
    NextDevice(ls, ds, k);
    DeviceApplied(d, ds[k], section, scan);
  }

  lemma {:induction false} DevicesApplied(d: H.Data, ls: seq<Device>, ds: seq<Device>, n: nat, section: string,
                                          scan: H.TimerScan)
    requires n <= |ds| && DistinctPdevs(ds) && DistinctPdevs(ls) && AllFresh(ls) && d.devices == ls
    ensures Apply(d, DevicesItems(ds, n), section, scan).devices == LoadedDevices(ls, ds[..n])
    ensures Apply(d, DevicesItems(ds, n), section, scan).settings == d.settings
  {
    if n == 0 {
      NoneSaved(ls);
      assert ds[..0] == [];
    } else {
      var k, before := n - 1, DevicesItems(ds, n - 1);
      DevicesApplied(d, ls, ds, k, section, scan);
      ApplyJoin(d, before, DeviceItems(ds[k]), section, scan);
      NextApplied(Apply(d, before, section, scan), ls, ds, k, LastSection(before, section), scan);
    }
  }

  // ----------------------------------------------------- the whole settings ----

  /** The notice at the beginning of the file. */
  lemma NoticeApplied(d: H.Data, scan: H.TimerScan)
    ensures Apply(d, NOTICE, "", scan) == d && LastSection(NOTICE, "") == ""
  {
    var a, b, c := NOTICE[0], NOTICE[1], NOTICE[2];
    assert NOTICE == [a, b, c] && [a, b, c][1..] == [b, c] && [b, c][1..] == [c];
    ApplyFirst(d, NOTICE, "", scan);
    ApplyFirst(d, [b, c], "", scan);
    ApplyOne(d, c, "", scan);
  }

  /** The timer as it is read back. */
  function TimerRead(s: Settings, timer: TimerText, scan: H.TimerScan, otherwise: real): real {
    if scan(timer(s.hideTimer)).Some? then scan(timer(s.hideTimer)).value else otherwise
  }

  /** Fresh settings after the handler has seen the saved ones. */
  function LoadedSettings(s: Settings, timer: TimerText, scan: H.TimerScan): Settings {
    s.(hideTimer := TimerRead(s, timer, scan, FRESH.hideTimer),
       sortBy := if s.sortBy.Some? then s.sortBy else FRESH.sortBy,
       fields := Marked(s.fields.chosen, s.fields.chosen != {}),
       plotHeightModifier := 0)
  }

  lemma ChartsApplied(d: H.Data, s: Settings, section: string, scan: H.TimerScan)
    requires ColorsOk(s.colors) && |d.settings.colors| == MAX_LINES_PER_PLOT
    ensures Apply(d, ChartItems(s) + ColorItems(s.colors, MAX_LINES_PER_PLOT), section, scan)
            == d.(settings := d.settings.(reverseChart := s.reverseChart, colors := s.colors))
    ensures LastSection(ChartItems(s) + ColorItems(s.colors, MAX_LINES_PER_PLOT), section) == CHART
  {
    ChartApplied(d, s, section, scan);
    ApplyJoin(d, ChartItems(s), ColorItems(s.colors, MAX_LINES_PER_PLOT), section, scan);
    ColorsApplied(Apply(d, ChartItems(s), section, scan), s.colors, MAX_LINES_PER_PLOT, scan);
    assert s.colors[..4] + d.settings.colors[4..] == s.colors;
  }

  /** The sections in front of the charts. */
  lemma FirstSectionsApplied(d: H.Data, s: Settings, timer: TimerText, scan: H.TimerScan)
    ensures Apply(d, NOTICE + GeneralItems(s) + HeaderItems(s, timer), "", scan) ==
            d.(settings := d.settings.(
                 useColor := s.useColor, updateInterval := s.updateInterval, showMessages := s.showMessages,
                 fahrenheit := s.fahrenheit, hideTimer := TimerRead(s, timer, scan, d.settings.hideTimer),
                 gpuInfoBar := s.gpuInfoBar))
    ensures LastSection(NOTICE + GeneralItems(s) + HeaderItems(s, timer), "") == HEADER
  {
    NoticeApplied(d, scan);
    ApplyJoin(d, NOTICE, GeneralItems(s), "", scan);
    GeneralApplied(d, s, "", scan);
    ApplyJoin(d, NOTICE + GeneralItems(s), HeaderItems(s, timer), "", scan);
    HeaderApplied(Apply(d, GeneralItems(s), "", scan), s, timer, GENERAL, scan);
  }

  lemma HeadOfFile(s: Settings, timer: TimerText)
    requires ColorsOk(s.colors)
    ensures HeadItems(s, timer) ==
            (NOTICE + GeneralItems(s) + HeaderItems(s, timer))
            + (ChartItems(s) + ColorItems(s.colors, MAX_LINES_PER_PLOT)) + ListItems(s)
  {
    var a, b, c, e := NOTICE + GeneralItems(s) + HeaderItems(s, timer), ChartItems(s),
                      ColorItems(s.colors, MAX_LINES_PER_PLOT), ListItems(s);
    assert (a + b + c) + e == (a + (b + c)) + e;
  }

  lemma SettingsApplied(d: H.Data, s: Settings, timer: TimerText, scan: H.TimerScan)
    requires ColorsOk(s.colors) && d.settings == FRESH
    ensures Apply(d, SettingsItems(s, timer), "", scan) == d.(settings := LoadedSettings(s, timer, scan))
  {
    var first, charts :=
      NOTICE + GeneralItems(s) + HeaderItems(s, timer), ChartItems(s) + ColorItems(s.colors, MAX_LINES_PER_PLOT);
    var columns := OrNone(FieldItems(s.fields.chosen, |ALL_FIELDS|), DISPLAY_FIELD);
    HeadOfFile(s, timer);
    FirstSectionsApplied(d, s, timer, scan);
    ApplyJoin(d, first, charts, "", scan);
    var d1 := Apply(d, first, "", scan);
    ChartsApplied(d1, s, HEADER, scan);
    var d2 := Apply(d1, charts, HEADER, scan);
    ApplyJoin(d, first + charts, ListItems(s), "", scan);
    ListApplied(d2, s, CHART, scan);
    var d3 := Apply(d2, ListItems(s), CHART, scan);
    ApplyJoin(d, HeadItems(s, timer), columns, "", scan);
    ColumnsApplied(d3, s.fields.chosen, scan);
  }

  // ---------------------------------------------------------------- results ----

  /** The parser calls the handler for every saved pair. */
  lemma SavedIsParsed(s: Settings, ds: seq<Device>, timer: TimerText)
    requires ColorsOk(s.colors) && ValueOk(timer(s.hideTimer)) && forall i :: 0 <= i < |ds| ==> PdevOk(ds[i].pdev)
    ensures Parse(ACCEPT, Text(FileItems(s, ds, timer))) == Parsed(CallsOf(FileItems(s, ds, timer), ""), 0)
  {
    FileWell(s, ds, timer);
    RoundTrip(ACCEPT, FileItems(s, ds, timer));
  }

  /** The sort column after loading. */
  function SortAfterLoading(s: Settings): Option<Field> {
    var f := if s.sortBy.Some? then s.sortBy.value else CpuPct;
    if f in s.fields.chosen then Some(f) else DefaultSortBy(s.fields.chosen)
  }

  /** The settings that loading gives back. */
  function RestoredSettings(s: Settings, timer: TimerText, scan: H.TimerScan): Settings {
    s.(hideTimer := TimerRead(s, timer, scan, FRESH.hideTimer),
       sortBy := SortAfterLoading(s),
       fields := Marked(if s.fields.chosen == {} then DEFAULT_FIELDS else s.fields.chosen, false),
       plotHeightModifier := 0)
  }

  /** A device that loading gives back: as it was saved, or with defaults if it was not. */
  function RestoredDevice(pdev: string, ds: seq<Device>, draw: DrawDefault): Device {
    var j := H.Selected(ds, pdev);
    if j < |ds| then Device(pdev, ds[j].doNotMonitor, Marked(Drawn(ds[j].toDraw.chosen), false))
    else Device(pdev, false, Marked(draw(pdev), false))
  }

  lemma FreshAreDistinct(pdevs: seq<string>)
    requires forall i, j :: 0 <= i < j < |pdevs| ==> pdevs[i] != pdevs[j]
    ensures DistinctPdevs(FreshDevices(pdevs)) && AllFresh(FreshDevices(pdevs))
  {
  }

  /**
   Loading a saved file: whatever the options were, and in whatever order and
   number the devices are found, this is what comes back.
   */
  lemma LoadingSaved(s: Settings, ds: seq<Device>, timer: TimerText, scan: H.TimerScan, pdevs: seq<string>,
                     draw: DrawDefault)
    requires ColorsOk(s.colors) && ValueOk(timer(s.hideTimer)) && forall i :: 0 <= i < |ds| ==> PdevOk(ds[i].pdev)
    requires DistinctPdevs(ds) && forall i, j :: 0 <= i < j < |pdevs| ==> pdevs[i] != pdevs[j]
    ensures var loaded := ParsedOptions(Text(FileItems(s, ds, timer)), pdevs, scan);
      && FinishSettings(FixSort(loaded.settings)) == RestoredSettings(s, timer, scan)
      && |loaded.devices| == |pdevs|
      && (forall i :: 0 <= i < |pdevs| ==> FinishDevices(loaded.devices, draw)[i] == RestoredDevice(pdevs[i], ds, draw))
  {
    var ls := FreshDevices(pdevs);
    var d := H.Data(|pdevs|, FRESH, ls);
    var settings := SettingsItems(s, timer);
    SavedIsParsed(s, ds, timer);
    FreshAreDistinct(pdevs);
    SettingsApplied(d, s, timer, scan);
    ApplyJoin(d, settings, DevicesItems(ds, |ds|), "", scan);
    DevicesApplied(Apply(d, settings, "", scan), ls, ds, |ds|, LastSection(settings, ""), scan);
    assert ds[..|ds|] == ds;
    SettingsFinish(s, timer, scan);
    DevicesFinish(pdevs, ds, draw);
  }

  lemma SortFixed(l: Settings)
    requires l.sortBy.Some?
    ensures FixSort(l)
            == l.(sortBy := if l.sortBy.value in l.fields.chosen then l.sortBy else DefaultSortBy(l.fields.chosen))
  {
  }

  lemma SettingsFinish(s: Settings, timer: TimerText, scan: H.TimerScan)
    ensures FinishSettings(FixSort(LoadedSettings(s, timer, scan))) == RestoredSettings(s, timer, scan)
  {
    var l := LoadedSettings(s, timer, scan);
    SortFixed(l);
    assert FixSort(l) == l.(sortBy := SortAfterLoading(s));
  }

  lemma DevicesFinish(pdevs: seq<string>, ds: seq<Device>, draw: DrawDefault)
    ensures forall i :: 0 <= i < |pdevs| ==>
              FinishDevices(LoadedDevices(FreshDevices(pdevs), ds), draw)[i] == RestoredDevice(pdevs[i], ds, draw)
  {
  }

  /**
   Settings in use (the mark is cleared) come back unchanged if and only if the
   timer survives printing, some column is displayed, the sort column is displayed
   or is the default for the columns, and the plot height is not modified.
   */
  lemma SettingsComeBack(s: Settings, timer: TimerText, scan: H.TimerScan)
    requires !s.fields.marked
    ensures RestoredSettings(s, timer, scan) == s <==>
            && TimerRead(s, timer, scan, FRESH.hideTimer) == s.hideTimer
            && s.fields.chosen != {}
            && ((s.sortBy.Some? && s.sortBy.value in s.fields.chosen) || s.sortBy == DefaultSortBy(s.fields.chosen))
            && s.plotHeightModifier == 0
  {
    assert Pid in DEFAULT_FIELDS;
    SortComesBack(s);
  }

  /** The sort column comes back if and only if it is displayed, or is the default. */
  lemma SortComesBack(s: Settings)
    ensures SortAfterLoading(s) == s.sortBy <==>
            (s.sortBy.Some? && s.sortBy.value in s.fields.chosen) || s.sortBy == DefaultSortBy(s.fields.chosen)
  {
    DefaultIsDisplayed(s.fields.chosen);
  }

  /** The default sort column is displayed, if there is one. */
  lemma DefaultIsDisplayed(fields: set<Field>)
    ensures DefaultSortBy(fields).Some? ==> DefaultSortBy(fields).value in fields
    ensures CpuPct in fields ==> DefaultSortBy(fields) == Some(CpuPct)
  {
    FirstIsIn([CpuPct, Memory, CpuMemUsage, GpuRate, CpuUsage, Command, Type, EncRate, DecRate, User, GpuId, Pid],
              fields);
  }

  lemma {:induction false} FirstIsIn(candidates: seq<Field>, fields: set<Field>)
    ensures FirstOf(candidates, fields).Some? ==> FirstOf(candidates, fields).value in fields
    ensures FirstOf(candidates, fields).None? <==> forall i :: 0 <= i < |candidates| ==> candidates[i] !in fields
  {
    if candidates != [] {
      FirstIsIn(candidates[1..], fields);
      if candidates[0] !in fields && FirstOf(candidates[1..], fields).None? {
        assert forall i :: 1 <= i < |candidates| ==> candidates[i] == candidates[1..][i - 1];
      } else if candidates[0] !in fields {
        var i :| 0 <= i < |candidates[1..]| && candidates[1..][i] in fields;
        assert candidates[i + 1] in fields;
      }
    }
  }

  /** A saved device comes back unchanged if and only if it draws at most four metrics. */
  lemma DeviceComesBack(ds: seq<Device>, j: nat, draw: DrawDefault)
    requires DistinctPdevs(ds) && j < |ds| && !ds[j].toDraw.marked
    ensures RestoredDevice(ds[j].pdev, ds, draw) == ds[j] <==> |ds[j].toDraw.chosen| <= MAX_LINES_PER_PLOT
  {
    SelectedAt(ds, j);
    DrawnSetRestored(ds[j].toDraw.chosen);
  }
}
