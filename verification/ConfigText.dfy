/** Every line of a saved file is one the parser reads back. */
module ConfigText {
  import opened PlotLimits
  import opened Options
  import opened CIntegers
  import opened Decimal
  import opened ProcessFields
  import opened ConfigNames
  import opened ConfigFile
  import opened IniText
  import opened IniParser
  import opened IniRoundTrip

  ghost predicate AllWell(items: seq<Item>) {
    forall i :: 0 <= i < |items| ==> WellFormed(items[i])
  }

  lemma WellJoin(a: seq<Item>, b: seq<Item>)
    requires AllWell(a) && AllWell(b)
    ensures AllWell(a + b)
  {
  }

  /** A value that can be printed and read back. */
  ghost predicate ValueOk(v: string) {
    |v| < 100 && Plain(v, "") && Trimmed(v) && (v != [] ==> v[0] != INLINE_COMMENT)
  }

  lemma WordIsPlain(w: string)
    requires IsWord(w)
    ensures Plain(w, "=:") && Plain(w, "]") && Trimmed(w) && ValueOk(w) && w[0] != '[' && !StartsComment(w[0])
  {
  }

  lemma WordPair(name: string, value: string)
    requires IsWord(name) && ValueOk(value)
    ensures AllWell([Pair(name, value)])
  {
    WordIsPlain(name);
  }

  lemma WordPairs(name: string, value: string)
    requires IsWord(name) && IsWord(value)
    ensures AllWell([Pair(name, value)])
  {
    WordIsPlain(value);
    WordPair(name, value);
  }

  lemma WordSection(name: string)
    requires IsWord(name)
    ensures AllWell([Section(name)]) && AllWell([Blank, Section(name)])
  {
    WordIsPlain(name);
  }

  lemma FlagPair(name: string, b: bool)
    requires IsWord(name)
    ensures AllWell([Pair(name, BooleanString(b))])
  {
    FlagRoundTrip(b, b);
    WordPairs(name, BooleanString(b));
  }

  function Pow10(k: nat): nat { if k == 0 then 1 else 10 * Pow10(k - 1) }

  lemma {:induction false} DigitsLength(n: nat, k: nat)
    requires k > 0 && n < Pow10(k)
    ensures |Digits(n)| <= k
  {
    if n >= 10 {
      DigitsLength(n / 10, k - 1);
    }
  }

  lemma IntValue(n: CInt)
    ensures ValueOk(Print(n))
  {
    var m: int := n;
    assert Pow10(5) == 100000 && Pow10(10) == 100000 * 100000;
    DigitsLength(if m < 0 then -m else m, 10);
  }

  ghost predicate Short(s: string) {
    |s| <= 50 && forall i :: 0 <= i < |s| ==> s[i] != '\n'
  }

  lemma NoticePieces()
    ensures Short(NOTICE_1) && Short(NOTICE_2A) && Short(NOTICE_2B)
    ensures Short(NOTICE_3A) && Short(NOTICE_3B) && Short(NOTICE_3C)
  {
  }

  lemma NoticeWell()
    ensures AllWell(NOTICE) && !HasBom(ItemLine(NOTICE[0]))
  {
    NoticePieces();
    CommentWell(NOTICE_1, "");
    CommentWell(NOTICE_2A, NOTICE_2B);
    CommentWell(NOTICE_3A + NOTICE_3B, NOTICE_3C);
    assert NOTICE_1 + "" == NOTICE_1;
    assert ItemLine(NOTICE[0])[0] == ';';
  }

  lemma CommentWell(a: string, b: string)
    requires |a| <= 100 && |b| <= 50 && forall i :: 0 <= i < |a + b| ==> (a + b)[i] != '\n'
    ensures WellFormed(Comment(a + b)) && ItemLine(Comment(a + b))[0] == ';'
  {
  }

  lemma WellFour(head: seq<Item>, a: Item, b: Item, c: Item)
    requires AllWell(head) && AllWell([a]) && AllWell([b]) && AllWell([c])
    ensures AllWell(head + [a] + [b] + [c])
  {
    WellJoin(head, [a]);
    WellJoin(head + [a], [b]);
    WellJoin(head + [a] + [b], [c]);
  }

  lemma GeneralWell(s: Settings)
    ensures AllWell(GeneralItems(s))
  {
    var a, b, c := Pair(USE_COLOR, BooleanString(s.useColor)), Pair(UPDATE_INTERVAL, Print(s.updateInterval)),
                   Pair(SHOW_MESSAGES, BooleanString(s.showMessages));
    SettingsAreWords();
    WordSection(GENERAL);
    FlagPair(USE_COLOR, s.useColor);
    IntValue(s.updateInterval);
    WordPair(UPDATE_INTERVAL, Print(s.updateInterval));
    FlagPair(SHOW_MESSAGES, s.showMessages);
    WellFour([Section(GENERAL)], a, b, c);
    assert GeneralItems(s) == [Section(GENERAL)] + [a] + [b] + [c];
  }

  lemma HeaderWell(s: Settings, timer: TimerText)
    requires ValueOk(timer(s.hideTimer))
    ensures AllWell(HeaderItems(s, timer))
  {
    var a, b, c := Pair(USE_FAHRENHEIT, BooleanString(s.fahrenheit)), Pair(HIDE_TIMER, timer(s.hideTimer)),
                   Pair(GPU_INFO_BAR, BooleanString(s.gpuInfoBar));
    SettingsAreWords();
    WordSection(HEADER);
    FlagPair(USE_FAHRENHEIT, s.fahrenheit);
    WordPair(HIDE_TIMER, timer(s.hideTimer));
    FlagPair(GPU_INFO_BAR, s.gpuInfoBar);
    WellFour([Blank, Section(HEADER)], a, b, c);
    assert HeaderItems(s, timer) == [Blank, Section(HEADER)] + [a] + [b] + [c];
  }

  lemma ChartWell(s: Settings)
    ensures AllWell(ChartItems(s))
  {
    var a := Pair(REVERSE_CHART, BooleanString(s.reverseChart));
    SettingsAreWords();
    WordSection(CHART);
    FlagPair(REVERSE_CHART, s.reverseChart);
    WellJoin([Blank, Section(CHART)], [a]);
    assert ChartItems(s) == [Blank, Section(CHART)] + [a];
  }

  lemma {:induction false} ColorsWell(colors: seq<nat>, n: nat)
    requires n <= MAX_LINES_PER_PLOT && ColorsOk(colors)
    ensures AllWell(ColorItems(colors, n))
  {
    if n > 0 {
      ColorsWell(colors, n - 1);
      ColorsAreWords();
      var item := Pair(PLOT_COLORS[n - 1], COLOR_NAMES[colors[n - 1]]);
      WordPairs(PLOT_COLORS[n - 1], COLOR_NAMES[colors[n - 1]]);
      WellJoin(ColorItems(colors, n - 1), [item]);
    }
  }

  lemma NamesWell(f: Option<Field>)
    ensures IsWord(FieldName(f))
  {
    FieldsAreWords();
    ListsAreWords();
  }

  lemma ListWell(s: Settings)
    ensures AllWell(ListItems(s))
  {
    var a, b := Pair(HIDE_LIST, BooleanString(s.hideList)), Pair(HIDE_NVTOP, BooleanString(s.hideNvtop));
    var c, e := Pair(SORT_ORDER, if s.descending then DESCENDING else ASCENDING), Pair(SORT_BY, FieldName(s.sortBy));
    ListsAreWords();
    WordSection(PROCESS_LIST);
    FlagPair(HIDE_LIST, s.hideList);
    FlagPair(HIDE_NVTOP, s.hideNvtop);
    WordPairs(SORT_ORDER, if s.descending then DESCENDING else ASCENDING);
    NamesWell(s.sortBy);
    WordPairs(SORT_BY, FieldName(s.sortBy));
    WellFour([Blank, Section(PROCESS_LIST)], a, b, c);
    WellJoin([Blank, Section(PROCESS_LIST)] + [a] + [b] + [c], [e]);
    assert ListItems(s) == [Blank, Section(PROCESS_LIST)] + [a] + [b] + [c] + [e];
  }

  lemma {:induction false} FieldsWell(fields: set<Field>, n: nat)
    requires n <= |ALL_FIELDS|
    ensures |FIELD_NAMES| == |ALL_FIELDS| && AllWell(FieldItems(fields, n))
  {
    FieldNamesDistinct();
    if n > 0 {
      FieldsWell(fields, n - 1);
      FieldsAreWords();
      ListsAreWords();
      WordPairs(DISPLAY_FIELD, FIELD_NAMES[n - 1]);
      WellJoin(FieldItems(fields, n - 1), [Pair(DISPLAY_FIELD, FIELD_NAMES[n - 1])]);
    }
  }

  lemma {:induction false} MetricsWell(metrics: set<Metric>, n: nat)
    requires n <= |ALL_METRICS|
    ensures |METRIC_NAMES| == |ALL_METRICS| && AllWell(MetricItems(metrics, n))
  {
    MetricNamesDistinct();
    if n > 0 {
      MetricsWell(metrics, n - 1);
      MetricsAreWords();
      ListsAreWords();
      WordPairs(SHOWN_INFO, METRIC_NAMES[n - 1]);
      WellJoin(MetricItems(metrics, n - 1), [Pair(SHOWN_INFO, METRIC_NAMES[n - 1])]);
    }
  }

  lemma OrNoneWell(items: seq<Item>, name: string)
    requires AllWell(items) && IsWord(name)
    ensures AllWell(OrNone(items, name))
  {
    ListsAreWords();
    WordPairs(name, NONE);
  }

  lemma DeviceWell(d: Device)
    requires PdevOk(d.pdev)
    ensures |METRIC_NAMES| == |ALL_METRICS| && AllWell(DeviceItems(d))
  {
    var a, b := Pair(PDEV, d.pdev), Pair(MONITOR, BooleanString(!d.doNotMonitor));
    var head := [Blank, Section(DEVICE)];
    ListsAreWords();
    WordSection(DEVICE);
    WordPair(PDEV, d.pdev);
    FlagPair(MONITOR, !d.doNotMonitor);
    MetricsWell(d.toDraw.chosen, |ALL_METRICS|);
    OrNoneWell(MetricItems(d.toDraw.chosen, |ALL_METRICS|), SHOWN_INFO);
    var shown := OrNone(MetricItems(d.toDraw.chosen, |ALL_METRICS|), SHOWN_INFO);
    WellJoin(head, [a]);
    WellJoin(head + [a], [b]);
    assert DeviceHead(d) == head + [a] + [b];
    WellJoin(DeviceHead(d), shown);
    assert [Blank] == [Blank, Section(DEVICE)][..1];
    WellJoin(DeviceHead(d) + shown, [Blank]);
  }

  lemma {:induction false} DevicesWell(ds: seq<Device>, n: nat)
    requires n <= |ds| && forall i :: 0 <= i < |ds| ==> PdevOk(ds[i].pdev)
    ensures AllWell(DevicesItems(ds, n))
  {
    if n > 0 {
      DevicesWell(ds, n - 1);
      var d := ds[n - 1];
      DeviceWell(d);
      NextWell(ds, n);
    }
  }

  lemma NextWell(ds: seq<Device>, n: nat)
    requires 0 < n <= |ds| && AllWell(DevicesItems(ds, n - 1)) && AllWell(DeviceItems(ds[n - 1]))
    ensures AllWell(DevicesItems(ds, n))
  {
    WellJoin(DevicesItems(ds, n - 1), DeviceItems(ds[n - 1]));
  }

  lemma HeadWell(s: Settings, timer: TimerText)
    requires ColorsOk(s.colors) && ValueOk(timer(s.hideTimer))
    ensures AllWell(HeadItems(s, timer)) && HeadItems(s, timer) != [] && HeadItems(s, timer)[0] == NOTICE[0]
  {
    NoticeWell();
    GeneralWell(s);
    HeaderWell(s, timer);
    ChartWell(s);
    ColorsWell(s.colors, MAX_LINES_PER_PLOT);
    ListWell(s);
    var a := NOTICE + GeneralItems(s);
    WellJoin(NOTICE, GeneralItems(s));
    WellJoin(a, HeaderItems(s, timer));
    WellJoin(a + HeaderItems(s, timer), ChartItems(s));
    WellJoin(a + HeaderItems(s, timer) + ChartItems(s), ColorItems(s.colors, MAX_LINES_PER_PLOT));
    WellJoin(a + HeaderItems(s, timer) + ChartItems(s) + ColorItems(s.colors, MAX_LINES_PER_PLOT), ListItems(s));
  }

  lemma FileWell(s: Settings, ds: seq<Device>, timer: TimerText)
    requires ColorsOk(s.colors) && ValueOk(timer(s.hideTimer)) && forall i :: 0 <= i < |ds| ==> PdevOk(ds[i].pdev)
    ensures AllWell(FileItems(s, ds, timer)) && FileItems(s, ds, timer) != []
    ensures !HasBom(ItemLine(FileItems(s, ds, timer)[0]))
  {
    HeadWell(s, timer);
    NoticeWell();
    ListsAreWords();
    FieldsWell(s.fields.chosen, |ALL_FIELDS|);
    OrNoneWell(FieldItems(s.fields.chosen, |ALL_FIELDS|), DISPLAY_FIELD);
    DevicesWell(ds, |ds|);
    WellJoin(HeadItems(s, timer), OrNone(FieldItems(s.fields.chosen, |ALL_FIELDS|), DISPLAY_FIELD));
    WellJoin(SettingsItems(s, timer), DevicesItems(ds, |ds|));
  }
}
