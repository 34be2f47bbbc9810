/** The words of the configuration file (src/interface_options.c:167-209) and their lookup. */
module ConfigNames {
  import opened Sequences
  import opened ProcessFields

  const GENERAL := "GeneralOption"
  const USE_COLOR := "UseColor"
  const UPDATE_INTERVAL := "UpdateInterval"
  const SHOW_MESSAGES := "ShowInfoMessages"

  const HEADER := "HeaderOption"
  const USE_FAHRENHEIT := "UseFahrenheit"
  const HIDE_TIMER := "EncodeHideTimer"
  const GPU_INFO_BAR := "GPUInfoBar"

  const CHART := "ChartOption"
  const REVERSE_CHART := "ReverseChart"
  const PLOT_COLORS: seq<string> := ["GpuPlotColor0", "GpuPlotColor1", "GpuPlotColor2", "GpuPlotColor3"]
  const COLOR_NAMES: seq<string> := ["Red", "Cyan", "Green", "Yellow", "Blue", "Magenta", "White"]

  const PROCESS_LIST := "ProcessListOption"
  const HIDE_LIST := "HideNvtopProcessList"
  const HIDE_NVTOP := "HideNvtopProcess"
  const SORT_BY := "SortBy"
  const DISPLAY_FIELD := "DisplayField"
  const SORT_ORDER := "SortOrder"
  const DESCENDING := "descending"
  const ASCENDING := "ascending"

  /** In the order of ProcessFields.ALL_FIELDS; "none" stands for no field. */
  const FIELD_NAMES: seq<string> :=
    ["pId", "user", "ppid", "priority", "nice", "state", "threads", "virt", "res", "shr", "cpuPct", "time", "gpuId",
     "type", "gpuRate", "encRate", "decRate", "memory", "cpuUsage", "cpuMem", "cmdline"]

  const DEVICE := "Device"
  const PDEV := "Pdev"
  const MONITOR := "Monitor"
  const SHOWN_INFO := "ShownInfo"

  /** enum plot_information. */
  datatype Metric =
    | ShowGpuRate | ShowGpuMemRate | ShowEncodeRate | ShowDecodeRate | ShowTemperature
    | ShowPowerDrawRate | ShowFanSpeed | ShowGpuClockRate | ShowGpuMemClockRate | ShowEffectiveLoadRate
    | ShowPcieRxRate | ShowPcieTxRate | ShowHvxUtilRate | ShowHmxUtilRate

  const ALL_METRICS: seq<Metric> :=
    [ShowGpuRate, ShowGpuMemRate, ShowEncodeRate, ShowDecodeRate, ShowTemperature,
     ShowPowerDrawRate, ShowFanSpeed, ShowGpuClockRate, ShowGpuMemClockRate, ShowEffectiveLoadRate,
     ShowPcieRxRate, ShowPcieTxRate, ShowHvxUtilRate, ShowHmxUtilRate]

  const METRIC_NAMES: seq<string> :=
    ["gpuRate", "gpuMemRate", "encodeRate", "decodeRate", "temperature",
     "powerDrawRate", "fanSpeed", "gpuClockRate", "gpuMemClockRate", "effectiveLoadRate",
     "pcieRxRate", "pcieTxRate", "hvxUtilRate", "hmxUtilRate"]

  const NONE := "none"

  lemma ColorNamesDistinct()
    ensures Distinct(COLOR_NAMES) && Distinct(PLOT_COLORS)
  {
  }

  lemma FieldNamesDistinct()
    ensures |FIELD_NAMES| == |ALL_FIELDS| == 21 && Distinct(FIELD_NAMES) && NONE !in FIELD_NAMES
  {
  }

  lemma MetricNamesDistinct()
    ensures |METRIC_NAMES| == |ALL_METRICS| == 14 && Distinct(METRIC_NAMES) && NONE !in METRIC_NAMES
  {
  }

  // ----------------------------------------------------------------- words ----

  predicate IsWordChar(c: char) {
    'a' <= c <= 'z' || 'A' <= c <= 'Z' || '0' <= c <= '9'
  }

  /** A short word of letters and digits. */
  ghost predicate IsWord(s: string) {
    0 < |s| <= 24 && forall i :: 0 <= i < |s| ==> IsWordChar(s[i])
  }

  ghost predicate AreWords(names: seq<string>) {
    forall i :: 0 <= i < |names| ==> IsWord(names[i])
  }

  lemma GeneralNamesAreWords()
    ensures IsWord(GENERAL) && IsWord(USE_COLOR) && IsWord(UPDATE_INTERVAL) && IsWord(SHOW_MESSAGES)
    ensures IsWord(CHART) && IsWord(REVERSE_CHART)
  {
  }

  lemma HeaderNamesAreWords()
    ensures IsWord(HEADER) && IsWord(USE_FAHRENHEIT) && IsWord(HIDE_TIMER) && IsWord(GPU_INFO_BAR)
  {
  }

  lemma SettingsAreWords()
    ensures IsWord(GENERAL) && IsWord(USE_COLOR) && IsWord(UPDATE_INTERVAL) && IsWord(SHOW_MESSAGES)
    ensures IsWord(HEADER) && IsWord(USE_FAHRENHEIT) && IsWord(HIDE_TIMER) && IsWord(GPU_INFO_BAR)
    ensures IsWord(CHART) && IsWord(REVERSE_CHART)
  {
    GeneralNamesAreWords();
    HeaderNamesAreWords();
  }

  lemma ProcessNamesAreWords()
    ensures IsWord(PROCESS_LIST) && IsWord(HIDE_LIST) && IsWord(HIDE_NVTOP) && IsWord(SORT_BY) && IsWord(DISPLAY_FIELD)
  {
  }

  lemma OrderNamesAreWords()
    ensures IsWord(SORT_ORDER) && IsWord(DESCENDING) && IsWord(ASCENDING)
  {
  }

  lemma DeviceNamesAreWords()
    ensures IsWord(DEVICE) && IsWord(PDEV) && IsWord(MONITOR) && IsWord(SHOWN_INFO) && IsWord(NONE)
  {
  }

  lemma ListsAreWords()
    ensures IsWord(PROCESS_LIST) && IsWord(HIDE_LIST) && IsWord(HIDE_NVTOP) && IsWord(SORT_BY) && IsWord(DISPLAY_FIELD)
    ensures IsWord(SORT_ORDER) && IsWord(DESCENDING) && IsWord(ASCENDING)
    ensures IsWord(DEVICE) && IsWord(PDEV) && IsWord(MONITOR) && IsWord(SHOWN_INFO) && IsWord(NONE)
  {
    ProcessNamesAreWords();
    OrderNamesAreWords();
    DeviceNamesAreWords();
  }

  lemma ColorsAreWords()
    ensures AreWords(PLOT_COLORS) && AreWords(COLOR_NAMES)
  {
  }

  lemma FieldsAreWords()
    ensures AreWords(FIELD_NAMES)
  {
  }

  lemma ShortMetricsAreWords()
    ensures IsWord("gpuRate") && IsWord("gpuMemRate") && IsWord("encodeRate") && IsWord("decodeRate")
    ensures IsWord("temperature") && IsWord("fanSpeed")
  {
  }

  lemma RateMetricsAreWords()
    ensures IsWord("powerDrawRate") && IsWord("gpuClockRate") && IsWord("gpuMemClockRate")
            && IsWord("effectiveLoadRate")
  {
  }

  lemma BusMetricsAreWords()
    ensures IsWord("pcieRxRate") && IsWord("pcieTxRate") && IsWord("hvxUtilRate") && IsWord("hmxUtilRate")
  {
  }

  lemma MetricsAreWords()
    ensures AreWords(METRIC_NAMES)
  {
    ShortMetricsAreWords();
    RateMetricsAreWords();
    BusMetricsAreWords();
  }

  // ---------------------------------------------------------------- lookup ----

  /** The place of a word in a list; its length if it is not there. */
  function IndexOf(names: seq<string>, value: string): (i: nat)
    ensures i <= |names| && (i < |names| ==> names[i] == value)
    ensures forall k :: 0 <= k < i ==> names[k] != value
  {
    if names == [] || names[0] == value then 0 else 1 + IndexOf(names[1..], value)
  }

  lemma IndexOfName(names: seq<string>, i: nat)
    requires Distinct(names) && i < |names|
    ensures IndexOf(names, names[i]) == i
  {
    var k := IndexOf(names, names[i]);
    assert k <= i;
  }

  lemma IndexOfOther(names: seq<string>, value: string)
    requires value !in names
    ensures IndexOf(names, value) == |names|
  {
  }

  /** The loops of the option handler over a list of names: strcmp with every one. */
  method LookUp(names: seq<string>, value: string) returns (i: nat)
    requires Distinct(names)
    ensures i == IndexOf(names, value)
  {
    i := |names|;
    for k := 0 to |names|
      invariant i < |names| ==> i < k && names[i] == value
      invariant i >= |names| ==> i == |names| && forall j :: 0 <= j < k ==> names[j] != value
    {
      if value == names[k] {
        i := k;
      }
    }
    if i < |names| {
      IndexOfName(names, i);
    }
  }

  // ------------------------------------------------------------- booleans ----

  /** boolean_string. */
  function BooleanString(b: bool): (s: string) {
    if b then "true" else "false"
  }

  /** The handler sets a flag for "true" and "false", and leaves it for any other text. */
  function FlagOf(value: string, current: bool): bool {
    if value == "true" then true else if value == "false" then false else current
  }

  lemma FlagRoundTrip(b: bool, current: bool)
    ensures FlagOf(BooleanString(b), current) == b && IsWord(BooleanString(b))
  {
  }
}
