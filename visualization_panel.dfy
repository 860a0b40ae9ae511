/** The visualization panel: the user picks a group, a 1-based channel in
    that group, a sample rate and a tab; plotting sends the chosen column
    of the data to the engine's time-domain or spectrum plot. Qt's widgets
    appear as the values they hold; message boxes as notices. */
module Visualization {
  import opened Tables
  import opened Channels
  import opened Labels
  import opened Matlab
  import opened FileHandling
  import ImportDialog

  const TimeTitle: string := "时域波形图"
  const FreqTitle: string := "频域功率谱图"
  const MinSampleRate: real := 1.0
  const MaxSampleRate: real := 10000.0
  const DefaultSampleRate: real := 1000.0

  /** `len(data_mapping[group])` for the group the data-type combo shows,
      0 for any other text. */
  function ChannelCount(m: Mapping, dataType: string): nat
    requires Complete(m)
  {
    match GroupOfLabel(dataType)
    case Some(g) => |m[g]|
    case None => 0
  }

  /** `_get_selected_data` as a value: None (after a warning) without data
      or mapping, for an unknown group or a channel past the group's end;
      IndexError when the mapped column lies outside the table; otherwise
      that column. */
  function Selection<T>(data: Option<Table<T>>, mapping: Option<Mapping>, dataType: string, channel: int)
    : Outcome<Option<seq<T>>>
    requires mapping.Some? ==> Complete(mapping.value)
    requires channel >= 1
  {
    if data.None? || mapping.None? then Normal(None)
    else
      match GroupOfLabel(dataType)
      case None => Normal(None)
      case Some(g) =>
        var cols := mapping.value[g];
        if channel - 1 >= |cols| then Normal(None)
        else if cols[channel - 1] >= data.value.width then IndexError
        else Normal(Some(Column(data.value, cols[channel - 1])))
  }

  /** For a shown group, the selection is channel `channel` of that group:
      the column it names when that column exists, IndexError when it does
      not, and nothing past the group's end. */
  lemma SelectionOfGroup<T>(t: Table<T>, m: Mapping, g: Group, channel: int)
    requires Complete(m) && channel >= 1
    ensures var sel := Selection(Some(t), Some(m), GroupLabel(g), channel);
      && (sel.Normal? && sel.value.Some? <==> channel <= |m[g]| && m[g][channel - 1] < t.width)
      && (sel == IndexError <==> channel <= |m[g]| && m[g][channel - 1] >= t.width)
      && (sel.Normal? && sel.value.Some? ==> sel.value.value == Column(t, m[g][channel - 1]))
  {
    assert GroupOfLabel(GroupLabel(g)) == Some(g);
  }

  /** A mapping that fits the table never makes plotting raise. */
  lemma FittingMappingNeverRaises<T>(t: Table<T>, m: Mapping, dataType: string, channel: int)
    requires Complete(m) && FitsWidth(m, t.width) && channel >= 1
    ensures Selection(Some(t), Some(m), dataType, channel) != IndexError
  {
    var g := GroupOfLabel(dataType);
    if g.Some? && channel - 1 < |m[g.value]| {
      assert m[g.value][channel - 1] < t.width;
    }
  }

  /** In particular, the mapping the import dialog builds from combos that
      show its own items never makes plotting raise. */
  lemma ImportedMappingNeverRaises<T>(t: Table<T>, combos: seq<int>, dataType: string, channel: int)
    requires |combos| == ImportDialog.ComboCount
    requires forall k :: 0 <= k < ImportDialog.ComboCount ==> combos[k] < |ComboOptions(t.width)|
    requires channel >= 1
    ensures Selection(Some(t), Some(ImportDialog.MappingOf(combos)), dataType, channel) != IndexError
  {
    ImportDialog.MappingOfShape(combos, t.width);
    FittingMappingNeverRaises(t, ImportDialog.MappingOf(combos), dataType, channel);
  }

  /** The panel plots what the converted file stores: channel `k` of an
      acceleration or gyroscope selection is column `k - 1` of that
      group's saved array. */
  lemma PlottedChannelIsSaved<T>(t: Table<T>, m: Mapping, g: Group, channel: int)
    requires Complete(m) && channel >= 1 && g != Noise
    requires MappedData(t, m).Normal?
    requires var sel := Selection(Some(t), Some(m), GroupLabel(g), channel); sel.Normal? && sel.value.Some?
    ensures GroupField(g) in MappedData(t, m).value
    ensures var saved := MappedData(t, m).value[GroupField(g)];
      && saved.Matrix? && channel - 1 < saved.table.width
      && Column(saved.table, channel - 1) == Selection(Some(t), Some(m), GroupLabel(g), channel).value.value
  {
    SelectionOfGroup(t, m, g, channel);
    MappedDataEntries(t, m);
  }

  class VisualizationPanel<T> {
    var matlab: MatlabInterface?<T>
    var currentData: Option<Table<T>>
    var dataMapping: Option<Mapping>
    /** The data-type combo's current text. */
    var dataType: string
    /** The channel spin box's value and maximum (its minimum is 1). */
    var channel: int
    var channelMax: int
    var sampleRate: real
    /** The tab widget's current index: 0 time domain, 1 spectrum. */
    var currentTab: nat
    var notices: seq<Notice>

    /** The widgets hold values their ranges allow, and any mapping has the
        three groups. */
    ghost predicate Valid()
      reads this
    {
      && 1 <= channel <= channelMax
      && GroupOfLabel(dataType).Some?
      && MinSampleRate <= sampleRate <= MaxSampleRate
      && currentTab < 2
      && (dataMapping.Some? ==> Complete(dataMapping.value))
    }

    constructor (matlab: MatlabInterface?<T>)
      ensures Valid() && this.matlab == matlab && currentData == None && dataMapping == None
      ensures dataType == GroupLabel(Acceleration) && channel == 1 && channelMax == 3
      ensures sampleRate == DefaultSampleRate && currentTab == 0 && notices == []
    {
      this.matlab := matlab;
      currentData := None;
      dataMapping := None;
      dataType := GroupLabel(Acceleration);
      channel := 1;
      channelMax := 3;
      sampleRate := DefaultSampleRate;
      currentTab := 0;
      notices := [];
    }

    /** `set_data`: both are stored and the channel range follows the
        mapping. */
    method SetData(data: Option<Table<T>>, mapping: Mapping)
      requires Valid() && Complete(mapping)
      modifies this
      ensures Valid() && currentData == data && dataMapping == Some(mapping)
      ensures var n := ChannelCount(mapping, dataType);
        channelMax == (if n < 1 then 1 else n) && channel == (if n == 0 then 1 else if old(channel) < n then old(channel) else n)
      ensures dataType == old(dataType) && matlab == old(matlab) && notices == old(notices)
      ensures sampleRate == old(sampleRate) && currentTab == old(currentTab)
    {
      currentData := data;
      dataMapping := Some(mapping);
      UpdateChannelRange();
    }

    /** `_update_channel_range`: the maximum becomes the group's channel
        count (at least 1), which clamps the value, and a value past the
        count is reset to 1. Afterwards the chosen channel exists whenever
        the group has any. */
    method UpdateChannelRange()
      requires Valid() && dataMapping.Some?
      modifies this
      ensures Valid()
      ensures currentData == old(currentData) && dataMapping == old(dataMapping) && dataType == old(dataType)
      ensures var n := ChannelCount(dataMapping.value, dataType);
        channelMax == (if n < 1 then 1 else n) && channel == (if n == 0 then 1 else if old(channel) < n then old(channel) else n)
      ensures matlab == old(matlab) && notices == old(notices)
      ensures sampleRate == old(sampleRate) && currentTab == old(currentTab)
    {
      var channels: nat;
      if dataType == GroupLabel(Acceleration) {
        channels := |dataMapping.value[Acceleration]|;
      } else if dataType == GroupLabel(Gyroscope) {
        channels := |dataMapping.value[Gyroscope]|;
      } else if dataType == GroupLabel(Noise) {
        channels := |dataMapping.value[Noise]|;
      } else {
        channels := 0;
      }
      channelMax := if channels < 1 then 1 else channels;
      if channel > channelMax {
        channel := channelMax;
      }
      if channel > channels {
        channel := 1;
      }
    }

    /** The user picks a group in the data-type combo; nothing is connected
        to its change, so the channel range stays as it was. */
    method SelectDataType(g: Group)
      requires Valid()
      modifies this
      ensures Valid() && dataType == GroupLabel(g)
      ensures channel == old(channel) && channelMax == old(channelMax)
      ensures currentData == old(currentData) && dataMapping == old(dataMapping)
      ensures matlab == old(matlab) && notices == old(notices)
      ensures sampleRate == old(sampleRate) && currentTab == old(currentTab)
    {
      dataType := GroupLabel(g);
    }

    /** The user types a channel; the spin box keeps it within 1..maximum. */
    method SetChannel(v: int)
      requires Valid()
      modifies this
      ensures Valid()
      ensures 1 <= v <= channelMax ==> channel == v
      ensures v < 1 ==> channel == 1
      ensures v > channelMax ==> channel == channelMax
      ensures channelMax == old(channelMax) && dataType == old(dataType)
      ensures currentData == old(currentData) && dataMapping == old(dataMapping)
      ensures matlab == old(matlab) && notices == old(notices)
      ensures sampleRate == old(sampleRate) && currentTab == old(currentTab)
    {
      channel := if v < 1 then 1 else if v > channelMax then channelMax else v;
    }

    /** The user types a sample rate; the spin box keeps it within
        1..10000 Hz. */
    method SetSampleRate(rate: real)
      requires Valid()
      modifies this
      ensures Valid()
      ensures MinSampleRate <= rate <= MaxSampleRate ==> sampleRate == rate
      ensures rate < MinSampleRate ==> sampleRate == MinSampleRate
      ensures rate > MaxSampleRate ==> sampleRate == MaxSampleRate
      ensures channel == old(channel) && channelMax == old(channelMax) && dataType == old(dataType)
      ensures currentData == old(currentData) && dataMapping == old(dataMapping)
      ensures matlab == old(matlab) && notices == old(notices) && currentTab == old(currentTab)
    {
      sampleRate := if rate < MinSampleRate then MinSampleRate else if rate > MaxSampleRate then MaxSampleRate else rate;
    }

    /** The user switches to tab `tab`. */
    method SelectTab(tab: nat)
      requires Valid() && tab < 2
      modifies this
      ensures Valid() && currentTab == tab
      ensures channel == old(channel) && channelMax == old(channelMax) && dataType == old(dataType)
      ensures currentData == old(currentData) && dataMapping == old(dataMapping)
      ensures matlab == old(matlab) && notices == old(notices) && sampleRate == old(sampleRate)
    {
      currentTab := tab;
    }

    /** `_get_selected_data`: the selection, with a warning whenever there
        is none. */
    method GetSelectedData() returns (r: Outcome<Option<seq<T>>>)
      requires Valid()
      modifies this
      ensures currentData == old(currentData) && dataMapping == old(dataMapping) && dataType == old(dataType)
      ensures channel == old(channel) && channelMax == old(channelMax)
      ensures matlab == old(matlab) && sampleRate == old(sampleRate) && currentTab == old(currentTab)
      ensures Valid() && r == Selection(currentData, dataMapping, dataType, channel)
      ensures notices == old(notices) + (if r == Normal(None) then [Warning] else [])
    {
      if currentData.None? || dataMapping.None? {
        notices := notices + [Warning];
        return Normal(None);
      }
      var cols: seq<nat>;
      if dataType == GroupLabel(Acceleration) {
        cols := dataMapping.value[Acceleration];
      } else if dataType == GroupLabel(Gyroscope) {
        cols := dataMapping.value[Gyroscope];
      } else if dataType == GroupLabel(Noise) {
        cols := dataMapping.value[Noise];
      } else {
        notices := notices + [Warning];
        return Normal(None);
      }
      var index := channel - 1;
      if index >= |cols| {
        notices := notices + [Warning];
        return Normal(None);
      }
      var col := cols[index];
      if col >= currentData.value.width {
        return IndexError;
      }
      r := Normal(Some(Column(currentData.value, col)));
    }

    /** `_plot_time_domain`: an error box without an interface or when the
        engine does not plot; the column goes to the engine as a flat
        list. */
    method PlotTimeDomain(data: seq<T>, plotted: bool)
      requires matlab != null ==> matlab.Valid()
      modifies this, matlab
      ensures matlab == old(matlab) && (matlab != null ==> matlab.Valid())
      ensures matlab == null ==> notices == old(notices) + [Critical]
      ensures matlab != null ==>
        && notices == old(notices) + (if old(matlab.engineRunning) && plotted then [] else [Critical])
        && matlab.calls == old(matlab.calls) + (if old(matlab.engineRunning) then [PlotTime(Some(FlatList(data)), sampleRate, TimeTitle)] else [])
        && matlab.workspace == old(matlab.workspace) && matlab.engineRunning == old(matlab.engineRunning)
        && matlab.functionsPath == old(matlab.functionsPath)
      ensures currentData == old(currentData) && dataMapping == old(dataMapping) && dataType == old(dataType)
      ensures channel == old(channel) && channelMax == old(channelMax)
      ensures sampleRate == old(sampleRate) && currentTab == old(currentTab)
    {
      if matlab == null {
        notices := notices + [Critical];
        return;
      }
      var ok := matlab.PlotTimeDomain(Vector(data), sampleRate, TimeTitle, plotted);
      if !ok {
        notices := notices + [Critical];
      }
    }

    /** `_plot_freq_domain`: as `PlotTimeDomain`, for the spectrum. */
    method PlotFreqDomain(data: seq<T>, plotted: bool)
      requires matlab != null ==> matlab.Valid()
      modifies this, matlab
      ensures matlab == old(matlab) && (matlab != null ==> matlab.Valid())
      ensures matlab == null ==> notices == old(notices) + [Critical]
      ensures matlab != null ==>
        && notices == old(notices) + (if old(matlab.engineRunning) && plotted then [] else [Critical])
        && matlab.calls == old(matlab.calls) + (if old(matlab.engineRunning) then [PlotFreq(Some(FlatList(data)), sampleRate, FreqTitle)] else [])
        && matlab.workspace == old(matlab.workspace) && matlab.engineRunning == old(matlab.engineRunning)
        && matlab.functionsPath == old(matlab.functionsPath)
      ensures currentData == old(currentData) && dataMapping == old(dataMapping) && dataType == old(dataType)
      ensures channel == old(channel) && channelMax == old(channelMax)
      ensures sampleRate == old(sampleRate) && currentTab == old(currentTab)
    {
      if matlab == null {
        notices := notices + [Critical];
        return;
      }
      var ok := matlab.PlotFreqDomain(Vector(data), sampleRate, FreqTitle, plotted);
      if !ok {
        notices := notices + [Critical];
      }
    }

    /** `_plot_current_tab`: the selection is plotted on the current tab;
        no selection only warns, and an IndexError from the selection
        escapes before anything is plotted. */
    method PlotCurrentTab(plotted: bool) returns (r: Outcome<()>)
      requires Valid() && (matlab != null ==> matlab.Valid())
      modifies this, matlab
      ensures Valid() && matlab == old(matlab) && (matlab != null ==> matlab.Valid())
      ensures currentData == old(currentData) && dataMapping == old(dataMapping) && dataType == old(dataType)
      ensures channel == old(channel) && channelMax == old(channelMax)
      ensures sampleRate == old(sampleRate) && currentTab == old(currentTab)
      ensures matlab != null ==>
        && matlab.workspace == old(matlab.workspace) && matlab.engineRunning == old(matlab.engineRunning)
        && matlab.functionsPath == old(matlab.functionsPath)
      ensures var sel := Selection(currentData, dataMapping, dataType, channel);
        && (sel == IndexError ==> r == IndexError && notices == old(notices))
        && (sel == Normal(None) ==> r == Normal(()) && notices == old(notices) + [Warning])
        && (sel.Normal? ==> r == Normal(()))
        && (!(sel.Normal? && sel.value.Some?) && matlab != null ==> matlab.calls == old(matlab.calls))
      ensures var sel := Selection(currentData, dataMapping, dataType, channel);
        sel.Normal? && sel.value.Some? && matlab != null ==>
          var request := if currentTab == 0 then PlotTime(Some(FlatList(sel.value.value)), sampleRate, TimeTitle)
                         else PlotFreq(Some(FlatList(sel.value.value)), sampleRate, FreqTitle);
          && matlab.calls == old(matlab.calls) + (if old(matlab.engineRunning) then [request] else [])
          && notices == old(notices) + (if old(matlab.engineRunning) && plotted then [] else [Critical])
      ensures var sel := Selection(currentData, dataMapping, dataType, channel);
        sel.Normal? && sel.value.Some? && matlab == null ==> notices == old(notices) + [Critical]
    {
      var selected := GetSelectedData();
      if selected.IndexError? {
        return IndexError;
      }
      if selected.value.None? {
        return Normal(());
      }
      if currentTab == 0 {
        PlotTimeDomain(selected.value.value, plotted);
      } else if currentTab == 1 {
        PlotFreqDomain(selected.value.value, plotted);
      }
      return Normal(());
    }

    /** `_clear_plots`: an error box without an interface; otherwise
        `close('all')` is requested (and silently skipped without an
        engine) and success is reported. */
    method ClearPlots()
      requires matlab != null ==> matlab.Valid()
      modifies this, matlab
      ensures matlab == old(matlab) && (matlab != null ==> matlab.Valid())
      ensures matlab == null ==> notices == old(notices) + [Critical]
      ensures matlab != null ==>
        && notices == old(notices) + [Information]
        && matlab.calls == old(matlab.calls) + (if old(matlab.engineRunning) then [Call("close", ["all"])] else [])
        && matlab.workspace == old(matlab.workspace) && matlab.engineRunning == old(matlab.engineRunning)
        && matlab.functionsPath == old(matlab.functionsPath)
      ensures currentData == old(currentData) && dataMapping == old(dataMapping) && dataType == old(dataType)
      ensures channel == old(channel) && channelMax == old(channelMax)
      ensures sampleRate == old(sampleRate) && currentTab == old(currentTab)
    {
      if matlab == null {
        notices := notices + [Critical];
        return;
      }
      var _ := matlab.CallFunction<bool>("close", ["all"], None);
      notices := notices + [Information];
    }

    /** `get_matlab_interface` */
    method GetMatlabInterface() returns (m: MatlabInterface?<T>)
      ensures m == matlab
    {
      m := matlab;
    }

    /** `set_matlab_interface` */
    method SetMatlabInterface(m: MatlabInterface?<T>)
      modifies this
      ensures matlab == m
      ensures currentData == old(currentData) && dataMapping == old(dataMapping) && dataType == old(dataType)
      ensures channel == old(channel) && channelMax == old(channelMax) && notices == old(notices)
      ensures sampleRate == old(sampleRate) && currentTab == old(currentTab)
    {
      matlab := m;
    }
  }
}
