/** The import dialog: the user picks a file, sees a preview of at most 20
    rows, assigns columns to the three groups through seven combo boxes and
    imports, which converts the file next to the original and emits the
    result. Qt's widgets appear as the state they hold (combo indices and
    items, preview cells); the file chooser's answer and the readers'
    answers are parameters. */
module ImportDialog {
  import opened Tables
  import opened Channels
  import opened Labels
  import Paths
  import opened Matlab
  import opened FileHandling

  /** Three acceleration combos, three gyroscope combos, one noise combo. */
  const ComboCount: nat := 7

  /** The preview row limit. */
  const PreviewLimit: nat := 20

  /** `currentIndex() - 1` of each combo, in combo order, kept when it is
      not negative. */
  function Picks(indices: seq<int>): (r: seq<nat>)
    ensures |r| <= |indices|
    ensures forall x: nat :: x in r <==> exists k :: 0 <= k < |indices| && indices[k] - 1 == x
  {
    if indices == [] then []
    else
      var last := indices[|indices| - 1] - 1;
      Picks(indices[..|indices| - 1]) + (if last >= 0 then [last] else [])
  }

  /** The picks of consecutive runs of combos follow one another: every
      combo contributes on its own, in combo order. */
  lemma {:induction false} PicksAppend(a: seq<int>, b: seq<int>)
    ensures Picks(a + b) == Picks(a) + Picks(b)
    decreases |b|
  {
    if b != [] {
      var front := b[..|b| - 1];
      assert (a + b)[..|a + b| - 1] == a + front;
      assert (a + b)[|a + b| - 1] == b[|b| - 1];
      PicksAppend(a, front);
    } else {
      assert a + b == a;
    }
  }

  /** One combo contributes `currentIndex() - 1` when an item other than
      "未选择" is selected, and nothing otherwise. */
  lemma PicksOne(index: int)
    ensures Picks([index]) == if index >= 1 then [index - 1] else []
  {
    assert [index][..0] == [];
  }

  /** When every combo of a run shows a column, the k-th pick is the
      column of the k-th combo: the plotted channel k is combo k's column. */
  lemma {:induction false} PicksAllSelected(indices: seq<int>)
    requires forall k :: 0 <= k < |indices| ==> indices[k] >= 1
    ensures |Picks(indices)| == |indices|
    ensures forall k :: 0 <= k < |indices| ==> Picks(indices)[k] == indices[k] - 1
    decreases |indices|
  {
    if indices != [] {
      PicksAllSelected(indices[..|indices| - 1]);
    }
  }

  /** The mapping `_update_mapping` builds from the seven combo indices. */
  function MappingOf(combos: seq<int>): Mapping
    requires |combos| == ComboCount
  {
    map[Acceleration := Picks(combos[0..3]), Gyroscope := Picks(combos[3..6]), Noise := Picks(combos[6..7])]
  }

  /** The mapping always has all three groups, at most three acceleration,
      three gyroscope and one noise column, and when every combo shows one
      of the items `"未选择", "列 1", ..., "列 cols"` (or nothing), every
      mapped column lies in the table. */
  lemma MappingOfShape(combos: seq<int>, cols: nat)
    requires |combos| == ComboCount
    ensures Complete(MappingOf(combos))
    ensures |Get(MappingOf(combos), Acceleration)| <= 3 && |Get(MappingOf(combos), Gyroscope)| <= 3
    ensures |Get(MappingOf(combos), Noise)| <= 1
    ensures (forall k :: 0 <= k < ComboCount ==> combos[k] < |ComboOptions(cols)|) ==> FitsWidth(MappingOf(combos), cols)
  {
    var m := MappingOf(combos);
    if forall k :: 0 <= k < ComboCount ==> combos[k] < |ComboOptions(cols)| {
      forall g, i | g in m && 0 <= i < |m[g]| ensures m[g][i] < cols {
        var x := m[g][i];
        assert x in m[g];
        var lo, hi := if g == Acceleration then 0 else if g == Gyroscope then 3 else 6,
                      if g == Acceleration then 3 else if g == Gyroscope then 6 else 7;
        assert m[g] == Picks(combos[lo..hi]);
        var k :| 0 <= k < hi - lo && combos[lo..hi][k] - 1 == x;
        assert combos[lo + k] - 1 == x;
      }
    }
  }

  lemma {:induction false} PicksNone(indices: seq<int>)
    requires forall k :: 0 <= k < |indices| ==> indices[k] <= 0
    ensures Picks(indices) == []
    decreases |indices|
  {
    if indices != [] {
      PicksNone(indices[..|indices| - 1]);
    }
  }

  /** No combo selected: the mapping of an empty dialog and of freshly
      filled combos, all three groups empty. */
  lemma NothingSelected(combos: seq<int>)
    requires |combos| == ComboCount && forall k :: 0 <= k < ComboCount ==> combos[k] <= 0
    ensures MappingOf(combos) == EmptyMapping
  {
    PicksNone(combos[0..3]);
    PicksNone(combos[3..6]);
    PicksNone(combos[6..7]);
  }

  /** Choosing item `k > 0` of a combo maps the column its label names. */
  lemma SelectedItemNamesColumn(cols: nat, combos: seq<int>, c: nat)
    requires |combos| == ComboCount && c < ComboCount && 1 <= combos[c] <= cols
    ensures ComboOptions(cols)[combos[c]] == ColumnLabel(combos[c] - 1)
    ensures combos[c] - 1 in Get(MappingOf(combos), if c < 3 then Acceleration else if c < 6 then Gyroscope else Noise)
  {
    var lo, hi := if c < 3 then 0 else if c < 6 then 3 else 6, if c < 3 then 3 else if c < 6 then 6 else 7;
    assert combos[lo..hi][c - lo] == combos[c];
  }

  /** The rows the preview shows: the first `min(20, rows)`. */
  function PreviewOf<T>(t: Table<T>): (p: seq<seq<T>>)
    ensures |p| == if |t.rows| < PreviewLimit then |t.rows| else PreviewLimit
    ensures forall i :: 0 <= i < |p| ==> p[i] == t.rows[i] && |p[i]| == t.width
  {
    t.rows[..if |t.rows| < PreviewLimit then |t.rows| else PreviewLimit]
  }

  /** `[f"列 {i+1}" for i in range(cols)]` */
  function HeaderLabels(cols: nat): (h: seq<string>)
    ensures |h| == cols && forall i :: 0 <= i < cols ==> h[i] == ColumnLabel(i)
  {
    seq(cols, i requires 0 <= i < cols => ColumnLabel(i))
  }

  /** The headers are the combo items after the "not selected" entry. */
  lemma HeadersMatchOptions(cols: nat)
    ensures ComboOptions(cols) == [NotSelected] + HeaderLabels(cols)
  {
    var o := ComboOptions(cols);
    var h := [NotSelected] + HeaderLabels(cols);
    assert |o| == |h|;
    forall i | 0 <= i < |o| ensures o[i] == h[i] {
      if i > 0 {
        assert h[i] == HeaderLabels(cols)[i - 1];
      }
    }
  }

  /** The dict the dialog emits when an import succeeds. */
  datatype ImportResult<T> = ImportResult(originalFile: string, convertedFile: string, mapping: Mapping, data: ReadResult<T>)

  class DataImportDialog<T> {
    const handler: FileHandler<T>
    /** The chosen file; empty until one is chosen. */
    var currentFile: string
    /** What the last read left in `current_data`. */
    var currentData: Option<ReadResult<T>>
    /** `currentIndex()` of the seven combos, -1 for an empty combo. */
    var combos: seq<int>
    /** The items every combo holds. */
    var options: seq<string>
    var dataMapping: Mapping
    var preview: seq<seq<T>>
    var headers: seq<string>
    var importEnabled: bool
    var notices: seq<Notice>
    var emitted: seq<ImportResult<T>>
    var accepted: bool

    /** The mapping is always the one the combos show, and each combo shows
        one of its items or nothing. */
    ghost predicate Valid()
      reads this
    {
      && |combos| == ComboCount
      && dataMapping == MappingOf(combos)
      && forall k :: 0 <= k < ComboCount ==> -1 <= combos[k] < |options|
    }

    constructor (handler: FileHandler<T>)
      ensures Valid() && this.handler == handler
      ensures currentFile == [] && currentData == None && dataMapping == EmptyMapping
      ensures options == [] && !importEnabled && emitted == [] && notices == [] && !accepted
    {
      this.handler := handler;
      currentFile := [];
      currentData := None;
      combos := [-1, -1, -1, -1, -1, -1, -1];
      options := [];
      dataMapping := EmptyMapping;
      preview := [];
      headers := [];
      importEnabled := false;
      notices := [];
      emitted := [];
      accepted := false;
      new;
      NothingSelected(combos);
    }

    /** `_update_mapping`: a fresh mapping rebuilt from the combos alone. */
    method UpdateMapping()
      requires |combos| == ComboCount
      modifies this
      ensures combos == old(combos) && options == old(options) && currentFile == old(currentFile)
      ensures dataMapping == MappingOf(combos)
      ensures currentData == old(currentData) && preview == old(preview) && headers == old(headers)
      ensures importEnabled == old(importEnabled) && notices == old(notices) && emitted == old(emitted)
      ensures accepted == old(accepted)
    {
      var acc: seq<nat> := [];
      var i := 0;
      while i < 3
        invariant 0 <= i <= 3 && acc == Picks(combos[0..i])
      {
        assert combos[0..i + 1][..i] == combos[0..i];
        var idx := combos[i] - 1;
        if idx >= 0 {
          acc := acc + [idx];
        }
        i := i + 1;
      }
      var gyro: seq<nat> := [];
      i := 3;
      while i < 6
        invariant 3 <= i <= 6 && gyro == Picks(combos[3..i])
      {
        assert combos[3..i + 1][..i - 3] == combos[3..i];
        var idx := combos[i] - 1;
        if idx >= 0 {
          gyro := gyro + [idx];
        }
        i := i + 1;
      }
      var noise: seq<nat> := [];
      var idx := combos[6] - 1;
      assert combos[6..7][..0] == [];
      if idx >= 0 {
        noise := noise + [idx];
      }
      dataMapping := map[Acceleration := acc, Gyroscope := gyro, Noise := noise];
    }

    /** The user chooses item `index` of combo `c`; the change signal runs
        `_update_mapping`. */
    method SelectCombo(c: nat, index: nat)
      requires Valid() && c < ComboCount && index < |options|
      modifies this
      ensures Valid() && combos == old(combos)[c := index]
      ensures options == old(options) && currentFile == old(currentFile) && currentData == old(currentData)
      ensures preview == old(preview) && headers == old(headers) && importEnabled == old(importEnabled)
      ensures emitted == old(emitted) && notices == old(notices) && accepted == old(accepted)
    {
      combos := combos[c := index];
      UpdateMapping();
    }

    /** `_update_combo_options`: nothing without data; otherwise every combo
        is cleared and refilled with the option list for the table's width,
        which leaves each at item 0, and the signal of each change rebuilds
        the mapping, so it ends empty. */
    method UpdateComboOptions()
      requires Valid() && (currentData.None? || currentData.value.One?)
      modifies this
      ensures Valid()
      ensures currentFile == old(currentFile) && currentData == old(currentData)
      ensures currentData.None? ==> options == old(options) && combos == old(combos)
      ensures currentData.Some? ==> options == ComboOptions(currentData.value.table.width)
      ensures currentData.Some? ==> combos == [0, 0, 0, 0, 0, 0, 0] && dataMapping == EmptyMapping
      ensures preview == old(preview) && headers == old(headers) && importEnabled == old(importEnabled)
      ensures emitted == old(emitted) && notices == old(notices) && accepted == old(accepted)
    {
      if currentData.None? {
        return;
      }
      var cols := currentData.value.table.width;
      var items := ComboOptions(cols);
      var c := 0;
      while c < ComboCount
        invariant 0 <= c <= ComboCount && |combos| == ComboCount
        invariant dataMapping == MappingOf(combos)
        invariant forall k :: 0 <= k < c ==> combos[k] == 0
        invariant forall k :: c <= k < ComboCount ==> combos[k] == old(combos)[k]
        invariant c > 0 ==> options == items
        invariant c == 0 ==> options == old(options)
        invariant currentFile == old(currentFile) && currentData == old(currentData)
        invariant preview == old(preview) && headers == old(headers) && importEnabled == old(importEnabled)
        invariant emitted == old(emitted) && notices == old(notices) && accepted == old(accepted)
      {
        combos := combos[c := -1];
        UpdateMapping();
        options := items;
        combos := combos[c := 0];
        UpdateMapping();
        c := c + 1;
      }
      assert combos == [0, 0, 0, 0, 0, 0, 0];
      NothingSelected(combos);
    }

    /** `_show_data_preview`: nothing without data; otherwise the first
        `min(20, rows)` rows, every column, under the column labels. */
    method ShowDataPreview()
      requires currentData.None? || currentData.value.One?
      modifies this
      ensures currentFile == old(currentFile) && currentData == old(currentData) && combos == old(combos)
      ensures currentData.None? ==> preview == old(preview) && headers == old(headers)
      ensures currentData.Some? ==> preview == PreviewOf(currentData.value.table)
      ensures currentData.Some? ==> headers == HeaderLabels(currentData.value.table.width)
      ensures options == old(options) && dataMapping == old(dataMapping) && importEnabled == old(importEnabled)
      ensures emitted == old(emitted) && notices == old(notices) && accepted == old(accepted)
    {
      if currentData.None? {
        return;
      }
      var t := currentData.value.table;
      var rows := if |t.rows| < PreviewLimit then |t.rows| else PreviewLimit;
      headers := HeaderLabels(t.width);
      var cells: seq<seq<T>> := [];
      var i := 0;
      while i < rows
        invariant 0 <= i <= rows && cells == t.rows[..i]
      {
        var row: seq<T> := [];
        var j := 0;
        while j < t.width
          invariant 0 <= j <= t.width && row == t.rows[i][..j]
        {
          row := row + [t.rows[i][j]];
          j := j + 1;
        }
        assert row == t.rows[i];
        cells := cells + [row];
        i := i + 1;
      }
      preview := cells;
    }

    /** `_load_file_data`: reads the chosen file and keeps the first table
        of a list. An empty list raises IndexError with `current_data` left
        as the empty list; otherwise the preview and combos are refreshed
        and the import button is enabled. */
    method LoadFileData(src: Sources<T>) returns (r: Outcome<()>)
      requires Valid()
      modifies this
      ensures Valid()
      ensures currentFile == old(currentFile)
      ensures var read := ReadSpec(currentFile, src, handler.matlab != null, handler.matlab != null && handler.matlab.engineRunning);
        read == Some(Many([])) ==> r == IndexError && currentData == read && importEnabled == old(importEnabled)
      ensures var read := ReadSpec(currentFile, src, handler.matlab != null, handler.matlab != null && handler.matlab.engineRunning);
        read.None? ==> r == Normal(()) && currentData == None && importEnabled
      ensures var read := ReadSpec(currentFile, src, handler.matlab != null, handler.matlab != null && handler.matlab.engineRunning);
        read.None? || read == Some(Many([])) ==>
          && preview == old(preview) && headers == old(headers) && options == old(options)
          && combos == old(combos) && dataMapping == old(dataMapping)
      ensures var read := ReadSpec(currentFile, src, handler.matlab != null, handler.matlab != null && handler.matlab.engineRunning);
        read.Some? && TablesOf(read.value) != [] ==>
          var t := TablesOf(read.value)[0];
          && r == Normal(()) && currentData == Some(One(t)) && importEnabled
          && preview == PreviewOf(t) && headers == HeaderLabels(t.width)
          && options == ComboOptions(t.width) && combos == [0, 0, 0, 0, 0, 0, 0] && dataMapping == EmptyMapping
      ensures emitted == old(emitted) && notices == old(notices) && accepted == old(accepted)
    {
      var read := handler.ReadFile(currentFile, src);
      r := Adopt(read);
    }

    /** What `_load_file_data` does with the reader's answer. */
    method Adopt(read: Option<ReadResult<T>>) returns (r: Outcome<()>)
      requires Valid()
      modifies this
      ensures Valid() && currentFile == old(currentFile)
      ensures read == Some(Many([])) ==> r == IndexError && currentData == read && importEnabled == old(importEnabled)
      ensures read.None? ==> r == Normal(()) && currentData == None && importEnabled
      ensures read.None? || read == Some(Many([])) ==>
        && preview == old(preview) && headers == old(headers) && options == old(options)
        && combos == old(combos) && dataMapping == old(dataMapping)
      ensures read.Some? && TablesOf(read.value) != [] ==>
        var t := TablesOf(read.value)[0];
        && r == Normal(()) && currentData == Some(One(t)) && importEnabled
        && preview == PreviewOf(t) && headers == HeaderLabels(t.width)
        && options == ComboOptions(t.width) && combos == [0, 0, 0, 0, 0, 0, 0] && dataMapping == EmptyMapping
      ensures emitted == old(emitted) && notices == old(notices) && accepted == old(accepted)
    {
      currentData := read;
      if read.Some? && read.value.Many? {
        if read.value.tables == [] {
          return IndexError;
        }
        currentData := Some(One(read.value.tables[0]));
      }
      ShowDataPreview();
      UpdateComboOptions();
      importEnabled := true;
      return Normal(());
    }

    /** `browse_file`: an empty answer from the file chooser changes
        nothing; otherwise the file is recorded and loaded. */
    method BrowseFile(chosen: string, src: Sources<T>) returns (r: Outcome<()>)
      requires Valid()
      modifies this
      ensures Valid()
      ensures chosen == [] ==> r == Normal(()) && currentFile == old(currentFile) && currentData == old(currentData)
      ensures chosen == [] ==>
        && preview == old(preview) && headers == old(headers) && options == old(options)
        && combos == old(combos) && dataMapping == old(dataMapping) && importEnabled == old(importEnabled)
      ensures chosen != [] ==> currentFile == chosen
      ensures var read := ReadSpec(chosen, src, handler.matlab != null, handler.matlab != null && handler.matlab.engineRunning);
        chosen != [] && read == Some(Many([])) ==> r == IndexError && currentData == read && importEnabled == old(importEnabled)
      ensures var read := ReadSpec(chosen, src, handler.matlab != null, handler.matlab != null && handler.matlab.engineRunning);
        chosen != [] && read.None? ==> r == Normal(()) && currentData == None && importEnabled
      ensures var read := ReadSpec(chosen, src, handler.matlab != null, handler.matlab != null && handler.matlab.engineRunning);
        chosen != [] && (read.None? || read == Some(Many([]))) ==>
          && preview == old(preview) && headers == old(headers) && options == old(options)
          && combos == old(combos) && dataMapping == old(dataMapping)
      ensures var read := ReadSpec(chosen, src, handler.matlab != null, handler.matlab != null && handler.matlab.engineRunning);
        chosen != [] && read.Some? && TablesOf(read.value) != [] ==>
          var t := TablesOf(read.value)[0];
          && r == Normal(()) && currentData == Some(One(t)) && importEnabled
          && preview == PreviewOf(t) && headers == HeaderLabels(t.width)
          && options == ComboOptions(t.width) && combos == [0, 0, 0, 0, 0, 0, 0] && dataMapping == EmptyMapping
      ensures emitted == old(emitted) && notices == old(notices) && accepted == old(accepted)
    {
      if chosen == [] {
        return Normal(());
      }
      currentFile := chosen;
      r := LoadFileData(src);
    }

    /** How `import_data` reports the conversion's outcome: an escaping
        IndexError, an error box, or the emitted result and acceptance. */
    method Report(success: Outcome<bool>, outputFile: string) returns (r: Outcome<()>)
      requires currentData.Some?
      modifies this
      ensures currentFile == old(currentFile) && currentData == old(currentData) && dataMapping == old(dataMapping)
      ensures combos == old(combos) && options == old(options)
      ensures preview == old(preview) && headers == old(headers) && importEnabled == old(importEnabled)
      ensures success == Normal(true) ==>
        && r == Normal(())
        && emitted == old(emitted) + [ImportResult(currentFile, outputFile, dataMapping, currentData.value)]
        && notices == old(notices) + [Information] && accepted
      ensures success == Normal(false) ==>
        r == Normal(()) && emitted == old(emitted) && notices == old(notices) + [Critical] && accepted == old(accepted)
      ensures success == IndexError ==>
        r == IndexError && emitted == old(emitted) && notices == old(notices) && accepted == old(accepted)
    {
      if success.IndexError? {
        return IndexError;
      }
      if success.value {
        emitted := emitted + [ImportResult(currentFile, outputFile, dataMapping, currentData.value)];
        notices := notices + [Information];
        accepted := true;
      } else {
        notices := notices + [Critical];
      }
      return Normal(());
    }

    /** `import_data`: only a warning without a file or data. Otherwise the
        file is converted to `<dir>/<base>_converted.mat` with the current
        mapping; on success the result is emitted and the dialog accepted,
        on failure an error is shown, and an IndexError from the conversion
        escapes. */
    method ImportData(src: Sources<T>, saved: bool) returns (r: Outcome<()>)
      requires Valid() && (handler.matlab != null ==> handler.matlab.Valid())
      modifies this, handler.matlab
      ensures Valid() && (handler.matlab != null ==> handler.matlab.Valid())
      ensures currentFile == old(currentFile) && currentData == old(currentData) && dataMapping == old(dataMapping)
      ensures combos == old(combos) && options == old(options)
      ensures preview == old(preview) && headers == old(headers) && importEnabled == old(importEnabled)
      ensures currentFile == [] || currentData.None? ==>
        && r == Normal(()) && notices == old(notices) + [Warning] && emitted == old(emitted) && accepted == old(accepted)
        && (handler.matlab != null ==>
              handler.matlab.calls == old(handler.matlab.calls) && handler.matlab.workspace == old(handler.matlab.workspace))
      ensures handler.matlab != null ==>
        handler.matlab.engineRunning == old(handler.matlab.engineRunning) && handler.matlab.functionsPath == old(handler.matlab.functionsPath)
      ensures currentFile != [] && currentData.Some? ==>
        var outcome := ConvertOutcome(currentFile, Some(dataMapping), src, handler.matlab != null,
                                      handler.matlab != null && old(handler.matlab.engineRunning), saved);
        && (outcome == Normal(true) ==>
              && r == Normal(())
              && emitted == old(emitted) + [ImportResult(currentFile, Paths.OutputPath(currentFile), dataMapping, currentData.value)]
              && notices == old(notices) + [Information] && accepted)
        && (outcome == Normal(false) ==>
              r == Normal(()) && emitted == old(emitted) && notices == old(notices) + [Critical] && accepted == old(accepted))
        && (outcome == IndexError ==> r == IndexError && emitted == old(emitted) && notices == old(notices) && accepted == old(accepted))
      ensures currentFile != [] && currentData.Some? && handler.matlab != null && old(handler.matlab.engineRunning) ==>
        var plan := ConvertedDict(currentFile, Some(dataMapping), src, true, true);
        plan.Normal? && plan.value.Some? ==>
          && handler.matlab.workspace == Assign(old(handler.matlab.workspace), plan.value.value)
          && handler.matlab.calls == old(handler.matlab.calls) + [Save(Paths.OutputPath(currentFile), SavedAsWritten(old(handler.matlab.workspace), plan.value.value))]
      ensures currentFile != [] && currentData.Some? && handler.matlab != null ==>
        var plan := ConvertedDict(currentFile, Some(dataMapping), src, true, old(handler.matlab.engineRunning));
        !(old(handler.matlab.engineRunning) && plan.Normal? && plan.value.Some?) ==>
          handler.matlab.calls == old(handler.matlab.calls) && handler.matlab.workspace == old(handler.matlab.workspace)
    {
      if currentFile == [] || currentData.None? {
        notices := notices + [Warning];
        return Normal(());
      }
      var outputFile := Paths.OutputPath(currentFile);
      var success := handler.ConvertToMat(currentFile, outputFile, Some(dataMapping), src, saved);
      r := Report(success, outputFile);
    }
  }
}
