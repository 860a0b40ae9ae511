/** The bridge to the MATLAB engine: layout conversion between numpy's
    row-major arrays and MATLAB's column-major ones, and the `MatlabInterface`
    object whose engine handle is either started or absent. Every answer the
    engine gives (whether it started, loaded, saved, plotted) is a parameter. */
module Matlab {
  import opened Tables

  /** A numpy array as the interface meets it; arrays of any rank other than
      1 and 2 are told apart only by their rank. */
  datatype NdArray<T> = Vector(items: seq<T>) | Matrix(table: Table<T>) | OtherRank(rank: nat)

  /** The Python list handed to `matlab.double`. */
  datatype DoubleInit<T> = FlatList(items: seq<T>) | NestedList(lists: seq<seq<T>>)

  datatype RawMatArray<T> = MatArray(rows: nat, cols: nat, data: seq<T>)

  /** A 2-D MATLAB numeric array: its `size` and its `_data`, which holds the
      elements column by column. */
  type MatArray<T> = a: RawMatArray<T> | |a.data| == a.rows * a.cols witness MatArray(0, 0, [])

  /** A value the engine hands back. */
  datatype EngineValue<T> = Double(arr: MatArray<T>) | Single(arr: MatArray<T>) | PyList(items: seq<T>) | Unsupported

  /** `isinstance(value, (matlab.double, matlab.single))` */
  predicate IsNumeric<T>(v: EngineValue<T>)
  {
    v.Double? || v.Single?
  }

  /** `numpy_to_matlab` as the code has it: a vector is passed as its flat
      list; a matrix as the nested list of its transpose, so list `j` is
      column `j`; any other rank gives None. */
  function NumpyToMatlabAsWritten<T>(a: NdArray<T>): (r: Option<DoubleInit<T>>)
    ensures r.None? <==> a.OtherRank?
    ensures a.Vector? ==> r == Some(FlatList(a.items))
    ensures a.Matrix? ==> r.Some? && r.value.NestedList? && |r.value.lists| == a.table.width
    ensures a.Matrix? ==> forall j :: 0 <= j < a.table.width ==> r.value.lists[j] == Column(a.table, j)
  {
    match a
    case Vector(items) => Some(FlatList(items))
    case Matrix(t) => Some(NestedList(Transpose(t).rows))
    case OtherRank(_) => None
  }

  /** `numpy_to_matlab` as intended: the same, except that a matrix is
      passed as the nested list of its own rows, which `matlab.double`
      reads as an array of the same shape (see `MatrixRoundTrip`). */
  function NumpyToMatlab<T>(a: NdArray<T>): (r: Option<DoubleInit<T>>)
    ensures r.None? <==> a.OtherRank?
    ensures a.Vector? ==> r == NumpyToMatlabAsWritten(a)
    ensures a.Matrix? ==> r.Some? && r.value.NestedList? && |r.value.lists| == |a.table.rows|
  {
    match a
    case Vector(items) => Some(FlatList(items))
    case Matrix(t) => Some(NestedList(t.rows))
    case OtherRank(_) => None
  }

  /** The position of element (i, j) in the column-major data of an array
      with `rows` rows. */
  function Index(i: nat, j: nat, rows: nat): nat
  {
    i + j * rows
  }

  lemma IndexBound(i: nat, j: nat, rows: nat, cols: nat)
    requires i < rows && j < cols
    ensures Index(i, j, rows) < rows * cols
  {
    assert (cols - (j + 1)) * rows >= 0;
  }

  lemma MulAtLeast(x: int, y: nat)
    requires x >= 1
    ensures x * y >= y
  {
  }

  lemma QuotientUnique(q1: int, r1: int, q2: int, r2: int, rows: nat)
    requires rows > 0 && 0 <= r1 < rows && 0 <= r2 < rows
    requires q1 * rows + r1 == q2 * rows + r2
    ensures q1 == q2 && r1 == r2
  {
    if q1 > q2 {
      MulAtLeast(q1 - q2, rows);
    } else if q1 < q2 {
      MulAtLeast(q2 - q1, rows);
    }
  }

  /** Position `Index(i, j, rows)` holds row `i` of column `j`. */
  lemma IndexDivMod(i: nat, j: nat, rows: nat)
    requires i < rows
    ensures Index(i, j, rows) / rows == j && Index(i, j, rows) % rows == i
  {
    var n := Index(i, j, rows);
    QuotientUnique(n / rows, n % rows, j, i, rows);
  }

  lemma DivBound(k: nat, rows: nat, cols: nat)
    requires rows > 0 && k < rows * cols
    ensures k / rows < cols
  {
  }

  /** Element (i, j) of a MATLAB array. */
  function Cell<T>(a: MatArray<T>, i: nat, j: nat): T
    requires i < a.rows && j < a.cols
  {
    IndexBound(i, j, a.rows, a.cols);
    a.data[Index(i, j, a.rows)]
  }

  function RowOf<T>(a: MatArray<T>, i: nat): (r: seq<T>)
    requires i < a.rows
    ensures |r| == a.cols
  {
    seq(a.cols, j requires 0 <= j < a.cols => Cell(a, i, j))
  }

  /** `reshape(size, order='F')` of the flat column-major data: the table of
      the array's own size whose cell (i, j) is element (i, j). */
  function FortranReshape<T>(a: MatArray<T>): (t: Table<T>)
    ensures |t.rows| == a.rows && t.width == a.cols
    ensures forall i, j :: 0 <= i < a.rows && 0 <= j < a.cols ==> t.rows[i][j] == Cell(a, i, j)
  {
    Table(seq(a.rows, i requires 0 <= i < a.rows => RowOf(a, i)), a.cols)
  }

  /** `matlab_to_numpy`: a MATLAB array becomes the table of its own size
      holding its elements; a plain list becomes a vector; anything else
      gives None. */
  function MatlabToNumpy<T>(v: EngineValue<T>): (r: Option<NdArray<T>>)
    ensures IsNumeric(v) ==> r == Some(Matrix(FortranReshape(v.arr)))
    ensures v.PyList? ==> r == Some(Vector(v.items))
    ensures v.Unsupported? ==> r.None?
  {
    match v
    case Double(arr) => Some(Matrix(FortranReshape(arr)))
    case Single(arr) => Some(Matrix(FortranReshape(arr)))
    case PyList(items) => Some(Vector(items))
    case Unsupported => None
  }

  /** A list `matlab.double` accepts: flat, or a non-empty list of equally
      long lists. */
  predicate WellFormed<T>(init: DoubleInit<T>)
  {
    match init
    case FlatList(_) => true
    case NestedList(lists) => |lists| > 0 && forall k :: 0 <= k < |lists| ==> |lists[k]| == |lists[0]|
  }

  /** The engine API's reading of a Python list: a flat list of n values is
      a 1 x n row; m lists of n values are an m x n array whose row i is
      list i. */
  function MatlabDouble<T>(init: DoubleInit<T>): (a: MatArray<T>)
    requires WellFormed(init)
    ensures init.FlatList? ==> a.rows == 1 && a.cols == |init.items| && a.data == init.items
    ensures init.NestedList? ==> a.rows == |init.lists| && a.cols == |init.lists[0]|
    ensures init.NestedList? ==> forall i, j :: 0 <= i < a.rows && 0 <= j < a.cols ==>
                                   Cell(a, i, j) == init.lists[i][j]
  {
    match init
    case FlatList(items) => MatArray(1, |items|, items)
    case NestedList(lists) =>
      var m, n := |lists|, |lists[0]|;
      var a := MatArray(m, n, seq(m * n, k requires 0 <= k < m * n =>
                                    DivBound(k, m, n); lists[k % m][k / m]));
      assert forall i, j :: 0 <= i < m && 0 <= j < n ==> Cell(a, i, j) == lists[i][j] by {
        forall i, j | 0 <= i < m && 0 <= j < n
          ensures Cell(a, i, j) == lists[i][j]
        {
          IndexBound(i, j, m, n);
          IndexDivMod(i, j, m);
        }
      }
      a
  }

  /** Saving a 2-D array through `numpy_to_matlab` as written and reading
      it back through `matlab_to_numpy` yields its transpose: the nested
      list is already row-major for the engine, so the transpose taken on
      the way out is never undone. */
  lemma {:induction false} MatrixComesBackTransposed<T>(t: Table<T>)
    requires t.width > 0
    ensures WellFormed(NumpyToMatlabAsWritten(Matrix(t)).value)
    ensures MatlabToNumpy(Double(MatlabDouble(NumpyToMatlabAsWritten(Matrix(t)).value))) == Some(Matrix(Transpose(t)))
  {
    var init := NumpyToMatlabAsWritten(Matrix(t)).value;
    var lists := init.lists;
    assert |lists[0]| == |t.rows|;
    var a := MatlabDouble(init);
    var back := MatlabToNumpy(Double(a)).value.table;
    forall i, j | 0 <= i < |back.rows| && 0 <= j < back.width
      ensures back.rows[i][j] == Transpose(t).rows[i][j]
    {
      assert back.rows[i][j] == Cell(a, i, j) == lists[i][j];
    }
    TableExtensionality(back, Transpose(t));
  }

  /** With the intended conversion a matrix with at least one row comes
      back unchanged. */
  lemma {:induction false} MatrixRoundTrip<T>(t: Table<T>)
    requires |t.rows| > 0
    ensures WellFormed(NumpyToMatlab(Matrix(t)).value)
    ensures MatlabToNumpy(Double(MatlabDouble(NumpyToMatlab(Matrix(t)).value))) == Some(Matrix(t))
  {
    var a := MatlabDouble(NestedList(t.rows));
    var back := MatlabToNumpy(Double(a)).value.table;
    forall i, j | 0 <= i < |back.rows| && 0 <= j < back.width
      ensures back.rows[i][j] == t.rows[i][j]
    {
      assert back.rows[i][j] == Cell(a, i, j);
    }
    TableExtensionality(back, t);
  }

  /** A vector saved and read back is a one-row matrix. */
  lemma VectorComesBackAsRow<T>(v: seq<T>)
    ensures MatlabToNumpy(Double(MatlabDouble(NumpyToMatlab(Vector(v)).value))) == Some(Matrix(Table([v], |v|)))
  {
    var back := MatlabToNumpy(Double(MatlabDouble(FlatList(v)))).value.table;
    forall i, j | 0 <= i < |back.rows| && 0 <= j < back.width
      ensures back.rows[i][j] == [v][i][j]
    {
      assert i == 0 && i + j * 1 == j;
    }
    TableExtensionality(back, Table([v], |v|));
  }

  /** So with the conversion as written a save followed by a load is not
      the identity: a 1 x 2 table comes back as 2 x 1. */
  lemma SaveLoadIsNotIdentity()
    ensures var t: Table<int> := Table([[1, 2]], 2);
      MatlabToNumpy(Double(MatlabDouble(NumpyToMatlabAsWritten(Matrix(t)).value))) != Some(Matrix(t))
  {
    var t: Table<int> := Table([[1, 2]], 2);
    MatrixComesBackTransposed(t);
    assert |Transpose(t).rows| == 2;
  }

  /** A value in the dict given to `save_mat_file`: a numpy array or any
      other Python value. */
  datatype PyValue<T> = Array(nd: NdArray<T>) | Plain(x: T)

  /** A variable of the engine workspace: a converted array (None when the
      array's rank is not supported) or a value passed as it is. */
  datatype WorkspaceValue<T> = Converted(init: Option<DoubleInit<T>>) | Passed(x: T)

  /** What `eng.workspace[key] = ...` receives for a dict value: an array
      goes through `numpy_to_matlab` as written, anything else is passed as
      it is. */
  function ToWorkspace<T>(v: PyValue<T>): (r: WorkspaceValue<T>)
    ensures v.Plain? ==> r == Passed(v.x)
    ensures v.Array? && v.nd.Vector? ==> r == Converted(Some(FlatList(v.nd.items)))
    ensures v.Array? && v.nd.OtherRank? ==> r == Converted(None)
    ensures v.Array? && v.nd.Matrix? ==>
              && r.Converted? && r.init.Some? && r.init.value.NestedList?
              && |r.init.value.lists| == v.nd.table.width
              && forall j :: 0 <= j < v.nd.table.width ==> r.init.value.lists[j] == Column(v.nd.table, j)
  {
    match v
    case Array(a) => Converted(NumpyToMatlabAsWritten(a))
    case Plain(x) => Passed(x)
  }

  /** The workspace after `eng.workspace[key] = value` for every entry,
      with every variable the dict does not name kept. */
  function Assign<T>(ws: map<string, WorkspaceValue<T>>, dict: map<string, PyValue<T>>): (r: map<string, WorkspaceValue<T>>)
    ensures r.Keys == ws.Keys + dict.Keys
    ensures forall k :: k in dict ==> r[k] == ToWorkspace(dict[k])
    ensures forall k :: k in ws && k !in dict ==> r[k] == ws[k]
  {
    ws + map k | k in dict :: ToWorkspace(dict[k])
  }

  /** The variables `eng.save(file_path, '-v7.3')` writes as the code has
      it: without a variable list MATLAB saves the whole workspace. */
  function SavedAsWritten<T>(ws: map<string, WorkspaceValue<T>>, dict: map<string, PyValue<T>>): map<string, WorkspaceValue<T>>
  {
    Assign(ws, dict)
  }

  /** A variable assigned by an earlier save in the same engine session is
      written again by a later save that does not mention it. */
  lemma StaleVariableIsSaved()
    ensures var ws: map<string, WorkspaceValue<int>> := map["raw_data" := Passed(0)];
      var dict: map<string, PyValue<int>> := map["acceleration" := Plain(1)];
      "raw_data" in SavedAsWritten(ws, dict) && "raw_data" !in dict
  {
    var ws: map<string, WorkspaceValue<int>> := map["raw_data" := Passed(0)];
    var dict: map<string, PyValue<int>> := map["acceleration" := Plain(1)];
    assert "raw_data" in ws;
  }

  /** The variables a save writes once the variable list is passed: exactly
      the entries of `dict`, each converted, whatever else the workspace
      holds. */
  function SavedVariables<T>(ws: map<string, WorkspaceValue<T>>, dict: map<string, PyValue<T>>): (r: map<string, WorkspaceValue<T>>)
    ensures r.Keys == dict.Keys
    ensures forall k :: k in dict ==> r[k] == ToWorkspace(dict[k])
  {
    var after := Assign(ws, dict);
    map k | k in dict :: after[k]
  }

  /** The two agree exactly when nothing stale is left in the workspace. */
  lemma SavedAsWrittenAgreesOnFreshWorkspace<T>(ws: map<string, WorkspaceValue<T>>, dict: map<string, PyValue<T>>)
    ensures SavedAsWritten(ws, dict) == SavedVariables(ws, dict) <==> ws.Keys <= dict.Keys
  {
    if ws.Keys <= dict.Keys {
      assert SavedAsWritten(ws, dict).Keys == dict.Keys;
    } else {
      var k :| k in ws.Keys && k !in dict.Keys;
      assert k in SavedAsWritten(ws, dict) && k !in SavedVariables(ws, dict);
    }
  }

  /** A request the interface makes of the engine. */
  datatype EngineCall<T> =
    | AddPath(path: string)
    | Call(name: string, args: seq<string>)
    | Save(path: string, variables: map<string, WorkspaceValue<T>>)
    | PlotTime(data: Option<DoubleInit<T>>, sampleRate: real, title: string)
    | PlotFreq(data: Option<DoubleInit<T>>, sampleRate: real, title: string)

  /** The engine handle and what has been asked of the engine. */
  class MatlabInterface<T> {
    /** `self.eng is not None` */
    var engineRunning: bool
    var functionsPath: Option<string>
    /** The variables assigned in the running engine's workspace. */
    var workspace: map<string, WorkspaceValue<T>>
    /** Every request sent to an engine, oldest first. */
    var calls: seq<EngineCall<T>>

    /** Without an engine there is no workspace. */
    ghost predicate Valid()
      reads this
    {
      !engineRunning ==> workspace == map[]
    }

    constructor ()
      ensures Valid() && !engineRunning && functionsPath == None && calls == []
    {
      engineRunning := false;
      functionsPath := None;
      workspace := map[];
      calls := [];
    }

    /** `start_engine`: `started` is whether `start_matlab()` returned. A new
        engine replaces any previous handle and brings an empty workspace. */
    method StartEngine(started: bool) returns (ok: bool)
      requires Valid()
      modifies this
      ensures Valid() && ok == started
      ensures engineRunning == (started || old(engineRunning))
      ensures workspace == if started then map[] else old(workspace)
      ensures functionsPath == old(functionsPath) && calls == old(calls)
    {
      if started {
        engineRunning := true;
        workspace := map[];
      }
      ok := started;
    }

    /** `stop_engine`: succeeds at once when there is no engine; otherwise
        `quitOk` is whether `quit()` returned, and only then is the handle
        cleared. */
    method StopEngine(quitOk: bool) returns (ok: bool)
      requires Valid()
      modifies this
      ensures Valid()
      ensures ok == (!old(engineRunning) || quitOk)
      ensures engineRunning == (old(engineRunning) && !quitOk)
      ensures old(engineRunning) && !quitOk ==> workspace == old(workspace)
      ensures functionsPath == old(functionsPath) && calls == old(calls)
    {
      if engineRunning {
        if quitOk {
          engineRunning := false;
          workspace := map[];
          ok := true;
        } else {
          ok := false;
        }
      } else {
        ok := true;
      }
    }

    /** `set_functions_path`: the path is always recorded; it is added to a
        running engine's search path, and the result is False without one. */
    method SetFunctionsPath(path: string, added: bool) returns (ok: bool)
      requires Valid()
      modifies this
      ensures Valid() && functionsPath == Some(path)
      ensures ok == (engineRunning && added)
      ensures calls == if engineRunning then old(calls) + [AddPath(path)] else old(calls)
      ensures engineRunning == old(engineRunning) && workspace == old(workspace)
    {
      functionsPath := Some(path);
      if engineRunning {
        calls := calls + [AddPath(path)];
        ok := added;
      } else {
        ok := false;
      }
    }

    /** `call_function`: None without an engine; otherwise the engine's
        answer, None when the call raised. */
    method CallFunction<R>(name: string, args: seq<string>, answer: Option<R>) returns (r: Option<R>)
      requires Valid()
      modifies this
      ensures Valid()
      ensures r == if engineRunning then answer else None
      ensures calls == if engineRunning then old(calls) + [Call(name, args)] else old(calls)
      ensures engineRunning == old(engineRunning) && workspace == old(workspace)
      ensures functionsPath == old(functionsPath)
    {
      if !engineRunning {
        return None;
      }
      calls := calls + [Call(name, args)];
      r := answer;
    }

    /** `load_mat_file`: None without an engine; otherwise the engine's
        answer (the file's variables in order), None when loading raised. */
    method LoadMatFile(path: string, answer: Option<seq<(string, EngineValue<T>)>>)
      returns (r: Option<seq<(string, EngineValue<T>)>>)
      ensures r.Some? ==> engineRunning && r == answer
      ensures engineRunning ==> r == answer
    {
      if !engineRunning {
        return None;
      }
      r := answer;
    }

    /** `save_mat_file`: False without an engine, touching nothing. Otherwise
        every entry goes into the workspace (arrays through
        `numpy_to_matlab` as written, other values unchanged), the save is
        requested without a variable list, so it writes the whole workspace,
        and the result is whether the engine saved. */
    method SaveMatFile(path: string, dict: map<string, PyValue<T>>, saved: bool) returns (ok: bool)
      requires Valid()
      modifies this
      ensures Valid()
      ensures ok == (engineRunning && saved)
      ensures !engineRunning ==> workspace == old(workspace) && calls == old(calls)
      ensures engineRunning ==> workspace == Assign(old(workspace), dict)
      ensures engineRunning ==> calls == old(calls) + [Save(path, SavedAsWritten(old(workspace), dict))]
      ensures engineRunning == old(engineRunning) && functionsPath == old(functionsPath)
    {
      if !engineRunning {
        return false;
      }
      var ws := workspace;
      var keys := dict.Keys;
      while keys != {}
        invariant keys <= dict.Keys
        invariant ws.Keys == old(workspace).Keys + (dict.Keys - keys)
        invariant forall k :: k in dict && k !in keys ==> ws[k] == ToWorkspace(dict[k])
        invariant forall k :: k in old(workspace) && (k !in dict || k in keys) ==> ws[k] == old(workspace)[k]
        decreases keys
      {
        var k :| k in keys;
        ws := ws[k := ToWorkspace(dict[k])];
        keys := keys - {k};
      }
      assert ws == Assign(old(workspace), dict);
      workspace := ws;
      calls := calls + [Save(path, ws)];
      ok := saved;
    }

    /** `plot_time_domain`: False without an engine, touching nothing;
        otherwise the data, converted by `numpy_to_matlab` as written, is
        sent and the result is whether the engine plotted. */
    method PlotTimeDomain(data: NdArray<T>, sampleRate: real, title: string, plotted: bool) returns (ok: bool)
      requires Valid()
      modifies this
      ensures Valid()
      ensures ok == (engineRunning && plotted)
      ensures calls == if engineRunning then old(calls) + [PlotTime(NumpyToMatlabAsWritten(data), sampleRate, title)] else old(calls)
      ensures engineRunning == old(engineRunning) && workspace == old(workspace)
      ensures functionsPath == old(functionsPath)
    {
      if !engineRunning {
        return false;
      }
      calls := calls + [PlotTime(NumpyToMatlabAsWritten(data), sampleRate, title)];
      ok := plotted;
    }

    /** `plot_freq_domain`: as `PlotTimeDomain`, for the spectrum plot. */
    method PlotFreqDomain(data: NdArray<T>, sampleRate: real, title: string, plotted: bool) returns (ok: bool)
      requires Valid()
      modifies this
      ensures Valid()
      ensures ok == (engineRunning && plotted)
      ensures calls == if engineRunning then old(calls) + [PlotFreq(NumpyToMatlabAsWritten(data), sampleRate, title)] else old(calls)
      ensures engineRunning == old(engineRunning) && workspace == old(workspace)
      ensures functionsPath == old(functionsPath)
    {
      if !engineRunning {
        return false;
      }
      calls := calls + [PlotFreq(NumpyToMatlabAsWritten(data), sampleRate, title)];
      ok := plotted;
    }
  }
}
