/** The file handler: picks a reader by extension, collapses a single
    result to a bare table, partitions a table's columns by a mapping and
    converts a file into a MATLAB file through the interface. The readers
    (pandas, the engine's `load`) are parameters. */
module FileHandling {
  import opened Tables
  import opened Channels
  import Paths
  import opened Matlab

  /** `str.lower()` on one character, for the ASCII letters. */
  function LowerChar(c: char): char
  {
    if 'A' <= c <= 'Z' then (c as int + 32) as char else c
  }

  function Lower(s: string): (r: string)
    ensures |r| == |s| && forall k :: 0 <= k < |s| ==> r[k] == LowerChar(s[k])
  {
    seq(|s|, k requires 0 <= k < |s| => LowerChar(s[k]))
  }

  /** The reader a file is handed to. */
  datatype Format = Excel | Csv | Mat | OtherFormat

  /** The lower-cased extension selects the reader: `.xlsx` and `.xls` the
      Excel reader, `.csv` the CSV reader, `.mat` the MAT reader. */
  function FormatOf(path: string): Format
  {
    var ext := Lower(Paths.Extension(path));
    if ext == ".xlsx" || ext == ".xls" then Excel
    else if ext == ".csv" then Csv
    else if ext == ".mat" then Mat
    else OtherFormat
  }

  lemma LastIndexOfLower(p: string, c: char)
    requires c == '/' || c == '.'
    ensures Paths.LastIndexOf(Lower(p), c) == Paths.LastIndexOf(p, c)
  {
    var r := Paths.LastIndexOf(p, c);
    Paths.LastIndexOfUnique(Lower(p), c, r);
  }

  lemma LowerSlice(p: string, a: nat, b: nat)
    requires a <= b <= |p|
    ensures Lower(p)[a..b] == Lower(p[a..b])
  {
  }

  lemma {:induction false} HasNonDotLower(s: string)
    ensures Paths.HasNonDot(Lower(s)) <==> Paths.HasNonDot(s)
    decreases |s|
  {
    if s != [] {
      assert Lower(s)[1..] == Lower(s[1..]);
      HasNonDotLower(s[1..]);
    }
  }

  /** Lower-casing commutes with taking the extension: case never moves a
      separator or a dot. */
  lemma ExtensionOfLower(p: string)
    ensures Paths.Extension(Lower(p)) == Lower(Paths.Extension(p))
  {
    var q := Lower(p);
    LastIndexOfLower(p, '/');
    LastIndexOfLower(p, '.');
    var sep := Paths.LastIndexOf(p, '/');
    var dot := Paths.LastIndexOf(p, '.');
    if dot > sep {
      LowerSlice(p, sep + 1, dot);
      LowerSlice(p, dot, |p|);
      HasNonDotLower(p[sep + 1..dot]);
      assert p[dot..|p|] == p[dot..];
      assert q[dot..|p|] == q[dot..];
      if Paths.HasNonDot(p[sep + 1..dot]) {
        assert Paths.Extension(p) == p[dot..];
        assert Paths.Extension(q) == q[dot..];
      } else {
        assert Paths.Extension(p) == [];
        assert Paths.Extension(q) == [];
      }
    } else {
      assert Paths.Extension(p) == [];
      assert Paths.Extension(q) == [];
    }
  }

  /** Extension matching ignores case: two paths that differ only in the
      case of their letters go to the same reader. */
  lemma FormatOfIgnoresCase(p: string, q: string)
    requires Lower(p) == Lower(q)
    ensures FormatOf(p) == FormatOf(q)
  {
    ExtensionOfLower(p);
    ExtensionOfLower(q);
  }

  lemma MatExtension(p: string)
    requires Paths.Extension(p) == ".mat"
    ensures FormatOf(p) == Mat
  {
    assert Lower(".mat") == ".mat";
  }

  /** The file the import dialog converts into is itself read by the MAT
      reader. */
  lemma ConvertedFileIsMat(input: string)
    ensures FormatOf(Paths.OutputPath(input)) == Mat
  {
    Paths.OutputPathShape(input);
    MatExtension(Paths.OutputPath(input));
  }

  /** What a reader returns: a bare table, or a list of tables. */
  datatype ReadResult<T> = One(table: Table<T>) | Many(tables: seq<Table<T>>)

  /** `all_data[0] if len(all_data) == 1 else all_data` */
  function Collapse<T>(tables: seq<Table<T>>): ReadResult<T>
  {
    if |tables| == 1 then One(tables[0]) else Many(tables)
  }

  /** The tables a read result holds, in order. */
  function TablesOf<T>(r: ReadResult<T>): seq<Table<T>>
  {
    match r
    case One(t) => [t]
    case Many(ts) => ts
  }

  /** Collapsing loses nothing: a bare table exactly when there was one, a
      list otherwise (an empty list when there were none). */
  lemma CollapseKeepsTables<T>(tables: seq<Table<T>>)
    ensures TablesOf(Collapse(tables)) == tables
    ensures Collapse(tables).One? <==> |tables| == 1
    ensures tables == [] ==> Collapse(tables) == Many([])
  {
    if |tables| == 1 {
      assert [tables[0]] == tables;
    }
  }

  /** `data[0] if isinstance(data, list) else data`: the first table, or
      IndexError on an empty list. */
  function FirstTable<T>(r: ReadResult<T>): (t: Outcome<Table<T>>)
    ensures t.IndexError? <==> TablesOf(r) == []
    ensures t.Normal? ==> t.value == TablesOf(r)[0]
  {
    match r
    case One(t) => Normal(t)
    case Many(ts) => if ts == [] then IndexError else Normal(ts[0])
  }

  /** The table a MAT-file variable contributes: the converted array for a
      `matlab.double` or `matlab.single`, nothing for anything else. */
  function Kept<T>(v: EngineValue<T>): seq<Table<T>>
  {
    if IsNumeric(v) then [FortranReshape(v.arr)] else []
  }

  /** The numeric variables of a loaded MAT file, converted, in order. */
  function NumericTables<T>(items: seq<(string, EngineValue<T>)>): (r: seq<Table<T>>)
    ensures |r| <= |items|
  {
    if items == [] then [] else Kept(items[0].1) + NumericTables(items[1..])
  }

  /** One more variable adds its own table, if any, at the end. */
  lemma {:induction false} NumericTablesAppend<T>(items: seq<(string, EngineValue<T>)>, x: (string, EngineValue<T>))
    ensures NumericTables(items + [x]) == NumericTables(items) + Kept(x.1)
    decreases |items|
  {
    if items != [] {
      assert (items + [x])[1..] == items[1..] + [x];
      NumericTablesAppend(items[1..], x);
    } else {
      assert (items + [x])[1..] == [];
    }
  }

  /** When every variable is numeric, each one is kept, in order. */
  lemma {:induction false} NumericTablesAllNumeric<T>(items: seq<(string, EngineValue<T>)>)
    requires forall k :: 0 <= k < |items| ==> IsNumeric(items[k].1)
    ensures |NumericTables(items)| == |items|
    ensures forall k :: 0 <= k < |items| ==> MatlabToNumpy(items[k].1) == Some(Matrix(NumericTables(items)[k]))
    decreases |items|
  {
    if items != [] {
      NumericTablesAllNumeric(items[1..]);
    }
  }

  /** Variables that are not numeric arrays are dropped. */
  lemma {:induction false} NumericTablesNoneNumeric<T>(items: seq<(string, EngineValue<T>)>)
    requires forall k :: 0 <= k < |items| ==> !IsNumeric(items[k].1)
    ensures NumericTables(items) == []
    decreases |items|
  {
    if items != [] {
      NumericTablesNoneNumeric(items[1..]);
    }
  }

  /** The answers of the libraries the readers call, for a given path:
      `pd.read_excel(path, sheet_name=None)` as the sheets' values in
      workbook order, `pd.read_csv(path)` as a table, and the engine's
      `load(path)` as the file's variables in order; None when the call
      raises. */
  datatype Sources<T> = Sources(
    excel: string -> Option<seq<Table<T>>>,
    csv: string -> Option<Table<T>>,
    mat: string -> Option<seq<(string, EngineValue<T>)>>)

  /** `read_file`: the result of the reader the extension selects, None for
      an unsupported extension or a failing reader. The MAT reader needs an
      interface and a running engine. */
  function ReadSpec<T>(path: string, src: Sources<T>, hasInterface: bool, running: bool): Option<ReadResult<T>>
  {
    match FormatOf(path)
    case Excel => (match src.excel(path) case None => None case Some(sheets) => Some(Collapse(sheets)))
    case Csv => (match src.csv(path) case None => None case Some(t) => Some(One(t)))
    case Mat =>
      if !hasInterface || !running then None
      else (match src.mat(path) case None => None case Some(items) => Some(Collapse(NumericTables(items))))
    case OtherFormat => None
  }

  /** A supported extension and a reader that answers never give None; a
      MAT file with no numeric variable gives an empty list. */
  lemma ReadSpecOutcomes<T>(path: string, src: Sources<T>, hasInterface: bool, running: bool)
    ensures FormatOf(path) == OtherFormat ==> ReadSpec(path, src, hasInterface, running) == None
    ensures FormatOf(path) == Mat && !(hasInterface && running) ==> ReadSpec(path, src, hasInterface, running) == None
    ensures FormatOf(path) == Csv && src.csv(path).Some? ==>
              ReadSpec(path, src, hasInterface, running) == Some(One(src.csv(path).value))
    ensures FormatOf(path) == Excel && src.excel(path).Some? ==>
              ReadSpec(path, src, hasInterface, running).Some? &&
              TablesOf(ReadSpec(path, src, hasInterface, running).value) == src.excel(path).value
    ensures FormatOf(path) == Mat && hasInterface && running && src.mat(path).Some? &&
            (forall k :: 0 <= k < |src.mat(path).value| ==> !IsNumeric(src.mat(path).value[k].1)) ==>
              ReadSpec(path, src, hasInterface, running) == Some(Many([]))
  {
    if FormatOf(path) == Excel && src.excel(path).Some? {
      CollapseKeepsTables(src.excel(path).value);
    }
    if FormatOf(path) == Mat && hasInterface && running && src.mat(path).Some? &&
       (forall k :: 0 <= k < |src.mat(path).value| ==> !IsNumeric(src.mat(path).value[k].1)) {
      NumericTablesNoneNumeric(src.mat(path).value);
    }
  }

  /** The dict `_apply_data_mapping` builds, keyed by field. */
  type Record<T> = map<Field, NdArray<T>>

  /** Every numpy selection `_apply_data_mapping` makes stays inside the
      table: all acceleration and gyroscope indices, and the first noise
      index. */
  predicate Selectable<T>(data: Table<T>, m: Mapping)
  {
    && AllBelow(Get(m, Acceleration), data.width)
    && AllBelow(Get(m, Gyroscope), data.width)
    && (Get(m, Noise) == [] || Get(m, Noise)[0] < data.width)
  }

  /** `[col for col in range(width) if col not in mapped]` */
  function Unmapped(width: nat, mapped: seq<nat>): (r: seq<nat>)
    ensures forall a, b :: 0 <= a < b < |r| ==> r[a] < r[b]
    ensures AllBelow(r, width)
  {
    if width == 0 then []
    else Unmapped(width - 1, mapped) + (if width - 1 in mapped then [] else [width - 1])
  }

  /** The complement holds exactly the columns the mapping leaves out. */
  lemma {:induction false} UnmappedMembers(width: nat, mapped: seq<nat>)
    ensures forall c: nat :: c in Unmapped(width, mapped) <==> c < width && c !in mapped
    decreases width
  {
    if width > 0 {
      UnmappedMembers(width - 1, mapped);
      var rest := Unmapped(width - 1, mapped);
      assert Unmapped(width, mapped) == rest + (if width - 1 in mapped then [] else [width - 1]);
    }
  }

  /** The columns of a `width`-wide table that `mapped` mentions. */
  function MappedBelow(width: nat, mapped: seq<nat>): (r: set<nat>)
    ensures forall c :: c in r ==> c < width
  {
    if width == 0 then {}
    else MappedBelow(width - 1, mapped) + (if width - 1 in mapped then {width - 1} else {})
  }

  /** The complement and the mapped columns split the table: their sizes
      add up to its width. */
  lemma {:induction false} UnmappedCount(width: nat, mapped: seq<nat>)
    ensures |Unmapped(width, mapped)| + |MappedBelow(width, mapped)| == width
    decreases width
  {
    if width > 0 {
      UnmappedCount(width - 1, mapped);
      CountStep(width, mapped);
    }
  }

  /** Column `width - 1` adds one to exactly one of the two counts. */
  lemma CountStep(width: nat, mapped: seq<nat>)
    requires width > 0
    ensures |Unmapped(width, mapped)| == |Unmapped(width - 1, mapped)| + (if width - 1 in mapped then 0 else 1)
    ensures |MappedBelow(width, mapped)| == |MappedBelow(width - 1, mapped)| + (if width - 1 in mapped then 1 else 0)
  {
    var below := MappedBelow(width - 1, mapped);
    assert width - 1 !in below;
  }

  /** The record of a selectable table, entry by entry as
      `_apply_data_mapping` inserts them. */
  function Partition<T>(data: Table<T>, m: Mapping): Record<T>
    requires Selectable(data, m)
  {
    var acc, gyro, noise := Get(m, Acceleration), Get(m, Gyroscope), Get(m, Noise);
    var r1: Record<T> := if acc != [] then map[GroupField(Acceleration) := Matrix(SelectColumns(data, acc))] else map[];
    var r2 := if gyro != [] then r1[GroupField(Gyroscope) := Matrix(SelectColumns(data, gyro))] else r1;
    var r3 := if noise != [] then r2[GroupField(Noise) := Vector(Column(data, noise[0]))] else r2;
    var all := AllMapped(m);
    var unmapped := Unmapped(data.width, all);
    if all == [] then r3[RawData := Matrix(data)]
    else if unmapped != [] then r3[OtherData := Matrix(SelectColumns(data, unmapped))]
    else r3
  }

  /** `_apply_data_mapping`: the record, or the IndexError numpy raises for
      an index outside the table. */
  function MappedData<T>(data: Table<T>, m: Mapping): Outcome<Record<T>>
  {
    if Selectable(data, m) then Normal(Partition(data, m)) else IndexError
  }

  /** What each entry of the record holds. */
  lemma MappedDataEntries<T>(data: Table<T>, m: Mapping)
    ensures MappedData(data, m).IndexError? <==> !Selectable(data, m)
    ensures var r := MappedData(data, m); var acc := Get(m, Acceleration);
      r.Normal? ==> (GroupField(Acceleration) in r.value <==> acc != []) &&
                    (acc != [] ==> r.value[GroupField(Acceleration)] == Matrix(SelectColumns(data, acc)))
    ensures var r := MappedData(data, m); var gyro := Get(m, Gyroscope);
      r.Normal? ==> (GroupField(Gyroscope) in r.value <==> gyro != []) &&
                    (gyro != [] ==> r.value[GroupField(Gyroscope)] == Matrix(SelectColumns(data, gyro)))
    ensures var r := MappedData(data, m); var noise := Get(m, Noise);
      r.Normal? ==> (GroupField(Noise) in r.value <==> noise != []) &&
                    (noise != [] ==> r.value[GroupField(Noise)] == Vector(Column(data, noise[0])))
    ensures var r := MappedData(data, m); var all := AllMapped(m);
      r.Normal? ==> (RawData in r.value <==> all == []) &&
                    (all == [] ==> r.value[RawData] == Matrix(data))
    ensures var r := MappedData(data, m); var all := AllMapped(m); var rest := Unmapped(data.width, all);
      r.Normal? ==> (OtherData in r.value <==> all != [] && rest != []) &&
                    (OtherData in r.value ==> r.value[OtherData] == Matrix(SelectColumns(data, rest)))
    ensures var r := MappedData(data, m);
      r.Normal? ==> !(OtherData in r.value && RawData in r.value)
  {
  }

  /** Every array in the record keeps the table's row count. */
  lemma MappedDataKeepsRows<T>(data: Table<T>, m: Mapping)
    requires MappedData(data, m).Normal?
    ensures var r := MappedData(data, m).value;
      forall f :: f in r ==> (r[f].Matrix? && |r[f].table.rows| == |data.rows|) || (r[f].Vector? && |r[f].items| == |data.rows|)
  {
    MappedDataEntries(data, m);
    var r := MappedData(data, m).value;
    forall f | f in r
      ensures (r[f].Matrix? && |r[f].table.rows| == |data.rows|) || (r[f].Vector? && |r[f].items| == |data.rows|)
    {
      match f
      case GroupField(Acceleration) =>
      case GroupField(Gyroscope) =>
      case GroupField(Noise) =>
      case OtherData =>
      case RawData =>
    }
  }

  /** With at most one noise index, no column is lost: each one is an
      acceleration or gyroscope column, or the stored noise column, or goes
      to `other_data`, or the whole table goes to `raw_data`. (Only the
      first noise index is stored, so a second one would be lost.) */
  lemma MappedDataCoversColumns<T>(data: Table<T>, m: Mapping, c: nat)
    requires MappedData(data, m).Normal? && |Get(m, Noise)| <= 1 && c < data.width
    ensures var r := MappedData(data, m).value;
      || c in Get(m, Acceleration) || c in Get(m, Gyroscope)
      || (Get(m, Noise) != [] && c == Get(m, Noise)[0])
      || (OtherData in r && c in Unmapped(data.width, AllMapped(m)))
      || RawData in r
  {
    var noise := Get(m, Noise);
    if c in noise {
      assert noise == [noise[0]];
    } else {
      MappedDataEntries(data, m);
      var all := AllMapped(m);
      UnmappedMembers(data.width, all);
      if c !in all && all != [] {
        assert c in Unmapped(data.width, all);
      }
    }
  }

  /** A mapping whose lists are all empty gives the same record as no
      mapping at all: the whole table as `raw_data`. */
  lemma EmptyListsGiveRawData<T>(data: Table<T>, m: Mapping)
    requires AllMapped(m) == []
    ensures MappedData(data, m) == Normal(map[RawData := Matrix(data)])
  {
    assert Get(m, Acceleration) == [] && Get(m, Gyroscope) == [] && Get(m, Noise) == [];
  }

  lemma NothingUnmapped(width: nat, mapped: seq<nat>)
    requires forall c: nat :: c < width ==> c in mapped
    ensures Unmapped(width, mapped) == []
  {
    UnmappedMembers(width, mapped);
    if Unmapped(width, mapped) != [] {
      assert Unmapped(width, mapped)[0] in Unmapped(width, mapped);
    }
  }

  /** The acceleration and gyroscope arrays have one column per listed
      index and the table's row count. */
  lemma GroupShapes<T>(data: Table<T>, m: Mapping)
    requires MappedData(data, m).Normal?
    ensures var r := MappedData(data, m).value;
      forall g :: GroupField(g) in r && g != Noise ==>
        r[GroupField(g)].Matrix? && |r[GroupField(g)].table.rows| == |data.rows| && r[GroupField(g)].table.width == |Get(m, g)|
  {
    MappedDataEntries(data, m);
  }

  /** When every column is mapped, with acceleration and gyroscope lists
      but no noise, the record holds just those two arrays. */
  lemma CoveredKeys<T>(data: Table<T>, m: Mapping)
    requires Selectable(data, m)
    requires Get(m, Acceleration) != [] && Get(m, Gyroscope) != [] && Get(m, Noise) == []
    requires forall c: nat :: c < data.width ==> c in AllMapped(m)
    ensures MappedData(data, m).Normal?
    ensures MappedData(data, m).value.Keys == {GroupField(Acceleration), GroupField(Gyroscope)}
  {
    NothingUnmapped(data.width, AllMapped(m));
    MappedDataEntries(data, m);
    var r := MappedData(data, m).value;
    forall f: Field ensures f in r <==> f in {GroupField(Acceleration), GroupField(Gyroscope)} {
      if f.GroupField? {
        assert f == GroupField(f.group);
      }
    }
  }

  lemma SixColumnKeys<T>(data: Table<T>, m: Mapping)
    requires data.width == 6
    requires Get(m, Acceleration) == [0, 1, 2] && Get(m, Gyroscope) == [3, 4, 5] && Get(m, Noise) == []
    ensures MappedData(data, m).Normal?
    ensures MappedData(data, m).value.Keys == {GroupField(Acceleration), GroupField(Gyroscope)}
  {
    var all := AllMapped(m);
    assert all == [0, 1, 2, 3, 4, 5];
    forall c: nat | c < data.width ensures c in all {
      assert all[c] == c;
    }
    CoveredKeys(data, m);
  }

  /** A 100 x 6 table with the first three columns as acceleration and the
      last three as gyroscope yields two 100 x 3 arrays and nothing else. */
  lemma SixColumnScenario<T>(data: Table<T>, m: Mapping)
    requires |data.rows| == 100 && data.width == 6
    requires Get(m, Acceleration) == [0, 1, 2] && Get(m, Gyroscope) == [3, 4, 5] && Get(m, Noise) == []
    ensures MappedData(data, m).Normal?
    ensures MappedData(data, m).value.Keys == {GroupField(Acceleration), GroupField(Gyroscope)}
    ensures var r := MappedData(data, m).value;
      && |r[GroupField(Acceleration)].table.rows| == 100 && r[GroupField(Acceleration)].table.width == 3
      && |r[GroupField(Gyroscope)].table.rows| == 100 && r[GroupField(Gyroscope)].table.width == 3
  {
    SixColumnKeys(data, m);
    GroupShapes(data, m);
  }

  /** `if data_mapping:` on an optional dict: a missing or empty dict is
      falsy. */
  predicate Truthy(mapping: Option<Mapping>)
  {
    mapping.Some? && mapping.value != map[]
  }

  /** The record `convert_to_mat` writes for what was read: the first
      table, partitioned by a truthy mapping, else the whole table as
      `raw_data`. */
  function ConvertedRecord<T>(read: ReadResult<T>, mapping: Option<Mapping>): Outcome<Record<T>>
  {
    match FirstTable(read)
    case IndexError => IndexError
    case Normal(t) => if Truthy(mapping) then MappedData(t, mapping.value) else Normal(map[RawData := Matrix(t)])
  }

  /** Whether the mapping is truthy makes no difference when it maps
      nothing. */
  lemma ConvertedRecordIgnoresEmptyMapping<T>(read: ReadResult<T>, m: Mapping)
    requires AllMapped(m) == []
    ensures ConvertedRecord(read, Some(m)) == ConvertedRecord(read, None)
  {
    if FirstTable(read).Normal? {
      EmptyListsGiveRawData(FirstTable(read).value, m);
    }
  }

  /** What `convert_to_mat` hands to the writer: nothing when reading
      yields None, IndexError when the first table cannot be taken or
      partitioned, otherwise the converted record as a dict. */
  function ConvertedDict<T>(input: string, mapping: Option<Mapping>, src: Sources<T>,
                            hasInterface: bool, running: bool): Outcome<Option<map<string, PyValue<T>>>>
  {
    match ReadSpec(input, src, hasInterface, running)
    case None => Normal(None)
    case Some(read) =>
      match ConvertedRecord(read, mapping)
      case IndexError => IndexError
      case Normal(record) => Normal(Some(AsDict(record)))
  }

  /** `convert_to_mat`'s result: False when nothing is handed to the
      writer, IndexError as above, otherwise whether the write succeeded,
      which needs an interface, a running engine and a successful save. */
  function ConvertOutcome<T>(input: string, mapping: Option<Mapping>, src: Sources<T>,
                             hasInterface: bool, running: bool, saved: bool): Outcome<bool>
  {
    match ConvertedDict(input, mapping, src, hasInterface, running)
    case IndexError => IndexError
    case Normal(None) => Normal(false)
    case Normal(Some(_)) => Normal(hasInterface && running && saved)
  }

  /** A conversion reports success only after a file was read, a record
      built and a save requested from a running engine that succeeded. */
  lemma ConvertSuccessNeedsSave<T>(input: string, mapping: Option<Mapping>, src: Sources<T>,
                                   hasInterface: bool, running: bool, saved: bool)
    ensures ConvertOutcome(input, mapping, src, hasInterface, running, saved) == Normal(true) <==>
      && ReadSpec(input, src, hasInterface, running).Some?
      && ConvertedRecord(ReadSpec(input, src, hasInterface, running).value, mapping).Normal?
      && hasInterface && running && saved
  {
  }

  /** A file of any supported format read without a MAT interface can
      still be converted, but the write then fails. */
  lemma ConvertWithoutInterfaceFails<T>(input: string, mapping: Option<Mapping>, src: Sources<T>, saved: bool)
    ensures ConvertOutcome(input, mapping, src, false, false, saved) != Normal(true)
    ensures FormatOf(input) == Mat ==> ConvertOutcome(input, mapping, src, false, false, saved) == Normal(false)
  {
  }

  /** The dict handed to the writer: each field under its variable name. */
  function AsDict<T>(r: Record<T>): map<string, PyValue<T>>
  {
    map f | f in r :: FieldName(f) := Array(r[f])
  }

  /** The dict holds each field of the record, and nothing else, under
      the field's own name, so it has as many entries as the record. */
  lemma AsDictEntries<T>(r: Record<T>)
    ensures forall f :: f in r <==> FieldName(f) in AsDict(r)
    ensures forall f :: f in r ==> AsDict(r)[FieldName(f)] == Array(r[f])
    ensures |AsDict(r)| == |r|
  {
    NamedEntries(r);
    NamesCount(r);
  }

  /** Only the record's own fields name an entry of the dict. */
  lemma NamedEntries<T>(r: Record<T>)
    ensures forall f :: f in r <==> FieldName(f) in AsDict(r)
  {
    var d := AsDict(r);
    forall f | FieldName(f) in d ensures f in r {
      var h :| h in r && FieldName(h) == FieldName(f);
      FieldNameInjective(h, f);
    }
  }

  lemma NamesCount<T>(r: Record<T>)
    ensures |AsDict(r)| == |r|
  {
    var d := AsDict(r);
    var names := set f | f in r :: FieldName(f);
    assert d.Keys == names;
    InjectiveImageSize(r.Keys);
  }

  lemma {:induction false} InjectiveImageSize(fields: set<Field>)
    ensures |set f | f in fields :: FieldName(f)| == |fields|
    decreases |fields|
  {
    if fields != {} {
      var f :| f in fields;
      var rest := fields - {f};
      InjectiveImageSize(rest);
      var names := set h | h in fields :: FieldName(h);
      var restNames := set h | h in rest :: FieldName(h);
      assert names == restNames + {FieldName(f)};
      assert FieldName(f) !in restNames by {
        if FieldName(f) in restNames {
          var h :| h in rest && FieldName(h) == FieldName(f);
          FieldNameInjective(h, f);
        }
      }
    }
  }

  /** The reader and converter object; it holds an optional MATLAB
      interface. */
  class FileHandler<T> {
    var matlab: MatlabInterface?<T>

    constructor (matlab: MatlabInterface?<T>)
      ensures this.matlab == matlab
    {
      this.matlab := matlab;
    }

    /** `set_matlab_interface` */
    method SetMatlabInterface(matlab: MatlabInterface?<T>)
      modifies this
      ensures this.matlab == matlab
    {
      this.matlab := matlab;
    }

    /** `_read_excel`: every sheet's values in workbook order, collapsed;
        None when pandas raises. */
    method ReadExcel(path: string, src: Sources<T>) returns (r: Option<ReadResult<T>>)
      ensures src.excel(path).None? ==> r.None?
      ensures src.excel(path).Some? ==> r == Some(Collapse(src.excel(path).value))
    {
      var workbook := src.excel(path);
      if workbook.None? {
        return None;
      }
      var sheets := workbook.value;
      var allData: seq<Table<T>> := [];
      var i := 0;
      while i < |sheets|
        invariant 0 <= i <= |sheets| && allData == sheets[..i]
      {
        allData := allData + [sheets[i]];
        i := i + 1;
      }
      assert sheets[..|sheets|] == sheets;
      if |allData| == 1 {
        return Some(One(allData[0]));
      }
      return Some(Many(allData));
    }

    /** `_read_csv`: the table, or None when pandas raises. */
    method ReadCsv(path: string, src: Sources<T>) returns (r: Option<ReadResult<T>>)
      ensures r.Some? <==> src.csv(path).Some?
      ensures r.Some? ==> r.value == One(src.csv(path).value)
    {
      var table := src.csv(path);
      if table.None? {
        return None;
      }
      return Some(One(table.value));
    }

    /** `_read_mat`: None without an interface or when loading fails;
        otherwise the numeric variables, converted and in order, collapsed. */
    method ReadMat(path: string, src: Sources<T>) returns (r: Option<ReadResult<T>>)
      ensures matlab == null ==> r.None?
      ensures matlab != null && !matlab.engineRunning ==> r.None?
      ensures matlab != null && matlab.engineRunning && src.mat(path).None? ==> r.None?
      ensures matlab != null && matlab.engineRunning && src.mat(path).Some? ==>
                r == Some(Collapse(NumericTables(src.mat(path).value)))
    {
      if matlab == null {
        return None;
      }
      var loaded := matlab.LoadMatFile(path, src.mat(path));
      if loaded.None? {
        return None;
      }
      var items := loaded.value;
      var numericData: seq<Table<T>> := [];
      var i := 0;
      while i < |items|
        invariant 0 <= i <= |items| && numericData == NumericTables(items[..i])
      {
        NumericTablesAppend(items[..i], items[i]);
        assert items[..i + 1] == items[..i] + [items[i]];
        if IsNumeric(items[i].1) {
          numericData := numericData + [MatlabToNumpy(items[i].1).value.table];
        }
        i := i + 1;
      }
      assert items[..|items|] == items;
      if |numericData| == 1 {
        return Some(One(numericData[0]));
      }
      return Some(Many(numericData));
    }

    /** `read_file`: dispatch on the extension. */
    method ReadFile(path: string, src: Sources<T>) returns (r: Option<ReadResult<T>>)
      ensures r == ReadSpec(path, src, matlab != null, matlab != null && matlab.engineRunning)
    {
      match FormatOf(path)
      case Excel => r := ReadExcel(path, src);
      case Csv => r := ReadCsv(path, src);
      case Mat => r := ReadMat(path, src);
      case OtherFormat => r := None;
    }

    /** `_apply_data_mapping`, inserting the entries one by one. */
    method ApplyDataMapping(data: Table<T>, m: Mapping) returns (r: Outcome<Record<T>>)
      ensures r == MappedData(data, m)
    {
      var mapped: Record<T> := map[];
      var acc := Get(m, Acceleration);
      if acc != [] {
        if !AllBelow(acc, data.width) {
          return IndexError;
        }
        mapped := mapped[GroupField(Acceleration) := Matrix(SelectColumns(data, acc))];
      }
      var gyro := Get(m, Gyroscope);
      if gyro != [] {
        if !AllBelow(gyro, data.width) {
          return IndexError;
        }
        mapped := mapped[GroupField(Gyroscope) := Matrix(SelectColumns(data, gyro))];
      }
      var noise := Get(m, Noise);
      if noise != [] {
        if noise[0] >= data.width {
          return IndexError;
        }
        mapped := mapped[GroupField(Noise) := Vector(Column(data, noise[0]))];
      }
      var all := acc + gyro + noise;
      if all != [] {
        var unmapped := Unmapped(data.width, all);
        if unmapped != [] {
          mapped := mapped[OtherData := Matrix(SelectColumns(data, unmapped))];
        }
      } else {
        mapped := mapped[RawData := Matrix(data)];
      }
      return Normal(mapped);
    }

    /** `write_mat_file`: False without an interface; otherwise what the
        interface's save returns. */
    method WriteMatFile(path: string, dict: map<string, PyValue<T>>, saved: bool) returns (ok: bool)
      requires matlab != null ==> matlab.Valid()
      modifies matlab
      ensures matlab != null ==> matlab.Valid()
      ensures ok == (matlab != null && old(matlab.engineRunning) && saved)
      ensures matlab != null && old(matlab.engineRunning) ==>
                matlab.workspace == Assign(old(matlab.workspace), dict) &&
                matlab.calls == old(matlab.calls) + [Save(path, SavedAsWritten(old(matlab.workspace), dict))]
      ensures matlab != null && !old(matlab.engineRunning) ==>
                matlab.workspace == old(matlab.workspace) && matlab.calls == old(matlab.calls)
      ensures matlab != null ==> matlab.engineRunning == old(matlab.engineRunning) && matlab.functionsPath == old(matlab.functionsPath)
    {
      if matlab == null {
        return false;
      }
      ok := matlab.SaveMatFile(path, dict, saved);
    }

    /** `convert_to_mat`: False when reading yields None, without writing;
        IndexError when the first table cannot be taken or partitioned;
        otherwise the writer's result for the converted record. */
    method ConvertToMat(input: string, output: string, mapping: Option<Mapping>, src: Sources<T>, saved: bool)
      returns (r: Outcome<bool>)
      requires matlab != null ==> matlab.Valid()
      modifies matlab
      ensures matlab != null ==> matlab.Valid()
      ensures r == ConvertOutcome(input, mapping, src, matlab != null, matlab != null && old(matlab.engineRunning), saved)
      ensures var plan := ConvertedDict(input, mapping, src, matlab != null, matlab != null && old(matlab.engineRunning));
        matlab != null && old(matlab.engineRunning) && plan.Normal? && plan.value.Some? ==>
          && matlab.workspace == Assign(old(matlab.workspace), plan.value.value)
          && matlab.calls == old(matlab.calls) + [Save(output, SavedAsWritten(old(matlab.workspace), plan.value.value))]
      ensures var plan := ConvertedDict(input, mapping, src, matlab != null, matlab != null && old(matlab.engineRunning));
        matlab != null && !(old(matlab.engineRunning) && plan.Normal? && plan.value.Some?) ==>
          matlab.workspace == old(matlab.workspace) && matlab.calls == old(matlab.calls)
      ensures matlab != null ==> matlab.engineRunning == old(matlab.engineRunning) && matlab.functionsPath == old(matlab.functionsPath)
    {
      var data := ReadFile(input, src);
      if data.None? {
        return Normal(false);
      }
      var first := FirstTable(data.value);
      if first.IndexError? {
        return IndexError;
      }
      var record: Record<T>;
      if Truthy(mapping) {
        var mapped := ApplyDataMapping(first.value, mapping.value);
        if mapped.IndexError? {
          return IndexError;
        }
        record := mapped.value;
      } else {
        record := map[RawData := Matrix(first.value)];
      }
      var ok := WriteMatFile(output, AsDict(record), saved);
      return Normal(ok);
    }
  }
}
