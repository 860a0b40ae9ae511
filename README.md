# Sensor-data import and mapping pipeline, modelled in Dafny

This project models the core of a PyQt desktop tool. The tool imports sensor recordings (Excel, CSV or MATLAB `.mat` files) and lets the user assign the table's columns to three groups: acceleration, gyroscope and noise. It converts the file into a MATLAB file, shows the assignment, and plots a chosen channel through the MATLAB engine.

The model covers five parts:

- the file handler (`python_gui/utils/file_handler.py`): reader dispatch by extension, collapsing one result to a bare table, column partition by the mapping, and conversion;
- the MATLAB interface (`python_gui/utils/matlab_interface.py`): the started/stopped engine handle, the layout conversion between numpy and `matlab.double`, and saving and plotting;
- the import dialog (`python_gui/data_import_dialog.py`): seven combo boxes that build the mapping, the preview, and naming and emitting the converted file;
- the mapping widget (`python_gui/data_mapping_widget.py`): the mapping table and the count labels;
- the visualization panel (`python_gui/visualization_panel.py`): the channel range and channel selection, and dispatch to the plots.

How the pieces are represented:

- Cells are an opaque type `T`. A table (`Tables.Table<T>`) is a sequence of rows of one width.
- A mapping is `map<Group, seq<nat>>`, so a key may be missing, just as in the Python dict.
- pandas, the engine's `load` and the success of each engine request are parameters. Examples are `Sources<T>` and the `started`, `quitOk`, `added`, `saved` and `plotted` flags.
- An object whose fields change is a `class`: `MatlabInterface`, `FileHandler`, `DataImportDialog`, `DataMappingWidget` and `VisualizationPanel`.
- Qt widgets appear as the values they hold: combo indices, spin-box values, label texts and table cells.
- Each message box is a `Notice` (warning, information or critical) appended to a log.
- Every `addpath`, function call, save and plot the interface sends to the engine is appended to `MatlabInterface.calls`. A `load` is not logged: it returns the file's variables and leaves the workspace as it was.
- numpy's `IndexError` (a mapped column outside the table, or `data[0]` on an empty list) is the `IndexError` outcome of `Tables.Outcome`. It escapes exactly where the code lets it escape.

Files:

- `tables.dfy`: tables, columns, selection, transpose.
- `labels.dfy`: `str(n)`, the `列 k` labels, the combo items, group texts and their parsers.
- `channels.dfy`: groups, mappings, field names and group labels.
- `paths.dfy`: POSIX `os.path.basename`, `dirname`, `splitext` and `join`, and the converted-file name.
- `matlab_interface.dfy`, `file_handler.dfy`, `data_import_dialog.dfy`, `data_mapping_widget.dfy` and `visualization_panel.dfy`: one per source file.

## Model

| member | source | states |
|---|---|---|
| Tables.Column | python_gui/utils/file_handler.py:142 | `data[:, c]` has one entry per row, and entry i is row i's cell c |
| Tables.SelectColumns | python_gui/utils/file_handler.py:132 | `data[:, cols]` keeps the row count, has one column per listed index, and column k is the table's column `cols[k]`, in list order, repeats allowed |
| Tables.Transpose | python_gui/utils/matlab_interface.py:69 | `.T` swaps the row and column counts and cell (j, i) is the original cell (i, j) |
| Tables.TransposeTwice | python_gui/utils/matlab_interface.py:69 | transposing twice gives back the table, whatever its shape |
| Labels.Decimal | python_gui/data_mapping_widget.py:91-93 | `str(n)` of a count is a non-empty string of decimal digits |
| Labels.DecimalRoundTrip | python_gui/data_mapping_widget.py:91-93 | reading `str(n)` back gives n |
| Labels.DecimalInjective | python_gui/data_import_dialog.py:182 | different numbers print differently |
| Labels.ColumnLabelInjective | python_gui/data_import_dialog.py:182 | different columns get different `列 k` labels |
| Labels.ComboOptions | python_gui/data_import_dialog.py:201 | the option list has `cols + 1` items: "未选择" first, then item k is the label of column k − 1 |
| Labels.ComboOptionsDistinct | python_gui/data_import_dialog.py:201 | no two combo items are equal, so an item identifies its index |
| Labels.LeadingDigitsOfDecimal | python_gui/data_mapping_widget.py:99 | a printed number followed by a non-digit is split off exactly |
| Labels.ParseJoinLabels | python_gui/data_mapping_widget.py:99 | the `", "`-joined labels of a non-empty column list read back as that list, in order |
| Labels.GroupTextRoundTrip | python_gui/data_mapping_widget.py:99-111 | a group's table text ("未映射" for an empty list) determines the group's column list |
| Channels.FieldNameInjective | python_gui/utils/file_handler.py:127-154 | the five record fields are saved under five different variable names |
| Channels.GroupOfLabel | python_gui/visualization_panel.py:172-181 | the data-type text names at most one group, and each group's own text names that group |
| Paths.Basename | python_gui/data_import_dialog.py:247 | `os.path.basename` never contains a separator |
| Paths.DirnameShape | python_gui/data_import_dialog.py:248 | `os.path.dirname` is empty, all separators, or does not end in a separator |
| Paths.ExtensionShape | python_gui/utils/file_handler.py:17 | `splitext(p)[1]` is empty, or a suffix of p starting with its only dot and crossing no separator |
| Paths.ExtensionOfConverted | python_gui/data_import_dialog.py:248 | any name ending in `_converted.mat` in a directory has extension `.mat` |
| Paths.OutputPathShape | python_gui/data_import_dialog.py:247-248 | the output path lies in the input's directory, its base name is the input's base name without extension plus `_converted.mat`, and its extension is `.mat` |
| Matlab.NumpyToMatlabAsWritten | python_gui/utils/matlab_interface.py:58-72 | as written: a vector passes as its flat list, a matrix as `width` lists where list j is column j, any other rank gives None |
| Matlab.NumpyToMatlab | python_gui/utils/matlab_interface.py:58-72 | as intended: vectors as written, a matrix as one list per row; None exactly for other ranks |
| Matlab.FortranReshape | python_gui/utils/matlab_interface.py:78 | `reshape(size, order='F')` has the array's own size, and cell (i, j) is element (i, j) of the column-major data |
| Matlab.MatlabToNumpy | python_gui/utils/matlab_interface.py:74-84 | a `double`/`single` becomes the table of its size and elements, a list becomes a vector, anything else gives None |
| Matlab.MatlabDouble | python_gui/utils/matlab_interface.py:66-69 | the engine reads a flat list as a 1 × n row and m lists as an m × n array whose row i is list i |
| Matlab.MatrixComesBackTransposed | python_gui/utils/matlab_interface.py:58-84 | with the conversion as written, a saved matrix reads back as its transpose |
| Matlab.VectorComesBackAsRow | python_gui/utils/matlab_interface.py:66 | a saved vector reads back as a one-row matrix |
| Matlab.SaveLoadIsNotIdentity | python_gui/utils/matlab_interface.py:69 | with the conversion as written, the 1 × 2 table `[[1, 2]]` does not survive a save and load |
| Matlab.MatrixRoundTrip | python_gui/utils/matlab_interface.py:69 | with the intended conversion, every matrix with a row reads back unchanged |
| Matlab.ToWorkspace | python_gui/utils/matlab_interface.py:108-115 | a plain value is passed as is; an array goes through `numpy_to_matlab` as written: a vector as its flat list, a matrix as the list of its columns (the transpose), any other rank as None |
| Matlab.Assign | python_gui/utils/matlab_interface.py:108-115 | after the assignment loop the workspace holds every dict key, each as `ToWorkspace` gives it, and keeps every other variable |
| Matlab.StaleVariableIsSaved | python_gui/utils/matlab_interface.py:118 | a variable left from an earlier save is written by a save that does not mention it |
| Matlab.SavedVariables | python_gui/utils/matlab_interface.py:107-118 | the intended save writes exactly the dict's keys, each with its converted value |
| Matlab.SavedAsWrittenAgreesOnFreshWorkspace | python_gui/utils/matlab_interface.py:118 | the saved-as-written variables equal the intended ones if and only if the workspace holds nothing outside the dict |
| Matlab.MatlabInterface.constructor | python_gui/utils/matlab_interface.py:6-8 | no engine, no functions path, nothing requested |
| Matlab.MatlabInterface.StartEngine | python_gui/utils/matlab_interface.py:10-17 | returns whether the engine started; a new engine brings an empty workspace; a failed start keeps the previous handle |
| Matlab.MatlabInterface.StopEngine | python_gui/utils/matlab_interface.py:19-29 | True without an engine; otherwise the quit's success, and only a successful quit clears the handle and workspace |
| Matlab.MatlabInterface.SetFunctionsPath | python_gui/utils/matlab_interface.py:31-42 | always records the path; False without an engine, otherwise the path is added and the result is the engine's |
| Matlab.MatlabInterface.CallFunction | python_gui/utils/matlab_interface.py:44-56 | None and nothing sent without an engine; otherwise the call is sent and its answer returned |
| Matlab.MatlabInterface.LoadMatFile | python_gui/utils/matlab_interface.py:86-98 | a result only from a running engine, and then the engine's answer |
| Matlab.MatlabInterface.SaveMatFile | python_gui/utils/matlab_interface.py:100-122 | False and no change without an engine; otherwise the workspace gets every entry, one save of the whole new workspace (stale variables included) is requested, and the result is the engine's; keeps the no-workspace-without-engine invariant |
| Matlab.MatlabInterface.PlotTimeDomain | python_gui/utils/matlab_interface.py:124-139 | False and nothing sent without an engine; otherwise the data converted by `numpy_to_matlab` as written (a matrix transposed), the rate and the title are sent and the result is the engine's |
| Matlab.MatlabInterface.PlotFreqDomain | python_gui/utils/matlab_interface.py:141-156 | as the time plot, for the spectrum, with the same transposing conversion |
| FileHandling.Lower | python_gui/utils/file_handler.py:17 | `.lower()` keeps the length and lowers each character |
| FileHandling.ExtensionOfLower | python_gui/utils/file_handler.py:17 | lower-casing the path and taking the extension commute |
| FileHandling.FormatOfIgnoresCase | python_gui/utils/file_handler.py:17-25 | two paths equal up to case go to the same reader |
| FileHandling.MatExtension | python_gui/utils/file_handler.py:24 | a `.mat` extension selects the MAT reader |
| FileHandling.ConvertedFileIsMat | python_gui/data_import_dialog.py:247-248 | the converted file is itself read by the MAT reader |
| FileHandling.CollapseKeepsTables | python_gui/utils/file_handler.py:46-49 | collapsing keeps every table in order; a bare table exactly when there was one; zero tables give an empty list, not None |
| FileHandling.FirstTable | python_gui/utils/file_handler.py:112-113 | IndexError exactly for an empty list, otherwise the first table |
| FileHandling.NumericTablesAppend | python_gui/utils/file_handler.py:74-80 | one more variable appends its converted table, if numeric, at the end |
| FileHandling.NumericTablesAllNumeric | python_gui/utils/file_handler.py:75-80 | when all variables are numeric, each is kept, converted, in order |
| FileHandling.NumericTablesNoneNumeric | python_gui/utils/file_handler.py:75-80 | when no variable is numeric, nothing is kept |
| FileHandling.ReadSpecOutcomes | python_gui/utils/file_handler.py:15-30 | an unknown extension gives None; `.mat` without a running interface gives None; a csv gives its table; a workbook gives its sheets in order; a MAT file with no numeric variable gives an empty list |
| FileHandling.Unmapped | python_gui/utils/file_handler.py:148-149 | the complement is strictly ascending and names only columns of the table |
| FileHandling.UnmappedMembers | python_gui/utils/file_handler.py:148-149 | the complement holds exactly the columns below the width that the mapping does not mention |
| FileHandling.UnmappedCount | python_gui/utils/file_handler.py:148-149 | the complement and the distinct mapped columns together count the width |
| FileHandling.MappedDataEntries | python_gui/utils/file_handler.py:125-156 | IndexError exactly when an index is outside the table; each group key is present if and only if its list is non-empty and holds those columns (noise: its first column as a vector); `raw_data` if and only if nothing is mapped; `other_data` if and only if something is mapped and the complement is non-empty; never both |
| FileHandling.MappedDataKeepsRows | python_gui/utils/file_handler.py:130-154 | every array in the record has the table's row count |
| FileHandling.MappedDataCoversColumns | python_gui/utils/file_handler.py:145-154 | with at most one noise index no column is lost: each is an acceleration or gyroscope column, the stored noise column `noise[0]`, an `other_data` column, or part of `raw_data` |
| FileHandling.EmptyListsGiveRawData | python_gui/utils/file_handler.py:152-154 | empty lists give exactly `{'raw_data': data}` |
| FileHandling.GroupShapes | python_gui/utils/file_handler.py:130-137 | the acceleration and gyroscope arrays have the table's rows and one column per index |
| FileHandling.CoveredKeys | python_gui/utils/file_handler.py:127-154 | when every column is mapped, with acceleration and gyroscope lists but no noise, the record holds exactly those two arrays: no `raw_data`, no `other_data` |
| FileHandling.SixColumnKeys | python_gui/test_system.py:165-181 | mapping 100 × 6 data as [0, 1, 2] / [3, 4, 5] / [] yields exactly the acceleration and gyroscope keys |
| FileHandling.SixColumnScenario | python_gui/test_system.py:162-189 | and both arrays are 100 × 3 |
| FileHandling.ConvertedRecordIgnoresEmptyMapping | python_gui/utils/file_handler.py:116-120 | a truthy mapping with empty lists converts like no mapping |
| FileHandling.ConvertSuccessNeedsSave | python_gui/utils/file_handler.py:104-123 | conversion succeeds if and only if the file was read, the record built, and a running engine saved |
| FileHandling.ConvertWithoutInterfaceFails | python_gui/utils/file_handler.py:93-95 | without an interface conversion never succeeds, and a `.mat` input gives False |
| FileHandling.AsDictEntries | python_gui/utils/file_handler.py:127-154 | the dict holds each field of the record, and no other name, under the field's own name with its array, so it has as many entries as the record |
| FileHandling.FileHandler.constructor | python_gui/utils/file_handler.py:8-9 | stores the interface |
| FileHandling.FileHandler.SetMatlabInterface | python_gui/utils/file_handler.py:11-13 | replaces the interface |
| FileHandling.FileHandler.ReadExcel | python_gui/utils/file_handler.py:32-52 | None when pandas fails, otherwise the sheets collapsed |
| FileHandling.FileHandler.ReadCsv | python_gui/utils/file_handler.py:54-61 | the table exactly when pandas reads one |
| FileHandling.FileHandler.ReadMat | python_gui/utils/file_handler.py:63-89 | None without an interface, engine or file; otherwise the numeric variables, converted, in order, collapsed |
| FileHandling.FileHandler.ReadFile | python_gui/utils/file_handler.py:15-30 | the result is the reader's result for the extension, as `ReadSpec` states |
| FileHandling.FileHandler.ApplyDataMapping | python_gui/utils/file_handler.py:125-156 | the record built by insertions is the partition `MappedData` describes, IndexError included |
| FileHandling.FileHandler.WriteMatFile | python_gui/utils/file_handler.py:91-102 | False without an interface; otherwise the interface's save: the dict assigned into the workspace and one save of the whole resulting workspace requested; the engine's running state and functions path are kept |
| FileHandling.FileHandler.ConvertToMat | python_gui/utils/file_handler.py:104-123 | the result is `ConvertOutcome`; only when a record was built for a running engine is the converted dict assigned and a save of the whole workspace (earlier variables included) requested; otherwise the engine's requests and workspace are untouched; its running state and functions path are always kept |
| ImportDialog.Picks | python_gui/data_import_dialog.py:220-234 | a column is picked exactly when some combo shows index column + 1; at most one pick per combo |
| ImportDialog.PicksAppend | python_gui/data_import_dialog.py:220-234 | the picks of a run of combos are the picks of its first part followed by those of the rest, so order follows the combos |
| ImportDialog.PicksOne | python_gui/data_import_dialog.py:220-224 | one combo contributes `currentIndex() - 1` when it shows a column, nothing when it shows "未选择" |
| ImportDialog.PicksAllSelected | python_gui/data_import_dialog.py:220-234 | when every combo of a run shows a column, pick k is combo k's index minus one, one pick per combo |
| ImportDialog.MappingOfShape | python_gui/data_import_dialog.py:210-234 | the mapping has all three keys, at most 3 / 3 / 1 entries, and fits the table when every combo shows one of its items |
| ImportDialog.NothingSelected | python_gui/data_import_dialog.py:20-24 | combos at "未选择" or empty give three empty lists |
| ImportDialog.SelectedItemNamesColumn | python_gui/data_import_dialog.py:198-234 | choosing item k > 0 maps the column labelled by item k, k − 1, into the combo's group |
| ImportDialog.PreviewOf | python_gui/data_import_dialog.py:172-188 | the preview shows `min(20, rows)` rows, each a full row of the table |
| ImportDialog.HeaderLabels | python_gui/data_import_dialog.py:182 | one header per column, the column's label |
| ImportDialog.HeadersMatchOptions | python_gui/data_import_dialog.py:182-201 | the headers are the combo items after "未选择" |
| ImportDialog.DataImportDialog.constructor | python_gui/data_import_dialog.py:15-24 | no file, no data, empty combos and the empty mapping, import disabled |
| ImportDialog.DataImportDialog.UpdateMapping | python_gui/data_import_dialog.py:210-234 | the mapping is rebuilt from the combos alone, nothing else changes |
| ImportDialog.DataImportDialog.SelectCombo | python_gui/data_import_dialog.py:113-123 | a combo change sets that combo's index and rebuilds the mapping from the combos; items, file, data, preview, headers, import button, messages and acceptance are unchanged |
| ImportDialog.DataImportDialog.UpdateComboOptions | python_gui/data_import_dialog.py:193-208 | with data every combo holds the options for the table's width and shows item 0, so the mapping ends empty |
| ImportDialog.DataImportDialog.ShowDataPreview | python_gui/data_import_dialog.py:166-191 | with data the preview is `PreviewOf` and the headers are the column labels |
| ImportDialog.DataImportDialog.LoadFileData | python_gui/data_import_dialog.py:138-164 | an empty list raises IndexError with the list stored and the button untouched; a failed read stores None and enables import; in both cases preview, headers, combo items, combo indices and mapping are unchanged; otherwise the first table is stored, previewed, offered in the combos (all at item 0) with an empty mapping, and import is enabled |
| ImportDialog.DataImportDialog.Adopt | python_gui/data_import_dialog.py:146-164 | for the reader's answer: an empty list raises IndexError with the list stored and the button untouched; None is stored and import enabled; in both cases preview, headers, combos and mapping are unchanged; otherwise the first table is stored, previewed and offered with every combo at item 0 and an empty mapping |
| ImportDialog.DataImportDialog.BrowseFile | python_gui/data_import_dialog.py:125-136 | a cancelled chooser changes nothing; otherwise the file is recorded and loaded: the first table read becomes the data with its preview, headers, combos at item 0 and import enabled; nothing read clears the data; an empty list raises IndexError; in those two cases the preview, headers, combos and mapping are kept |
| ImportDialog.DataImportDialog.Report | python_gui/data_import_dialog.py:259-275 | success emits the result and accepts; False shows an error and leaves the dialog open; an IndexError escapes; file, data, mapping, combos, preview, headers and import button are unchanged |
| ImportDialog.DataImportDialog.ImportData | python_gui/data_import_dialog.py:236-275 | without file or data only a warning, with the engine untouched; otherwise the result `{original, <dir>/<base>_converted.mat, mapping, data}` is emitted and the dialog accepted if and only if conversion succeeds, a failure or an IndexError leaves it open; the combos, items, preview, headers and import button are unchanged; with a running engine and a converted record the converted dict is assigned into the workspace and the save request covers it together with every variable earlier saves left there; when nothing is saved the engine's requests and workspace are unchanged; its running state and functions path are always kept |
| MappingWidget.ShapeTextRoundTrip | python_gui/data_mapping_widget.py:88 | the shape label reads back as the data's row and column counts |
| MappingWidget.CountTextRoundTrip | python_gui/data_mapping_widget.py:91-93 | a count label reads back as its number |
| MappingWidget.ReadMappingRow | python_gui/data_mapping_widget.py:95-113 | rows 0, 1, 2 name acceleration, gyroscope and noise, and each row's text reads back as that group's columns |
| MappingWidget.MappingRowsDetermineMapping | python_gui/data_mapping_widget.py:95-113 | two complete mappings shown alike are equal |
| MappingWidget.ReadCounts | python_gui/data_mapping_widget.py:91-93 | the count labels show the lengths of the three lists |
| MappingWidget.DataMappingWidget.constructor | python_gui/data_mapping_widget.py:10-17 | no data, the empty mapping, and a table and labels that show it |
| MappingWidget.DataMappingWidget.UpdateDataInfo | python_gui/data_mapping_widget.py:84-93 | the shape label follows the data when there is some; the counts follow the mapping |
| MappingWidget.DataMappingWidget.UpdateMappingTable | python_gui/data_mapping_widget.py:95-116 | the table shows the mapping |
| MappingWidget.DataMappingWidget.SetData | python_gui/data_mapping_widget.py:73-82 | stores data and mapping, and table and labels show them |
| MappingWidget.DataMappingWidget.ClearMapping | python_gui/data_mapping_widget.py:118-129 | back to three empty groups, shown, then an information box |
| MappingWidget.DataMappingWidget.GetMapping | python_gui/data_mapping_widget.py:131-133 | returns the stored mapping |
| MappingWidget.DataMappingWidget.GetData | python_gui/data_mapping_widget.py:135-137 | returns the stored data |
| Visualization.SelectionOfGroup | python_gui/visualization_panel.py:187-222 | for a group's text, the selection is the mapped column exactly when the channel exists and the column is in the table, IndexError exactly when the channel exists and its column is not |
| Visualization.FittingMappingNeverRaises | python_gui/visualization_panel.py:220 | a mapping that fits the table never makes the selection raise |
| Visualization.ImportedMappingNeverRaises | python_gui/visualization_panel.py:220 | a mapping the import dialog built for the table never makes the selection raise |
| Visualization.PlottedChannelIsSaved | python_gui/visualization_panel.py:197-220 | the plotted acceleration or gyroscope channel k is column k − 1 of that group's converted array |
| Visualization.VisualizationPanel.constructor | python_gui/visualization_panel.py:11-65 | acceleration, channel 1 of at most 3, 1000 Hz, first tab, no data |
| Visualization.VisualizationPanel.SetData | python_gui/visualization_panel.py:162-168 | stores data and mapping; the maximum is `max(1, channels)` and the channel is kept, clamped to the count, or 1 for an empty group |
| Visualization.VisualizationPanel.UpdateChannelRange | python_gui/visualization_panel.py:170-185 | the same, with the spin box's clamping, so a non-empty group's chosen channel exists |
| Visualization.VisualizationPanel.SelectDataType | python_gui/visualization_panel.py:42-43 | the combo shows the group; the range is not updated |
| Visualization.VisualizationPanel.SetChannel | python_gui/visualization_panel.py:45-48 | the spin box keeps the value within 1..maximum |
| Visualization.VisualizationPanel.SetSampleRate | python_gui/visualization_panel.py:62-65 | the spin box keeps the rate within 1..10000 |
| Visualization.VisualizationPanel.SelectTab | python_gui/visualization_panel.py:24-34 | the current tab is one of the two |
| Visualization.VisualizationPanel.GetSelectedData | python_gui/visualization_panel.py:187-222 | the result is `Selection`, with a warning exactly when there is none |
| Visualization.VisualizationPanel.PlotTimeDomain | python_gui/visualization_panel.py:242-257 | an error box without an interface or a plot; a running engine gets the column as a flat list, the rate and "时域波形图" |
| Visualization.VisualizationPanel.PlotFreqDomain | python_gui/visualization_panel.py:259-274 | as the time plot, titled "频域功率谱图" |
| Visualization.VisualizationPanel.PlotCurrentTab | python_gui/visualization_panel.py:224-240 | nothing is plotted without a selection; tab 0 sends the time plot and tab 1 the spectrum; an IndexError escapes before any request; the channel range and the engine's workspace, running state and functions path are unchanged |
| Visualization.VisualizationPanel.ClearPlots | python_gui/visualization_panel.py:276-287 | an error box without an interface; otherwise `close('all')` goes to a running engine and success is reported |
| Visualization.VisualizationPanel.GetMatlabInterface | python_gui/visualization_panel.py:289-291 | returns the stored interface |
| Visualization.VisualizationPanel.SetMatlabInterface | python_gui/visualization_panel.py:293-295 | replaces the interface and nothing else |

## Left out

- The main window (`python_gui/main_window.py`) is not part of this model. It is wiring, menus and an engine start on a `QThread`. The panels are modelled on the 2-D tables the dialog emits.
- `get_file_info` is not modelled: it reads the file size from the file system.
- pandas parsing and the engine's `load`, `save`, `addpath`, plotting and `close` are foreign calls. They appear as parameters: answers and success flags.
- Cell values are opaque. `astype(float)`, floating-point arithmetic and the rounding of `QDoubleSpinBox` to two decimals are not modelled.
- FileHandling.Lower: lowers ASCII letters only; Python's case mapping of other characters is not modelled.
- Matlab.MatlabInterface.SaveMatFile: only the final save may fail. An exception while assigning a variable (which returns False with the earlier variables assigned) is not modelled.
- MappingWidget.DataMappingWidget.SetData: requires all three groups. With a key missing, the Python code raises KeyError after storing. The only mapping passed in is the dialog's, which always has the three keys (`ImportDialog.MappingOfShape`).
- Visualization.VisualizationPanel.SetData: requires all three groups, for the same reason.
- ImportDialog.DataImportDialog.UpdateComboOptions: requires the data to be absent or a single table. `_load_file_data` replaces a list by its first table, or raises, before calling it. The same holds for ShowDataPreview.
- Progress bars, message texts, window titles, column-width adjustments and the time and frequency range spin boxes (which no plot reads) are not modelled.
- Reading an empty list at `data[0]` in `convert_to_mat` and `_load_file_data` is modelled as the IndexError it raises, not excluded by a precondition.
- Python dict iteration order is not modelled for the saved dict. The save names a set of variables.
- `paths.dfy` follows POSIX `os.path` (`/` as the only separator). On Windows, `ntpath` also splits at `\` and drive letters, so `basename`, `dirname` and `join` can differ there; that behaviour is not modelled.
- Arrays of rank other than 1 and 2 are told apart only by their rank. `matlab_to_numpy` reshapes a MATLAB array of any `size`; the model reads back 2-D arrays only.

## Findings

| source | as written | input that shows it | evidently intended | confidence | as-written member | corrected member |
|---|---|---|---|---|---|---|
| python_gui/utils/matlab_interface.py:118 | `eng.save(file_path, '-v7.3')` lists no variables, so MATLAB saves the whole engine workspace, including variables assigned by earlier saves in the same session | convert with mapping [0, 1, 2] (writes `acceleration`), then convert another file with no mapping (writes `raw_data`): the second file also holds `acceleration` | the file holds exactly the entries of `data_dict` | medium, not executed | Matlab.StaleVariableIsSaved | Matlab.SavedVariables |
| python_gui/utils/matlab_interface.py:69 | a 2-D array is passed as `matlab.double(np_array.T.tolist())`; `matlab.double` reads a nested list row by row, so MATLAB receives the transpose | the 1 × 2 array `[[1, 2]]` is stored as 2 × 1 and `matlab_to_numpy` reads it back as 2 × 1; a 100 × 3 acceleration block is saved as 3 × 100 | MATLAB sees an array of the numpy array's own shape, so a save and a load give it back | medium, not executed | Matlab.MatrixComesBackTransposed | Matlab.MatrixRoundTrip |

The classes follow the code as written: workspace values are converted by `NumpyToMatlabAsWritten` and saves are logged with `SavedAsWritten`. `NumpyToMatlab` and `SavedVariables` are the corrected definitions, with their intended properties proved.
