# QuickView core, modelled in Dafny

QuickView is a viewer for the output of the E3SM Atmosphere Model (EAM). This project models three parts of it.

**The two ParaView reader plugins in `quickview/plugins/eam_reader.py`:**
- `EAMSliceSource` is the slice reader.
  - It classifies the variables of a data file into 1D, 2D, mid-level and interface-level lists.
  - It keeps a per-category array selection.
  - It builds the quad mesh of the cells from a connectivity file.
  - On each `RequestData` it refreshes the cell arrays of one time step and one chosen level of each vertical kind, and drops arrays that are no longer selected.
- `EAMSource` is the older full reader. It builds a surface grid and two stacked 3D grids.
- Both use:
  - the hybrid-coordinate resolver `FindSpecialVariable`, with its helper `compare`; the model uses it with its one-pair branch corrected, as "## Findings" records
  - fill-value substitution
  - a rule that turns a requested time into a time-step index.

**The application object `EAMApp` in `quickview/interface.py`.** It holds the three variable lists and their search filters, the tick masks, the variable tracking lists, the colour-map list, and the save/restore of that state.

**The slider step buttons of `quickview/ui/slice_selection.py`.**

**How the parts are modelled:**
- A netCDF file is a value: ordered dimensions, and variables whose values are stored row-major (module `NetCDF`).
- What the readers can open is a map from file name to such a value.
- Each class whose methods update fields becomes a Dafny `class` with those fields. Each method is proved to leave exactly the state a specification function gives for the old state:
  - `SliceReader.EAMSliceSource` against `SliceSpec`
  - `FullReader.EAMSource` against `FullSpec`
  - `App.EAMApp` against `AppSpec`
  - `Stepping.SliceSelection`
- The properties the code promises are then proved about those functions, in `SliceProps`, `FullSpec`, `AppSpec`, `Catalog`, `Hybrid`, `TimeIndex` and `Topology`.
- Loops of the source are methods with loop invariants:
  - variable classification
  - the per-category array loops
  - `DropArrays`
  - the two time-index rules
  - layer stacking

## Model

| member | source | states |
|---|---|---|
| Catalog.NewVarMeta | quickview/plugins/eam_reader.py:49-69 | a new descriptor keeps the name, has no fill value, and is transposed only for three dimensions |
| Catalog.WithFill | quickview/plugins/eam_reader.py:640-644 | the `_FillValue` attribute replaces the fill exactly when the variable has one; name, type and transpose flag are kept |
| Catalog.SignatureType | quickview/plugins/eam_reader.py:56-69 | on the four accepted dimension sets the type is 1D, 2D, mid-level or interface-level exactly for {ncol}, {time, ncol}, {time, lev, ncol}, {time, ilev, ncol}; transposition is needed exactly when ncol is the second of three dimensions |
| Catalog.ClassifySliceVariables | quickview/plugins/eam_reader.py:618-650 | the classification loop computes the listing `SliceListing` defines |
| Catalog.KeptAppend | quickview/plugins/eam_reader.py:618-650 | the reference lists distribute over appending one variable |
| Catalog.SliceListingKeeps | quickview/plugins/eam_reader.py:618-650 | each per-type list of the slice reader is exactly the accepted variables of that type, in file order |
| Catalog.AddVariableList | quickview/plugins/eam_reader.py:618-650 | one visit of the loop appends the variable to the list of its type exactly when the slice reader accepts it |
| Catalog.SliceListingArea | quickview/plugins/eam_reader.py:627-630 | an area descriptor exists exactly when some accepted 1D variable's name contains "area", and it is the descriptor of the last such variable in file order |
| Catalog.LastAreaStep | quickview/plugins/eam_reader.py:627-630 | one more visit keeps the descriptor the last candidate's: a candidate replaces it, any other variable leaves it |
| Catalog.AddVariableArea | quickview/plugins/eam_reader.py:627-630 | one visit makes the variable the area descriptor exactly when it is an accepted 1D variable whose name contains "area" |
| Catalog.Substitute | quickview/plugins/eam_reader.py:836-837 | an entry becomes NaN exactly when it equals the fill value; every other entry is kept |
| Catalog.SubstituteNoFill | quickview/plugins/eam_reader.py:49-54 | without a fill value, substitution changes nothing |
| Catalog.SubstituteRestore | quickview/plugins/eam_reader.py:836-837 | putting the fill value back where NaN was substituted gives the original data |
| Catalog.ContainsSameLength | quickview/plugins/eam_reader.py:63-69 | of two strings of equal length, one contains the other exactly when they are equal |
| Catalog.DistinctCard | quickview/plugins/eam_reader.py:622-625 | a dimension list without repeats has as many entries as its set |
| Hybrid.Matching | quickview/plugins/eam_reader.py:98-99 | the candidates are exactly the variables whose name contains the pattern |
| Hybrid.MatchPositions | quickview/plugins/eam_reader.py:98-99 | the positions the name test selects are ascending and in range, each names a matching variable, and every matching variable's position is included |
| Hybrid.MatchingInOrder | quickview/plugins/eam_reader.py:98-106 | the candidates are the variables at those positions, in file order and each once, so their count is the number of matching names (the branch at 100 and 106) and entry 0, the reference `compare` uses, is the first match in the file |
| Hybrid.SameAsRefAll | quickview/plugins/eam_reader.py:78-81 | the early-exit comparison loop holds exactly when every later candidate equals the reference |
| Hybrid.Compare | quickview/plugins/eam_reader.py:72-82 | raises exactly for no candidate or a first candidate of the wrong length; returns the first candidate exactly when all candidates are equal |
| Hybrid.Combine | quickview/plugins/eam_reader.py:113 | each level is (A * P0 + B * PS0) / 100 |
| Hybrid.FindSpecialVariable | quickview/plugins/eam_reader.py:85-122 | a missing dimension raises; derived levels have the dimension's size; the single-candidate branch reads the B candidate |
| Hybrid.FindSpecialVariableAsWritten | quickview/plugins/eam_reader.py:106-108 | as written, the single-candidate branch always raises; every other input gives the resolver's result |
| Hybrid.ResolvesToCoordinate | quickview/plugins/eam_reader.py:92-94 | a coordinate variable named after the dimension is returned unchanged |
| Hybrid.CandidateCountErrors | quickview/plugins/eam_reader.py:100-101 | different numbers of A and B candidates raise, giving both counts |
| Hybrid.SinglePairLevels | quickview/plugins/eam_reader.py:106-114 | one candidate pair gives levels exactly when both have the dimension's size; each level is then (A * P0 + B * PS0) / 100 |
| Hybrid.SinglePairAsWritten | quickview/plugins/eam_reader.py:106-108 | on a file with one `hyai`/`hybi` pair the code as written raises, while the intended branch gives level 3000 |
| Hybrid.CombinedLevels | quickview/plugins/eam_reader.py:115-122 | with several pairs, levels are derived exactly when all A and all B candidates agree and have the dimension's size; the levels are then the combined firsts |
| Hybrid.CombineExample | quickview/plugins/eam_reader.py:113 | A = [1, 2, 3] and B = [4, 5, 6] give [5000, 7000, 9000] |
| NetCDF.FindVariable | quickview/plugins/eam_reader.py:92 | a variable is found exactly when the file has one of that name, and it has that name |
| NetCDF.DimensionSize | quickview/plugins/eam_reader.py:86-89 | a size is found exactly when a dimension of that name is declared, and it is the declared size of the first dimension of that name |
| NetCDF.Slab | quickview/plugins/eam_reader.py:836 | `data[t]` of a variable holds one value per entry of the shape after the time dimension: the t-th block of that many values in row-major storage |
| NetCDF.TransposeFlat | quickview/plugins/eam_reader.py:875-881 | the flattened transpose has as many entries as the matrix |
| NetCDF.TransposeFlatAt | quickview/plugins/eam_reader.py:875-881 | entry j * rows + i of the transposed matrix is entry i * cols + j of the original |
| NetCDF.PySlice | quickview/plugins/eam_reader.py:858-874 | Python slicing `[a:b]`: within bounds it is the subsequence, past the end it is cut at the end, and it never holds more than the sequence |
| NetCDF.PySliceFromEnd | quickview/plugins/eam_reader.py:858-874 | bounds a - n and b - n select `s[a:b]` while b is below the length n |
| NetCDF.PySliceToZero | quickview/plugins/eam_reader.py:858-874 | a slice from a negative start to 0 is empty |
| NetCDF.PySliceBeforeStart | quickview/plugins/eam_reader.py:858-874 | a slice ending at or before minus the length is empty |
| TimeIndex.FirstNotBelow | quickview/plugins/eam_reader.py:729-740 | the first index whose step is not below the requested time; every earlier step is below it |
| TimeIndex.SliceIndexOf | quickview/plugins/eam_reader.py:729-740 | without a requested time or with fewer than two steps the index is 0; otherwise it is the first step not below the time |
| TimeIndex.SliceTimeIndex | quickview/plugins/eam_reader.py:729-740 | the counting loop returns `SliceIndexOf`: every earlier step is below the time and the returned one is not |
| TimeIndex.EqualScan | quickview/plugins/eam_reader.py:305-314 | the number of leading steps different from the time; the next one equals it |
| TimeIndex.LegacyIndexOf | quickview/plugins/eam_reader.py:305-314 | the full reader's index is 0 for fewer than two steps, and otherwise in range |
| TimeIndex.LegacyTimeIndex | quickview/plugins/eam_reader.py:305-314 | the search loop returns j - 1 for the first j >= 1 whose step equals the time, else the last index |
| TimeIndex.SliceIndexExact | quickview/plugins/eam_reader.py:729-740 | on increasing steps, requesting step j yields j |
| TimeIndex.SliceIndexPastEnd | quickview/plugins/eam_reader.py:729-740 | a time past the last step yields one past the last index (no saturation) |
| TimeIndex.LegacyIndexOffByOne | quickview/plugins/eam_reader.py:305-314 | on increasing steps the full reader maps step j to j - 1 (and step 0 to the last) while the slice reader maps it to j |
| Topology.Column | quickview/plugins/eam_reader.py:350-353 | a coordinate array is accepted exactly when it has one entry per point or a single one, and then has one entry per point |
| Topology.LayerPoints | quickview/plugins/eam_reader.py:350-353 | point i is (lon[i], lat[i], z) |
| Topology.QuadOffsets | quickview/plugins/eam_reader.py:361 | the n + 1 offsets are 0, 4, 8, … |
| Topology.QuadConnectivity | quickview/plugins/eam_reader.py:362 | the connectivity is 0 .. 4n - 1 |
| Topology.SurfaceMesh | quickview/plugins/eam_reader.py:343-377 | a mesh exists exactly when lon and lat match or lon is scalar; it has one point per corner and n quad cells |
| Topology.QuadCellCorners | quickview/plugins/eam_reader.py:359-377 | cell c is a quad over points 4c .. 4c + 3 |
| Topology.QuadOffsetsWellFormed | quickview/plugins/eam_reader.py:359-377 | the offsets start at 0, increase, and end at the connectivity's length |
| Topology.QuadConnectivityInRange | quickview/plugins/eam_reader.py:359-377 | with four corners per cell every connectivity entry names an existing point |
| Topology.QuadMeshExample | quickview/plugins/eam_reader.py:359-362 | four cells have offsets [0, 4, 8, 12, 16] and connectivity 0 .. 15 |
| Topology.StackAt | quickview/plugins/eam_reader.py:392-401 | the stack holds levels * corners points; point k * P + i is corner i at level k |
| Topology.StackLayers | quickview/plugins/eam_reader.py:392-401 | the stacking loop succeeds exactly when the level count matches the dimension, and then gives `Stack` |
| Topology.StackedMesh | quickview/plugins/eam_reader.py:401-429 | a stacked mesh keeps the stacked points and has ncells * levels cells, every one a VTK_QUAD, with offsets 0, 4, 8, … and connectivity 0 .. 4 * ncells * levels - 1, so cell c spans points 4c .. 4c + 3 |
| Topology.StackedMeshExample | quickview/plugins/eam_reader.py:392-429 | three levels over four cells with 16 corners give 48 points and 12 quads |
| SliceSpec.EnabledNamesMembers | quickview/plugins/eam_reader.py:831-833 | a name is an enabled one exactly when a listed variable carries it and its selection enables it |
| SliceSpec.DisableAll | quickview/plugins/eam_reader.py:631-647 | the selection knows its old names plus the listed ones, and none is enabled |
| SliceSpec.SetArrayStatus | quickview/plugins/eam_reader.py:701-711 | enabling or disabling an array changes that category's selection at that name only |
| SliceSpec.SetDataFile | quickview/plugins/eam_reader.py:652-662 | None, "None" and the current name change nothing; geometry, time and layers are kept; a new name is stored with the dirty and update flags raised |
| SliceSpec.Cleared | quickview/plugins/eam_reader.py:652-662 | the new file name is stored before the metadata is read |
| SliceSpec.SetConnFile | quickview/plugins/eam_reader.py:664-671 | the same value changes nothing; any other value is stored and invalidates the grid |
| SliceSpec.SetLayer | quickview/plugins/eam_reader.py:673-683 | any integer index, negative ones included, becomes the layer's index; a change raises only that layer's update flag and leaves the other layer alone |
| SliceSpec.FetchArray | quickview/plugins/eam_reader.py:831-883 | a read succeeds exactly when the variable, its time step and its transposition exist |
| SliceSpec.CategoryPassBounds | quickview/plugins/eam_reader.py:831-839 | one category loop only adds enabled names and only removes enabled names from the pending removals |
| SliceSpec.CategoryPassKeepsPresent | quickview/plugins/eam_reader.py:831-839 | a present array is replaced only when its name is enabled and the update flag is set |
| SliceSpec.CategoryPassComplete | quickview/plugins/eam_reader.py:831-839 | a loop without error adds exactly the enabled names and takes them off the pending removals |
| SliceSpec.CategoryPassSucceeds | quickview/plugins/eam_reader.py:831-839 | a loop over variables whose enabled reads all succeed ends without error |
| SliceSpec.CategoryPassFetches | quickview/plugins/eam_reader.py:831-839 | with distinct names, an enabled variable that was (re)fetched holds its freshly read array |
| SliceSpec.CategoryPassKeeps | quickview/plugins/eam_reader.py:831-839 | an array no listed variable names is kept |
| SliceSpec.AtTimeIndex | quickview/plugins/eam_reader.py:761-766 | a changed time index is stored and raises the three update flags; the same index changes nothing |
| SliceSpec.FirstContaining | quickview/plugins/eam_reader.py:775-782 | the first name containing the pattern, or none |
| SliceSpec.CellCount | quickview/plugins/eam_reader.py:775-782 | a cell count exists exactly when a dimension name contains "grid_size" or "ncol", and it is the size of the first such dimension |
| SliceSpec.VariableContaining | quickview/plugins/eam_reader.py:787-788 | the variable found is the first whose name contains the pattern; none is found only when no name contains it |
| SliceSpec.Rebuild | quickview/plugins/eam_reader.py:783-823 | a clean grid is kept; a completed rebuild leaves a clean grid with a new mesh and no arrays |
| SliceSpec.LayerPhase | quickview/plugins/eam_reader.py:841-932 | a layer block never ends `RequestData`: its handler catches every error |
| SliceSpec.LayerWindow | quickview/plugins/eam_reader.py:851-859 | the out-of-range layer check only logs, and the block always completes |
| SliceSpec.LayerFetch | quickview/plugins/eam_reader.py:858-884 | the window loop always completes |
| SliceSpec.Without | quickview/plugins/eam_reader.py:942-943 | the arrays without the removed names, each other array unchanged |
| SliceProps.NoFailureSplit | quickview/plugins/eam_reader.py:841-932 | no failed block over a log extended twice is no failed block in each extension |
| SliceProps.LogExtendsTrans | quickview/plugins/eam_reader.py:841-932 | a log extended twice is an extension of the first |
| SliceProps.LogAppended | quickview/plugins/eam_reader.py:841-932 | appending a message extends the log |
| SliceProps.SurfacePhaseFrame | quickview/plugins/eam_reader.py:831-839 | the 2D loop changes only the cell arrays and the 2D flag |
| SliceProps.SurfacePhaseArrays | quickview/plugins/eam_reader.py:831-839 | a completed 2D loop adds the enabled names and clears the 2D flag; present arrays are kept unless refreshed |
| SliceProps.LayerFetchFrame | quickview/plugins/eam_reader.py:858-884 | a window read changes only the cell arrays, the log and that layer's flag |
| SliceProps.LayerFetchExtends | quickview/plugins/eam_reader.py:858-888 | a window read only appends to the log |
| SliceProps.LayerWindowFrame | quickview/plugins/eam_reader.py:854-888 | the index check and window read change only the grid's arrays, that layer's flag and (by appending) the log |
| SliceProps.LayerFetchArrays | quickview/plugins/eam_reader.py:858-884 | a window read that logs nothing adds the layer's enabled names and clears its flag |
| SliceProps.LayerPhaseFrame | quickview/plugins/eam_reader.py:841-932 | a layer block changes only the grid's arrays, its own flag and (by appending) the log |
| SliceProps.LayerPhaseArrays | quickview/plugins/eam_reader.py:841-932 | a layer block without a failure adds the layer's enabled names and clears its flag |
| SliceProps.LayerWindowArrays | quickview/plugins/eam_reader.py:851-884 | the same, after the levels are resolved |
| SliceProps.AreaPhaseFrame | quickview/plugins/eam_reader.py:934-943 | the last phase changes only the cell arrays |
| SliceProps.AreaPhaseArrays | quickview/plugins/eam_reader.py:934-943 | "area" is added when an area descriptor exists and is never dropped; the other pending names are dropped |
| SliceProps.PhasesSettled | quickview/plugins/eam_reader.py:826-943 | the array phases leave the settings, geometry, time index and dirty flag alone, and only append to the log |
| SliceProps.LayerPhasesArrays | quickview/plugins/eam_reader.py:841-932 | both layer blocks without failure add both layers' enabled names and clear both flags |
| SliceProps.PhasesArrays | quickview/plugins/eam_reader.py:826-943 | after a completed pass without failed blocks the grid holds exactly the enabled names of the three categories, plus "area" when described or already held |
| SliceProps.PhasesKeys | quickview/plugins/eam_reader.py:826-943 | the arrays afterwards are the old ones plus those added, minus those dropped |
| SliceProps.PhasesFlags | quickview/plugins/eam_reader.py:826-943 | the phases clear all three update flags when no layer block failed |
| SliceProps.PhasesKeepCached | quickview/plugins/eam_reader.py:826-943 | with no update flag raised, every array kept is the same array |
| SliceProps.RebuildFrame | quickview/plugins/eam_reader.py:783-823 | the rebuild changes only the grid and the dirty flag |
| SliceProps.ExtractSettled | quickview/plugins/eam_reader.py:768-943 | once the files are open the settings stay, the log only grows and a clean grid keeps its geometry |
| SliceProps.RequestSettled | quickview/plugins/eam_reader.py:742-948 | `RequestData` keeps every setting and only appends to the log |
| SliceProps.ExtractKeys | quickview/plugins/eam_reader.py:768-943 | a completed extraction without failed blocks leaves exactly the enabled names (plus "area") as arrays |
| SliceProps.RequestArrays | quickview/plugins/eam_reader.py:742-948 | the same for a whole `RequestData` with both files provided |
| SliceProps.RequestKeepsCached | quickview/plugins/eam_reader.py:742-948 | a request that changes neither the time nor the layers, on a clean grid with flags down, keeps every cached array |
| SliceProps.LayerWindowRows | quickview/plugins/eam_reader.py:869-874 | for a (time, lev, ncol) variable, cell i of layer k's window is entry (k, i) of the time step, fill-substituted |
| SliceProps.LayerWindowTransposed | quickview/plugins/eam_reader.py:875-881 | for a (time, ncol, lev) variable flagged for transposition, cell i of layer k's window is entry (i, k) of the time step, fill-substituted |
| SliceProps.Slab3Window | quickview/plugins/eam_reader.py:869-881 | a rank-3 variable's time step holds shape[1] * shape[2] values, and its window is a span of them, transposed when flagged, fill-substituted |
| SliceProps.RowCell | quickview/plugins/eam_reader.py:869-874 | window k of a flattened matrix `cols` wide holds row k |
| SliceProps.TransposedCell | quickview/plugins/eam_reader.py:875-881 | window k of a transposed flattened matrix holds column k |
| SliceProps.TransposedSource | quickview/plugins/eam_reader.py:875-881 | row k of the transposed matrix lies inside it and its i-th entry is entry (i, k) of the original |
| SliceProps.Slab3Transposed | quickview/plugins/eam_reader.py:875-881 | a transposed rank-3 variable's window is a span of its transposed time step, fill-substituted |
| SliceProps.CellsSameWindow | quickview/plugins/eam_reader.py:858-883 | two spans selecting the same part of the time-step data read the same cells |
| SliceProps.TimestepSize | quickview/plugins/eam_reader.py:869-881 | a rank-3 variable's time step holds shape[1] * shape[2] values, transposed or not |
| SliceProps.LayerSpanFromEnd | quickview/plugins/eam_reader.py:858-859 | on n windows of c entries, window k - n is window k for every k below n - 1 |
| SliceProps.LayerSpanMinusOne | quickview/plugins/eam_reader.py:858-859 | index -1 selects an empty window, `[-c:0]` |
| SliceProps.LayerWindowFromEnd | quickview/plugins/eam_reader.py:858-874 | a negative middle or interface index k - n reads the same cells as layer k of a (time, lev, ncol) variable |
| SliceProps.LayerWindowTransposedFromEnd | quickview/plugins/eam_reader.py:858-881 | the same for a transposed (time, ncol, lev) variable |
| SliceProps.LayerWindowMinusOne | quickview/plugins/eam_reader.py:858-881 | layer index -1 reads no cells from any variable |
| SliceProps.WindowOf | quickview/plugins/eam_reader.py:858-883 | reading a window of a variable the dataset holds yields its cells: the span of its time-step data, transposed when flagged, with the fill value replaced by NaN |
| SliceReader.FetchCategory | quickview/plugins/eam_reader.py:831-839 | the per-variable loop gives the arrays, pending removals and error of `CategoryPass` |
| SliceReader.DropArrays | quickview/plugins/eam_reader.py:942-943 | the removal loop leaves `Without(cells, names)` |
| SliceReader.EAMSliceSource.constructor | quickview/plugins/eam_reader.py:569-609 | the initial state: no files, empty lists and selections, layers 0, flags |
| SliceReader.EAMSliceSource.PopulateVariableMetadata | quickview/plugins/eam_reader.py:618-650 | the new state and status are `Populate`'s |
| SliceReader.EAMSliceSource.StoreListing | quickview/plugins/eam_reader.py:627-639 | lists appended, area descriptor replaced only when found |
| SliceReader.EAMSliceSource.AppendVariables | quickview/plugins/eam_reader.py:627-639 | the four lists appended |
| SliceReader.EAMSliceSource.Clear | quickview/plugins/eam_reader.py:612-616 | the four lists emptied, nothing else changed |
| SliceReader.EAMSliceSource.RaiseUpdateFlags | quickview/plugins/eam_reader.py:656-659 | the three update flags raised |
| SliceReader.EAMSliceSource.Invalidate | quickview/plugins/eam_reader.py:666-670 | the dirty and update flags raised |
| SliceReader.EAMSliceSource.DisableSelections | quickview/plugins/eam_reader.py:645-647 | the three selections know every listed name, all disabled |
| SliceReader.EAMSliceSource.SetDataFileName | quickview/plugins/eam_reader.py:652-662 | the new state and status are `SetDataFile`'s |
| SliceReader.EAMSliceSource.SetConnFileName | quickview/plugins/eam_reader.py:664-671 | the new state is `SetConnFile`'s |
| SliceReader.EAMSliceSource.SetMiddleLayer | quickview/plugins/eam_reader.py:673-677 | the new state is `SetLayer(Middle)`'s, for any integer index |
| SliceReader.EAMSliceSource.SetInterfaceLayer | quickview/plugins/eam_reader.py:679-683 | the new state is `SetLayer(Interface)`'s, for any integer index |
| SliceReader.EAMSliceSource.SetArrayEnabled | quickview/plugins/eam_reader.py:701-711 | the new state is `SetArrayStatus`'s |
| SliceReader.EAMSliceSource.RebuildGeometry | quickview/plugins/eam_reader.py:783-823 | the new state and status are `Rebuild`'s |
| SliceReader.EAMSliceSource.ProcessLayer | quickview/plugins/eam_reader.py:841-932 | the new state and pending removals are `LayerPhase`'s |
| SliceReader.EAMSliceSource.CheckLayer | quickview/plugins/eam_reader.py:851-859 | the new state and pending removals are `LayerWindow`'s |
| SliceReader.EAMSliceSource.FetchLayer | quickview/plugins/eam_reader.py:858-884 | the new state and pending removals are `LayerFetch`'s |
| SliceReader.EAMSliceSource.StoreLayer | quickview/plugins/eam_reader.py:882-888 | the layer's arrays are stored, then the failure is logged or, without one, the layer's flag is cleared |
| SliceReader.EAMSliceSource.FinishArrays | quickview/plugins/eam_reader.py:934-943 | the new state and status are `AreaPhase`'s |
| SliceReader.EAMSliceSource.RequestData | quickview/plugins/eam_reader.py:742-948 | the new state and status are `Request`'s |
| SliceReader.EAMSliceSource.SelectTime | quickview/plugins/eam_reader.py:761-766 | the new state is `AtTimeIndex`'s |
| SliceReader.EAMSliceSource.ExtractArrays | quickview/plugins/eam_reader.py:768-943 | the new state and status are `Extract`'s |
| SliceReader.EAMSliceSource.UpdateArrays | quickview/plugins/eam_reader.py:826-943 | the new state and status are `Phases`' |
| SliceReader.EAMSliceSource.UpdateSurface | quickview/plugins/eam_reader.py:825-839 | the new state, pending removals and status are `SurfacePhase`'s |
| FullSpec.LooseKeptAppend | quickview/plugins/eam_reader.py:216-245 | the reference lists distribute over appending one variable |
| FullSpec.LooseListingKeeps | quickview/plugins/eam_reader.py:216-245 | each per-type list of the full reader is exactly the variables of that type not over "ncol_d", in file order |
| FullSpec.AddLooseList | quickview/plugins/eam_reader.py:216-245 | one visit of the loop appends the variable to the list of its type exactly when it is not over "ncol_d" |
| FullSpec.LooseListingArea | quickview/plugins/eam_reader.py:224-227 | the area flag is raised exactly when a 1D variable not over "ncol_d" is named "area" |
| FullSpec.AddLooseArea | quickview/plugins/eam_reader.py:224-227 | one visit raises the area flag exactly when the variable is a 1D variable not over "ncol_d" named "area" |
| FullSpec.SliceAcceptedIsLoose | quickview/plugins/eam_reader.py:216-245 | every variable the slice reader accepts (without repeated dimensions) the full reader accepts, with the same type |
| FullSpec.FullPopulate | quickview/plugins/eam_reader.py:216-250 | no data file changes nothing; file names are kept; a completed pass sets the three sizes and appends the listing |
| FullSpec.WithSizes | quickview/plugins/eam_reader.py:246-250 | only the three sizes change; it completes exactly when time, ilev and lev are all declared, and then stores their sizes |
| FullSpec.SetFullDataFile | quickview/plugins/eam_reader.py:252-258 | None, "None" and the current name change nothing; otherwise the new name is stored and the connectivity file kept |
| FullSpec.SetFullConnFile | quickview/plugins/eam_reader.py:260-263 | the name is stored and nothing else changes |
| FullSpec.FullRequestRefused | quickview/plugins/eam_reader.py:316-338 | nothing is built exactly when a file name is missing; otherwise the grids are those of the extraction at `GetTimeIndex`'s index |
| FullSpec.FullSurface | quickview/plugins/eam_reader.py:340-384 | the surface mesh is the quad mesh of the corners; a completed pass holds exactly the enabled 2D names; readable variables complete |
| FullSpec.FullSurfaceArray | quickview/plugins/eam_reader.py:379-384 | each enabled 2D variable with a unique name holds its freshly read array |
| FullSpec.LayerGridBuilt | quickview/plugins/eam_reader.py:386-514 | a layer block prints at most one message, naming its layer; without one, the grid is the stacked mesh with the level fields and the enabled names; resolvable levels of the right count and readable variables print nothing |
| FullSpec.FullExtractLog | quickview/plugins/eam_reader.py:340-516 | at most two messages; a failing surface builds no layer grid |
| FullReader.ClassifyVariables | quickview/plugins/eam_reader.py:216-245 | the classification loop computes `LooseListing` |
| FullReader.EAMSource.constructor | quickview/plugins/eam_reader.py:173-207 | the initial state: no files, empty lists, no sizes |
| FullReader.EAMSource.Clear | quickview/plugins/eam_reader.py:210-214 | the new state is `ClearFull`'s |
| FullReader.EAMSource.AppendVariables | quickview/plugins/eam_reader.py:224-236 | the new state is `AppendFull`'s |
| FullReader.EAMSource.DisableSelections | quickview/plugins/eam_reader.py:230-245 | the new state is `DisableFull`'s |
| FullReader.EAMSource.ReadSizes | quickview/plugins/eam_reader.py:246-250 | the new state and status are `WithSizes`' |
| FullReader.EAMSource.PopulateVariableMetadata | quickview/plugins/eam_reader.py:216-250 | the new state and status are `FullPopulate`'s |
| FullReader.EAMSource.SetDataFileName | quickview/plugins/eam_reader.py:252-258 | the new state and status are `SetFullDataFile`'s |
| FullReader.EAMSource.SetConnFileName | quickview/plugins/eam_reader.py:260-263 | the new state is `SetFullConnFile`'s |
| FullReader.EAMSource.RequestData | quickview/plugins/eam_reader.py:316-516 | the grids, messages and status are `FullRequest`'s |
| FullReader.EAMSource.Extract | quickview/plugins/eam_reader.py:340-516 | the grids, messages and status are `FullExtract`'s |
| FullReader.EAMSource.BuildLayer | quickview/plugins/eam_reader.py:386-448 | the layer grid and message are `LayerGrid`'s |
| AppSpec.MatchIndices | quickview/interface.py:371-389 | the indices are ascending and in range, each names a matching variable, and every matching variable's index is included |
| AppSpec.Search | quickview/interface.py:371-409 | the filtered view tracks the source list and keeps the master mask; a filter exists exactly for a non-empty search, shows only matches and includes every match |
| AppSpec.SearchAsWritten | quickview/interface.py:411-429 | agrees with `Search` when the guarding filter exists and the search is non-empty, or neither |
| AppSpec.SearchAsWrittenStale | quickview/interface.py:411-429 | with no mid-level filter, searching interface variables ["T", "Q"] for "q" stores the index map but keeps both names, so the view no longer tracks the source, and ticking "T" ticks "Q" |
| AppSpec.StaleSearch | quickview/interface.py:411-429 | the stored selection of that search |
| AppSpec.SelectTracks | quickview/interface.py:344-369 | ticking row i changes that row and, through the index map, the matching master entry only, and keeps the view tracking the source |
| AppSpec.SelectOutOfRange | quickview/interface.py:344-369 | an index past the shown rows raises and changes nothing |
| AppSpec.ClearTracks | quickview/interface.py:431-444 | clearing unticks every shown row and every master entry and keeps everything else |
| AppSpec.Chosen | quickview/interface.py:252-267 | a name is chosen exactly when its mask entry is set |
| AppSpec.FlagIndices | quickview/interface.py:257-267 | the set positions of a mask, ascending, in range, and every set position included |
| AppSpec.ChosenInOrder | quickview/interface.py:257-267 | `v2d[f2d]` is the names at the set positions, in source order and each once |
| AppSpec.PickAppend | quickview/interface.py:257-267 | picking the positions of a + b is picking those of a, then those of b |
| AppSpec.LoadNames | quickview/interface.py:252-267 | numpy indexing raises exactly when the mask's length differs from a non-empty list's |
| AppSpec.LoadVariables | quickview/interface.py:252-280 | raises exactly on a bad mask or no colour map; a bad mask changes nothing, no colour map leaves only `variables` written with the chosen names; otherwise only tracking changes, with the chosen names and default colour, scale, inversion and range per name |
| AppSpec.MaskOf | quickview/interface.py:210-216 | entry i is set exactly when variable i is in the saved selection |
| AppSpec.MaskOfChosen | quickview/interface.py:210-216 | the mask of a saved list holding a category's chosen names among other categories' names is that category's mask |
| AppSpec.FromConfig | quickview/interface.py:202-223 | restored masks are `MaskOf` of the saved list, shown equals master, and without filters the views track the sources |
| AppSpec.RestoredCategory | quickview/interface.py:202-223 | restoring a category from a saved list that holds its chosen names leaves it as it was |
| AppSpec.SaveRestore | quickview/interface.py:202-229 | restoring the state just saved changes nothing when the views are unfiltered, names distinct and tracking loaded |
| AppSpec.SettledSelection | quickview/interface.py:271-275 | a settled state's tracked variables are the chosen names of the three categories in order |
| AppSpec.ConfiguredSelf | quickview/interface.py:202-208 | copying a settled state's saved keys back changes nothing |
| AppSpec.InitConfig | quickview/interface.py:177-188 | sliders at 0, every mask one unticked entry per source variable, names and filters kept |
| AppSpec.LoadDataTracks | quickview/interface.py:243-250 | reloading stores the new lists, unticks everything, and the views track the sources |
| AppSpec.ColorMaps | quickview/interface.py:300-309 | no choice gives the standard maps, both give deficiency maps then standard, otherwise "0" or "1" picks one list, else no change |
| AppSpec.LaunchTracks | quickview/interface.py:101-159 | the launched state's views track the sources and nothing raises; without a saved state everything is unticked |
| AppSpec.WithSel | quickview/interface.py:344-444 | replacing one category's selection leaves the others unchanged |
| App.EAMApp.constructor | quickview/interface.py:101-159 | the state is `Launch`'s and one master entry per source variable is kept |
| App.EAMApp.ResetSliders | quickview/interface.py:180-182 | the sliders are set to 0 |
| App.EAMApp.ResetMasks | quickview/interface.py:183-188 | every mask is reset |
| App.EAMApp.InitAppConfiguration | quickview/interface.py:177-188 | the new state is `InitConfig`'s, masks sized |
| App.EAMApp.RestoreMasks | quickview/interface.py:210-220 | the masks are restored from the saved list |
| App.EAMApp.CopySaved | quickview/interface.py:204-208 | the saved keys are copied into the state |
| App.EAMApp.UpdateStateFromConfig | quickview/interface.py:202-223 | the new state and raise are `FromConfig`'s, masks sized |
| App.EAMApp.LoadVariables | quickview/interface.py:252-280 | the new state and raise are `LoadVariables`' |
| App.EAMApp.UpdateAvailableColorMaps | quickview/interface.py:300-309 | the colour maps become `ColorMaps`' |
| App.EAMApp.UpdateVariableSelection | quickview/interface.py:344-369 | the category's selection and the raise are `Select`'s |
| App.EAMApp.SearchVariables | quickview/interface.py:371-409 | the category's selection becomes `Search`'s, masks sized |
| App.EAMApp.ClearVariables | quickview/interface.py:431-444 | the category's selection becomes `Clear`'s |
| App.EAMApp.SetSources | quickview/interface.py:243-250 | the three source lists are replaced |
| App.EAMApp.UpdateStateFromSource | quickview/interface.py:190-200 | the new state is `ShowSources`' |
| App.EAMApp.LoadData | quickview/interface.py:243-250 | the new state is `LoadData`'s, masks sized |
| Stepping.Wrap | quickview/ui/slice_selection.py:230-234 | the result is in range; an in-range step moves exactly; stepping past either end wraps to the other |
| Stepping.WrapForward | quickview/ui/slice_selection.py:264-268 | forward from the last position gives the first |
| Stepping.WrapBackward | quickview/ui/slice_selection.py:264-268 | back from the first position gives the last |
| Stepping.WrapRoundTrip | quickview/ui/slice_selection.py:230-268 | one step forward then back, or back then forward, returns to the start |
| Stepping.SliceSelection.constructor | quickview/ui/slice_selection.py:230-268 | all sliders at 0 over the given list lengths |
| Stepping.SliceSelection.AdvanceMiddle | quickview/ui/slice_selection.py:230-234 | raises exactly on an empty level list, changing nothing; otherwise only the level moves, by `Wrap` |
| Stepping.SliceSelection.AdvanceInterface | quickview/ui/slice_selection.py:247-251 | the same for the interface level |
| Stepping.SliceSelection.AdvanceTime | quickview/ui/slice_selection.py:264-268 | the same for the time step |

## Left out

- File I/O: a netCDF file is a value, and what can be opened is a map from file name to file. An exception on open is a name missing from that map.
- VTK objects: grids are values holding a mesh, cell arrays and field arrays.
  - `ShallowCopy` into the pipeline's output is not modelled.
  - `Modified()` calls are not modelled.
  - Output-port information and executives are not modelled; the update time is an `Option<real>` parameter.
- Floating point:
  - values are `real`, and NaN is a `Cell` marker
  - rounding in (A * P0 + B * PS0) / 100 is not modelled
  - NaN compares unequal to itself in `np.where`; the model compares exactly.
- `SetCalculateAverages`: it stores `_avg`, which nothing reads. It is not modelled.
- The getters `GetTimestepValues` and `Get*DataArrays` are not modelled, and neither are `RequestInformation` and `RequestUpdateExtent`. A client editing a returned selection is modelled by `SetArrayEnabled`.
- The observer callback that marks the reader modified is not modelled; it is a weak-reference callback. The full reader's `_vars1Darr` is not modelled either.
- `Basics.Lower`: lower-cases ASCII letters only. Python's `str.lower` also folds non-ASCII letters.
- `SliceSpec.FetchArray`: transposing a variable of rank above three is a read error. In the code, rank 3 is the only transposed case the discovery admits.
- `Topology.StackLayers`: a level list shorter than the level dimension is a failure. numpy would leave rows uninitialised there.
- `FullSpec.LayerGrid`: inherits that failure. A level list shorter than the level dimension fails the layer grid with `LevelCountMismatch`, where the `np.empty` stacking at eam_reader.py:392-401 leaves the remaining rows uninitialised and does not raise. A longer list fails in both, since the row assignment raises.
- `FullSpec.LayerGridBuilt`: states the same failure for a shorter level list, for the same reason.
- `FullSpec.FullRequest`: the full reader's output grids start empty on each call. The pipeline hands it fresh outputs.
- Corner and centre variables of rank 0 give a corner-shape error in the model.
- `FullSpec.SliceAcceptedIsLoose`: needs dimension lists without repeats, which netCDF guarantees.
- `interface.py` parts not modelled:
  - JSON load and save of state files
  - the colour-preset XML import; the deficiency maps are a constructor parameter
  - `source.LoadVariables`, the view manager calls, zoom/move and scalar bars
  - the asynchronous play tasks and `update_pipeline_interactive`
- `App.EAMApp.UpdateVariableSelection`: row indices are natural numbers. Python would accept negative indices from the end.
- `AppSpec.LoadDataTracks`: requires no active filter. `load_data` keeps the filter index maps, which then no longer match new lists.
- `AppSpec.SavedConfig`: covers only the keys the model restores (time, levels, variables and their display settings).
- `AppSpec.SearchAsWritten`: yields None where the code as written would index a numpy mask with `None`.
- `view_settings.py` and the Tauri launcher are not part of this model.
- Time index: the slice reader's `get_time_index` can return one past the last step. It does not saturate, and `TimeIndex.SliceIndexPastEnd` states this.
- The full reader's `_areavar` flag is raised by discovery but never lowered or read.
- The full reader's `_time`, `_lev` and `_ilev` are never read.
- `SliceSpec.Levels`: resolves the levels with the corrected `Hybrid.FindSpecialVariable`. Take a file with no `lev` (or `ilev`) variable and exactly one `hyam`/`hybm` (or `hyai`/`hybi`) pair of the dimension's length. There the code as written raises at eam_reader.py:108, so its layer block only logs, stores no level field, fetches no window and keeps the update flag raised. The model stores the combined levels and reads the window. On every other file `Hybrid.FindSpecialVariableAsWritten` equals the corrected resolver.
- `SliceSpec.LayerPhase`: inherits the corrected resolver from `SliceSpec.Levels` on the one-pair file.
- `SliceReader.EAMSliceSource.ProcessLayer`: inherits it through `SliceSpec.LayerPhase`.
- `SliceReader.EAMSliceSource.UpdateArrays`: inherits it through `SliceSpec.Phases`.
- `SliceReader.EAMSliceSource.ExtractArrays`: inherits it through `SliceSpec.Extract`.
- `SliceReader.EAMSliceSource.RequestData`: inherits it through `SliceSpec.Request`.
- `FullSpec.FullLevels`: resolves with the corrected `Hybrid.FindSpecialVariable`. On the one-pair file the code as written raises, prints, and builds no 3D grid for that layer. The model builds the stacked grid.
- `FullSpec.LayerGridBuilt`: inherits the corrected resolver through `FullSpec.FullLevels`.
- `FullReader.EAMSource.BuildLayer`: inherits it through `FullSpec.FullLevels`.
- `FullReader.EAMSource.Extract`: inherits it through `FullSpec.FullExtract`.
- `FullReader.EAMSource.RequestData`: inherits it through `FullSpec.FullRequest`.
- `App.EAMApp.SearchVariables`: for the interface category it applies the corrected `AppSpec.Search`, which tests the interface filter's own index map. The code as written tests the mid-level map (interface.py:426). With interface variables ["T", "Q"], no mid-level filter and search "q", the code stores the index map but keeps both names shown; the model shows ["Q"]. `AppSpec.SearchAsWritten` models the code as written.
- Removing a name from `to_remove` raises `KeyError` in the code when one pass strikes the same name twice. That needs two enabled variables of one name, which netCDF forbids. The model removes names with a set difference, as it does for repeated dimensions.
- `Stepping.SliceSelection`: the list lengths are fixed when the selection is built. The code reads `len(self.state.lev)` and the other lengths on every click, so a reload that changes the lists is not modelled.

## Findings

| source | as written | input that shows it | evidently intended | confidence | as-written member | corrected member |
|---|---|---|---|---|---|---|
| quickview/interface.py:411-429 | `search_3Di_variables` tests whether the mid-level filter `ind3dm` exists before applying its own `ind3di` | interface variables ["T", "Q"], no mid-level filter, search "q": the index map is stored but the names shown stay ["T", "Q"]; ticking row 0 ("T") ticks "Q" | test `ind3di`, as the 2D and mid-level searches test their own maps | not executed | AppSpec.SearchAsWritten, AppSpec.SearchAsWrittenStale | AppSpec.Search |
| quickview/plugins/eam_reader.py:106-108 | with one A and one B candidate, the B values are read from `_hyai[1]` | a file with dimension ilev of size 1 and variables `hyai` = [1] and `hybi` = [2]: the second index of a one-element array raises | read `_hybi[0]`, giving level (1 * P0 + 2 * PS0) / 100 = 3000 | not executed | Hybrid.FindSpecialVariableAsWritten, Hybrid.SinglePairAsWritten | Hybrid.FindSpecialVariable, Hybrid.SinglePairLevels |
