/**
 * The full EAM reader (`EAMSource`) as functions of its state: the looser variable
 * listing, the setters, and `RequestData`, which builds three fresh grids (the surface,
 * the stacked middle layers and the stacked interface layers) on every call.
 */
module FullSpec {
  import opened Basics
  import opened NetCDF
  import opened Catalog
  import opened Hybrid
  import opened TimeIndex
  import opened Topology
  import opened SliceSpec

  const NCOL_D := "ncol_d"
  const CORNER_LAT := "cell_corner_lat"
  const CORNER_LON := "cell_corner_lon"
  const NUMLEV := "numlev"
  const NUMILEV := "numilev"

  // ----- the listing -----

  /** One iteration of the loop in `EAMSource._populate_variable_metadata`: only variables over "ncol_d" are skipped. */
  function AddLoose(l: Listing, v: Variable): Listing
  {
    if NCOL_D in v.dims then l
    else
      var m := MetaOf(v);
      match m.vtype
      case Some(OneD) => l.(vars1D := l.vars1D + [m], area := if v.name == AREA then Some(m) else l.area)
      case Some(TwoD) => l.(vars2D := l.vars2D + [m])
      case Some(ThreeDMid) => l.(vars3Dm := l.vars3Dm + [m])
      case Some(ThreeDInterface) => l.(vars3Di := l.vars3Di + [m])
      case None => l
  }

  /** The listing after the loop has visited `vars` in order. */
  function LooseListing(vars: seq<Variable>): Listing
  {
    if vars == [] then EMPTY_LISTING
    else AddLoose(LooseListing(vars[..|vars| - 1]), vars[|vars| - 1])
  }

  /** Reference definition: the descriptors of the variables of type `t` not over "ncol_d", in file order. */
  function LooseKept(vars: seq<Variable>, t: VarType): seq<VarMeta>
  {
    if vars == [] then []
    else (if NCOL_D !in vars[0].dims && TypeOf(vars[0].dims) == Some(t) then [MetaOf(vars[0])] else [])
         + LooseKept(vars[1..], t)
  }

  lemma {:induction false} LooseKeptAppend(vars: seq<Variable>, v: Variable, t: VarType)
    ensures LooseKept(vars + [v], t) == LooseKept(vars, t) + LooseKept([v], t)
  {
    if vars != [] {
      assert (vars + [v])[1..] == vars[1..] + [v];
      LooseKeptAppend(vars[1..], v, t);
    } else {
      assert [] + [v] == [v];
    }
  }

  /** One visit appends the variable to the list of its type, if it is kept at all. */
  lemma AddLooseList(l: Listing, v: Variable, t: VarType)
    ensures ListOf(AddLoose(l, v), t) == ListOf(l, t) + LooseKept([v], t)
  {
    assert [v][1..] == [];
  }

  /** Each per-type list of the full reader is exactly the variables of that type not over "ncol_d", in file order. */
  lemma {:induction false} LooseListingKeeps(vars: seq<Variable>, t: VarType)
    ensures ListOf(LooseListing(vars), t) == LooseKept(vars, t)
  {
    if vars != [] {
      var init, v := vars[..|vars| - 1], vars[|vars| - 1];
      assert vars == init + [v];
      LooseListingKeeps(init, t);
      LooseKeptAppend(init, v, t);
      AddLooseList(LooseListing(init), v, t);
    }
  }

  /** A one-dimensional variable not over "ncol_d" named "area". */
  predicate LooseAreaCandidate(v: Variable)
  {
    NCOL_D !in v.dims && |v.dims| == 1 && v.name == AREA
  }

  /** One visit makes the variable the area variable exactly when it is a candidate. */
  lemma AddLooseArea(l: Listing, v: Variable)
    ensures AddLoose(l, v).area == if LooseAreaCandidate(v) then Some(MetaOf(v)) else l.area
  {
  }

  /** The area flag is raised exactly when a one-dimensional variable not over "ncol_d" is named "area". */
  lemma {:induction false} LooseListingArea(vars: seq<Variable>)
    ensures LooseListing(vars).area.Some? <==> exists i :: 0 <= i < |vars| && LooseAreaCandidate(vars[i])
  {
    if vars != [] {
      var init, v := vars[..|vars| - 1], vars[|vars| - 1];
      LooseListingArea(init);
      AddLooseArea(LooseListing(init), v);
      if exists i :: 0 <= i < |init| && LooseAreaCandidate(init[i]) {
        var i :| 0 <= i < |init| && LooseAreaCandidate(init[i]);
        assert vars[i] == init[i];
      }
      if exists i :: 0 <= i < |vars| && LooseAreaCandidate(vars[i]) {
        var i :| 0 <= i < |vars| && LooseAreaCandidate(vars[i]);
        if i < |init| {
          assert init[i] == vars[i];
        }
      }
    }
  }

  /** A variable the slice reader accepts (without a repeated dimension) the full reader accepts too, with the same type. */
  lemma SliceAcceptedIsLoose(dims: seq<string>)
    requires IsSliceSignature(dims) && NoDuplicates(dims)
    ensures NCOL_D !in dims && TypeOf(dims).Some?
  {
    SignatureType(dims);
    assert NCOL_D in dims ==> NCOL_D in DimSet(dims);
  }

  // ----- the state -----

  /** The fields of `EAMSource` that its methods write. */
  datatype FullState = FullState(
    dataFile: Option<string>,
    connFile: Option<string>,
    vars1D: seq<VarMeta>,
    vars2D: seq<VarMeta>,
    vars3Dm: seq<VarMeta>,
    vars3Di: seq<VarMeta>,
    timeSteps: seq<real>,
    sel2D: map<string, bool>,
    sel3Dm: map<string, bool>,
    sel3Di: map<string, bool>,
    hasArea: bool,
    timeDim: Option<nat>,
    levDim: Option<nat>,
    ilevDim: Option<nat>)

  /** The state `__init__` leaves; `timeDim`, `levDim` and `ilevDim` do not exist yet. */
  const FULL_INITIAL := FullState(None, None, [], [], [], [], [], map[], map[], map[], false, None, None, None)

  datatype FullOutcome = FullOutcome(st: FullState, status: Status)

  /** `_clear`. */
  function ClearFull(s: FullState): FullState
  {
    s.(vars1D := [], vars2D := [], vars3Dm := [], vars3Di := [])
  }

  /** The listing appended to the lists, the area flag raised when the file has "area" (never lowered), every selection disabled. */
  function Loaded(s: FullState, l: Listing): FullState
  {
    var t := AppendFull(s, l);
    DisableFull(t.(hasArea := t.hasArea || l.area.Some?), l)
  }

  function AppendFull(s: FullState, l: Listing): FullState
  {
    s.(vars1D := s.vars1D + l.vars1D, vars2D := s.vars2D + l.vars2D, vars3Dm := s.vars3Dm + l.vars3Dm, vars3Di := s.vars3Di + l.vars3Di)
  }

  /** `AddArray` for every listed name, then `DisableAllArrays`, on the three selections. */
  function DisableFull(s: FullState, l: Listing): FullState
  {
    s.(sel2D := DisableAll(s.sel2D, l.vars2D), sel3Dm := DisableAll(s.sel3Dm, l.vars3Dm), sel3Di := DisableAll(s.sel3Di, l.vars3Di))
  }

  /**
   * `EAMSource._populate_variable_metadata`: the listing, then the time values, then the
   * sizes of "time", "ilev" and "lev", in that order; a missing one raises and leaves the
   * later ones as they were.
   */
  function FullPopulate(s: FullState, fs: FileSystem): (r: FullOutcome)
    ensures s.dataFile.None? ==> r == FullOutcome(s, Done)
    ensures r.st.dataFile == s.dataFile && r.st.connFile == s.connFile
    ensures r.status == Done && s.dataFile.Some? ==>
              && s.dataFile.value in fs && r.st.timeDim.Some? && r.st.levDim.Some? && r.st.ilevDim.Some?
              && r.st.vars2D == s.vars2D + LooseListing(fs[s.dataFile.value].variables).vars2D
  {
    if s.dataFile.None? then FullOutcome(s, Done)
    else if s.dataFile.value !in fs then FullOutcome(s, Raised(FileNotFound(s.dataFile.value)))
    else
      var ds := fs[s.dataFile.value];
      var s1 := Loaded(s, LooseListing(ds.variables));
      match FindVariable(ds.variables, TIME)
      case None => FullOutcome(s1, Raised(VariableMissing(TIME)))
      case Some(tv) => WithSizes(s1.(timeSteps := s1.timeSteps + tv.values), ds.dimensions)
  }

  /** `timeDim`, `ilevDim` and `levDim` read in that order; the first missing dimension raises. */
  function WithSizes(s: FullState, dims: seq<Dimension>): (r: FullOutcome)
    ensures r.st.(timeDim := s.timeDim, ilevDim := s.ilevDim, levDim := s.levDim) == s
    ensures r.status == Done <==> DimensionSize(dims, TIME).Some? && DimensionSize(dims, ILEV).Some? && DimensionSize(dims, LEV).Some?
    ensures r.status == Done ==> r.st.timeDim == DimensionSize(dims, TIME) && r.st.ilevDim == DimensionSize(dims, ILEV) && r.st.levDim == DimensionSize(dims, LEV)
  {
    match DimensionSize(dims, TIME)
    case None => FullOutcome(s, Raised(DimensionMissing(TIME)))
    case Some(nt) =>
      var s1 := s.(timeDim := Some(nt));
      match DimensionSize(dims, ILEV)
      case None => FullOutcome(s1, Raised(DimensionMissing(ILEV)))
      case Some(ni) =>
        var s2 := s1.(ilevDim := Some(ni));
        match DimensionSize(dims, LEV)
        case None => FullOutcome(s2, Raised(DimensionMissing(LEV)))
        case Some(nm) => FullOutcome(s2.(levDim := Some(nm)), Done)
  }

  /** `EAMSource.SetDataFileName`: None, "None" and the current name are ignored; no dirty flags here. */
  function SetFullDataFile(s: FullState, fs: FileSystem, fname: Option<string>): (r: FullOutcome)
    ensures fname.None? || fname == Some("None") || fname == s.dataFile ==> r == FullOutcome(s, Done)
    ensures r.st != s ==> r.st.dataFile == fname && r.st.connFile == s.connFile
  {
    if fname.None? || fname == Some("None") || fname == s.dataFile then FullOutcome(s, Done)
    else FullPopulate(ClearFull(s.(dataFile := fname)), fs)
  }

  /** `EAMSource.SetConnFileName`: any different value is stored, and nothing else changes. */
  function SetFullConnFile(s: FullState, fname: Option<string>): (r: FullState)
    ensures r.connFile == fname
    ensures r.(connFile := s.connFile) == s
  {
    s.(connFile := fname)
  }

  // ----- RequestData -----

  /** The three output grids of one `RequestData`, the messages it printed and how it ended. */
  datatype FullOutput = FullOutput(surface: Grid, middle: Grid, interface: Grid, log: seq<LogEntry>, status: Status)

  /** A layer block's grid and the message its handler printed, if any. */
  datatype LayerResult = LayerResult(grid: Grid, log: seq<LogEntry>)

  predicate FullFilesProvided(s: FullState)
  {
    s.connFile.Some? && s.connFile != Some("None") && s.dataFile.Some? && s.dataFile != Some("None")
  }

  /** The time index: `GetTimeIndex` when a time is requested and steps are known, else 0. */
  function FullTimeIndex(s: FullState, update: Option<real>): nat
  {
    if update.Some? && |s.timeSteps| > 0 then LegacyIndexOf(s.timeSteps, update.value) else 0
  }

  /** `EAMSource.RequestData`. The grids start empty: the pipeline hands the reader fresh outputs. */
  function FullRequest(s: FullState, fs: FileSystem, update: Option<real>): FullOutput
  {
    if !FullFilesProvided(s) then FullOutput(EMPTY_GRID, EMPTY_GRID, EMPTY_GRID, [FilesNotProvided], Refused)
    else if s.connFile.value !in fs then FullOutput(EMPTY_GRID, EMPTY_GRID, EMPTY_GRID, [], Raised(FileNotFound(s.connFile.value)))
    else if s.dataFile.value !in fs then FullOutput(EMPTY_GRID, EMPTY_GRID, EMPTY_GRID, [], Raised(FileNotFound(s.dataFile.value)))
    else FullExtract(s, fs[s.connFile.value], fs[s.dataFile.value], FullTimeIndex(s, update))
  }

  /**
   * After the files are open: the corner variables by their exact names, the surface
   * mesh with as many cells as "cell_corner_lat" has rows, the 2D loop outside any
   * handler, then the two layer blocks, each inside its own handler.
   */
  function FullExtract(s: FullState, mesh: Dataset, vds: Dataset, t: nat): FullOutput
  {
    match FindVariable(mesh.variables, CORNER_LAT)
    case None => FullOutput(EMPTY_GRID, EMPTY_GRID, EMPTY_GRID, [], Raised(VariableMissing(CORNER_LAT)))
    case Some(lat) =>
      match FindVariable(mesh.variables, CORNER_LON)
      case None => FullOutput(EMPTY_GRID, EMPTY_GRID, EMPTY_GRID, [], Raised(VariableMissing(CORNER_LON)))
      case Some(lon) =>
        match Column(lon.values, |lat.values|)
        case None => FullOutput(EMPTY_GRID, EMPTY_GRID, EMPTY_GRID, [], Raised(CornerShapeMismatch))
        case Some(x) =>
          if |lat.shape| == 0 then FullOutput(EMPTY_GRID, EMPTY_GRID, EMPTY_GRID, [], Raised(CornerShapeMismatch))
          else
            var ncells := lat.shape[0];
            var geometry := QuadMesh(LayerPoints(x, lat.values, 0.0), ncells);
            var p := CategoryPass(vds, s.vars2D, s.sel2D, true, t, None, map[], {});
            var surface := Grid(Some(geometry), p.cells, map[]);
            if p.failure.Some? then FullOutput(surface, EMPTY_GRID, EMPTY_GRID, [], Raised(p.failure.value))
            else
              var m := LayerGrid(s, vds, x, lat.values, ncells, t, Middle);
              var i := LayerGrid(s, vds, x, lat.values, ncells, t, Interface);
              FullOutput(surface, m.grid, i.grid, m.log + i.log, Done)
  }

  function FullVars(s: FullState, l: Layer): seq<VarMeta>
  {
    if l.Middle? then s.vars3Dm else s.vars3Di
  }

  function FullSelection(s: FullState, l: Layer): map<string, bool>
  {
    if l.Middle? then s.sel3Dm else s.sel3Di
  }

  /** `self.levDim` / `self.ilevDim`, None while the attribute does not exist. */
  function FullLayerDim(s: FullState, l: Layer): Option<nat>
  {
    if l.Middle? then s.levDim else s.ilevDim
  }

  function CountField(l: Layer): string
  {
    if l.Middle? then NUMLEV else NUMILEV
  }

  /** The levels of a layer: always resolved from the file. */
  function FullLevels(vds: Dataset, l: Layer): Result<seq<real>, LevelError>
  {
    if l.Middle? then FindSpecialVariable(vds, LEV, HYAM, HYBM) else FindSpecialVariable(vds, ILEV, HYAI, HYBI)
  }

  /**
   * One layer block: resolve the levels, stack one copy of the corners per level into a
   * buffer of `levDim` levels, make `ncells * levDim` quads, read every enabled variable
   * of the layer in full, then add the level count and the levels as field arrays. Any
   * error is logged and ends the block; what was set on the grid before it stays.
   */
  function LayerGrid(s: FullState, vds: Dataset, lon: seq<real>, lat: seq<real>, ncells: nat, t: nat, l: Layer): (r: LayerResult)
    requires |lon| == |lat|
  {
    match FullLevels(vds, l)
    case Err(e) => LayerResult(EMPTY_GRID, [CategoryFailed(l, LevelsUnresolved(e))])
    case Ok(levels) =>
      match FullLayerDim(s, l)
      case None => LayerResult(EMPTY_GRID, [CategoryFailed(l, SizeUnknown(LayerField(l)))])
      case Some(n) =>
        if |levels| != n then LayerResult(EMPTY_GRID, [CategoryFailed(l, LevelCountMismatch(|levels|, n))])
        else
          var geometry := StackedMesh(Stack(lon, lat, levels), ncells, n);
          var p := CategoryPass(vds, FullVars(s, l), FullSelection(s, l), true, t, None, map[], {});
          var g := Grid(Some(geometry), p.cells, map[]);
          if p.failure.Some? then LayerResult(g, [CategoryFailed(l, p.failure.value)])
          else LayerResult(g.(fieldData := map[CountField(l) := [n as real], LayerField(l) := levels]), [])
  }

  // ----- what RequestData guarantees -----

  /** Without both file names nothing is built; otherwise the time index is `GetTimeIndex`'s. */
  lemma FullRequestRefused(s: FullState, fs: FileSystem, update: Option<real>)
    ensures FullRequest(s, fs, update).status == Refused <==> !FullFilesProvided(s)
    ensures FullFilesProvided(s) && s.connFile.value in fs && s.dataFile.value in fs ==>
              FullRequest(s, fs, update) == FullExtract(s, fs[s.connFile.value], fs[s.dataFile.value], FullTimeIndex(s, update))
  {
  }

  /**
   * The surface grid: the corners at height 0 with one quad per row of
   * "cell_corner_lat", and, when the request completes, exactly the enabled 2D variables.
   * The request completes whenever every enabled 2D read succeeds.
   */
  lemma FullSurface(s: FullState, mesh: Dataset, vds: Dataset, t: nat, lat: Variable, lon: Variable)
    requires FindVariable(mesh.variables, CORNER_LAT) == Some(lat) && FindVariable(mesh.variables, CORNER_LON) == Some(lon)
    requires |lat.shape| > 0 && (|lon.values| == |lat.values| || |lon.values| == 1)
    ensures var r := FullExtract(s, mesh, vds, t);
      r.surface.mesh == SurfaceMesh(lat.values, lon.values, lat.shape[0])
    ensures var r := FullExtract(s, mesh, vds, t);
      r.status == Done ==> r.surface.cellData.Keys == EnabledNames(s.vars2D, s.sel2D) && r.surface.fieldData == map[]
    ensures AllFetchable(vds, s.vars2D, s.sel2D, t) ==> FullExtract(s, mesh, vds, t).status == Done
  {
    CategoryPassComplete(vds, s.vars2D, s.sel2D, true, t, None, map[], {});
    if AllFetchable(vds, s.vars2D, s.sel2D, t) {
      CategoryPassSucceeds(vds, s.vars2D, s.sel2D, true, t, None, map[], {});
    }
  }

  /** A completed surface grid holds, for each enabled 2D variable with a unique name, its freshly read array. */
  lemma FullSurfaceArray(s: FullState, mesh: Dataset, vds: Dataset, t: nat, m: VarMeta)
    requires FullExtract(s, mesh, vds, t).status == Done
    requires NamesUnique(s.vars2D) && m in s.vars2D && Enabled(s.sel2D, m.name)
    ensures FetchArray(vds, m, t, None).Ok?
    ensures var cells := FullExtract(s, mesh, vds, t).surface.cellData;
      m.name in cells && cells[m.name] == FetchArray(vds, m, t, None).value
  {
    CategoryPassFetches(vds, s.vars2D, s.sel2D, true, t, None, map[], {}, m);
  }

  /**
   * A layer block that printed nothing built the stacked mesh of `levDim` copies of the
   * corners (point k * P + i is corner i at level k), `ncells * levDim` quads, the
   * layer's enabled variables, and the field arrays of the level count and the levels.
   * It prints at most one message, and prints none when the levels resolve, their count
   * is the dimension size and every enabled read succeeds.
   */
  lemma LayerGridBuilt(s: FullState, vds: Dataset, lon: seq<real>, lat: seq<real>, ncells: nat, t: nat, l: Layer)
    requires |lon| == |lat|
    ensures var r := LayerGrid(s, vds, lon, lat, ncells, t, l);
      && |r.log| <= 1 && (r.log != [] ==> r.log[0].CategoryFailed? && r.log[0].layer == l)
      && (r.log == [] ==>
            var levels, n := FullLevels(vds, l).value, FullLayerDim(s, l).value;
            && r.grid.mesh == Some(StackedMesh(Stack(lon, lat, levels), ncells, n))
            && |r.grid.mesh.value.points| == n * |lat| && |r.grid.mesh.value.cellTypes| == ncells * n
            && r.grid.fieldData == map[CountField(l) := [n as real], LayerField(l) := levels]
            && r.grid.cellData.Keys == EnabledNames(FullVars(s, l), FullSelection(s, l)))
    ensures (FullLevels(vds, l).Ok? && FullLayerDim(s, l) == Some(|FullLevels(vds, l).value|) &&
             AllFetchable(vds, FullVars(s, l), FullSelection(s, l), t)) ==> LayerGrid(s, vds, lon, lat, ncells, t, l).log == []
  {
    CategoryPassComplete(vds, FullVars(s, l), FullSelection(s, l), true, t, None, map[], {});
    if AllFetchable(vds, FullVars(s, l), FullSelection(s, l), t) {
      CategoryPassSucceeds(vds, FullVars(s, l), FullSelection(s, l), true, t, None, map[], {});
    }
    if FullLevels(vds, l).Ok? {
      StackAt(lon, lat, FullLevels(vds, l).value, 0, 0);
    }
  }

  /** The messages of a completed request are those of the two layer blocks, middle first, each failure naming its layer. */
  lemma FullExtractLog(s: FullState, mesh: Dataset, vds: Dataset, t: nat)
    ensures var r := FullExtract(s, mesh, vds, t);
      |r.log| <= 2 && (r.status != Done ==> r.log == [] && r.middle == EMPTY_GRID && r.interface == EMPTY_GRID)
  {
    match FindVariable(mesh.variables, CORNER_LAT)
    case None =>
    case Some(lat) =>
      match FindVariable(mesh.variables, CORNER_LON)
      case None =>
      case Some(lon) =>
        match Column(lon.values, |lat.values|)
        case None =>
        case Some(x) =>
          if |lat.shape| > 0 {
            LayerGridBuilt(s, vds, x, lat.values, lat.shape[0], t, Middle);
            LayerGridBuilt(s, vds, x, lat.values, lat.shape[0], t, Interface);
          }
  }
}
