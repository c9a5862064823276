/**
 * `EAMSource`, the full reader: setters that record the files and list the data
 * file's variables, and a `RequestData` that builds the three output grids from scratch
 * and leaves the reader itself untouched. Every method is proved to do exactly what
 * the functions of `FullSpec` describe.
 */
module FullReader {
  import opened Basics
  import opened NetCDF
  import opened Catalog
  import opened Hybrid
  import opened TimeIndex
  import opened Topology
  import opened SliceSpec
  import opened SliceReader
  import opened FullSpec

  /** The classification loop of `EAMSource._populate_variable_metadata`. */
  method ClassifyVariables(vars: seq<Variable>) returns (l: Listing)
    ensures l == LooseListing(vars)
  {
    l := EMPTY_LISTING;
    var i := 0;
    while i < |vars|
      invariant 0 <= i <= |vars|
      invariant l == LooseListing(vars[..i])
    {
      var v := vars[i];
      assert vars[..i + 1][..i] == vars[..i];
      if NCOL_D !in v.dims {
        var m := MetaOf(v);
        match m.vtype {
          case Some(OneD) =>
            l := l.(vars1D := l.vars1D + [m]);
            if v.name == AREA {
              l := l.(area := Some(m));
            }
          case Some(TwoD) => l := l.(vars2D := l.vars2D + [m]);
          case Some(ThreeDInterface) => l := l.(vars3Di := l.vars3Di + [m]);
          case Some(ThreeDMid) => l := l.(vars3Dm := l.vars3Dm + [m]);
          case None =>
        }
      }
      i := i + 1;
    }
    assert vars[..|vars|] == vars;
  }

  class EAMSource {
    /** The files the reader can open. */
    const files: FileSystem

    var dataFile: Option<string>
    var connFile: Option<string>
    var vars1D: seq<VarMeta>
    var vars2D: seq<VarMeta>
    var vars3Dm: seq<VarMeta>
    var vars3Di: seq<VarMeta>
    var timeSteps: seq<real>
    var sel2D: map<string, bool>
    var sel3Dm: map<string, bool>
    var sel3Di: map<string, bool>
    var hasArea: bool
    var timeDim: Option<nat>
    var levDim: Option<nat>
    var ilevDim: Option<nat>

    /** The object's fields as one value. */
    function State(): FullState
      reads this
    {
      FullState(dataFile, connFile, vars1D, vars2D, vars3Dm, vars3Di, timeSteps, sel2D, sel3Dm, sel3Di, hasArea, timeDim, levDim, ilevDim)
    }

    constructor (fs: FileSystem)
      ensures files == fs && State() == FULL_INITIAL
    {
      files := fs;
      dataFile, connFile := None, None;
      vars1D, vars2D, vars3Dm, vars3Di := [], [], [], [];
      timeSteps := [];
      sel2D, sel3Dm, sel3Di := map[], map[], map[];
      hasArea := false;
      timeDim, levDim, ilevDim := None, None, None;
    }

    /** `_clear`. */
    method Clear()
      modifies this
      ensures State() == ClearFull(old(State()))
    {
      vars1D, vars2D, vars3Dm, vars3Di := [], [], [], [];
    }

    /** The appends of the classification loop. */
    method AppendVariables(l: Listing)
      modifies this
      ensures State() == AppendFull(old(State()), l)
    {
      vars1D, vars2D, vars3Dm, vars3Di := vars1D + l.vars1D, vars2D + l.vars2D, vars3Dm + l.vars3Dm, vars3Di + l.vars3Di;
    }

    /** The `AddArray` calls and `DisableAllArrays`. */
    method DisableSelections(l: Listing)
      modifies this
      ensures State() == DisableFull(old(State()), l)
    {
      sel2D := DisableAll(sel2D, l.vars2D);
      sel3Dm := DisableAll(sel3Dm, l.vars3Dm);
      sel3Di := DisableAll(sel3Di, l.vars3Di);
    }

    /** The three dimension sizes at the end of `_populate_variable_metadata`. */
    method ReadSizes(dims: seq<Dimension>) returns (status: Status)
      modifies this
      ensures FullOutcome(State(), status) == WithSizes(old(State()), dims)
    {
      var nt := DimensionSize(dims, TIME);
      if nt.None? {
        return Raised(DimensionMissing(TIME));
      }
      timeDim := nt;
      var ni := DimensionSize(dims, ILEV);
      if ni.None? {
        return Raised(DimensionMissing(ILEV));
      }
      ilevDim := ni;
      var nm := DimensionSize(dims, LEV);
      if nm.None? {
        return Raised(DimensionMissing(LEV));
      }
      levDim := nm;
      status := Done;
    }

    /** `EAMSource._populate_variable_metadata`. */
    method PopulateVariableMetadata() returns (status: Status)
      modifies this
      ensures FullOutcome(State(), status) == FullPopulate(old(State()), files)
    {
      if dataFile.None? {
        return Done;
      }
      var name := dataFile.value;
      if name !in files {
        return Raised(FileNotFound(name));
      }
      var ds := files[name];
      var l := ClassifyVariables(ds.variables);
      AppendVariables(l);
      hasArea := hasArea || l.area.Some?;
      DisableSelections(l);
      var tv := FindVariable(ds.variables, TIME);
      if tv.None? {
        return Raised(VariableMissing(TIME));
      }
      timeSteps := timeSteps + tv.value.values;
      status := ReadSizes(ds.dimensions);
    }

    /** `EAMSource.SetDataFileName`. */
    method SetDataFileName(fname: Option<string>) returns (status: Status)
      modifies this
      ensures FullOutcome(State(), status) == SetFullDataFile(old(State()), files, fname)
    {
      if fname.None? || fname == Some("None") || fname == dataFile {
        return Done;
      }
      dataFile := fname;
      Clear();
      status := PopulateVariableMetadata();
    }

    /** `EAMSource.SetConnFileName`. */
    method SetConnFileName(fname: Option<string>)
      modifies this
      ensures State() == SetFullConnFile(old(State()), fname)
    {
      connFile := fname;
    }

    /** `EAMSource.RequestData` for the update time the pipeline asks for (None when it asks for none). */
    method RequestData(update: Option<real>) returns (out: FullOutput)
      ensures out == FullRequest(State(), files, update)
    {
      if !FullFilesProvided(State()) {
        return FullOutput(EMPTY_GRID, EMPTY_GRID, EMPTY_GRID, [FilesNotProvided], Refused);
      }
      var t := 0;
      if update.Some? && |timeSteps| > 0 {
        t := LegacyTimeIndex(timeSteps, update.value);
      }
      var conn, data := connFile.value, dataFile.value;
      if conn !in files {
        return FullOutput(EMPTY_GRID, EMPTY_GRID, EMPTY_GRID, [], Raised(FileNotFound(conn)));
      }
      if data !in files {
        return FullOutput(EMPTY_GRID, EMPTY_GRID, EMPTY_GRID, [], Raised(FileNotFound(data)));
      }
      out := Extract(files[conn], files[data], t);
    }

    /** `RequestData` once both files are open. */
    method Extract(mesh: Dataset, vds: Dataset, t: nat) returns (out: FullOutput)
      ensures out == FullExtract(State(), mesh, vds, t)
    {
      var lat := FindVariable(mesh.variables, CORNER_LAT);
      if lat.None? {
        return FullOutput(EMPTY_GRID, EMPTY_GRID, EMPTY_GRID, [], Raised(VariableMissing(CORNER_LAT)));
      }
      var lon := FindVariable(mesh.variables, CORNER_LON);
      if lon.None? {
        return FullOutput(EMPTY_GRID, EMPTY_GRID, EMPTY_GRID, [], Raised(VariableMissing(CORNER_LON)));
      }
      var x := Column(lon.value.values, |lat.value.values|);
      if x.None? || |lat.value.shape| == 0 {
        return FullOutput(EMPTY_GRID, EMPTY_GRID, EMPTY_GRID, [], Raised(CornerShapeMismatch));
      }
      var ncells := lat.value.shape[0];
      var cells, _, failure := FetchCategory(vds, vars2D, sel2D, true, t, None, map[], {});
      var surface := Grid(Some(QuadMesh(LayerPoints(x.value, lat.value.values, 0.0), ncells)), cells, map[]);
      if failure.Some? {
        return FullOutput(surface, EMPTY_GRID, EMPTY_GRID, [], Raised(failure.value));
      }
      var m := BuildLayer(vds, x.value, lat.value.values, ncells, t, Middle);
      var i := BuildLayer(vds, x.value, lat.value.values, ncells, t, Interface);
      out := FullOutput(surface, m.grid, i.grid, m.log + i.log, Done);
    }

    /** One layer block of `RequestData`, with its exception handler. */
    method BuildLayer(vds: Dataset, lon: seq<real>, lat: seq<real>, ncells: nat, t: nat, l: Layer) returns (r: LayerResult)
      requires |lon| == |lat|
      ensures r == LayerGrid(State(), vds, lon, lat, ncells, t, l)
    {
      var levels := FullLevels(vds, l);
      if levels.Err? {
        return LayerResult(EMPTY_GRID, [CategoryFailed(l, LevelsUnresolved(levels.error))]);
      }
      var dim := if l.Middle? then levDim else ilevDim;
      if dim.None? {
        return LayerResult(EMPTY_GRID, [CategoryFailed(l, SizeUnknown(LayerField(l)))]);
      }
      var n := dim.value;
      var points := StackLayers(lon, lat, levels.value, n);
      if points.None? {
        return LayerResult(EMPTY_GRID, [CategoryFailed(l, LevelCountMismatch(|levels.value|, n))]);
      }
      var vars := if l.Middle? then vars3Dm else vars3Di;
      var sel := if l.Middle? then sel3Dm else sel3Di;
      var cells, _, failure := FetchCategory(vds, vars, sel, true, t, None, map[], {});
      var g := Grid(Some(QuadMesh(points.value, ncells * n)), cells, map[]);
      if failure.Some? {
        return LayerResult(g, [CategoryFailed(l, failure.value)]);
      }
      r := LayerResult(g.(fieldData := map[CountField(l) := [n as real], LayerField(l) := levels.value]), []);
    }
  }
}
