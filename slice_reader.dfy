/**
 * `EAMSliceSource`, the reader behind the slice view: an object whose setters record
 * the files, layers and selections and raise dirty flags, and whose `RequestData`
 * brings the cached single-layer grid up to date. Every method is proved to move the
 * object's state exactly as the functions of `SliceSpec` describe.
 */
module SliceReader {
  import opened Basics
  import opened NetCDF
  import opened Catalog
  import opened Hybrid
  import opened TimeIndex
  import opened Topology
  import opened SliceSpec

  /** The loop of one category in `RequestData`, over the grid's cell arrays and the pending removals. */
  method FetchCategory(ds: Dataset, vars: seq<VarMeta>, sel: map<string, bool>, refresh: bool, t: nat, span: Option<Span>,
                       cells0: map<string, seq<Cell>>, toRemove0: set<string>)
    returns (cells: map<string, seq<Cell>>, toRemove: set<string>, failure: Option<ReadError>)
    ensures Pass(cells, toRemove, failure) == CategoryPass(ds, vars, sel, refresh, t, span, cells0, toRemove0)
  {
    cells, toRemove, failure := cells0, toRemove0, None;
    var i := 0;
    while i < |vars|
      invariant 0 <= i <= |vars|
      invariant CategoryPass(ds, vars, sel, refresh, t, span, cells0, toRemove0)
             == CategoryPass(ds, vars[i..], sel, refresh, t, span, cells, toRemove)
    {
      var m := vars[i];
      assert vars[i..][1..] == vars[i + 1..];
      if Enabled(sel, m.name) {
        if m.name in cells {
          toRemove := toRemove - {m.name};
        }
        if m.name !in cells || refresh {
          var data := FetchArray(ds, m, t, span);
          if data.Err? {
            failure := Some(data.error);
            return;
          }
          cells := cells[m.name := data.value];
        }
      }
      i := i + 1;
    }
  }

  /** `for var_name in to_remove: CellData.RemoveArray(var_name)`. */
  method DropArrays(cells0: map<string, seq<Cell>>, names: set<string>) returns (cells: map<string, seq<Cell>>)
    ensures cells == Without(cells0, names)
  {
    cells := cells0;
    var pending := names;
    while pending != {}
      invariant pending <= names
      invariant cells == Without(cells0, names - pending)
      decreases |pending|
    {
      var n :| n in pending;
      cells := map k | k in cells && k != n :: cells[k];
      pending := pending - {n};
    }
  }

  class EAMSliceSource {
    /** The files the reader can open. */
    const files: FileSystem

    var dataFile: Option<string>
    var connFile: Option<string>
    var dirty: bool
    var update2D: bool
    var levUpdate: bool
    var ilevUpdate: bool
    var time: nat
    var lev: int
    var ilev: int
    var vars1D: seq<VarMeta>
    var vars2D: seq<VarMeta>
    var vars3Dm: seq<VarMeta>
    var vars3Di: seq<VarMeta>
    var timeSteps: seq<real>
    var sel2D: map<string, bool>
    var sel3Dm: map<string, bool>
    var sel3Di: map<string, bool>
    var areaVar: Option<VarMeta>
    var output: Grid
    var log: seq<LogEntry>

    /** The object's fields as one value. */
    function State(): SliceState
      reads this
    {
      SliceState(Config(dataFile, connFile, lev, ilev, vars1D, vars2D, vars3Dm, vars3Di, timeSteps, sel2D, sel3Dm, sel3Di, areaVar),
                 Cache(dirty, update2D, levUpdate, ilevUpdate, time, output, log))
    }

    constructor (fs: FileSystem)
      ensures files == fs && State() == INITIAL
    {
      files := fs;
      dataFile, connFile := None, None;
      dirty, update2D, levUpdate, ilevUpdate := false, true, true, true;
      time, lev, ilev := 0, 0, 0;
      vars1D, vars2D, vars3Dm, vars3Di := [], [], [], [];
      timeSteps := [];
      sel2D, sel3Dm, sel3Di := map[], map[], map[];
      areaVar := None;
      output := EMPTY_GRID;
      log := [];
    }

    /** `_populate_variable_metadata`. */
    method PopulateVariableMetadata() returns (status: Status)
      modifies this
      ensures Outcome(State(), status) == Populate(old(State()), files)
    {
      if dataFile.None? {
        return Done;
      }
      var name := dataFile.value;
      if name !in files {
        return Raised(FileNotFound(name));
      }
      var ds := files[name];
      var l := ClassifySliceVariables(ds.variables);
      StoreListing(l);
      DisableSelections(l);
      var tv := FindVariable(ds.variables, TIME);
      if tv.None? {
        return Raised(VariableMissing(TIME));
      }
      timeSteps := timeSteps + tv.value.values;
      status := Done;
    }

    /** The appends to the four lists and the area descriptor of `_populate_variable_metadata`. */
    method StoreListing(l: Listing)
      modifies this
      ensures State() == Listed(old(State()), l)
    {
      AppendVariables(l);
      if l.area.Some? {
        areaVar := l.area;
      }
    }

    /** The appends to the four lists. */
    method AppendVariables(l: Listing)
      modifies this
      ensures State() == AppendLists(old(State()), l)
    {
      vars1D, vars2D, vars3Dm, vars3Di := vars1D + l.vars1D, vars2D + l.vars2D, vars3Dm + l.vars3Dm, vars3Di + l.vars3Di;
    }

    /** `_clear`. */
    method Clear()
      modifies this
      ensures State() == ClearLists(old(State()))
    {
      vars1D, vars2D, vars3Dm, vars3Di := [], [], [], [];
    }

    /** The three update flags raised. */
    method RaiseUpdateFlags()
      modifies this
      ensures State() == RaiseFlags(old(State()))
    {
      update2D, levUpdate, ilevUpdate := true, true, true;
    }

    /** `_dirty` and the three update flags raised, as both file setters do. */
    method Invalidate()
      modifies this
      ensures State() == SliceSpec.Invalidate(old(State()))
    {
      dirty := true;
      RaiseUpdateFlags();
    }

    /** The `AddArray` calls and `DisableAllArrays` of `_populate_variable_metadata`. */
    method DisableSelections(l: Listing)
      modifies this
      ensures State() == Disabled(old(State()), l)
    {
      sel2D := DisableAll(sel2D, l.vars2D);
      sel3Dm := DisableAll(sel3Dm, l.vars3Dm);
      sel3Di := DisableAll(sel3Di, l.vars3Di);
    }

    /** `SetDataFileName`. */
    method SetDataFileName(fname: Option<string>) returns (status: Status)
      modifies this
      ensures Outcome(State(), status) == SetDataFile(old(State()), files, fname)
    {
      if fname.None? || fname == Some("None") || fname == dataFile {
        return Done;
      }
      dataFile := fname;
      Invalidate();
      Clear();
      status := PopulateVariableMetadata();
    }

    /** `SetConnFileName`. */
    method SetConnFileName(fname: Option<string>)
      modifies this
      ensures State() == SetConnFile(old(State()), fname)
    {
      if fname != connFile {
        connFile := fname;
        Invalidate();
      }
    }

    /** `SetMiddleLayer`. */
    method SetMiddleLayer(k: int)
      modifies this
      ensures State() == SetLayer(old(State()), Middle, k)
    {
      if lev != k {
        lev := k;
        levUpdate := true;
      }
    }

    /** `SetInterfaceLayer`. */
    method SetInterfaceLayer(k: int)
      modifies this
      ensures State() == SetLayer(old(State()), Interface, k)
    {
      if ilev != k {
        ilev := k;
        ilevUpdate := true;
      }
    }

    /** A client enabling or disabling one array through the selection a `Get*DataArrays` getter returns. */
    method SetArrayEnabled(c: Category, name: string, enabled: bool)
      modifies this
      ensures State() == SetArrayStatus(old(State()), c, name, enabled)
    {
      match c {
        case Surface2D => sel2D := sel2D[name := enabled];
        case Middle3D => sel3Dm := sel3Dm[name := enabled];
        case Interface3D => sel3Di := sel3Di[name := enabled];
      }
    }

    /** The `if self._dirty:` block of `RequestData`. */
    method RebuildGeometry(mesh: Dataset, ncells: nat) returns (status: Status)
      modifies this
      ensures Outcome(State(), status) == Rebuild(old(State()), mesh, ncells)
    {
      if !dirty {
        return Done;
      }
      output := EMPTY_GRID;
      var lat := VariableContaining(mesh.variables, "corner_lat");
      if lat.None? {
        return Raised(CornerVariableMissing("corner_lat"));
      }
      var lon := VariableContaining(mesh.variables, "corner_lon");
      if lon.None? {
        return Raised(CornerVariableMissing("corner_lon"));
      }
      var m := SurfaceMesh(lat.value.values, lon.value.values, ncells);
      if m.None? {
        return Raised(CornerShapeMismatch);
      }
      output := Grid(Some(m.value), map[], map[]);
      dirty := false;
      status := Done;
    }

    /** The middle- or interface-layer block of `RequestData`, with its exception handler. */
    method ProcessLayer(vds: Dataset, ncells: nat, toRemove: set<string>, l: Layer) returns (remaining: set<string>)
      modifies this
      ensures var r := LayerPhase(old(State()), vds, ncells, toRemove, l);
        State() == r.st && remaining == r.toRemove
    {
      var field := LayerField(l);
      var levels := Levels(State(), vds, l);
      if levels.Err? {
        log := log + [CategoryFailed(l, LevelsUnresolved(levels.error))];
        return toRemove;
      }
      if field !in output.fieldData {
        output := output.(fieldData := output.fieldData[field := levels.value]);
      }
      assert State() == StoreLevels(old(State()), l, levels.value);
      remaining := CheckLayer(vds, ncells, toRemove, l, |levels.value|);
    }

    /** The dimension lookup and the out-of-range message of a layer block. */
    method CheckLayer(vds: Dataset, ncells: nat, toRemove: set<string>, l: Layer, nlevels: nat) returns (remaining: set<string>)
      modifies this
      ensures var r := LayerWindow(old(State()), vds, ncells, toRemove, l, nlevels);
        State() == r.st && remaining == r.toRemove
    {
      var field := LayerField(l);
      var size := DimensionSize(vds.dimensions, field);
      if size.None? {
        log := log + [CategoryFailed(l, DimensionMissing(field))];
        return toRemove;
      }
      var k := if l.Middle? then lev else ilev;
      if k >= size.value {
        log := log + [LayerOutOfRange(l, k, nlevels)];
      }
      remaining := FetchLayer(vds, ncells, toRemove, l);
    }

    /** The per-variable loop of a layer block over the layer's window. */
    method FetchLayer(vds: Dataset, ncells: nat, toRemove: set<string>, l: Layer) returns (remaining: set<string>)
      modifies this
      ensures var r := LayerFetch(old(State()), vds, ncells, toRemove, l);
        State() == r.st && remaining == r.toRemove
    {
      var k := if l.Middle? then lev else ilev;
      var vars := if l.Middle? then vars3Dm else vars3Di;
      var sel := if l.Middle? then sel3Dm else sel3Di;
      var refresh := if l.Middle? then levUpdate else ilevUpdate;
      var cells, failure;
      cells, remaining, failure := FetchCategory(vds, vars, sel, refresh, time, Some(LayerSpan(k, ncells)), output.cellData, toRemove);
      StoreLayer(l, cells, failure);
    }

    /** The end of a layer's loop: its arrays are stored, then a failure is logged or the layer's flag cleared. */
    method StoreLayer(l: Layer, cells: map<string, seq<Cell>>, failure: Option<ReadError>)
      modifies this
      ensures var s1 := WithCells(old(State()), cells);
        State() == if failure.Some? then Log(s1, CategoryFailed(l, failure.value)) else ClearFlag(s1, l)
    {
      output := output.(cellData := cells);
      if failure.Some? {
        log := log + [CategoryFailed(l, failure.value)];
      } else if l.Middle? {
        levUpdate := false;
      } else {
        ilevUpdate := false;
      }
    }

    /** The area array and the removal of stale arrays at the end of `RequestData`. */
    method FinishArrays(vds: Dataset, toRemove: set<string>) returns (status: Status)
      modifies this
      ensures var r := AreaPhase(old(State()), vds, toRemove);
        State() == r.st && status == r.status
    {
      if areaVar.Some? && AREA !in output.cellData {
        var v := FindVariable(vds.variables, areaVar.value.name);
        if v.None? {
          return Raised(VariableMissing(areaVar.value.name));
        }
        output := output.(cellData := output.cellData[AREA := Substitute(v.value.values, areaVar.value.fill)]);
      }
      var cells := DropArrays(output.cellData, toRemove - {AREA});
      output := output.(cellData := cells);
      status := Done;
    }

    /** `RequestData` for the update time the pipeline asks for (None when it asks for none). */
    method RequestData(update: Option<real>) returns (status: Status)
      modifies this
      ensures State() == Request(old(State()), files, update).st
      ensures status == Request(old(State()), files, update).status
    {
      if !FilesProvided(State()) {
        log := log + [FilesNotProvided];
        return Refused;
      }
      var t := SliceTimeIndex(timeSteps, update);
      SelectTime(t);
      var conn, data := connFile.value, dataFile.value;
      if conn !in files {
        return Raised(FileNotFound(conn));
      }
      if data !in files {
        return Raised(FileNotFound(data));
      }
      status := ExtractArrays(files[conn], files[data]);
    }

    /** A changed time index is stored and raises the update flags. */
    method SelectTime(t: nat)
      modifies this
      ensures State() == AtTimeIndex(old(State()), t)
    {
      if time != t {
        time := t;
        RaiseUpdateFlags();
      }
    }

    /** `RequestData` once both files are open. */
    method ExtractArrays(mesh: Dataset, vds: Dataset) returns (status: Status)
      modifies this
      ensures State() == Extract(old(State()), mesh, vds).st
      ensures status == Extract(old(State()), mesh, vds).status
    {
      var count := CellCount(mesh.dimensions);
      if count.None? {
        return Raised(NoCellDimension);
      }
      var ncells := count.value;
      status := RebuildGeometry(mesh, ncells);
      if status != Done {
        return;
      }
      status := UpdateArrays(vds, ncells);
    }

    /** The cell-array loops of `RequestData`, from the 2D loop to the removal of stale arrays. */
    method UpdateArrays(vds: Dataset, ncells: nat) returns (status: Status)
      modifies this
      ensures State() == Phases(old(State()), vds, ncells).st
      ensures status == Phases(old(State()), vds, ncells).status
    {
      var toRemove;
      toRemove, status := UpdateSurface(vds);
      if status != Done {
        return;
      }
      toRemove := ProcessLayer(vds, ncells, toRemove, Middle);
      toRemove := ProcessLayer(vds, ncells, toRemove, Interface);
      status := FinishArrays(vds, toRemove);
    }

    /** The 2D loop of `RequestData`, starting from every array the grid holds as a candidate for removal. */
    method UpdateSurface(vds: Dataset) returns (toRemove: set<string>, status: Status)
      modifies this
      ensures Stage(State(), toRemove, status) == SurfacePhase(old(State()), vds, old(output.cellData.Keys))
    {
      var cells, failure;
      cells, toRemove, failure := FetchCategory(vds, vars2D, sel2D, update2D, time, None, output.cellData, output.cellData.Keys);
      output := output.(cellData := cells);
      if failure.Some? {
        return toRemove, Raised(failure.value);
      }
      update2D := false;
      status := Done;
    }
  }
}
