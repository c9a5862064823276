/**
 * What one `RequestData` of the slice reader guarantees: the settings are left alone,
 * the geometry is rebuilt only when dirty, the cell arrays end up exactly the enabled
 * variables (plus "area"), the update flags are cleared, and a cached array is not
 * read again unless something invalidated it.
 */
module SliceProps {
  import opened Basics
  import opened NetCDF
  import opened Catalog
  import opened Hybrid
  import opened TimeIndex
  import opened Topology
  import opened SliceSpec

  /** `after` is `before` with entries appended. */
  predicate LogExtends(before: seq<LogEntry>, after: seq<LogEntry>)
  {
    |before| <= |after| && after[..|before|] == before
  }

  lemma LogExtendsTrans(x: seq<LogEntry>, y: seq<LogEntry>, z: seq<LogEntry>)
    requires LogExtends(x, y) && LogExtends(y, z)
    ensures LogExtends(x, z)
  {
    assert z[..|x|] == z[..|y|][..|x|];
  }

  lemma LogAppended(log: seq<LogEntry>, e: LogEntry)
    ensures LogExtends(log, log + [e])
  {
    assert (log + [e])[..|log|] == log;
  }

  /** No entry appended after `before` reports a failed layer block. */
  predicate NoFailureSince(before: seq<LogEntry>, after: seq<LogEntry>)
  {
    forall i :: |before| <= i < |after| ==> !after[i].CategoryFailed?
  }

  lemma NoFailureSplit(x: seq<LogEntry>, y: seq<LogEntry>, z: seq<LogEntry>)
    requires LogExtends(x, y) && LogExtends(y, z) && NoFailureSince(x, z)
    ensures NoFailureSince(x, y) && NoFailureSince(y, z)
  {
    forall i | |x| <= i < |y| ensures !y[i].CategoryFailed? {
      assert y[i] == z[..|y|][i];
    }
  }

  /** All enabled names of the three categories. */
  function AllEnabled(s: SliceState): set<string>
  {
    EnabledNames(s.config.vars2D, s.config.sel2D) + EnabledNames(s.config.vars3Dm, s.config.sel3Dm) + EnabledNames(s.config.vars3Di, s.config.sel3Di)
  }

  /** The 2D phase changes only the cell arrays and `_2d_update`, and either completes or raises. */
  lemma SurfacePhaseFrame(s: SliceState, vds: Dataset, toRemove: set<string>)
    ensures var r := SurfacePhase(s, vds, toRemove);
      && r.st.config == s.config
      && r.st.cache == s.cache.(output := s.cache.output.(cellData := r.st.cache.output.cellData), update2D := r.st.cache.update2D)
      && (r.status == Done || r.status.Raised?)
  {
  }

  /** The 2D phase: a completed pass adds the enabled names and clears `_2d_update`; present arrays are kept unless refreshed. */
  lemma SurfacePhaseArrays(s: SliceState, vds: Dataset, toRemove: set<string>)
    requires toRemove <= s.cache.output.cellData.Keys
    ensures var r := SurfacePhase(s, vds, toRemove);
      var cells, cells' := s.cache.output.cellData, r.st.cache.output.cellData;
      var e := EnabledNames(s.config.vars2D, s.config.sel2D);
      && cells.Keys <= cells'.Keys && r.toRemove <= toRemove && r.toRemove <= cells'.Keys
      && (forall n :: n in cells && !s.cache.update2D ==> cells'[n] == cells[n])
      && (r.status == Done ==> !r.st.cache.update2D && cells'.Keys == cells.Keys + e && r.toRemove == toRemove - e)
  {
    var cells := s.cache.output.cellData;
    CategoryPassBounds(vds, s.config.vars2D, s.config.sel2D, s.cache.update2D, s.cache.time, None, cells, toRemove);
    CategoryPassComplete(vds, s.config.vars2D, s.config.sel2D, s.cache.update2D, s.cache.time, None, cells, toRemove);
    forall n | n in cells && !s.cache.update2D
      ensures SurfacePhase(s, vds, toRemove).st.cache.output.cellData[n] == cells[n]
    {
      CategoryPassKeepsPresent(vds, s.config.vars2D, s.config.sel2D, s.cache.update2D, s.cache.time, None, cells, toRemove, n);
    }
  }

  /** The reads of one layer window change only the cell arrays, the log and this layer's flag. */
  lemma LayerFetchFrame(s: SliceState, vds: Dataset, ncells: nat, toRemove: set<string>, l: Layer)
    ensures var r := LayerFetch(s, vds, ncells, toRemove, l);
      && r.st.config == s.config
      && r.st.cache == s.cache.(output := s.cache.output.(cellData := r.st.cache.output.cellData), log := r.st.cache.log,
                               levUpdate := r.st.cache.levUpdate, ilevUpdate := r.st.cache.ilevUpdate)
      && LayerFlag(r.st, Other(l)) == LayerFlag(s, Other(l))
      && (r.st.cache.log == s.cache.log || (r.st.cache.log == s.cache.log + [r.st.cache.log[|s.cache.log|]] && r.st.cache.log[|s.cache.log|].CategoryFailed?))
  {
  }

  /** A window read that logs nothing adds the layer's enabled names and clears its flag. */
  lemma LayerFetchArrays(s: SliceState, vds: Dataset, ncells: nat, toRemove: set<string>, l: Layer)
    requires toRemove <= s.cache.output.cellData.Keys
    ensures var r := LayerFetch(s, vds, ncells, toRemove, l);
      var cells, cells' := s.cache.output.cellData, r.st.cache.output.cellData;
      var e := EnabledNames(LayerVars(s, l), LayerSelection(s, l));
      && cells.Keys <= cells'.Keys && r.toRemove <= toRemove && r.toRemove <= cells'.Keys
      && (forall n :: n in cells && !LayerFlag(s, l) ==> cells'[n] == cells[n])
      && (r.st.cache.log == s.cache.log ==> !LayerFlag(r.st, l) && cells'.Keys == cells.Keys + e && r.toRemove == toRemove - e)
  {
    var span := Some(LayerSpan(LayerIndex(s, l), ncells));
    var cells := s.cache.output.cellData;
    var p := CategoryPass(vds, LayerVars(s, l), LayerSelection(s, l), LayerFlag(s, l), s.cache.time, span, cells, toRemove);
    var r := LayerFetch(s, vds, ncells, toRemove, l);
    assert r.st.cache.output.cellData == p.cells && r.toRemove == p.toRemove;
    assert r.st.cache.log == s.cache.log ==> p.failure.None? && !LayerFlag(r.st, l);
    CategoryPassBounds(vds, LayerVars(s, l), LayerSelection(s, l), LayerFlag(s, l), s.cache.time, span, cells, toRemove);
    CategoryPassComplete(vds, LayerVars(s, l), LayerSelection(s, l), LayerFlag(s, l), s.cache.time, span, cells, toRemove);
    forall n | n in cells && !LayerFlag(s, l)
      ensures n in p.cells && p.cells[n] == cells[n]
    {
      CategoryPassKeepsPresent(vds, LayerVars(s, l), LayerSelection(s, l), LayerFlag(s, l), s.cache.time, span, cells, toRemove, n);
    }
  }

  /** The index check and window read of a layer change only the grid's arrays, the log (by appending) and this layer's flag. */
  lemma LayerWindowFrame(s: SliceState, vds: Dataset, ncells: nat, toRemove: set<string>, l: Layer, nlevels: nat)
    ensures var r := LayerWindow(s, vds, ncells, toRemove, l, nlevels);
      && r.st.config == s.config
      && r.st.cache == s.cache.(output := r.st.cache.output, log := r.st.cache.log, levUpdate := r.st.cache.levUpdate, ilevUpdate := r.st.cache.ilevUpdate)
      && LayerFlag(r.st, Other(l)) == LayerFlag(s, Other(l))
      && r.st.cache.output.mesh == s.cache.output.mesh
      && LogExtends(s.cache.log, r.st.cache.log)
  {
    match DimensionSize(vds.dimensions, LayerField(l))
    case None =>
      LogAppended(s.cache.log, CategoryFailed(l, DimensionMissing(LayerField(l))));
    case Some(size) =>
      var k := LayerIndex(s, l);
      if k >= size {
        LogAppended(s.cache.log, LayerOutOfRange(l, k, nlevels));
        LayerFetchFrame(Log(s, LayerOutOfRange(l, k, nlevels)), vds, ncells, toRemove, l);
        LayerFetchExtends(Log(s, LayerOutOfRange(l, k, nlevels)), vds, ncells, toRemove, l);
        LogExtendsTrans(s.cache.log, Log(s, LayerOutOfRange(l, k, nlevels)).cache.log, LayerWindow(s, vds, ncells, toRemove, l, nlevels).st.cache.log);
      } else {
        LayerFetchFrame(s, vds, ncells, toRemove, l);
        LayerFetchExtends(s, vds, ncells, toRemove, l);
      }
  }

  /** The window read of a layer only appends to the log. */
  lemma LayerFetchExtends(s: SliceState, vds: Dataset, ncells: nat, toRemove: set<string>, l: Layer)
    ensures LogExtends(s.cache.log, LayerFetch(s, vds, ncells, toRemove, l).st.cache.log)
  {
    LayerFetchFrame(s, vds, ncells, toRemove, l);
    var r := LayerFetch(s, vds, ncells, toRemove, l);
    if r.st.cache.log != s.cache.log {
      LogAppended(s.cache.log, r.st.cache.log[|s.cache.log|]);
    }
  }

  /** A layer phase changes only the grid's arrays, the log (by appending) and this layer's flag. */
  lemma LayerPhaseFrame(s: SliceState, vds: Dataset, ncells: nat, toRemove: set<string>, l: Layer)
    ensures var r := LayerPhase(s, vds, ncells, toRemove, l);
      && r.st.config == s.config
      && r.st.cache == s.cache.(output := r.st.cache.output, log := r.st.cache.log, levUpdate := r.st.cache.levUpdate, ilevUpdate := r.st.cache.ilevUpdate)
      && LayerFlag(r.st, Other(l)) == LayerFlag(s, Other(l))
      && r.st.cache.output.mesh == s.cache.output.mesh
      && LogExtends(s.cache.log, r.st.cache.log)
  {
    match Levels(s, vds, l)
    case Err(err) =>
      LogAppended(s.cache.log, CategoryFailed(l, LevelsUnresolved(err)));
    case Ok(levels) =>
      LayerWindowFrame(StoreLevels(s, l, levels), vds, ncells, toRemove, l, |levels|);
  }

  /**
   * A layer phase that logged no failure added the layer's enabled names and cleared
   * the layer's update flag; in any case it only adds arrays, and keeps the present
   * ones unless the flag was set.
   */
  lemma LayerPhaseArrays(s: SliceState, vds: Dataset, ncells: nat, toRemove: set<string>, l: Layer)
    requires toRemove <= s.cache.output.cellData.Keys
    ensures var r := LayerPhase(s, vds, ncells, toRemove, l);
      var cells, cells' := s.cache.output.cellData, r.st.cache.output.cellData;
      var e := EnabledNames(LayerVars(s, l), LayerSelection(s, l));
      && cells.Keys <= cells'.Keys && r.toRemove <= toRemove && r.toRemove <= cells'.Keys
      && (forall n :: n in cells && !LayerFlag(s, l) ==> cells'[n] == cells[n])
      && (NoFailureSince(s.cache.log, r.st.cache.log) ==> !LayerFlag(r.st, l) && cells'.Keys == cells.Keys + e && r.toRemove == toRemove - e)
  {
    match Levels(s, vds, l)
    case Err(err) =>
      assert Log(s, CategoryFailed(l, LevelsUnresolved(err))).cache.log[|s.cache.log|].CategoryFailed?;
    case Ok(levels) =>
      LayerWindowArrays(StoreLevels(s, l, levels), vds, ncells, toRemove, l, |levels|);
  }

  /** The same after the levels are resolved: the dimension check, then the window reads. */
  lemma LayerWindowArrays(s: SliceState, vds: Dataset, ncells: nat, toRemove: set<string>, l: Layer, nlevels: nat)
    requires toRemove <= s.cache.output.cellData.Keys
    ensures var r := LayerWindow(s, vds, ncells, toRemove, l, nlevels);
      var cells, cells' := s.cache.output.cellData, r.st.cache.output.cellData;
      var e := EnabledNames(LayerVars(s, l), LayerSelection(s, l));
      && cells.Keys <= cells'.Keys && r.toRemove <= toRemove && r.toRemove <= cells'.Keys
      && (forall n :: n in cells && !LayerFlag(s, l) ==> cells'[n] == cells[n])
      && (NoFailureSince(s.cache.log, r.st.cache.log) ==> !LayerFlag(r.st, l) && cells'.Keys == cells.Keys + e && r.toRemove == toRemove - e)
  {
    var field := LayerField(l);
    match DimensionSize(vds.dimensions, field)
    case None =>
      assert Log(s, CategoryFailed(l, DimensionMissing(field))).cache.log[|s.cache.log|].CategoryFailed?;
    case Some(size) =>
      var k := LayerIndex(s, l);
      if k >= size {
        var s1 := Log(s, LayerOutOfRange(l, k, nlevels));
        LayerFetchFrame(s1, vds, ncells, toRemove, l);
        LayerFetchArrays(s1, vds, ncells, toRemove, l);
        var r := LayerFetch(s1, vds, ncells, toRemove, l);
        if r.st.cache.log != s1.cache.log {
          assert r.st.cache.log[|s1.cache.log|].CategoryFailed?;
        }
      } else {
        LayerFetchFrame(s, vds, ncells, toRemove, l);
        LayerFetchArrays(s, vds, ncells, toRemove, l);
        var r := LayerFetch(s, vds, ncells, toRemove, l);
        if r.st.cache.log != s.cache.log {
          assert r.st.cache.log[|s.cache.log|].CategoryFailed?;
        }
      }
  }

  /** The last phase changes only the cell arrays, and either completes or raises. */
  lemma AreaPhaseFrame(s: SliceState, vds: Dataset, toRemove: set<string>)
    ensures var r := AreaPhase(s, vds, toRemove);
      r.st == WithCells(s, r.st.cache.output.cellData) && (r.status == Done || r.status.Raised?)
  {
  }

  /** The last phase: "area" is added when an area descriptor exists and is never dropped; the rest of `to_remove` is. */
  lemma AreaPhaseArrays(s: SliceState, vds: Dataset, toRemove: set<string>)
    ensures var r := AreaPhase(s, vds, toRemove);
      var cells, cells' := s.cache.output.cellData, r.st.cache.output.cellData;
      r.status == Done ==>
        && cells'.Keys == (cells.Keys + (if s.config.areaVar.Some? then {AREA} else {})) - (toRemove - {AREA})
        && forall n :: n in cells' && n in cells ==> cells'[n] == cells[n]
  {
  }

  /** The cell-array phases leave the settings, the geometry, the time index and `_dirty` alone, and only append to the log. */
  lemma PhasesSettled(s: SliceState, vds: Dataset, ncells: nat)
    ensures var r := Phases(s, vds, ncells);
      && r.st.config == s.config && LogExtends(s.cache.log, r.st.cache.log)
      && r.st.cache.output.mesh == s.cache.output.mesh && r.st.cache.time == s.cache.time && r.st.cache.dirty == s.cache.dirty
  {
    var k := s.cache.output.cellData.Keys;
    SurfacePhaseFrame(s, vds, k);
    var a := SurfacePhase(s, vds, k);
    if a.status == Done {
      LayerPhaseFrame(a.st, vds, ncells, a.toRemove, Middle);
      var b := LayerPhase(a.st, vds, ncells, a.toRemove, Middle);
      LayerPhaseFrame(b.st, vds, ncells, b.toRemove, Interface);
      var c := LayerPhase(b.st, vds, ncells, b.toRemove, Interface);
      AreaPhaseFrame(c.st, vds, c.toRemove);
      assert c.st.cache.log[..|s.cache.log|] == b.st.cache.log[..|s.cache.log|];
    } else {
      assert a.st.cache.log[..|s.cache.log|] == s.cache.log;
    }
  }

  /** The two layer phases in a row: without a failed block they add both layers' enabled names and clear both flags. */
  lemma LayerPhasesArrays(s: SliceState, vds: Dataset, ncells: nat, toRemove: set<string>)
    requires toRemove <= s.cache.output.cellData.Keys
    ensures var b := LayerPhase(s, vds, ncells, toRemove, Middle);
      var c := LayerPhase(b.st, vds, ncells, b.toRemove, Interface);
      var em, ei := EnabledNames(s.config.vars3Dm, s.config.sel3Dm), EnabledNames(s.config.vars3Di, s.config.sel3Di);
      && c.st.config == s.config && c.st.cache.update2D == s.cache.update2D && c.toRemove <= c.st.cache.output.cellData.Keys
      && (NoFailureSince(s.cache.log, c.st.cache.log) ==>
            && c.st.cache.output.cellData.Keys == s.cache.output.cellData.Keys + em + ei
            && c.toRemove == toRemove - em - ei && !c.st.cache.levUpdate && !c.st.cache.ilevUpdate)
  {
    LayerPhaseFrame(s, vds, ncells, toRemove, Middle);
    LayerPhaseArrays(s, vds, ncells, toRemove, Middle);
    var b := LayerPhase(s, vds, ncells, toRemove, Middle);
    LayerPhaseFrame(b.st, vds, ncells, b.toRemove, Interface);
    LayerPhaseArrays(b.st, vds, ncells, b.toRemove, Interface);
    var c := LayerPhase(b.st, vds, ncells, b.toRemove, Interface);
    if NoFailureSince(s.cache.log, c.st.cache.log) {
      NoFailureSplit(s.cache.log, b.st.cache.log, c.st.cache.log);
    }
  }

  /**
   * Phases that complete without a failed layer block leave exactly the enabled
   * variables of the three categories as cell arrays, plus "area" when there is an area
   * descriptor or the grid already held "area"; all three update flags are cleared.
   */
  lemma PhasesArrays(s: SliceState, vds: Dataset, ncells: nat)
    requires Phases(s, vds, ncells).status == Done
    requires NoFailureSince(s.cache.log, Phases(s, vds, ncells).st.cache.log)
    ensures var r := Phases(s, vds, ncells);
      && r.st.cache.output.cellData.Keys ==
           AllEnabled(s) + (if s.config.areaVar.Some? || AREA in s.cache.output.cellData then {AREA} else {})
      && !r.st.cache.update2D && !r.st.cache.levUpdate && !r.st.cache.ilevUpdate
  {
    PhasesKeys(s, vds, ncells);
    PhasesFlags(s, vds, ncells);
    var e2, em, ei := EnabledNames(s.config.vars2D, s.config.sel2D), EnabledNames(s.config.vars3Dm, s.config.sel3Dm), EnabledNames(s.config.vars3Di, s.config.sel3Di);
    KeysAfterRemoval(s.cache.output.cellData.Keys, e2 + em + ei, s.config.areaVar.Some?);
  }

  /** The arrays after the phases, as the grid's arrays before, plus what was added, less what was dropped. */
  lemma PhasesKeys(s: SliceState, vds: Dataset, ncells: nat)
    requires Phases(s, vds, ncells).status == Done
    requires NoFailureSince(s.cache.log, Phases(s, vds, ncells).st.cache.log)
    ensures var k := s.cache.output.cellData.Keys;
      var e := EnabledNames(s.config.vars2D, s.config.sel2D) + EnabledNames(s.config.vars3Dm, s.config.sel3Dm) + EnabledNames(s.config.vars3Di, s.config.sel3Di);
      Phases(s, vds, ncells).st.cache.output.cellData.Keys == (k + e + (if s.config.areaVar.Some? then {AREA} else {})) - ((k - e) - {AREA})
  {
    var k := s.cache.output.cellData.Keys;
    var a := SurfacePhase(s, vds, k);
    SurfacePhaseFrame(s, vds, k);
    SurfacePhaseArrays(s, vds, k);
    var b := LayerPhase(a.st, vds, ncells, a.toRemove, Middle);
    var c := LayerPhase(b.st, vds, ncells, b.toRemove, Interface);
    LayerPhasesArrays(a.st, vds, ncells, a.toRemove);
    AreaPhaseFrame(c.st, vds, c.toRemove);
    AreaPhaseArrays(c.st, vds, c.toRemove);
  }

  /** The phases clear all three update flags when no layer block failed. */
  lemma PhasesFlags(s: SliceState, vds: Dataset, ncells: nat)
    requires Phases(s, vds, ncells).status == Done
    requires NoFailureSince(s.cache.log, Phases(s, vds, ncells).st.cache.log)
    ensures var r := Phases(s, vds, ncells);
      !r.st.cache.update2D && !r.st.cache.levUpdate && !r.st.cache.ilevUpdate
  {
    var k := s.cache.output.cellData.Keys;
    var a := SurfacePhase(s, vds, k);
    SurfacePhaseFrame(s, vds, k);
    SurfacePhaseArrays(s, vds, k);
    var b := LayerPhase(a.st, vds, ncells, a.toRemove, Middle);
    var c := LayerPhase(b.st, vds, ncells, b.toRemove, Interface);
    LayerPhasesArrays(a.st, vds, ncells, a.toRemove);
    AreaPhaseFrame(c.st, vds, c.toRemove);
  }

  /** Adding e (and "area"), then dropping every old name outside e except "area", leaves e plus "area" where it was or was added. */
  lemma KeysAfterRemoval(k: set<string>, e: set<string>, hasArea: bool)
    ensures (k + e + (if hasArea then {AREA} else {})) - ((k - e) - {AREA}) == e + (if hasArea || AREA in k then {AREA} else {})
  {
  }

  /** With no update flag raised, every array the grid held and still holds after the phases is the same array. */
  lemma PhasesKeepCached(s: SliceState, vds: Dataset, ncells: nat)
    requires !s.cache.update2D && !s.cache.levUpdate && !s.cache.ilevUpdate
    requires Phases(s, vds, ncells).status == Done
    ensures var cells' := Phases(s, vds, ncells).st.cache.output.cellData;
      forall n :: n in cells' && n in s.cache.output.cellData ==> cells'[n] == s.cache.output.cellData[n]
  {
    var k := s.cache.output.cellData.Keys;
    SurfacePhaseFrame(s, vds, k);
    SurfacePhaseArrays(s, vds, k);
    var a := SurfacePhase(s, vds, k);
    LayerPhaseFrame(a.st, vds, ncells, a.toRemove, Middle);
    LayerPhaseArrays(a.st, vds, ncells, a.toRemove, Middle);
    var b := LayerPhase(a.st, vds, ncells, a.toRemove, Middle);
    LayerPhaseFrame(b.st, vds, ncells, b.toRemove, Interface);
    LayerPhaseArrays(b.st, vds, ncells, b.toRemove, Interface);
    var c := LayerPhase(b.st, vds, ncells, b.toRemove, Interface);
    AreaPhaseFrame(c.st, vds, c.toRemove);
    AreaPhaseArrays(c.st, vds, c.toRemove);
  }

  /** Rebuilding the geometry changes only the grid and `_dirty`. */
  lemma RebuildFrame(s: SliceState, mesh: Dataset, ncells: nat)
    ensures var r := Rebuild(s, mesh, ncells);
      r.st == s.(cache := s.cache.(output := r.st.cache.output, dirty := r.st.cache.dirty)) && (r.status == Done || r.status.Raised?)
  {
  }

  /** Once the files are open the settings stay, the log only grows, and a clean grid keeps its geometry. */
  lemma ExtractSettled(s: SliceState, mesh: Dataset, vds: Dataset)
    ensures var r := Extract(s, mesh, vds);
      && r.st.config == s.config && LogExtends(s.cache.log, r.st.cache.log) && r.st.cache.time == s.cache.time
      && (!s.cache.dirty ==> r.st.cache.output.mesh == s.cache.output.mesh)
  {
    match CellCount(mesh.dimensions)
    case None =>
      assert s.cache.log[..|s.cache.log|] == s.cache.log;
    case Some(ncells) =>
      RebuildFrame(s, mesh, ncells);
      var g := Rebuild(s, mesh, ncells);
      if g.status == Done {
        PhasesSettled(g.st, vds, ncells);
      } else {
        assert s.cache.log[..|s.cache.log|] == s.cache.log;
      }
  }

  /** Outside `RequestData`'s own phases nothing changes: the settings stay, and the log only grows. */
  lemma RequestSettled(s: SliceState, fs: FileSystem, update: Option<real>)
    ensures var r := Request(s, fs, update);
      r.st.config == s.config && LogExtends(s.cache.log, r.st.cache.log)
    ensures FilesProvided(s) ==> Request(s, fs, update).st.cache.time == SliceIndexOf(s.config.timeSteps, update)
    ensures !FilesProvided(s) ==> Request(s, fs, update) == Stage(Log(s, FilesNotProvided), {}, Refused)
    ensures !s.cache.dirty ==> Request(s, fs, update).st.cache.output.mesh == s.cache.output.mesh
  {
    if FilesProvided(s) {
      var s1 := AtTimeIndex(s, SliceIndexOf(s.config.timeSteps, update));
      var conn, data := s.config.connFile.value, s.config.dataFile.value;
      if conn in fs && data in fs {
        ExtractSettled(s1, fs[conn], fs[data]);
      } else {
        assert s.cache.log[..|s.cache.log|] == s.cache.log;
      }
    } else {
      assert Log(s, FilesNotProvided).cache.log[..|s.cache.log|] == s.cache.log;
    }
  }

  /**
   * Once the files are open, a completed extraction without a failed layer block leaves
   * exactly the enabled variables as cell arrays, plus "area" when there is an area
   * descriptor or the kept grid already held "area"; the grid is clean and the flags cleared.
   */
  lemma ExtractKeys(s: SliceState, mesh: Dataset, vds: Dataset)
    requires Extract(s, mesh, vds).status == Done
    requires NoFailureSince(s.cache.log, Extract(s, mesh, vds).st.cache.log)
    ensures var r := Extract(s, mesh, vds);
      && r.st.cache.output.cellData.Keys ==
           AllEnabled(s) + (if s.config.areaVar.Some? || (!s.cache.dirty && AREA in s.cache.output.cellData) then {AREA} else {})
      && !r.st.cache.dirty && !r.st.cache.update2D && !r.st.cache.levUpdate && !r.st.cache.ilevUpdate
  {
    var ncells := CellCount(mesh.dimensions).value;
    RebuildFrame(s, mesh, ncells);
    var g := Rebuild(s, mesh, ncells);
    assert g.st.cache.output.cellData == if s.cache.dirty then map[] else s.cache.output.cellData;
    PhasesSettled(g.st, vds, ncells);
    PhasesArrays(g.st, vds, ncells);
  }

  /**
   * A request that completes without a failed layer block leaves exactly the enabled
   * variables of the three categories as cell arrays, plus "area" when there is an area
   * descriptor or the kept grid already held "area"; the grid is clean and all three
   * update flags are cleared.
   */
  lemma RequestArrays(s: SliceState, fs: FileSystem, update: Option<real>)
    requires Request(s, fs, update).status == Done
    requires NoFailureSince(s.cache.log, Request(s, fs, update).st.cache.log)
    ensures var r := Request(s, fs, update);
      && r.st.cache.output.cellData.Keys ==
           AllEnabled(s) + (if s.config.areaVar.Some? || (!s.cache.dirty && AREA in s.cache.output.cellData) then {AREA} else {})
      && !r.st.cache.dirty && !r.st.cache.update2D && !r.st.cache.levUpdate && !r.st.cache.ilevUpdate
  {
    var s1 := AtTimeIndex(s, SliceIndexOf(s.config.timeSteps, update));
    ExtractKeys(s1, fs[s.config.connFile.value], fs[s.config.dataFile.value]);
  }

  /**
   * With a clean grid, an unchanged time index and no update flag raised, every array
   * the grid already held and still holds after the request is the same array: nothing
   * is read again.
   */
  lemma RequestKeepsCached(s: SliceState, fs: FileSystem, update: Option<real>)
    requires FilesProvided(s) && SliceIndexOf(s.config.timeSteps, update) == s.cache.time
    requires !s.cache.dirty && !s.cache.update2D && !s.cache.levUpdate && !s.cache.ilevUpdate
    requires Request(s, fs, update).status == Done
    ensures var cells' := Request(s, fs, update).st.cache.output.cellData;
      forall n :: n in cells' && n in s.cache.output.cellData ==> cells'[n] == s.cache.output.cellData[n]
  {
    var mesh, vds := fs[s.config.connFile.value], fs[s.config.dataFile.value];
    PhasesKeepCached(s, vds, CellCount(mesh.dimensions).value);
  }

  /** Cell i of `w` is entry j of `slab` after fill substitution. */
  predicate CellFrom(w: seq<Cell>, i: nat, slab: seq<real>, j: int, fill: Option<real>)
  {
    i < |w| && 0 <= j < |slab| && w[i] == (if fill == Some(slab[j]) then NaN else Value(slab[j]))
  }

  /** Substitution maps entry i of a window of `src` to the substituted value of the slab entry it holds. */
  lemma WindowCell(src: seq<real>, start: nat, len: nat, i: nat, fill: Option<real>, slab: seq<real>, j: nat)
    requires start + len <= |src| && i < len && j < |slab| && src[start + i] == slab[j]
    ensures var w := Substitute(PySlice(src, start, start + len), fill);
      |w| == len && CellFrom(w, i, slab, j, fill)
  {
    var part := PySlice(src, start, start + len);
    assert part[i] == src[start + i];
  }

  /** A window read from a variable the dataset holds: the span of its time-step data, fill-substituted. */
  lemma WindowOf(ds: Dataset, m: VarMeta, v: Variable, t: nat, sp: Span)
    requires FindVariable(ds.variables, m.name) == Some(v)
    requires |v.shape| > 0 && t < v.shape[0] && !(m.transpose && |v.shape| > 3)
    ensures FetchArray(ds, m, t, Some(sp)) == Ok(Cells(v, m, t, Some(sp)))
  {
  }

  /**
   * The window of a rank-3 variable: the span of its slab of shape[1] * shape[2] values,
   * transposed when flagged, fill-substituted.
   */
  lemma Slab3Window(v: Variable, m: VarMeta, t: nat, sp: Span)
    requires |v.shape| == 3 && t < v.shape[0]
    ensures |Slab(v, t)| == v.shape[1] * v.shape[2]
    ensures !m.transpose ==> Cells(v, m, t, Some(sp)) == Substitute(PySlice(Slab(v, t), sp.start, sp.start + sp.count), m.fill)
    ensures m.transpose ==>
      Cells(v, m, t, Some(sp)) == Substitute(PySlice(TransposeFlat(Slab(v, t), v.shape[1], v.shape[2]), sp.start, sp.start + sp.count), m.fill)
  {
    var tail := v.shape[1..];
    assert tail[1..][1..] == [];
    assert Product(tail[1..]) == v.shape[2] * Product(tail[1..][1..]);
  }

  /** The window of a rank-3 variable flagged for transposition: a span of its transposed slab. */
  lemma Slab3Transposed(v: Variable, m: VarMeta, t: nat, sp: Span)
    requires m.transpose && |v.shape| == 3 && t < v.shape[0]
    ensures |Slab(v, t)| == v.shape[1] * v.shape[2]
    ensures Cells(v, m, t, Some(sp)) == Substitute(PySlice(TransposeFlat(Slab(v, t), v.shape[1], v.shape[2]), sp.start, sp.start + sp.count), m.fill)
  {
    Slab3Window(v, m, t, sp);
  }

  /**
   * Layer k of a variable stored (time, lev, ncol): the window holds row k of the
   * per-timestep array, that is cell i of the window is entry (k, i).
   */
  lemma LayerWindowRows(v: Variable, m: VarMeta, t: nat, k: nat, i: nat)
    requires !m.transpose
    requires |v.shape| == 3 && t < v.shape[0] && k < v.shape[1] && i < v.shape[2]
    ensures var w := Cells(v, m, t, Some(LayerSpan(k, v.shape[2])));
      |w| == v.shape[2] && CellFrom(w, i, Slab(v, t), k * v.shape[2] + i, m.fill)
  {
    MulLe(0, k, v.shape[2]);
    Slab3Window(v, m, t, LayerSpan(k, v.shape[2]));
    RowCell(Slab(v, t), v.shape[1], v.shape[2], k, i, m.fill, LayerSpan(k, v.shape[2]));
  }

  /** Window k of a flattened (rows x cols) matrix, `cols` wide and fill-substituted, holds row k. */
  lemma RowCell(slab: seq<real>, rows: nat, cols: nat, k: nat, i: nat, fill: Option<real>, sp: Span)
    requires |slab| == rows * cols && k < rows && i < cols && sp == LayerSpan(k, cols)
    ensures var w := Substitute(PySlice(slab, sp.start, sp.start + sp.count), fill);
      |w| == cols && CellFrom(w, i, slab, k * cols + i, fill)
  {
    var start := sp.start;
    MulLe(k + 1, rows, cols);
    assert start + cols <= |slab| by {
      assert (k + 1) * cols == start + cols;
    }
    WindowCell(slab, start, cols, i, fill, slab, k * cols + i);
  }

  /**
   * Layer k of a variable stored (time, ncol, lev), whose descriptor is flagged for
   * transposition: the window holds column k of the per-timestep array, that is cell i of
   * the window is entry (i, k).
   */
  lemma LayerWindowTransposed(v: Variable, m: VarMeta, t: nat, k: nat, i: nat)
    requires m.transpose
    requires |v.shape| == 3 && t < v.shape[0] && k < v.shape[2] && i < v.shape[1]
    ensures var w := Cells(v, m, t, Some(LayerSpan(k, v.shape[1])));
      |w| == v.shape[1] && CellFrom(w, i, Slab(v, t), i * v.shape[2] + k, m.fill)
  {
    var sp := LayerSpan(k, v.shape[1]);
    MulLe(0, k, v.shape[1]);
    Slab3Transposed(v, m, t, sp);
    TransposedCell(Slab(v, t), v.shape[1], v.shape[2], k, i, m.fill, sp);
  }

  /** Window k of the transposed, flattened (rows x cols) matrix, fill-substituted, holds column k: its i-th cell is entry (i, k). */
  lemma TransposedCell(slab: seq<real>, rows: nat, cols: nat, k: nat, i: nat, fill: Option<real>, sp: Span)
    requires |slab| == rows * cols && k < cols && i < rows && sp == LayerSpan(k, rows)
    ensures var w := Substitute(PySlice(TransposeFlat(slab, rows, cols), sp.start, sp.start + sp.count), fill);
      |w| == rows && CellFrom(w, i, slab, i * cols + k, fill)
  {
    TransposedSource(slab, rows, cols, k, i);
    WindowCell(TransposeFlat(slab, rows, cols), k * rows, rows, i, fill, slab, i * cols + k);
  }

  /** Row k of the transposed matrix lies inside it, and its i-th entry is entry (i, k) of `slab`. */
  lemma TransposedSource(slab: seq<real>, rows: nat, cols: nat, k: nat, i: nat)
    requires |slab| == rows * cols && k < cols && i < rows
    ensures k * rows + rows <= |TransposeFlat(slab, rows, cols)| && i * cols + k < |slab|
    ensures TransposeFlat(slab, rows, cols)[k * rows + i] == slab[i * cols + k]
  {
    TransposeFlatAt(slab, rows, cols, k, i);
    MulLe(k + 1, cols, rows);
    assert (k + 1) * rows == k * rows + rows;
    assert cols * rows == rows * cols;
  }

  /**
   * On a flattened array of n windows of c entries, a negative index counts from the end
   * as Python's slice bounds do: window k - n is window k, for every k below n - 1.
   */
  lemma LayerSpanFromEnd<T>(flat: seq<T>, n: nat, c: nat, k: nat)
    requires |flat| == n * c && k + 1 < n
    ensures var neg, pos := LayerSpan(k - n, c), LayerSpan(k, c);
      PySlice(flat, neg.start, neg.start + neg.count) == PySlice(flat, pos.start, pos.start + pos.count)
  {
    if c > 0 {
      MulLe(k + 2, n, c);
      assert (k + 2) * c == k * c + c + c;
      assert (k - n) * c == k * c - n * c;
      PySliceFromEnd(flat, k * c, k * c + c);
    }
  }

  /** Index -1 reads an empty window: its slice `[-c:0]` ends where it starts or before. */
  lemma LayerSpanMinusOne<T>(flat: seq<T>, c: nat)
    ensures var sp := LayerSpan(-1, c); PySlice(flat, sp.start, sp.start + sp.count) == []
  {
    if c > 0 {
      PySliceToZero(flat, -(c as int));
    }
  }

  /** Two spans that select the same part of the time-step data read the same cells. */
  lemma CellsSameWindow(v: Variable, m: VarMeta, t: nat, sp1: Span, sp2: Span)
    requires |v.shape| > 0 && t < v.shape[0] && !(m.transpose && |v.shape| > 3)
    requires var flat := TimestepData(v, m, t);
      PySlice(flat, sp1.start, sp1.start + sp1.count) == PySlice(flat, sp2.start, sp2.start + sp2.count)
    ensures Cells(v, m, t, Some(sp1)) == Cells(v, m, t, Some(sp2))
  {
    var flat := TimestepData(v, m, t);
    var part := PySlice(flat, sp1.start, sp1.start + sp1.count);
    assert Cells(v, m, t, Some(sp1)) == Substitute(part, m.fill);
    assert Cells(v, m, t, Some(sp2)) == Substitute(part, m.fill);
  }

  /** The time-step data of a rank-3 variable holds shape[1] * shape[2] values, transposed or not. */
  lemma TimestepSize(v: Variable, m: VarMeta, t: nat)
    requires |v.shape| == 3 && t < v.shape[0]
    ensures |TimestepData(v, m, t)| == v.shape[1] * v.shape[2]
  {
    var tail := v.shape[1..];
    assert tail[1..][1..] == [];
    assert Product(tail[1..]) == v.shape[2] * Product(tail[1..][1..]);
  }

  /**
   * Layer k - n of a variable stored (time, lev, ncol) with n levels is layer k: SetMiddleLayer
   * and SetInterfaceLayer accept any integer, and the slice counts a negative one from the end.
   */
  lemma LayerWindowFromEnd(v: Variable, m: VarMeta, t: nat, k: nat)
    requires !m.transpose && |v.shape| == 3 && t < v.shape[0] && k + 1 < v.shape[1]
    ensures Cells(v, m, t, Some(LayerSpan(k - v.shape[1], v.shape[2]))) == Cells(v, m, t, Some(LayerSpan(k, v.shape[2])))
  {
    TimestepSize(v, m, t);
    LayerSpanFromEnd(TimestepData(v, m, t), v.shape[1], v.shape[2], k);
    CellsSameWindow(v, m, t, LayerSpan(k - v.shape[1], v.shape[2]), LayerSpan(k, v.shape[2]));
  }

  /** The same for a variable stored (time, ncol, lev), whose n levels are its last dimension. */
  lemma LayerWindowTransposedFromEnd(v: Variable, m: VarMeta, t: nat, k: nat)
    requires m.transpose && |v.shape| == 3 && t < v.shape[0] && k + 1 < v.shape[2]
    ensures Cells(v, m, t, Some(LayerSpan(k - v.shape[2], v.shape[1]))) == Cells(v, m, t, Some(LayerSpan(k, v.shape[1])))
  {
    TimestepSize(v, m, t);
    assert v.shape[1] * v.shape[2] == v.shape[2] * v.shape[1];
    LayerSpanFromEnd(TimestepData(v, m, t), v.shape[2], v.shape[1], k);
    CellsSameWindow(v, m, t, LayerSpan(k - v.shape[2], v.shape[1]), LayerSpan(k, v.shape[1]));
  }

  /** Layer index -1 reads an empty window from any variable, whatever its cell count. */
  lemma LayerWindowMinusOne(v: Variable, m: VarMeta, t: nat, ncells: nat)
    requires |v.shape| > 0 && t < v.shape[0] && !(m.transpose && |v.shape| > 3)
    ensures Cells(v, m, t, Some(LayerSpan(-1, ncells))) == []
  {
    LayerSpanMinusOne(TimestepData(v, m, t), ncells);
  }
}
