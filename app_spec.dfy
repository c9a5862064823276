/**
 * The application state `EAMApp` keeps for variable selection: for each of the three
 * categories of the reader's variables (2D, 3D at mid levels, 3D at interfaces) the
 * names on display, the check boxes on display, a master mask over all the source's
 * names and, while a search filter is active, the map from displayed row to source
 * position. Also the per-variable view settings `load_variables` rebuilds and the
 * colour-map list.
 */
module AppSpec {
  import opened Basics
  import opened Catalog

  datatype ColorMap = ColorMap(text: string, value: string)

  /** The colour maps for viewers without colour-vision deficiency. */
  const NONCVD: seq<ColorMap> := [
    ColorMap("Rainbow Desat.", "Rainbow Desaturated"),
    ColorMap("Cool to Warm", "Cool to Warm"),
    ColorMap("Jet", "Jet"),
    ColorMap("Yellow-Gray-Blue", "Yellow - Gray - Blue")
  ]

  datatype Kind = Vars2D | Vars3Dm | Vars3Di

  /**
   * One category: `names` is `state.vars2D`, `shown` is `state.vars2Dstate`, `master`
   * is the app's own `vars2Dstate` array and `index` is `ind2d` (and likewise for the
   * two 3D categories).
   */
  datatype Selection = Selection(names: seq<string>, shown: seq<bool>, master: seq<bool>, index: Option<seq<nat>>)

  /** `state.variables` and the view settings kept one entry per selected variable. */
  datatype Tracking = Tracking(variables: seq<string>, varcolor: seq<string>, uselogscale: seq<bool>, invert: seq<bool>, varmin: seq<Cell>, varmax: seq<Cell>)

  const NO_TRACKING: Tracking := Tracking([], [], [], [], [], [])

  /** The keys of a saved state that this model follows (files, clipping and projection are not modelled). */
  datatype SavedConfig = SavedConfig(tstamp: int, vlev: int, vilev: int, variables: seq<string>, varcolor: seq<string>, uselogscale: seq<bool>, varmin: seq<Cell>, varmax: seq<Cell>)

  /** `src*` are the source's variable lists; the rest is UI state. */
  datatype AppState = AppState(
    src2D: seq<string>, src3Dm: seq<string>, src3Di: seq<string>,
    cat2D: Selection, cat3Dm: Selection, cat3Di: Selection,
    vlev: int, vilev: int, tstamp: int,
    tracking: Tracking, colormaps: seq<ColorMap>)

  /** The state after an operation that may raise; what was written before the exception stays. */
  datatype Step = Step(st: AppState, raised: bool)

  function Source(s: AppState, k: Kind): seq<string>
  {
    match k
    case Vars2D => s.src2D
    case Vars3Dm => s.src3Dm
    case Vars3Di => s.src3Di
  }

  function Sel(s: AppState, k: Kind): Selection
  {
    match k
    case Vars2D => s.cat2D
    case Vars3Dm => s.cat3Dm
    case Vars3Di => s.cat3Di
  }

  function WithSel(s: AppState, k: Kind, c: Selection): (r: AppState)
    ensures Sel(r, k) == c
    ensures forall k' :: k' != k ==> Sel(r, k') == Sel(s, k')
  {
    match k
    case Vars2D => s.(cat2D := c)
    case Vars3Dm => s.(cat3Dm := c)
    case Vars3Di => s.(cat3Di := c)
  }

  // ---------------------------------------------------------------------------
  // Search filter
  // ---------------------------------------------------------------------------

  /** `search.lower() in var.lower()`. */
  predicate Matches(name: string, search: string)
  {
    Contains(Lower(name), Lower(search))
  }

  /** The positions the filter comprehension keeps: exactly the matching names, in order. */
  function MatchIndices(vars: seq<string>, search: string): (r: seq<nat>)
    ensures Ascending(r)
    ensures forall j :: 0 <= j < |r| ==> r[j] < |vars| && Matches(vars[r[j]], search)
    ensures forall i :: 0 <= i < |vars| && Matches(vars[i], search) ==> i in r
    decreases |vars|
  {
    if vars == [] then []
    else
      var n := |vars| - 1;
      var init := MatchIndices(vars[..n], search);
      assert forall j :: 0 <= j < |init| ==> vars[..n][init[j]] == vars[init[j]];
      init + (if Matches(vars[n], search) then [n] else [])
  }

  /** numpy's `a[ind]` with every index in range. */
  function Pick<T>(s: seq<T>, ind: seq<nat>): (r: seq<T>)
    requires forall j :: 0 <= j < |ind| ==> ind[j] < |s|
    ensures |r| == |ind| && forall j :: 0 <= j < |ind| ==> r[j] == s[ind[j]]
  {
    seq(|ind|, j requires 0 <= j < |ind| => s[ind[j]])
  }

  /**
   * The display agrees with the master mask: without a filter the display is the
   * source's whole list; with one it shows, in source order, the rows the index map
   * points at, each with the master mask's check box.
   */
  predicate Tracks(c: Selection, src: seq<string>)
  {
    |c.master| == |src| && |c.shown| == |c.names| &&
    match c.index
    case None => c.names == src && c.shown == c.master
    case Some(ind) =>
      |ind| == |c.names| && Ascending(ind) &&
      forall j :: 0 <= j < |ind| ==> ind[j] < |src| && c.names[j] == src[ind[j]] && c.shown[j] == c.master[ind[j]]
  }

  predicate AppTracks(s: AppState)
  {
    Tracks(s.cat2D, s.src2D) && Tracks(s.cat3Dm, s.src3Dm) && Tracks(s.cat3Di, s.src3Di)
  }

  /** The master mask has one entry per source variable in every category. */
  predicate MastersSized(s: AppState)
  {
    |s.cat2D.master| == |s.src2D| && |s.cat3Dm.master| == |s.src3Dm| && |s.cat3Di.master| == |s.src3Di|
  }

  /**
   * `search_2D_variables` and its two siblings, with the guard on the category's own
   * index map: an absent or empty search shows everything again, any other keeps the
   * matching names in source order.
   */
  function Search(c: Selection, src: seq<string>, search: Option<string>): (r: Selection)
    requires |c.master| == |src|
    ensures Tracks(r, src) && r.master == c.master
    ensures r.index.None? <==> search.None? || search.value == ""
    ensures r.index.Some? ==>
              (forall j :: 0 <= j < |r.names| ==> Matches(r.names[j], search.value)) &&
              (forall i :: 0 <= i < |src| && Matches(src[i], search.value) ==> i in r.index.value)
  {
    if search.None? || search.value == "" then c.(names := src, shown := c.master, index := None)
    else
      var ind := MatchIndices(src, search.value);
      c.(names := Pick(src, ind), shown := Pick(c.master, ind), index := Some(ind))
  }

  /**
   * `search_3Di_variables` as written: the last step is guarded by `guard`, which the
   * code reads from the 3D-mid category. None stands for the one outcome a `Selection`
   * cannot hold: with an empty search and the guard set, numpy's `a[None]` nests the
   * whole mask inside a one-element list.
   */
  function SearchAsWritten(c: Selection, src: seq<string>, search: Option<string>, guard: Option<seq<nat>>): (r: Option<Selection>)
    requires |c.master| == |src|
    ensures guard.Some? && search.Some? && search.value != "" ==> r == Some(Search(c, src, search))
    ensures guard.None? && (search.None? || search.value == "") ==> r == Some(Search(c, src, search))
  {
    if search.None? || search.value == "" then
      if guard.Some? then None else Some(c.(names := src, shown := c.master, index := None))
    else
      var ind := MatchIndices(src, search.value);
      if guard.Some? then Some(c.(names := Pick(src, ind), shown := Pick(c.master, ind), index := Some(ind)))
      else Some(c.(index := Some(ind)))
  }

  /** Of ["T", "Q"], only "Q" contains "q" once both are lower-cased. */
  lemma MatchesQ()
    ensures MatchIndices(["T", "Q"], "q") == [1]
  {
    var src := ["T", "Q"];
    assert Lower("q") == "q";
    assert Lower("T") == "t" && Lower("Q") == "q";
    assert !Contains("", "q");
    assert "t"[..1] == "t" && "t"[1..] == "";
    assert !Contains("t", "q");
    assert !Matches("T", "q");
    assert IsPrefix("q", "q");
    assert Matches("Q", "q");
    assert src[..1] == ["T"] && src[..1][..0] == [];
    assert MatchIndices(src[..1][..0], "q") == [];
    assert MatchIndices(src[..1], "q") == [];
  }

  /**
   * With no 3D-mid filter, searching "q" among the 3D-interface names ["T", "Q"] keeps
   * both names on display but maps row 0 to source position 1: ticking "T" then selects "Q".
   */
  lemma SearchAsWrittenStale()
    ensures var c := Selection(["T", "Q"], [false, false], [false, false], None);
      var r := SearchAsWritten(c, ["T", "Q"], Some("q"), None);
      r == Some(c.(index := Some([1]))) && !Tracks(r.value, ["T", "Q"]) &&
      r.value.names[0] == "T" && Select(r.value, 0, true).sel.master == [false, true]
  {
    StaleSearch();
    var d := Selection(["T", "Q"], [false, false], [false, false], Some([1]));
    assert Select(d, 0, true).sel.master == [false, false][1 := true];
  }

  lemma StaleSearch()
    ensures var c := Selection(["T", "Q"], [false, false], [false, false], None);
      SearchAsWritten(c, ["T", "Q"], Some("q"), None) == Some(c.(index := Some([1])))
  {
    MatchesQ();
  }

  // ---------------------------------------------------------------------------
  // Check boxes
  // ---------------------------------------------------------------------------

  /** The result of a check-box event, and whether it raised an `IndexError`. */
  datatype Selected = Selected(sel: Selection, raised: bool)

  /** The master position of displayed row i. */
  function Position(c: Selection, i: nat): nat
    requires c.index.Some? ==> i < |c.index.value|
  {
    if c.index.Some? then c.index.value[i] else i
  }

  /**
   * `update_2D_variable_selection` and its siblings: the displayed box first, then the
   * master entry through the index map when a filter is active.
   */
  function Select(c: Selection, i: nat, event: bool): Selected
  {
    if i >= |c.shown| then Selected(c, true)
    else
      var d := c.(shown := c.shown[i := event]);
      match c.index
      case Some(ind) =>
        if i >= |ind| || ind[i] >= |c.master| then Selected(d, true)
        else Selected(d.(master := c.master[ind[i] := event]), false)
      case None =>
        if i >= |c.master| then Selected(d, true)
        else Selected(d.(master := c.master[i := event]), false)
  }

  /**
   * On an agreeing display, ticking row i never raises, sets that box and the master
   * entry of the very name shown on row i, changes nothing else and keeps agreement.
   */
  lemma SelectTracks(c: Selection, src: seq<string>, i: nat, event: bool)
    requires Tracks(c, src) && i < |c.names|
    ensures var r := Select(c, i, event);
      !r.raised && Tracks(r.sel, src) &&
      r.sel.names == c.names && r.sel.index == c.index && r.sel.shown == c.shown[i := event] &&
      Position(c, i) < |src| && src[Position(c, i)] == c.names[i] &&
      r.sel.master == c.master[Position(c, i) := event]
  {
    var r := Select(c, i, event).sel;
    if c.index.Some? {
      var ind := c.index.value;
      forall j | 0 <= j < |ind|
        ensures r.shown[j] == r.master[ind[j]]
      {
        if j != i {
          assert ind[j] != ind[i] by {
            if j < i { assert ind[j] < ind[i]; } else { assert ind[i] < ind[j]; }
          }
        }
      }
    }
  }

  /** A row past the display raises and changes nothing. */
  lemma SelectOutOfRange(c: Selection, i: nat, event: bool)
    requires i >= |c.shown|
    ensures Select(c, i, event) == Selected(c, true)
  {
  }

  /** `clear_2D_variables` and its siblings: both masks all-False at their lengths. */
  function Clear(c: Selection): Selection
  {
    c.(shown := Repeat(false, |c.shown|), master := Repeat(false, |c.master|))
  }

  /** Clearing keeps the names, the index map and the agreement, and ticks nothing. */
  lemma ClearTracks(c: Selection, src: seq<string>)
    requires Tracks(c, src)
    ensures var r := Clear(c);
      Tracks(r, src) && r.names == c.names && r.index == c.index &&
      |r.shown| == |c.shown| && |r.master| == |c.master| &&
      (forall j :: 0 <= j < |r.shown| ==> !r.shown[j]) && (forall j :: 0 <= j < |r.master| ==> !r.master[j])
  {
  }

  // ---------------------------------------------------------------------------
  // Selected names and saved state
  // ---------------------------------------------------------------------------

  /** The positions whose flag is set, in order. */
  function FlagIndices(mask: seq<bool>): (r: seq<nat>)
    ensures Ascending(r)
    ensures forall j :: 0 <= j < |r| ==> r[j] < |mask| && mask[r[j]]
    ensures forall i :: 0 <= i < |mask| && mask[i] ==> i in r
    decreases |mask|
  {
    if mask == [] then []
    else
      var n := |mask| - 1;
      var init := FlagIndices(mask[..n]);
      assert forall j :: 0 <= j < |init| ==> mask[..n][init[j]] == mask[init[j]];
      init + (if mask[n] then [n] else [])
  }

  /** The names whose flag is set, in order (numpy's boolean indexing). */
  function Chosen(vars: seq<string>, mask: seq<bool>): (r: seq<string>)
    requires |vars| == |mask|
    ensures |r| <= |vars|
    ensures forall x :: x in r <==> exists i :: 0 <= i < |vars| && mask[i] && vars[i] == x
    decreases |vars|
  {
    if vars == [] then []
    else
      var n := |vars| - 1;
      var init := Chosen(vars[..n], mask[..n]);
      assert forall i :: 0 <= i < n ==> vars[..n][i] == vars[i] && mask[..n][i] == mask[i];
      init + (if mask[n] then [vars[n]] else [])
  }

  /** `v2d[f2d]` keeps the source order: the chosen names are the flagged positions, in order, each once. */
  lemma {:induction false} ChosenInOrder(vars: seq<string>, mask: seq<bool>)
    requires |vars| == |mask|
    ensures Chosen(vars, mask) == Pick(vars, FlagIndices(mask))
    decreases |vars|
  {
    if vars != [] {
      var n := |vars| - 1;
      var ind := FlagIndices(mask[..n]);
      var t: seq<nat> := if mask[n] then [n] else [];
      var tail := if mask[n] then [vars[n]] else [];
      assert Chosen(vars, mask) == Chosen(vars[..n], mask[..n]) + tail;
      assert FlagIndices(mask) == ind + t;
      ChosenInOrder(vars[..n], mask[..n]);
      PickAppend(vars, ind, t);
      assert Pick(vars[..n], ind) == Pick(vars, ind);
      assert Pick(vars, t) == tail;
    }
  }

  /** Picking the positions of `a + b` is picking those of `a`, then those of `b`. */
  lemma PickAppend<T>(s: seq<T>, a: seq<nat>, b: seq<nat>)
    requires forall j :: 0 <= j < |a| ==> a[j] < |s|
    requires forall j :: 0 <= j < |b| ==> b[j] < |s|
    ensures forall j :: 0 <= j < |a + b| ==> (a + b)[j] < |s|
    ensures Pick(s, a + b) == Pick(s, a) + Pick(s, b)
  {
    assert forall j :: 0 <= j < |a + b| ==> (a + b)[j] == if j < |a| then a[j] else b[j - |a|];
  }

  /** One category's part of `load_variables`: None where numpy's boolean index raises. */
  function LoadNames(names: seq<string>, mask: seq<bool>): (r: Option<seq<string>>)
    ensures r.None? <==> |names| > 0 && |mask| != |names|
  {
    if |names| == 0 then Some([])
    else if |mask| != |names| then None
    else Some(Chosen(names, mask))
  }

  /**
   * `load_variables`: the chosen names of the three categories, in that order, each with
   * the first colour map, no log scale, no inversion and an unset range. It raises
   * before writing anything when a mask does not fit its names; with no colour map it
   * raises after `state.variables` has been written, leaving the other tracking lists.
   */
  function LoadVariables(s: AppState): (r: Step)
    ensures r.st == s.(tracking := r.st.tracking)
    ensures !r.raised <==> LoadNames(s.cat2D.names, s.cat2D.shown).Some? && LoadNames(s.cat3Dm.names, s.cat3Dm.shown).Some? &&
                           LoadNames(s.cat3Di.names, s.cat3Di.shown).Some? && |s.colormaps| > 0
    ensures (LoadNames(s.cat2D.names, s.cat2D.shown).None? || LoadNames(s.cat3Dm.names, s.cat3Dm.shown).None? ||
             LoadNames(s.cat3Di.names, s.cat3Di.shown).None?) ==> r.st == s
    ensures LoadNames(s.cat2D.names, s.cat2D.shown).Some? && LoadNames(s.cat3Dm.names, s.cat3Dm.shown).Some? &&
            LoadNames(s.cat3Di.names, s.cat3Di.shown).Some? ==>
      r.st.tracking.variables == LoadNames(s.cat2D.names, s.cat2D.shown).value + LoadNames(s.cat3Dm.names, s.cat3Dm.shown).value + LoadNames(s.cat3Di.names, s.cat3Di.shown).value
    ensures r.raised && |s.colormaps| == 0 ==> r.st.tracking == s.tracking.(variables := r.st.tracking.variables)
    ensures !r.raised ==> var t := r.st.tracking; var n := |t.variables|;
      |t.varcolor| == n && |t.uselogscale| == n && |t.invert| == n && |t.varmin| == n && |t.varmax| == n &&
      forall i :: 0 <= i < n ==> t.varcolor[i] == s.colormaps[0].value && !t.uselogscale[i] && !t.invert[i] && t.varmin[i] == NaN && t.varmax[i] == NaN
  {
    var a := LoadNames(s.cat2D.names, s.cat2D.shown);
    var b := LoadNames(s.cat3Dm.names, s.cat3Dm.shown);
    var c := LoadNames(s.cat3Di.names, s.cat3Di.shown);
    if a.None? || b.None? || c.None? then Step(s, true)
    else
      var vars := a.value + b.value + c.value;
      var n := |vars|;
      if |s.colormaps| == 0 then Step(s.(tracking := s.tracking.(variables := vars)), true)
      else Step(s.(tracking := Tracking(vars, Repeat(s.colormaps[0].value, n), Repeat(false, n), Repeat(false, n), Repeat(NaN, n), Repeat(NaN, n))), false)
  }

  /** `np.isin(vars, selection)`. */
  function MaskOf(vars: seq<string>, selection: seq<string>): (r: seq<bool>)
    ensures |r| == |vars| && forall i :: 0 <= i < |vars| ==> r[i] == (vars[i] in selection)
  {
    seq(|vars|, i requires 0 <= i < |vars| => vars[i] in selection)
  }

  /**
   * Rebuilding a mask from the chosen names gives the mask back, when the names are
   * distinct and whatever else the selection holds is not one of them.
   */
  lemma MaskOfChosen(vars: seq<string>, mask: seq<bool>, before: seq<string>, after: seq<string>)
    requires |vars| == |mask| && NoDuplicates(vars)
    requires forall x :: x in before ==> x !in vars
    requires forall x :: x in after ==> x !in vars
    ensures MaskOf(vars, before + Chosen(vars, mask) + after) == mask
  {
    var chosen := Chosen(vars, mask);
    var sel := before + chosen + after;
    forall i | 0 <= i < |vars|
      ensures (vars[i] in sel) == mask[i]
    {
      if mask[i] {
        assert vars[i] in chosen;
      } else {
        assert vars[i] in vars;
      }
    }
  }

  /** `generate_state`, restricted to the modelled keys. */
  function Save(s: AppState): SavedConfig
  {
    SavedConfig(s.tstamp, s.vlev, s.vilev, s.tracking.variables, s.tracking.varcolor, s.tracking.uselogscale, s.tracking.varmin, s.tracking.varmax)
  }

  /** Both masks of one category from a saved selection; the index map is left as it was. */
  function Restored(c: Selection, src: seq<string>, selection: seq<string>): Selection
  {
    c.(names := src, shown := MaskOf(src, selection), master := MaskOf(src, selection))
  }

  /**
   * `update_state_from_config`: the source's lists on display, the saved keys copied
   * into the state, every box ticked exactly when its name was saved as selected, and
   * then `load_variables`.
   */
  function FromConfig(s: AppState, saved: SavedConfig): (r: Step)
    ensures MastersSized(r.st)
    ensures forall k :: Sel(r.st, k).master == MaskOf(Source(s, k), saved.variables) && Sel(r.st, k).shown == Sel(r.st, k).master
    ensures (s.cat2D.index.None? && s.cat3Dm.index.None? && s.cat3Di.index.None?) ==> AppTracks(r.st)
  {
    LoadVariables(Configured(s, saved))
  }

  /** `update_state_from_config` up to the call of `load_variables`. */
  function Configured(s: AppState, saved: SavedConfig): AppState
  {
    s.(cat2D := Restored(s.cat2D, s.src2D, saved.variables),
       cat3Dm := Restored(s.cat3Dm, s.src3Dm, saved.variables),
       cat3Di := Restored(s.cat3Di, s.src3Di, saved.variables),
       tstamp := saved.tstamp, vlev := saved.vlev, vilev := saved.vilev,
       tracking := s.tracking.(variables := saved.variables, varcolor := saved.varcolor, uselogscale := saved.uselogscale,
                               varmin := saved.varmin, varmax := saved.varmax))
  }

  /**
   * A state whose view settings come from its own masks, with no filter active and no
   * name in two categories: the state saving and restoring leave alone.
   */
  predicate Settled(s: AppState)
  {
    AppTracks(s) && s.cat2D.index.None? && s.cat3Dm.index.None? && s.cat3Di.index.None? &&
    NoDuplicates(s.src2D + s.src3Dm + s.src3Di) &&
    !LoadVariables(s).raised && LoadVariables(s).st == s
  }

  /** The names of a concatenation are distinct only when each part's are and no name is in two parts. */
  lemma DistinctParts(a: seq<string>, b: seq<string>, c: seq<string>)
    requires NoDuplicates(a + b + c)
    ensures NoDuplicates(a) && NoDuplicates(b) && NoDuplicates(c)
    ensures forall x :: x in a ==> x !in b && x !in c
    ensures forall x :: x in b ==> x !in c
  {
    var abc := a + b + c;
    forall i, j | 0 <= i < j < |b| ensures b[i] != b[j] {
      assert b[i] == abc[|a| + i] && b[j] == abc[|a| + j];
    }
    forall i, j | 0 <= i < j < |c| ensures c[i] != c[j] {
      assert c[i] == abc[|a| + |b| + i] && c[j] == abc[|a| + |b| + j];
    }
    forall i, j | 0 <= i < j < |a| ensures a[i] != a[j] {
      assert a[i] == abc[i] && a[j] == abc[j];
    }
    forall i, j | 0 <= i < |a| && 0 <= j < |b| ensures a[i] != b[j] {
      assert a[i] == abc[i] && b[j] == abc[|a| + j];
    }
    forall i, j | 0 <= i < |a| && 0 <= j < |c| ensures a[i] != c[j] {
      assert a[i] == abc[i] && c[j] == abc[|a| + |b| + j];
    }
    forall i, j | 0 <= i < |b| && 0 <= j < |c| ensures b[i] != c[j] {
      assert b[i] == abc[|a| + i] && c[j] == abc[|a| + |b| + j];
    }
  }

  /** Every chosen name is one of the names it was chosen from. */
  lemma ChosenFrom(vars: seq<string>, mask: seq<bool>)
    requires |vars| == |mask|
    ensures forall x :: x in Chosen(vars, mask) ==> x in vars
  {
  }

  /** Without a filter, restoring one category from its own chosen names gives the category back. */
  lemma RestoredCategory(c: Selection, src: seq<string>, before: seq<string>, after: seq<string>)
    requires Tracks(c, src) && c.index.None? && NoDuplicates(src)
    requires forall x :: x in before ==> x !in src
    requires forall x :: x in after ==> x !in src
    ensures LoadNames(c.names, c.shown) == Some(Chosen(src, c.master))
    ensures Restored(c, src, before + Chosen(src, c.master) + after) == c
  {
    MaskOfChosen(src, c.master, before, after);
  }

  /** Restoring what was saved gives back the state that was saved. */
  lemma SaveRestore(s: AppState)
    requires Settled(s)
    ensures FromConfig(s, Save(s)) == Step(s, false)
  {
    ConfiguredSelf(s);
  }

  /** A settled state's selection is the chosen names of its three categories, in order. */
  lemma SettledSelection(s: AppState)
    requires Settled(s)
    ensures s.tracking.variables == Chosen(s.src2D, s.cat2D.master) + Chosen(s.src3Dm, s.cat3Dm.master) + Chosen(s.src3Di, s.cat3Di.master)
  {
    assert LoadNames(s.cat2D.names, s.cat2D.shown) == Some(Chosen(s.src2D, s.cat2D.master));
    assert LoadNames(s.cat3Dm.names, s.cat3Dm.shown) == Some(Chosen(s.src3Dm, s.cat3Dm.master));
    assert LoadNames(s.cat3Di.names, s.cat3Di.shown) == Some(Chosen(s.src3Di, s.cat3Di.master));
  }

  /** The masks rebuilt from a settled state's own selection are its masks. */
  lemma ConfiguredSelf(s: AppState)
    requires Settled(s)
    ensures Configured(s, Save(s)) == s
  {
    var a, b, c := s.cat2D, s.cat3Dm, s.cat3Di;
    SettledSelection(s);
    DistinctParts(s.src2D, s.src3Dm, s.src3Di);
    ChosenFrom(s.src2D, a.master);
    ChosenFrom(s.src3Dm, b.master);
    ChosenFrom(s.src3Di, c.master);
    var ca, cb, cc := Chosen(s.src2D, a.master), Chosen(s.src3Dm, b.master), Chosen(s.src3Di, c.master);
    var sel := s.tracking.variables;
    assert [] + ca + (cb + cc) == sel;
    assert (ca + cb) + cc + [] == sel;
    RestoredCategory(a, s.src2D, [], cb + cc);
    RestoredCategory(b, s.src3Dm, ca, cc);
    RestoredCategory(c, s.src3Di, ca + cb, []);
  }

  // ---------------------------------------------------------------------------
  // Configuration and colour maps
  // ---------------------------------------------------------------------------

  /** Both masks hold n entries, none ticked. */
  predicate Unticked(c: Selection, n: nat)
  {
    |c.shown| == n && |c.master| == n && (forall i :: 0 <= i < n ==> !c.shown[i]) && (forall i :: 0 <= i < n ==> !c.master[i])
  }

  /** One category of `init_app_configuration`: n unticked boxes in both masks. */
  function Reset(c: Selection, n: nat): Selection
  {
    c.(shown := Repeat(false, n), master := Repeat(false, n))
  }

  /** `init_app_configuration`: the sliders at 0 and nothing ticked; names and index maps are left as they are. */
  function InitConfig(s: AppState): (r: AppState)
    ensures MastersSized(r)
    ensures r.vlev == 0 && r.vilev == 0 && r.tstamp == 0
    ensures forall k :: Unticked(Sel(r, k), |Source(s, k)|)
    ensures forall k :: Sel(r, k).names == Sel(s, k).names && Sel(r, k).index == Sel(s, k).index
  {
    s.(vlev := 0, vilev := 0, tstamp := 0,
       cat2D := Reset(s.cat2D, |s.src2D|), cat3Dm := Reset(s.cat3Dm, |s.src3Dm|), cat3Di := Reset(s.cat3Di, |s.src3Di|))
  }

  /** `update_state_from_source`, for the variable lists. */
  function ShowSources(s: AppState): AppState
  {
    s.(cat2D := s.cat2D.(names := s.src2D), cat3Dm := s.cat3Dm.(names := s.src3Dm), cat3Di := s.cat3Di.(names := s.src3Di))
  }

  /** `load_data`: the source reloaded with new lists, then `init_app_configuration` and `update_state_from_source`. */
  function LoadData(s: AppState, src2D: seq<string>, src3Dm: seq<string>, src3Di: seq<string>): AppState
  {
    ShowSources(InitConfig(s.(src2D := src2D, src3Dm := src3Dm, src3Di := src3Di)))
  }

  /** With no filter active, reloading leaves every category agreeing with its new source list, nothing ticked. */
  lemma LoadDataTracks(s: AppState, src2D: seq<string>, src3Dm: seq<string>, src3Di: seq<string>)
    requires s.cat2D.index.None? && s.cat3Dm.index.None? && s.cat3Di.index.None?
    ensures var r := LoadData(s, src2D, src3Dm, src3Di);
      AppTracks(r) && r.src2D == src2D && r.src3Dm == src3Dm && r.src3Di == src3Di &&
      forall k :: Unticked(Sel(r, k), |Source(r, k)|)
  {
    var r := LoadData(s, src2D, src3Dm, src3Di);
    assert forall k :: Sel(r, k).names == Source(r, k);
  }

  /** `update_available_color_maps`; an event naming neither list leaves the maps as they were. */
  function ColorMaps(current: seq<ColorMap>, cvd: seq<ColorMap>, event: seq<string>): (r: seq<ColorMap>)
    ensures |event| == 0 ==> r == NONCVD
    ensures |event| == 2 ==> r == cvd + NONCVD
    ensures |event| != 0 && |event| != 2 ==>
              r == (if "0" in event then cvd else if "1" in event then NONCVD else current)
  {
    if |event| == 0 then NONCVD
    else if |event| == 2 then cvd + NONCVD
    else if "0" in event then cvd
    else if "1" in event then NONCVD
    else current
  }

  /** The state `EAMApp.__init__` leaves for the source's lists, the presets found and an optional saved state. */
  function Launch(src2D: seq<string>, src3Dm: seq<string>, src3Di: seq<string>, saved: Option<SavedConfig>): (r: Step)
  {
    var s := AppState(src2D, src3Dm, src3Di,
                      Selection(src2D, [], [], None), Selection(src3Dm, [], [], None), Selection(src3Di, [], [], None),
                      0, 0, 0, NO_TRACKING, NONCVD);
    if saved.None? then Step(InitConfig(s), false) else FromConfig(s, saved.value)
  }

  /** Starting the app leaves every category agreeing with its source list, and a fresh start ticks nothing and does not raise. */
  lemma LaunchTracks(src2D: seq<string>, src3Dm: seq<string>, src3Di: seq<string>, saved: Option<SavedConfig>)
    ensures AppTracks(Launch(src2D, src3Dm, src3Di, saved).st)
    ensures !Launch(src2D, src3Dm, src3Di, saved).raised
    ensures saved.None? ==> forall k :: Unticked(Sel(Launch(src2D, src3Dm, src3Di, saved).st, k), |Source(Launch(src2D, src3Dm, src3Di, saved).st, k)|)
  {
    if saved.Some? {
      var s := AppState(src2D, src3Dm, src3Di,
                        Selection(src2D, [], [], None), Selection(src3Dm, [], [], None), Selection(src3Di, [], [], None),
                        0, 0, 0, NO_TRACKING, NONCVD);
      var t := FromConfig(s, saved.value);
      assert t.st.cat2D.names == src2D && t.st.cat2D.shown == MaskOf(src2D, saved.value.variables);
    }
  }
}
