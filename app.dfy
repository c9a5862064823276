/**
 * `EAMApp`, the application object of the user interface, as far as it keeps the
 * variable selection: every method is proved to leave exactly the state the functions
 * of `AppSpec` describe. The three `*_2D_*`, `*_3Dm_*` and `*_3Di_*` variants of the
 * selection, search and clear handlers are one method each, over a `Kind`.
 */
module App {
  import opened Basics
  import opened Catalog
  import opened AppSpec

  class EAMApp {
    /** The colour maps for colour-vision deficiency, found once among the presets. */
    const cvd: seq<ColorMap>

    var src2D: seq<string>
    var src3Dm: seq<string>
    var src3Di: seq<string>
    var cat2D: Selection
    var cat3Dm: Selection
    var cat3Di: Selection
    var vlev: int
    var vilev: int
    var tstamp: int
    var tracking: Tracking
    var colormaps: seq<ColorMap>

    function State(): AppState
      reads this
    {
      AppState(src2D, src3Dm, src3Di, cat2D, cat3Dm, cat3Di, vlev, vilev, tstamp, tracking, colormaps)
    }

    /** One master-mask entry per source variable, in every category. */
    predicate Valid()
      reads this
    {
      MastersSized(State())
    }

    /** `EAMApp.__init__`, for the source's variable lists, the presets found and an optional saved state. */
    constructor (src2D: seq<string>, src3Dm: seq<string>, src3Di: seq<string>, cvd: seq<ColorMap>, saved: Option<SavedConfig>)
      ensures this.cvd == cvd && Valid()
      ensures State() == Launch(src2D, src3Dm, src3Di, saved).st
    {
      this.cvd := cvd;
      this.src2D, this.src3Dm, this.src3Di := src2D, src3Dm, src3Di;
      cat2D, cat3Dm, cat3Di := Selection(src2D, [], [], None), Selection(src3Dm, [], [], None), Selection(src3Di, [], [], None);
      vlev, vilev, tstamp := 0, 0, 0;
      tracking := NO_TRACKING;
      colormaps := NONCVD;
      new;
      LaunchTracks(src2D, src3Dm, src3Di, saved);
      if saved.None? {
        InitAppConfiguration();
      } else {
        var _ := UpdateStateFromConfig(saved.value);
      }
    }

    /** The slider positions of `init_app_configuration`. */
    method ResetSliders()
      modifies this
      ensures State() == old(State()).(vlev := 0, vilev := 0, tstamp := 0)
    {
      vlev, vilev, tstamp := 0, 0, 0;
    }

    /** The masks of `init_app_configuration`. */
    method ResetMasks()
      modifies this
      ensures State() == old(State()).(cat2D := Reset(old(cat2D), |src2D|), cat3Dm := Reset(old(cat3Dm), |src3Dm|), cat3Di := Reset(old(cat3Di), |src3Di|))
    {
      cat2D := Reset(cat2D, |src2D|);
      cat3Dm := Reset(cat3Dm, |src3Dm|);
      cat3Di := Reset(cat3Di, |src3Di|);
    }

    /** `init_app_configuration`. */
    method InitAppConfiguration()
      modifies this
      ensures State() == InitConfig(old(State())) && Valid()
    {
      ResetSliders();
      ResetMasks();
    }

    /** The masks of `update_state_from_config`. */
    method RestoreMasks(selection: seq<string>)
      modifies this
      ensures State() == old(State()).(cat2D := Restored(old(cat2D), src2D, selection), cat3Dm := Restored(old(cat3Dm), src3Dm, selection),
                                       cat3Di := Restored(old(cat3Di), src3Di, selection))
    {
      cat2D := Restored(cat2D, src2D, selection);
      cat3Dm := Restored(cat3Dm, src3Dm, selection);
      cat3Di := Restored(cat3Di, src3Di, selection);
    }

    /** `state.update(initstate)` for the modelled keys. */
    method CopySaved(saved: SavedConfig)
      modifies this
      ensures State() == old(State()).(tstamp := saved.tstamp, vlev := saved.vlev, vilev := saved.vilev,
                                       tracking := old(tracking).(variables := saved.variables, varcolor := saved.varcolor,
                                                                  uselogscale := saved.uselogscale, varmin := saved.varmin, varmax := saved.varmax))
    {
      tstamp, vlev, vilev := saved.tstamp, saved.vlev, saved.vilev;
      tracking := tracking.(variables := saved.variables, varcolor := saved.varcolor, uselogscale := saved.uselogscale,
                            varmin := saved.varmin, varmax := saved.varmax);
    }

    /** `update_state_from_config`; `raised` tells whether `load_variables` raised. */
    method UpdateStateFromConfig(saved: SavedConfig) returns (raised: bool)
      modifies this
      ensures Step(State(), raised) == FromConfig(old(State()), saved) && Valid()
    {
      CopySaved(saved);
      RestoreMasks(saved.variables);
      raised := LoadVariables();
    }

    /** `load_variables`; `raised` tells whether numpy or the colour-map lookup raised. */
    method LoadVariables() returns (raised: bool)
      modifies this
      ensures Step(State(), raised) == AppSpec.LoadVariables(old(State()))
    {
      var a := LoadNames(cat2D.names, cat2D.shown);
      var b := LoadNames(cat3Dm.names, cat3Dm.shown);
      var c := LoadNames(cat3Di.names, cat3Di.shown);
      if a.None? || b.None? || c.None? {
        return true;
      }
      var vars := a.value + b.value + c.value;
      if |colormaps| == 0 {
        tracking := tracking.(variables := vars);
        return true;
      }
      var n := |vars|;
      tracking := Tracking(vars, Repeat(colormaps[0].value, n), Repeat(false, n), Repeat(false, n), Repeat(NaN, n), Repeat(NaN, n));
      raised := false;
    }

    /** `update_available_color_maps`. */
    method UpdateAvailableColorMaps(event: seq<string>)
      modifies this
      ensures State() == old(State()).(colormaps := ColorMaps(old(colormaps), cvd, event))
    {
      colormaps := ColorMaps(colormaps, cvd, event);
    }

    /** Replaces one category's selection. */
    method Put(k: Kind, c: Selection)
      modifies this
      ensures State() == WithSel(old(State()), k, c)
    {
      match k {
        case Vars2D => cat2D := c;
        case Vars3Dm => cat3Dm := c;
        case Vars3Di => cat3Di := c;
      }
    }

    /** `update_2D_variable_selection` and its siblings; `raised` tells whether an index was out of range. */
    method UpdateVariableSelection(k: Kind, index: nat, event: bool) returns (raised: bool)
      modifies this
      ensures var r := Select(Sel(old(State()), k), index, event);
        State() == WithSel(old(State()), k, r.sel) && raised == r.raised
    {
      var r := Select(Sel(State(), k), index, event);
      Put(k, r.sel);
      raised := r.raised;
    }

    /** `search_2D_variables` and its siblings, each guarded by its own index map. */
    method SearchVariables(k: Kind, search: Option<string>)
      requires Valid()
      modifies this
      ensures State() == WithSel(old(State()), k, Search(Sel(old(State()), k), Source(old(State()), k), search))
      ensures Valid()
    {
      Put(k, Search(Sel(State(), k), Source(State(), k), search));
    }

    /** `clear_2D_variables` and its siblings. */
    method ClearVariables(k: Kind)
      modifies this
      ensures State() == WithSel(old(State()), k, Clear(Sel(old(State()), k)))
    {
      Put(k, Clear(Sel(State(), k)));
    }

    /** The source's new lists after `source.Update`. */
    method SetSources(a: seq<string>, b: seq<string>, c: seq<string>)
      modifies this
      ensures State() == old(State()).(src2D := a, src3Dm := b, src3Di := c)
    {
      src2D, src3Dm, src3Di := a, b, c;
    }

    /** `update_state_from_source`, for the variable lists. */
    method UpdateStateFromSource()
      modifies this
      ensures State() == ShowSources(old(State()))
    {
      cat2D := cat2D.(names := src2D);
      cat3Dm := cat3Dm.(names := src3Dm);
      cat3Di := cat3Di.(names := src3Di);
    }

    /** `load_data`, given the lists the reloaded source reports. */
    method LoadData(a: seq<string>, b: seq<string>, c: seq<string>)
      modifies this
      ensures State() == AppSpec.LoadData(old(State()), a, b, c) && Valid()
    {
      SetSources(a, b, c);
      InitAppConfiguration();
      UpdateStateFromSource();
    }
  }
}
