/**
 * The variable catalog of the EAM slice reader: `VarMeta` classifies a variable by
 * its declared dimensions, and `_populate_variable_metadata` keeps only variables with
 * one of four dimension signatures, in file order, split by type.
 */
module Catalog {
  import opened Basics
  import opened NetCDF

  const NCOL := "ncol"
  const TIME := "time"
  const LEV := "lev"
  const ILEV := "ilev"
  const FILL_VALUE := "_FillValue"
  const AREA := "area"

  datatype VarType = OneD | TwoD | ThreeDMid | ThreeDInterface

  /**
   * `VarMeta`. A `fill` of None stands for the NaN default: no element ever equals
   * NaN, so a variable without a `_FillValue` attribute has nothing substituted.
   */
  datatype VarMeta = VarMeta(name: string, vtype: Option<VarType>, transpose: bool, fill: Option<real>)

  /** The type `VarMeta.__init__` assigns: by dimension count, "lev" checked before "ilev". */
  function TypeOf(dims: seq<string>): Option<VarType>
  {
    if |dims| == 1 then Some(OneD)
    else if |dims| == 2 then Some(TwoD)
    else if |dims| == 3 then
      (if LEV in dims then Some(ThreeDMid) else if ILEV in dims then Some(ThreeDInterface) else None)
    else None
  }

  /** `VarMeta(name, info)` before the fill value is read. */
  function NewVarMeta(name: string, dims: seq<string>): (m: VarMeta)
    ensures m.name == name && m.fill == None
    ensures m.transpose ==> |dims| == 3
  {
    VarMeta(name, TypeOf(dims), |dims| == 3 && Contains(dims[1], NCOL), None)
  }

  /** The `_FillValue` attribute overwrites the NaN default only when the variable has one. */
  function WithFill(m: VarMeta, v: Variable): (r: VarMeta)
    ensures r.name == m.name && r.vtype == m.vtype && r.transpose == m.transpose
    ensures r.fill == (if FILL_VALUE in v.attributes then Some(v.attributes[FILL_VALUE]) else m.fill)
  {
    if FILL_VALUE in v.attributes then m.(fill := Some(v.attributes[FILL_VALUE])) else m
  }

  /** The descriptor the reader keeps for variable `v`. */
  function MetaOf(v: Variable): VarMeta
  {
    WithFill(NewVarMeta(v.name, v.dims), v)
  }

  function DimSet(dims: seq<string>): set<string>
  {
    set d | d in dims
  }

  /** The dimension set is one of {ncol}, {time, ncol}, {time, lev, ncol}, {time, ilev, ncol}. */
  predicate IsSliceSignature(dims: seq<string>)
  {
    var d := DimSet(dims);
    d == {NCOL} || d == {TIME, NCOL} || d == {TIME, LEV, NCOL} || d == {TIME, ILEV, NCOL}
  }

  predicate NoDuplicates(dims: seq<string>)
  {
    forall i, j :: 0 <= i < j < |dims| ==> dims[i] != dims[j]
  }

  /** Two strings of equal length contain one another only when they are equal. */
  lemma ContainsSameLength(s: string, sub: string)
    requires |s| == |sub|
    ensures Contains(s, sub) <==> s == sub
  {
    if Contains(s, sub) && !IsPrefix(sub, s) {
      ContainsShorter(s[1..], sub);
    }
    if s == sub {
      assert s[..|sub|] == s;
    }
  }

  /** An ordered list without repeats has as many elements as its set. */
  lemma {:induction false} DistinctCard(dims: seq<string>)
    requires NoDuplicates(dims)
    ensures |DimSet(dims)| == |dims|
  {
    if dims != [] {
      var rest := dims[1..];
      assert NoDuplicates(rest) by {
        forall i, j | 0 <= i < j < |rest| ensures rest[i] != rest[j] {
          assert rest[i] == dims[i + 1] && rest[j] == dims[j + 1];
        }
      }
      DistinctCard(rest);
      assert DimSet(dims) == {dims[0]} + DimSet(rest);
      assert dims[0] !in DimSet(rest) by {
        forall j | 0 <= j < |rest| ensures rest[j] != dims[0] {
          assert rest[j] == dims[j + 1];
        }
      }
    }
  }

  /**
   * For a variable with an accepted signature and no repeated dimension, the type
   * is the one its signature names, and transpose holds exactly when the second
   * declared dimension is "ncol" (the cell axis comes before the layer axis).
   */
  lemma SignatureType(dims: seq<string>)
    requires IsSliceSignature(dims) && NoDuplicates(dims)
    ensures TypeOf(dims) == Some(OneD) <==> DimSet(dims) == {NCOL}
    ensures TypeOf(dims) == Some(TwoD) <==> DimSet(dims) == {TIME, NCOL}
    ensures TypeOf(dims) == Some(ThreeDMid) <==> DimSet(dims) == {TIME, LEV, NCOL}
    ensures TypeOf(dims) == Some(ThreeDInterface) <==> DimSet(dims) == {TIME, ILEV, NCOL}
    ensures NewVarMeta("", dims).transpose <==> |dims| == 3 && dims[1] == NCOL
  {
    DistinctCard(dims);
    var d := DimSet(dims);
    assert |{NCOL}| == 1;
    assert |{TIME, NCOL}| == 2;
    assert |{TIME, LEV, NCOL}| == 3;
    assert |{TIME, ILEV, NCOL}| == 3;
    assert LEV in dims <==> LEV in d;
    assert ILEV in dims <==> ILEV in d;
    if |dims| == 3 {
      assert dims[1] in d;
      if |dims[1]| == |NCOL| {
        ContainsSameLength(dims[1], NCOL);
      } else if Contains(dims[1], NCOL) {
        ContainsShorter(dims[1], NCOL);
      }
    }
  }

  /** What the reader keeps from one file, split by type, plus the last area-like 1D variable. */
  datatype Listing = Listing(
    vars1D: seq<VarMeta>,
    vars2D: seq<VarMeta>,
    vars3Dm: seq<VarMeta>,
    vars3Di: seq<VarMeta>,
    area: Option<VarMeta>)

  /** The list of a listing that holds type `t`. */
  function ListOf(l: Listing, t: VarType): seq<VarMeta>
  {
    match t
    case OneD => l.vars1D
    case TwoD => l.vars2D
    case ThreeDMid => l.vars3Dm
    case ThreeDInterface => l.vars3Di
  }

  const EMPTY_LISTING := Listing([], [], [], [], None)

  /** One iteration of the loop in `EAMSliceSource._populate_variable_metadata`. */
  function AddVariable(l: Listing, v: Variable): Listing
  {
    if !IsSliceSignature(v.dims) then l
    else
      var m := MetaOf(v);
      match m.vtype
      case Some(OneD) => l.(vars1D := l.vars1D + [m], area := if Contains(v.name, AREA) then Some(m) else l.area)
      case Some(TwoD) => l.(vars2D := l.vars2D + [m])
      case Some(ThreeDMid) => l.(vars3Dm := l.vars3Dm + [m])
      case Some(ThreeDInterface) => l.(vars3Di := l.vars3Di + [m])
      case None => l
  }

  /** The listing after the loop has visited `vars` in order. */
  function SliceListing(vars: seq<Variable>): Listing
  {
    if vars == [] then EMPTY_LISTING
    else AddVariable(SliceListing(vars[..|vars| - 1]), vars[|vars| - 1])
  }

  /** The classification loop of `EAMSliceSource._populate_variable_metadata`. */
  method ClassifySliceVariables(vars: seq<Variable>) returns (l: Listing)
    ensures l == SliceListing(vars)
  {
    l := EMPTY_LISTING;
    var i := 0;
    while i < |vars|
      invariant 0 <= i <= |vars|
      invariant l == SliceListing(vars[..i])
    {
      var v := vars[i];
      assert vars[..i + 1][..i] == vars[..i];
      if IsSliceSignature(v.dims) {
        var m := MetaOf(v);
        match m.vtype {
          case Some(OneD) =>
            l := l.(vars1D := l.vars1D + [m]);
            if Contains(v.name, AREA) {
              l := l.(area := Some(m));
            }
          case Some(TwoD) => l := l.(vars2D := l.vars2D + [m]);
          case Some(ThreeDMid) => l := l.(vars3Dm := l.vars3Dm + [m]);
          case Some(ThreeDInterface) => l := l.(vars3Di := l.vars3Di + [m]);
          case None =>
        }
      }
      i := i + 1;
    }
    assert vars[..|vars|] == vars;
  }

  /** Reference definition: the descriptors of the accepted variables of type `t`, in file order. */
  function Kept(vars: seq<Variable>, t: VarType): seq<VarMeta>
  {
    if vars == [] then []
    else (if IsSliceSignature(vars[0].dims) && TypeOf(vars[0].dims) == Some(t) then [MetaOf(vars[0])] else [])
         + Kept(vars[1..], t)
  }

  lemma {:induction false} KeptAppend(vars: seq<Variable>, v: Variable, t: VarType)
    ensures Kept(vars + [v], t) == Kept(vars, t) + Kept([v], t)
  {
    if vars != [] {
      assert (vars + [v])[1..] == vars[1..] + [v];
      KeptAppend(vars[1..], v, t);
    } else {
      assert [] + [v] == [v];
    }
  }

  /** One visit appends the variable to the list of its type, if it is accepted at all. */
  lemma AddVariableList(l: Listing, v: Variable, t: VarType)
    ensures ListOf(AddVariable(l, v), t) == ListOf(l, t) + Kept([v], t)
  {
    assert [v][1..] == [];
  }

  /**
   * Each per-type list of the slice reader is exactly the accepted variables of that
   * type, in file order; every other variable is dropped.
   */
  lemma {:induction false} SliceListingKeeps(vars: seq<Variable>)
    ensures SliceListing(vars).vars1D == Kept(vars, OneD)
    ensures SliceListing(vars).vars2D == Kept(vars, TwoD)
    ensures SliceListing(vars).vars3Dm == Kept(vars, ThreeDMid)
    ensures SliceListing(vars).vars3Di == Kept(vars, ThreeDInterface)
  {
    if vars != [] {
      var init, v := vars[..|vars| - 1], vars[|vars| - 1];
      assert vars == init + [v];
      SliceListingKeeps(init);
      KeptAppend(init, v, OneD);
      KeptAppend(init, v, TwoD);
      KeptAppend(init, v, ThreeDMid);
      KeptAppend(init, v, ThreeDInterface);
      AddVariableList(SliceListing(init), v, OneD);
      AddVariableList(SliceListing(init), v, TwoD);
      AddVariableList(SliceListing(init), v, ThreeDMid);
      AddVariableList(SliceListing(init), v, ThreeDInterface);
    }
  }

  /** An accepted one-dimensional variable whose name contains "area". */
  predicate AreaCandidate(v: Variable)
  {
    IsSliceSignature(v.dims) && |v.dims| == 1 && Contains(v.name, AREA)
  }

  /** One visit makes the variable the area variable exactly when it is a candidate. */
  lemma AddVariableArea(l: Listing, v: Variable)
    ensures AddVariable(l, v).area == if AreaCandidate(v) then Some(MetaOf(v)) else l.area
  {
  }

  /**
   * `a` is what the loop leaves as the area descriptor after visiting `vars`: present
   * exactly when some variable is a candidate, and then the last candidate's descriptor.
   */
  predicate LastArea(vars: seq<Variable>, a: Option<VarMeta>)
  {
    (a.Some? <==> exists i :: 0 <= i < |vars| && AreaCandidate(vars[i])) &&
    (a.Some? ==> exists i :: 0 <= i < |vars| && AreaCandidate(vars[i]) && a.value == MetaOf(vars[i]) &&
                             forall j :: i < j < |vars| ==> !AreaCandidate(vars[j]))
  }

  /** One more visit keeps `LastArea`: a candidate becomes the descriptor, any other variable leaves it. */
  lemma LastAreaStep(init: seq<Variable>, v: Variable, a: Option<VarMeta>)
    requires LastArea(init, a)
    ensures LastArea(init + [v], if AreaCandidate(v) then Some(MetaOf(v)) else a)
  {
    var vars := init + [v];
    assert forall j :: 0 <= j < |init| ==> vars[j] == init[j];
    assert vars[|init|] == v;
    if !AreaCandidate(v) {
      if exists i :: 0 <= i < |vars| && AreaCandidate(vars[i]) {
        var i :| 0 <= i < |vars| && AreaCandidate(vars[i]);
        assert i < |init| && AreaCandidate(init[i]);
      }
      if a.Some? {
        var i :| 0 <= i < |init| && AreaCandidate(init[i]) && a.value == MetaOf(init[i]) &&
                 forall j :: i < j < |init| ==> !AreaCandidate(init[j]);
        assert AreaCandidate(vars[i]) && a.value == MetaOf(vars[i]);
      }
    }
  }

  /** The area variable is the last accepted one-dimensional variable whose name contains "area". */
  lemma {:induction false} SliceListingArea(vars: seq<Variable>)
    ensures SliceListing(vars).area.Some? <==> exists i :: 0 <= i < |vars| && AreaCandidate(vars[i])
    ensures SliceListing(vars).area.Some? ==>
      exists i :: 0 <= i < |vars| && AreaCandidate(vars[i]) && SliceListing(vars).area.value == MetaOf(vars[i]) &&
                  forall j :: i < j < |vars| ==> !AreaCandidate(vars[j])
  {
    if vars != [] {
      var init, v := vars[..|vars| - 1], vars[|vars| - 1];
      assert vars == init + [v];
      SliceListingArea(init);
      AddVariableArea(SliceListing(init), v);
      LastAreaStep(init, v, SliceListing(init).area);
    }
    assert LastArea(vars, SliceListing(vars).area);
  }

  /** A per-cell value after fill substitution. */
  datatype Cell = Value(x: real) | NaN

  /** `np.where(data == fillval, np.nan, data)`. */
  function Substitute(values: seq<real>, fill: Option<real>): (r: seq<Cell>)
    ensures |r| == |values|
    ensures forall i :: 0 <= i < |values| ==>
              (r[i] == NaN <==> fill == Some(values[i])) && (r[i] != NaN ==> r[i] == Value(values[i]))
  {
    seq(|values|, i requires 0 <= i < |values| => if fill == Some(values[i]) then NaN else Value(values[i]))
  }

  /** The data as cells with nothing substituted. */
  function Plain(values: seq<real>): (r: seq<Cell>)
    ensures |r| == |values| && forall i :: 0 <= i < |values| ==> r[i] == Value(values[i])
  {
    seq(|values|, i requires 0 <= i < |values| => Value(values[i]))
  }

  /** Without a `_FillValue` (the NaN default) substitution changes nothing. */
  lemma SubstituteNoFill(values: seq<real>)
    ensures Substitute(values, None) == Plain(values)
  {
  }

  /** Putting the fill value back where NaN was substituted recovers the data. */
  function Restore(cells: seq<Cell>, fill: real): (r: seq<real>)
    ensures |r| == |cells|
  {
    seq(|cells|, i requires 0 <= i < |cells| => if cells[i].NaN? then fill else cells[i].x)
  }

  lemma SubstituteRestore(values: seq<real>, fill: real)
    ensures Restore(Substitute(values, Some(fill)), fill) == values
  {
  }
}
