/**
 * The hybrid-coordinate resolver (`FindSpecialVariable` and `compare`): the level
 * values of a vertical dimension, either read from a coordinate variable of that name
 * or combined from the hybrid A and B coefficient variables as (A * P0 + B * PS0) / 100.
 */
module Hybrid {
  import opened Basics
  import opened NetCDF

  const HYAM := "hyam"
  const HYBM := "hybm"
  const HYAI := "hyai"
  const HYBI := "hybi"
  const P0: real := 100000.0
  const PS0: real := 100000.0

  /** The exceptions the resolver raises. */
  datatype LevelError =
    | DimensionNotFound(name: string)       // the level dimension is not declared
    | UnmatchedPair(nA: nat, nB: nat)      // different numbers of A and B candidates
    | SecondCandidateMissing               // one candidate, as written: the code reads the second A name
    | PairLengthsDiffer                    // one candidate pair whose lengths are not the dimension size
    | NoCandidates                         // no candidate at all: `arrays[0]` fails
    | LengthMismatch(found: nat, expected: nat) // first candidate's length is not the dimension size
    | ValuesDiffer                         // candidates with different values

  /** The positions `find(var, pattern) != -1` selects: exactly the matching names, in file order. */
  function MatchPositions(vars: seq<Variable>, pattern: string): (r: seq<nat>)
    ensures Ascending(r)
    ensures forall j :: 0 <= j < |r| ==> r[j] < |vars| && Contains(vars[r[j]].name, pattern)
    ensures forall i :: 0 <= i < |vars| && Contains(vars[i].name, pattern) ==> i in r
    decreases |vars|
  {
    if vars == [] then []
    else
      var n := |vars| - 1;
      var init := MatchPositions(vars[..n], pattern);
      assert forall j :: 0 <= j < |init| ==> vars[..n][init[j]] == vars[init[j]];
      init + (if Contains(vars[n].name, pattern) then [n] else [])
  }

  /** `var[find(var, pattern) != -1]`: the variables whose name contains `pattern`, in file order. */
  function Matching(vars: seq<Variable>, pattern: string): (r: seq<Variable>)
    ensures forall v :: v in r <==> v in vars && Contains(v.name, pattern)
    ensures |r| <= |vars|
    decreases |vars|
  {
    if vars == [] then []
    else
      var n := |vars| - 1;
      var init := Matching(vars[..n], pattern);
      assert forall i :: 0 <= i < n ==> vars[..n][i] == vars[i];
      init + (if Contains(vars[n].name, pattern) then [vars[n]] else [])
  }

  /**
   * The candidates are the matching variables in file order, each once: their count,
   * which picks the resolver's branch, is the number of matching names, and entry 0, the
   * reference `compare` checks the others against, is the first match in the file.
   */
  lemma {:induction false} MatchingInOrder(vars: seq<Variable>, pattern: string)
    ensures var ind, r := MatchPositions(vars, pattern), Matching(vars, pattern);
      |r| == |ind| && forall j :: 0 <= j < |ind| ==> r[j] == vars[ind[j]]
    decreases |vars|
  {
    if vars != [] {
      var n := |vars| - 1;
      MatchingInOrder(vars[..n], pattern);
      var ind, r := MatchPositions(vars[..n], pattern), Matching(vars[..n], pattern);
      var hit := Contains(vars[n].name, pattern);
      var fullInd, full := MatchPositions(vars, pattern), Matching(vars, pattern);
      assert fullInd == ind + (if hit then [n] else []);
      assert full == r + (if hit then [vars[n]] else []);
      forall j | 0 <= j < |fullInd| ensures full[j] == vars[fullInd[j]] {
        if j < |ind| {
          assert full[j] == r[j] && fullInd[j] == ind[j];
          assert r[j] == vars[..n][ind[j]];
        }
      }
    }
  }

  /** Every candidate holds the same values as the first (`np.array_equal`). */
  predicate AllSame(arrays: seq<Variable>)
    requires arrays != []
  {
    forall k :: 0 <= k < |arrays| ==> arrays[k].values == arrays[0].values
  }

  /** Whether every array of `rest` equals `ref`; the loop of `compare` stops at the first that does not. */
  predicate SameAsRef(rest: seq<Variable>, ref: seq<real>)
  {
    rest == [] || (rest[0].values == ref && SameAsRef(rest[1..], ref))
  }

  lemma {:induction false} SameAsRefAll(rest: seq<Variable>, ref: seq<real>)
    ensures SameAsRef(rest, ref) <==> forall k :: 0 <= k < |rest| ==> rest[k].values == ref
  {
    if rest != [] {
      SameAsRefAll(rest[1..], ref);
      if forall k :: 0 <= k < |rest| ==> rest[k].values == ref {
        assert forall k :: 0 <= k < |rest[1..]| ==> rest[1..][k].values == ref by {
          forall k | 0 <= k < |rest[1..]| ensures rest[1..][k].values == ref {
            assert rest[1..][k] == rest[k + 1];
          }
        }
      }
      if SameAsRef(rest, ref) {
        forall k | 0 <= k < |rest| ensures rest[k].values == ref {
          if k > 0 { assert rest[k] == rest[1..][k - 1]; }
        }
      }
    }
  }

  /**
   * `compare(data, arrays, dim)`: raises when there is no candidate or the first one's
   * length is not `dim`, returns None when a later candidate differs, otherwise the first.
   */
  function Compare(arrays: seq<Variable>, dim: nat): (r: Result<Option<seq<real>>, LevelError>)
    ensures r == Err(NoCandidates) <==> arrays == []
    ensures r.Ok? <==> arrays != [] && |arrays[0].values| == dim
    ensures r.Ok? ==> (r.value.Some? <==> AllSame(arrays))
    ensures r.Ok? && r.value.Some? ==> r.value.value == arrays[0].values && |r.value.value| == dim
  {
    if arrays == [] then Err(NoCandidates)
    else
      var ref := arrays[0].values;
      if |ref| != dim then Err(LengthMismatch(|ref|, dim))
      else
        SameAsRefAll(arrays[1..], ref);
        assert AllSame(arrays) <==> forall k :: 0 <= k < |arrays[1..]| ==> arrays[1..][k].values == ref by {
          forall k | 0 <= k < |arrays[1..]| ensures arrays[1..][k] == arrays[k + 1] { }
        }
        if SameAsRef(arrays[1..], ref) then Ok(Some(ref)) else Ok(None)
  }

  /** ((A * P0) + (B * PS0)) / 100.0, elementwise. */
  function Combine(a: seq<real>, b: seq<real>): (r: seq<real>)
    requires |a| == |b|
    ensures |r| == |a|
    ensures forall i :: 0 <= i < |a| ==> r[i] == (a[i] * P0 + b[i] * PS0) / 100.0
  {
    seq(|a|, i requires 0 <= i < |a| => (a[i] * P0 + b[i] * PS0) / 100.0)
  }

  /**
   * `FindSpecialVariable(data, lev, hya, hyb)` with the single-candidate branch reading
   * the B candidate it was evidently meant to read (`_hybi[0]`).
   */
  function FindSpecialVariable(ds: Dataset, lev: string, hya: string, hyb: string): (r: Result<seq<real>, LevelError>)
    ensures DimensionSize(ds.dimensions, lev).None? ==> r == Err(DimensionNotFound(lev))
    ensures r.Ok? && FindVariable(ds.variables, lev).None? ==> |r.value| == DimensionSize(ds.dimensions, lev).value
  {
    match DimensionSize(ds.dimensions, lev)
    case None => Err(DimensionNotFound(lev))
    case Some(dim) =>
      match FindVariable(ds.variables, lev)
      case Some(v) => Ok(v.values)
      case None =>
        var aVars, bVars := Matching(ds.variables, hya), Matching(ds.variables, hyb);
        if |aVars| != |bVars| then Err(UnmatchedPair(|aVars|, |bVars|))
        else if |aVars| == 1 then
          if |aVars[0].values| == dim && |bVars[0].values| == dim then Ok(Combine(aVars[0].values, bVars[0].values))
          else Err(PairLengthsDiffer)
        else
          match Compare(aVars, dim)
          case Err(e) => Err(e)
          case Ok(ca) =>
            match Compare(bVars, dim)
            case Err(e) => Err(e)
            case Ok(cb) =>
              if ca.None? || cb.None? then Err(ValuesDiffer) else Ok(Combine(ca.value, cb.value))
  }

  /** Whether the resolver reaches its single-candidate branch. */
  predicate SinglePair(ds: Dataset, lev: string, hya: string, hyb: string)
  {
    DimensionSize(ds.dimensions, lev).Some? && FindVariable(ds.variables, lev).None?
    && |Matching(ds.variables, hya)| == 1 && |Matching(ds.variables, hyb)| == 1
  }

  /**
   * `FindSpecialVariable` as written: the single-candidate branch reads `_hyai[1]`,
   * an index past the end of a one-element array, and so always raises; every other
   * branch is the resolver's.
   */
  function FindSpecialVariableAsWritten(ds: Dataset, lev: string, hya: string, hyb: string): (r: Result<seq<real>, LevelError>)
    ensures SinglePair(ds, lev, hya, hyb) ==> r.Err?
    ensures !SinglePair(ds, lev, hya, hyb) ==> r == FindSpecialVariable(ds, lev, hya, hyb)
  {
    if SinglePair(ds, lev, hya, hyb) then Err(SecondCandidateMissing) else FindSpecialVariable(ds, lev, hya, hyb)
  }

  /** A coordinate variable named after the dimension is returned unchanged. */
  lemma ResolvesToCoordinate(ds: Dataset, lev: string, hya: string, hyb: string)
    requires DimensionSize(ds.dimensions, lev).Some?
    requires FindVariable(ds.variables, lev).Some?
    ensures FindSpecialVariable(ds, lev, hya, hyb) == Ok(FindVariable(ds.variables, lev).value.values)
  {
  }

  /** Without a coordinate variable, different numbers of A and B candidates raise. */
  lemma CandidateCountErrors(ds: Dataset, lev: string, hya: string, hyb: string)
    requires DimensionSize(ds.dimensions, lev).Some? && FindVariable(ds.variables, lev).None?
    ensures |Matching(ds.variables, hya)| != |Matching(ds.variables, hyb)| ==>
              FindSpecialVariable(ds, lev, hya, hyb) == Err(UnmatchedPair(|Matching(ds.variables, hya)|, |Matching(ds.variables, hyb)|))
  {
  }

  /**
   * One candidate pair: the levels are derived exactly when both candidates have the
   * dimension's size, and are then (A * P0 + B * PS0) / 100 per level.
   */
  lemma SinglePairLevels(ds: Dataset, lev: string, hya: string, hyb: string)
    requires SinglePair(ds, lev, hya, hyb)
    ensures
      var a, b, dim := Matching(ds.variables, hya)[0], Matching(ds.variables, hyb)[0], DimensionSize(ds.dimensions, lev).value;
      var r := FindSpecialVariable(ds, lev, hya, hyb);
      (r.Ok? <==> |a.values| == dim && |b.values| == dim)
      && (r.Ok? ==> forall i :: 0 <= i < dim ==> r.value[i] == (a.values[i] * P0 + b.values[i] * PS0) / 100.0)
  {
  }

  /** A file with one interface level and the coefficient variables `hyai` = [1] and `hybi` = [2]. */
  const ONE_PAIR := Dataset([Dimension("ilev", 1)],
                            [RawVariable("hyai", ["ilev"], [1], [1.0], map[]), RawVariable("hybi", ["ilev"], [1], [2.0], map[])])

  /** On that file the code as written raises, while the intended branch gives the level 3000. */
  lemma SinglePairAsWritten()
    ensures FindSpecialVariableAsWritten(ONE_PAIR, "ilev", HYAI, HYBI).Err?
    ensures FindSpecialVariable(ONE_PAIR, "ilev", HYAI, HYBI) == Ok([3000.0])
  {
    var vs := ONE_PAIR.variables;
    assert "hyai"[..4] == "hyai" && "hyai"[1..] == "yai";
    assert "hybi"[..4] == "hybi" && "hybi"[1..] == "ybi";
    if Contains("ybi", "hyai") { ContainsShorter("ybi", "hyai"); }
    if Contains("yai", "hybi") { ContainsShorter("yai", "hybi"); }
    assert !Contains("hybi", "hyai");
    assert !Contains("hyai", "hybi");
    assert Contains("hyai", "hyai") && Contains("hybi", "hybi");
    assert Matching(vs, HYAI) == [vs[0]];
    assert Matching(vs, HYBI) == [vs[1]];
    assert FindVariable(vs, "ilev").None?;
    assert SinglePair(ONE_PAIR, "ilev", HYAI, HYBI);
    var c := Combine([1.0], [2.0]);
    assert c[0] == 3000.0;
    assert c == [3000.0];
  }

  /**
   * With two or more candidate pairs the levels are derived exactly when every A
   * candidate equals the first, every B candidate equals the first, and both firsts
   * have the dimension's size; the result is then (A * P0 + B * PS0) / 100 per level.
   */
  lemma CombinedLevels(ds: Dataset, lev: string, hya: string, hyb: string)
    requires DimensionSize(ds.dimensions, lev).Some? && FindVariable(ds.variables, lev).None?
    requires |Matching(ds.variables, hya)| == |Matching(ds.variables, hyb)| >= 2
    ensures
      var aVars, bVars, dim := Matching(ds.variables, hya), Matching(ds.variables, hyb), DimensionSize(ds.dimensions, lev).value;
      var r := FindSpecialVariable(ds, lev, hya, hyb);
      (r.Ok? <==> |aVars[0].values| == dim && |bVars[0].values| == dim && AllSame(aVars) && AllSame(bVars))
      && (r.Ok? ==>
            |r.value| == dim &&
            forall i :: 0 <= i < dim ==> r.value[i] == (aVars[0].values[i] * P0 + bVars[0].values[i] * PS0) / 100.0)
  {
  }

  /** A = [1, 2, 3], B = [4, 5, 6] give levels [5000, 7000, 9000]. */
  lemma CombineExample()
    ensures Combine([1.0, 2.0, 3.0], [4.0, 5.0, 6.0]) == [5000.0, 7000.0, 9000.0]
  {
    var r := Combine([1.0, 2.0, 3.0], [4.0, 5.0, 6.0]);
    assert r[0] == 5000.0 && r[1] == 7000.0 && r[2] == 9000.0;
  }
}
