/**
 * The netCDF files the reader opens, abstracted as in-memory values: a file is an
 * ordered list of dimensions and an ordered list of variables; a variable has declared
 * dimension names, a shape and its values stored row-major (`var[:].data.flatten()`).
 * The numpy operations the reader applies to a variable (`.data[t]`, `.transpose()`,
 * `.flatten()`, slicing) are index arithmetic over that flat sequence.
 */
module NetCDF {
  import opened Basics

  /** Number of elements of an array of the given shape. */
  function Product(shape: seq<nat>): nat
  {
    if shape == [] then 1 else shape[0] * Product(shape[1..])
  }

  datatype RawVariable = RawVariable(
    name: string,
    dims: seq<string>,
    shape: seq<nat>,
    values: seq<real>,
    attributes: map<string, real>)

  /** A netCDF variable: one size per declared dimension and exactly as many values as the shape holds. */
  type Variable = v: RawVariable | |v.shape| == |v.dims| && |v.values| == Product(v.shape)
    witness RawVariable("", [], [], [0.0], map[])

  datatype Dimension = Dimension(name: string, size: nat)

  datatype Dataset = Dataset(dimensions: seq<Dimension>, variables: seq<Variable>)

  /** What `netCDF4.Dataset(name, "r")` can open: file name to contents. */
  type FileSystem = map<string, Dataset>

  /** `data[name]`: the first variable of that name, if any. */
  function FindVariable(vars: seq<Variable>, name: string): (r: Option<Variable>)
    ensures r.Some? <==> exists i :: 0 <= i < |vars| && vars[i].name == name
    ensures r.Some? ==> r.value in vars && r.value.name == name
  {
    if vars == [] then None
    else if vars[0].name == name then Some(vars[0])
    else FindVariable(vars[1..], name)
  }

  /** `data.dimensions[name].size`, or None when the dimension is not declared. */
  function DimensionSize(dims: seq<Dimension>, name: string): (r: Option<nat>)
    ensures r.Some? <==> exists i :: 0 <= i < |dims| && dims[i].name == name
    ensures r.Some? ==> exists i :: 0 <= i < |dims| && dims[i].name == name && r.value == dims[i].size &&
                                    forall j :: 0 <= j < i ==> dims[j].name != name
  {
    if dims == [] then None
    else if dims[0].name == name then Some(dims[0].size)
    else
      var r := DimensionSize(dims[1..], name);
      assert r.Some? ==> exists i :: 1 <= i < |dims| && dims[i].name == name && r.value == dims[i].size &&
                                     forall j :: 0 <= j < i ==> dims[j].name != name by {
        if r.Some? {
          var i :| 0 <= i < |dims[1..]| && dims[1..][i].name == name && r.value == dims[1..][i].size &&
                   forall j :: 0 <= j < i ==> dims[1..][j].name != name;
          assert dims[i + 1] == dims[1..][i];
          forall j | 0 <= j < i + 1 ensures dims[j].name != name {
            if j > 0 { assert dims[j] == dims[1..][j - 1]; }
          }
        }
      }
      r
  }

  /** Multiplication by a natural number is monotone. */
  lemma MulLe(a: nat, b: nat, c: nat)
    requires a <= b
    ensures a * c <= b * c
  {
    var d: nat := b - a;
    assert b * c == a * c + d * c;
  }

  /** Euclidean division of a natural number by a positive one. */
  lemma DivMod(j: int, rows: int)
    requires rows > 0 && j >= 0
    ensures j == (j / rows) * rows + j % rows && 0 <= j % rows < rows
  {
  }

  /** The t-th of n0 consecutive blocks of length s. */
  function Block(values: seq<real>, n0: nat, s: nat, t: nat): (r: seq<real>)
    requires |values| == n0 * s && t < n0
    ensures |r| == s && t * s + s <= |values|
    ensures forall j :: 0 <= j < s ==> r[j] == values[t * s + j]
  {
    MulLe(t + 1, n0, s);
    assert (t + 1) * s == t * s + s;
    values[t * s .. t * s + s]
  }

  /** `var[:].data[t].flatten()`: the t-th block along the first axis. */
  function Slab(v: Variable, t: nat): (r: seq<real>)
    requires |v.shape| > 0 && t < v.shape[0]
    ensures |r| == Product(v.shape[1..])
    ensures t * |r| + |r| <= |v.values| && forall j :: 0 <= j < |r| ==> r[j] == v.values[t * |r| + j]
  {
    assert Product(v.shape) == v.shape[0] * Product(v.shape[1..]);
    Block(v.values, v.shape[0], Product(v.shape[1..]), t)
  }

  /** The index that `m.transpose().flatten()` reads for output position j lies inside `m`. */
  lemma TransposeIndex(j: int, rows: nat, cols: nat)
    requires 0 <= j < rows * cols
    ensures rows > 0 && 0 <= (j % rows) * cols + j / rows < rows * cols
  {
    assert rows > 0;
    var q, r := j / rows, j % rows;
    DivMod(j, rows);
    assert q < cols by {
      if q >= cols {
        MulLe(cols, q, rows);
      }
    }
    var below: nat := rows - 1;
    MulLe(0, r, cols);
    MulLe(r, below, cols);
    assert (below + 1) * cols == below * cols + cols;
    assert r * cols + q < rows * cols;
  }

  /** Division and remainder of k * rows + i recover k and i. */
  lemma DivModOf(k: int, i: int, rows: nat)
    requires 0 <= k && 0 <= i < rows
    ensures (k * rows + i) / rows == k && (k * rows + i) % rows == i
  {
    var j := k * rows + i;
    DivMod(j, rows);
    var q, r := j / rows, j % rows;
    assert (q - k) * rows == i - r;
    if q > k {
      MulLe(1, q - k, rows);
    } else if q < k {
      MulLe(1, k - q, rows);
    }
  }

  /** Output position k * rows + i of the transposed matrix reads input position i * cols + k. */
  lemma TransposeAt(k: nat, i: nat, rows: nat, cols: nat)
    requires k < cols && i < rows
    ensures k * rows + i < rows * cols && i * cols + k < rows * cols
    ensures ((k * rows + i) % rows) * cols + (k * rows + i) / rows == i * cols + k
  {
    DivModOf(k, i, rows);
    MulLe(k + 1, cols, rows);
    assert (k + 1) * rows == k * rows + rows;
    MulLe(i + 1, rows, cols);
    assert (i + 1) * cols == i * cols + cols;
  }

  /** Element j of `m.transpose().flatten()`. */
  function TransposedElement(m: seq<real>, rows: nat, cols: nat, j: nat): real
    requires |m| == rows * cols && j < rows * cols
  {
    TransposeIndex(j, rows, cols);
    m[(j % rows) * cols + j / rows]
  }

  /** `m.transpose().flatten()` for a rows x cols matrix `m` stored row-major. */
  function TransposeFlat(m: seq<real>, rows: nat, cols: nat): (r: seq<real>)
    requires |m| == rows * cols
    ensures |r| == rows * cols
  {
    seq(rows * cols, j requires 0 <= j < rows * cols => TransposedElement(m, rows, cols, j))
  }

  /** Row k of the transposed, flattened matrix is column k of `m`. */
  lemma TransposeFlatAt(m: seq<real>, rows: nat, cols: nat, k: nat, i: nat)
    requires |m| == rows * cols && k < cols && i < rows
    ensures k * rows + i < rows * cols && i * cols + k < rows * cols
    ensures TransposeFlat(m, rows, cols)[k * rows + i] == m[i * cols + k]
  {
    TransposeAt(k, i, rows, cols);
    var j := k * rows + i;
    assert TransposeFlat(m, rows, cols)[j] == TransposedElement(m, rows, cols, j);
  }

  /** Where a Python slice bound lands in a sequence of length n: a negative bound counts from the end, then it is clamped to [0, n]. */
  function SliceBound(x: int, n: nat): (r: nat)
    ensures r <= n
    ensures 0 <= x ==> r == if x <= n then x else n
    ensures x < 0 ==> r == if -x <= n then n + x else 0
  {
    if x < 0 then (if -x <= n then n + x else 0) else if x <= n then x else n
  }

  /** Python slicing `s[a:b]`: both bounds are normalised, and a window whose end lies before its start is empty. */
  function PySlice<T>(s: seq<T>, a: int, b: int): (r: seq<T>)
    ensures 0 <= a <= b <= |s| ==> r == s[a..b]
    ensures 0 <= a <= b ==> |r| == (if b <= |s| then b - a else if a <= |s| then |s| - a else 0)
    ensures |r| <= |s|
  {
    var lo, hi := SliceBound(a, |s|), SliceBound(b, |s|);
    if lo <= hi then s[lo..hi] else []
  }

  /** Bounds counted from the end: `s[a - n:b - n]` is `s[a:b]` as long as b stays below the length n. */
  lemma PySliceFromEnd<T>(s: seq<T>, a: int, b: int)
    requires 0 <= a <= b < |s|
    ensures PySlice(s, a - |s|, b - |s|) == s[a..b]
  {
  }

  /** A window with a negative start that ends at 0 is empty. */
  lemma PySliceToZero<T>(s: seq<T>, a: int)
    requires a < 0
    ensures PySlice(s, a, 0) == []
  {
  }

  /** A window whose end lies at or before minus the length is empty. */
  lemma PySliceBeforeStart<T>(s: seq<T>, a: int, b: int)
    requires a <= b <= -|s|
    ensures PySlice(s, a, b) == []
  {
  }
}
