/**
 * The unstructured quad mesh both readers build: one point per flattened cell corner
 * (longitude, latitude, height), every cell a VTK_QUAD, offsets 0, 4, ..., 4N and
 * connectivity 0 .. 4N - 1, so cell c is made of corners 4c .. 4c + 3. The full
 * reader also stacks one copy of the corner points per vertical level.
 */
module Topology {
  import opened Basics
  import opened NetCDF

  /** `vtkConstants.VTK_QUAD`. */
  const VTK_QUAD: nat := 9

  datatype Point = Point(x: real, y: real, z: real)

  datatype Mesh = Mesh(points: seq<Point>, cellTypes: seq<nat>, offsets: seq<nat>, connectivity: seq<nat>)

  /**
   * `coords[:, k] = src` for a column of n rows: numpy copies an array of n values,
   * broadcasts a single value, and raises for any other length.
   */
  function Column(src: seq<real>, n: nat): (r: Option<seq<real>>)
    ensures r.Some? <==> |src| == n || |src| == 1
    ensures r.Some? ==> |r.value| == n
    ensures |src| == n ==> r == Some(src)
  {
    if |src| == n then Some(src)
    else if |src| == 1 then Some(Repeat(src[0], n))
    else None
  }

  /** The coordinates of one layer: x from `lon`, y from `lat`, the same height everywhere. */
  function LayerPoints(lon: seq<real>, lat: seq<real>, z: real): (r: seq<Point>)
    requires |lon| == |lat|
    ensures |r| == |lat|
    ensures forall i :: 0 <= i < |lat| ==> r[i] == Point(lon[i], lat[i], z)
  {
    seq(|lat|, i requires 0 <= i < |lat| => Point(lon[i], lat[i], z))
  }

  /** `np.arange(0, 4 * n + 1, 4)`. */
  function QuadOffsets(n: nat): (r: seq<nat>)
    ensures |r| == n + 1
    ensures forall c :: 0 <= c <= n ==> r[c] == 4 * c
  {
    seq(n + 1, c requires 0 <= c <= n => 4 * c)
  }

  /** `np.arange(4 * n)`. */
  function QuadConnectivity(n: nat): (r: seq<nat>)
    ensures |r| == 4 * n
    ensures forall j :: 0 <= j < 4 * n ==> r[j] == j
  {
    seq(4 * n, j requires 0 <= j < 4 * n => j)
  }

  /** n quad cells over the given points. */
  function QuadMesh(points: seq<Point>, n: nat): Mesh
  {
    Mesh(points, Repeat(VTK_QUAD, n), QuadOffsets(n), QuadConnectivity(n))
  }

  /**
   * The single-layer mesh: the flattened corners at height 0 and `ncells` quads.
   * Fails where numpy cannot assign the longitudes to the latitude rows.
   */
  function SurfaceMesh(lat: seq<real>, lon: seq<real>, ncells: nat): (r: Option<Mesh>)
    ensures r.Some? <==> |lon| == |lat| || |lon| == 1
    ensures r.Some? ==> |r.value.points| == |lat| && r.value == QuadMesh(r.value.points, ncells)
    ensures r.Some? && |lon| == |lat| ==> r.value.points == LayerPoints(lon, lat, 0.0)
  {
    match Column(lon, |lat|)
    case None => None
    case Some(x) => Some(QuadMesh(LayerPoints(x, lat, 0.0), ncells))
  }

  /** Cell c of a quad mesh lists exactly the points 4c, 4c + 1, 4c + 2, 4c + 3. */
  lemma QuadCellCorners(points: seq<Point>, n: nat, c: nat)
    requires c < n
    ensures var m := QuadMesh(points, n);
      m.cellTypes[c] == VTK_QUAD && m.offsets[c + 1] - m.offsets[c] == 4 &&
      m.connectivity[m.offsets[c] .. m.offsets[c + 1]] == [4 * c, 4 * c + 1, 4 * c + 2, 4 * c + 3]
  {
    var m := QuadMesh(points, n);
    var s := m.connectivity[4 * c .. 4 * c + 4];
    assert s[0] == 4 * c && s[1] == 4 * c + 1 && s[2] == 4 * c + 2 && s[3] == 4 * c + 3;
  }

  /** The offsets are increasing, start at 0 and end at the connectivity's length. */
  lemma QuadOffsetsWellFormed(points: seq<Point>, n: nat)
    ensures var m := QuadMesh(points, n);
      |m.cellTypes| == n && |m.offsets| == n + 1 && m.offsets[0] == 0 && m.offsets[n] == |m.connectivity| &&
      forall c :: 0 <= c < n ==> m.offsets[c] < m.offsets[c + 1]
  {
  }

  /** Every connectivity entry names an existing point when there are four corners per cell. */
  lemma QuadConnectivityInRange(points: seq<Point>, n: nat)
    requires |points| == 4 * n
    ensures forall j :: 0 <= j < |QuadMesh(points, n).connectivity| ==> QuadMesh(points, n).connectivity[j] < |points|
  {
  }

  /** Four cells: offsets [0, 4, 8, 12, 16] and connectivity 0 .. 15. */
  lemma QuadMeshExample(points: seq<Point>)
    ensures QuadMesh(points, 4).offsets == [0, 4, 8, 12, 16]
    ensures |QuadMesh(points, 4).connectivity| == 16 && QuadMesh(points, 4).connectivity[15] == 15
  {
    var o := QuadMesh(points, 4).offsets;
    assert o[0] == 0 && o[1] == 4 && o[2] == 8 && o[3] == 12 && o[4] == 16;
  }

  /** The stacked points for the first |zs| levels: one full copy of the corners per level. */
  function Stack(lon: seq<real>, lat: seq<real>, zs: seq<real>): (r: seq<Point>)
    requires |lon| == |lat|
    decreases |zs|
  {
    if zs == [] then [] else Stack(lon, lat, zs[..|zs| - 1]) + LayerPoints(lon, lat, zs[|zs| - 1])
  }

  /** The stack holds |zs| * P points, and point k * P + i is corner i at level k. */
  lemma {:induction false} StackAt(lon: seq<real>, lat: seq<real>, zs: seq<real>, k: nat, i: nat)
    requires |lon| == |lat|
    ensures |Stack(lon, lat, zs)| == |zs| * |lat|
    ensures k < |zs| && i < |lat| ==>
              k * |lat| + i < |zs| * |lat| && Stack(lon, lat, zs)[k * |lat| + i] == Point(lon[i], lat[i], zs[k])
    decreases |zs|
  {
    if zs != [] {
      var init := zs[..|zs| - 1];
      var p := |lat|;
      StackAt(lon, lat, init, k, i);
      assert |zs| * p == |init| * p + p;
      if k < |zs| && i < p {
        if k < |init| {
          MulLe(k + 1, |init|, p);
          assert (k + 1) * p == k * p + p;
          assert init[k] == zs[k];
        } else {
          assert k * p == |init| * p;
        }
      }
    }
  }

  /**
   * The `for z in lev` loop of the full reader: one layer of corners per level, into a
   * buffer sized for `levDim` levels. More levels than the buffer holds raise; fewer
   * leave rows the code never writes, which this model reports as None as well.
   */
  method StackLayers(lon: seq<real>, lat: seq<real>, lev: seq<real>, levDim: nat) returns (r: Option<seq<Point>>)
    requires |lon| == |lat|
    ensures r.Some? <==> |lev| == levDim
    ensures r.Some? ==> r.value == Stack(lon, lat, lev) && |r.value| == levDim * |lat|
  {
    if |lev| != levDim {
      return None;
    }
    var pts: seq<Point> := [];
    var k := 0;
    while k < |lev|
      invariant 0 <= k <= |lev|
      invariant pts == Stack(lon, lat, lev[..k])
    {
      assert lev[..k + 1][..k] == lev[..k];
      pts := pts + LayerPoints(lon, lat, lev[k]);
      k := k + 1;
    }
    assert lev[..k] == lev;
    StackAt(lon, lat, lev, 0, 0);
    r := Some(pts);
  }

  /** The stacked mesh: `levels` copies of the corners and `ncells * levels` quads. */
  function StackedMesh(points: seq<Point>, ncells: nat, levels: nat): (m: Mesh)
    ensures m.points == points
    ensures |m.cellTypes| == ncells * levels && |m.offsets| == ncells * levels + 1
    ensures |m.connectivity| == 4 * (ncells * levels)
    ensures forall c :: 0 <= c < ncells * levels ==> m.cellTypes[c] == VTK_QUAD
    ensures forall c :: 0 <= c <= ncells * levels ==> m.offsets[c] == 4 * c
    ensures forall j :: 0 <= j < |m.connectivity| ==> m.connectivity[j] == j
  {
    QuadMesh(points, ncells * levels)
  }

  /** Three levels over four cells of 16 corners: 48 points and 12 quads. */
  lemma StackedMeshExample(lon: seq<real>, lat: seq<real>, zs: seq<real>)
    requires |lon| == |lat| == 16 && |zs| == 3
    ensures |StackedMesh(Stack(lon, lat, zs), 4, 3).points| == 48
    ensures |StackedMesh(Stack(lon, lat, zs), 4, 3).cellTypes| == 12
  {
    StackAt(lon, lat, zs, 0, 0);
  }
}
