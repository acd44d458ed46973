/**
 * Game-wide constants, asset path builders and tile/pixel arithmetic
 * (include/common.hpp), plus the C++ float-to-int conversion the rest of
 * the model needs.
 *
 * PROJECT_SOURCE_DIR is a build-time constant; here it is the parameter
 * `root` of every path builder.
 */
module Common {
  import opened Wrappers

  // ---- window and grid ----
  const WINDOW_WIDTH_PX: int := 840
  const WINDOW_HEIGHT_PX: int := 616
  const GRID_CELL_WIDTH_PX: int := 56
  const GRID_CELL_HEIGHT_PX: int := 56
  const MIDDLE_GRID_X: int := 7
  const MIDDLE_GRID_Y: int := 5
  const COL_COUNT: int := WINDOW_WIDTH_PX / GRID_CELL_WIDTH_PX
  const ROW_COUNT: int := WINDOW_HEIGHT_PX / GRID_CELL_HEIGHT_PX

  // ---- timing and speeds (C++ floats, here exact reals) ----
  const WALK_SPEED: real := 150.0
  const ANIMATION_TIME: real := 250.0
  const SIMPLE_CANNON_COOLDOWN: real := 1000.0
  const BUNNY_BASE_DROPOFF_TIME: real := 1000.0

  /** C++ conversion of a float to int: truncation toward zero. */
  function Trunc(x: real): (r: int)
    ensures x >= 0.0 ==> r as real <= x < r as real + 1.0
    ensures x < 0.0 ==> r as real - 1.0 < x <= r as real
  {
    if x >= 0.0 then x.Floor else -((-x).Floor)
  }

  /** `int -= float` in C++: the difference is computed as a float and truncated back. */
  function SubTrunc(n: int, d: real): (r: int)
    ensures d == 0.0 ==> r == n
    ensures (n as real - d >= 0.0) ==> r as real <= n as real - d
    ensures (n as real - d <= 0.0) ==> r as real >= n as real - d
  {
    Trunc(n as real - d)
  }

  // ---- asset paths ----

  datatype AssetDir = Textures | Audio | Meshes | Maps | Fonts

  /** The directory separator pieces used by the five data-path builders. */
  function DirPart(d: AssetDir): string
  {
    match d
    case Textures => "/textures/"
    case Audio => "/audio/"
    case Meshes => "/meshes/"
    case Maps => "/maps/"
    case Fonts => "/fonts/"
  }

  /** data_path(): the project directory followed by "data", no separator inserted. */
  function DataPath(root: string): (r: string)
    ensures |r| == |root| + 4 && r[..|root|] == root
  {
    root + "data"
  }

  function ShaderPath(root: string, name: string): (r: string)
    ensures |r| == |root| + 9 + |name| && r[..|root|] == root && r[|root| + 9..] == name
  {
    root + "/shaders/" + name
  }

  function AssetPath(root: string, d: AssetDir, name: string): string
  {
    DataPath(root) + DirPart(d) + name
  }

  function TexturesPath(root: string, name: string): string { AssetPath(root, Textures, name) }
  function AudioPath(root: string, name: string): string { AssetPath(root, Audio, name) }
  function MeshPath(root: string, name: string): string { AssetPath(root, Meshes, name) }
  function MapPath(root: string, name: string): string { AssetPath(root, Maps, name) }
  function FontPath(root: string, name: string): string { AssetPath(root, Fonts, name) }

  /** Recovers (directory, name) from a data asset path, when it is one. */
  function SplitAssetPath(root: string, p: string): (r: Option<(AssetDir, string)>)
  {
    var pre := DataPath(root);
    if |p| < |pre| || p[..|pre|] != pre then None else SplitRest(p[|pre|..])
  }

  /** Recovers (directory, name) from what follows data_path(). */
  function SplitRest(rest: string): Option<(AssetDir, string)>
  {
    if |rest| >= 10 && rest[..10] == "/textures/" then Some((Textures, rest[10..]))
    else if |rest| >= 7 && rest[..7] == "/audio/" then Some((Audio, rest[7..]))
    else if |rest| >= 8 && rest[..8] == "/meshes/" then Some((Meshes, rest[8..]))
    else if |rest| >= 6 && rest[..6] == "/maps/" then Some((Maps, rest[6..]))
    else if |rest| >= 7 && rest[..7] == "/fonts/" then Some((Fonts, rest[7..]))
    else None
  }

  lemma SplitRestOfDir(d: AssetDir, name: string)
    ensures SplitRest(DirPart(d) + name) == Some((d, name))
  {
    var rest := DirPart(d) + name;
    assert rest[..|DirPart(d)|] == DirPart(d);
    assert rest[|DirPart(d)|..] == name;
    // The second or third character tells the directories apart.
    assert rest[1] == DirPart(d)[1] && rest[2] == DirPart(d)[2];
  }

  /** Every data asset path is data_path() + "/<dir>/" + name, and both parts can be read back. */
  lemma AssetPathSplits(root: string, d: AssetDir, name: string)
    ensures AssetPath(root, d, name)[..|DataPath(root)|] == DataPath(root)
    ensures SplitAssetPath(root, AssetPath(root, d, name)) == Some((d, name))
  {
    var p := AssetPath(root, d, name);
    var pre := DataPath(root);
    assert p == pre + (DirPart(d) + name);
    assert p[..|pre|] == pre;
    assert p[|pre|..] == DirPart(d) + name;
    SplitRestOfDir(d, name);
  }

  /** Different directories or different names never give the same path. */
  lemma AssetPathInjective(root: string, d1: AssetDir, n1: string, d2: AssetDir, n2: string)
    ensures AssetPath(root, d1, n1) == AssetPath(root, d2, n2) <==> d1 == d2 && n1 == n2
  {
    if AssetPath(root, d1, n1) == AssetPath(root, d2, n2) {
      AssetPathSplits(root, d1, n1);
      AssetPathSplits(root, d2, n2);
    }
  }

  /** Shader paths start with root + "/", data paths with root + "d": no shader lives under data_path(). */
  lemma ShaderPathOutsideData(root: string, name: string, d: AssetDir, other: string)
    ensures ShaderPath(root, name)[|root|] == '/'
    ensures DataPath(root)[|root|] == 'd'
    ensures ShaderPath(root, name) != AssetPath(root, d, other)
    ensures ShaderPath(root, name) != DataPath(root)
  {
    var s := ShaderPath(root, name);
    var a := AssetPath(root, d, other);
    assert s[|root|] == '/';
    assert a == root + ("data" + DirPart(d) + other);
    assert a[|root|] == 'd';
  }

  lemma GridCounts()
    ensures COL_COUNT == 15 && ROW_COUNT == 11
    ensures COL_COUNT * GRID_CELL_WIDTH_PX == WINDOW_WIDTH_PX
    ensures ROW_COUNT * GRID_CELL_HEIGHT_PX == WINDOW_HEIGHT_PX
  {
  }

  // ---- tiles and pixels ----

  /** TileToVector2: pixel position of a tile, 30 px into the 56 px cell on each axis. */
  function TileToVector2(tileX: int, tileY: int): (r: (int, int))
    ensures r.0 - GRID_CELL_WIDTH_PX * tileX == 30 && r.1 - GRID_CELL_HEIGHT_PX * tileY == 30
  {
    (tileX * GRID_CELL_WIDTH_PX + 30, tileY * GRID_CELL_HEIGHT_PX + 30)
  }

  /** getMouseTilePosition (src/scenes/game_level.cpp): float division by the cell size, then an int cast. */
  function MouseTilePosition(px: real, py: real): (r: (int, int))
  {
    (Trunc(px / GRID_CELL_WIDTH_PX as real), Trunc(py / GRID_CELL_HEIGHT_PX as real))
  }

  lemma TruncOfTileCoordinate(t: int)
    requires t >= 0
    ensures Trunc((t * 56 + 30) as real / 56.0) == t
  {
    var q := (t * 56 + 30) as real / 56.0;
    assert q == t as real + 30.0 / 56.0;
  }

  /** For non-negative tiles, reading the tile under the tile's own pixel position gives the tile back. */
  lemma MouseTileOfTileToVector2(x: int, y: int)
    requires x >= 0 && y >= 0
    ensures var p := TileToVector2(x, y); MouseTilePosition(p.0 as real, p.1 as real) == (x, y)
  {
    TruncOfTileCoordinate(x);
    TruncOfTileCoordinate(y);
  }

  /** The round trip fails left of the grid: truncation sends tile -1 to 0. */
  lemma MouseTileNegativeColumn()
    ensures var p := TileToVector2(-1, 0); MouseTilePosition(p.0 as real, p.1 as real) == (0, 0)
  {
    var p := TileToVector2(-1, 0);
    assert p.0 as real / 56.0 == -26.0 / 56.0;
    assert p.1 as real / 56.0 == 30.0 / 56.0;
  }

  /** Total of a run of frame times (milliseconds). */
  function Sum(dts: seq<real>): real
    decreases |dts|
  {
    if dts == [] then 0.0 else dts[0] + Sum(dts[1..])
  }

  lemma {:induction false} SumNonNegative(dts: seq<real>)
    requires forall i :: 0 <= i < |dts| ==> dts[i] >= 0.0
    decreases |dts|
    ensures Sum(dts) >= 0.0
  {
    if dts != [] {
      SumNonNegative(dts[1..]);
    }
  }
}
