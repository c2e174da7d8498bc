/** The value types of VDS_Interface.h: the decoded pose of one Vicon object (`vdsi::Point`),
    the exact-zero occlusion heuristic, `Point::R_at`, and the `vdsi::Points` container. */
module VdsPoints {
  import opened Wrappers

  /** `uint8_t`, the argument type of `Point::R_at`. */
  newtype uint8 = x: int | 0 <= x < 256

  /** `std::array<double,9>`: a rotation matrix in row-major order. The code only ever compares
      these numbers with exactly 0, so `real` stands for `double`. */
  type Rotation = r: seq<real> | |r| == 9 witness [0.0, 0.0, 0.0, 0.0, 0.0, 0.0, 0.0, 0.0, 0.0]

  /** `std::array<double,3>`: a position vector. */
  type Position = p: seq<real> | |p| == 3 witness [0.0, 0.0, 0.0]

  /** `vdsi::Point`. It is built once by its constructor and never changed afterwards. */
  datatype Point = Point(viconObjectName: string, rRowMajor: Rotation, p: Position, isOccluded: bool)

  /** The value-initialised arrays (`= {}`) of a synthesised placeholder. */
  const ZeroRotation: Rotation := [0.0, 0.0, 0.0, 0.0, 0.0, 0.0, 0.0, 0.0, 0.0]
  const ZeroPosition: Position := [0.0, 0.0, 0.0]

  predicate AllZero(s: seq<real>)
  {
    forall i | 0 <= i < |s| :: s[i] == 0.0
  }

  /** The occlusion test of `FrameToPoints`: the SDK's own occlusion flag is unusable, and an
      occluded segment reports exactly zero for every value. */
  function IsOccludedPose(r: Rotation, p: Position): (occluded: bool)
    ensures occluded <==> AllZero(r) || AllZero(p)
  {
    (r[0] == 0.0 && r[1] == 0.0 && r[2] == 0.0
     && r[3] == 0.0 && r[4] == 0.0 && r[5] == 0.0
     && r[6] == 0.0 && r[7] == 0.0 && r[8] == 0.0)
    || (p[0] == 0.0 && p[1] == 0.0 && p[2] == 0.0)
  }

  /** Row `i` (0-based) of the 3x3 matrix stored in row-major order. */
  function MatrixRow(r: Rotation, i: nat): (row: seq<real>)
    requires i < 3
    ensures |row| == 3
  {
    r[3 * i .. 3 * i + 3]
  }

  /** The index that `R_at` reads: `3*(col-1) + (row-1)`. */
  function RowMajorIndex(col: int, row: int): (i: nat)
    requires 1 <= col <= 3 && 1 <= row <= 3
    ensures i < 9
  {
    3 * (col - 1) + (row - 1)
  }

  /** Different in-range argument pairs read different elements; with nine pairs and nine
      elements, the index arithmetic of `R_at` is a bijection onto 0..8. */
  lemma RowMajorIndexIsInjective()
    ensures forall c1, r1, c2, r2 | 1 <= c1 <= 3 && 1 <= r1 <= 3 && 1 <= c2 <= 3 && 1 <= r2 <= 3 ::
      RowMajorIndex(c1, r1) == RowMajorIndex(c2, r2) ==> c1 == c2 && r1 == r2
  {
  }

  /** `R_at` throws "Out of bounds". */
  datatype OutOfBounds = OutOfBounds

  /** `Point::R_at(col, row)`: counting from 1, both arguments must lie in 1..3. The element
      returned is the one in matrix row `col`, matrix column `row` of the row-major storage. */
  function RAt(point: Point, col: uint8, row: uint8): (r: Result<real, OutOfBounds>)
    ensures r.Err? <==> col < 1 || col > 3 || row < 1 || row > 3
    ensures r.Ok? ==> r.value == MatrixRow(point.rRowMajor, col as int - 1)[row as int - 1]
  {
    if 1 > row || row > 3 || 1 > col || col > 3 then Err(OutOfBounds)
    else Ok(point.rRowMajor[RowMajorIndex(col as int, row as int)])
  }

  /** The first point of `points`, in insertion order, whose name is `name`. */
  function FirstNamed(points: seq<Point>, name: string): (found: Option<Point>)
    ensures found.None? <==> forall i | 0 <= i < |points| :: points[i].viconObjectName != name
    ensures found.Some? ==> exists i | 0 <= i < |points| ::
      points[i] == found.value && points[i].viconObjectName == name
      && forall j | 0 <= j < i :: points[j].viconObjectName != name
  {
    if points == [] then None
    else if points[0].viconObjectName == name then Some(points[0])
    else
      var rest := FirstNamed(points[1..], name);
      assert forall i | 1 <= i < |points| :: points[i] == points[1..][i - 1];
      rest
  }

  /** A point with the given name, with no earlier point of that name, is the first match. */
  lemma {:induction false} FirstNamedAt(points: seq<Point>, name: string, i: nat)
    requires i < |points| && points[i].viconObjectName == name
    requires forall j | 0 <= j < i :: points[j].viconObjectName != name
    ensures FirstNamed(points, name) == Some(points[i])
  {
    if i > 0 {
      FirstNamedAt(points[1..], name, i - 1);
    }
  }

  /** `vdsi::Points`: a vector of decoded points, searched by name. */
  class Points {
    var all: seq<Point>

    constructor ()
      ensures all == []
    {
      all := [];
    }

    /** Appends at the end and leaves every earlier entry as it was. */
    method AddPoint(point: Point)
      modifies this
      ensures all == old(all) + [point]
    {
      all := all + [point];
    }

    /** Linear search with early return: the first point named `name`, or none (`nullptr`). */
    method Get(name: string) returns (found: Option<Point>)
      ensures found == FirstNamed(all, name)
    {
      for i := 0 to |all|
        invariant forall j | 0 <= j < i :: all[j].viconObjectName != name
      {
        if all[i].viconObjectName == name {
          FirstNamedAt(all, name, i);
          return Some(all[i]);
        }
      }
      return None;
    }
  }
}
