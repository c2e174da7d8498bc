/** The Python `Point` of VDSInterface.py: a pose whose numbers may be NaN, built from numpy
    arrays whose shapes the constructor checks. Occlusion means every entry is NaN. */
module PyPoint {
  import opened Wrappers

  /** A numpy float64 as far as this code cares: NaN or a number. */
  datatype Num = NaN | Val(v: real)

  predicate AllNaN(s: seq<Num>)
  {
    forall i | 0 <= i < |s| :: s[i].NaN?
  }

  /** A numpy ndarray: its shape and its elements in C (row-major) order. */
  datatype NdArray = NdArray(shape: seq<nat>, flat: seq<Num>)

  function Product(shape: seq<nat>): nat
  {
    if shape == [] then 1 else shape[0] * Product(shape[1..])
  }

  /** An ndarray holds exactly as many elements as its shape says. */
  predicate WellFormed(a: NdArray)
  {
    |a.flat| == Product(a.shape)
  }

  /** `R`, a 3x3 rotation matrix, row-major. */
  type Rotation = r: seq<Num> | |r| == 9 witness [NaN, NaN, NaN, NaN, NaN, NaN, NaN, NaN, NaN]

  /** `P`, always stored as a 3x1 column. */
  type Position = p: seq<Num> | |p| == 3 witness [NaN, NaN, NaN]

  datatype Point = Point(name: string, r: Rotation, p: Position, isOccluded: bool)

  /** The constructor raises "Invalid input: P" or "Invalid input: R". */
  datatype PointError = InvalidP | InvalidR

  /** The shapes of `P` that the constructor accepts: column (3,1), row (1,3), flat (3,). */
  predicate AcceptedPositionShape(shape: seq<nat>)
  {
    shape == [3, 1] || shape == [1, 3] || shape == [3]
  }

  /** `P.transpose()` of a (1,3) row or `P.reshape(-1,1)` of a (3,) vector: either way a (3,1)
      column holding the same elements in the same order. */
  function ToColumn(p: NdArray): (column: NdArray)
    requires WellFormed(p) && (p.shape == [1, 3] || p.shape == [3])
    ensures column.shape == [3, 1] && column.flat == p.flat
    ensures WellFormed(column)
  {
    ShapeSizes();
    NdArray([3, 1], p.flat)
  }

  /** The number of elements of the shapes the constructor accepts. */
  lemma ShapeSizes()
    ensures Product([3]) == 3 && Product([3, 1]) == 3 && Product([1, 3]) == 3 && Product([3, 3]) == 9
  {
    assert [3][1..] == [] && [1][1..] == [];
    assert [3, 1][1..] == [1] && [1, 3][1..] == [3] && [3, 3][1..] == [3];
  }

  /** `Point.__init__(Name, R, P)`. */
  function NewPoint(name: string, r: NdArray, p: NdArray): (result: Result<Point, PointError>)
    requires WellFormed(r) && WellFormed(p)
    ensures result.Ok? <==> AcceptedPositionShape(p.shape) && r.shape == [3, 3]
    ensures !AcceptedPositionShape(p.shape) ==> result == Err(InvalidP)
    ensures AcceptedPositionShape(p.shape) && r.shape != [3, 3] ==> result == Err(InvalidR)
    ensures result.Ok? ==> result.value.name == name && result.value.r == r.flat && result.value.p == p.flat
    ensures result.Ok? ==> (result.value.isOccluded <==> AllNaN(r.flat) && AllNaN(p.flat))
  {
    var column :=
      if p.shape == [3, 1] then Some(p)
      else if p.shape == [1, 3] || p.shape == [3] then Some(ToColumn(p))
      else None;
    if column.None? then Err(InvalidP)
    else if r.shape != [3, 3] then Err(InvalidR)
    else
      ShapeSizes();
      var pc := column.value;
      Ok(Point(name, r.flat, pc.flat, AllNaN(r.flat) && AllNaN(pc.flat)))
  }

  /** The default arguments of the constructor: a 3x3 and a 3x1 array of NaN. */
  const DefaultR: NdArray := NdArray([3, 3], [NaN, NaN, NaN, NaN, NaN, NaN, NaN, NaN, NaN])
  const DefaultP: NdArray := NdArray([3, 1], [NaN, NaN, NaN])

  /** `Point(name)`: the constructor with its default arguments, which is always occluded. */
  function Placeholder(name: string): (point: Point)
    ensures point.name == name && point.isOccluded
    ensures AllNaN(point.r) && AllNaN(point.p)
  {
    NewPoint(name, DefaultR, DefaultP).value
  }
}
