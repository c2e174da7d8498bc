/** The Python `Frame` of VDSInterface.py: a frame number, a time stamp and a dict from object
    name to `Point`. A Python dict keeps insertion order, and `AddPoint` always keys a point by
    its own name, so the dict is held here as the sequence of its values (`All()`), whose names
    are distinct; assigning to an existing key replaces the value in place. */
module PyFrame {
  import opened Wrappers
  import opened PyPoint

  /** The position of `name` among the keys, if it is one. */
  function IndexOfName(points: seq<Point>, name: string): (r: Option<nat>)
    ensures r.None? <==> forall i | 0 <= i < |points| :: points[i].name != name
    ensures r.Some? ==> r.value < |points| && points[r.value].name == name
    ensures r.Some? ==> forall j | 0 <= j < r.value :: points[j].name != name
  {
    if points == [] then None
    else if points[0].name == name then Some(0)
    else match IndexOfName(points[1..], name)
      case Some(i) => Some(i + 1)
      case None => None
  }

  predicate DistinctNames(points: seq<Point>)
  {
    forall i, j | 0 <= i < j < |points| :: points[i].name != points[j].name
  }

  /** `d[name]`, or nothing when `name` is not a key (`name in d` is false). */
  function Lookup(points: seq<Point>, name: string): Option<Point>
  {
    match IndexOfName(points, name)
    case Some(i) => Some(points[i])
    case None => None
  }

  /** `Frame.GetByName` over the dict's values: the point stored under `name`, or the occluded
      all-NaN `Point(name)` when there is none. The sort in `_SortByObjectFilter` is stated with
      this function, since it works on values rather than on a `Frame` object. */
  function NamedOrPlaceholder(points: seq<Point>, name: string): (point: Point)
    ensures point.name == name
    ensures Lookup(points, name).Some? ==> point in points && point == Lookup(points, name).value
    ensures Lookup(points, name).None? ==> point.isOccluded && AllNaN(point.r) && AllNaN(point.p)
  {
    match Lookup(points, name)
    case Some(p) => p
    case None => Placeholder(name)
  }

  /** `d[point.Name()] = point`. */
  function Put(points: seq<Point>, point: Point): seq<Point>
  {
    match IndexOfName(points, point.name)
    case Some(i) => points[i := point]
    case None => points + [point]
  }

  /** `Put` behaves as a dict assignment: the key now maps to the new point, every other key
      keeps its value, existing keys keep their place, and a new key goes at the end. */
  lemma PutIsDictAssignment(points: seq<Point>, point: Point)
    requires DistinctNames(points)
    ensures DistinctNames(Put(points, point))
    ensures Lookup(Put(points, point), point.name) == Some(point)
    ensures forall n | n != point.name :: Lookup(Put(points, point), n) == Lookup(points, n)
    ensures |Put(points, point)| == |points| + (if Lookup(points, point.name).Some? then 0 else 1)
    ensures forall i | 0 <= i < |points| :: Put(points, point)[i].name == points[i].name
    ensures Lookup(points, point.name).None? ==> Put(points, point)[|points|] == point
  {
    if IndexOfName(points, point.name).Some? {
      PutExistingKey(points, point);
    } else {
      PutNewKey(points, point);
    }
    forall n | n != point.name
      ensures Lookup(Put(points, point), n) == Lookup(points, n)
    {
      PutKeepsOtherKey(points, point, n);
    }
  }

  /** Assigning to one key leaves the value under any other key as it was. */
  lemma PutKeepsOtherKey(points: seq<Point>, point: Point, n: string)
    requires n != point.name
    ensures Lookup(Put(points, point), n) == Lookup(points, n)
  {
    var after := Put(points, point);
    assert forall k | 0 <= k < |after| && after[k].name == n :: k < |points| && after[k] == points[k];
    match IndexOfName(points, n) {
      case Some(j) =>
        assert after[j] == points[j];
        var k := IndexOfName(after, n).value;
        assert k <= j && points[k].name == n;
      case None =>
        assert forall k | 0 <= k < |after| :: after[k].name != n;
    }
  }

  /** Assigning to a present key: the point takes the old one's place. */
  lemma PutExistingKey(points: seq<Point>, point: Point)
    requires DistinctNames(points) && IndexOfName(points, point.name).Some?
    ensures DistinctNames(Put(points, point)) && |Put(points, point)| == |points|
    ensures forall i | 0 <= i < |points| :: Put(points, point)[i].name == points[i].name
    ensures Lookup(Put(points, point), point.name) == Some(point)
  {
    var i := IndexOfName(points, point.name).value;
    var after := points[i := point];
    assert forall j | 0 <= j < |after| :: after[j].name == points[j].name;
    assert DistinctNames(after);
    var k := IndexOfName(after, point.name).value;
    assert after[k].name == after[i].name;
  }

  /** Assigning to a new key: the point goes at the end. */
  lemma PutNewKey(points: seq<Point>, point: Point)
    requires DistinctNames(points) && IndexOfName(points, point.name).None?
    ensures DistinctNames(Put(points, point)) && Put(points, point) == points + [point]
    ensures Lookup(Put(points, point), point.name) == Some(point)
  {
    var after := points + [point];
    assert after[|points|].name == point.name;
    assert DistinctNames(after);
    var k := IndexOfName(after, point.name).value;
    assert after[k].name == after[|points|].name;
  }

  /** The points of `points` that are not occluded, in order. */
  function Unoccluded(points: seq<Point>): (r: seq<Point>)
    ensures |r| <= |points|
    ensures forall p :: p in r <==> p in points && !p.isOccluded
  {
    if points == [] then []
    else
      var last := points[|points| - 1];
      var front := points[..|points| - 1];
      assert points == front + [last];
      Unoccluded(front) + (if last.isOccluded then [] else [last])
  }

  /** `Frame`. */
  /** The values of a frame's dict: no name twice. */
  type PointDict = s: seq<Point> | DistinctNames(s) witness []

  /** A frame's content, detached from any object. */
  datatype FrameData = FrameData(frameNumber: Num, frameTime: Num, points: PointDict)

  class Frame {
    const frameNumber: Num
    const frameTime: Num
    var all: seq<Point>

    ghost predicate Valid()
      reads this
    {
      DistinctNames(all)
    }

    /** `Frame(frameNumber, frameTime_seconds)`: no points yet. */
    constructor (frameNumber: Num, frameTime: Num)
      ensures Valid()
      ensures this.frameNumber == frameNumber && this.frameTime == frameTime && all == []
    {
      this.frameNumber := frameNumber;
      this.frameTime := frameTime;
      all := [];
    }

    /** The frame's content as a value: what pickling through a queue or `copy.deepcopy`
        carries over to another object. */
    function Data(): FrameData
      requires Valid()
      reads this
    {
      FrameData(frameNumber, frameTime, all)
    }

    /** A new frame object with the content of a pickled or deep-copied frame. */
    constructor Restore(data: FrameData)
      ensures Valid() && Data() == data
    {
      frameNumber := data.frameNumber;
      frameTime := data.frameTime;
      all := data.points;
    }

    /** `self._all[point.Name()] = point`. */
    method AddPoint(point: Point)
      requires Valid()
      modifies this
      ensures Valid()
      ensures all == Put(old(all), point)
    {
      PutIsDictAssignment(all, point);
      all := Put(all, point);
    }

    /** Never reports "absent": a point with the requested name, taken from the frame when it is
        there and otherwise an occluded all-NaN placeholder. */
    function GetByName(name: string): (point: Point)
      reads this
      ensures point.name == name
      ensures Lookup(all, name).Some? ==> point in all && point == Lookup(all, name).value
      ensures Lookup(all, name).None? ==> point.isOccluded && AllNaN(point.r) && AllNaN(point.p)
    {
      NamedOrPlaceholder(all, name)
    }

    /** One looked-up point per requested name, in the order and number requested. */
    method GetByNames(names: seq<string>) returns (out: seq<Point>)
      ensures |out| == |names|
      ensures forall k | 0 <= k < |names| :: out[k] == GetByName(names[k]) && out[k].name == names[k]
    {
      out := [];
      for k := 0 to |names|
        invariant |out| == k
        invariant forall m | 0 <= m < k :: out[m] == GetByName(names[m]) && out[m].name == names[m]
      {
        out := out + [GetByName(names[k])];
      }
    }

    /** The points that are not occluded, in `All()` order. */
    method GetIfNotOccluded() returns (out: seq<Point>)
      ensures out == Unoccluded(all)
    {
      out := [];
      for i := 0 to |all|
        invariant out == Unoccluded(all[..i])
      {
        var point := all[i];
        if !point.isOccluded {
          out := out + [point];
        }
        assert all[..i + 1][..i] == all[..i] && all[..i + 1][i] == point;
      }
      assert all[..|all|] == all;
    }
  }
}
