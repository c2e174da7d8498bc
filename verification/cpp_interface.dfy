/** The filtering and frame decoding of the C++ class `vdsi::VDS_Interface` (VDS_Interface.h).
    The SDK accessors that `FrameToPoints` calls are replaced by the sequence of subject records
    they would report for the current frame. */
module VdsInterface {
  import opened Wrappers
  import opened VdsPoints

  /** What the SDK reports for one subject: its name, its number of segments, and the global
      rotation matrix (row-major) and translation of its first segment. */
  datatype Subject = Subject(name: string, segmentCount: nat, rotation: Rotation, translation: Position)

  /** `FrameToPoints` throws "Invalid assumption that segment count is 1". */
  datatype DecodeError = InvalidSegmentCount

  /** The three private filter fields of `VDS_Interface`. */
  datatype Filters = Filters(objectFilter: bool, occludedFilter: bool, allowedObjects: seq<string>)

  /** What `AllowedByFilters` decides for a point. */
  predicate Passes(f: Filters, point: Point)
  {
    !(f.occludedFilter && point.isOccluded)
    && (!f.objectFilter || point.viconObjectName in f.allowedObjects)
  }

  predicate SegmentCountsValid(subjects: seq<Subject>)
  {
    forall i | 0 <= i < |subjects| :: subjects[i].segmentCount == 1
  }

  /** The point `FrameToPoints` makes of one subject, with the occlusion heuristic applied. */
  function Decode(s: Subject): Point
  {
    Point(s.name, s.rotation, s.translation, IsOccludedPose(s.rotation, s.translation))
  }

  /** The decoded subjects that pass the filters, in feed order. */
  function Accepted(f: Filters, subjects: seq<Subject>): seq<Point>
  {
    if subjects == [] then []
    else (if Passes(f, Decode(subjects[0])) then [Decode(subjects[0])] else []) + Accepted(f, subjects[1..])
  }

  lemma {:induction false} AcceptedAppend(f: Filters, subjects: seq<Subject>, s: Subject)
    ensures Accepted(f, subjects + [s]) == Accepted(f, subjects) + (if Passes(f, Decode(s)) then [Decode(s)] else [])
  {
    if subjects != [] {
      assert (subjects + [s])[1..] == subjects[1..] + [s];
      AcceptedAppend(f, subjects[1..], s);
    }
  }

  /** The point synthesised for an allow-listed name that is not in the frame. */
  function Placeholder(name: string): Point
  {
    Point(name, ZeroRotation, ZeroPosition, true)
  }

  /** The entry of the reordered output for one allow-listed name. */
  function Slot(points: seq<Point>, name: string): Point
  {
    match FirstNamed(points, name)
    case Some(p) => p
    case None => Placeholder(name)
  }

  function Reordered(allowed: seq<string>, points: seq<Point>): seq<Point>
  {
    seq(|allowed|, k requires 0 <= k < |allowed| => Slot(points, allowed[k]))
  }

  /** The result of a successful `FrameToPoints`: the reorder runs only when the object filter
      is on and the occluded filter is off. */
  function ExpectedPoints(f: Filters, subjects: seq<Subject>): seq<Point>
  {
    if !f.occludedFilter && f.objectFilter then Reordered(f.allowedObjects, Accepted(f, subjects))
    else Accepted(f, subjects)
  }

  /** The first subject of the feed with the given name. */
  function FirstSubject(subjects: seq<Subject>, name: string): (found: Option<Subject>)
    ensures found.None? <==> forall i | 0 <= i < |subjects| :: subjects[i].name != name
    ensures found.Some? ==> exists i | 0 <= i < |subjects| ::
      subjects[i] == found.value && subjects[i].name == name
      && forall j | 0 <= j < i :: subjects[j].name != name
  {
    if subjects == [] then None
    else if subjects[0].name == name then Some(subjects[0])
    else
      var rest := FirstSubject(subjects[1..], name);
      assert forall i | 1 <= i < |subjects| :: subjects[i] == subjects[1..][i - 1];
      rest
  }

  /** With the object filter on and the occluded filter off, looking an allow-listed name up
      among the accepted points finds the first subject of that name in the feed. */
  lemma {:induction false} FirstNamedAccepted(f: Filters, subjects: seq<Subject>, name: string)
    requires f.objectFilter && !f.occludedFilter && name in f.allowedObjects
    ensures FirstNamed(Accepted(f, subjects), name)
         == (match FirstSubject(subjects, name) case Some(s) => Some(Decode(s)) case None => None)
  {
    if subjects != [] {
      var d := Decode(subjects[0]);
      var rest := Accepted(f, subjects[1..]);
      if subjects[0].name == name {
        assert Passes(f, d);
        assert Accepted(f, subjects) == [d] + rest;
        assert FirstSubject(subjects, name) == Some(subjects[0]);
      } else {
        FirstNamedAccepted(f, subjects[1..], name);
        assert FirstSubject(subjects, name) == FirstSubject(subjects[1..], name);
        if Passes(f, d) {
          assert Accepted(f, subjects) == [d] + rest;
          assert ([d] + rest)[1..] == rest;
          assert FirstNamed([d] + rest, name) == FirstNamed(rest, name);
        } else {
          assert Accepted(f, subjects) == rest;
        }
      }
    }
  }

  /** Object filter on, occluded filter off: the output names are the allow list exactly, in
      order and with the same length; a listed name the feed reports becomes the first such
      subject, and a missing one becomes an occluded point with zero rotation and position. */
  lemma AllowListLayout(f: Filters, subjects: seq<Subject>)
    requires f.objectFilter && !f.occludedFilter
    ensures |ExpectedPoints(f, subjects)| == |f.allowedObjects|
    ensures forall k | 0 <= k < |f.allowedObjects| ::
      ExpectedPoints(f, subjects)[k].viconObjectName == f.allowedObjects[k]
    ensures forall k | 0 <= k < |f.allowedObjects| ::
      ExpectedPoints(f, subjects)[k]
        == match FirstSubject(subjects, f.allowedObjects[k])
           case Some(s) => Decode(s)
           case None => Point(f.allowedObjects[k], ZeroRotation, ZeroPosition, true)
  {
    forall k | 0 <= k < |f.allowedObjects|
      ensures ExpectedPoints(f, subjects)[k]
        == match FirstSubject(subjects, f.allowedObjects[k])
           case Some(s) => Decode(s)
           case None => Point(f.allowedObjects[k], ZeroRotation, ZeroPosition, true)
    {
      FirstNamedAccepted(f, subjects, f.allowedObjects[k]);
    }
  }

  /** The accepted points are exactly the decoded subjects that pass the filters, and there are
      never more of them than subjects. */
  lemma {:induction false} AcceptedMembers(f: Filters, subjects: seq<Subject>)
    ensures |Accepted(f, subjects)| <= |subjects|
    ensures forall p :: p in Accepted(f, subjects) <==>
      Passes(f, p) && exists i | 0 <= i < |subjects| :: p == Decode(subjects[i])
  {
    if subjects != [] {
      AcceptedMembers(f, subjects[1..]);
      assert forall i | 1 <= i < |subjects| :: subjects[i] == subjects[1..][i - 1];
      forall p | Passes(f, p) && (exists i | 0 <= i < |subjects| :: p == Decode(subjects[i]))
        ensures p in Accepted(f, subjects)
      {
        var i :| 0 <= i < |subjects| && p == Decode(subjects[i]);
        if i > 0 {
          assert p == Decode(subjects[1..][i - 1]);
        }
      }
    }
  }

  /** When every subject passes (for one, with both filters off), the output is every subject,
      decoded, in feed order. */
  lemma {:induction false} AcceptedAllPass(f: Filters, subjects: seq<Subject>)
    requires forall i | 0 <= i < |subjects| :: Passes(f, Decode(subjects[i]))
    ensures Accepted(f, subjects) == seq(|subjects|, i requires 0 <= i < |subjects| => Decode(subjects[i]))
  {
    if subjects != [] {
      AcceptedAllPass(f, subjects[1..]);
    }
  }

  /** `vdsi::VDS_Interface`, reduced to its filter state and `FrameToPoints`. */
  class VdsInterface {
    var isObjectFilterActive: bool
    var isOccludedFilterActive: bool
    var filterAllowedObjects: seq<string>

    function Config(): Filters
      reads this
    {
      Filters(isObjectFilterActive, isOccludedFilterActive, filterAllowedObjects)
    }

    /** Both filters start off, with an empty allow list. */
    constructor ()
      ensures Config() == Filters(false, false, [])
    {
      isObjectFilterActive, isOccludedFilterActive, filterAllowedObjects := false, false, [];
    }

    method EnableObjectFilter(allowedObjects: seq<string>)
      modifies this
      ensures Config() == Filters(true, old(isOccludedFilterActive), allowedObjects)
    {
      isObjectFilterActive := true;
      filterAllowedObjects := allowedObjects;
    }

    /** Turns the object filter off; the allow list is kept. */
    method DisableObjectFilter()
      modifies this
      ensures Config() == old(Config()).(objectFilter := false)
    {
      isObjectFilterActive := false;
    }

    method EnableOccludedFilter()
      modifies this
      ensures Config() == old(Config()).(occludedFilter := true)
    {
      isOccludedFilterActive := true;
    }

    method DisableOccludedFilter()
      modifies this
      ensures Config() == old(Config()).(occludedFilter := false)
    {
      isOccludedFilterActive := false;
    }

    /** An occluded point fails the occluded filter; otherwise, with the object filter on, the
        point passes iff its name is on the allow list, and with it off the point passes. */
    method AllowedByFilters(point: Point) returns (allowed: bool)
      ensures allowed <==> !(isOccludedFilterActive && point.isOccluded)
                           && (!isObjectFilterActive || point.viconObjectName in filterAllowedObjects)
    {
      if isOccludedFilterActive && point.isOccluded {
        return false;
      }
      var passesObjectFilter := true;
      if isObjectFilterActive {
        passesObjectFilter := false;
        var i := 0;
        while i < |filterAllowedObjects|
          invariant 0 <= i <= |filterAllowedObjects|
          invariant !passesObjectFilter ==> point.viconObjectName !in filterAllowedObjects[..i]
          invariant passesObjectFilter ==> point.viconObjectName in filterAllowedObjects
        {
          if point.viconObjectName == filterAllowedObjects[i] {
            passesObjectFilter := true;
            break;
          }
          i := i + 1;
        }
      }
      return passesObjectFilter;
    }

    /** Decodes the current frame: throws if a subject does not have exactly one segment;
        otherwise yields the filtered points, reordered by the allow list when the object
        filter is on and the occluded filter is off. */
    method FrameToPoints(subjects: seq<Subject>) returns (r: Result<Points, DecodeError>)
      ensures r.Err? <==> !SegmentCountsValid(subjects)
      ensures r.Ok? ==> r.value.all == ExpectedPoints(Config(), subjects)
    {
      r := DecodeSubjects(subjects);
      if r.Ok? && !isOccludedFilterActive && isObjectFilterActive {
        var pointsSorted := SortByAllowList(r.value);
        r := Ok(pointsSorted);
      }
    }

    /** The subject loop of `FrameToPoints`: each subject decoded, with the occlusion heuristic,
        and kept if it passes the filters. */
    method DecodeSubjects(subjects: seq<Subject>) returns (r: Result<Points, DecodeError>)
      ensures r.Err? <==> !SegmentCountsValid(subjects)
      ensures r.Ok? ==> fresh(r.value) && r.value.all == Accepted(Config(), subjects)
    {
      var points := new Points();
      for idxSubject := 0 to |subjects|
        invariant fresh(points)
        invariant SegmentCountsValid(subjects[..idxSubject])
        invariant points.all == Accepted(Config(), subjects[..idxSubject])
      {
        var s := subjects[idxSubject];
        if s.segmentCount != 1 {
          return Err(InvalidSegmentCount);
        }
        var isOccluded := IsOccludedPose(s.rotation, s.translation);
        var point := Point(s.name, s.rotation, s.translation, isOccluded);
        var allowed := AllowedByFilters(point);
        if allowed {
          points.AddPoint(point);
        }
        assert subjects[..idxSubject + 1] == subjects[..idxSubject] + [s];
        AcceptedAppend(Config(), subjects[..idxSubject], s);
      }
      assert subjects[..|subjects|] == subjects;
      return Ok(points);
    }

    /** The reorder of `FrameToPoints`: one point per allow-listed name, the first one found or
        an occluded point with zero rotation and position. */
    method SortByAllowList(points: Points) returns (pointsSorted: Points)
      ensures fresh(pointsSorted) && pointsSorted.all == Reordered(filterAllowedObjects, points.all)
    {
      pointsSorted := new Points();
      for k := 0 to |filterAllowedObjects|
        invariant fresh(pointsSorted)
        invariant pointsSorted.all == Reordered(filterAllowedObjects[..k], points.all)
      {
        var allowedObjectName := filterAllowedObjects[k];
        var found := points.Get(allowedObjectName);
        var point;
        if found.None? {
          point := Point(allowedObjectName, ZeroRotation, ZeroPosition, true);
        } else {
          point := found.value;
        }
        pointsSorted.AddPoint(point);
        assert filterAllowedObjects[..k + 1] == filterAllowedObjects[..k] + [allowedObjectName];
      }
      assert filterAllowedObjects[..|filterAllowedObjects|] == filterAllowedObjects;
    }
  }
}
