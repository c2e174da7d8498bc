/** The Python `BackgroundThread` and `Interface` of VDSInterface.py, as one sequential object.

    The producer process runs a loop; one pass of it is split here into `StartIteration` (clear
    `IsSettingChanged`, take a new allow list) and `FinishIteration` (store the frame rate,
    decode, filter, sort, publish). Consumer calls and settings changes run between these steps.
    A wait on an Event (`IsFrameReady.wait()`, `UpdateThread.join()`) becomes a precondition.
    Ghost counters record under which settings and by which publish each held frame was made, so
    that the contracts can state the freshness the flags are there to provide. */
module PyInterface {
  import opened Wrappers
  import opened PyPoint
  import opened PyFrame

  /** The nine rotation values and three translation values the SDK returns for a segment, as
      the float64 arrays numpy makes of them (so any of them may be NaN). */
  type FeedRotation = s: seq<Num> | |s| == 9 witness [NaN, NaN, NaN, NaN, NaN, NaN, NaN, NaN, NaN]
  type FeedTranslation = s: seq<Num> | |s| == 3 witness [NaN, NaN, NaN]

  /** What the SDK reports for one subject: its name, its segment names, and the global
      translation and rotation of its segment, each with the feed's occluded flag. */
  datatype Subject = Subject(
    name: string,
    segmentNames: seq<string>,
    translation: FeedTranslation, translationOccluded: bool,
    rotation: FeedRotation, rotationOccluded: bool)

  /** The producer raises "Invalid assumption that segment count is 1". */
  datatype DecodeError = InvalidSegmentCount

  /** The filter state the producer reads: the two Events and its own allow list. */
  datatype Filters = Filters(objectFilter: bool, occludedFilter: bool, allowedObjects: seq<string>)

  /** What `_AllowedByFilters` decides for a point. */
  predicate Passes(f: Filters, point: Point)
  {
    !(f.occludedFilter && point.isOccluded)
    && (!f.objectFilter || point.name in f.allowedObjects)
  }

  predicate SegmentCountsValid(subjects: seq<Subject>)
  {
    forall i | 0 <= i < |subjects| :: |subjects[i].segmentNames| == 1
  }

  /** The point the loop body makes of one subject: a subject the feed flags as occluded becomes
      the all-NaN `Point(name)`; any other keeps the feed's numbers, and `Point.__init__` then
      marks it occluded when those are all NaN. */
  function DecodeSubject(s: Subject): (point: Point)
    ensures point.name == s.name
    ensures point.isOccluded <==>
      s.translationOccluded || s.rotationOccluded || (AllNaN(s.rotation) && AllNaN(s.translation))
    ensures point.isOccluded ==> AllNaN(point.r) && AllNaN(point.p)
    ensures !(s.translationOccluded || s.rotationOccluded) ==> point.r == s.rotation && point.p == s.translation
  {
    if s.translationOccluded || s.rotationOccluded then Placeholder(s.name)
    else
      ShapeSizes();
      NewPoint(s.name, NdArray([3, 3], s.rotation), NdArray([3, 1], s.translation)).value
  }

  /** The frame's dict after the decode loop: each subject that passes the filters is assigned
      under its name, in feed order. */
  function DecodedPoints(f: Filters, subjects: seq<Subject>): (r: seq<Point>)
    ensures DistinctNames(r)
  {
    if subjects == [] then []
    else
      var prev := DecodedPoints(f, subjects[..|subjects| - 1]);
      var d := DecodeSubject(subjects[|subjects| - 1]);
      if Passes(f, d) then PutIsDictAssignment(prev, d); Put(prev, d) else prev
  }

  /** The index of the last subject named `name` whose point passes the filters. */
  function LastPassing(f: Filters, subjects: seq<Subject>, name: string): (r: Option<nat>)
    ensures r.None? <==>
      forall i | 0 <= i < |subjects| :: !(subjects[i].name == name && Passes(f, DecodeSubject(subjects[i])))
    ensures r.Some? ==>
      && r.value < |subjects| && subjects[r.value].name == name && Passes(f, DecodeSubject(subjects[r.value]))
      && forall j | r.value < j < |subjects| :: !(subjects[j].name == name && Passes(f, DecodeSubject(subjects[j])))
  {
    if subjects == [] then None
    else
      var last := subjects[|subjects| - 1];
      if last.name == name && Passes(f, DecodeSubject(last)) then Some(|subjects| - 1)
      else LastPassing(f, subjects[..|subjects| - 1], name)
  }

  /** The decoded dict holds a name exactly when some subject of that name passes the filters,
      and then the point of the last such subject: a later subject of the same name replaces the
      earlier one. */
  lemma {:induction false} DecodedHoldsLastPassing(f: Filters, subjects: seq<Subject>, name: string)
    ensures Lookup(DecodedPoints(f, subjects), name)
         == match LastPassing(f, subjects, name)
            case Some(i) => Some(DecodeSubject(subjects[i]))
            case None => None
  {
    if subjects != [] {
      var front := subjects[..|subjects| - 1];
      var prev := DecodedPoints(f, front);
      var d := DecodeSubject(subjects[|subjects| - 1]);
      DecodedHoldsLastPassing(f, front, name);
      if Passes(f, d) {
        PutIsDictAssignment(prev, d);
      }
    }
  }

  /** The decoded points of the subjects that pass the filters, in feed order: the frame the
      loop would build if every name came once. */
  function Kept(f: Filters, subjects: seq<Subject>): (r: seq<Point>)
    ensures |r| <= |subjects|
    ensures forall k | 0 <= k < |r| :: Passes(f, r[k])
    ensures forall k | 0 <= k < |r| :: exists i | 0 <= i < |subjects| :: r[k] == DecodeSubject(subjects[i])
  {
    if subjects == [] then []
    else
      var front := subjects[..|subjects| - 1];
      var prev := Kept(f, front);
      var d := DecodeSubject(subjects[|subjects| - 1]);
      assert forall k | 0 <= k < |prev| :: exists i | 0 <= i < |subjects| :: prev[k] == DecodeSubject(subjects[i]) by {
        forall k | 0 <= k < |prev|
          ensures exists i | 0 <= i < |subjects| :: prev[k] == DecodeSubject(subjects[i])
        {
          var i :| 0 <= i < |front| && prev[k] == DecodeSubject(front[i]);
          assert front[i] == subjects[i];
        }
      }
      if Passes(f, d) then prev + [d] else prev
  }

  /** The names of a frame's points, in the dict's order. */
  function PointNames(points: seq<Point>): (r: seq<string>)
    ensures |r| == |points|
    ensures forall i | 0 <= i < |points| :: r[i] == points[i].name
  {
    if points == [] then [] else PointNames(points[..|points| - 1]) + [points[|points| - 1].name]
  }

  /** The decoded dict keeps feed order: its keys are the names of the passing subjects, each
      where it first appears in the feed. With `DecodedHoldsLastPassing` (which point each key
      holds) this fixes the published frame entirely, repeated names included. */
  lemma {:induction false} DecodedNamesInFeedOrder(f: Filters, subjects: seq<Subject>)
    ensures PointNames(DecodedPoints(f, subjects)) == FirstOccurrences(PointNames(Kept(f, subjects)))
  {
    if subjects != [] {
      var front := subjects[..|subjects| - 1];
      var d := DecodeSubject(subjects[|subjects| - 1]);
      DecodedNamesInFeedOrder(f, front);
      if Passes(f, d) {
        var names := PointNames(Kept(f, front));
        assert PointNames(Kept(f, subjects)) == names + [d.name];
        FirstOccurrencesAppend(names, d.name);
        PutNames(DecodedPoints(f, front), d);
      }
    }
  }

  /** One more name keeps the list of first occurrences, or extends it when the name is new. */
  lemma FirstOccurrencesAppend(names: seq<string>, n: string)
    ensures FirstOccurrences(names + [n])
         == if n in names then FirstOccurrences(names) else FirstOccurrences(names) + [n]
  {
    assert (names + [n])[..|names|] == names;
  }

  /** Assigning under a key keeps the key order, and a new key is added at the end. */
  lemma PutNames(points: seq<Point>, point: Point)
    requires DistinctNames(points)
    ensures PointNames(Put(points, point))
         == if point.name in PointNames(points) then PointNames(points) else PointNames(points) + [point.name]
  {
    PutIsDictAssignment(points, point);
    if IndexOfName(points, point.name).None? {
      assert point.name !in PointNames(points);
    } else {
      assert point.name in PointNames(points);
    }
  }

  /** When no name comes twice in the feed, the decoded frame is exactly the decoded passing
      subjects, in feed order. */
  lemma {:induction false} DecodedInFeedOrder(f: Filters, subjects: seq<Subject>)
    requires forall i, j | 0 <= i < j < |subjects| :: subjects[i].name != subjects[j].name
    ensures DecodedPoints(f, subjects) == Kept(f, subjects)
  {
    if subjects != [] {
      var front := subjects[..|subjects| - 1];
      var last := subjects[|subjects| - 1];
      var prev := DecodedPoints(f, front);
      var d := DecodeSubject(last);
      DecodedInFeedOrder(f, front);
      if Passes(f, d) {
        forall k | 0 <= k < |prev|
          ensures prev[k].name != d.name
        {
          var i :| 0 <= i < |front| && prev[k] == DecodeSubject(front[i]);
          assert front[i] == subjects[i];
        }
        assert IndexOfName(prev, d.name).None?;
      }
    }
  }

  /** The dict `_SortByObjectFilter` builds when the object filter is on: for each allow-listed
      name in order, the looked-up point, assigned under its name if it passes the filters. */
  function SortedPoints(f: Filters, points: seq<Point>, names: seq<string>): (r: seq<Point>)
    ensures DistinctNames(r)
    ensures forall i | 0 <= i < |r| :: r[i].name in names
  {
    if names == [] then []
    else
      var prev := SortedPoints(f, points, names[..|names| - 1]);
      var p := NamedOrPlaceholder(points, names[|names| - 1]);
      if Passes(f, p) then
        PutIsDictAssignment(prev, p);
        assert forall i | 0 <= i < |prev| :: prev[i].name in names;
        Put(prev, p)
      else
        assert forall i | 0 <= i < |prev| :: prev[i].name in names;
        prev
  }

  /** The allow-list entries that pass the filters, found or placeholder, in allow-list order. */
  function Selected(f: Filters, points: seq<Point>, names: seq<string>): seq<Point>
  {
    if names == [] then []
    else
      var p := NamedOrPlaceholder(points, names[|names| - 1]);
      Selected(f, points, names[..|names| - 1]) + (if Passes(f, p) then [p] else [])
  }

  predicate DistinctStrings(names: seq<string>)
  {
    forall i, j | 0 <= i < j < |names| :: names[i] != names[j]
  }

  /** One more allow-list entry: its point is assigned into the sorted dict if it passes. */
  lemma SortedPointsStep(f: Filters, points: seq<Point>, names: seq<string>, k: nat)
    requires k < |names|
    ensures SortedPoints(f, points, names[..k + 1])
         == var p := NamedOrPlaceholder(points, names[k]);
            if Passes(f, p) then Put(SortedPoints(f, points, names[..k]), p) else SortedPoints(f, points, names[..k])
  {
    assert names[..k + 1][..k] == names[..k];
  }

  /** The allow list with every repeat of a name dropped, first occurrences kept in order. */
  function FirstOccurrences(names: seq<string>): (r: seq<string>)
    ensures DistinctStrings(r)
    ensures forall n :: n in r <==> n in names
    ensures DistinctStrings(names) ==> r == names
  {
    if names == [] then []
    else
      var front := names[..|names| - 1];
      var last := names[|names| - 1];
      assert names == front + [last];
      if last in front then FirstOccurrences(front) else FirstOccurrences(front) + [last]
  }

  /** An allow-listed name whose point passes is among the selected points. */
  lemma {:induction false} SelectedHas(f: Filters, points: seq<Point>, names: seq<string>, n: string)
    requires n in names && Passes(f, NamedOrPlaceholder(points, n))
    ensures NamedOrPlaceholder(points, n) in Selected(f, points, names)
  {
    var front := names[..|names| - 1];
    assert names == front + [names[|names| - 1]];
    if n != names[|names| - 1] {
      SelectedHas(f, points, front, n);
    }
  }

  /** The sorted frame is exactly the allow-list entries that pass the filters, in allow-list
      order; a name listed twice is kept once, at its first place, because the sorted frame is a
      dict and the second assignment stores the same point again. */
  lemma {:induction false} SortedFollowsAllowList(f: Filters, points: seq<Point>, names: seq<string>)
    ensures SortedPoints(f, points, names) == Selected(f, points, FirstOccurrences(names))
  {
    if names != [] {
      var front := names[..|names| - 1];
      SortedFollowsAllowList(f, points, front);
      if names[|names| - 1] in front {
        SortedRepeatedName(f, points, names);
      } else {
        SortedNewName(f, points, names);
      }
    }
  }

  /** The sort step for a name already listed: it stores the point the dict already holds. */
  lemma SortedRepeatedName(f: Filters, points: seq<Point>, names: seq<string>)
    requires names != [] && names[|names| - 1] in names[..|names| - 1]
    requires SortedPoints(f, points, names[..|names| - 1])
          == Selected(f, points, FirstOccurrences(names[..|names| - 1]))
    ensures SortedPoints(f, points, names) == Selected(f, points, FirstOccurrences(names))
  {
    var front := names[..|names| - 1];
    var last := names[|names| - 1];
    var prev := SortedPoints(f, points, front);
    var p := NamedOrPlaceholder(points, last);
    assert FirstOccurrences(names) == FirstOccurrences(front);
    if Passes(f, p) {
      SelectedHas(f, points, FirstOccurrences(front), last);
      PutPresent(prev, p);
    }
  }

  /** The sort step for a name not listed before: its point, if it passes, goes at the end. */
  lemma SortedNewName(f: Filters, points: seq<Point>, names: seq<string>)
    requires names != [] && names[|names| - 1] !in names[..|names| - 1]
    requires SortedPoints(f, points, names[..|names| - 1])
          == Selected(f, points, FirstOccurrences(names[..|names| - 1]))
    ensures SortedPoints(f, points, names) == Selected(f, points, FirstOccurrences(names))
  {
    var front := names[..|names| - 1];
    var last := names[|names| - 1];
    var prev := SortedPoints(f, points, front);
    var p := NamedOrPlaceholder(points, last);
    var listed := FirstOccurrences(front);
    assert FirstOccurrences(names) == listed + [last];
    assert (listed + [last])[..|listed|] == listed;
    if Passes(f, p) {
      assert forall i | 0 <= i < |prev| :: prev[i].name in front;
      assert IndexOfName(prev, last).None?;
    }
  }

  /** Assigning a point that the dict already holds leaves the dict as it was. */
  lemma PutPresent(points: seq<Point>, point: Point)
    requires DistinctNames(points) && point in points
    ensures Put(points, point) == points
  {
    var i :| 0 <= i < |points| && points[i] == point;
    var j := IndexOfName(points, point.name).value;
    assert points[j].name == points[i].name;
    assert points[j := point] == points;
  }

  /** Object filter on, occluded filter off: the sorted frame lists every allow-listed name once,
      at its first place, each the stored point or an occluded placeholder. */
  lemma {:induction false} SortedWithoutOccludedFilter(f: Filters, points: seq<Point>, names: seq<string>)
    requires f.objectFilter && !f.occludedFilter
    requires forall n | n in names :: n in f.allowedObjects
    ensures |SortedPoints(f, points, names)| == |FirstOccurrences(names)|
    ensures forall k | 0 <= k < |FirstOccurrences(names)| ::
      SortedPoints(f, points, names)[k] == NamedOrPlaceholder(points, FirstOccurrences(names)[k])
      && SortedPoints(f, points, names)[k].name == FirstOccurrences(names)[k]
  {
    SortedFollowsAllowList(f, points, names);
    SelectedAllPass(f, points, FirstOccurrences(names));
  }

  lemma {:induction false} SelectedAllPass(f: Filters, points: seq<Point>, names: seq<string>)
    requires f.objectFilter && !f.occludedFilter
    requires forall n | n in names :: n in f.allowedObjects
    ensures |Selected(f, points, names)| == |names|
    ensures forall k | 0 <= k < |names| :: Selected(f, points, names)[k] == NamedOrPlaceholder(points, names[k])
  {
    if names != [] {
      SelectedAllPass(f, points, names[..|names| - 1]);
    }
  }

  /** Occluded filter on: nothing occluded survives the sort, so placeholders are dropped. */
  lemma {:induction false} SortedDropsOccluded(f: Filters, points: seq<Point>, names: seq<string>)
    requires f.occludedFilter
    ensures forall p | p in SortedPoints(f, points, names) :: !p.isOccluded
  {
    if names != [] {
      var prev := SortedPoints(f, points, names[..|names| - 1]);
      var p := NamedOrPlaceholder(points, names[|names| - 1]);
      SortedDropsOccluded(f, points, names[..|names| - 1]);
      if Passes(f, p) {
        var after := Put(prev, p);
        forall q | q in after ensures !q.isOccluded {
          var i :| 0 <= i < |after| && after[i] == q;
          if i < |prev| && after[i] == prev[i] {
            assert prev[i] in prev;
          }
        }
      }
    }
  }

  /** The points of the frame one producer pass publishes. */
  function PublishedPoints(f: Filters, subjects: seq<Subject>): seq<Point>
  {
    var decoded := DecodedPoints(f, subjects);
    if f.objectFilter then SortedPoints(f, decoded, f.allowedObjects) else decoded
  }

  /** `BackgroundThread` and `Interface` together. */
  class Interface {
    // Interface state
    var isConnected: bool
    var latestFrame: FrameData
    // The producer process: alive, and between the loop head and the publish
    var running: bool
    var inIteration: bool
    // Events shared between the processes
    var isKillRequest: bool
    var isFrameReady: bool
    var hasLatestFrameBeenRead: bool
    var isSettingChanged: bool
    var isObjectFilterActive: bool
    var isOccludedFilterActive: bool
    // Value and queues shared between the processes; a frame crosses the queue pickled, so
    // the queue and the cache hold frame contents, not frame objects
    var viconFrameRate: real
    var frameQueue: seq<FrameData>
    var allowedObjectsQueue: seq<string>
    // The producer's own allow list
    var filterAllowedObjects: seq<string>

    // Number of settings changes so far, and the count each held frame was decoded under
    ghost var settingsVersion: nat
    ghost var iterationVersion: nat
    ghost var queuedVersion: nat
    ghost var cachedVersion: nat
    // Number of publishes so far, the publish of the cached frame, and the last publish that
    // set IsFrameReady
    ghost var published: nat
    ghost var cachedSerial: nat
    ghost var readySerial: nat

    function Config(): Filters
      reads this
    {
      Filters(isObjectFilterActive, isOccludedFilterActive, filterAllowedObjects)
    }

    ghost predicate Valid()
      reads this
    {
      && |frameQueue| <= 1
      && (running ==> isConnected && !isKillRequest)
      && (inIteration ==> running)
      && (isSettingChanged ==> !isFrameReady)
      && (inIteration && !isSettingChanged ==> iterationVersion == settingsVersion)
      // A ready frame, queued or cached, was made under the current settings by the publish
      // that last set IsFrameReady
      && (isFrameReady && |frameQueue| == 1 ==> queuedVersion == settingsVersion && published == readySerial)
      && (isFrameReady && frameQueue == [] ==> cachedVersion == settingsVersion && cachedSerial == readySerial)
      && readySerial <= published
    }

    /** `Interface()`: not connected, every Event clear, frame rate -1, an empty cached frame. */
    constructor ()
      ensures Valid()
      ensures !isConnected && !running && !inIteration
      ensures !isKillRequest && !isFrameReady && !hasLatestFrameBeenRead && !isSettingChanged
      ensures Config() == Filters(false, false, []) && allowedObjectsQueue == []
      ensures viconFrameRate == -1.0 && frameQueue == [] && latestFrame == FrameData(NaN, NaN, [])
    {
      isConnected, running, inIteration := false, false, false;
      isKillRequest, isFrameReady, hasLatestFrameBeenRead, isSettingChanged := false, false, false, false;
      isObjectFilterActive, isOccludedFilterActive := false, false;
      viconFrameRate := -1.0;
      frameQueue, allowedObjectsQueue, filterAllowedObjects := [], [], [];
      latestFrame := FrameData(NaN, NaN, []);
      settingsVersion, iterationVersion, queuedVersion, cachedVersion := 0, 0, 0, 0;
      published, cachedSerial, readySerial := 0, 0, 0;
    }

    //-------------------------------------------------------------------------
    // Connect / Disconnect

    /** A no-op when connected. Otherwise clears the kill, ready and read flags and starts a
        producer process, whose copy of the producer object starts with an empty allow list.
        The priming `GetFrame` that follows in the source is the caller's next `GetFrame`. */
    method Connect()
      requires Valid()
      modifies this
      ensures Valid() && isConnected
      ensures old(isConnected) ==> unchanged(this)
      ensures !old(isConnected) ==>
        && running && !inIteration
        && !isKillRequest && !isFrameReady && !hasLatestFrameBeenRead
        && filterAllowedObjects == []
        && isSettingChanged == old(isSettingChanged)
        && isObjectFilterActive == old(isObjectFilterActive)
        && isOccludedFilterActive == old(isOccludedFilterActive)
        && allowedObjectsQueue == old(allowedObjectsQueue)
        && frameQueue == old(frameQueue) && latestFrame == old(latestFrame)
        && viconFrameRate == old(viconFrameRate)
        && settingsVersion == old(settingsVersion) && published == old(published)
    {
      if isConnected {
        return;
      }
      isKillRequest := false;
      isFrameReady := false;
      hasLatestFrameBeenRead := false;
      running, inIteration := true, false;
      filterAllowedObjects := [];
      isConnected := true;
    }

    /** A no-op when not connected. Otherwise sets the kill flag and joins the producer, which
        leaves its loop at the next loop head: the join waits for a pass in progress. */
    method Disconnect()
      requires Valid()
      requires isConnected ==> !inIteration
      modifies this
      ensures Valid() && !isConnected && !running
      ensures !old(isConnected) ==> unchanged(this)
      ensures old(isConnected) ==>
        && isKillRequest
        && isFrameReady == old(isFrameReady) && hasLatestFrameBeenRead == old(hasLatestFrameBeenRead)
        && isSettingChanged == old(isSettingChanged)
        && isObjectFilterActive == old(isObjectFilterActive) && isOccludedFilterActive == old(isOccludedFilterActive)
        && filterAllowedObjects == old(filterAllowedObjects)
        && allowedObjectsQueue == old(allowedObjectsQueue)
        && frameQueue == old(frameQueue) && latestFrame == old(latestFrame)
        && viconFrameRate == old(viconFrameRate)
    {
      if !isConnected {
        return;
      }
      isKillRequest := true;
      running := false;
      isConnected := false;
    }

    //-------------------------------------------------------------------------
    // Settings: each one clears IsFrameReady and sets IsSettingChanged, so that no frame made
    // before the change is handed out after it.

    method EnableObjectFilter(allowedObjects: seq<string>)
      requires Valid()
      modifies this
      ensures Valid()
      ensures isObjectFilterActive && allowedObjectsQueue == allowedObjects
      ensures !isFrameReady && isSettingChanged && settingsVersion == old(settingsVersion) + 1
      ensures isOccludedFilterActive == old(isOccludedFilterActive)
      ensures filterAllowedObjects == old(filterAllowedObjects)
      ensures isConnected == old(isConnected) && running == old(running) && inIteration == old(inIteration)
      ensures hasLatestFrameBeenRead == old(hasLatestFrameBeenRead)
      ensures frameQueue == old(frameQueue) && latestFrame == old(latestFrame)
      ensures published == old(published) && viconFrameRate == old(viconFrameRate)
      ensures isKillRequest == old(isKillRequest)
    {
      allowedObjectsQueue := allowedObjects;
      isObjectFilterActive := true;
      isFrameReady := false;
      isSettingChanged := true;
      settingsVersion := settingsVersion + 1;
    }

    method DisableObjectFilter()
      requires Valid()
      modifies this
      ensures Valid()
      ensures !isObjectFilterActive
      ensures !isFrameReady && isSettingChanged && settingsVersion == old(settingsVersion) + 1
      ensures isOccludedFilterActive == old(isOccludedFilterActive)
      ensures filterAllowedObjects == old(filterAllowedObjects) && allowedObjectsQueue == old(allowedObjectsQueue)
      ensures isConnected == old(isConnected) && running == old(running) && inIteration == old(inIteration)
      ensures hasLatestFrameBeenRead == old(hasLatestFrameBeenRead)
      ensures frameQueue == old(frameQueue) && latestFrame == old(latestFrame)
      ensures published == old(published) && viconFrameRate == old(viconFrameRate)
      ensures isKillRequest == old(isKillRequest)
    {
      isObjectFilterActive := false;
      isFrameReady := false;
      isSettingChanged := true;
      settingsVersion := settingsVersion + 1;
    }

    method EnableOccludedFilter()
      requires Valid()
      modifies this
      ensures Valid()
      ensures isOccludedFilterActive
      ensures !isFrameReady && isSettingChanged && settingsVersion == old(settingsVersion) + 1
      ensures isObjectFilterActive == old(isObjectFilterActive)
      ensures filterAllowedObjects == old(filterAllowedObjects) && allowedObjectsQueue == old(allowedObjectsQueue)
      ensures isConnected == old(isConnected) && running == old(running) && inIteration == old(inIteration)
      ensures hasLatestFrameBeenRead == old(hasLatestFrameBeenRead)
      ensures frameQueue == old(frameQueue) && latestFrame == old(latestFrame)
      ensures published == old(published) && viconFrameRate == old(viconFrameRate)
      ensures isKillRequest == old(isKillRequest)
    {
      isOccludedFilterActive := true;
      isFrameReady := false;
      isSettingChanged := true;
      settingsVersion := settingsVersion + 1;
    }

    method DisableOccludedFilter()
      requires Valid()
      modifies this
      ensures Valid()
      ensures !isOccludedFilterActive
      ensures !isFrameReady && isSettingChanged && settingsVersion == old(settingsVersion) + 1
      ensures isObjectFilterActive == old(isObjectFilterActive)
      ensures filterAllowedObjects == old(filterAllowedObjects) && allowedObjectsQueue == old(allowedObjectsQueue)
      ensures isConnected == old(isConnected) && running == old(running) && inIteration == old(inIteration)
      ensures hasLatestFrameBeenRead == old(hasLatestFrameBeenRead)
      ensures frameQueue == old(frameQueue) && latestFrame == old(latestFrame)
      ensures published == old(published) && viconFrameRate == old(viconFrameRate)
      ensures isKillRequest == old(isKillRequest)
    {
      isOccludedFilterActive := false;
      isFrameReady := false;
      isSettingChanged := true;
      settingsVersion := settingsVersion + 1;
    }

    //-------------------------------------------------------------------------
    // Producer

    /** `_AllowedByFilters`: an occluded point fails the occluded filter; otherwise, with the
        object filter on, the point passes iff its name is on the allow list. */
    method AllowedByFilters(point: Point) returns (allowed: bool)
      ensures allowed <==> !(isOccludedFilterActive && point.isOccluded)
                           && (!isObjectFilterActive || point.name in filterAllowedObjects)
    {
      if isOccludedFilterActive && point.isOccluded {
        return false;
      }
      if !isObjectFilterActive {
        return true;
      }
      for i := 0 to |filterAllowedObjects|
        invariant point.name !in filterAllowedObjects[..i]
      {
        if point.name == filterAllowedObjects[i] {
          return true;
        }
        assert filterAllowedObjects[..i + 1] == filterAllowedObjects[..i] + [filterAllowedObjects[i]];
      }
      assert filterAllowedObjects[..|filterAllowedObjects|] == filterAllowedObjects;
      return false;
    }

    /** The loop start: wait for settings changes in progress, clear `IsSettingChanged`, and
        replace the producer's allow list when the queue holds names. An empty queue leaves the
        old list in place, so an `EnableObjectFilter([])` does not empty it. */
    method StartIteration()
      requires Valid() && running && !inIteration
      modifies this
      ensures Valid() && inIteration && !isSettingChanged
      ensures filterAllowedObjects == if old(allowedObjectsQueue) == [] then old(filterAllowedObjects)
                                      else old(allowedObjectsQueue)
      ensures allowedObjectsQueue == []
      ensures iterationVersion == settingsVersion == old(settingsVersion)
      ensures isConnected == old(isConnected) && running == old(running)
      ensures isFrameReady == old(isFrameReady) && hasLatestFrameBeenRead == old(hasLatestFrameBeenRead)
      ensures isObjectFilterActive == old(isObjectFilterActive) && isOccludedFilterActive == old(isOccludedFilterActive)
      ensures frameQueue == old(frameQueue) && latestFrame == old(latestFrame)
      ensures published == old(published) && viconFrameRate == old(viconFrameRate)
      ensures isKillRequest == old(isKillRequest)
    {
      isSettingChanged := false;
      if allowedObjectsQueue != [] {
        filterAllowedObjects := allowedObjectsQueue;
        allowedObjectsQueue := [];
      }
      inIteration := true;
      iterationVersion := settingsVersion;
    }

    /** The decode loop: a new frame holding every subject that passes the filters, assigned
        under its name in feed order; raises if a subject has other than one segment. */
    method DecodeFrame(frameNumber: Num, frameTime: Num, subjects: seq<Subject>)
      returns (r: Result<Frame, DecodeError>)
      ensures r.Err? <==> !SegmentCountsValid(subjects)
      ensures r.Ok? ==> fresh(r.value) && r.value.Valid()
      ensures r.Ok? ==> r.value.frameNumber == frameNumber && r.value.frameTime == frameTime
      ensures r.Ok? ==> r.value.all == DecodedPoints(Config(), subjects)
    {
      var frame := new Frame(frameNumber, frameTime);
      for i := 0 to |subjects|
        invariant fresh(frame) && frame.Valid()
        invariant frame.frameNumber == frameNumber && frame.frameTime == frameTime
        invariant SegmentCountsValid(subjects[..i])
        invariant frame.all == DecodedPoints(Config(), subjects[..i])
      {
        var s := subjects[i];
        if |s.segmentNames| != 1 {
          return Err(InvalidSegmentCount);
        }
        var point := DecodeSubject(s);
        var allowed := AllowedByFilters(point);
        if allowed {
          frame.AddPoint(point);
        }
        assert subjects[..i + 1][..i] == subjects[..i];
      }
      assert subjects[..|subjects|] == subjects;
      return Ok(frame);
    }

    /** `_SortByObjectFilter`: the frame itself when the object filter is off; otherwise a new
        frame built along the allow list. */
    method SortByObjectFilter(frame: Frame) returns (sorted: Frame)
      requires frame.Valid()
      ensures sorted.Valid()
      ensures !isObjectFilterActive ==> sorted == frame
      ensures isObjectFilterActive ==>
        && fresh(sorted)
        && sorted.frameNumber == frame.frameNumber && sorted.frameTime == frame.frameTime
        && sorted.all == SortedPoints(Config(), frame.all, filterAllowedObjects)
    {
      if !isObjectFilterActive {
        return frame;
      }
      sorted := new Frame(frame.frameNumber, frame.frameTime);
      for k := 0 to |filterAllowedObjects|
        invariant fresh(sorted) && sorted.Valid()
        invariant sorted.frameNumber == frame.frameNumber && sorted.frameTime == frame.frameTime
        invariant sorted.all == SortedPoints(Config(), frame.all, filterAllowedObjects[..k])
      {
        var point := frame.GetByName(filterAllowedObjects[k]);
        var allowed := AllowedByFilters(point);
        SortedPointsStep(Config(), frame.all, filterAllowedObjects, k);
        if allowed {
          sorted.AddPoint(point);
        }
      }
      assert filterAllowedObjects[..|filterAllowedObjects|] == filterAllowedObjects;
    }

    /** The rest of a pass: store the frame rate, decode and sort the frame, then put it in the
        queue in place of whatever was there. Only if no setting changed since the pass
        started does it mark the frame unread and set `IsFrameReady`. A decode error ends the
        producer process. */
    method FinishIteration(frameRate: real, frameNumber: int, timestamp: real, subjects: seq<Subject>)
      requires Valid() && inIteration
      modifies this
      ensures Valid() && !inIteration && viconFrameRate == frameRate
      ensures running <==> SegmentCountsValid(subjects)
      ensures !SegmentCountsValid(subjects) ==>
        && frameQueue == old(frameQueue) && isFrameReady == old(isFrameReady)
        && hasLatestFrameBeenRead == old(hasLatestFrameBeenRead) && published == old(published)
      ensures SegmentCountsValid(subjects) ==>
        && frameQueue == [FrameData(Val(frameNumber as real), Val(timestamp), PublishedPoints(Config(), subjects))]
        && published == old(published) + 1
        && (isSettingChanged ==>
              (isFrameReady == old(isFrameReady) && hasLatestFrameBeenRead == old(hasLatestFrameBeenRead)))
        && (!isSettingChanged ==> isFrameReady && !hasLatestFrameBeenRead && readySerial == published)
      ensures isConnected == old(isConnected) && isSettingChanged == old(isSettingChanged)
      ensures isObjectFilterActive == old(isObjectFilterActive) && isOccludedFilterActive == old(isOccludedFilterActive)
      ensures filterAllowedObjects == old(filterAllowedObjects) && allowedObjectsQueue == old(allowedObjectsQueue)
      ensures latestFrame == old(latestFrame) && settingsVersion == old(settingsVersion)
      ensures isKillRequest == old(isKillRequest)
    {
      viconFrameRate := frameRate;
      var decoded := DecodeFrame(Val(frameNumber as real), Val(timestamp), subjects);
      if decoded.Err? {
        running, inIteration := false, false;
        return;
      }
      var latestFrameInternal := SortByObjectFilter(decoded.value);
      assert latestFrameInternal.all == PublishedPoints(Config(), subjects);
      Publish(latestFrameInternal.Data());
    }

    /** The end of a pass: the frame replaces whatever is queued; unless a setting changed during
        the pass, it is marked unread and `IsFrameReady` is set. */
    method Publish(frame: FrameData)
      requires Valid() && inIteration
      modifies this
      ensures Valid() && !inIteration && frameQueue == [frame] && published == old(published) + 1
      ensures isSettingChanged ==>
        isFrameReady == old(isFrameReady) && hasLatestFrameBeenRead == old(hasLatestFrameBeenRead)
      ensures !isSettingChanged ==> isFrameReady && !hasLatestFrameBeenRead && readySerial == published
      ensures isConnected == old(isConnected) && running == old(running)
      ensures isSettingChanged == old(isSettingChanged) && viconFrameRate == old(viconFrameRate)
      ensures isObjectFilterActive == old(isObjectFilterActive) && isOccludedFilterActive == old(isOccludedFilterActive)
      ensures filterAllowedObjects == old(filterAllowedObjects) && allowedObjectsQueue == old(allowedObjectsQueue)
      ensures latestFrame == old(latestFrame) && settingsVersion == old(settingsVersion)
      ensures isKillRequest == old(isKillRequest)
    {
      frameQueue := [frame];
      published := published + 1;
      queuedVersion := iterationVersion;
      if !isSettingChanged {
        hasLatestFrameBeenRead := false;
        isFrameReady := true;
        readySerial := published;
      }
      inIteration := false;
    }

    //-------------------------------------------------------------------------
    // Consumer

    /** `GetFrame_WaitForNew` up to its call of `GetFrame`: always clears `IsFrameReady`, so the
        read that follows waits for a publish made after this call. */
    method BeginWaitForNew()
      requires Valid()
      modifies this
      ensures Valid() && !isFrameReady
      ensures isConnected == old(isConnected) && running == old(running) && inIteration == old(inIteration)
      ensures hasLatestFrameBeenRead == old(hasLatestFrameBeenRead) && isSettingChanged == old(isSettingChanged)
      ensures isObjectFilterActive == old(isObjectFilterActive) && isOccludedFilterActive == old(isOccludedFilterActive)
      ensures filterAllowedObjects == old(filterAllowedObjects) && allowedObjectsQueue == old(allowedObjectsQueue)
      ensures frameQueue == old(frameQueue) && latestFrame == old(latestFrame)
      ensures published == old(published) && settingsVersion == old(settingsVersion)
      ensures viconFrameRate == old(viconFrameRate) && isKillRequest == old(isKillRequest)
    {
      isFrameReady := false;
    }

    /** `GetFrame_GetUnread` up to its call of `GetFrame`: clears `IsFrameReady` only when the
        latest frame has already been read. */
    method BeginGetUnread()
      requires Valid()
      modifies this
      ensures Valid()
      ensures isFrameReady == (old(isFrameReady) && !old(hasLatestFrameBeenRead))
      ensures isConnected == old(isConnected) && running == old(running) && inIteration == old(inIteration)
      ensures hasLatestFrameBeenRead == old(hasLatestFrameBeenRead) && isSettingChanged == old(isSettingChanged)
      ensures isObjectFilterActive == old(isObjectFilterActive) && isOccludedFilterActive == old(isOccludedFilterActive)
      ensures filterAllowedObjects == old(filterAllowedObjects) && allowedObjectsQueue == old(allowedObjectsQueue)
      ensures frameQueue == old(frameQueue) && latestFrame == old(latestFrame)
      ensures published == old(published) && settingsVersion == old(settingsVersion)
      ensures viconFrameRate == old(viconFrameRate) && isKillRequest == old(isKillRequest)
    {
      if hasLatestFrameBeenRead {
        isFrameReady := false;
      }
    }

    /** `GetFrame`: when not connected, an empty frame and nothing changes. Otherwise, once
        `IsFrameReady` is set, move the queued frame (if any) into the cache, mark it read and
        return a copy of the cache. The frame returned was made under the current settings,
        by the publish that last set `IsFrameReady`. */
    method GetFrame() returns (frame: Frame)
      requires Valid()
      requires isConnected ==> isFrameReady
      modifies this
      ensures Valid() && fresh(frame) && frame.Valid()
      ensures !old(isConnected) ==>
        unchanged(this) && frame.all == [] && frame.frameNumber == NaN && frame.frameTime == NaN
      ensures old(isConnected) ==>
        && latestFrame == (if old(frameQueue) == [] then old(latestFrame) else old(frameQueue)[0])
        && frameQueue == []
        && frame.Data() == latestFrame
        && hasLatestFrameBeenRead && isFrameReady
        && cachedVersion == settingsVersion && cachedSerial == readySerial
        && isConnected && running == old(running) && inIteration == old(inIteration)
        && isSettingChanged == old(isSettingChanged)
        && isObjectFilterActive == old(isObjectFilterActive) && isOccludedFilterActive == old(isOccludedFilterActive)
        && filterAllowedObjects == old(filterAllowedObjects) && allowedObjectsQueue == old(allowedObjectsQueue)
        && published == old(published) && settingsVersion == old(settingsVersion)
        && viconFrameRate == old(viconFrameRate) && isKillRequest == old(isKillRequest)
    {
      if !isConnected {
        frame := new Frame(NaN, NaN);
        return;
      }
      TakeLatest();
      frame := new Frame.Restore(latestFrame);
    }

    /** The connected part of `GetFrame` before the copy: the queued frame, if any, becomes the
        cache, and the cache is marked read. */
    method TakeLatest()
      requires Valid() && isConnected && isFrameReady
      modifies this
      ensures Valid()
      ensures latestFrame == (if old(frameQueue) == [] then old(latestFrame) else old(frameQueue)[0])
      ensures frameQueue == [] && hasLatestFrameBeenRead && isFrameReady
      ensures cachedVersion == settingsVersion && cachedSerial == readySerial
      ensures isConnected && running == old(running) && inIteration == old(inIteration)
      ensures isSettingChanged == old(isSettingChanged)
      ensures isObjectFilterActive == old(isObjectFilterActive) && isOccludedFilterActive == old(isOccludedFilterActive)
      ensures filterAllowedObjects == old(filterAllowedObjects) && allowedObjectsQueue == old(allowedObjectsQueue)
      ensures published == old(published) && settingsVersion == old(settingsVersion)
      ensures viconFrameRate == old(viconFrameRate) && isKillRequest == old(isKillRequest)
    {
      if frameQueue != [] {
        latestFrame := frameQueue[0];
        frameQueue := [];
        cachedVersion := queuedVersion;
        cachedSerial := published;
      }
      hasLatestFrameBeenRead := true;
    }
  }
}
