/** The CSV layout of vds_template_4.cpp: the header row built from the allow list, the data
    row built from a frame's points, and the frame-number column counted from the first frame. */
module ExportLayout {
  import opened Wrappers
  import opened VdsPoints
  import opened VdsInterface
  import opened CsvExporter

  //---------------------------------------------------------------------------
  // Header row

  const PStrings: seq<string> := ["P1", "P2", "P3"]
  const RPStrings: seq<string> := ["R11", "R12", "R13", "R21", "R22", "R23", "R31", "R32", "R33", "P1", "P2", "P3"]

  function Prefixed(prefix: string, names: seq<string>): (r: seq<string>)
    ensures |r| == |names| && forall i | 0 <= i < |names| :: r[i] == prefix + names[i]
  {
    seq(|names|, i requires 0 <= i < |names| => prefix + names[i])
  }

  /** The three columns of each marker: `object_markerP1` and so on. */
  function MarkerColumns(objectName: string, markers: seq<string>): (r: seq<string>)
    ensures |r| == 3 * |markers|
  {
    if markers == [] then []
    else MarkerColumns(objectName, markers[..|markers| - 1]) + Prefixed(objectName + "_" + markers[|markers| - 1] + "", PStrings)
  }

  function ObjectColumns(objectName: string, saveMarkers: bool, markers: seq<string>): seq<string>
  {
    Prefixed(objectName + "_", RPStrings) + (if saveMarkers then MarkerColumns(objectName, markers) else [])
  }

  /** "FrameNumber", then each object's columns in allow-list order. `markersOf` names the
      markers the first frame reports for an objectName. */
  function HeaderColumns(objects: seq<string>, saveMarkers: bool, markersOf: string -> seq<string>): (r: seq<string>)
    ensures !saveMarkers ==> |r| == 1 + 12 * |objects|
  {
    if objects == [] then ["FrameNumber"]
    else HeaderColumns(objects[..|objects| - 1], saveMarkers, markersOf)
         + ObjectColumns(objects[|objects| - 1], saveMarkers, markersOf(objects[|objects| - 1]))
  }

  /** Without markers the header is "FrameNumber" then twelve columns per object, column
      1 + 12k + c naming element c of objectName k. */
  lemma {:induction false} HeaderLayout(objects: seq<string>, markersOf: string -> seq<string>)
    ensures |HeaderColumns(objects, false, markersOf)| == 1 + 12 * |objects|
    ensures HeaderColumns(objects, false, markersOf)[0] == "FrameNumber"
    ensures forall k, c | 0 <= k < |objects| && 0 <= c < 12 ::
      HeaderColumns(objects, false, markersOf)[1 + 12 * k + c] == objects[k] + "_" + RPStrings[c]
  {
    HeaderFirstColumn(objects, markersOf);
    forall k, c | 0 <= k < |objects| && 0 <= c < 12
      ensures HeaderColumns(objects, false, markersOf)[1 + 12 * k + c] == objects[k] + "_" + RPStrings[c]
    {
      HeaderCell(objects, markersOf, k, c);
    }
  }

  /** Column 0 of the header is "FrameNumber". */
  lemma {:induction false} HeaderFirstColumn(objects: seq<string>, markersOf: string -> seq<string>)
    ensures HeaderColumns(objects, false, markersOf)[0] == "FrameNumber"
  {
    if objects != [] {
      HeaderFirstColumn(objects[..|objects| - 1], markersOf);
    }
  }

  /** Column 1 + 12k + c of a header without markers names element c of object k. */
  lemma {:induction false} HeaderCell(objects: seq<string>, markersOf: string -> seq<string>, k: nat, c: nat)
    requires k < |objects| && c < 12
    ensures HeaderColumns(objects, false, markersOf)[1 + 12 * k + c] == objects[k] + "_" + RPStrings[c]
  {
    var front := objects[..|objects| - 1];
    var base := HeaderColumns(front, false, markersOf);
    var last := ObjectColumns(objects[|objects| - 1], false, markersOf(objects[|objects| - 1]));
    assert HeaderColumns(objects, false, markersOf) == base + last;
    var j := 1 + 12 * k + c;
    if k < |front| {
      assert j < |base|;
      HeaderCell(front, markersOf, k, c);
      assert front[k] == objects[k];
    } else {
      assert j == |base| + c;
      assert last[c] == Prefixed(objects[k] + "_", RPStrings)[c];
    }
  }

  /** The header loop's in-place edit of a copied name list: each name gets the prefix. */
  method PrefixAll(prefix: string, names: seq<string>) returns (r: seq<string>)
    ensures r == Prefixed(prefix, names)
  {
    r := names;
    for i := 0 to |r|
      invariant |r| == |names|
      invariant forall j | 0 <= j < i :: r[j] == prefix + names[j]
      invariant forall j | i <= j < |r| :: r[j] == names[j]
    {
      r := r[i := prefix + r[i]];
    }
  }

  /** One pass of the header loop: the object's twelve columns, then its markers' columns. */
  method AddObjectColumns(headerBuilder: RowBuilder<string>, objectName: string, saveMarkers: bool, markers: seq<string>)
    modifies headerBuilder
    ensures headerBuilder.row == old(headerBuilder.row) + ObjectColumns(objectName, saveMarkers, markers)
  {
    var rpStringPoint := PrefixAll(objectName + "_", RPStrings);
    headerBuilder.AddValues(rpStringPoint);
    if saveMarkers {
      ghost var start := headerBuilder.row;
      for m := 0 to |markers|
        invariant headerBuilder.row == start + MarkerColumns(objectName, markers[..m])
      {
        var pStringMarker := PrefixAll(objectName + "_" + markers[m] + "", PStrings);
        headerBuilder.AddValues(pStringMarker);
        assert markers[..m + 1][..m] == markers[..m];
      }
      assert markers[..|markers|] == markers;
    }
  }

  /** The header construction of `main`, through an `Export_CSV_RowBuilder<std::string>`. */
  method BuildHeader(allowedObjects: seq<string>, saveMarkers: bool, markersOf: string -> seq<string>)
    returns (header: seq<string>)
    ensures header == HeaderColumns(allowedObjects, saveMarkers, markersOf)
  {
    var headerBuilder := new RowBuilder<string>();
    headerBuilder.AddData("FrameNumber");
    for k := 0 to |allowedObjects|
      invariant headerBuilder.row == HeaderColumns(allowedObjects[..k], saveMarkers, markersOf)
    {
      AddObjectColumns(headerBuilder, allowedObjects[k], saveMarkers, markersOf(allowedObjects[k]));
      assert allowedObjects[..k + 1][..k] == allowedObjects[..k];
    }
    assert allowedObjects[..|allowedObjects|] == allowedObjects;
    header := headerBuilder.row;
  }

  //---------------------------------------------------------------------------
  // Data row

  /** One point's values: the rotation row-major, the position, then (when markers are saved)
      each marker's position. `markersOf` gives a point's marker positions. */
  function PointColumns(point: Point, saveMarkers: bool, markersOf: Point -> seq<Position>): seq<real>
  {
    point.rRowMajor + point.p + (if saveMarkers then Flatten(markersOf(point)) else [])
  }

  function Flatten(positions: seq<Position>): (r: seq<real>)
    ensures |r| == 3 * |positions|
  {
    if positions == [] then [] else Flatten(positions[..|positions| - 1]) + positions[|positions| - 1]
  }

  function DataColumns(frameColumn: real, points: seq<Point>, saveMarkers: bool, markersOf: Point -> seq<Position>): (r: seq<real>)
    ensures !saveMarkers ==> |r| == 1 + 12 * |points|
  {
    if points == [] then [frameColumn]
    else DataColumns(frameColumn, points[..|points| - 1], saveMarkers, markersOf)
         + PointColumns(points[|points| - 1], saveMarkers, markersOf)
  }

  /** Without markers the row is the frame column then twelve values per point, value
      1 + 12k + c being element c of point k (R11..R33, then P1..P3). */
  lemma {:induction false} DataLayout(frameColumn: real, points: seq<Point>, markersOf: Point -> seq<Position>)
    ensures |DataColumns(frameColumn, points, false, markersOf)| == 1 + 12 * |points|
    ensures DataColumns(frameColumn, points, false, markersOf)[0] == frameColumn
    ensures forall k, c | 0 <= k < |points| && 0 <= c < 12 ::
      DataColumns(frameColumn, points, false, markersOf)[1 + 12 * k + c]
        == if c < 9 then points[k].rRowMajor[c] else points[k].p[c - 9]
  {
    DataFrameColumn(frameColumn, points, markersOf);
    forall k, c | 0 <= k < |points| && 0 <= c < 12
      ensures DataColumns(frameColumn, points, false, markersOf)[1 + 12 * k + c]
        == if c < 9 then points[k].rRowMajor[c] else points[k].p[c - 9]
    {
      DataCell(frameColumn, points, markersOf, k, c);
    }
  }

  /** Value 0 of a row is the frame column. */
  lemma {:induction false} DataFrameColumn(frameColumn: real, points: seq<Point>, markersOf: Point -> seq<Position>)
    ensures DataColumns(frameColumn, points, false, markersOf)[0] == frameColumn
  {
    if points != [] {
      DataFrameColumn(frameColumn, points[..|points| - 1], markersOf);
    }
  }

  /** Value 1 + 12k + c of a row without markers is element c of point k. */
  lemma {:induction false} DataCell(frameColumn: real, points: seq<Point>, markersOf: Point -> seq<Position>, k: nat, c: nat)
    requires k < |points| && c < 12
    ensures DataColumns(frameColumn, points, false, markersOf)[1 + 12 * k + c]
         == if c < 9 then points[k].rRowMajor[c] else points[k].p[c - 9]
  {
    var front := points[..|points| - 1];
    var base := DataColumns(frameColumn, front, false, markersOf);
    var last := PointColumns(points[|points| - 1], false, markersOf);
    assert DataColumns(frameColumn, points, false, markersOf) == base + last;
    var j := 1 + 12 * k + c;
    if k < |front| {
      assert j < |base|;
      DataCell(frameColumn, front, markersOf, k, c);
      assert front[k] == points[k];
    } else {
      assert j == |base| + c;
      assert last == points[k].rRowMajor + points[k].p;
    }
  }

  /** One pass of the row loop: the point's rotation and position, then its markers. */
  method AddPointColumns(rowBuilder: RowBuilder<real>, point: Point, saveMarkers: bool, markersOf: Point -> seq<Position>)
    modifies rowBuilder
    ensures rowBuilder.row == old(rowBuilder.row) + PointColumns(point, saveMarkers, markersOf)
  {
    rowBuilder.AddValues(point.rRowMajor);
    rowBuilder.AddValues(point.p);
    if saveMarkers {
      var markers := markersOf(point);
      ghost var start := rowBuilder.row;
      for m := 0 to |markers|
        invariant rowBuilder.row == start + Flatten(markers[..m])
      {
        rowBuilder.AddValues(markers[m]);
        assert markers[..m + 1][..m] == markers[..m];
      }
      assert markers[..|markers|] == markers;
    }
  }

  /** The row loop of `main`, through an `Export_CSV_RowBuilder<double>`. */
  method BuildDataRow(frameColumn: real, points: seq<Point>, saveMarkers: bool, markersOf: Point -> seq<Position>)
    returns (row: seq<real>)
    ensures row == DataColumns(frameColumn, points, saveMarkers, markersOf)
  {
    var rowBuilder := new RowBuilder<real>();
    rowBuilder.AddData(frameColumn);
    for k := 0 to |points|
      invariant rowBuilder.row == DataColumns(frameColumn, points[..k], saveMarkers, markersOf)
    {
      AddPointColumns(rowBuilder, points[k], saveMarkers, markersOf);
      assert points[..k + 1][..k] == points[..k];
    }
    assert points[..|points|] == points;
    row := rowBuilder.row;
  }

  /** With the settings `main` applies (object filter on, occluded filter off) and markers off,
      every frame's row has the header's length, and each value sits under the column naming
      it: the point at block k is the one named by the k-th allow-listed objectName. */
  lemma RowsMatchHeader(f: Filters, subjects: seq<Subject>, frameColumn: real,
                        markerNamesOf: string -> seq<string>, markersOf: Point -> seq<Position>)
    requires f.objectFilter && !f.occludedFilter
    ensures |DataColumns(frameColumn, ExpectedPoints(f, subjects), false, markersOf)|
         == |HeaderColumns(f.allowedObjects, false, markerNamesOf)|
    ensures forall k, c | 0 <= k < |f.allowedObjects| && 0 <= c < 12 ::
      HeaderColumns(f.allowedObjects, false, markerNamesOf)[1 + 12 * k + c]
        == ExpectedPoints(f, subjects)[k].viconObjectName + "_" + RPStrings[c]
  {
    AllowListLayout(f, subjects);
    HeaderLayout(f.allowedObjects, markerNamesOf);
    DataLayout(frameColumn, ExpectedPoints(f, subjects), markersOf);
  }

  //---------------------------------------------------------------------------
  // Frame-number column

  const UintRange: int := 0x1_0000_0000
  newtype uint32 = x: int | 0 <= x < 0x1_0000_0000

  /** `points.frameNumber - frameNumberStart + 1` in `unsigned int` arithmetic. */
  function FrameNumberColumn(frameNumber: uint32, frameNumberStart: uint32): (column: uint32)
    ensures frameNumberStart <= frameNumber && frameNumber as int - frameNumberStart as int + 1 < UintRange
            ==> column as int == frameNumber as int - frameNumberStart as int + 1
    ensures frameNumber == frameNumberStart ==> column == 1
  {
    ((frameNumber as int - frameNumberStart as int + 1) % UintRange) as uint32
  }

  /** A frame number below the first one wraps round in unsigned arithmetic: the frame just
      before the start gets 0, and any earlier one gets its negative offset plus 2^32. */
  lemma EarlierFrameWraps(frameNumber: uint32, frameNumberStart: uint32)
    requires frameNumber < frameNumberStart
    ensures frameNumber as int + 1 == frameNumberStart as int ==> FrameNumberColumn(frameNumber, frameNumberStart) == 0
    ensures frameNumber as int + 1 < frameNumberStart as int ==>
      FrameNumberColumn(frameNumber, frameNumberStart) as int
        == frameNumber as int - frameNumberStart as int + 1 + UintRange
    ensures FrameNumberColumn(frameNumber, frameNumberStart) as int > frameNumber as int
         || frameNumber as int + 1 == frameNumberStart as int
  {
  }

  /** The offset of `main`'s loop: the first frame read fixes `frameNumberStart`, so the first
      row is numbered 1 and later rows count on from it. */
  method FrameColumns(frameNumbers: seq<uint32>) returns (columns: seq<uint32>)
    ensures |columns| == |frameNumbers|
    ensures forall i | 0 <= i < |frameNumbers| :: columns[i] == FrameNumberColumn(frameNumbers[i], frameNumbers[0])
    ensures |frameNumbers| > 0 ==> columns[0] == 1
  {
    var frameNumberStart: uint32 := 0;
    var isFirstLoop := true;
    columns := [];
    for idx := 0 to |frameNumbers|
      invariant |columns| == idx
      invariant isFirstLoop <==> idx == 0
      invariant idx > 0 ==> frameNumberStart == frameNumbers[0]
      invariant forall i | 0 <= i < idx :: columns[i] == FrameNumberColumn(frameNumbers[i], frameNumbers[0])
    {
      if isFirstLoop {
        isFirstLoop := false;
        frameNumberStart := frameNumbers[idx];
      }
      columns := columns + [FrameNumberColumn(frameNumbers[idx], frameNumberStart)];
    }
  }
}
