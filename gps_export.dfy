/**
  The table bookkeeping of the GPS export operations of the rawlog editor.

  The KML export keeps, per sensor label, the path of GGA fixes indexed by
  timestamp, and later scans each path for an RTK fix. The TXT export keeps
  two tables from timestamp to sensor label to local ENU coordinates (one
  for every GGA fix, one for RTK fixes only), the set of labels each table
  has seen, the reference coordinate of the local frame (the first GGA fix
  whose coordinates are not all zero)
  and a count of the fixes saved. When it is destroyed it keeps, in each
  table, only the timestamps every sensor reported, lays them out as a
  matrix with one row per timestamp and 1 + 3 N columns, and names the
  joint file after the concatenated labels.

  The geodetic conversions and the conversion of timestamps to seconds are
  parameters of the operations that need them; file output is not modelled.
*/
module GpsExport {
  import opened Archive
  import opened Ordering

  datatype Option<T> = None | Some(value: T)

  /** The GGA fix quality of an RTK fixed solution. */
  const RTK_FIX: uint8 := 4

  /** The fields of an NMEA GGA message the export uses. */
  datatype GgaFields = GgaFields(longitudeDegrees: real, latitudeDegrees: real, altitudeMeters: real, fixQuality: uint8)

  /** An observation of the rawlog: a GPS observation, with or without a GGA
      datum, or an observation of any other kind. */
  datatype Observation =
    | GpsObservation(sensorLabel: string, timestamp: Timestamp, gga: Option<GgaFields>)
    | OtherObservation

  predicate HasGga(o: Observation) {
    o.GpsObservation? && o.gga.Some?
  }

  // ---------------------------------------------------------------------
  // Nested maps written through `operator[]`

  /** `m[a]` of a `std::map`: the stored inner map, or an empty one. */
  function Inner<K1, K2, V>(m: map<K1, map<K2, V>>, a: K1): map<K2, V> {
    if a in m then m[a] else map[]
  }

  /** `m[a][b] = v`: creates the inner map when missing, overwrites the value when present. */
  function SetNested<K1, K2, V>(m: map<K1, map<K2, V>>, a: K1, b: K2, v: V): (r: map<K1, map<K2, V>>)
    ensures r.Keys == m.Keys + {a}
    ensures r[a].Keys == Inner(m, a).Keys + {b}
    ensures r[a][b] == v
    ensures forall y :: y in Inner(m, a) && y != b ==> r[a][y] == m[a][y]
    ensures forall x :: x in m && x != a ==> r[x] == m[x]
  {
    m[a := Inner(m, a)[b := v]]
  }

  /** Two writes to the same cell: the last one wins. */
  lemma LastWriteWins<K1, K2, V>(m: map<K1, map<K2, V>>, a: K1, b: K2, v1: V, v2: V)
    ensures SetNested(SetNested(m, a, b, v1), a, b, v2) == SetNested(m, a, b, v2)
  {
    var left := SetNested(SetNested(m, a, b, v1), a, b, v2);
    var right := SetNested(m, a, b, v2);
    assert left[a] == right[a];
  }

  /** Writes to different cells commute: the table does not depend on the
      order in which fixes for different cells arrive. */
  lemma DistinctWritesCommute<K1, K2, V>(m: map<K1, map<K2, V>>, a1: K1, b1: K2, v1: V, a2: K1, b2: K2, v2: V)
    requires a1 != a2 || b1 != b2
    ensures SetNested(SetNested(m, a1, b1, v1), a2, b2, v2) == SetNested(SetNested(m, a2, b2, v2), a1, b1, v1)
  {
    var left := SetNested(SetNested(m, a1, b1, v1), a2, b2, v2);
    var right := SetNested(SetNested(m, a2, b2, v2), a1, b1, v1);
    assert left[a1] == right[a1];
    assert left[a2] == right[a2];
  }

  // ---------------------------------------------------------------------
  // KML export

  /** One point of a KML path. */
  datatype GpsDataPoint = GpsDataPoint(lon: real, lat: real, alt: real, fix: uint8)

  type Path = map<Timestamp, GpsDataPoint>

  function DataPoint(g: GgaFields): GpsDataPoint {
    GpsDataPoint(g.longitudeDegrees, g.latitudeDegrees, g.altitudeMeters, g.fixQuality)
  }

  class ExportGpsKml {
    /** Sensor label to path. */
    var gpsPaths: map<string, Path>

    constructor ()
      ensures gpsPaths == map[]
    {
      gpsPaths := map[];
    }

    /** `processOneObservation`: a GPS observation with a GGA datum stores
        the datum's point under its label and timestamp; anything else
        leaves the paths as they are. It never reports an error. */
    method ProcessOneObservation(o: Observation) returns (ok: bool)
      modifies this
      ensures ok
      ensures !HasGga(o) ==> gpsPaths == old(gpsPaths)
      ensures HasGga(o) ==> gpsPaths == SetNested(old(gpsPaths), o.sensorLabel, o.timestamp, DataPoint(o.gga.value))
    {
      if !o.GpsObservation? {
        return true;
      }
      if o.gga.None? {
        return true;
      }
      gpsPaths := SetNested(gpsPaths, o.sensorLabel, o.timestamp, DataPoint(o.gga.value));
      return true;
    }
  }

  /** The scan of `generate_KML` over one path, in timestamp order: whether
      the path has an RTK fixed point, which decides whether the RTK-only
      placemark is written. */
  method HasSomeRtk(path: Path) returns (hasSomeRtk: bool)
    ensures hasSomeRtk <==> exists t :: t in path && path[t].fix == RTK_FIX
  {
    var stamps := TimesInOrder(path.Keys);
    hasSomeRtk := false;
    for i := 0 to |stamps|
      invariant hasSomeRtk <==> exists j :: 0 <= j < i && path[stamps[j]].fix == RTK_FIX
    {
      if !hasSomeRtk && path[stamps[i]].fix == RTK_FIX {
        hasSomeRtk := true;
      }
    }
    if !hasSomeRtk {
      forall t | t in path ensures path[t].fix != RTK_FIX {
        assert t in stamps;
      }
    }
  }

  // ---------------------------------------------------------------------
  // TXT export: the tables

  /** Timestamp to sensor label to local coordinates. */
  type Table = map<Timestamp, map<string, Point3>>

  /** Every label in the table is in the label set. */
  predicate TableWithin(table: Table, labels: set<string>) {
    forall t :: t in table ==> table[t].Keys <= labels
  }

  /** Every cell of the RTK table is also a cell of the table of all fixes. */
  predicate CellsWithin(rtk: Table, all: Table) {
    forall t :: t in rtk ==> t in all && rtk[t].Keys <= all[t].Keys
  }

  lemma SetNestedKeepsWithin(table: Table, labels: set<string>, t: Timestamp, sensor: string, p: Point3)
    requires TableWithin(table, labels)
    ensures TableWithin(SetNested(table, t, sensor, p), labels + {sensor})
  {
  }

  lemma SetNestedKeepsCells(rtk: Table, all: Table, t: Timestamp, sensor: string, p: Point3, q: Point3)
    requires CellsWithin(rtk, all)
    ensures CellsWithin(rtk, SetNested(all, t, sensor, q))
    ensures CellsWithin(SetNested(rtk, t, sensor, p), SetNested(all, t, sensor, q))
  {
  }

  // ---------------------------------------------------------------------
  // TXT export: the reference coordinate

  /** Geodetic coordinates: longitude and latitude in degrees, height in metres. */
  datatype GeodeticCoords = GeodeticCoords(lon: real, lat: real, height: real) {
    /** The coordinate has never been set. */
    predicate IsClear() {
      lon == 0.0 && lat == 0.0 && height == 0.0
    }
  }

  const CLEAR_COORDS: GeodeticCoords := GeodeticCoords(0.0, 0.0, 0.0)

  function GeodeticOf(g: GgaFields): GeodeticCoords {
    GeodeticCoords(g.longitudeDegrees, g.latitudeDegrees, g.altitudeMeters)
  }

  /** The reference coordinate after one observation: taken from the GGA
      datum while it is still clear, kept otherwise. */
  function NextRef(ref: GeodeticCoords, o: Observation): (r: GeodeticCoords)
    ensures !ref.IsClear() ==> r == ref
    ensures !HasGga(o) ==> r == ref
  {
    if HasGga(o) && ref.IsClear() then GeodeticOf(o.gga.value) else ref
  }

  /** The reference coordinate after a sequence of observations. */
  function RefAfter(ref: GeodeticCoords, obs: seq<Observation>): GeodeticCoords
    decreases obs
  {
    if obs == [] then ref else RefAfter(NextRef(ref, obs[0]), obs[1..])
  }

  /** The first GGA datum whose coordinates are not all zero. */
  function FirstFix(obs: seq<Observation>): (r: Option<GeodeticCoords>)
    ensures r.Some? ==> !r.value.IsClear()
  {
    if obs == [] then None
    else if HasGga(obs[0]) && !GeodeticOf(obs[0].gga.value).IsClear() then Some(GeodeticOf(obs[0].gga.value))
    else FirstFix(obs[1..])
  }

  /** Once set, the reference coordinate never changes again. */
  lemma {:induction false} RefStable(ref: GeodeticCoords, obs: seq<Observation>)
    requires !ref.IsClear()
    ensures RefAfter(ref, obs) == ref
    decreases obs
  {
    if obs != [] {
      RefStable(NextRef(ref, obs[0]), obs[1..]);
    }
  }

  /** Starting clear, the reference coordinate is the first GGA fix that is
      not all zero, and stays clear when there is none. */
  lemma {:induction false} RefIsFirstFix(obs: seq<Observation>)
    ensures RefAfter(CLEAR_COORDS, obs) == match FirstFix(obs) case Some(c) => c case None => CLEAR_COORDS
    decreases obs
  {
    if obs != [] {
      var next := NextRef(CLEAR_COORDS, obs[0]);
      if next.IsClear() {
        assert next == CLEAR_COORDS;
        RefIsFirstFix(obs[1..]);
      } else {
        RefStable(next, obs[1..]);
      }
    }
  }

  // ---------------------------------------------------------------------
  // TXT export: the joint file

  /** The timestamps every sensor of `labels` reported: those whose row
      has as many entries as there are labels. */
  function Complete(table: Table, labels: set<string>): (r: Table)
    ensures forall t :: t in r <==> t in table && |table[t]| == |labels|
  {
    map t | t in table && |table[t]| == |labels| :: table[t]
  }

  lemma {:induction false} SubsetSize<T>(a: set<T>, b: set<T>)
    requires a <= b
    ensures |a| <= |b|
    decreases a
  {
    if a != {} {
      var y :| y in a;
      SubsetSize(a - {y}, b - {y});
    }
  }

  lemma SubsetOfSameSize<T>(a: set<T>, b: set<T>)
    requires a <= b && |a| == |b|
    ensures a == b
  {
    if a != b {
      var x :| x in b && x !in a;
      SubsetSize(a, b - {x});
    }
  }

  /** The filter keeps exactly the rows holding every label, with their
      contents, and drops every other row. */
  lemma CompleteRowsHaveAllLabels(table: Table, labels: set<string>)
    requires TableWithin(table, labels)
    ensures forall t :: t in Complete(table, labels) <==> t in table && table[t].Keys == labels
    ensures forall t :: t in Complete(table, labels) ==> Complete(table, labels)[t] == table[t]
  {
    forall t | t in table && |table[t]| == |labels| ensures table[t].Keys == labels {
      SubsetOfSameSize(table[t].Keys, labels);
    }
  }

  /** `m[label]` of a row: the stored point, or a default-constructed
      (zero) point when the row lacks the label. */
  function CoordOf(row: map<string, Point3>, sensor: string): (p: Point3)
    ensures sensor in row ==> p == row[sensor]
    ensures sensor !in row ==> p == Point3(0.0, 0.0, 0.0)
  {
    if sensor in row then row[sensor] else Point3(0.0, 0.0, 0.0)
  }

  /** The iteration orders of the tables and of the label sets. */
  ghost function SortedTimes(s: set<Timestamp>): (r: seq<Timestamp>)
    ensures EnumerationOf(r, s, IntLe)
  {
    IntLeIsTotalOrder();
    SortedSeq(s, IntLe)
  }

  ghost function SortedLabels(s: set<string>): (r: seq<string>)
    ensures EnumerationOf(r, s, LexLe)
  {
    LexLeIsTotalOrder();
    SortedSeq(s, LexLe)
  }

  /** Column `c` of the joint matrix row for time `time` and sensor row
      `row`: the time in column 0, then x, y, z for each name in turn. */
  function RowCell(time: real, row: map<string, Point3>, names: seq<string>, c: nat): real
    requires c < 1 + 3 * |names|
  {
    if c == 0 then time
    else
      var p := CoordOf(row, names[(c - 1) / 3]);
      if (c - 1) % 3 == 0 then p.x else if (c - 1) % 3 == 1 then p.y else p.z
  }

  lemma ColumnOfLabel(k: nat, j: nat)
    requires j < 3
    ensures (3 * k + j) / 3 == k && (3 * k + j) % 3 == j
  {
  }

  /** The joint matrix with rows `stamps` and columns for `names`. */
  ghost predicate JointLayout(mat: array2<real>, table: Table, stamps: seq<Timestamp>, names: seq<string>, toTime: Timestamp -> real)
    requires forall r :: 0 <= r < |stamps| ==> stamps[r] in table
    reads mat
  {
    && mat.Length0 == |stamps|
    && mat.Length1 == 1 + 3 * |names|
    && forall r, c :: 0 <= r < |stamps| && 0 <= c < mat.Length1 ==>
         mat[r, c] == RowCell(toTime(stamps[r]), table[stamps[r]], names, c)
  }

  /** The layout of the joint matrix: one row per timestamp, the time in
      column 0, and the x, y, z of the k-th name in columns 1 + 3 k,
      2 + 3 k and 3 + 3 k. */
  lemma JointColumns(mat: array2<real>, table: Table, stamps: seq<Timestamp>, names: seq<string>, toTime: Timestamp -> real)
    requires forall r :: 0 <= r < |stamps| ==> stamps[r] in table
    requires JointLayout(mat, table, stamps, names, toTime)
    ensures mat.Length0 == |stamps| && mat.Length1 == 1 + 3 * |names|
    ensures forall r :: 0 <= r < |stamps| ==> mat[r, 0] == toTime(stamps[r])
    ensures forall r, k {:trigger stamps[r], names[k]} :: 0 <= r < |stamps| && 0 <= k < |names| ==>
      && mat[r, 1 + 3 * k] == CoordOf(table[stamps[r]], names[k]).x
      && mat[r, 2 + 3 * k] == CoordOf(table[stamps[r]], names[k]).y
      && mat[r, 3 + 3 * k] == CoordOf(table[stamps[r]], names[k]).z
  {
    forall r, k | 0 <= r < |stamps| && 0 <= k < |names|
      ensures mat[r, 1 + 3 * k] == CoordOf(table[stamps[r]], names[k]).x
      ensures mat[r, 2 + 3 * k] == CoordOf(table[stamps[r]], names[k]).y
      ensures mat[r, 3 + 3 * k] == CoordOf(table[stamps[r]], names[k]).z
    {
      ColumnOfLabel(k, 0);
      ColumnOfLabel(k, 1);
      ColumnOfLabel(k, 2);
    }
  }

  lemma IsComplete(table: Table, labels: set<string>, kept: Table)
    requires forall t :: t in kept <==> t in table && |table[t]| == |labels|
    requires forall t :: t in kept ==> kept[t] == table[t]
    ensures kept == Complete(table, labels)
  {
    var c := Complete(table, labels);
    forall t ensures t in kept <==> t in c {
      if t in kept {
        assert t in table && |table[t]| == |labels|;
      }
    }
    assert kept.Keys == c.Keys;
    forall t | t in kept ensures kept[t] == c[t] {
    }
  }

  /** The filter loop of `doSaveJointFile`: erases, in timestamp order,
      every row that does not have as many entries as there are labels. */
  method KeepComplete(table: Table, labels: set<string>) returns (kept: Table)
    ensures kept == Complete(table, labels)
  {
    var stamps := TimesInOrder(table.Keys);
    kept := table;
    ghost var visited: set<Timestamp> := {};
    for i := 0 to |stamps|
      invariant forall j :: 0 <= j < i ==> stamps[j] in visited
      invariant forall t :: t in kept <==> t in table && (t in visited ==> |table[t]| == |labels|)
      invariant forall t :: t in kept ==> kept[t] == table[t]
    {
      var t := stamps[i];
      if |table[t]| != |labels| {
        kept := kept - {t};
      }
      visited := visited + {t};
    }
    forall t | t in table ensures t in visited {
      assert t in stamps;
    }
    IsComplete(table, labels, kept);
  }

  /** The inner loop of `doSaveJointFile`: fills row `r` of the matrix. */
  method FillRow(mat: array2<real>, r: nat, time: real, row: map<string, Point3>, names: seq<string>)
    requires r < mat.Length0 && mat.Length1 == 1 + 3 * |names|
    modifies mat
    ensures forall c :: 0 <= c < mat.Length1 ==> mat[r, c] == RowCell(time, row, names, c)
    ensures forall r', c :: 0 <= r' < mat.Length0 && r' != r && 0 <= c < mat.Length1 ==> mat[r', c] == old(mat[r', c])
  {
    mat[r, 0] := time;
    for k := 0 to |names|
      invariant forall c :: 0 <= c < 1 + 3 * k ==> mat[r, c] == RowCell(time, row, names, c)
      invariant forall r', c :: 0 <= r' < mat.Length0 && r' != r && 0 <= c < mat.Length1 ==> mat[r', c] == old(mat[r', c])
    {
      var p := CoordOf(row, names[k]);
      ColumnOfLabel(k, 0);
      ColumnOfLabel(k, 1);
      ColumnOfLabel(k, 2);
      mat[r, 1 + 3 * k] := p.x;
      mat[r, 2 + 3 * k] := p.y;
      mat[r, 3 + 3 * k] := p.z;
    }
  }

  /** Iterating the timestamps of a table and a set of labels. */
  method TimesInOrder(s: set<Timestamp>) returns (r: seq<Timestamp>)
    ensures r == SortedTimes(s)
  {
    IntLeIsTotalOrder();
    r := Enumerate(s, IntLe);
  }

  method LabelsInOrder(s: set<string>) returns (r: seq<string>)
    ensures r == SortedLabels(s)
  {
    LexLeIsTotalOrder();
    r := Enumerate(s, LexLe);
  }

  /** The outer loop of `doSaveJointFile`: one row per timestamp, in
      timestamp order, with the labels in label order. */
  method FillJointMatrix(table: Table, labels: set<string>, toTime: Timestamp -> real) returns (mat: array2<real>)
    ensures fresh(mat)
    ensures JointLayout(mat, table, SortedTimes(table.Keys), SortedLabels(labels), toTime)
  {
    var stamps := TimesInOrder(table.Keys);
    var names := LabelsInOrder(labels);
    mat := new real[|stamps|, 1 + 3 * |names|];
    for r := 0 to |stamps|
      invariant forall r', c :: 0 <= r' < r && 0 <= c < mat.Length1 ==>
        mat[r', c] == RowCell(toTime(stamps[r']), table[stamps[r']], names, c)
    {
      FillRow(mat, r, toTime(stamps[r]), table[stamps[r]], names);
    }
  }

  /** The labels concatenated in order. */
  function Concat(names: seq<string>): string {
    if names == [] then [] else Concat(names[..|names| - 1]) + names[|names| - 1]
  }

  /** The loop of `doSaveJointFile` that builds the joint name. */
  method JointName(labels: set<string>) returns (name: string)
    ensures name == Concat(SortedLabels(labels))
  {
    var names := LabelsInOrder(labels);
    name := "";
    for i := 0 to |names|
      invariant name == Concat(names[..i])
    {
      assert names[..i + 1][..i] == names[..i];
      name := name + names[i];
    }
    assert names[..|names|] == names;
  }

  /** The two files a joint export writes. */
  datatype JointFiles = JointFiles(matrixFile: string, refFile: string, refRow: seq<real>)

  function MatrixFileName(prefix: string, kind: string, jointName: string): (name: string)
    ensures |name| == |prefix| + 6 + |kind| + 1 + |jointName| + 4
    ensures name[..|prefix|] == prefix && name[|prefix|..|prefix| + 6] == "_JOINT"
    ensures name[|name| - 4 - |jointName|..|name| - 4] == jointName && name[|name| - 4..] == ".txt"
  {
    prefix + "_JOINT" + kind + "_" + jointName + ".txt"
  }

  function RefFileName(prefix: string, kind: string, jointName: string): (name: string)
    ensures |name| == |prefix| + 9 + |kind| + 1 + |jointName| + 4
    ensures name[..|prefix|] == prefix && name[|prefix|..|prefix| + 9] == "_JOINTREF"
    ensures name[|name| - 4 - |jointName|..|name| - 4] == jointName && name[|name| - 4..] == ".txt"
  {
    prefix + "_JOINTREF" + kind + "_" + jointName + ".txt"
  }

  /** What a joint export of `labels` writes. */
  ghost function JointFilesFor(prefix: string, kind: string, labels: set<string>, ref: GeodeticCoords): JointFiles {
    var jointName := Concat(SortedLabels(labels));
    JointFiles(MatrixFileName(prefix, kind, jointName), RefFileName(prefix, kind, jointName), [ref.lon, ref.lat, ref.height])
  }

  /** The four files the destructor can write, for all fixes (kind "") and
      for RTK fixes (kind "RTK"), never share a name, whatever the labels. */
  lemma JointFileNamesDistinct(prefix: string, n1: string, n2: string)
    ensures MatrixFileName(prefix, "", n1) != MatrixFileName(prefix, "RTK", n2)
    ensures RefFileName(prefix, "", n1) != RefFileName(prefix, "RTK", n2)
    ensures forall k1, k2 :: k1 in {"", "RTK"} && k2 in {"", "RTK"} ==>
      MatrixFileName(prefix, k1, n1) != RefFileName(prefix, k2, n2)
  {
    var i := |prefix|;
    assert MatrixFileName(prefix, "", n1)[i + 6] == '_';
    assert MatrixFileName(prefix, "RTK", n2)[i + 6] == 'R';
    assert RefFileName(prefix, "", n1)[i + 9] == '_';
    assert RefFileName(prefix, "RTK", n2)[i + 9] == 'R';
    assert MatrixFileName(prefix, "RTK", n1)[i + 7] == 'T';
    assert RefFileName(prefix, "", n2)[i + 7] == 'E';
    assert RefFileName(prefix, "RTK", n2)[i + 7] == 'E';
  }

  // ---------------------------------------------------------------------
  // TXT export: the processor

  class ExportGpsTxt {
    /** The input file's directory and name, prefixed to every output file. */
    const filePrefix: string

    /** Every GGA fix, and the labels that produced one. */
    var allXyz: Table
    var allLabels: set<string>

    /** The RTK fixes only, and the labels that produced one. */
    var rtkXyz: Table
    var rtkLabels: set<string>

    /** The labels with an open per-sensor text file. */
    var openFiles: set<string>

    /** The origin of the local ENU frame: the first GGA fix whose
        coordinates are not all zero. */
    var refCoords: GeodeticCoords

    var entriesSaved: nat

    ghost predicate Valid()
      reads this
    {
      && TableWithin(allXyz, allLabels)
      && TableWithin(rtkXyz, rtkLabels)
      && rtkLabels <= allLabels
      && CellsWithin(rtkXyz, allXyz)
    }

    constructor (filePrefix: string)
      ensures Valid()
      ensures this.filePrefix == filePrefix
      ensures allXyz == map[] && allLabels == {} && rtkXyz == map[] && rtkLabels == {}
      ensures openFiles == {} && refCoords.IsClear() && entriesSaved == 0
    {
      this.filePrefix := filePrefix;
      allXyz := map[];
      allLabels := {};
      rtkXyz := map[];
      rtkLabels := {};
      openFiles := {};
      refCoords := CLEAR_COORDS;
      entriesSaved := 0;
    }

    /** `processOneObservation`. Every GPS observation opens its label's
        text file the first time the label is seen. A GGA datum sets the
        reference coordinate if it is still clear, is converted to local
        coordinates against it, is counted, and goes into the table of all
        fixes and, when it is an RTK fix, into the RTK table. Nothing else
        changes the tables or the counter, and the call never fails. */
    method ProcessOneObservation(o: Observation, toEnu: (GeodeticCoords, GeodeticCoords) -> Point3) returns (ok: bool)
      requires Valid()
      modifies this
      ensures Valid() && ok
      ensures openFiles == if o.GpsObservation? then old(openFiles) + {o.sensorLabel} else old(openFiles)
      ensures refCoords == NextRef(old(refCoords), o)
      ensures entriesSaved == old(entriesSaved) + (if HasGga(o) then 1 else 0)
      ensures !HasGga(o) ==>
        && allXyz == old(allXyz) && allLabels == old(allLabels)
        && rtkXyz == old(rtkXyz) && rtkLabels == old(rtkLabels)
      ensures HasGga(o) ==>
        var p := toEnu(GeodeticOf(o.gga.value), refCoords);
        var rtk := o.gga.value.fixQuality == RTK_FIX;
        && allLabels == old(allLabels) + {o.sensorLabel}
        && allXyz == SetNested(old(allXyz), o.timestamp, o.sensorLabel, p)
        && rtkLabels == (if rtk then old(rtkLabels) + {o.sensorLabel} else old(rtkLabels))
        && rtkXyz == (if rtk then SetNested(old(rtkXyz), o.timestamp, o.sensorLabel, p) else old(rtkXyz))
    {
      if !o.GpsObservation? {
        return true;
      }
      openFiles := openFiles + {o.sensorLabel};
      if o.gga.Some? {
        var gga := o.gga.value;
        if refCoords.IsClear() {
          refCoords := GeodeticOf(gga);
        }
        var p := toEnu(GeodeticOf(gga), refCoords);
        entriesSaved := entriesSaved + 1;
        SetNestedKeepsWithin(allXyz, allLabels, o.timestamp, o.sensorLabel, p);
        SetNestedKeepsCells(rtkXyz, allXyz, o.timestamp, o.sensorLabel, p, p);
        allLabels := allLabels + {o.sensorLabel};
        allXyz := SetNested(allXyz, o.timestamp, o.sensorLabel, p);
        if gga.fixQuality == RTK_FIX {
          SetNestedKeepsWithin(rtkXyz, rtkLabels, o.timestamp, o.sensorLabel, p);
          rtkLabels := rtkLabels + {o.sensorLabel};
          rtkXyz := SetNested(rtkXyz, o.timestamp, o.sensorLabel, p);
        }
      }
      return true;
    }

    /** `doSaveJointFile`: keeps the complete rows of `table`, lays them out
        as the joint matrix and names the two files after the labels. */
    method DoSaveJointFile(table: Table, labels: set<string>, kind: string, toTime: Timestamp -> real)
      returns (kept: Table, mat: array2<real>, files: JointFiles)
      ensures kept == Complete(table, labels)
      ensures fresh(mat) && JointLayout(mat, kept, SortedTimes(kept.Keys), SortedLabels(labels), toTime)
      ensures files == JointFilesFor(filePrefix, kind, labels, refCoords)
    {
      kept := KeepComplete(table, labels);
      mat := FillJointMatrix(kept, labels, toTime);
      var jointName := JointName(labels);
      files := JointFiles(MatrixFileName(filePrefix, kind, jointName), RefFileName(filePrefix, kind, jointName),
                          [refCoords.lon, refCoords.lat, refCoords.height]);
    }

    /** One guarded call of the destructor: the joint export runs only
        when the label set is not empty. */
    method SaveJointIfAny(table: Table, labels: set<string>, kind: string, toTime: Timestamp -> real)
      returns (kept: Table, written: seq<JointFiles>)
      ensures labels == {} ==> kept == table && written == []
      ensures labels != {} ==> kept == Complete(table, labels) && written == [JointFilesFor(filePrefix, kind, labels, refCoords)]
      ensures labels != {} && TableWithin(table, labels) ==> forall t, l :: t in kept && l in labels ==> l in kept[t]
    {
      if TableWithin(table, labels) {
        JointRowsAreStoredPoints(table, labels);
      }
      kept, written := table, [];
      if labels != {} {
        var mat, files;
        kept, mat, files := DoSaveJointFile(table, labels, kind, toTime);
        written := [files];
      }
    }

    /** The destructor: closes the per-sensor files, then writes the joint
        files of all fixes and of RTK fixes, each only when its label set is
        not empty. The reference coordinate and the counter are left as
        processing made them, and every row kept holds every label. */
    method Close(toTime: Timestamp -> real) returns (written: seq<JointFiles>)
      requires Valid()
      modifies this`openFiles, this`allXyz, this`rtkXyz
      ensures openFiles == {}
      ensures refCoords == old(refCoords) && entriesSaved == old(entriesSaved)
      ensures allLabels == old(allLabels) && rtkLabels == old(rtkLabels)
      ensures allXyz == if allLabels != {} then Complete(old(allXyz), allLabels) else old(allXyz)
      ensures rtkXyz == if rtkLabels != {} then Complete(old(rtkXyz), rtkLabels) else old(rtkXyz)
      ensures written ==
        (if allLabels != {} then [JointFilesFor(filePrefix, "", allLabels, refCoords)] else [])
        + (if rtkLabels != {} then [JointFilesFor(filePrefix, "RTK", rtkLabels, refCoords)] else [])
      ensures allLabels != {} ==> forall t, l :: t in allXyz && l in allLabels ==> l in allXyz[t]
      ensures rtkLabels != {} ==> forall t, l :: t in rtkXyz && l in rtkLabels ==> l in rtkXyz[t]
    {
      openFiles := {};
      var allFiles, rtkFiles;
      allXyz, allFiles := SaveJointIfAny(allXyz, allLabels, "", toTime);
      rtkXyz, rtkFiles := SaveJointIfAny(rtkXyz, rtkLabels, "RTK", toTime);
      written := allFiles + rtkFiles;
    }
  }

  /** Under the class invariant, every row of the joint matrix holds the
      stored coordinates of every label: the default point of a missing
      label never enters it. */
  lemma JointRowsAreStoredPoints(table: Table, labels: set<string>)
    requires TableWithin(table, labels)
    ensures var kept := Complete(table, labels);
      forall t, l :: t in kept && l in labels ==> l in kept[t] && CoordOf(kept[t], l) == table[t][l]
  {
    CompleteRowsHaveAllLabels(table, labels);
  }
}
