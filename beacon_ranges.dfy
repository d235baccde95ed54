/**
  The beacon range observation and its versioned codec.

  An observation holds three scalars (minimum and maximum sensor distance,
  standard error of the ranges), one record per sensed beacon (where the
  sensor sits on the robot, the sensed distance, the beacon's ID), an
  auxiliary pose estimate, the sensor label and the timestamp.

  The writer always emits the current layout, version 3. The reader accepts
  every layout from version 0 to 3: version 0 ends after the records,
  version 1 adds the auxiliary pose, version 2 the label, version 3 the
  timestamp. Fields that a layout lacks get defaults: the label becomes
  empty, the timestamp invalid, and the auxiliary pose keeps the value the
  object already had. Any other version is an error.
*/
module BeaconRanges {
  import opened Archive

  /** The version `serializeTo` writes. */
  const CURRENT_VERSION: nat := 3

  /** The timestamp a version 0, 1 or 2 stream decodes to. */
  const INVALID_TIMESTAMP: Timestamp := 0

  const ORIGIN: Pose3 := Pose3(0.0, 0.0, 0.0, 0.0, 0.0, 0.0)

  datatype Measurement = Measurement(sensorLocationOnRobot: Point3, sensedDistance: real, beaconID: int32)

  /** The value-initialised record that growing the record vector appends; a
      successful decode overwrites every one of them. */
  const BLANK_MEASUREMENT: Measurement := Measurement(Point3(0.0, 0.0, 0.0), 0.0, 0)

  /** The serialized state of one observation. */
  datatype BeaconRangesData = BeaconRangesData(
    minSensorDistance: real,
    maxSensorDistance: real,
    stdError: real,
    sensedData: seq<Measurement>,
    auxEstimatePose: Pose3,
    sensorLabel: string,
    timestamp: Timestamp)

  /** The record count fits the 32-bit count the writer emits. */
  predicate Encodable(d: BeaconRangesData) {
    |d.sensedData| < WORD32
  }

  // ---------------------------------------------------------------------
  // Writing

  /** One record: its location, its distance, and its ID as a 32-bit word. */
  function RecordTokens(m: Measurement): seq<Token> {
    [PointToken(m.sensorLocationOnRobot), FloatToken(m.sensedDistance), WordToken(ToUint32(m.beaconID))]
  }

  function EncodeRecords(s: seq<Measurement>): (t: seq<Token>)
    ensures |t| == 3 * |s|
  {
    if s == [] then [] else RecordTokens(s[0]) + EncodeRecords(s[1..])
  }

  /** The three scalars and the record count. */
  function HeaderTokens(minD: real, maxD: real, stdE: real, count: uint32): seq<Token> {
    [FloatToken(minD), FloatToken(maxD), FloatToken(stdE), WordToken(count)]
  }

  /** What follows the records in a version-`v` layout. */
  function TrailerTokens(v: nat, aux: Pose3, name: string, stamp: Timestamp): (t: seq<Token>)
    requires v <= CURRENT_VERSION
    ensures |t| == v
  {
    (if v >= 1 then [PoseToken(aux)] else [])
    + (if v >= 2 then [StringToken(name)] else [])
    + (if v >= 3 then [TimeToken(stamp)] else [])
  }

  /** `serializeTo`: the count is the record vector's size stored in a uint32,
      and that many records follow. */
  function Encode(d: BeaconRangesData): (t: seq<Token>)
    ensures Encodable(d) ==> |t| == 3 + 1 + 3 * |d.sensedData| + 1 + 1 + 1
    ensures Encodable(d) ==> t[3] == WordToken(|d.sensedData|)
  {
    var n := |d.sensedData| % WORD32;
    [FloatToken(d.minSensorDistance), FloatToken(d.maxSensorDistance), FloatToken(d.stdError), WordToken(n)]
    + EncodeRecords(d.sensedData[..n])
    + [PoseToken(d.auxEstimatePose), StringToken(d.sensorLabel), TimeToken(d.timestamp)]
  }

  /** The tokens a writer of version `v` emitted for `d`: the historical
      layouts the reader must still accept. */
  function Layout(v: nat, d: BeaconRangesData): (t: seq<Token>)
    requires v <= CURRENT_VERSION && Encodable(d)
    ensures |t| == 4 + 3 * |d.sensedData| + v
  {
    HeaderTokens(d.minSensorDistance, d.maxSensorDistance, d.stdError, |d.sensedData|)
    + EncodeRecords(d.sensedData)
    + TrailerTokens(v, d.auxEstimatePose, d.sensorLabel, d.timestamp)
  }

  /** The writer never downgrades: it emits the current version's layout. */
  lemma WriterUsesCurrentLayout(d: BeaconRangesData)
    requires Encodable(d)
    ensures Encode(d) == Layout(CURRENT_VERSION, d)
  {
    assert d.sensedData[..|d.sensedData|] == d.sensedData;
  }

  // ---------------------------------------------------------------------
  // Reading

  datatype Header = Header(minSensorDistance: real, maxSensorDistance: real, stdError: real, count: uint32)

  datatype Trailer = Trailer(auxEstimatePose: Pose3, sensorLabel: string, timestamp: Timestamp)

  /** The header of `serializeFrom`: three scalars and the record count. */
  function DecodeHeader(t: seq<Token>, p: nat): (r: Result<Header>)
    ensures r.Ok? ==> p + 4 <= |t|
    ensures r.Err? ==> !r.error.UnknownSerializationVersion?
  {
    var minD :- FloatAt(t, p);
    var maxD :- FloatAt(t, p + 1);
    var stdE :- FloatAt(t, p + 2);
    var n :- WordAt(t, p + 3);
    Ok(Header(minD, maxD, stdE, n))
  }

  /** One record; the ID is read as a uint32 and stored in the int32 field. */
  function DecodeRecord(t: seq<Token>, p: nat): Result<Measurement> {
    var location :- PointAt(t, p);
    var distance :- FloatAt(t, p + 1);
    var id :- WordAt(t, p + 2);
    Ok(Measurement(location, distance, ToInt32(id)))
  }

  /** The record loop of `serializeFrom`: `n` records in stream order. */
  function DecodeRecords(t: seq<Token>, p: nat, n: nat): (r: Result<seq<Measurement>>)
    ensures r.Ok? ==> |r.value| == n && (n > 0 ==> p + 3 * n <= |t|)
    decreases n
  {
    if n == 0 then Ok([])
    else
      var m :- DecodeRecord(t, p);
      var rest :- DecodeRecords(t, p + 3, n - 1);
      Ok([m] + rest)
  }

  /** The fields after the records: read when the version has them,
      defaulted otherwise (the auxiliary pose defaults to `priorAux`, the
      value the object already holds). */
  function DecodeTrailer(t: seq<Token>, q: nat, v: nat, priorAux: Pose3): (r: Result<Trailer>)
    requires v <= CURRENT_VERSION
    ensures r.Ok? && v > 0 ==> q + v <= |t|
    ensures v == 0 ==> r == Ok(Trailer(priorAux, "", INVALID_TIMESTAMP))
    ensures r.Err? ==> !r.error.UnknownSerializationVersion?
  {
    var aux :- if v >= 1 then PoseAt(t, q) else Ok(priorAux);
    var name :- if v >= 2 then StringAt(t, q + 1) else Ok("");
    var stamp :- if v >= 3 then TimeAt(t, q + 2) else Ok(INVALID_TIMESTAMP);
    Ok(Trailer(aux, name, stamp))
  }

  /** `serializeFrom` applied to an object whose state is `prior`, reading
      from position `p`: the decoded state and the new cursor, or the error. */
  function Decode(t: seq<Token>, p: nat, version: nat, prior: BeaconRangesData): (r: Result<(BeaconRangesData, nat)>)
    ensures version > CURRENT_VERSION ==> r == Err(UnknownSerializationVersion(version))
    ensures r.Ok? ==> version <= CURRENT_VERSION && r.value.1 == p + 4 + 3 * |r.value.0.sensedData| + version <= |t|
    ensures r.Ok? && version < 1 ==> r.value.0.auxEstimatePose == prior.auxEstimatePose
  {
    if version > CURRENT_VERSION then Err(UnknownSerializationVersion(version))
    else
      var h :- DecodeHeader(t, p);
      var data :- DecodeRecords(t, p + 4, h.count);
      var tr :- DecodeTrailer(t, p + 4 + 3 * h.count, version, prior.auxEstimatePose);
      Ok((BeaconRangesData(h.minSensorDistance, h.maxSensorDistance, h.stdError, data,
                           tr.auxEstimatePose, tr.sensorLabel, tr.timestamp),
          p + 4 + 3 * h.count + version))
  }

  // ---------------------------------------------------------------------
  // Slices

  lemma SliceOfSlice<T>(s: seq<T>, a: nat, b: nat, i: nat, j: nat)
    requires a <= b <= |s| && i <= j <= b - a
    ensures s[a..b][i..j] == s[a + i..a + j]
  {
    forall k | 0 <= k < j - i ensures s[a..b][i..j][k] == s[a + i..a + j][k] {
      assert s[a..b][i..j][k] == s[a..b][i + k];
    }
  }

  lemma ThreeParts<T>(x: seq<T>, y: seq<T>, z: seq<T>)
    ensures (x + y + z)[..|x|] == x
    ensures (x + y + z)[|x|..|x| + |y|] == y
    ensures (x + y + z)[|x| + |y|..] == z
  {
  }

  // ---------------------------------------------------------------------
  // Properties of the codec, stage by stage

  lemma HeaderRoundTrip(t: seq<Token>, p: nat, minD: real, maxD: real, stdE: real, count: uint32)
    requires p + 4 <= |t| && t[p..p + 4] == HeaderTokens(minD, maxD, stdE, count)
    ensures DecodeHeader(t, p) == Ok(Header(minD, maxD, stdE, count))
  {
    assert t[p] == t[p..p + 4][0] && t[p + 1] == t[p..p + 4][1];
    assert t[p + 2] == t[p..p + 4][2] && t[p + 3] == t[p..p + 4][3];
  }

  lemma DecodedHeaderIsInStream(t: seq<Token>, p: nat)
    requires DecodeHeader(t, p).Ok?
    ensures var h := DecodeHeader(t, p).value;
      p + 4 <= |t| && t[p..p + 4] == HeaderTokens(h.minSensorDistance, h.maxSensorDistance, h.stdError, h.count)
  {
  }

  lemma {:induction false} DecodeEncodedRecords(t: seq<Token>, p: nat, s: seq<Measurement>)
    requires p + 3 * |s| <= |t| && t[p..p + 3 * |s|] == EncodeRecords(s)
    ensures DecodeRecords(t, p, |s|) == Ok(s)
    decreases s
  {
    if s != [] {
      var e := EncodeRecords(s);
      assert e[0..3] == RecordTokens(s[0]);
      assert t[p] == e[0] && t[p + 1] == e[1] && t[p + 2] == e[2];
      Int32RoundTrip(s[0].beaconID);
      assert DecodeRecord(t, p) == Ok(s[0]);
      assert e == RecordTokens(s[0]) + EncodeRecords(s[1..]);
      SliceOfSlice(t, p, p + 3 * |s|, 3, 3 * |s|);
      DecodeEncodedRecords(t, p + 3, s[1..]);
      assert [s[0]] + s[1..] == s;
    }
  }

  lemma {:induction false} DecodedRecordsAreInStream(t: seq<Token>, p: nat, n: nat)
    requires p <= |t| && DecodeRecords(t, p, n).Ok?
    ensures var s := DecodeRecords(t, p, n).value;
      |s| == n && p + 3 * n <= |t| && t[p..p + 3 * n] == EncodeRecords(s)
    decreases n
  {
    if n > 0 {
      var m := DecodeRecord(t, p).value;
      DecodedRecordsAreInStream(t, p + 3, n - 1);
      var rest := DecodeRecords(t, p + 3, n - 1).value;
      var s := DecodeRecords(t, p, n).value;
      assert s == [m] + rest;
      assert s[0] == m && s[1..] == rest;
      Int32RoundTrip(m.beaconID);
      assert RecordTokens(m) == t[p..p + 3];
      assert p + 3 * n == p + 3 + 3 * (n - 1);
      assert t[p..p + 3 * n] == t[p..p + 3] + t[p + 3..p + 3 * n];
      assert EncodeRecords(s) == RecordTokens(s[0]) + EncodeRecords(s[1..]);
    }
  }

  lemma TrailerRoundTrip(t: seq<Token>, q: nat, v: nat, aux: Pose3, name: string, stamp: Timestamp, priorAux: Pose3)
    requires v <= CURRENT_VERSION
    requires q + v <= |t| && t[q..q + v] == TrailerTokens(v, aux, name, stamp)
    ensures DecodeTrailer(t, q, v, priorAux) == Ok(Trailer(
      if v >= 1 then aux else priorAux,
      if v >= 2 then name else "",
      if v >= 3 then stamp else INVALID_TIMESTAMP))
  {
    var tr := TrailerTokens(v, aux, name, stamp);
    if v >= 1 { assert t[q] == t[q..q + v][0] == tr[0]; }
    if v >= 2 { assert t[q + 1] == t[q..q + v][1] == tr[1]; }
    if v >= 3 { assert t[q + 2] == t[q..q + v][2] == tr[2]; }
  }

  lemma DecodedTrailerIsInStream(t: seq<Token>, q: nat, v: nat, priorAux: Pose3)
    requires v <= CURRENT_VERSION && q <= |t| && DecodeTrailer(t, q, v, priorAux).Ok?
    ensures var tr := DecodeTrailer(t, q, v, priorAux).value;
      q + v <= |t| && t[q..q + v] == TrailerTokens(v, tr.auxEstimatePose, tr.sensorLabel, tr.timestamp)
  {
    var tr := DecodeTrailer(t, q, v, priorAux).value;
    var l := TrailerTokens(v, tr.auxEstimatePose, tr.sensorLabel, tr.timestamp);
    if v >= 1 { assert l[0] == t[q]; }
    if v >= 2 { assert l[1] == t[q + 1]; }
    if v >= 3 { assert l[2] == t[q + 2]; }
    assert t[q..q + v] == l;
  }

  /** The three parts of a layout found at position `p` of a stream. */
  lemma LayoutParts(t: seq<Token>, p: nat, v: nat, d: BeaconRangesData)
    requires v <= CURRENT_VERSION && Encodable(d)
    requires p + |Layout(v, d)| <= |t| && t[p..p + |Layout(v, d)|] == Layout(v, d)
    ensures var n := |d.sensedData|;
      && t[p..p + 4] == HeaderTokens(d.minSensorDistance, d.maxSensorDistance, d.stdError, n)
      && t[p + 4..p + 4 + 3 * n] == EncodeRecords(d.sensedData)
      && t[p + 4 + 3 * n..p + 4 + 3 * n + v] == TrailerTokens(v, d.auxEstimatePose, d.sensorLabel, d.timestamp)
  {
    var n := |d.sensedData|;
    var head := HeaderTokens(d.minSensorDistance, d.maxSensorDistance, d.stdError, n);
    var body := EncodeRecords(d.sensedData);
    var tail := TrailerTokens(v, d.auxEstimatePose, d.sensorLabel, d.timestamp);
    var e := p + 4 + 3 * n + v;
    var l := t[p..e];
    assert l == head + body + tail;
    ThreeParts(head, body, tail);
    SliceOfSlice(t, p, e, 0, 4);
    SliceOfSlice(t, p, e, 4, 4 + 3 * n);
    SliceOfSlice(t, p, e, 4 + 3 * n, 4 + 3 * n + v);
  }

  /** Decoding a version-`v` payload restores every field that layout
      carries and fills in the defaults for the others; it consumes exactly
      the layout's tokens, whatever follows them. */
  lemma DecodeLayout(t: seq<Token>, p: nat, v: nat, d: BeaconRangesData, prior: BeaconRangesData)
    requires v <= CURRENT_VERSION && Encodable(d)
    requires p + |Layout(v, d)| <= |t| && t[p..p + |Layout(v, d)|] == Layout(v, d)
    ensures Decode(t, p, v, prior).Ok?
    ensures var (r, q) := Decode(t, p, v, prior).value;
      && q == p + 4 + 3 * |d.sensedData| + v
      && r.minSensorDistance == d.minSensorDistance
      && r.maxSensorDistance == d.maxSensorDistance
      && r.stdError == d.stdError
      && r.sensedData == d.sensedData
      && r.auxEstimatePose == (if v >= 1 then d.auxEstimatePose else prior.auxEstimatePose)
      && r.sensorLabel == (if v >= 2 then d.sensorLabel else "")
      && r.timestamp == (if v >= 3 then d.timestamp else INVALID_TIMESTAMP)
  {
    var n := |d.sensedData|;
    LayoutParts(t, p, v, d);
    HeaderRoundTrip(t, p, d.minSensorDistance, d.maxSensorDistance, d.stdError, n);
    DecodeEncodedRecords(t, p + 4, d.sensedData);
    TrailerRoundTrip(t, p + 4 + 3 * n, v, d.auxEstimatePose, d.sensorLabel, d.timestamp, prior.auxEstimatePose);
  }

  /** Round trip: what `serializeTo` writes, `serializeFrom` at the current
      version reads back field for field, leaving the cursor just past it. */
  lemma RoundTrip(t: seq<Token>, p: nat, d: BeaconRangesData, prior: BeaconRangesData)
    requires Encodable(d)
    requires p + |Encode(d)| <= |t| && t[p..p + |Encode(d)|] == Encode(d)
    ensures Decode(t, p, CURRENT_VERSION, prior) == Ok((d, p + |Encode(d)|))
  {
    WriterUsesCurrentLayout(d);
    DecodeLayout(t, p, CURRENT_VERSION, d, prior);
  }

  /** The converse of `DecodeLayout`: a successful decode at version `v`
      consumed exactly the version-`v` layout of what it returned, so the
      record count is the one read from the stream and the records appear
      in stream order. */
  lemma DecodedIsLayout(t: seq<Token>, p: nat, v: nat, prior: BeaconRangesData)
    requires Decode(t, p, v, prior).Ok?
    ensures v <= CURRENT_VERSION
    ensures var (r, q) := Decode(t, p, v, prior).value;
      && Encodable(r)
      && q == p + |Layout(v, r)| && q <= |t|
      && t[p..q] == Layout(v, r)
  {
    var h := DecodeHeader(t, p).value;
    var n: nat := h.count;
    DecodedHeaderIsInStream(t, p);
    DecodedRecordsAreInStream(t, p + 4, n);
    DecodedTrailerIsInStream(t, p + 4 + 3 * n, v, prior.auxEstimatePose);
    var (r, q) := Decode(t, p, v, prior).value;
    assert t[p..q] == t[p..p + 4] + t[p + 4..p + 4 + 3 * n] + t[p + 4 + 3 * n..q];
  }

  lemma {:induction false} RecordErrorsAreReadErrors(t: seq<Token>, p: nat, n: nat)
    requires DecodeRecords(t, p, n).Err?
    ensures !DecodeRecords(t, p, n).error.UnknownSerializationVersion?
    decreases n
  {
    if n > 0 && DecodeRecord(t, p).Ok? {
      RecordErrorsAreReadErrors(t, p + 3, n - 1);
    }
  }

  /** Versions 0 to 3 are dispatched; exactly the others fail with the
      unknown-serialization-version error. */
  lemma VersionDispatch(t: seq<Token>, p: nat, v: nat, prior: BeaconRangesData)
    ensures Decode(t, p, v, prior) == Err(UnknownSerializationVersion(v)) <==> v > CURRENT_VERSION
  {
    if v <= CURRENT_VERSION && DecodeHeader(t, p).Ok? {
      var n: nat := DecodeHeader(t, p).value.count;
      if DecodeRecords(t, p + 4, n).Err? {
        RecordErrorsAreReadErrors(t, p + 4, n);
      }
    }
  }

  lemma {:induction false} TruncatedRecordsFail(t: seq<Token>, p: nat, s: seq<Measurement>)
    requires p <= |t| < p + 3 * |s|
    requires t[p..] == EncodeRecords(s)[..|t| - p]
    ensures DecodeRecords(t, p, |s|).Err? && DecodeRecords(t, p, |s|).error.EndOfStream?
    decreases s
  {
    var e := EncodeRecords(s);
    assert e[0..3] == RecordTokens(s[0]);
    forall k | p <= k < |t| && k < p + 3 ensures t[k] == e[k - p] {
      assert t[k] == t[p..][k - p];
    }
    if |t| >= p + 3 {
      assert DecodeRecord(t, p).Ok?;
      assert e == RecordTokens(s[0]) + EncodeRecords(s[1..]);
      assert t[p + 3..] == EncodeRecords(s[1..])[..|t| - (p + 3)] by {
        assert t[p + 3..] == t[p..][3..];
      }
      TruncatedRecordsFail(t, p + 3, s[1..]);
    }
  }

  /** A stream cut anywhere inside a layout never decodes: the reader runs
      off the end of the stream. */
  lemma TruncatedLayoutFails(d: BeaconRangesData, v: nat, k: nat, prior: BeaconRangesData)
    requires v <= CURRENT_VERSION && Encodable(d)
    requires k < |Layout(v, d)|
    ensures Decode(Layout(v, d)[..k], 0, v, prior).Err?
    ensures Decode(Layout(v, d)[..k], 0, v, prior).error.EndOfStream?
  {
    var l := Layout(v, d);
    var t := l[..k];
    var n := |d.sensedData|;
    var head := HeaderTokens(d.minSensorDistance, d.maxSensorDistance, d.stdError, n);
    var body := EncodeRecords(d.sensedData);
    var tail := TrailerTokens(v, d.auxEstimatePose, d.sensorLabel, d.timestamp);
    ThreeParts(head, body, tail);
    forall i | 0 <= i < k ensures t[i] == l[i] { }
    if k >= 4 {
      assert t[0..4] == head;
      HeaderRoundTrip(t, 0, d.minSensorDistance, d.maxSensorDistance, d.stdError, n);
      if k >= 4 + 3 * n {
        assert t[4..4 + 3 * n] == body;
        DecodeEncodedRecords(t, 4, d.sensedData);
        var q := 4 + 3 * n;
        assert t[q..] == tail[..k - q];
      } else {
        assert t[4..] == body[..k - 4];
        TruncatedRecordsFail(t, 4, d.sensedData);
      }
    }
  }

  // ---------------------------------------------------------------------
  // Sensor pose and range queries

  /** The translation of a pose as a point. */
  function TranslationOf(pose: Pose3): Point3 {
    Point3(pose.x, pose.y, pose.z)
  }

  /** `getSensorPose`: the location of the first record as a pose without
      rotation, or the origin when there are no records. */
  function SensorPose(sensedData: seq<Measurement>): (pose: Pose3)
    ensures pose.yaw == 0.0 && pose.pitch == 0.0 && pose.roll == 0.0
    ensures sensedData != [] ==> TranslationOf(pose) == sensedData[0].sensorLocationOnRobot
    ensures sensedData == [] ==> pose == ORIGIN
  {
    if sensedData != [] then
      var l := sensedData[0].sensorLocationOnRobot;
      Pose3(l.x, l.y, l.z, 0.0, 0.0, 0.0)
    else ORIGIN
  }

  /** Every record located at `location`, nothing else changed. */
  function WithSensorLocation(s: seq<Measurement>, location: Point3): (r: seq<Measurement>)
    ensures |r| == |s|
    ensures forall k :: 0 <= k < |s| ==>
      && r[k].sensorLocationOnRobot == location
      && r[k].sensedDistance == s[k].sensedDistance
      && r[k].beaconID == s[k].beaconID
  {
    seq(|s|, k requires 0 <= k < |s| => s[k].(sensorLocationOnRobot := location))
  }

  /** Reading the sensor pose back after setting it gives the translation
      that was set, without rotation; with no records it stays the origin. */
  lemma SensorPoseAfterSet(s: seq<Measurement>, pose: Pose3)
    ensures SensorPose(WithSensorLocation(s, TranslationOf(pose))) ==
      if s == [] then ORIGIN else pose.(yaw := 0.0, pitch := 0.0, roll := 0.0)
  {
  }

  /** The record vector after `resize(n)`. */
  function Resize(s: seq<Measurement>, n: nat): (r: seq<Measurement>)
    ensures |r| == n
    ensures forall k :: 0 <= k < n && k < |s| ==> r[k] == s[k]
  {
    if n <= |s| then s[..n] else s + seq(n - |s|, _ => BLANK_MEASUREMENT)
  }

  /** Prepends the records decoded so far to the result of decoding the rest. */
  function Prepend(done: seq<Measurement>, r: Result<seq<Measurement>>): Result<seq<Measurement>> {
    match r
    case Ok(rest) => Ok(done + rest)
    case Err(e) => Err(e)
  }

  lemma PrependNothing(r: Result<seq<Measurement>>)
    ensures Prepend([], r) == r
  {
    match r
    case Ok(rest) => assert [] + rest == rest;
    case Err(_) =>
  }

  lemma PrependTwice(a: seq<Measurement>, b: seq<Measurement>, r: Result<seq<Measurement>>)
    ensures Prepend(a, Prepend(b, r)) == Prepend(a + b, r)
  {
    match r
    case Ok(rest) => assert a + (b + rest) == a + b + rest;
    case Err(_) =>
  }

  // ---------------------------------------------------------------------
  // The observation object

  class BeaconRangesObservation {
    var minSensorDistance: real
    var maxSensorDistance: real
    var stdError: real
    var sensedData: seq<Measurement>
    var auxEstimatePose: Pose3
    var sensorLabel: string
    var timestamp: Timestamp

    function Data(): BeaconRangesData
      reads this
    {
      BeaconRangesData(minSensorDistance, maxSensorDistance, stdError, sensedData, auxEstimatePose, sensorLabel, timestamp)
    }

    /** The header part of `serializeFrom`: the three scalars, then the
        record count, which resizes the record vector. */
    method ReadHeader(arch: InArchive) returns (r: Result<uint32>)
      modifies this`minSensorDistance, this`maxSensorDistance, this`stdError, this`sensedData, arch
      ensures match DecodeHeader(arch.tokens, old(arch.pos))
        case Ok(h) =>
          && r == Ok(h.count)
          && minSensorDistance == h.minSensorDistance
          && maxSensorDistance == h.maxSensorDistance
          && stdError == h.stdError
          && |sensedData| == h.count
          && arch.pos == old(arch.pos) + 4
        case Err(e) => r == Err(e)
    {
      var f := arch.ReadFloat();
      if f.Err? { return Err(f.error); }
      minSensorDistance := f.value;
      f := arch.ReadFloat();
      if f.Err? { return Err(f.error); }
      maxSensorDistance := f.value;
      f := arch.ReadFloat();
      if f.Err? { return Err(f.error); }
      stdError := f.value;
      var w := arch.ReadWord();
      if w.Err? { return Err(w.error); }
      sensedData := Resize(sensedData, w.value);
      return Ok(w.value);
    }

    /** The record loop of `serializeFrom`: overwrites the `n` records of
        the vector in stream order, storing each field of a record as soon
        as it is read. */
    method ReadRecords(arch: InArchive, n: uint32) returns (r: Result<()>)
      requires |sensedData| == n
      modifies this`sensedData, arch
      ensures match DecodeRecords(arch.tokens, old(arch.pos), n)
        case Ok(s) => r.Ok? && sensedData == s && arch.pos == old(arch.pos) + 3 * n
        case Err(e) => r == Err(e)
    {
      ghost var t := arch.tokens;
      ghost var p0 := arch.pos;
      var i: nat := 0;
      assert sensedData[..0] == [];
      PrependNothing(DecodeRecords(t, p0, n));
      while i < n
        invariant i <= n && |sensedData| == n
        invariant arch.tokens == t && arch.pos == p0 + 3 * i
        invariant DecodeRecords(t, p0, n) == Prepend(sensedData[..i], DecodeRecords(t, arch.pos, n - i))
      {
        ghost var before := sensedData[..i];
        ghost var p := arch.pos;
        var location := arch.ReadPoint();
        if location.Err? { return Err(location.error); }
        sensedData := sensedData[i := sensedData[i].(sensorLocationOnRobot := location.value)];
        var distance := arch.ReadFloat();
        if distance.Err? { return Err(distance.error); }
        sensedData := sensedData[i := sensedData[i].(sensedDistance := distance.value)];
        var id := arch.ReadWord();
        if id.Err? { return Err(id.error); }
        sensedData := sensedData[i := sensedData[i].(beaconID := ToInt32(id.value))];
        var m := Measurement(location.value, distance.value, ToInt32(id.value));
        assert DecodeRecord(t, p) == Ok(m);
        assert DecodeRecords(t, p, n - i) == Prepend([m], DecodeRecords(t, p + 3, n - (i + 1)));
        PrependTwice(before, [m], DecodeRecords(t, p + 3, n - (i + 1)));
        assert sensedData[..i + 1] == before + [m];
        i := i + 1;
      }
      assert sensedData[..n] + [] == sensedData;
      return Ok(());
    }

    /** The version-dependent tail of `serializeFrom`. */
    method ReadTrailer(arch: InArchive, version: nat) returns (r: Result<()>)
      requires version <= CURRENT_VERSION
      modifies this`auxEstimatePose, this`sensorLabel, this`timestamp, arch
      ensures match DecodeTrailer(arch.tokens, old(arch.pos), version, old(auxEstimatePose))
        case Ok(tr) =>
          && r.Ok?
          && auxEstimatePose == tr.auxEstimatePose
          && sensorLabel == tr.sensorLabel
          && timestamp == tr.timestamp
          && arch.pos == old(arch.pos) + version
        case Err(e) => r == Err(e)
    {
      if version >= 1 {
        var a := arch.ReadPose();
        if a.Err? { return Err(a.error); }
        auxEstimatePose := a.value;
      }
      if version >= 2 {
        var s := arch.ReadString();
        if s.Err? { return Err(s.error); }
        sensorLabel := s.value;
      } else {
        sensorLabel := "";
      }
      if version >= 3 {
        var s := arch.ReadTime();
        if s.Err? { return Err(s.error); }
        timestamp := s.value;
      } else {
        timestamp := INVALID_TIMESTAMP;
      }
      return Ok(());
    }

    /** `serializeFrom`: reads the fields of layout `version` from the
        archive into this object. On success the object and the cursor are
        what `Decode` says; on failure the error is the one `Decode` gives.
        The fields stored before a failed read keep the values read; this
        contract does not state them. */
    method SerializeFrom(arch: InArchive, version: uint8) returns (r: Result<()>)
      modifies this, arch
      ensures match Decode(arch.tokens, old(arch.pos), version, old(Data()))
        case Ok((d, q)) => r.Ok? && Data() == d && arch.pos == q
        case Err(e) => r == Err(e)
    {
      if version > CURRENT_VERSION {
        return Err(UnknownSerializationVersion(version));
      }
      var count := ReadHeader(arch);
      if count.Err? { return Err(count.error); }
      r := ReadRecords(arch, count.value);
      if r.Err? { return; }
      r := ReadTrailer(arch, version);
    }

    /** `setSensorPose`: every record's location becomes the pose's translation. */
    method SetSensorPose(newSensorPose: Pose3)
      modifies this`sensedData
      ensures sensedData == WithSensorLocation(old(sensedData), TranslationOf(newSensorPose))
    {
      var location := TranslationOf(newSensorPose);
      var n := |sensedData|;
      if n > 0 {
        var i := 0;
        while i < n
          invariant 0 <= i <= n && |sensedData| == n
          invariant forall k :: 0 <= k < i ==> sensedData[k] == old(sensedData[k]).(sensorLocationOnRobot := location)
          invariant forall k :: i <= k < n ==> sensedData[k] == old(sensedData[k])
        {
          sensedData := sensedData[i := sensedData[i].(sensorLocationOnRobot := location)];
          i := i + 1;
        }
      }
    }

    /** `getSensedRangeByBeaconID`: the distance of the first record with
        that ID, or 0 when no record has it. */
    method GetSensedRangeByBeaconID(beaconID: int32) returns (range: real)
      ensures forall k ::
        (&& 0 <= k < |sensedData|
         && sensedData[k].beaconID == beaconID
         && (forall j :: 0 <= j < k ==> sensedData[j].beaconID != beaconID))
        ==> range == sensedData[k].sensedDistance
      ensures (forall k :: 0 <= k < |sensedData| ==> sensedData[k].beaconID != beaconID) ==> range == 0.0
    {
      var i := 0;
      while i < |sensedData|
        invariant 0 <= i <= |sensedData|
        invariant forall j :: 0 <= j < i ==> sensedData[j].beaconID != beaconID
      {
        if sensedData[i].beaconID == beaconID {
          return sensedData[i].sensedDistance;
        }
        i := i + 1;
      }
      return 0.0;
    }
  }
}
