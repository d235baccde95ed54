/**
  An abstract model of the serialization archive.

  The archive's byte-level encoding of primitive values is not part of this
  model. An archive is a sequence of typed tokens, one per primitive value
  written by `operator<<`, and an input archive reads them back in order with
  a cursor. Reading past the end, or reading a token of another kind than the
  one asked for, is a format error.
*/
module Archive {

  /** Fixed-width integer ranges. */
  const WORD32: nat := 0x1_0000_0000
  const INT32_MIN: int := -0x8000_0000
  const INT32_LIMIT: int := 0x8000_0000

  type uint8 = x: nat | x < 0x100
  type uint32 = x: nat | x < WORD32
  type int32 = x: int | INT32_MIN <= x < INT32_LIMIT

  /** Two's complement reinterpretation between the signed and unsigned 32-bit words. */
  function ToUint32(x: int32): (w: uint32)
    ensures x >= 0 ==> w == x
    ensures x < 0 ==> w == x + WORD32
  {
    if x >= 0 then x else x + WORD32
  }

  function ToInt32(w: uint32): (x: int32)
    ensures x == w || x == w - WORD32
  {
    if w < INT32_LIMIT then w else w - WORD32
  }

  lemma Int32RoundTrip(x: int32)
    ensures ToInt32(ToUint32(x)) == x
  {
  }

  /** A 3D point (CPoint3D) and a 3D pose (CPose3D: translation plus yaw, pitch, roll). */
  datatype Point3 = Point3(x: real, y: real, z: real)
  datatype Pose3 = Pose3(x: real, y: real, z: real, yaw: real, pitch: real, roll: real)

  /** Timestamps are ticks of the system clock. */
  type Timestamp = int

  /** One primitive value in the archive. Signed and unsigned 32-bit integers
      share one kind: both are a 4-byte word on the wire. */
  datatype Token =
    | FloatToken(f: real)
    | WordToken(w: uint32)
    | PointToken(point: Point3)
    | PoseToken(pose: Pose3)
    | StringToken(s: string)
    | TimeToken(t: Timestamp)

  datatype Error =
    | EndOfStream(at: nat)
    | WrongKind(at: nat)
    | UnknownSerializationVersion(version: nat)

  datatype Result<T> = Ok(value: T) | Err(error: Error) {
    predicate IsFailure() {
      Err?
    }

    function PropagateFailure<U>(): Result<U>
      requires Err?
    {
      Err(error)
    }

    function Extract(): T
      requires Ok?
    {
      value
    }
  }

  /** The token of each kind at position `p`, or the error reading it raises. */

  function FloatAt(t: seq<Token>, p: nat): (r: Result<real>)
    ensures r.Ok? <==> p < |t| && t[p].FloatToken?
    ensures r.Ok? ==> t[p] == FloatToken(r.value)
    ensures r.Err? ==> r.error == (if p < |t| then WrongKind(p) else EndOfStream(p))
  {
    if p >= |t| then Err(EndOfStream(p))
    else if t[p].FloatToken? then Ok(t[p].f)
    else Err(WrongKind(p))
  }

  function WordAt(t: seq<Token>, p: nat): (r: Result<uint32>)
    ensures r.Ok? <==> p < |t| && t[p].WordToken?
    ensures r.Ok? ==> t[p] == WordToken(r.value)
    ensures r.Err? ==> r.error == (if p < |t| then WrongKind(p) else EndOfStream(p))
  {
    if p >= |t| then Err(EndOfStream(p))
    else if t[p].WordToken? then Ok(t[p].w)
    else Err(WrongKind(p))
  }

  function PointAt(t: seq<Token>, p: nat): (r: Result<Point3>)
    ensures r.Ok? <==> p < |t| && t[p].PointToken?
    ensures r.Ok? ==> t[p] == PointToken(r.value)
    ensures r.Err? ==> r.error == (if p < |t| then WrongKind(p) else EndOfStream(p))
  {
    if p >= |t| then Err(EndOfStream(p))
    else if t[p].PointToken? then Ok(t[p].point)
    else Err(WrongKind(p))
  }

  function PoseAt(t: seq<Token>, p: nat): (r: Result<Pose3>)
    ensures r.Ok? <==> p < |t| && t[p].PoseToken?
    ensures r.Ok? ==> t[p] == PoseToken(r.value)
    ensures r.Err? ==> r.error == (if p < |t| then WrongKind(p) else EndOfStream(p))
  {
    if p >= |t| then Err(EndOfStream(p))
    else if t[p].PoseToken? then Ok(t[p].pose)
    else Err(WrongKind(p))
  }

  function StringAt(t: seq<Token>, p: nat): (r: Result<string>)
    ensures r.Ok? <==> p < |t| && t[p].StringToken?
    ensures r.Ok? ==> t[p] == StringToken(r.value)
    ensures r.Err? ==> r.error == (if p < |t| then WrongKind(p) else EndOfStream(p))
  {
    if p >= |t| then Err(EndOfStream(p))
    else if t[p].StringToken? then Ok(t[p].s)
    else Err(WrongKind(p))
  }

  function TimeAt(t: seq<Token>, p: nat): (r: Result<Timestamp>)
    ensures r.Ok? <==> p < |t| && t[p].TimeToken?
    ensures r.Ok? ==> t[p] == TimeToken(r.value)
    ensures r.Err? ==> r.error == (if p < |t| then WrongKind(p) else EndOfStream(p))
  {
    if p >= |t| then Err(EndOfStream(p))
    else if t[p].TimeToken? then Ok(t[p].t)
    else Err(WrongKind(p))
  }

  /** An input archive: the tokens of the stream and a read cursor that only moves forward. */
  class InArchive {
    const tokens: seq<Token>
    var pos: nat

    constructor (tokens: seq<Token>)
      ensures this.tokens == tokens && pos == 0
    {
      this.tokens := tokens;
      pos := 0;
    }

    method ReadFloat() returns (r: Result<real>)
      modifies this
      ensures r == FloatAt(tokens, old(pos))
      ensures pos == if r.Ok? then old(pos) + 1 else old(pos)
    {
      r := FloatAt(tokens, pos);
      if r.Ok? { pos := pos + 1; }
    }

    method ReadWord() returns (r: Result<uint32>)
      modifies this
      ensures r == WordAt(tokens, old(pos))
      ensures pos == if r.Ok? then old(pos) + 1 else old(pos)
    {
      r := WordAt(tokens, pos);
      if r.Ok? { pos := pos + 1; }
    }

    method ReadPoint() returns (r: Result<Point3>)
      modifies this
      ensures r == PointAt(tokens, old(pos))
      ensures pos == if r.Ok? then old(pos) + 1 else old(pos)
    {
      r := PointAt(tokens, pos);
      if r.Ok? { pos := pos + 1; }
    }

    method ReadPose() returns (r: Result<Pose3>)
      modifies this
      ensures r == PoseAt(tokens, old(pos))
      ensures pos == if r.Ok? then old(pos) + 1 else old(pos)
    {
      r := PoseAt(tokens, pos);
      if r.Ok? { pos := pos + 1; }
    }

    method ReadString() returns (r: Result<string>)
      modifies this
      ensures r == StringAt(tokens, old(pos))
      ensures pos == if r.Ok? then old(pos) + 1 else old(pos)
    {
      r := StringAt(tokens, pos);
      if r.Ok? { pos := pos + 1; }
    }

    method ReadTime() returns (r: Result<Timestamp>)
      modifies this
      ensures r == TimeAt(tokens, old(pos))
      ensures pos == if r.Ok? then old(pos) + 1 else old(pos)
    {
      r := TimeAt(tokens, pos);
      if r.Ok? { pos := pos + 1; }
    }
  }
}
