# Beacon range observations and GPS export tables (MRPT)

This project is a Dafny model of two parts of the Mobile Robot Programming Toolkit.

**The beacon range observation, `CObservationBeaconRanges`.** An observation holds:

- the minimum and maximum sensor distance;
- the standard error of the ranges;
- one record per sensed beacon: the sensor's location on the robot, the sensed distance, and the beacon's 32-bit ID;
- an auxiliary pose estimate;
- the sensor label;
- the timestamp.

Its versioned serialization writes the current layout, version 3. It reads every layout from version 0 to 3:

- version 0 ends after the records;
- version 1 adds the auxiliary pose;
- version 2 adds the label;
- version 3 adds the timestamp.

A field that a layout lacks gets a default. The label becomes empty, the timestamp becomes invalid, and the auxiliary pose keeps its previous value. Any other version is an error.

The archive is modelled as a sequence of typed tokens with a read cursor (`archive.dfy`). There is one token per value written with `<<`.

**The GPS export operations of `rawlog-edit`.**

- **KML export.** It keeps, per sensor label, the path of GGA fixes indexed by timestamp. It later scans each path for an RTK fix, which has fix quality 4.
- **TXT export.** It keeps:
  - a table from timestamp to sensor label to local ENU coordinates for every GGA fix;
  - a second such table for RTK fixes only;
  - the set of labels behind each table;
  - the reference coordinate of the local frame, which is the first GGA fix whose coordinates are not all zero;
  - a count of saved fixes.

  On destruction, for each table with a non-empty label set, the TXT export:
  1. keeps only the timestamps every sensor reported;
  2. lays them out as a matrix with one row per timestamp and 1 + 3·N columns;
  3. names the joint file after the concatenated labels.

  `std::map` and `std::set` iteration order is modelled by `Ordering.SortedSeq`, the increasing enumeration of a finite set under a total order. `std::string` comparison is `Ordering.LexLe`.

Files:

- `archive.dfy`: module `Archive`. Tokens, 32-bit integer types, the `Result` type, and the input archive class.
- `ordering.dfy`: module `Ordering`. Total orders, string order, and sorted enumeration of a set.
- `beacon_ranges.dfy`: module `BeaconRanges`. The observation, its writer, its reader, and their properties.
- `gps_export.dfy`: module `GpsExport`. The KML and TXT export processors and the joint-file construction.

## Model

| member | source | states |
|---|---|---|
| Archive.ToInt32 | libs/obs/src/CObservationBeaconRanges.cpp:66-67 | The unsigned 32-bit ID read back is stored in the signed field: the result equals the word or the word minus 2^32 |
| Archive.ToUint32 | libs/obs/src/CObservationBeaconRanges.cpp:40 | The signed ID written as a 32-bit word: non-negative IDs unchanged, negative IDs plus 2^32 |
| Archive.Int32RoundTrip | libs/obs/src/CObservationBeaconRanges.cpp:40-67 | Writing a signed ID as a 32-bit word and storing the word read back in the signed field gives the original ID |
| BeaconRanges.Encode | libs/obs/src/CObservationBeaconRanges.cpp:30-43 | When the record count fits 32 bits, the writer emits 3 + 1 + 3·n + 1 + 1 + 1 tokens, and the fourth is the count n |
| BeaconRanges.EncodeRecords | libs/obs/src/CObservationBeaconRanges.cpp:38-40 | The record loop of the writer emits exactly three tokens per record |
| BeaconRanges.Layout | libs/obs/src/CObservationBeaconRanges.cpp:58-78 | The stream a version-v writer produced, for v ≤ 3: header, records, then the v trailer fields, 4 + 3·n + v tokens in all |
| BeaconRanges.DecodeHeader | libs/obs/src/CObservationBeaconRanges.cpp:58-60 | A successful header read had the three scalars and the count in the stream; a failure is a read error, never the version error |
| BeaconRanges.DecodeRecords | libs/obs/src/CObservationBeaconRanges.cpp:62-68 | A successful read of n records yields exactly n records, and the stream held their 3·n tokens |
| BeaconRanges.DecodeTrailer | libs/obs/src/CObservationBeaconRanges.cpp:70-78 | A version-0 trailer reads nothing and gives the prior pose, the empty label and the invalid timestamp; a successful read of a later version had its v tokens in the stream; a failure is a read error |
| BeaconRanges.Decode | libs/obs/src/CObservationBeaconRanges.cpp:45-83 | A version above 3 fails with the unknown-serialization-version error. A success has a version of at most 3 and moves the cursor by exactly 4 + 3·n + v within the stream. A version-0 read keeps the prior auxiliary pose |
| BeaconRanges.WriterUsesCurrentLayout | libs/obs/src/CObservationBeaconRanges.cpp:29-43 | The writer emits exactly the layout of the version `serializeGetVersion` reports, version 3 (`CURRENT_VERSION`): header, records in order, then pose, label and timestamp |
| BeaconRanges.HeaderRoundTrip | libs/obs/src/CObservationBeaconRanges.cpp:35-37 | Reading the three scalars and the count from their written tokens restores them |
| BeaconRanges.DecodeEncodedRecords | libs/obs/src/CObservationBeaconRanges.cpp:38-40 | Reading n records from the tokens written for them restores every record, in order, including negative IDs |
| BeaconRanges.DecodedRecordsAreInStream | libs/obs/src/CObservationBeaconRanges.cpp:60-68 | A successful record read returns exactly the count read from the stream, and the stream holds those records' tokens in order |
| BeaconRanges.TrailerRoundTrip | libs/obs/src/CObservationBeaconRanges.cpp:70-78 | For version v, the pose is read when v ≥ 1 and kept otherwise; the label is read when v ≥ 2 and empty otherwise; the timestamp is read when v ≥ 3 and invalid otherwise |
| BeaconRanges.DecodedTrailerIsInStream | libs/obs/src/CObservationBeaconRanges.cpp:70-78 | A successful trailer read consumed exactly the v tokens of the version-v trailer |
| BeaconRanges.DecodeLayout | libs/obs/src/CObservationBeaconRanges.cpp:45-83 | Decoding a version-v layout (v ≤ 3) succeeds. It restores the scalars and every record in order, gives the version's defaults for the fields it lacks, and moves the cursor by exactly 4 + 3·n + v, whatever follows |
| BeaconRanges.RoundTrip | libs/obs/src/CObservationBeaconRanges.cpp:29-80 | Decoding the writer's output at the current version restores every field and leaves the cursor just past it |
| BeaconRanges.DecodedIsLayout | libs/obs/src/CObservationBeaconRanges.cpp:55-79 | Any successful decode at version v consumed exactly the version-v layout of the value it returned (the converse of DecodeLayout) |
| BeaconRanges.VersionDispatch | libs/obs/src/CObservationBeaconRanges.cpp:48-82 | Decoding fails with the unknown-serialization-version error if and only if the version is above 3 |
| BeaconRanges.TruncatedRecordsFail | libs/obs/src/CObservationBeaconRanges.cpp:62-68 | A record sequence cut short fails with an end-of-stream error |
| BeaconRanges.TruncatedLayoutFails | libs/obs/src/CObservationBeaconRanges.cpp:55-79 | A layout cut at any point before its end fails with an end-of-stream error |
| BeaconRanges.Resize | libs/obs/src/CObservationBeaconRanges.cpp:61 | `resize(n)` gives exactly n records and keeps the existing ones below n |
| BeaconRanges.BeaconRangesObservation.ReadHeader | libs/obs/src/CObservationBeaconRanges.cpp:58-61 | Reads the three scalars and the count into the object and resizes the records to the count, or returns the read error |
| BeaconRanges.BeaconRangesObservation.ReadRecords | libs/obs/src/CObservationBeaconRanges.cpp:62-68 | The loop stores each field of a record as it is read, fills the records with the decoded sequence and advances the cursor by 3·n, or returns the first read error |
| BeaconRanges.BeaconRangesObservation.ReadTrailer | libs/obs/src/CObservationBeaconRanges.cpp:70-78 | Sets pose, label and timestamp as the version-v trailer decode says, or returns the read error |
| BeaconRanges.BeaconRangesObservation.SerializeFrom | libs/obs/src/CObservationBeaconRanges.cpp:45-83 | On success the object's state and the cursor are exactly the decode of the stream at that version; on failure the error is the decode's error |
| BeaconRanges.SensorPose | libs/obs/src/CObservationBeaconRanges.cpp:110-116 | The sensor pose has no rotation. Its translation is record 0's location, or the pose is the origin when there are no records |
| BeaconRanges.WithSensorLocation | libs/obs/src/CObservationBeaconRanges.cpp:121-127 | Every record gets the same location; the count, distances and IDs are unchanged |
| BeaconRanges.SensorPoseAfterSet | libs/obs/src/CObservationBeaconRanges.cpp:110-127 | Reading the pose back after setting it gives the set translation without rotation, or the origin when there are no records |
| BeaconRanges.BeaconRangesObservation.SetSensorPose | libs/obs/src/CObservationBeaconRanges.cpp:121-127 | The in-place loop leaves the records equal to WithSensorLocation of the old records and the new pose's translation |
| BeaconRanges.BeaconRangesObservation.GetSensedRangeByBeaconID | libs/obs/src/CObservationBeaconRanges.cpp:132-137 | Returns the distance of the first record with the ID, or 0 when none has it; the records are not modified |
| Ordering.LexLeIsTotalOrder | apps/rawlog-edit/rawlog-edit_gps.cpp:320-334 | The string order of the label sets is a total order (reflexive, antisymmetric, transitive, total) |
| Ordering.LexLe | apps/rawlog-edit/rawlog-edit_gps.cpp:330-334 | The `std::string` comparison that orders the label sets: a prefix of a string never comes after it |
| Ordering.SortedSeq | apps/rawlog-edit/rawlog-edit_gps.cpp:315-334 | The iteration order of a sorted container lists each element exactly once, in strictly increasing order |
| Ordering.Enumerate | apps/rawlog-edit/rawlog-edit_gps.cpp:315-321 | Repeatedly taking the least remaining element yields exactly the sorted iteration order |
| Ordering.SortedUnique | apps/rawlog-edit/rawlog-edit_gps.cpp:315-334 | Two strictly sorted sequences with the same elements are equal, so the iteration order is determined by the contents |
| GpsExport.SetNested | apps/rawlog-edit/rawlog-edit_gps.cpp:71-78 | `m[a][b] = v` creates the inner map if missing and sets that cell, leaving every other cell unchanged |
| GpsExport.LastWriteWins | apps/rawlog-edit/rawlog-edit_gps.cpp:71-78 | A second datum for the same label and timestamp overwrites the first: the last one wins |
| GpsExport.DistinctWritesCommute | apps/rawlog-edit/rawlog-edit_gps.cpp:524-532 | Data for different cells give the same table in either arrival order |
| GpsExport.ExportGpsKml.constructor | apps/rawlog-edit/rawlog-edit_gps.cpp:52-58 | The KML processor starts with no paths |
| GpsExport.ExportGpsKml.ProcessOneObservation | apps/rawlog-edit/rawlog-edit_gps.cpp:61-81 | Non-GPS observations and GPS observations without a GGA datum leave the paths unchanged. A GGA datum sets its label-and-timestamp cell. The call always returns true |
| GpsExport.HasSomeRtk | apps/rawlog-edit/rawlog-edit_gps.cpp:153-176 | The scan ends true if and only if some point of the path has fix quality 4 |
| GpsExport.SetNestedKeepsWithin | apps/rawlog-edit/rawlog-edit_gps.cpp:523-532 | Inserting a label into the label set together with its cell keeps every table label inside the label set |
| GpsExport.SetNestedKeepsCells | apps/rawlog-edit/rawlog-edit_gps.cpp:520-533 | Every cell of the RTK table remains a cell of the table of all fixes |
| GpsExport.NextRef | apps/rawlog-edit/rawlog-edit_gps.cpp:440-449 | A reference coordinate that is already set, or an observation without a GGA datum, leaves the reference unchanged |
| GpsExport.FirstFix | apps/rawlog-edit/rawlog-edit_gps.cpp:440-442 | The first GGA fix whose coordinates are not all zero, which is never a clear coordinate |
| GpsExport.RefStable | apps/rawlog-edit/rawlog-edit_gps.cpp:440-449 | Once the reference coordinate is set, no later observation changes it |
| GpsExport.RefIsFirstFix | apps/rawlog-edit/rawlog-edit_gps.cpp:440-449 | Starting clear, the reference after any observation sequence is the first non-zero GGA fix, or stays clear |
| GpsExport.ExportGpsTxt.constructor | apps/rawlog-edit/rawlog-edit_gps.cpp:371-380 | The processor starts with empty tables and label sets, a clear reference, no open files, a zero counter and the invariant |
| GpsExport.ExportGpsTxt.ProcessOneObservation | apps/rawlog-edit/rawlog-edit_gps.cpp:383-536 | Each GPS observation opens its label's file. For each GGA datum, the call sets the reference if it is still clear, adds exactly 1 to the counter, and writes the local point into the table of all fixes, and into the RTK table if and only if the fix quality is 4. Otherwise the tables and counter are unchanged. The call always returns true and keeps the invariant |
| GpsExport.SubsetOfSameSize | apps/rawlog-edit/rawlog-edit_gps.cpp:299 | A subset with the same number of elements as its superset is that superset |
| GpsExport.Complete | apps/rawlog-edit/rawlog-edit_gps.cpp:297-308 | A timestamp is kept if and only if its row has as many labels as the label set, and its row is kept unchanged |
| GpsExport.CompleteRowsHaveAllLabels | apps/rawlog-edit/rawlog-edit_gps.cpp:297-308 | Under the table invariant, the size filter keeps exactly the timestamps reported by every label, with their contents, and removes all others |
| GpsExport.KeepComplete | apps/rawlog-edit/rawlog-edit_gps.cpp:297-308 | The erase loop leaves exactly the rows whose size equals the label count, with their contents |
| GpsExport.JointRowsAreStoredPoints | apps/rawlog-edit/rawlog-edit_gps.cpp:320-326 | In the kept rows, `m[*it]` finds a stored point for every label, so the default point is never used |
| GpsExport.CoordOf | apps/rawlog-edit/rawlog-edit_gps.cpp:323-325 | `m[*it]` gives the stored point of a label in the row, or the default point (0, 0, 0) when the row lacks it |
| GpsExport.JointColumns | apps/rawlog-edit/rawlog-edit_gps.cpp:313-326 | The matrix has one row per timestamp, in increasing order, and 1 + 3·N columns. Column 0 is the time; columns 1+3k, 2+3k and 3+3k hold the k-th label's x, y, z in label order |
| GpsExport.FillRow | apps/rawlog-edit/rawlog-edit_gps.cpp:317-326 | The inner loop fills every column of one row per the layout and leaves the other rows unchanged |
| GpsExport.FillJointMatrix | apps/rawlog-edit/rawlog-edit_gps.cpp:313-327 | The nested loops produce a fresh matrix with the joint layout over the sorted timestamps and sorted labels |
| GpsExport.JointName | apps/rawlog-edit/rawlog-edit_gps.cpp:330-334 | The joint name is the concatenation of the labels in set order |
| GpsExport.MatrixFileName | apps/rawlog-edit/rawlog-edit_gps.cpp:336-338 | The joint matrix file is named prefix, `_JOINT`, kind, `_`, joint name, `.txt`: it starts with the prefix and ends with the joint name and `.txt` |
| GpsExport.RefFileName | apps/rawlog-edit/rawlog-edit_gps.cpp:356-358 | The reference file is named prefix, `_JOINTREF`, kind, `_`, joint name, `.txt`: it starts with the prefix and ends with the joint name and `.txt` |
| GpsExport.JointFileNamesDistinct | apps/rawlog-edit/rawlog-edit_gps.cpp:336-358 | The joint and reference files for all fixes and for RTK fixes always have pairwise distinct names, whatever the labels |
| GpsExport.ExportGpsTxt.DoSaveJointFile | apps/rawlog-edit/rawlog-edit_gps.cpp:292-366 | The table keeps exactly its complete rows. The matrix has the joint layout over them. The two file names carry the prefix, the kind and the joint name. The reference row is (lon, lat, height) |
| GpsExport.ExportGpsTxt.SaveJointIfAny | apps/rawlog-edit/rawlog-edit_gps.cpp:554-558 | An empty label set leaves the table as it is and writes nothing; otherwise the table keeps its complete rows, every kept row holds every label when the table's labels are within the set, and the joint files are written |
| GpsExport.ExportGpsTxt.Close | apps/rawlog-edit/rawlog-edit_gps.cpp:539-560 | Closes every per-sensor file. Writes the joint files of all fixes and then of RTK fixes, each only when its label set is non-empty; a table is filtered only in that case, and then every kept row holds every label. The reference coordinate and the counter are unchanged, so the reference rows written are the reference captured during processing |

## Left out

- The byte encoding of `CArchive` is not part of this model, and neither is the `IMPLEMENTS_SERIALIZABLE` registration. The archive is a sequence of typed tokens. A token of the wrong kind is a read error here, where a byte stream would reinterpret the bytes.
- Signed and unsigned 32-bit integers share one token kind, since both are a 4-byte word.
- `double` and `float` values are modelled as exact `real`s. Rounding, NaN, and the `float` precision of distances and of the 0 fallback are not modelled.
- The auxiliary pose estimate is a Gaussian pose PDF. The model carries it as a single pose value; its covariance is not represented.
- The timestamp is an integer, and the invalid timestamp is taken to be 0. The header defining it is not part of this model.
- `BeaconRanges.Encode`: the count written is the record vector's size truncated to 32 bits, as in the source. `BeaconRanges.RoundTrip` requires the size to fit in 32 bits, because a larger vector does not round-trip.
- `BeaconRanges.BeaconRangesObservation.SerializeFrom`: on a failed read the contract states only the returned error, not the fields already stored. The model stores each field as soon as it is read, as the source does, but does not state those values. The source also throws an exception, where the model returns an error value.
- The default constructor of the observation, `debugPrintOut`, `getDescriptionAsText` and the text export of rows are left out because they are printing, or their defaults live in a header.
- Nothing in `rawlog-edit_gps.cpp` that writes text or files is modelled:
  - KML printing, apart from the RTK scan;
  - the RTK line-splitting distance test;
  - the per-sensor TXT rows;
  - `fopen` failure;
  - the stripping of invalid characters from file names.

  The open per-sensor files are modelled only as the set of labels that have one.
- The geodetic-to-ENU conversion and `timestampTotime_t` are function parameters (`toEnu`, `toTime`). The geocentric coordinates, RMC and TOPCON fields, and `local_ENU` feed only the text output and are left out.
- `TGeodeticCoords::isClear` is taken to mean that longitude, latitude and height are all zero. GGA `getAsStruct<TGeodeticCoords>` is taken to copy longitude, latitude and altitude. Their definitions are not part of this model.
- `GpsExport.ExportGpsTxt.ProcessOneObservation`: the saved-entry counter is a `size_t`. It is modelled as an unbounded natural number, without wrap-around.
- `GpsExport.FillJointMatrix`: `m[*it]` would insert a default point into a row that lacks a label. That insertion is not modelled as a table change. `GpsExport.JointRowsAreStoredPoints` shows it never happens under the processor's invariant.
- `GpsExport.ExportGpsTxt.Close` returns the names and reference rows of the files it writes but not the matrices. Their contents are stated by `GpsExport.ExportGpsTxt.DoSaveJointFile`.
- The rawlog driver loop that feeds observations one by one is not modelled. `GpsExport.RefAfter` folds the reference update over a sequence in its place.
- The other operations of `rawlog-edit_gps.cpp` (`op_export_gps_all` and the rest) are not part of this model.
