/**
  Shelter lookup: the live feature-service reply, the fallback table, the
  choice between them, and the nearby / directory view.
 */
module Shelters {
  import opened Options
  import opened Seqs
  import opened Text

  /** One shelter row. */
  datatype Shelter = Shelter(
    name: string, address: string, city: string, zip: string, state: string,
    lat: real, lon: real)

  /**
    A table as the script holds it: the column names it carries and its rows.
    A row's fields can only be read through a column the table has.
   */
  datatype Frame = Frame(columns: set<string>, rows: seq<Shelter>)

  /** The empty table. */
  const NoFrame: Frame := Frame({}, [])

  /** A feature of the live reply: its attribute record and, when present, its point. */
  datatype Point = Point(x: real, y: real)
  datatype Feature = Feature(attributes: map<string, string>, geometry: Option<Point>)

  /**
    The live reply: a request that raised (connection error, timeout), a
    body that is not JSON, JSON without a feature list, or a feature list.
   */
  datatype LiveReply = RequestFailed | NotJson | NoFeatures | Features(features: seq<Feature>)

  /** An attribute, or the empty string when the record lacks it. */
  function Attribute(attributes: map<string, string>, key: string): string {
    if key in attributes then attributes[key] else ""
  }

  predicate HasGeometry(f: Feature) {
    f.geometry.Some?
  }

  /** A located feature's row: the point's y is the latitude, x the longitude; a missing attribute reads as "". */
  function ToShelter(f: Feature): (s: Shelter)
    requires HasGeometry(f)
    ensures s.lat == f.geometry.value.y && s.lon == f.geometry.value.x
    ensures s.name == (if "NAME" in f.attributes then f.attributes["NAME"] else "")
    ensures s.address == (if "ADDRESS" in f.attributes then f.attributes["ADDRESS"] else "")
    ensures s.city == (if "CITY" in f.attributes then f.attributes["CITY"] else "")
    ensures s.zip == (if "ZIP" in f.attributes then f.attributes["ZIP"] else "")
    ensures s.state == (if "STATE" in f.attributes then f.attributes["STATE"] else "")
  {
    var a := f.attributes;
    Shelter(Attribute(a, "NAME"), Attribute(a, "ADDRESS"), Attribute(a, "CITY"),
            Attribute(a, "ZIP"), Attribute(a, "STATE"), f.geometry.value.y, f.geometry.value.x)
  }

  /** Rows made one per feature are exactly the features' shelters. */
  lemma RowsOfFeatures(kept: seq<Feature>, rows: seq<Shelter>)
    requires forall k :: 0 <= k < |kept| ==> HasGeometry(kept[k])
    requires |rows| == |kept| && forall k :: 0 <= k < |kept| ==> rows[k] == ToShelter(kept[k])
    ensures forall s :: s in rows <==> exists f :: f in kept && HasGeometry(f) && s == ToShelter(f)
  {
    forall f | f in kept
      ensures ToShelter(f) in rows
    {
      var k :| 0 <= k < |kept| && kept[k] == f;
      assert rows[k] == ToShelter(f);
    }
  }

  /** One row per feature that has a point, in reply order; the others are skipped. */
  function FeatureRows(features: seq<Feature>): (rows: seq<Shelter>)
    ensures |rows| == 0 <==> forall f :: f in features ==> !HasGeometry(f)
    ensures |rows| == |Keep(features, HasGeometry)|
    ensures forall k :: 0 <= k < |rows| ==> rows[k] == ToShelter(Keep(features, HasGeometry)[k])
    ensures forall s :: s in rows <==> exists f :: f in features && HasGeometry(f) && s == ToShelter(f)
  {
    var kept := Keep(features, HasGeometry);
    var rows := seq(|kept|, k requires 0 <= k < |kept| => ToShelter(kept[k]));
    RowsOfFeatures(kept, rows);
    rows
  }

  /** The column names the live loader gives its table. */
  const LiveColumns: set<string> := {"Name", "Address", "City", "ZIP", "lat", "lon", "State"}

  /** The upper-case column names the rest of the script reads. */
  const ShelterColumns: set<string> := {"NAME", "ADDRESS", "CITY", "ZIP", "STATE", "LATITUDE", "LONGITUDE"}

  /**
    The live table under the given column names: None when the request
    raised, which nothing catches; an empty table when the reply carries no
    usable feature.
   */
  function LiveFrame(reply: LiveReply, columns: set<string>): (f: Option<Frame>)
    ensures f.None? <==> reply.RequestFailed?
    ensures (reply.NotJson? || reply.NoFeatures?) ==> f == Some(NoFrame)
    ensures reply.Features? ==> f.Some? && f.value.rows == FeatureRows(reply.features)
    ensures f.Some? && |f.value.rows| > 0 ==> f.value.columns == columns
    ensures f.Some? && |f.value.rows| == 0 ==> f.value == NoFrame
  {
    match reply
    case RequestFailed => None
    case Features(fs) =>
      var rows := FeatureRows(fs);
      if |rows| == 0 then Some(NoFrame) else Some(Frame(columns, rows))
    case _ => Some(NoFrame)
  }

  /** The live loader as written: mixed-case column names. */
  function LoadLive(reply: LiveReply): (f: Option<Frame>)
    ensures f.Some? && |f.value.rows| > 0 ==> "NAME" !in f.value.columns && "LATITUDE" !in f.value.columns
  {
    var f := LiveFrame(reply, LiveColumns);
    assert "NAME" !in LiveColumns && "LATITUDE" !in LiveColumns;
    f
  }

  /** The live loader under the column names the rest of the script reads. */
  function LoadLiveFixed(reply: LiveReply): (f: Option<Frame>)
    ensures f.Some? && |f.value.rows| > 0 ==>
      DisplayColumns <= f.value.columns && "LATITUDE" in f.value.columns && "LONGITUDE" in f.value.columns
  {
    LiveFrame(reply, ShelterColumns)
  }

  /** The rows whose state matches `abbr`, ignoring case, in table order. */
  function ByState(rows: seq<Shelter>, abbr: string): (r: seq<Shelter>)
    ensures forall s :: s in r <==> s in rows && Upper(s.state) == Upper(abbr)
    ensures forall s :: multiset(r)[s] == if Upper(s.state) == Upper(abbr) then multiset(rows)[s] else 0
    ensures IsSubsequence(r, rows)
  {
    Keep(rows, (s: Shelter) => Upper(s.state) == Upper(abbr))
  }

  /** Two abbreviations equal up to case select the same rows. */
  lemma ByStateIgnoresCase(rows: seq<Shelter>, a: string, b: string)
    requires Upper(a) == Upper(b)
    ensures ByState(rows, a) == ByState(rows, b)
  {
    KeepCongruent(rows, (s: Shelter) => Upper(s.state) == Upper(a), (s: Shelter) => Upper(s.state) == Upper(b));
  }

  /** Selecting by the upper-cased abbreviation is the same as selecting by the abbreviation. */
  lemma ByStateOfUpper(rows: seq<Shelter>, abbr: string)
    ensures ByState(rows, Upper(abbr)) == ByState(rows, abbr)
  {
    UpperIdempotent(abbr);
    ByStateIgnoresCase(rows, Upper(abbr), abbr);
  }

  function UpperColumns(columns: set<string>): set<string> {
    set c | c in columns :: Upper(c)
  }

  /**
    The fallback table for a state: None stands for a file that is missing
    or cannot be read. Column names are upper-cased; a table without a STATE
    column is refused; otherwise the rows of the state are kept.
   */
  function LoadFallback(csv: Option<Frame>, abbr: string): (f: Frame)
    ensures csv.None? ==> f == NoFrame
    ensures csv.Some? && "STATE" !in UpperColumns(csv.value.columns) ==> f == NoFrame
    ensures csv.Some? && "STATE" in UpperColumns(csv.value.columns) ==>
      f.rows == ByState(csv.value.rows, abbr) && f.columns == UpperColumns(csv.value.columns)
  {
    match csv
    case None => NoFrame
    case Some(t) =>
      var columns := UpperColumns(t.columns);
      if "STATE" !in columns then NoFrame else Frame(columns, ByState(t.rows, abbr))
  }

  /** The live table when it has rows, the fallback table otherwise. */
  function ChooseSource(live: Frame, fallback: Frame): (f: Frame)
    ensures |live.rows| > 0 ==> f == live
    ensures |live.rows| == 0 ==> f == fallback
  {
    if |live.rows| == 0 then fallback else live
  }

  /** A shelter with its distance in kilometres from the user. */
  datatype Placed = Placed(shelter: Shelter, km: real)

  /** The radius of the nearby view, in kilometres. */
  const NearbyKm: real := 25.0

  /** The placed shelters within the radius, in table order. */
  function Nearby(placed: seq<Placed>): (r: seq<Placed>)
    ensures forall p :: p in r <==> p in placed && p.km <= NearbyKm
    ensures forall p :: multiset(r)[p] == if p.km <= NearbyKm then multiset(placed)[p] else 0
    ensures IsSubsequence(r, placed)
  {
    Keep(placed, (p: Placed) => p.km <= NearbyKm)
  }

  /** Restricting to nearby shelters a second time changes nothing. */
  lemma NearbyIdempotent(placed: seq<Placed>)
    ensures Nearby(Nearby(placed)) == Nearby(placed)
  {
    KeepIdempotent(placed, (p: Placed) => p.km <= NearbyKm);
  }

  /** Every row with its distance from the user attached. */
  function PlaceAll(rows: seq<Shelter>, distanceTo: (real, real) -> real): (r: seq<Placed>)
    ensures |r| == |rows|
    ensures forall k :: 0 <= k < |rows| ==> r[k] == Placed(rows[k], distanceTo(rows[k].lat, rows[k].lon))
  {
    seq(|rows|, k requires 0 <= k < |rows| => Placed(rows[k], distanceTo(rows[k].lat, rows[k].lon)))
  }

  /** The columns both shelter views read. */
  const DisplayColumns: set<string> := {"NAME", "ADDRESS", "CITY", "ZIP"}

  /** What the shelter block shows, or the missing column that stops it. */
  datatype ShelterView =
    | NoShelterData
    | NearbyTable(nearby: seq<Placed>)
    | Directory(all: seq<Shelter>)
    | MissingColumn

  /**
    The shelter block for a chosen table. The distance step reads the
    LATITUDE and LONGITUDE columns, and a failure there is swallowed into "no
    nearby shelter"; both views then read the display columns, and a
    failure there escapes.
   */
  function ShowShelters(frame: Frame, distanceTo: (real, real) -> real): (v: ShelterView)
    ensures v == NoShelterData <==> |frame.rows| == 0
    ensures v == MissingColumn <==> |frame.rows| > 0 && !(DisplayColumns <= frame.columns)
    ensures v.NearbyTable? ==>
      && "LATITUDE" in frame.columns && "LONGITUDE" in frame.columns
      && v.nearby == Nearby(PlaceAll(frame.rows, distanceTo))
      && |v.nearby| > 0
    ensures v.Directory? ==>
      && v.all == frame.rows
      && (("LATITUDE" in frame.columns && "LONGITUDE" in frame.columns) ==>
            forall k :: 0 <= k < |frame.rows| ==> distanceTo(frame.rows[k].lat, frame.rows[k].lon) > NearbyKm)
  {
    if |frame.rows| == 0 then NoShelterData
    else
      var nearby :=
        if "LATITUDE" in frame.columns && "LONGITUDE" in frame.columns
        then Nearby(PlaceAll(frame.rows, distanceTo))
        else [];
      if !(DisplayColumns <= frame.columns) then MissingColumn
      else if |nearby| > 0 then NearbyTable(nearby)
      else Directory(frame.rows)
  }

  /**
    As written, a live reply with at least one located feature always stops
    the shelter block at a missing column.
   */
  lemma LiveRowsStopAtMissingColumn(features: seq<Feature>, fallback: Frame, distanceTo: (real, real) -> real)
    requires exists f :: f in features && HasGeometry(f)
    ensures ShowShelters(ChooseSource(LoadLive(Features(features)).value, fallback), distanceTo) == MissingColumn
  {
    assert "NAME" !in LiveColumns;
  }

  /**
    With the upper-case column names, a live reply with at least one located
    feature is always shown: as the nearby table or as the directory.
   */
  lemma FixedLiveRowsAreShown(features: seq<Feature>, fallback: Frame, distanceTo: (real, real) -> real)
    requires exists f :: f in features && HasGeometry(f)
    ensures ShowShelters(ChooseSource(LoadLiveFixed(Features(features)).value, fallback), distanceTo).NearbyTable?
         || ShowShelters(ChooseSource(LoadLiveFixed(Features(features)).value, fallback), distanceTo).Directory?
  {
    assert DisplayColumns <= ShelterColumns;
  }

}
