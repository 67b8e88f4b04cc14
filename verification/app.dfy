/**
  The submit handler: form check, location lookup, fire risk, shelter
  lookup and checklist, with every outside source given as a parameter.
 */
module App {
  import opened Options
  import opened Text
  import ZipCode
  import opened FireRisk
  import opened Checklist
  import opened Geocoding
  import opened Shelters

  /** Why a submission stopped at an error nothing catches. */
  datatype StopCause = LiveRequestFailed | MissingDisplayColumn

  /** What one submission shows. */
  datatype Outcome =
    | InvalidZip
    | LocationUnknown
    | Stopped(cause: StopCause)
    | Report(
        location: Location,
        risk: RiskLevel,
        nearestFire: Option<Fire>,
        state: string,
        shelters: ShelterView,
        checklist: seq<string>)

  /**
    Whether the lookup gave a usable location: Python's `lat and lon` is
    false for a missing reply and for a zero coordinate.
   */
  predicate Located(reply: Option<Place>): (ok: bool)
    ensures ok <==> Geocode(reply).Some? && Geocode(reply).value.lat != 0.0 && Geocode(reply).value.lon != 0.0
  {
    reply.Some? && reply.value.latitude != 0.0 && reply.value.longitude != 0.0
  }

  /** The fire part of the lookup: the level and the nearest record of the location's fire list. */
  function Assess(loc: Location): (r: (RiskLevel, Option<Fire>))
    ensures r.1.Some?
    ensures exists i :: IsFirstNearest(CheckFireRisk(loc.lat, loc.lon, DefaultRadiusKm), i)
                     && r.1.value == CheckFireRisk(loc.lat, loc.lon, DefaultRadiusKm)[i]
    ensures r.0 == Classify(r.1.value)
    ensures r.0 == LowRisk
  {
    var fires := CheckFireRisk(loc.lat, loc.lon, DefaultRadiusKm);
    AllDistantIsLow(fires);
    (RiskOf(fires), Nearest(fires))
  }

  /**
    The shelter view a located submission shows: the live table, or the
    fallback rows for the location's state when it is empty, with each
    shelter's distance measured from the location.
   */
  function ShelterViewAt(here: Location, live: Frame, csv: Option<Frame>,
                         distance: (real, real, real, real) -> real): (v: ShelterView)
    ensures |live.rows| > 0 ==>
      v == ShowShelters(live, (lat: real, lon: real) => distance(here.lat, here.lon, lat, lon))
    ensures |live.rows| == 0 ==>
      v == ShowShelters(LoadFallback(csv, StateAbbr(here.name)),
                        (lat: real, lon: real) => distance(here.lat, here.lon, lat, lon))
  {
    ShowShelters(ChooseSource(live, LoadFallback(csv, StateAbbr(here.name))),
                 (lat: real, lon: real) => distance(here.lat, here.lon, lat, lon))
  }

  /**
    One submission, given the loaded live table (None when its request
    raised). The other outside sources are parameters: the ZIP lookup's
    reply, the fallback table, and the distance (lat1, lon1, lat2, lon2)
    between two points.
   */
  function Handle(
    raw: string, pets: bool, kids: bool, elderly: bool,
    geocoderReply: Option<Place>, live: Option<Frame>, csv: Option<Frame>,
    distance: (real, real, real, real) -> real): (o: Outcome)
    ensures o == InvalidZip <==> !ZipCode.Accepts(raw)
    ensures o == LocationUnknown <==> ZipCode.Accepts(raw) && !Located(geocoderReply)
    ensures o == Stopped(LiveRequestFailed) <==> ZipCode.Accepts(raw) && Located(geocoderReply) && live.None?
    ensures o.Report? ==>
      && Geocode(geocoderReply) == Some(o.location)
      && o.risk == LowRisk
      && o.nearestFire == Some(Fire(50.0, High, 400.5))
      && o.checklist == Build(pets, kids, elderly)
      && o.state == StateAbbr(o.location.name)
      && o.shelters != MissingColumn
    ensures ZipCode.Accepts(raw) && Located(geocoderReply) && live.Some? ==>
      var v := ShelterViewAt(Geocode(geocoderReply).value, live.value, csv, distance);
      && (o == Stopped(MissingDisplayColumn) <==> v == MissingColumn)
      && (o.Report? <==> v != MissingColumn)
      && (o.Report? ==> o.shelters == v)
  {
    var zip := Strip(raw);
    if !ZipCode.IsZip(zip) then InvalidZip
    else
      var loc := Geocode(geocoderReply);
      if loc.None? || !(loc.value.lat != 0.0 && loc.value.lon != 0.0) then LocationUnknown
      else
        var here := loc.value;
        var state := StateAbbr(here.name);
        if live.None? then Stopped(LiveRequestFailed)
        else
          var shelters := ShelterViewAt(here, live.value, csv, distance);
          if shelters == MissingColumn then Stopped(MissingDisplayColumn)
          else
            var (risk, nearest) := Assess(here);
            Report(here, risk, nearest, state, shelters, Build(pets, kids, elderly))
  }

  /** One submission as written: the live table comes from the mixed-case live loader. */
  function Submit(
    raw: string, pets: bool, kids: bool, elderly: bool,
    geocoderReply: Option<Place>, liveReply: LiveReply, csv: Option<Frame>,
    distance: (real, real, real, real) -> real): (o: Outcome)
    ensures o == InvalidZip <==> !ZipCode.Accepts(raw)
    ensures o == LocationUnknown <==> ZipCode.Accepts(raw) && !Located(geocoderReply)
    ensures o == Stopped(LiveRequestFailed) <==> ZipCode.Accepts(raw) && Located(geocoderReply) && liveReply.RequestFailed?
    ensures o.Report? ==>
      && Geocode(geocoderReply) == Some(o.location)
      && o.risk == LowRisk
      && o.nearestFire == Some(Fire(50.0, High, 400.5))
      && o.checklist == Build(pets, kids, elderly)
      && o.state == StateAbbr(o.location.name)
      && o.shelters != MissingColumn
    ensures ZipCode.Accepts(raw) && Located(geocoderReply) && !liveReply.RequestFailed? ==>
      var v := ShelterViewAt(Geocode(geocoderReply).value, LoadLive(liveReply).value, csv, distance);
      && (o == Stopped(MissingDisplayColumn) <==> v == MissingColumn)
      && (o.Report? <==> v != MissingColumn)
      && (o.Report? ==> o.shelters == v)
  {
    Handle(raw, pets, kids, elderly, geocoderReply, LoadLive(liveReply), csv, distance)
  }

  /** One submission with the live loader under the upper-case column names. */
  function SubmitFixed(
    raw: string, pets: bool, kids: bool, elderly: bool,
    geocoderReply: Option<Place>, liveReply: LiveReply, csv: Option<Frame>,
    distance: (real, real, real, real) -> real): (o: Outcome)
    ensures o == InvalidZip <==> !ZipCode.Accepts(raw)
    ensures o == LocationUnknown <==> ZipCode.Accepts(raw) && !Located(geocoderReply)
    ensures o == Stopped(LiveRequestFailed) <==> ZipCode.Accepts(raw) && Located(geocoderReply) && liveReply.RequestFailed?
    ensures o.Report? ==>
      && Geocode(geocoderReply) == Some(o.location)
      && o.risk == LowRisk
      && o.nearestFire == Some(Fire(50.0, High, 400.5))
      && o.checklist == Build(pets, kids, elderly)
      && o.state == StateAbbr(o.location.name)
      && o.shelters != MissingColumn
    ensures ZipCode.Accepts(raw) && Located(geocoderReply) && !liveReply.RequestFailed? ==>
      var v := ShelterViewAt(Geocode(geocoderReply).value, LoadLiveFixed(liveReply).value, csv, distance);
      && (o == Stopped(MissingDisplayColumn) <==> v == MissingColumn)
      && (o.Report? <==> v != MissingColumn)
      && (o.Report? ==> o.shelters == v)
  {
    Handle(raw, pets, kids, elderly, geocoderReply, LoadLiveFixed(liveReply), csv, distance)
  }

  /** A rejected ZIP code is rejected before any outside source is consulted. */
  lemma RejectionIgnoresSources(
    raw: string, pets: bool, kids: bool, elderly: bool,
    g1: Option<Place>, l1: LiveReply, c1: Option<Frame>, d1: (real, real, real, real) -> real,
    g2: Option<Place>, l2: LiveReply, c2: Option<Frame>, d2: (real, real, real, real) -> real)
    requires !ZipCode.Accepts(raw)
    ensures Submit(raw, pets, kids, elderly, g1, l1, c1, d1) == InvalidZip
    ensures Submit(raw, pets, kids, elderly, g1, l1, c1, d1) == Submit(raw, pets, kids, elderly, g2, l2, c2, d2)
  {
  }

  /** As written, a live reply with a located feature stops the submission before the risk and the checklist. */
  lemma LiveFeatureStops(
    raw: string, pets: bool, kids: bool, elderly: bool,
    p: Place, features: seq<Feature>, csv: Option<Frame>, distance: (real, real, real, real) -> real)
    requires ZipCode.Accepts(raw)
    requires Located(Some(p))
    requires exists f :: f in features && HasGeometry(f)
    ensures Submit(raw, pets, kids, elderly, Some(p), Features(features), csv, distance) == Stopped(MissingDisplayColumn)
  {
    var loc := Geocode(Some(p)).value;
    var fallback := LoadFallback(csv, StateAbbr(loc.name));
    var distanceTo := (lat: real, lon: real) => distance(loc.lat, loc.lon, lat, lon);
    LiveRowsStopAtMissingColumn(features, fallback, distanceTo);
    var live := LoadLive(Features(features));
    assert live.Some?;
    assert ShowShelters(ChooseSource(live.value, fallback), distanceTo) == MissingColumn;
  }

  /** With the upper-case live columns, the same submission reaches the report. */
  lemma FixedLiveFeatureReports(
    raw: string, pets: bool, kids: bool, elderly: bool,
    p: Place, features: seq<Feature>, csv: Option<Frame>, distance: (real, real, real, real) -> real)
    requires ZipCode.Accepts(raw)
    requires Located(Some(p))
    requires exists f :: f in features && HasGeometry(f)
    ensures SubmitFixed(raw, pets, kids, elderly, Some(p), Features(features), csv, distance).Report?
  {
    var loc := Geocode(Some(p)).value;
    var fallback := LoadFallback(csv, StateAbbr(loc.name));
    FixedLiveRowsAreShown(features, fallback, (lat: real, lon: real) => distance(loc.lat, loc.lon, lat, lon));
  }

  /**
    A located submission either stops or reports, and a report carries the
    state abbreviation the ZIP lookup gave.
   */
  lemma ReportUsesReplyState(
    raw: string, pets: bool, kids: bool, elderly: bool,
    p: Place, liveReply: LiveReply, csv: Option<Frame>, distance: (real, real, real, real) -> real)
    requires ZipCode.Accepts(raw)
    requires Located(Some(p))
    requires ',' !in p.stateAbbr && IsTrimmed(p.stateAbbr)
    ensures Submit(raw, pets, kids, elderly, Some(p), liveReply, csv, distance).Report?
         || Submit(raw, pets, kids, elderly, Some(p), liveReply, csv, distance).Stopped?
    ensures Submit(raw, pets, kids, elderly, Some(p), liveReply, csv, distance).Report? ==>
      Submit(raw, pets, kids, elderly, Some(p), liveReply, csv, distance).state == p.stateAbbr
  {
    GeocodeKeepsState(p);
    var o := Submit(raw, pets, kids, elderly, Some(p), liveReply, csv, distance);
    assert o != InvalidZip && o != LocationUnknown;
  }

  /**
    With no shelter data from either source, a pet owner without children
    or dependants gets a report whose checklist has the pet item and
    neither of the other two.
   */
  lemma PetOwnerChecklist(raw: string, p: Place, liveReply: LiveReply, distance: (real, real, real, real) -> real)
    requires ZipCode.Accepts(raw)
    requires Located(Some(p))
    requires liveReply.NotJson? || liveReply.NoFeatures?
    ensures var o := Submit(raw, true, false, false, Some(p), liveReply, None, distance);
      && o.Report?
      && o.shelters == NoShelterData
      && PetItem in o.checklist
      && ChildItem !in o.checklist
      && CareItem !in o.checklist
  {
    var loc := Geocode(Some(p)).value;
    var frame := ChooseSource(LoadLive(liveReply).value, LoadFallback(None, StateAbbr(loc.name)));
    assert frame == NoFrame;
    assert ShowShelters(frame, (lat: real, lon: real) => distance(loc.lat, loc.lon, lat, lon)) == NoShelterData;
  }

}
