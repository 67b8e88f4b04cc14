/** The wildfire risk rule: the nearest fire record decides the level. */
module FireRisk {
  import opened Options

  /** The confidence label a fire detection carries. */
  datatype Confidence = Low | Nominal | High | Unknown

  /**
    Reads a confidence label; any label other than the three known ones is
    Unknown. The enum tests of the risk table agree with the string
    comparisons the script makes on the raw label.
   */
  function ParseConfidence(tag: string): (c: Confidence)
    ensures c == High <==> tag == "high"
    ensures c in {High, Nominal} <==> tag in ["high", "nominal"]
  {
    if tag == "high" then High
    else if tag == "nominal" then Nominal
    else if tag == "low" then Low
    else Unknown
  }

  /** A fire record: its distance from the user, its detection confidence and its brightness. */
  datatype Fire = Fire(distanceKm: real, confidence: Confidence, brightness: real)

  datatype RiskLevel = LowRisk | LowModerateRisk | ModerateRisk | HighRisk {
    function Severity(): nat {
      match this
      case LowRisk => 0
      case LowModerateRisk => 1
      case ModerateRisk => 2
      case HighRisk => 3
    }
  }

  /** Row 1 of the decision table. */
  predicate HighRow(f: Fire) {
    f.distanceKm < 5.0 && f.brightness > 350.0 && f.confidence == High
  }

  /** Row 2 of the decision table. */
  predicate ModerateRow(f: Fire) {
    f.distanceKm < 15.0 && f.brightness > 300.0 && f.confidence in {High, Nominal}
  }

  /** Row 3 of the decision table. */
  predicate LowModerateRow(f: Fire) {
    f.distanceKm < 25.0 && f.brightness > 250.0
  }

  /** The condition of the table row for `level`; the last row ("otherwise") always holds. */
  predicate RowHolds(level: RiskLevel, f: Fire) {
    match level
    case HighRisk => HighRow(f)
    case ModerateRisk => ModerateRow(f)
    case LowModerateRisk => LowModerateRow(f)
    case LowRisk => true
  }

  /**
    The first row of the table whose condition holds. Because each row's
    condition implies the next one's, that is the most severe level whose
    row holds.
   */
  function Classify(f: Fire): (r: RiskLevel)
    ensures RowHolds(r, f)
    ensures forall level :: RowHolds(level, f) ==> level.Severity() <= r.Severity()
  {
    if HighRow(f) then HighRisk
    else if ModerateRow(f) then ModerateRisk
    else if LowModerateRow(f) then LowModerateRisk
    else LowRisk
  }

  /** Each level is returned exactly when its row is the first one that holds. */
  lemma ClassifyIsFirstMatch(f: Fire)
    ensures Classify(f) == HighRisk <==> HighRow(f)
    ensures Classify(f) == ModerateRisk <==> !HighRow(f) && ModerateRow(f)
    ensures Classify(f) == LowModerateRisk <==> !HighRow(f) && !ModerateRow(f) && LowModerateRow(f)
    ensures Classify(f) == LowRisk <==> !HighRow(f) && !ModerateRow(f) && !LowModerateRow(f)
  {
  }

  /** A fire 25 km or more away is Low risk whatever its brightness and confidence. */
  lemma DistantFireIsLow(f: Fire)
    requires f.distanceKm >= 25.0
    ensures Classify(f) == LowRisk
  {
  }

  /** How much a confidence label weighs in the table: Low and Unknown weigh nothing. */
  function ConfidenceWeight(c: Confidence): nat {
    match c
    case High => 2
    case Nominal => 1
    case Low => 0
    case Unknown => 0
  }

  /** A fire at least as close, as bright and as confidently detected is never of lower risk. */
  lemma ClassifyMonotone(f: Fire, g: Fire)
    requires g.distanceKm <= f.distanceKm
    requires g.brightness >= f.brightness
    requires ConfidenceWeight(g.confidence) >= ConfidenceWeight(f.confidence)
    ensures Classify(g).Severity() >= Classify(f).Severity()
  {
    assert RowHolds(Classify(f), g);
  }

  /** Index `i` holds the first record of smallest distance, as Python's `min` with a key picks it. */
  predicate IsFirstNearest(fires: seq<Fire>, i: int) {
    && 0 <= i < |fires|
    && (forall j :: 0 <= j < |fires| ==> fires[i].distanceKm <= fires[j].distanceKm)
    && (forall j :: 0 <= j < i ==> fires[i].distanceKm < fires[j].distanceKm)
  }

  /** At most one index is the first nearest. */
  lemma FirstNearestIsUnique(fires: seq<Fire>, i: int, j: int)
    requires IsFirstNearest(fires, i) && IsFirstNearest(fires, j)
    ensures i == j
  {
    assert fires[i].distanceKm == fires[j].distanceKm;
  }

  /**
    The scan of `min`: `best` is the first nearest among the first `k`
    records, and a later record replaces it only when strictly closer.
   */
  function NearestFrom(fires: seq<Fire>, best: nat, k: nat): (i: nat)
    requires best < k <= |fires|
    requires forall j :: 0 <= j < k ==> fires[best].distanceKm <= fires[j].distanceKm
    requires forall j :: 0 <= j < best ==> fires[best].distanceKm < fires[j].distanceKm
    ensures IsFirstNearest(fires, i)
    decreases |fires| - k
  {
    if k == |fires| then best
    else if fires[k].distanceKm < fires[best].distanceKm then NearestFrom(fires, k, k + 1)
    else NearestFrom(fires, best, k + 1)
  }

  /** The nearest fire record, or None when there are no records. */
  function Nearest(fires: seq<Fire>): (r: Option<Fire>)
    ensures r.None? <==> |fires| == 0
    ensures r.Some? ==> exists i :: IsFirstNearest(fires, i) && fires[i] == r.value
  {
    if |fires| == 0 then None else Some(fires[NearestFrom(fires, 0, 1)])
  }

  /** The level for a list of fire records: Low for no records, else the level of the nearest one. */
  function RiskOf(fires: seq<Fire>): (r: RiskLevel)
    ensures |fires| == 0 ==> r == LowRisk
    ensures forall i :: IsFirstNearest(fires, i) ==> r == Classify(fires[i])
  {
    match Nearest(fires)
    case None => LowRisk
    case Some(f) => Classify(f)
  }

  /** When every record is 25 km or more away the level is Low. */
  lemma AllDistantIsLow(fires: seq<Fire>)
    requires forall i :: 0 <= i < |fires| ==> fires[i].distanceKm >= 25.0
    ensures RiskOf(fires) == LowRisk
  {
    if |fires| > 0 {
      var i := NearestFrom(fires, 0, 1);
      DistantFireIsLow(fires[i]);
    }
  }

  /** The fire source's default search radius, in kilometres. */
  const DefaultRadiusKm: real := 25.0

  /** The fire source: a fixed placeholder list, whatever the location and radius. */
  function CheckFireRisk(lat: real, lon: real, radiusKm: real): (fires: seq<Fire>)
    ensures |fires| > 0
    ensures forall i :: 0 <= i < |fires| ==> fires[i].distanceKm >= 25.0
  {
    [Fire(50.0, High, 400.5)]
  }

  /** The placeholder fire is far enough away that every location is at Low risk. */
  lemma PlaceholderRiskIsLow(lat: real, lon: real, radiusKm: real)
    ensures RiskOf(CheckFireRisk(lat, lon, radiusKm)) == LowRisk
  {
    AllDistantIsLow(CheckFireRisk(lat, lon, radiusKm));
  }

}
