/** Resolving a ZIP code to a location, and reading the state back from its label. */
module Geocoding {
  import opened Options
  import opened Text

  /** The first place of a ZIP lookup reply, with its coordinates already read as numbers. */
  datatype Place = Place(latitude: real, longitude: real, placeName: string, stateAbbr: string)

  /** A resolved location and its "Place, ST" label. */
  datatype Location = Location(lat: real, lon: real, name: string)

  /** The "Place, ST" label of a place. */
  function Label(placeName: string, stateAbbr: string): (name: string)
    ensures ',' !in stateAbbr ==> LastField(name, ',') == [' '] + stateAbbr
  {
    var name := placeName + ", " + stateAbbr;
    assert name == placeName + [','] + ([' '] + stateAbbr);
    if ',' !in stateAbbr then LastFieldAfterSeparator(placeName, ',', [' '] + stateAbbr); name else name
  }

  /**
    The lookup: a reply that could not be fetched, parsed or read collapses to
    None; otherwise its coordinates and label.
   */
  function Geocode(reply: Option<Place>): (loc: Option<Location>)
    ensures loc.Some? <==> reply.Some?
    ensures loc.Some? ==> loc.value.lat == reply.value.latitude && loc.value.lon == reply.value.longitude
    ensures loc.Some? ==> loc.value.name == Label(reply.value.placeName, reply.value.stateAbbr)
  {
    match reply
    case None => None
    case Some(p) => Some(Location(p.latitude, p.longitude, Label(p.placeName, p.stateAbbr)))
  }

  /** The state abbreviation read from a label: its last comma-separated field, stripped. */
  function StateAbbr(name: string): (st: string)
    ensures ',' !in st
    ensures IsTrimmed(st)
    ensures exists i :: IsSliceAmidSpace(LastField(name, ','), st, i)
  {
    var field := LastField(name, ',');
    var st := Strip(field);
    assert forall c :: c in st ==> c in field;
    st
  }

  /**
    Reading the state back from a label gives the abbreviation it was built
    from, when that has no comma and no surrounding whitespace.
   */
  lemma StateAbbrOfLabel(placeName: string, stateAbbr: string)
    requires ',' !in stateAbbr
    requires IsTrimmed(stateAbbr)
    ensures StateAbbr(Label(placeName, stateAbbr)) == stateAbbr
  {
    StripSkipsLeadingSpace(' ', stateAbbr);
    StripTrimmed(stateAbbr);
  }

  /** The state the resolved location's label names is the one the reply gave. */
  lemma GeocodeKeepsState(p: Place)
    requires ',' !in p.stateAbbr && IsTrimmed(p.stateAbbr)
    ensures Geocode(Some(p)).Some?
    ensures StateAbbr(Geocode(Some(p)).value.name) == p.stateAbbr
  {
    StateAbbrOfLabel(p.placeName, p.stateAbbr);
  }

}
