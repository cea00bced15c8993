/** The query pipeline: which rides the page lists for the current filters,
    in which order, and the map pins derived from them. The great-circle
    distance `dist` and lower-casing `lower` are parameters: the results below
    hold whatever they compute. */
module RideQuery {
  import opened Rides
  import opened Seqs
  import opened StableSort

  /** The bike-type option that disables the type filter. */
  const AllTypes := "Tutte"

  /** The pace option that disables the pace filter. */
  const AllPaces := "Tutti i ritmi"

  /** The filter state: map centre, radius in km, search text, and the
      bike-type and pace options. */
  datatype Query = Query(center: Coord, radiusKm: real, text: string, bikeType: string, pace: string)

  /** The filters the page starts with: Milan, 60 km, nothing else. */
  const DefaultQuery := Query(Coord(45.4642, 9.19), 60.0, "", AllTypes, AllPaces)

  /** A pin handed to the map. */
  datatype Pin = Pin(id: string, lat: real, lng: real, title: string)

  /** JavaScript's `hay.includes(needle)` (true for the empty needle). */
  predicate Contains(hay: string, needle: string) {
    exists k :: 0 <= k <= |hay| - |needle| && OccursAt(hay, needle, k)
  }

  /** `needle` occurs in `hay` starting at index `k`. */
  predicate OccursAt(hay: string, needle: string, k: int) {
    0 <= k && k + |needle| <= |hay| && hay[k..k + |needle|] == needle
  }

  /** Empty search text, or the lower-cased text occurs in the lower-cased
      title or notes (missing notes count as ""). */
  predicate TextMatch(r: Ride, text: string, lower: string -> string) {
    || text == []
    || Contains(lower(r.title), lower(text))
    || Contains(lower(r.notes.GetOr("")), lower(text))
  }

  predicate TypeMatch(r: Ride, bikeType: string) {
    bikeType == AllTypes || r.bikeType == bikeType
  }

  predicate PaceMatch(r: Ride, pace: string) {
    pace == AllPaces || r.pace == pace
  }

  predicate WithinRadius(r: Ride, center: Coord, radiusKm: real, dist: (Coord, Coord) -> real) {
    dist(center, r.meetingPoint) <= radiusKm
  }

  /** A ride is listed when it passes all four filters. */
  predicate Matches(r: Ride, q: Query, dist: (Coord, Coord) -> real, lower: string -> string) {
    && TextMatch(r, q.text, lower)
    && TypeMatch(r, q.bikeType)
    && PaceMatch(r, q.pace)
    && WithinRadius(r, q.center, q.radiusKm, dist)
  }

  function Matcher(q: Query, dist: (Coord, Coord) -> real, lower: string -> string): Ride -> bool {
    r => Matches(r, q, dist, lower)
  }

  /** The matching rides in store order, before sorting. */
  function Survivors(rides: seq<Ride>, q: Query, dist: (Coord, Coord) -> real, lower: string -> string): seq<Ride> {
    Filter(rides, Matcher(q, dist, lower))
  }

  /** The listed rides: the matching ones, stably sorted by start time. */
  function VisibleRides(rides: seq<Ride>, q: Query, dist: (Coord, Coord) -> real, lower: string -> string): (out: seq<Ride>)
    ensures forall r :: r in out <==> r in rides && Matches(r, q, dist, lower)
    ensures forall r :: multiset(out)[r] == if Matches(r, q, dist, lower) then multiset(rides)[r] else 0
    ensures SortedBy(out, StartTime)
    ensures forall k :: WithKey(out, StartTime, k) == WithKey(Survivors(rides, q, dist, lower), StartTime, k)
  {
    var kept := Survivors(rides, q, dist, lower);
    var out := SortBy(kept, StartTime);
    forall r
      ensures multiset(out)[r] == if Matches(r, q, dist, lower) then multiset(rides)[r] else 0
    {
      FilterCount(rides, Matcher(q, dist, lower), r);
    }
    forall k
      ensures WithKey(out, StartTime, k) == WithKey(kept, StartTime, k)
    {
      SortByStable(kept, StartTime, k);
    }
    out
  }

  /** The listing is the only arrangement of the matching rides that is in
      start order and keeps rides with equal start times in store order. */
  lemma VisibleRidesUnique(rides: seq<Ride>, q: Query, dist: (Coord, Coord) -> real, lower: string -> string, t: seq<Ride>)
    requires SortedBy(t, StartTime)
    requires forall k :: WithKey(t, StartTime, k) == WithKey(Survivors(rides, q, dist, lower), StartTime, k)
    ensures t == VisibleRides(rides, q, dist, lower)
  {
    StableSortIsUnique(Survivors(rides, q, dist, lower), t, StartTime);
  }

  /** The listing holds exactly the matching rides, counted with their
      multiplicity in the store. */
  lemma VisibleIsPermutation(rides: seq<Ride>, q: Query, dist: (Coord, Coord) -> real, lower: string -> string)
    ensures multiset(VisibleRides(rides, q, dist, lower)) == multiset(Survivors(rides, q, dist, lower))
  {
  }

  /** Shrinking the radius, all else fixed, can only drop rides. */
  lemma ShrinkRadiusSubset(rides: seq<Ride>, q: Query, smaller: real, dist: (Coord, Coord) -> real, lower: string -> string)
    requires smaller <= q.radiusKm
    ensures multiset(VisibleRides(rides, q.(radiusKm := smaller), dist, lower)) <= multiset(VisibleRides(rides, q, dist, lower))
    ensures |VisibleRides(rides, q.(radiusKm := smaller), dist, lower)| <= |VisibleRides(rides, q, dist, lower)|
  {
    var q' := q.(radiusKm := smaller);
    var p, p' := Matcher(q, dist, lower), Matcher(q', dist, lower);
    assert forall r :: p'(r) ==> p(r);
    FilterMonotone(rides, p', p);
    VisibleIsPermutation(rides, q', dist, lower);
    VisibleIsPermutation(rides, q, dist, lower);
    var a, b := VisibleRides(rides, q', dist, lower), VisibleRides(rides, q, dist, lower);
    assert multiset(a) <= multiset(b);
    assert |multiset(a)| <= |multiset(b)| by {
      assert multiset(b) == multiset(a) + (multiset(b) - multiset(a));
    }
  }

  function PinOf(r: Ride): Pin {
    Pin(r.id, r.meetingPoint.lat, r.meetingPoint.lng, r.title)
  }

  /** One pin per ride, in the same order. */
  function Pins(rides: seq<Ride>): (pins: seq<Pin>)
    ensures |pins| == |rides|
    ensures forall i :: 0 <= i < |rides| ==>
      pins[i].id == rides[i].id && pins[i].title == rides[i].title
      && pins[i].lat == rides[i].meetingPoint.lat && pins[i].lng == rides[i].meetingPoint.lng
    decreases |rides|
  {
    if |rides| == 0 then [] else [PinOf(rides[0])] + Pins(rides[1..])
  }

  /** The map shows exactly the listed rides: every pin stands for a stored
      ride that passes the filters, in listing (start time) order. */
  lemma PinsFollowListing(rides: seq<Ride>, q: Query, dist: (Coord, Coord) -> real, lower: string -> string)
    ensures var v := VisibleRides(rides, q, dist, lower);
      var pins := Pins(v);
      && |pins| == |v|
      && (forall i :: 0 <= i < |pins| ==> pins[i] == PinOf(v[i]) && v[i] in rides && Matches(v[i], q, dist, lower))
      && (forall i, j :: 0 <= i < j < |pins| ==> v[i].startTime <= v[j].startTime)
  {
  }
}
