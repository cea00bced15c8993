/** Where the store comes from when the page starts: the saved snapshot if
    there is a readable one, otherwise two example rides. */
module Directory {
  import opened Wrappers
  import opened Rides
  import opened StableSort
  import Seqs
  import RideQuery

  /** One day in milliseconds. */
  const DayMs := 86400000

  /** Reading the saved snapshot. `raw` is the stored text (None when the
      key is missing) and `parse` stands for JSON parsing, None when it
      throws. A missing or empty slot and an unparseable one both read as
      absent; nothing is raised. */
  function LoadStore(raw: Option<string>, parse: string -> Option<Store>): (r: Option<Store>)
    ensures raw.None? || raw == Some([]) ==> r.None?
    ensures r.Some? ==> raw.Some? && parse(raw.value) == r
  {
    match raw
    case None => None
    case Some(text) => if text == [] then None else parse(text)
  }

  /** The example rides used when nothing is saved; `id1`, `id2`, `msgId`
      stand for generated ids and `now` for the current instant. */
  function SeedStore(id1: string, id2: string, msgId: string, now: int): Store {
    Store([
      Ride(id1, CurrentUser.id, "Giro Lago di Como", now + DayMs, Coord(45.809, 9.085),
           "Medio", "Strada", 80.0, 1100.0, 12.0, Some("Caffè a Bellagio. Casco obbligatorio."),
           Scheduled, [GoingEntry(CurrentUser)],
           [Message(msgId, "Ciclista Demo", "Portate mantellina!", now)]),
      Ride(id2, CurrentUser.id, "Gravel Parco Sud", now + 2 * DayMs, Coord(45.43, 9.12),
           "Lento", "Gravel", 55.0, 300.0, 8.0, Some("Terreno facile, adatto a tutti."),
           Scheduled, [GoingEntry(CurrentUser)], [])
    ])
  }

  /** The store the page starts with. */
  function InitialStore(raw: Option<string>, parse: string -> Option<Store>,
                        id1: string, id2: string, msgId: string, now: int): (s: Store)
    ensures LoadStore(raw, parse).None? ==> s == SeedStore(id1, id2, msgId, now)
    ensures raw.Some? && raw.value != [] && parse(raw.value).Some? ==> s == parse(raw.value).value
  {
    LoadStore(raw, parse).GetOr(SeedStore(id1, id2, msgId, now))
  }

  /** The example rides satisfy the store invariant, list the mock user in
      each, and are already in start order. */
  lemma SeedIsWellFormed(id1: string, id2: string, msgId: string, now: int)
    ensures WellFormed(SeedStore(id1, id2, msgId, now))
    ensures forall i :: 0 <= i < |SeedStore(id1, id2, msgId, now).rides| ==>
      HasUser(SeedStore(id1, id2, msgId, now).rides[i].participants, CurrentUser.id)
    ensures SortedBy(SeedStore(id1, id2, msgId, now).rides, StartTime)
  {
    var rides := SeedStore(id1, id2, msgId, now).rides;
    assert rides[0].participants[0].userId == CurrentUser.id;
    assert rides[1].participants[0].userId == CurrentUser.id;
  }

  /** With the page's initial filters and both meeting points inside the
      radius, both example rides are listed, in their stored order. */
  lemma SeedListedUnderDefaultQuery(id1: string, id2: string, msgId: string, now: int,
                                    dist: (Coord, Coord) -> real, lower: string -> string)
    requires dist(RideQuery.DefaultQuery.center, Coord(45.809, 9.085)) <= 60.0
    requires dist(RideQuery.DefaultQuery.center, Coord(45.43, 9.12)) <= 60.0
    ensures RideQuery.VisibleRides(SeedStore(id1, id2, msgId, now).rides, RideQuery.DefaultQuery, dist, lower)
         == SeedStore(id1, id2, msgId, now).rides
  {
    var rides := SeedStore(id1, id2, msgId, now).rides;
    var q := RideQuery.DefaultQuery;
    var p := RideQuery.Matcher(q, dist, lower);
    assert p(rides[0]) && p(rides[1]);
    Seqs.FilterKeepsAll(rides, p);
    SeedIsWellFormed(id1, id2, msgId, now);
    RideQuery.VisibleRidesUnique(rides, q, dist, lower, rides);
  }
}
