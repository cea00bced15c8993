/** The two input guards in front of the store: the create-ride form, which
    refuses a ride without title or schedule, and the chat form, which drops
    a message that is empty after trimming. */
module RideForms {
  import opened Wrappers
  import opened Rides
  import RideStore

  // ---------------------------------------------------------------------
  // Create-ride form
  // ---------------------------------------------------------------------

  /** The form's field values. `date` and `time` are the raw input strings;
      the numeric fields are already numbers. */
  datatype Draft = Draft(
    title: string,
    date: string,
    time: string,
    pace: string,
    bikeType: string,
    distanceKm: real,
    elevationM: real,
    maxParticipants: real,
    notes: string,
    lat: real,
    lng: real)

  /** Why the form refused to submit. */
  datatype FormError = MissingTitleOrSchedule

  /** Builds the ride the form submits, or refuses. The start instant exists
      only when both the date and the time field are filled in; `toInstant`
      stands for parsing `date`T`time` into milliseconds, `id` for the
      generated ride id and `me` for the acting user. */
  function SubmitRideForm(d: Draft, id: string, me: User, toInstant: (string, string) -> int): (r: Result<Ride, FormError>)
    ensures r.Err? <==> d.title == [] || d.date == [] || d.time == []
    ensures r.Ok? ==>
      && r.value.id == id
      && r.value.title == d.title && r.value.title != []
      && r.value.startTime == toInstant(d.date, d.time)
      && r.value.meetingPoint == Coord(d.lat, d.lng)
      && r.value.pace == d.pace && r.value.bikeType == d.bikeType
      && r.value.distanceKm == d.distanceKm && r.value.elevationM == d.elevationM
      && r.value.maxParticipants == d.maxParticipants
      && r.value.notes == Some(d.notes)
    ensures r.Ok? ==>
      && r.value.status == Scheduled
      && r.value.messages == []
      && r.value.organizerId == me.id
      && r.value.participants == [GoingEntry(me)]
      && HasUser(r.value.participants, r.value.organizerId)
      && UniqueUsers(r.value.participants)
  {
    if d.title == [] || d.date == [] || d.time == [] then Err(MissingTitleOrSchedule)
    else
      var r := Ride(id, me.id, d.title, toInstant(d.date, d.time), Coord(d.lat, d.lng), d.pace, d.bikeType,
                    d.distanceKm, d.elevationM, d.maxParticipants, Some(d.notes), Scheduled,
                    [GoingEntry(me)], []);
      assert r.participants[0].userId == r.organizerId;
      Ok(r)
  }

  /** Submitting the form: a refused draft leaves the store alone (the
      prototype only shows an alert); an accepted one is appended last. */
  function CreateFromForm(s: Store, d: Draft, id: string, me: User, toInstant: (string, string) -> int): (t: Store)
    ensures d.title == [] || d.date == [] || d.time == [] ==> t == s
    ensures d.title != [] && d.date != [] && d.time != [] ==>
      && |t.rides| == |s.rides| + 1
      && t.rides[..|s.rides|] == s.rides
      && t.rides[|s.rides|].id == id
      && t.rides[|s.rides|].title == d.title
      && t.rides[|s.rides|].organizerId == me.id
      && t.rides[|s.rides|].participants == [GoingEntry(me)]
      && t.rides[|s.rides|].messages == []
      && t.rides[|s.rides|].status == Scheduled
      && t.rides[|s.rides|] == SubmitRideForm(d, id, me, toInstant).value
    ensures WellFormed(s) ==> WellFormed(t)
  {
    match SubmitRideForm(d, id, me, toInstant)
    case Err(_) => s
    case Ok(ride) => RideStore.CreateRide(s, ride)
  }

  // ---------------------------------------------------------------------
  // Chat form
  // ---------------------------------------------------------------------

  /** ECMAScript white space and line terminators: the characters
      `String.prototype.trim` removes. */
  predicate IsJsWhitespace(c: char) {
    c in JsWhitespace
  }

  /** The ECMAScript WhiteSpace and LineTerminator code points. */
  const JsWhitespace: set<char> := {
    '\t', '\n', '\U{000B}', '\U{000C}', '\r', ' ', '\U{00A0}', '\U{1680}',
    '\U{2000}', '\U{2001}', '\U{2002}', '\U{2003}', '\U{2004}', '\U{2005}',
    '\U{2006}', '\U{2007}', '\U{2008}', '\U{2009}', '\U{200A}',
    '\U{2028}', '\U{2029}', '\U{202F}', '\U{205F}', '\U{3000}', '\U{FEFF}'
  }

  /** Every character of `s` is white space (vacuously so for ""). */
  predicate Blank(s: string) {
    forall i :: 0 <= i < |s| ==> IsJsWhitespace(s[i])
  }

  /** Drops leading white space. */
  function TrimStart(s: string): (r: string)
    ensures |r| <= |s| && r == s[|s| - |r|..]
    ensures Blank(s[..|s| - |r|])
    ensures r == [] || !IsJsWhitespace(r[0])
    decreases |s|
  {
    if |s| > 0 && IsJsWhitespace(s[0]) then
      var r := TrimStart(s[1..]);
      assert s[..|s| - |r|] == [s[0]] + s[1..][..|s[1..]| - |r|];
      r
    else s
  }

  /** Drops trailing white space. */
  function TrimEnd(s: string): (r: string)
    ensures |r| <= |s| && r == s[..|r|]
    ensures Blank(s[|r|..])
    ensures r == [] || !IsJsWhitespace(r[|r| - 1])
    decreases |s|
  {
    if |s| > 0 && IsJsWhitespace(s[|s| - 1]) then
      var r := TrimEnd(s[..|s| - 1]);
      assert s[|r|..] == s[..|s| - 1][|r|..] + [s[|s| - 1]];
      r
    else s
  }

  /** `String.prototype.trim`: what is left after removing the leading and
      the trailing white space. */
  function Trim(s: string): (r: string)
    ensures |r| <= |s|
    ensures r == [] || (!IsJsWhitespace(r[0]) && !IsJsWhitespace(r[|r| - 1]))
  {
    var a := TrimStart(s);
    var r := TrimEnd(a);
    assert r != [] ==> r[0] == a[..|r|][0] == a[0];
    r
  }

  /** The trimmed message is one contiguous slice of the input. */
  lemma TrimIsSlice(s: string)
    ensures var r, k := Trim(s), |s| - |TrimStart(s)|;
      && 0 <= k && k + |r| <= |s|
      && s == s[..k] + r + s[k + |r|..]
  {
    TrimSlice(s, |s| - |TrimStart(s)|, TrimStart(s), Trim(s));
  }

  /** Trimming cuts off nothing but white space, on either side. */
  lemma TrimCutsOnlyWhitespace(s: string)
    ensures var r, k := Trim(s), |s| - |TrimStart(s)|;
      && 0 <= k && k + |r| <= |s|
      && Blank(s[..k]) && Blank(s[k + |r|..])
  {
    TrimSlice(s, |s| - |TrimStart(s)|, TrimStart(s), Trim(s));
  }

  /** Cutting white space off the front of `s` and then off the back of
      what remains leaves one contiguous slice of `s`. */
  lemma TrimSlice(s: string, k: int, a: string, r: string)
    requires 0 <= k <= |s| && a == s[k..] && Blank(s[..k])
    requires |r| <= |a| && r == a[..|r|] && Blank(a[|r|..])
    ensures k + |r| <= |s| && s == s[..k] + r + s[k + |r|..]
    ensures Blank(s[k + |r|..])
  {
    assert s[k + |r|..] == a[|r|..];
    assert r == s[k..k + |r|];
    assert s == s[..k] + s[k..k + |r|] + s[k + |r|..];
  }

  /** A message trims to nothing exactly when it is all white space. */
  lemma TrimEmptyIffBlank(s: string)
    ensures Trim(s) == [] <==> Blank(s)
  {
    var a := TrimStart(s);
    assert s == s[..|s| - |a|] + a;
    if Trim(s) == [] {
      assert Blank(a[0..]);
      assert a[0..] == a;
    }
  }

  /** Sending the chat form: a message that trims to nothing is dropped,
      any other is posted verbatim (untrimmed), with a message id and instant
      drawn per matching ride as in `RideStore.AddMessage`. */
  function SubmitChat(s: Store, id: string, me: User, text: string, msgId: int -> string, now: int -> int): (t: Store)
    ensures Blank(text) ==> t == s
    ensures |t.rides| == |s.rides|
    ensures !Blank(text) ==>
      forall i :: 0 <= i < |s.rides| && s.rides[i].id == id ==>
        |t.rides[i].messages| == |s.rides[i].messages| + 1
        && t.rides[i].messages[|s.rides[i].messages|].body == text
    ensures !Blank(text) ==> t == RideStore.AddMessage(s, id, me, msgId, text, now)
    ensures WellFormed(s) ==> WellFormed(t)
  {
    TrimEmptyIffBlank(text);
    if Trim(text) == [] then s else RideStore.AddMessage(s, id, me, msgId, text, now)
  }
}
