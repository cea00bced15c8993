/** The store updaters of the ride directory: create, join, leave and post a
    chat message. Each maps a store value to a new one and touches only the
    ride whose id matches. */
module RideStore {
  import opened Rides
  import opened Seqs

  // ---------------------------------------------------------------------
  // Participant lists
  // ---------------------------------------------------------------------

  /** The participant list after `me` joins: unchanged when `me` is already
      listed, otherwise `me` is appended as going. */
  function Join(ps: seq<Participant>, me: User): (r: seq<Participant>)
    ensures HasUser(r, me.id)
    ensures HasUser(ps, me.id) <==> r == ps
    ensures !HasUser(ps, me.id) ==> |r| == |ps| + 1 && r[..|ps|] == ps && r[|ps|] == GoingEntry(me)
    ensures UniqueUsers(ps) ==> UniqueUsers(r)
  {
    if HasUser(ps, me.id) then ps
    else
      var r := ps + [GoingEntry(me)];
      assert r[|ps|].userId == me.id;
      r
  }

  /** The participant list after user `uid` leaves: every entry with that
      user id is dropped, the others keep their order. */
  function Leave(ps: seq<Participant>, uid: string): (r: seq<Participant>)
    ensures !HasUser(r, uid)
    ensures !HasUser(ps, uid) ==> r == ps
    decreases |ps|
  {
    if |ps| == 0 then []
    else
      assert ps == [ps[0]] + ps[1..];
      var rest := Leave(ps[1..], uid);
      if ps[0].userId == uid then rest else [ps[0]] + rest
  }

  /** A participant survives leaving exactly when it belongs to someone else. */
  lemma {:induction false} LeaveKeepsOthers(ps: seq<Participant>, uid: string)
    ensures forall p :: p in Leave(ps, uid) <==> p in ps && p.userId != uid
    decreases |ps|
  {
    if |ps| > 0 {
      assert ps == [ps[0]] + ps[1..];
      LeaveKeepsOthers(ps[1..], uid);
    }
  }

  /** Leaving only deletes entries: the survivors keep their relative order. */
  lemma {:induction false} LeaveIsSubsequence(ps: seq<Participant>, uid: string)
    ensures IsSubsequence(Leave(ps, uid), ps)
    decreases |ps|
  {
    if |ps| > 0 {
      LeaveIsSubsequence(ps[1..], uid);
      var rest := Leave(ps[1..], uid);
      if ps[0].userId != uid {
        var r := [ps[0]] + rest;
        assert r[0] == ps[0] && r[1..] == rest;
      } else if rest != [] {
        assert rest[0] != ps[0];
      }
    }
  }

  /** Leaving is the source's `filter(p => p.user_id !== uid)`. */
  lemma {:induction false} LeaveIsFilter(ps: seq<Participant>, uid: string)
    ensures Leave(ps, uid) == Filter(ps, (p: Participant) => p.userId != uid)
    decreases |ps|
  {
    if |ps| > 0 {
      LeaveIsFilter(ps[1..], uid);
    }
  }

  /** Leaving keeps user ids unique. */
  lemma {:induction false} LeaveKeepsUnique(ps: seq<Participant>, uid: string)
    requires UniqueUsers(ps)
    ensures UniqueUsers(Leave(ps, uid))
    decreases |ps|
  {
    if |ps| > 0 {
      var rest := Leave(ps[1..], uid);
      LeaveKeepsUnique(ps[1..], uid);
      if ps[0].userId != uid {
        LeaveKeepsOthers(ps[1..], uid);
        forall i | 0 <= i < |rest|
          ensures rest[i].userId != ps[0].userId
        {
          assert rest[i] in ps[1..];
          var j :| 0 <= j < |ps[1..]| && ps[1..][j] == rest[i];
          assert ps[j + 1] == rest[i];
        }
        var r := [ps[0]] + rest;
        assert Leave(ps, uid) == r;
        forall i, j | 0 <= i < j < |r|
          ensures r[i].userId != r[j].userId
        {
          if i > 0 {
            assert r[i] == rest[i - 1] && r[j] == rest[j - 1];
          } else {
            assert r[j] == rest[j - 1];
          }
        }
      }
    }
  }

  /** Leaving distributes over concatenation. */
  lemma {:induction false} LeaveAppend(a: seq<Participant>, b: seq<Participant>, uid: string)
    ensures Leave(a + b, uid) == Leave(a, uid) + Leave(b, uid)
    decreases |a|
  {
    if |a| == 0 {
      assert a + b == b;
    } else {
      var ab := a + b;
      assert ab[0] == a[0] && ab[1..] == a[1..] + b;
      LeaveAppend(a[1..], b, uid);
      if a[0].userId != uid {
        assert Leave(ab, uid) == [a[0]] + (Leave(a[1..], uid) + Leave(b, uid));
      }
    }
  }

  /** Leaving undoes joining: join then leave is the same as leave alone. */
  lemma LeaveUndoesJoin(ps: seq<Participant>, me: User)
    ensures Leave(Join(ps, me), me.id) == Leave(ps, me.id)
  {
    if !HasUser(ps, me.id) {
      LeaveAppend(ps, [GoingEntry(me)], me.id);
    }
  }

  /** Leaving then joining again moves `me` to the end of the list. */
  lemma RejoinMovesToEnd(ps: seq<Participant>, me: User)
    ensures Join(Leave(ps, me.id), me) == Leave(ps, me.id) + [GoingEntry(me)]
  {
  }

  // ---------------------------------------------------------------------
  // Store updaters
  // ---------------------------------------------------------------------

  /** The frame shared by join, leave and post (the source's
      `rides.map(r => r.id === id ? f(r) : r)`): `f` reaches exactly the
      rides whose id is `id`; the others, their number and their order stay
      as they were, and an id no ride has changes nothing. `f` also receives
      the ride's position, because the callback runs afresh for each match
      (a post draws a new message id and instant each time). */
  function UpdateWhere(rides: seq<Ride>, id: string, f: (int, Ride) -> Ride): (out: seq<Ride>)
    ensures |out| == |rides|
    ensures forall i :: 0 <= i < |rides| && rides[i].id != id ==> out[i] == rides[i]
    ensures forall i :: 0 <= i < |rides| && rides[i].id == id ==> out[i] == f(i, rides[i])
    ensures (forall i :: 0 <= i < |rides| ==> rides[i].id != id) ==> out == rides
  {
    seq(|rides|, i requires 0 <= i < |rides| => if rides[i].id == id then f(i, rides[i]) else rides[i])
  }

  /** Appends a ride as the last element of the store. */
  function CreateRide(s: Store, ride: Ride): (t: Store)
    ensures |t.rides| == |s.rides| + 1
    ensures t.rides[..|s.rides|] == s.rides
    ensures t.rides[|s.rides|] == ride
    ensures HasRide(t, ride.id)
    ensures WellFormed(s) && UniqueUsers(ride.participants) ==> WellFormed(t)
  {
    var t := Store(s.rides + [ride]);
    assert t.rides[|s.rides|].id == ride.id;
    t
  }

  /** `me` joins every ride with id `id`. */
  function JoinRide(s: Store, id: string, me: User): (t: Store)
    ensures |t.rides| == |s.rides|
    ensures forall i :: 0 <= i < |s.rides| && s.rides[i].id != id ==> t.rides[i] == s.rides[i]
    ensures forall i :: 0 <= i < |s.rides| && s.rides[i].id == id ==>
      && t.rides[i] == s.rides[i].(participants := t.rides[i].participants)
      && t.rides[i].participants == Join(s.rides[i].participants, me)
      && HasUser(t.rides[i].participants, me.id)
      && s.rides[i].participants <= t.rides[i].participants
      && |t.rides[i].participants| <= |s.rides[i].participants| + 1
    ensures !HasRide(s, id) ==> t == s
    ensures WellFormed(s) ==> WellFormed(t)
  {
    var t := Store(UpdateWhere(s.rides, id, (_: int, r: Ride) => r.(participants := Join(r.participants, me))));
    assert !HasRide(s, id) ==> t.rides == s.rides;
    t
  }

  /** `me` leaves every ride with id `id`. */
  function LeaveRide(s: Store, id: string, me: User): (t: Store)
    ensures |t.rides| == |s.rides|
    ensures forall i :: 0 <= i < |s.rides| && s.rides[i].id != id ==> t.rides[i] == s.rides[i]
    ensures forall i :: 0 <= i < |s.rides| && s.rides[i].id == id ==>
      && t.rides[i] == s.rides[i].(participants := t.rides[i].participants)
      && t.rides[i].participants == Leave(s.rides[i].participants, me.id)
      && !HasUser(t.rides[i].participants, me.id)
      && IsSubsequence(t.rides[i].participants, s.rides[i].participants)
      && (forall p :: p in t.rides[i].participants <==> p in s.rides[i].participants && p.userId != me.id)
    ensures !HasRide(s, id) ==> t == s
    ensures WellFormed(s) ==> WellFormed(t)
  {
    var t := Store(UpdateWhere(s.rides, id, (_: int, r: Ride) => r.(participants := Leave(r.participants, me.id))));
    assert !HasRide(s, id) ==> t.rides == s.rides;
    assert forall i :: 0 <= i < |s.rides| ==>
      && (forall p :: p in Leave(s.rides[i].participants, me.id) <==> p in s.rides[i].participants && p.userId != me.id)
      && IsSubsequence(Leave(s.rides[i].participants, me.id), s.rides[i].participants)
      && (UniqueUsers(s.rides[i].participants) ==> UniqueUsers(Leave(s.rides[i].participants, me.id))) by {
      forall i | 0 <= i < |s.rides|
        ensures forall p :: p in Leave(s.rides[i].participants, me.id) <==> p in s.rides[i].participants && p.userId != me.id
        ensures IsSubsequence(Leave(s.rides[i].participants, me.id), s.rides[i].participants)
        ensures UniqueUsers(s.rides[i].participants) ==> UniqueUsers(Leave(s.rides[i].participants, me.id))
      {
        LeaveKeepsOthers(s.rides[i].participants, me.id);
        LeaveIsSubsequence(s.rides[i].participants, me.id);
        if UniqueUsers(s.rides[i].participants) {
          LeaveKeepsUnique(s.rides[i].participants, me.id);
        }
      }
    }
    t
  }

  /** Posts `body` as `me` to every ride with id `id`. The message id and the
      instant are generated once per matching ride: `msgId(i)` and `now(i)`
      stand for the values drawn while updating the ride at position `i`. */
  function AddMessage(s: Store, id: string, me: User, msgId: int -> string, body: string, now: int -> int): (t: Store)
    ensures |t.rides| == |s.rides|
    ensures forall i :: 0 <= i < |s.rides| && s.rides[i].id != id ==> t.rides[i] == s.rides[i]
    ensures forall i :: 0 <= i < |s.rides| && s.rides[i].id == id ==>
      && t.rides[i] == s.rides[i].(messages := t.rides[i].messages)
      && |t.rides[i].messages| == |s.rides[i].messages| + 1
      && s.rides[i].messages <= t.rides[i].messages
      && t.rides[i].messages[|s.rides[i].messages|] == Message(msgId(i), me.name, body, now(i))
    ensures !HasRide(s, id) ==> t == s
    ensures WellFormed(s) <==> WellFormed(t)
  {
    var t := Store(UpdateWhere(s.rides, id,
      (i: int, r: Ride) => r.(messages := r.messages + [Message(msgId(i), me.name, body, now(i))])));
    assert !HasRide(s, id) ==> t.rides == s.rides;
    t
  }

  // ---------------------------------------------------------------------
  // Laws relating the updaters
  // ---------------------------------------------------------------------

  /** Joining twice is joining once. */
  lemma JoinRideIdempotent(s: Store, id: string, me: User)
    ensures JoinRide(JoinRide(s, id, me), id, me) == JoinRide(s, id, me)
  {
  }

  /** Leaving twice is leaving once. */
  lemma LeaveRideIdempotent(s: Store, id: string, me: User)
    ensures LeaveRide(LeaveRide(s, id, me), id, me) == LeaveRide(s, id, me)
  {
  }

  /** Joining and then leaving a ride restores what leaving alone gives. */
  lemma LeaveRideUndoesJoinRide(s: Store, id: string, me: User)
    ensures LeaveRide(JoinRide(s, id, me), id, me) == LeaveRide(s, id, me)
  {
    LeaveUndoesJoinPointwise(s, id, me);
    assert LeaveRide(JoinRide(s, id, me), id, me).rides == LeaveRide(s, id, me).rides;
  }

  /** The same, ride by ride. */
  lemma LeaveUndoesJoinPointwise(s: Store, id: string, me: User)
    ensures forall i :: 0 <= i < |s.rides| ==>
      LeaveRide(JoinRide(s, id, me), id, me).rides[i] == LeaveRide(s, id, me).rides[i]
  {
    forall i | 0 <= i < |s.rides| && s.rides[i].id == id
      ensures LeaveRide(JoinRide(s, id, me), id, me).rides[i] == LeaveRide(s, id, me).rides[i]
    {
      LeaveUndoesJoin(s.rides[i].participants, me);
    }
  }

  /** Chat and attendance touch different fields, so their updates commute. */
  lemma AddMessageCommutesWithJoinRide(s: Store, id: string, me: User, other: string,
                                         msgId: int -> string, body: string, now: int -> int)
    ensures AddMessage(JoinRide(s, id, me), other, me, msgId, body, now)
         == JoinRide(AddMessage(s, other, me, msgId, body, now), id, me)
  {
  }
}
