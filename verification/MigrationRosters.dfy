/**
 * Rosters of migrating groups and the player ids they hold: claimMigrationRoster,
 * completeMigrationRoster and expireMigrationRosters in src/session/RoomServer.js, with the
 * join in src/services/JoinService.js that drives them.
 */
module MigrationRosters {
  import opened Options
  import opened PlayerStores
  import K = RosterKeys

  const ROSTER_TTL := 15000

  datatype Entry = Entry(netId: int, uuid: string)

  datatype Roster = Roster(entries: seq<Entry>, joined: set<string>, expiresAt: int)

  datatype Room = Room(store: Store, rosters: map<string, Roster>)

  // ----- Reserving a group's ids -----

  datatype Reserved = Reserved(store: Store, entries: seq<Entry>, complete: bool)

  /** allocateId then reserveId per member; stops where allocateId throws, keeping what it reserved. */
  function ReserveFor(s: Store, uuids: seq<string>): Reserved
    decreases |uuids|
  {
    if uuids == [] then Reserved(s, [], true)
    else
      match AllocateId(s)
      case None => Reserved(s, [], false)
      case Some(got) =>
        match ReserveId(got.0, got.1)
        case Err(_) => Reserved(got.0, [], false)
        case Ok(s') =>
          var rest := ReserveFor(s', uuids[1..]);
          rest.(entries := [Entry(got.1, uuids[0])] + rest.entries)
  }

  function Ids(entries: seq<Entry>): set<int> {
    set e | e in entries :: e.netId
  }

  lemma ReserveOne(s: Store)
    requires Valid(s) && FreeIds(s) != {}
    ensures AllocateId(s).Some?
    ensures var (s1, id) := AllocateId(s).value;
            && id in FreeIds(s) && ReserveId(s1, id).Ok?
            && var s2 := ReserveId(s1, id).value;
               && Valid(s2) && FreeIds(s2) == FreeIds(s) - {id}
               && s2.reserved == s.reserved + {id} && s2.byId == s.byId
               && s2.bySession == s.bySession && s2.byUuid == s.byUuid && s2.maxPlayers == s.maxPlayers
  {
    hide SamePlayers, FirstFree, Nth, After;
    FailsOnlyWhenNoneFree(s);
    var (s1, id) := AllocateId(s).value;
    SamePlayersIgnoresIds(s, s1);
    var s2 := ReserveId(s1, id).value;
    SamePlayersIgnoresIds(s, s2);
    AllocateCounter(s);
    assert FreeIds(s2) == FreeIds(s) - {id};
  }

  lemma SamePlayersIgnoresIds(s: Store, t: Store)
    requires SamePlayers(s) && t.byId == s.byId && t.bySession == s.bySession && t.byUuid == s.byUuid
    ensures SamePlayers(t)
  {
    assert forall p :: Indexed(s, p) ==> Indexed(t, p);
  }

  lemma AllocateCounter(s: Store)
    requires AllocateId(s).Some?
    ensures 0 <= AllocateId(s).value.0.netIdCount <= MAX_IDS
  {}

  /** What reserving for n members from s means for the result. */
  predicate ReservedFor(s: Store, n: nat, r: Reserved) {
    && Valid(r.store) && r.store.byId == s.byId && r.store.maxPlayers == s.maxPlayers
    && (r.complete <==> n <= |FreeIds(s)|)
    && Ids(r.entries) <= FreeIds(s)
    && r.store.reserved == s.reserved + Ids(r.entries)
    && (r.complete ==> |r.entries| == n && |Ids(r.entries)| == n)
    && (!r.complete ==> Ids(r.entries) == FreeIds(s))
  }

  /** One more member in front. */
  lemma ReservedForCons(s: Store, s2: Store, id: int, uuid: string, n: nat, rest: Reserved)
    requires id in FreeIds(s) && FreeIds(s2) == FreeIds(s) - {id}
    requires s2.reserved == s.reserved + {id} && s2.byId == s.byId && s2.maxPlayers == s.maxPlayers
    requires ReservedFor(s2, n, rest)
    ensures ReservedFor(s, n + 1, rest.(entries := [Entry(id, uuid)] + rest.entries))
  {
    hide Valid, FreeIds, Ids;
    var all := [Entry(id, uuid)] + rest.entries;
    IdsCons(Entry(id, uuid), rest.entries);
    assert Ids(all) == {id} + Ids(rest.entries);
    assert |FreeIds(s)| == |FreeIds(s2)| + 1;
    assert |Ids(all)| == |Ids(rest.entries)| + 1;
    assert s.reserved + {id} + Ids(rest.entries) == s.reserved + Ids(all);
  }

  /**
   * Reserving succeeds exactly when enough ids are free. Then each member gets an id of its own
   * that was free; otherwise every free id ends up reserved.
   */
  lemma {:induction false} ReserveForMeaning(s: Store, uuids: seq<string>)
    requires Valid(s)
    ensures ReservedFor(s, |uuids|, ReserveFor(s, uuids))
    decreases |uuids|
  {
    if uuids == [] {
      NoneReserved(s);
    } else if FreeIds(s) == {} {
      FailsOnlyWhenNoneFree(s);
      NoneReserved(s);
    } else {
      hide Valid, FreeIds, AllocateId, ReserveId, ReservedFor;
      ReserveOne(s);
      var (s1, id) := AllocateId(s).value;
      var s2 := ReserveId(s1, id).value;
      ReserveForMeaning(s2, uuids[1..]);
      ReservedForCons(s, s2, id, uuids[0], |uuids| - 1, ReserveFor(s2, uuids[1..]));
    }
  }

  lemma NoneReserved(s: Store)
    requires Valid(s)
    ensures ReservedFor(s, 0, Reserved(s, [], true))
    ensures FreeIds(s) == {} ==> forall n: nat :: n > 0 ==> ReservedFor(s, n, Reserved(s, [], false))
  {
    hide Valid, FreeIds;
  }

  lemma IdsCons(e: Entry, entries: seq<Entry>)
    ensures Ids([e] + entries) == {e.netId} + Ids(entries)
  {}

  /** The retry loop for ids already in use never turns: an allocated id is neither stored nor reserved. */
  lemma AllocatedIdIsUnused(s: Store, used: set<int>)
    requires Valid(s) && AllocateId(s).Some? && used <= s.byId.Keys + s.reserved
    ensures AllocateId(s).value.1 !in used
  {
    FailsOnlyWhenNoneFree(s);
  }

  // ----- Steps -----

  /** The request part of a migrating join: the roster key, the whole group and the clock. */
  datatype ClaimRequest = ClaimRequest(key: string, uuids: seq<string>, now: int)

  datatype Claim = NoRoster(room: Room) | Joined(room: Room, roster: Roster) | Threw(room: Room)

  function ClaimRoster(m: Room, c: ClaimRequest): Claim {
    if c.key in m.rosters then
      var roster := m.rosters[c.key].(expiresAt := c.now + ROSTER_TTL);
      Joined(m.(rosters := m.rosters[c.key := roster]), roster)
    else if |m.store.byId| + |c.uuids| > m.store.maxPlayers then NoRoster(m)
    else
      var r := ReserveFor(m.store, c.uuids);
      if !r.complete then Threw(m.(store := r.store))
      else
        var roster := Roster(r.entries, {}, c.now + ROSTER_TTL);
        Joined(Room(r.store, m.rosters[c.key := roster]), roster)
  }

  /** What the payload of a join claims; None where it is no migration. */
  function ClaimOf(p: K.Payload, reservations: seq<K.Reservation>, now: int): Option<ClaimRequest> {
    match K.KeyFor(p, reservations)
    case None => None
    case Some(key) => Some(ClaimRequest(key, K.Present(p.players), now))
  }

  function FindEntry(entries: seq<Entry>, uuid: string): Option<int> {
    if entries == [] then None
    else if entries[0].uuid == uuid then Some(entries[0].netId)
    else FindEntry(entries[1..], uuid)
  }

  function ReleaseAll(s: Store, entries: seq<Entry>): Store
    decreases |entries|
  {
    if entries == [] then s else ReleaseAll(ReleaseReservedId(s, entries[0].netId), entries[1..])
  }

  predicate AllJoined(r: Roster) {
    forall e :: e in r.entries ==> e.uuid in r.joined
  }

  function DropRoster(m: Room, key: string): Room
    requires key in m.rosters
  {
    Room(ReleaseAll(m.store, m.rosters[key].entries), m.rosters - {key})
  }

  function Complete(m: Room, key: string): Room {
    if key in m.rosters && AllJoined(m.rosters[key]) then DropRoster(m, key) else m
  }

  /** join once the claim is done; sent says whether the EnterGame send succeeded. */
  function JoinWith(m: Room, session: int, uuid: string, key: Option<string>, sent: bool): Room {
    var roster := if key.Some? && key.value in m.rosters then Some(m.rosters[key.value]) else None;
    var id := if roster.Some? then FindEntry(roster.value.entries, uuid) else None;
    match Add(m.store, session, uuid, id)
    case Err(_) => if id.Some? then m.(store := ReleaseReservedId(m.store, id.value)) else m
    case Ok(added) =>
      if !sent then m.(store := RemoveBySession(added.0, session))
      else if roster.Some? then
        var r := roster.value.(joined := roster.value.joined + {uuid});
        Complete(Room(added.0, m.rosters[key.value := r]), key.value)
      else m.(store := added.0)
  }

  function JoinStep(m: Room, session: int, uuid: string, claim: Option<ClaimRequest>, sent: bool): Room {
    match claim
    case None => JoinWith(m, session, uuid, None, sent)
    case Some(c) =>
      match ClaimRoster(m, c)
      case Threw(m') => m'
      case NoRoster(m') => JoinWith(m', session, uuid, None, sent)
      case Joined(m', _) => JoinWith(m', session, uuid, Some(c.key), sent)
  }

  predicate Expired(m: Room, key: string, now: int) {
    key in m.rosters && m.rosters[key].expiresAt <= now
  }

  function ExpiredIds(m: Room, now: int): set<int> {
    set key, e | key in m.rosters.Keys && Expired(m, key, now) && e in m.rosters[key].entries :: e.netId
  }

  /** Every overdue roster goes, and with it the reservations of its ids. */
  function ExpireAll(m: Room, now: int): Room {
    Room(m.store.(reserved := m.store.reserved - ExpiredIds(m, now)),
         map key | key in m.rosters && !Expired(m, key, now) :: m.rosters[key])
  }

  datatype Event =
    | Join(session: int, uuid: string, claim: Option<ClaimRequest>, sent: bool)
    | Leave(session: int)
    | Expire(now: int)

  function Step(m: Room, e: Event): Room {
    match e
    case Join(session, uuid, claim, sent) => JoinStep(m, session, uuid, claim, sent)
    case Leave(session) => m.(store := RemoveBySession(m.store, session))
    case Expire(now) => ExpireAll(m, now)
  }

  // ----- No id leaks -----

  /** i is announced by the roster stored under key. */
  predicate ListedUnder(m: Room, key: string, i: int) {
    key in m.rosters && i in Ids(m.rosters[key].entries)
  }

  /** Every reserved id is announced by a live roster, so completion or expiry frees it. */
  ghost predicate NoLeak(m: Room) {
    forall i :: i in m.store.reserved ==> exists key :: ListedUnder(m, key, i)
  }

  /**
   * The request does not run out of ids half way, unless every id it takes is still announced
   * by a live roster (one whose member has left again).
   */
  ghost predicate NotExhausted(m: Room, c: ClaimRequest) {
    c.key !in m.rosters && |m.store.byId| + |c.uuids| <= m.store.maxPlayers && |c.uuids| > |FreeIds(m.store)| ==>
      forall i :: i in FreeIds(m.store) ==> exists key :: ListedUnder(m, key, i)
  }

  lemma ClaimKeepsValid(m: Room, c: ClaimRequest)
    requires Valid(m.store)
    ensures Valid(ClaimRoster(m, c).room.store)
  {
    hide FreeIds, Valid;
    ReserveForMeaning(m.store, c.uuids);
  }

  /** A claim leaks ids exactly when they run out half way. */
  lemma ClaimLeaksIffExhausted(m: Room, c: ClaimRequest)
    requires Valid(m.store) && NoLeak(m)
    ensures NoLeak(ClaimRoster(m, c).room) <==> NotExhausted(m, c)
  {
    hide Valid, FreeIds, ReserveFor;
    ReserveForMeaning(m.store, c.uuids);
    var m', r := ClaimRoster(m, c).room, ReserveFor(m.store, c.uuids);
    if c.key in m.rosters || |m.store.byId| + |c.uuids| > m.store.maxPlayers || r.complete {
      forall i | i in m'.store.reserved
        ensures exists key :: ListedUnder(m', key, i)
      {
        if i in m.store.reserved {
          var key :| ListedUnder(m, key, i);
          assert ListedUnder(m', key, i);
        } else {
          assert ListedUnder(m', c.key, i);
        }
      }
    } else {
      assert forall key, i :: ListedUnder(m, key, i) <==> ListedUnder(m', key, i);
      assert m'.store.reserved == m.store.reserved + FreeIds(m.store);
    }
  }

  lemma {:induction false} ReleaseAllMeaning(s: Store, entries: seq<Entry>)
    requires Valid(s)
    ensures Valid(ReleaseAll(s, entries)) && ReleaseAll(s, entries).byId == s.byId
    ensures ReleaseAll(s, entries).reserved == s.reserved - Ids(entries)
    decreases |entries|
  {
    hide Valid, AllocateId, ReserveId;
    if entries != [] {
      IdStepsKeepValid(s, entries[0].netId);
      ReleaseAllMeaning(ReleaseReservedId(s, entries[0].netId), entries[1..]);
      IdsCons(entries[0], entries[1..]);
      assert [entries[0]] + entries[1..] == entries;
    }
  }

  /** Completion or expiry of a roster frees its ids and leaks none of another's. */
  lemma DropKeepsNoLeak(m: Room, key: string)
    requires Valid(m.store) && NoLeak(m) && key in m.rosters
    ensures Valid(DropRoster(m, key).store) && NoLeak(DropRoster(m, key))
    ensures DropRoster(m, key).store.reserved !! Ids(m.rosters[key].entries)
  {
    hide Valid, ReleaseAll, Ids;
    var m' := DropRoster(m, key);
    ReleaseAllMeaning(m.store, m.rosters[key].entries);
    forall i | i in m'.store.reserved
      ensures exists k :: ListedUnder(m', k, i)
    {
      var k :| ListedUnder(m, k, i);
      assert ListedUnder(m', k, i);
    }
  }

  /** Fewer reservations under the same or more announcements leak nothing. */
  lemma FewerReserved(m: Room, m': Room)
    requires NoLeak(m) && m'.store.reserved <= m.store.reserved
    requires forall key, i :: ListedUnder(m, key, i) ==> ListedUnder(m', key, i)
    ensures NoLeak(m')
  {
    hide ListedUnder;
    forall i | i in m'.store.reserved
      ensures exists k :: ListedUnder(m', k, i)
    {
      var k :| ListedUnder(m, k, i);
      assert ListedUnder(m', k, i);
    }
  }

  lemma JoinWithKeeps(m: Room, session: int, uuid: string, key: Option<string>, sent: bool)
    requires Valid(m.store) && NoLeak(m)
    ensures Valid(JoinWith(m, session, uuid, key, sent).store) && NoLeak(JoinWith(m, session, uuid, key, sent))
  {
    hide Valid, ListedUnder, NoLeak, FindEntry, DropRoster;
    var roster := if key.Some? && key.value in m.rosters then Some(m.rosters[key.value]) else None;
    var id := if roster.Some? then FindEntry(roster.value.entries, uuid) else None;
    AddKeepsValid(m.store, session, uuid, id);
    AddReservesNothing(m.store, session, uuid, id);
    match Add(m.store, session, uuid, id)
    case Err(_) =>
      if id.Some? {
        IdStepsKeepValid(m.store, id.value);
        SameRostersKeep(m, m.(store := ReleaseReservedId(m.store, id.value)));
      }
    case Ok(added) =>
      RemoveKeepsValid(added.0, session);
      if !sent {
        SameRostersKeep(m, m.(store := RemoveBySession(added.0, session)));
      } else if roster.Some? {
        var r := roster.value.(joined := roster.value.joined + {uuid});
        var m' := Room(added.0, m.rosters[key.value := r]);
        JoinedRosterKeeps(m, m', key.value);
        if AllJoined(r) {
          DropKeepsNoLeak(m', key.value);
        }
      } else {
        SameRostersKeep(m, m.(store := added.0));
      }
  }

  lemma AddReservesNothing(s: Store, session: int, uuid: string, id: Option<int>)
    ensures Add(s, session, uuid, id).Ok? ==> Add(s, session, uuid, id).value.0.reserved <= s.reserved
    ensures Add(s, session, uuid, id).Ok? ==>
              RemoveBySession(Add(s, session, uuid, id).value.0, session).reserved <= s.reserved
  {
    hide FirstFree, Nth;
  }

  lemma SameRostersKeep(m: Room, m': Room)
    requires NoLeak(m) && m'.rosters == m.rosters && m'.store.reserved <= m.store.reserved
    ensures NoLeak(m')
  {
    assert forall key, i :: ListedUnder(m, key, i) ==> ListedUnder(m', key, i);
    FewerReserved(m, m');
  }

  lemma JoinedRosterKeeps(m: Room, m': Room, key: string)
    requires NoLeak(m) && m'.store.reserved <= m.store.reserved && key in m.rosters && key in m'.rosters
    requires m'.rosters == m.rosters[key := m'.rosters[key]]
    requires m'.rosters[key].entries == m.rosters[key].entries
    ensures NoLeak(m')
  {
    assert forall k, i :: ListedUnder(m, k, i) ==> ListedUnder(m', k, i);
    FewerReserved(m, m');
  }

  lemma ExpireKeeps(m: Room, now: int)
    requires Valid(m.store) && NoLeak(m)
    ensures Valid(ExpireAll(m, now).store) && NoLeak(ExpireAll(m, now))
  {
    var m' := ExpireAll(m, now);
    SamePlayersIgnoresIds(m.store, m'.store);
    forall i | i in m'.store.reserved
      ensures exists key :: ListedUnder(m', key, i)
    {
      var key :| ListedUnder(m, key, i);
      assert ListedUnder(m', key, i);
    }
  }

  // ----- Runs -----

  ghost predicate Exhausts(m: Room, e: Event) {
    e.Join? && e.claim.Some? && !NotExhausted(m, e.claim.value)
  }

  lemma StepKeeps(m: Room, e: Event)
    requires Valid(m.store) && NoLeak(m) && !Exhausts(m, e)
    ensures Valid(Step(m, e).store) && NoLeak(Step(m, e))
  {
    hide Valid, NoLeak, NotExhausted, ClaimRoster, JoinWith, ExpireAll;
    match e
    case Join(session, uuid, claim, sent) =>
      if claim == None {
        JoinWithKeeps(m, session, uuid, None, sent);
      } else {
        ClaimKeepsValid(m, claim.value);
        ClaimLeaksIffExhausted(m, claim.value);
        var m' := ClaimRoster(m, claim.value).room;
        JoinWithKeeps(m', session, uuid, None, sent);
        JoinWithKeeps(m', session, uuid, Some(claim.value.key), sent);
      }
    case Leave(session) =>
      RemoveKeepsValid(m.store, session);
      SameRostersKeep(m, m.(store := RemoveBySession(m.store, session)));
    case Expire(now) => ExpireKeeps(m, now);
  }

  function Run(m: Room, events: seq<Event>): Room
    decreases |events|
  {
    if events == [] then m else Run(Step(m, events[0]), events[1..])
  }

  ghost predicate NeverExhausted(m: Room, events: seq<Event>)
    decreases |events|
  {
    events == [] || (!Exhausts(m, events[0]) && NeverExhausted(Step(m, events[0]), events[1..]))
  }

  /** In every run that never runs out of ids half way, the indexes agree and no reserved id leaks. */
  lemma {:induction false} RunKeeps(m: Room, events: seq<Event>)
    requires Valid(m.store) && NoLeak(m) && NeverExhausted(m, events)
    ensures Valid(Run(m, events).store) && NoLeak(Run(m, events))
    decreases |events|
  {
    hide Valid, NoLeak, Exhausts, Step;
    if events != [] {
      StepKeeps(m, events[0]);
      RunKeeps(Step(m, events[0]), events[1..]);
    }
  }

  /** An id stays reserved only while some roster is live. */
  lemma ReservationNeedsRoster(m: Room, i: int)
    requires NoLeak(m) && i in m.store.reserved
    ensures m.rosters != map[]
  {
    var key :| ListedUnder(m, key, i);
    assert key in m.rosters;
  }

  // ----- The objects -----

  class RosterBook {
    const players: PlayerStore
    var migrationRosters: map<string, Roster>

    ghost function View(): Room
      reads this, players
    {
      Room(players.State(), migrationRosters)
    }

    constructor (players: PlayerStore)
      ensures this.players == players && migrationRosters == map[]
    {
      this.players := players;
      migrationRosters := map[];
    }

    /** The loop over the group: allocate, then reserve. */
    method ReserveGroup(uuids: seq<string>) returns (entries: seq<Entry>, complete: bool)
      requires Valid(players.State())
      modifies players
      ensures ReserveFor(old(players.State()), uuids) == Reserved(players.State(), entries, complete)
      ensures Valid(players.State())
    {
      hide Valid, AllocateId, ReserveId, FreeIds;
      ReserveForMeaning(players.State(), uuids);
      entries := [];
      var i := 0;
      assert uuids[0..] == uuids;
      while i < |uuids|
        invariant 0 <= i <= |uuids|
        invariant Valid(players.State())
        invariant var rest := ReserveFor(players.State(), uuids[i..]);
                  ReserveFor(old(players.State()), uuids) == rest.(entries := entries + rest.entries)
      {
        ghost var before := players.State();
        assert uuids[i..][1..] == uuids[i + 1..];
        var netId := players.Allocate();
        if netId.Err? {
          return entries, false;
        }
        AllocatedCanBeReserved(before);
        var _ := players.Reserve(netId.value);
        ReserveStep(before, uuids[i..], entries);
        entries := entries + [Entry(netId.value, uuids[i])];
        i := i + 1;
      }
      return entries, true;
    }

    method Claim(c: ClaimRequest) returns (threw: bool, roster: Option<Roster>)
      requires Valid(players.State())
      modifies this, players
      ensures ClaimRoster(old(View()), c) ==
              if threw then Threw(View()) else if roster.None? then NoRoster(View()) else Joined(View(), roster.value)
    {
      if c.key in migrationRosters {
        var renewed := migrationRosters[c.key].(expiresAt := c.now + ROSTER_TTL);
        migrationRosters := migrationRosters[c.key := renewed];
        return false, Some(renewed);
      }
      if |players.playersById| + |c.uuids| > players.maxPlayers {
        return false, None;
      }
      var entries, complete := ReserveGroup(c.uuids);
      if !complete {
        return true, None;
      }
      var created := Roster(entries, {}, c.now + ROSTER_TTL);
      migrationRosters := migrationRosters[c.key := created];
      return false, Some(created);
    }

    /** claimMigrationRoster: which roster, if any, and then its claim. */
    method ClaimFor(p: K.Payload, reservations: seq<K.Reservation>, now: int)
        returns (threw: bool, roster: Option<Roster>)
      requires Valid(players.State())
      modifies this, players
      ensures match ClaimOf(p, reservations, now)
              case None => !threw && roster == None && View() == old(View())
              case Some(c) =>
                ClaimRoster(old(View()), c) ==
                if threw then Threw(View()) else if roster.None? then NoRoster(View()) else Joined(View(), roster.value)
    {
      var key, uuids := K.ChooseKey(p, reservations);
      if key == None {
        return false, None;
      }
      threw, roster := Claim(ClaimRequest(key.value, uuids, now));
    }

    method ReleaseEntries(entries: seq<Entry>)
      modifies players
      ensures players.State() == ReleaseAll(old(players.State()), entries)
    {
      var i := 0;
      assert entries[0..] == entries;
      while i < |entries|
        invariant 0 <= i <= |entries|
        invariant ReleaseAll(players.State(), entries[i..]) == ReleaseAll(old(players.State()), entries)
      {
        assert entries[i..][1..] == entries[i + 1..];
        players.Release(entries[i].netId);
        i := i + 1;
      }
    }

    /** completeMigrationRoster. */
    method CompleteRoster(key: string)
      modifies this, players
      ensures View() == Complete(old(View()), key)
    {
      if key !in migrationRosters {
        return;
      }
      var roster := migrationRosters[key];
      if forall e :: e in roster.entries ==> e.uuid in roster.joined {
        migrationRosters := migrationRosters - {key};
        ReleaseEntries(roster.entries);
      }
    }

    /** expireMigrationRosters, in whatever order the map is walked. */
    method ExpireRosters(now: int)
      requires Valid(players.State())
      modifies this, players
      ensures View() == ExpireAll(old(View()), now)
    {
      hide Valid, ReleaseAll, Ids;
      ghost var before := View();
      var todo := migrationRosters.Keys;
      while todo != {}
        invariant Valid(players.State())
        invariant todo <= before.rosters.Keys
        invariant players.State() == before.store.(reserved := players.reservedIds)
        invariant forall key :: key in migrationRosters <==>
                    key in before.rosters && (key in todo || !Expired(before, key, now))
        invariant forall key :: key in migrationRosters ==> migrationRosters[key] == before.rosters[key]
        invariant forall i :: i in players.reservedIds <==>
                    i in before.store.reserved && !ListedByExpired(before, before.rosters.Keys - todo, now, i)
        decreases |todo|
      {
        var key :| key in todo;
        ghost var was := players.State();
        var roster := migrationRosters[key];
        if roster.expiresAt <= now {
          migrationRosters := migrationRosters - {key};
          ReleaseAllMeaning(players.State(), roster.entries);
          ReleaseAllKeepsRest(players.State(), roster.entries);
          ReleaseEntries(roster.entries);
        }
        todo := todo - {key};
      }
      assert migrationRosters == ExpireAll(before, now).rosters;
      assert before.rosters.Keys - todo == before.rosters.Keys;
      ExpiredIdsListed(before, now);
      forall i
        ensures i in players.reservedIds <==> i in before.store.reserved - ExpiredIds(before, now)
      {
        assert i in ExpiredIds(before, now) <==> ListedByExpired(before, before.rosters.Keys - todo, now, i);
      }
      assert players.reservedIds == ExpireAll(before, now).store.reserved;
    }
  }

  lemma AllocatedCanBeReserved(s: Store)
    requires Valid(s) && AllocateId(s).Some?
    ensures ReserveId(AllocateId(s).value.0, AllocateId(s).value.1).Ok?
    ensures Valid(ReserveId(AllocateId(s).value.0, AllocateId(s).value.1).value)
  {
    hide Valid;
    FailsOnlyWhenNoneFree(s);
    ReserveOne(s);
  }

  lemma ReserveStep(s: Store, uuids: seq<string>, entries: seq<Entry>)
    requires uuids != [] && AllocateId(s).Some?
    requires ReserveId(AllocateId(s).value.0, AllocateId(s).value.1).Ok?
    ensures var (s1, id) := AllocateId(s).value;
            var rest := ReserveFor(ReserveId(s1, id).value, uuids[1..]);
            var all := ReserveFor(s, uuids);
            all.(entries := entries + all.entries) ==
            rest.(entries := entries + [Entry(id, uuids[0])] + rest.entries)
  {
    hide AllocateId, ReserveId;
    var (s1, id) := AllocateId(s).value;
    var rest := ReserveFor(ReserveId(s1, id).value, uuids[1..]);
    assert entries + ([Entry(id, uuids[0])] + rest.entries) == entries + [Entry(id, uuids[0])] + rest.entries;
  }

  lemma {:induction false} ReleaseAllKeepsRest(s: Store, entries: seq<Entry>)
    ensures ReleaseAll(s, entries) == s.(reserved := ReleaseAll(s, entries).reserved)
    decreases |entries|
  {
    if entries != [] {
      ReleaseAllKeepsRest(ReleaseReservedId(s, entries[0].netId), entries[1..]);
    }
  }

  /** One of the rosters under keys is overdue and announces i. */
  ghost predicate ListedByExpired(m: Room, keys: set<string>, now: int, i: int) {
    exists key :: key in keys && Expired(m, key, now) && ListedUnder(m, key, i)
  }

  lemma ExpiredIdsListed(m: Room, now: int)
    ensures forall i :: i in ExpiredIds(m, now) <==> ListedByExpired(m, m.rosters.Keys, now, i)
  {
    forall i | i in ExpiredIds(m, now)
      ensures ListedByExpired(m, m.rosters.Keys, now, i)
    {
      var key, e :| key in m.rosters.Keys && Expired(m, key, now) && e in m.rosters[key].entries && i == e.netId;
      assert ListedUnder(m, key, i);
    }
  }
}
