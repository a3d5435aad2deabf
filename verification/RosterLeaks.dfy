/**
 * Reserved ids that leak, and rosters that share ids: what happens to them, exactly when, and runs
 * of a room of eight players in which each occurs.
 */
module RosterLeaks {
  import opened Options
  import opened PlayerStores
  import opened MigrationRosters

  // ----- A leak is for good -----

  /** Reserved, and announced by no live roster. */
  ghost predicate Leaked(m: Room, i: int) {
    i in m.store.reserved && forall key :: !ListedUnder(m, key, i)
  }

  lemma ClaimKeepsLeak(m: Room, c: ClaimRequest, i: int)
    requires Valid(m.store) && Leaked(m, i)
    ensures Valid(ClaimRoster(m, c).room.store) && Leaked(ClaimRoster(m, c).room, i)
  {
    hide ReserveFor, Ids, SamePlayers;
    ReserveForMeaning(m.store, c.uuids);
    assert i !in FreeIds(m.store);
    hide Valid, FreeIds;
    var m' := ClaimRoster(m, c).room;
    forall key
      ensures !ListedUnder(m', key, i)
    {
      assert !ListedUnder(m, key, i);
    }
  }

  lemma {:induction false} FoundIsListed(entries: seq<Entry>, uuid: string)
    ensures FindEntry(entries, uuid).Some? ==> FindEntry(entries, uuid).value in Ids(entries)
  {
    if entries != [] {
      FoundIsListed(entries[1..], uuid);
      IdsCons(entries[0], entries[1..]);
      assert [entries[0]] + entries[1..] == entries;
    }
  }

  lemma AddKeepsReserved(s: Store, session: int, uuid: string, id: Option<int>, i: int)
    requires Valid(s) && i in s.reserved && id != Some(i)
    ensures Add(s, session, uuid, id).Ok? ==>
              var s' := Add(s, session, uuid, id).value.0;
              && Valid(s') && i in s'.reserved && Valid(RemoveBySession(s', session))
              && i in RemoveBySession(s', session).reserved
  {
    AddKeepsValid(s, session, uuid, id);
    if Add(s, session, uuid, id).Ok? {
      RemoveKeepsValid(Add(s, session, uuid, id).value.0, session);
    }
    hide Valid, FirstFree, Nth;
  }

  lemma DropKeepsLeak(m: Room, key: string, i: int)
    requires Valid(m.store) && Leaked(m, i) && key in m.rosters
    ensures Valid(DropRoster(m, key).store) && Leaked(DropRoster(m, key), i)
  {
    hide Valid, ReleaseAll, Ids;
    ReleaseAllMeaning(m.store, m.rosters[key].entries);
    assert !ListedUnder(m, key, i);
    var m' := DropRoster(m, key);
    forall k
      ensures !ListedUnder(m', k, i)
    {
      assert !ListedUnder(m, k, i);
    }
  }

  lemma JoinWithKeepsLeak(m: Room, session: int, uuid: string, key: Option<string>, sent: bool, i: int)
    requires Valid(m.store) && Leaked(m, i)
    ensures var m' := JoinWith(m, session, uuid, key, sent);
            Valid(m'.store) && Leaked(m', i)
  {
    hide Valid, FindEntry, DropRoster, Add, Ids, Leaked, RemoveBySession;
    var roster := if key.Some? && key.value in m.rosters then Some(m.rosters[key.value]) else None;
    var id := if roster.Some? then FindEntry(roster.value.entries, uuid) else None;
    LeakParts(m, i);
    if roster.Some? {
      FoundIsListed(roster.value.entries, uuid);
      assert !ListedUnder(m, key.value, i);
    }
    AddKeepsReserved(m.store, session, uuid, id, i);
    match Add(m.store, session, uuid, id)
    case Err(_) =>
      if id.Some? {
        IdStepsKeepValid(m.store, id.value);
        SameRostersLeak(m, m.(store := ReleaseReservedId(m.store, id.value)), i);
      }
    case Ok(added) =>
      if !sent {
        SameRostersLeak(m, m.(store := RemoveBySession(added.0, session)), i);
      } else if roster.Some? {
        var r := roster.value.(joined := roster.value.joined + {uuid});
        var m' := Room(added.0, m.rosters[key.value := r]);
        JoinedLeak(m, m', key.value, i);
        if AllJoined(r) {
          DropKeepsLeak(m', key.value, i);
        }
      } else {
        SameRostersLeak(m, m.(store := added.0), i);
      }
  }

  lemma LeakParts(m: Room, i: int)
    requires Leaked(m, i)
    ensures i in m.store.reserved && forall key :: !ListedUnder(m, key, i)
  {}

  lemma SameRostersLeak(m: Room, m': Room, i: int)
    requires Leaked(m, i) && m'.rosters == m.rosters && i in m'.store.reserved
    ensures Leaked(m', i)
  {
    forall key
      ensures !ListedUnder(m', key, i)
    {
      assert !ListedUnder(m, key, i);
    }
  }

  lemma JoinedLeak(m: Room, m': Room, key: string, i: int)
    requires Leaked(m, i) && i in m'.store.reserved && key in m.rosters && key in m'.rosters
    requires m'.rosters == m.rosters[key := m'.rosters[key]]
    requires m'.rosters[key].entries == m.rosters[key].entries
    ensures Leaked(m', i)
  {
    forall k
      ensures !ListedUnder(m', k, i)
    {
      assert !ListedUnder(m, k, i);
    }
  }

  lemma ExpireKeepsLeak(m: Room, now: int, i: int)
    requires Valid(m.store) && Leaked(m, i)
    ensures Valid(ExpireAll(m, now).store) && Leaked(ExpireAll(m, now), i)
  {
    var m' := ExpireAll(m, now);
    SamePlayersIgnoresIds(m.store, m'.store);
    ExpiredIdsListed(m, now);
    hide SamePlayers, ExpiredIds;
    forall k
      ensures !ListedUnder(m', k, i)
    {
      assert !ListedUnder(m, k, i);
    }
  }

  /** No step takes a leaked id back: not a claim, a join, its rollback or completion, a leave or an expiry. */
  lemma StepKeepsLeak(m: Room, e: Event, i: int)
    requires Valid(m.store) && Leaked(m, i)
    ensures Valid(Step(m, e).store) && Leaked(Step(m, e), i)
  {
    hide Valid, Leaked, ClaimRoster, JoinWith, ExpireAll, RemoveBySession;
    match e
    case Join(session, uuid, claim, sent) =>
      if claim == None {
        JoinWithKeepsLeak(m, session, uuid, None, sent, i);
      } else {
        ClaimKeepsLeak(m, claim.value, i);
        var m' := ClaimRoster(m, claim.value).room;
        JoinWithKeepsLeak(m', session, uuid, None, sent, i);
        JoinWithKeepsLeak(m', session, uuid, Some(claim.value.key), sent, i);
      }
    case Leave(session) =>
      RemoveKeepsValid(m.store, session);
      LeakParts(m, i);
      RemoveKeepsReserved(m.store, session);
      SameRostersLeak(m, m.(store := RemoveBySession(m.store, session)), i);
    case Expire(now) => ExpireKeepsLeak(m, now, i);
  }

  lemma RemoveKeepsReserved(s: Store, session: int)
    ensures RemoveBySession(s, session).reserved == s.reserved
  {}

  /** Whatever happens afterwards, a leaked id stays reserved and unannounced. */
  lemma {:induction false} LeakIsForGood(m: Room, events: seq<Event>, i: int)
    requires Valid(m.store) && Leaked(m, i)
    ensures Leaked(Run(m, events), i)
    decreases |events|
  {
    hide Valid, Leaked, Step;
    if events != [] {
      StepKeepsLeak(m, events[0], i);
      LeakIsForGood(Step(m, events[0]), events[1..], i);
    }
  }

  // ----- Which ids a group gets -----

  /** Steps from the counter to id i. */
  function Distance(s: Store, i: int): int {
    Steps(Start(s), i)
  }

  /** The free ids that come before i in the cycle. */
  function Before(s: Store, i: int): set<int> {
    set j | j in FreeIds(s) && Distance(s, j) < Distance(s, i)
  }

  lemma CycleDistance(start: int, i: int)
    requires IsId(start) && IsId(i)
    ensures Steps(start, i) == if i >= start then i - start else i - start + 255
  {}

  lemma DistanceTurns(start: int, f: int, i: int)
    requires IsId(start) && IsId(f) && IsId(i) && i != f
    requires Steps(start, f) <= Steps(start, i)
    ensures Steps(f % 255 + 1, i) == Steps(start, i) - Steps(start, f) - 1
  {
    hide Steps;
    CycleDistance(start, f);
    CycleDistance(start, i);
    assert f % 255 + 1 == if f == 255 then 1 else f + 1;
    CycleDistance(f % 255 + 1, i);
  }

  lemma StartIsId(s: Store)
    requires Valid(s)
    ensures IsId(Start(s))
  {}

  /** Once one id is taken, the others keep their order, each one step nearer. */
  lemma OrderKept(s: Store, j: int)
    requires Valid(s) && j in FreeIds(s) && AllocateId(s).Some?
    ensures var (s1, id) := AllocateId(s).value;
            Distance(s, id) <= Distance(s, j) && (j != id ==> Distance(s1, j) == Distance(s, j) - Distance(s, id) - 1)
  {
    StartIsId(s);
    hide Valid, FreeIds, AllocateId, Start, Steps;
    AllocationTurnsCycle(s);
    FailsOnlyWhenNoneFree(s);
    var (s1, id) := AllocateId(s).value;
    AllocatesFirstInCycle(s, j);
    FreeIdIsId(s, j);
    FreeIdIsId(s, id);
    if j != id {
      DistanceTurns(Start(s), id, j);
    }
  }

  lemma ReservedDistance(s: Store, id: int, j: int)
    requires ReserveId(s, id).Ok?
    ensures Distance(ReserveId(s, id).value, j) == Distance(s, j)
  {}

  /** Reserving for one member takes the first free id and leaves the order of the others. */
  lemma ReserveOneInOrder(s: Store, i: int)
    requires Valid(s) && FreeIds(s) != {} && i in FreeIds(s)
    ensures AllocateId(s).Some? && ReserveId(AllocateId(s).value.0, AllocateId(s).value.1).Ok?
    ensures var (s1, id) := AllocateId(s).value;
            var s2 := ReserveId(s1, id).value;
            if i == id then Before(s, i) == {} else Before(s, i) == Before(s2, i) + {id} && id !in Before(s2, i)
  {
    hide Valid, FreeIds, AllocateId, ReserveId, Distance;
    ReserveOne(s);
    var (s1, id) := AllocateId(s).value;
    var s2 := ReserveId(s1, id).value;
    OrderKept(s, i);
    ReservedDistance(s1, id, i);
    forall j | j in FreeIds(s)
      ensures Distance(s, id) <= Distance(s, j)
      ensures j != id ==> Distance(s2, j) == Distance(s, j) - Distance(s, id) - 1
    {
      OrderKept(s, j);
      ReservedDistance(s1, id, j);
    }
    if i != id {
      NotSamePlace(s, id, i);
      assert forall j :: j in Before(s, i) <==> j in Before(s2, i) + {id};
    }
  }

  lemma NotSamePlace(s: Store, id: int, i: int)
    requires Valid(s) && id in FreeIds(s) && i in FreeIds(s) && id != i
    ensures Distance(s, id) != Distance(s, i)
  {
    StartIsId(s);
    FreeIdIsId(s, id);
    FreeIdIsId(s, i);
    hide Valid, FreeIds, Start, Steps;
    CycleDistance(Start(s), id);
    CycleDistance(Start(s), i);
  }

  /** A group gets exactly the first free ids in cyclic order from the counter, as many as it has members. */
  lemma {:induction false} GroupTakesFirstFree(s: Store, uuids: seq<string>, i: int)
    requires Valid(s) && i in FreeIds(s)
    ensures i in Ids(ReserveFor(s, uuids).entries) <==> |Before(s, i)| < |uuids|
    decreases |uuids|
  {
    if uuids != [] {
      ReserveOne(s);
      ReserveOneInOrder(s, i);
      var (s1, id) := AllocateId(s).value;
      var s2 := ReserveId(s1, id).value;
      hide Valid, FreeIds, AllocateId, ReserveId, Before;
      var rest := ReserveFor(s2, uuids[1..]);
      IdsCons(Entry(id, uuids[0]), rest.entries);
      if i != id {
        assert |Before(s, i)| == |Before(s2, i)| + 1;
        GroupTakesFirstFree(s2, uuids[1..], i);
      }
    }
  }

  // ----- When rosters share an id -----

  /** The new roster announces an id that a live one announces too. */
  ghost predicate Shares(m: Room, c: ClaimRequest) {
    exists key, i :: ListedUnder(m, key, i) && i in Ids(ReserveFor(m.store, c.uuids).entries)
  }

  /**
   * A group's new roster shares an id with a live one exactly when an announced id that is free again
   * (its member came and left, or was refused) is among the first free ids, as many as the group has members.
   */
  lemma SharesIff(m: Room, c: ClaimRequest)
    requires Valid(m.store)
    ensures Shares(m, c) <==>
            exists key, i :: ListedUnder(m, key, i) && i in FreeIds(m.store) && |Before(m.store, i)| < |c.uuids|
  {
    hide Valid, ListedUnder, ReserveFor, Before, FreeIds;
    ReserveForMeaning(m.store, c.uuids);
    if key, i :| ListedUnder(m, key, i) && i in Ids(ReserveFor(m.store, c.uuids).entries) {
      GroupTakesFirstFree(m.store, c.uuids, i);
      assert ListedUnder(m, key, i) && i in FreeIds(m.store) && |Before(m.store, i)| < |c.uuids|;
    }
    if key, i :| ListedUnder(m, key, i) && i in FreeIds(m.store) && |Before(m.store, i)| < |c.uuids| {
      GroupTakesFirstFree(m.store, c.uuids, i);
      assert ListedUnder(m, key, i) && i in Ids(ReserveFor(m.store, c.uuids).entries);
    }
  }
}
