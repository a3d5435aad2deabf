/**
 * The room's players are the player store's: the ids that joins of the room take as given are the
 * ones the three-index store hands out, and both refuse the same joins.
 */
module RoomStores {
  import opened Options
  import opened Connections
  import opened RoomSteps
  import opened RoomInvariants
  import opened RoomRuns
  import S = PlayerStores

  /** The store holds exactly the room's players, under their ids and uuids. */
  ghost predicate Mirrors(p: People, st: S.Store) {
    && S.Valid(st) && st.maxPlayers == MAX_PLAYERS
    && (forall s: Sid :: s in p.info <==> s in st.bySession)
    && (forall s :: s in st.bySession ==> s >= 0)
    && (forall s: Sid :: s in p.info ==> st.bySession[s] == S.Player(p.info[s].id, p.info[s].uuid, s))
  }

  /** Both count the same players. */
  lemma {:induction false} SameSize(p: People, st: S.Store)
    requires Mirrors(p, st)
    ensures |st.byId| == |p.info|
    decreases |p.info|
  {
    hide Mirrors, S.RemoveBySession;
    if p.info.Keys == {} {
      NobodyStored(p, st);
    } else {
      var s: Sid :| s in p.info.Keys;
      var fewer, less := p.(info := p.info - {s}), S.RemoveBySession(st, s);
      var id := OneLess(p, st, s);
      SameSize(fewer, less);
      assert p.info.Keys == fewer.info.Keys + {s};
      assert st.byId.Keys == less.byId.Keys + {id};
    }
  }

  lemma NobodyStored(p: People, st: S.Store)
    requires Mirrors(p, st) && p.info.Keys == {}
    ensures |st.byId| == 0
  {
    StoredIds(p, st);
    hide Mirrors;
    forall i
      ensures i !in st.byId
    {
      if i in st.byId {
        assert false;
      }
    }
    assert st.byId == map[];
  }

  lemma OneLess(p: People, st: S.Store, s: Sid) returns (id: int)
    requires Mirrors(p, st) && s in p.info
    ensures Mirrors(p.(info := p.info - {s}), S.RemoveBySession(st, s))
    ensures id in st.byId && S.RemoveBySession(st, s).byId == st.byId - {id}
  {
    id := st.bySession[s].id;
    S.RemoveKeepsValid(st, s);
    assert S.Indexed(st, st.bySession[s]);
  }

  /**
   * A join is refused by the store only where the room refuses it too, or no id is to be had; and
   * what the store adds is what the room's join adds, under an id of 1..255 that the room accepts.
   */
  lemma AddIsJoin(r: Room, st: S.Store, s: Sid, uuid: string, wanted: Option<int>, l: Level)
    requires PeopleOk(r.people) && Mirrors(r.people, st) && MaySend(r, s, JoinGame)
    ensures match S.Add(st, s, uuid, wanted)
            case Ok(added) =>
              && S.IsId(added.1.id) && CanAdd(r, s, added.1.id, uuid) && (wanted.Some? ==> added.1.id == wanted.value)
              && Mirrors(Join(r, s, added.1.id, uuid, l, true).people, added.0)
            case Err(_) =>
              || (forall id :: !CanAdd(r, s, id, uuid))
              || (if wanted.Some? then !S.IsId(wanted.value) || !CanAdd(r, s, wanted.value, uuid)
                 else S.FreeIds(st) == {})
  {
    SameSize(r.people, st);
    S.AddKeepsValid(st, s, uuid, wanted);
    S.FailsOnlyWhenNoneFree(st);
    StoredIds(r.people, st);
    SessionStored(r.people, st, s);
    hide S.AllocateId, S.FreeIds, PeopleOk, S.SamePlayers;
    match S.Add(st, s, uuid, wanted)
    case Ok(added) =>
      AddedIs(st, s, uuid, wanted);
      hide S.Add;
      AddedCanAdd(r, st, s, added.1.id, uuid);
      JoinedInfo(r, s, added.1.id, uuid, l);
      JoinMirrors(r.people, Join(r, s, added.1.id, uuid, l, true).people, st, added.0, s, added.1, l);
    case Err(_) =>
      assert S.MAX_IDS == 255;
  }

  lemma SessionStored(p: People, st: S.Store, s: Sid)
    requires Mirrors(p, st)
    ensures s in st.bySession <==> s in p.info
  {}

  lemma AddedCanAdd(r: Room, st: S.Store, s: Sid, id: int, uuid: string)
    requires Mirrors(r.people, st) && |st.byId| < MAX_PLAYERS && |st.byId| == |r.people.info|
    requires id !in st.byId && uuid !in st.byUuid && s !in st.bySession
    ensures CanAdd(r, s, id, uuid)
  {
    StoredIds(r.people, st);
  }

  lemma JoinMirrors(p: People, q: People, st: S.Store, st': S.Store, s: Sid, player: S.Player, l: Level)
    requires Mirrors(p, st) && S.Valid(st') && st'.maxPlayers == st.maxPlayers
    requires st'.bySession == st.bySession[s := player]
    requires player == S.Player(player.id, player.uuid, s) && q.info == p.info[s := Info(player.id, player.uuid, l)]
    ensures Mirrors(q, st')
  {
    hide S.Valid;
  }

  lemma StoredIds(p: People, st: S.Store)
    requires Mirrors(p, st)
    ensures forall i :: i in st.byId <==> exists t: Sid :: t in p.info && p.info[t].id == i
    ensures forall u :: u in st.byUuid <==> exists t: Sid :: t in p.info && p.info[t].uuid == u
  {
    forall i | i in st.byId
      ensures exists t: Sid :: t in p.info && p.info[t].id == i
    {
      var t: Sid := st.byId[i].session;
      assert t in p.info && p.info[t].id == i;
    }
    forall u | u in st.byUuid
      ensures exists t: Sid :: t in p.info && p.info[t].uuid == u
    {
      var t: Sid := st.byUuid[u].session;
      assert t in p.info && p.info[t].uuid == u;
    }
    forall t: Sid | t in p.info
      ensures p.info[t].id in st.byId && p.info[t].uuid in st.byUuid
    {
      assert S.Indexed(st, st.bySession[t]);
    }
  }

  lemma AddedIs(st: S.Store, s: Sid, uuid: string, wanted: Option<int>)
    requires S.Valid(st) && S.Add(st, s, uuid, wanted).Ok?
    ensures var (st', player) := S.Add(st, s, uuid, wanted).value;
            && player == S.Player(player.id, uuid, s) && st'.bySession == st.bySession[s := player]
            && st'.maxPlayers == st.maxPlayers
  {
    hide S.FirstFree, S.Nth;
  }

  lemma JoinedInfo(r: Room, s: Sid, id: int, uuid: string, l: Level)
    requires MaySend(r, s, JoinGame) && CanAdd(r, s, id, uuid)
    ensures Join(r, s, id, uuid, l, true).people.info == r.people.info[s := Info(id, uuid, l)]
  {
    hide Elects, ActiveList;
  }

  /** Leaving the room is leaving the store. */
  lemma RemoveIsDisconnect(r: Room, st: S.Store, s: Sid)
    requires Mirrors(r.people, st) && (s in r.people.info ==> s in r.people.sessions)
    ensures Mirrors(Disconnect(r, s).people, S.RemoveBySession(st, s))
  {
    if s in r.people.info {
      var id := OneLess(r.people, st, s);
      DisconnectInfo(r, s);
      hide S.Valid, S.RemoveBySession, Disconnect;
    } else {
      SessionStored(r.people, st, s);
      hide S.Valid, Release;
    }
  }

  lemma DisconnectInfo(r: Room, s: Sid)
    requires s in r.people.info && s in r.people.sessions
    ensures Disconnect(r, s).people.info == r.people.info - {s}
  {
    hide Release;
    ReleasePeople(ForgetMoves(r.(people := Without(r.people, s)), r.people.info[s].id), s, r.people.info[s].level);
  }

  /** The same players under the same ids and uuids. */
  ghost predicate SameIdentities(p: People, q: People) {
    && (forall s :: s in p.info <==> s in q.info)
    && forall s :: s in p.info ==> q.info[s].id == p.info[s].id && q.info[s].uuid == p.info[s].uuid
  }

  lemma ChangeLevelIdentities(r: Room, s: Sid, l: Level)
    ensures SameIdentities(r.people, ChangeLevel(r, s, l).people)
  {
    hide Rebalance, ClearPenalty;
    if MaySend(r, s, LevelUpdate) && s in r.people.info {
      var from := r.people.info[s].level;
      RebalancePeople(r.(people := Relocate(r.people, s, l),
          board := RevokeAuthority(ClearPenalty(r.board, from, s), from)), from);
      RebalancePeople(LeaveLevel(r, s, l), l);
    }
  }

  lemma MoveIdentities(r: Room, e: Event)
    requires Inv(r) && (e.EvMove? || e.EvMoveGroup?)
    ensures SameIdentities(r.people, Step(r, e).people)
  {
    hide Inv, Release, Core, PendingOk, MoveGroup;
    match e
    case EvMove(s, target, now, sent) =>
      if Movable(r, s) && sent {
        var id := r.people.info[s].id;
        var ready := r.(pending := r.pending[Single(id, target, now) := id], log := r.log + [MoveGame(s)]);
        ReleasePeople(ready.(people := SetState(r.people, s, Moving)), s, r.people.info[s].level);
      }
    case EvMoveGroup(group, txn, target, now, failAt) =>
      if !GroupAccepted(r, group) {
        GroupRejected(r, group, txn, target, now, failAt);
      } else if failAt.Some? && failAt.value < |Eligible(r, group)| {
        GroupMoveRollsBack(r, group, txn, target, now, failAt.value);
      } else {
        GroupMoveCommits(r, group, txn, target, now, failAt);
      }
    case _ =>
  }

  lemma ResumeIdentities(r: Room, s: Sid)
    requires s in r.people.info
    ensures SameIdentities(r.people, Resume(r, s).people)
  {
    hide Rebalance;
    RebalancePeople(r.(people := SetState(r.people, s, Active), log := r.log + [Resumed(s)]), r.people.info[s].level);
  }

  /** Every other step leaves the players and their ids as they are. */
  lemma OthersKeepIdentities(r: Room, e: Event)
    requires Inv(r) && !e.EvJoin? && !e.EvDisconnect?
    ensures SameIdentities(r.people, Step(r, e).people)
  {
    hide Inv, ChangeLevel, Heartbeat, ClientRevoke, ServerRevoke, MoveOne, MoveGroup, Resume, Core, LevelOk, HasPending;
    assert Core(r) by { InvKnown(r, 0); }
    match e
    case EvConnect =>
    case EvChangeLevel(s, l) => ChangeLevelIdentities(r, s, l);
    case EvHeartbeat(s, l) => HeartbeatKeepsCore(r, s, l);
    case EvClientRevoke(s) => ClientRevokeKeepsCore(r, s);
    case EvServerRevoke(l) => ServerRevokeKeepsCore(r, l);
    case EvMove(s, target, now, sent) => MoveIdentities(r, e);
    case EvMoveGroup(group, txn, target, now, failAt) => MoveIdentities(r, e);
    case EvMoveResult(s, result) =>
      if s in r.people.info {
        ResumeIdentities(ForgetMoves(r, r.people.info[s].id), s);
      }
    case EvCancelMove(s, sent) =>
      if s in r.people.info {
        ResumeIdentities(r.(log := r.log + [CancelMove(s)]), s);
      }
    case EvClose(s) =>
  }

  lemma IdentitiesMirror(p: People, q: People, st: S.Store)
    requires Mirrors(p, st) && SameIdentities(p, q)
    ensures Mirrors(q, st)
  {
    hide S.Valid;
  }

  // ----- The two together -----

  /** A join with the id the store chooses, a departure from both, and any other step of the room. */
  function Together(r: Room, st: S.Store, e: Event, wanted: Option<int>): (Room, S.Store) {
    match e
    case EvJoin(s, _, uuid, l, sent) =>
      if !MaySend(r, s, JoinGame) then (r, st)
      else
        (match S.Add(st, s, uuid, wanted)
         case Err(_) => (r, st)
         case Ok(added) =>
           if sent then (Join(r, s, added.1.id, uuid, l, true), added.0) else (r, S.RemoveBySession(added.0, s)))
    case EvDisconnect(s) => (Disconnect(r, s), if s in r.people.sessions then S.RemoveBySession(st, s) else st)
    case _ => (Step(r, e), st)
  }

  lemma JoinSteps(r: Room, s: Sid, id: int, uuid: string, l: Level)
    ensures Step(r, EvJoin(s, id, uuid, l, false)) == r
    ensures Step(r, EvJoin(s, id, uuid, l, true)) == Join(r, s, id, uuid, l, true)
  {
    hide SetAuthority;
  }

  /** A failed EnterGame send leaves the store with the players it had. */
  lemma AddedThenRemoved(p: People, st: S.Store, s: Sid, uuid: string, wanted: Option<int>)
    requires Mirrors(p, st) && S.Add(st, s, uuid, wanted).Ok?
    ensures Mirrors(p, S.RemoveBySession(S.Add(st, s, uuid, wanted).value.0, s))
  {
    S.AddKeepsValid(st, s, uuid, wanted);
    AddedIs(st, s, uuid, wanted);
    var added := S.Add(st, s, uuid, wanted).value;
    S.RemoveKeepsValid(added.0, s);
    S.RemoveUndoesAdd(st, s, uuid, wanted);
    SameLimit(added.0, s);
    hide S.Valid, S.Add, S.RemoveBySession;
  }

  lemma SameLimit(st: S.Store, s: Sid)
    ensures S.RemoveBySession(st, s).maxPlayers == st.maxPlayers
  {}

  lemma DisconnectTogether(r: Room, st: S.Store, s: Sid)
    requires PeopleOk(r.people) && Mirrors(r.people, st)
    ensures Mirrors(Disconnect(r, s).people, if s in r.people.sessions then S.RemoveBySession(st, s) else st)
    ensures Step(r, EvDisconnect(s)) == Disconnect(r, s)
  {
    hide S.Valid, S.RemoveBySession, Release;
    RemoveIsDisconnect(r, st, s);
  }

  /**
   * Run side by side, room and store agree on the players after every step, and the room's step is
   * always one of those the room's own theorems are about.
   */
  lemma TogetherMirrors(r: Room, st: S.Store, e: Event, wanted: Option<int>)
    requires Inv(r) && Mirrors(r.people, st)
    ensures var (r', st') := Together(r, st, e, wanted);
            Inv(r') && Mirrors(r'.people, st') && exists same: Event :: r' == Step(r, same)
  {
    assert PeopleOk(r.people);
    hide Inv, PeopleOk, Join, Disconnect, Step, Mirrors, S.Add, S.RemoveBySession;
    match e
    case EvJoin(s, id, uuid, l, sent) =>
      JoinSteps(r, s, id, uuid, l);
      if MaySend(r, s, JoinGame) && S.Add(st, s, uuid, wanted).Ok? {
        var added := S.Add(st, s, uuid, wanted).value;
        AddIsJoin(r, st, s, uuid, wanted, l);
        StepKeepsInv(r, EvJoin(s, added.1.id, uuid, l, true));
        JoinSteps(r, s, added.1.id, uuid, l);
        AddedThenRemoved(r.people, st, s, uuid, wanted);
      }
    case EvDisconnect(s) =>
      StepKeepsInv(r, e);
      DisconnectTogether(r, st, s);
    case _ =>
      StepKeepsInv(r, e);
      OthersKeepIdentities(r, e);
      IdentitiesMirror(r.people, Step(r, e).people, st);
  }
}
