/**
 * Lone players. Forgiving the only active player of a level aims at never leaving one without an
 * authority; exactly two kinds of step defeat it.
 */
module RoomCoverage {
  import opened Options
  import opened Connections
  import opened RoomSteps
  import opened RoomInvariants
  import opened RoomRuns
  import H = RoomHistories

  ghost predicate OnlyActive(p: People, k: Level, s: Sid) {
    ActiveIn(p, s, k) && forall t :: ActiveIn(p, t, k) ==> t == s
  }

  /** k has no authority although it has exactly one active player. */
  ghost predicate Lone(r: Room, k: Level) {
    k !in r.board.authority && exists s :: OnlyActive(r.people, k, s)
  }

  /** s and exactly one other player are active in k. */
  ghost predicate OneOfTwo(p: People, k: Level, s: Sid) {
    ActiveIn(p, s, k) && exists t :: t != s && ActiveIn(p, t, k) && forall u :: ActiveIn(p, u, k) ==> u == s || u == t
  }

  /** Of two penalized players in a level without an authority, one goes elsewhere or is closed. */
  ghost predicate Uncovers(r: Room, e: Event, k: Level) {
    && k !in r.board.authority
    && match e
       case EvChangeLevel(s, l) => l != k && OneOfTwo(r.people, k, s)
       case EvClose(s) => OneOfTwo(r.people, k, s)
       case _ => false
  }

  // ----- What leaves a level alone, and what covers it -----

  /** The same players are active in k, and it has an authority in both or in neither. */
  ghost predicate SameCover(r: Room, r': Room, k: Level) {
    && (k in r.board.authority <==> k in r'.board.authority)
    && forall s :: ActiveIn(r.people, s, k) <==> ActiveIn(r'.people, s, k)
  }

  lemma SameCoverLone(r: Room, r': Room, k: Level)
    requires SameCover(r, r', k)
    ensures Lone(r, k) <==> Lone(r', k)
  {
    hide ActiveIn;
    if s :| OnlyActive(r.people, k, s) {
      assert OnlyActive(r'.people, k, s);
    }
    if s :| OnlyActive(r'.people, k, s) {
      assert OnlyActive(r.people, k, s);
    }
  }

  lemma OnlyLevelSameCover(r: Room, r': Room, l: Level, k: Level)
    requires OnlyLevel(r, r', l) && k != l
    ensures SameCover(r, r', k)
  {
    hide ActiveIn, Pen, Last;
    assert Authority(r'.board, k) == Authority(r.board, k);
  }

  lemma SameForSameCover(r: Room, r': Room, k: Level)
    requires SameFor(r, r', k)
    ensures SameCover(r, r', k)
  {
    hide Pen, Last;
    assert Authority(r'.board, k) == Authority(r.board, k);
  }

  lemma OnlyActiveList(r: Room, k: Level, s: Sid)
    requires PeopleOk(r.people) && OnlyActive(r.people, k, s)
    ensures ActiveList(r.people, k) == [s]
  {
    hide ActiveIn, ActiveList, NoDuplicates;
    ActiveListIs(r, k);
    ActiveListDistinct(r.people, k);
    OnlyMember(ActiveList(r.people, k), s);
  }

  lemma OnlyMember(active: seq<Sid>, s: Sid)
    requires NoDuplicates(active) && forall t :: t in active <==> t == s
    ensures active == [s]
  {
    assert s in active && forall i :: 0 <= i < |active| ==> active[i] in active;
    if |active| > 1 {
      Distinct(active);
      assert false;
    }
  }

  lemma Distinct(s: seq<Sid>)
    requires NoDuplicates(s) && |s| > 1
    ensures s[0] != s[1]
  {}

  /** An election never leaves its own level with a lone player and no authority. */
  lemma RebalanceCovers(r: Room, l: Level)
    requires PeopleOk(r.people)
    ensures !Lone(Rebalance(r, l), l)
  {
    hide Rebalance, ActiveList, ActiveIn, Pen, PeopleOk;
    RebalancePeople(r, l);
    RebalanceElectsEarliest(r, l);
    if s :| OnlyActive(r.people, l, s) {
      OnlyActiveList(r, l, s);
      assert s in [s];
    }
  }

  lemma SelectCovers(r: Room, l: Level)
    requires PeopleOk(r.people) && l !in r.board.suppressed && l !in r.board.authority
    ensures !Lone(SelectAndElect(r, l), l)
  {
    hide SelectAndElect, ActiveList, ActiveIn, Pen, PeopleOk;
    SelectLog(r, l);
    SelectElectsEarliest(r, l);
    if s :| OnlyActive(r.people, l, s) {
      OnlyActiveList(r, l, s);
      assert s in [s];
    }
  }

  // ----- The steps -----

  lemma HeldNotLone(r: Room, k: Level)
    requires k in r.board.authority
    ensures !Lone(r, k)
  {}

  lemma ConnectCovers(r: Room, k: Level)
    requires PeopleOk(r.people)
    ensures Lone(Connect(r), k) <==> Lone(r, k)
  {
    hide NoDuplicates;
    SameCoverLone(r, Connect(r), k);
  }

  lemma JoinCovers(r: Room, s: Sid, id: int, uuid: string, l: Level, sent: bool, k: Level)
    requires Core(r) && !Lone(r, k)
    ensures !Lone(Join(r, s, id, uuid, l, sent), k)
  {
    hide LevelOk, PeopleOk, Lone, SameCover, Elects, ActiveList;
    var r' := Join(r, s, id, uuid, l, sent);
    if MaySend(r, s, JoinGame) && CanAdd(r, s, id, uuid) && sent {
      if k == l {
        HeldNotLone(r', k);
      } else {
        SameCoverLone(r, r', k) by { JoinElsewhere(r, s, id, uuid, l, k); }
      }
    }
  }

  lemma JoinElsewhere(r: Room, s: Sid, id: int, uuid: string, l: Level, k: Level)
    requires k != l && s !in r.people.info
    ensures SameCover(r, Join(r, s, id, uuid, l, true), k)
  {
    hide Elects, ActiveList;
  }

  lemma ElectionCovers(r: Room, r0: Room, l: Level, k: Level)
    requires PeopleOk(r0.people) && !Lone(r, k)
    requires k != l ==> SameCover(r, r0, k)
    requires Electable(r0, l)
    ensures !Lone(Rebalance(r0, l), k)
  {
    hide Lone, SameCover, Rebalance, PeopleOk, OnlyLevel, Electable, LevelOk;
    if k == l {
      RebalanceCovers(r0, l);
    } else {
      RebalanceEstablishes(r0, l);
      OnlyLevelSameCover(r0, Rebalance(r0, l), l, k);
      SameCoverLone(r, r0, k);
      SameCoverLone(r0, Rebalance(r0, l), k);
    }
  }

  lemma HeartbeatCovers(r: Room, s: Sid, l: Level, k: Level)
    requires Core(r) && !Lone(r, k)
    ensures !Lone(Heartbeat(r, s, l), k)
  {
    hide LevelOk, Lone, SameCover, SelectAndElect, PeopleOk, OnlyLevel, Electable;
    if MaySend(r, s, GameMsg) && InLevel(r.people, s, l) && l !in r.board.authority {
      CoreElectable(r, l);
      SameCoverIs(r, r, k);
      SelectionCovers(r, r, l, k);
    }
  }

  lemma SelectionCovers(r: Room, r0: Room, l: Level, k: Level)
    requires Electable(r0, l) && l !in r0.board.authority && !Lone(r, k)
    requires k != l ==> SameCover(r, r0, k)
    ensures !Lone(SelectAndElect(r0, l), k)
  {
    hide Lone, SameCover, SelectAndElect, PeopleOk, OnlyLevel, LevelOk;
    if k == l {
      SelectCovers(r0, l);
    } else {
      SelectEstablishes(r0, l);
      OnlyLevelSameCover(r0, SelectAndElect(r0, l), l, k);
      SameCoverLone(r, r0, k);
      SameCoverLone(r0, SelectAndElect(r0, l), k);
    }
  }

  lemma ClientRevokeCovers(r: Room, s: Sid, k: Level)
    requires Core(r) && !Lone(r, k)
    ensures !Lone(ClientRevoke(r, s), k)
  {
    hide LevelOk, Lone, SameCover, SelectAndElect, PeopleOk, OnlyLevel, Electable, Penalize, Revokes, ActiveList;
    if MaySend(r, s, GameMsg) && s in r.people.info {
      var l := r.people.info[s].level;
      if Authority(r.board, l) == Some(s) {
        var r0 := r.(board := RevokeAuthority(Penalize(r.board, l, s), l),
                     log := r.log + Revokes(ActiveList(r.people, l), r.people.info[s].id));
        assert LevelOk(r, l);
        PenalizedElectable(r, s, l);
        if k != l {
          OnlyLevelSameCover(r, r0, l, k);
        }
        SelectionCovers(r, r0, l, k);
      }
    }
  }

  lemma ServerRevokeCovers(r: Room, l: Level, k: Level)
    requires Core(r) && !Lone(r, k)
    ensures !Lone(ServerRevoke(r, l), k)
  {
    hide LevelOk, Lone, SameCover, Rebalance, PeopleOk, OnlyLevel, Electable, RevokesAndElects, ActiveList,
         ServerRevoke;
    assert LevelOk(r, l);
    if l in r.board.authority {
      AuthorityStored(r, l);
      var r0 := r.(board := RevokeAuthority(r.board, l));
      RevokedElectable(r, l);
      if k != l {
        OnlyLevelSameCover(r, r0, l, k);
      }
      ElectionCovers(r, r0, l, k);
      ServerRevokeIs(r, l);
      RebalancePeople(r0, l);
      SameCoverIs(Rebalance(r0, l), ServerRevoke(r, l), k);
      SameCoverLone(Rebalance(r0, l), ServerRevoke(r, l), k);
    } else {
      NothingToRevoke(r, l);
    }
  }

  lemma SameCoverIs(r: Room, r': Room, k: Level)
    requires r'.people == r.people && r'.board.authority == r.board.authority
    ensures SameCover(r, r', k)
  {}

  lemma ReleaseCovers(r: Room, r0: Room, s: Sid, l: Level, k: Level)
    requires PeopleOk(r0.people) && r0.board.suppressed == {} && Leaving(r0, l, s) && !Lone(r, k)
    requires k != l ==> SameCover(r, r0, k)
    ensures !Lone(Release(r0, s, l), k)
  {
    hide Lone, SameCover, Rebalance, PeopleOk, OnlyLevel, Electable, Leaving, Released;
    var r1 := r0.(board := Released(r0.board, s, l));
    ReleasedElectable(r0, s, l);
    if k != l {
      OnlyLevelSameCover(r0, r1, l, k);
      SameCoverLone(r, r0, k);
      SameCoverJoin(r, r0, r1, k);
    }
    ElectionCovers(r, r1, l, k);
    ReleaseIs(r0, s, l);
  }

  lemma SameCoverJoin(a: Room, b: Room, c: Room, k: Level)
    requires SameCover(a, b, k) && SameCover(b, c, k)
    ensures SameCover(a, c, k)
  {}

  lemma StartMovingCovers(r: Room, s: Sid, k: Level)
    requires Core(r) && s in r.people.info && InState(r.people, s, Active) && !Lone(r, k)
    ensures !Lone(StartMoving(r, s), k)
  {
    hide LevelOk, PeopleOk, Release, Leaving, SameFor, Lone, SameCover;
    var l := r.people.info[s].level;
    var moving := r.(people := SetState(r.people, s, Moving));
    assert LevelOk(r, l);
    MovingLeaves(r, s);
    if k != l {
      SameForSameCover(r, moving, k);
    }
    ReleaseCovers(r, moving, s, l, k);
  }

  lemma {:induction false} StartAllCovers(r: Room, group: seq<Sid>, k: Level)
    requires Core(r) && NoDuplicates(group) && !Lone(r, k)
    requires forall s :: s in group ==> s in r.people.info && InState(r.people, s, Active)
    ensures !Lone(StartAll(r, group), k)
    decreases |group|
  {
    hide LevelOk, PeopleOk, StartMoving, Lone;
    if group != [] {
      StartMovingKeepsCore(r, group[0]);
      StartMovingCovers(r, group[0], k);
      NoDuplicatesTail(group);
      assert forall t :: t in group[1..] ==> t in group && t != group[0];
      StartAllCovers(StartMoving(r, group[0]), group[1..], k);
    }
  }

  lemma MoveOneCovers(r: Room, s: Sid, target: string, now: int, sent: bool, k: Level)
    requires Inv(r) && !Lone(r, k)
    ensures !Lone(MoveOne(r, s, target, now, sent), k)
  {
    hide LevelOk, PeopleOk, StartMoving, PendingOk, Last, Lone;
    if Movable(r, s) && sent {
      var id := r.people.info[s].id;
      var ready := r.(pending := r.pending[Single(id, target, now) := id], log := r.log + [MoveGame(s)]);
      LastUnrelated(r.log, [MoveGame(s)]);
      UnrelatedKeepsCore(r, ready);
      SameCoverLone(r, ready, k);
      StartMovingCovers(ready, s, k);
    }
  }

  lemma MoveGroupCovers(r: Room, group: seq<Sid>, txn: Option<string>, target: string, now: int, failAt: Option<nat>,
      k: Level)
    requires Inv(r) && !Lone(r, k)
    ensures !Lone(MoveGroup(r, group, txn, target, now, failAt), k)
  {
    hide LevelOk, PeopleOk, PendingOk, StartAll, PrepareAll, MoveGames, CancelMoves, Ready, NoDuplicates, Last, Lone;
    var r' := MoveGroup(r, group, txn, target, now, failAt);
    var e := Eligible(r, group);
    if !GroupAccepted(r, group) {
      GroupRejected(r, group, txn, target, now, failAt);
    } else if failAt.Some? && failAt.value < |e| {
      GroupMoveRollsBack(r, group, txn, target, now, failAt.value);
      SameCoverLone(r, r', k);
    } else {
      EligibleReady(r, group);
      EligibleDistinct(r, group);
      var ready := r.(pending := PrepareAll(r, e, txn, target, now), log := r.log + MoveGames(e));
      MoveGamesAre(e);
      LastUnrelated(r.log, MoveGames(e));
      UnrelatedKeepsCore(r, ready);
      SameCoverLone(r, ready, k);
      StartAllCovers(ready, e, k);
    }
  }

  lemma ResumeCovers(r: Room, s: Sid, k: Level)
    requires Core(r) && s in r.people.info && InState(r.people, s, Moving) && !Lone(r, k)
    ensures !Lone(Resume(r, s), k)
  {
    hide LevelOk, PeopleOk, Rebalance, Electable, SameFor, Lone, SameCover;
    var l := r.people.info[s].level;
    var back := H.Back(r, s);
    assert LevelOk(r, l);
    ResumedElectable(r, s);
    if k != l {
      SameForSameCover(r, back, k);
    }
    H.ElectablePeople(back, l);
    ElectionCovers(r, back, l, k);
  }

  lemma MoveResultCovers(r: Room, s: Sid, result: int, k: Level)
    requires Inv(r) && !Lone(r, k)
    ensures !Lone(HandleMoveResult(r, s, result), k)
  {
    hide LevelOk, PeopleOk, PendingOk, Resume, Lone;
    if MaySend(r, s, MoveResult) && s in r.people.info && HasPending(r, r.people.info[s].id) {
      var acked := ForgetMoves(r, r.people.info[s].id);
      UnrelatedKeepsCore(r, acked);
      SameCoverLone(r, acked, k);
      if InState(r.people, s, Moving) {
        ResumeCovers(acked, s, k);
      }
    }
  }

  lemma CancelMoveCovers(r: Room, s: Sid, sent: bool, k: Level)
    requires Inv(r) && !Lone(r, k)
    ensures !Lone(CancelPlayerMove(r, s, sent), k)
  {
    hide LevelOk, PeopleOk, PendingOk, Resume, Lone, Last;
    if s in r.people.info && sent {
      var id := r.people.info[s].id;
      var told := r.(log := r.log + [CancelMove(s)]);
      LastUnrelated(r.log, [CancelMove(s)]);
      UnrelatedKeepsCore(r, told);
      SameCoverLone(r, told, k);
      if InState(r.people, s, Moving) {
        ResumeCovers(told, s, k);
        SameCoverLone(Resume(told, s), ForgetMoves(Resume(told, s), id), k);
      } else {
        SameCoverLone(told, ForgetMoves(told, id), k);
      }
    }
  }

  lemma DisconnectCovers(r: Room, s: Sid, k: Level)
    requires Core(r) && !Lone(r, k)
    ensures !Lone(Disconnect(r, s), k)
  {
    hide LevelOk, PeopleOk, Release, Leaving, SameFor, Lone, SameCover;
    if s !in r.people.sessions {
    } else if s in r.people.info {
      var l := r.people.info[s].level;
      var kept := ForgetMoves(r, r.people.info[s].id);
      UnrelatedKeepsCore(r, kept);
      assert LevelOk(kept, l);
      var removed := kept.(people := Without(r.people, s));
      RemovedLeaves(kept, s);
      SameCoverIs(r, kept, k);
      SameCoverLone(r, kept, k);
      if k != l {
        SameForSameCover(kept, removed, k);
      }
      ReleaseCovers(kept, removed, s, l, k);
      assert Disconnect(r, s) == Release(removed, s, l);
    } else {
      GuestCovers(r, s, k);
      SameCoverLone(r, Disconnect(r, s), k);
    }
  }

  lemma GuestCovers(r: Room, s: Sid, k: Level)
    requires s !in r.people.info && s in r.people.sessions
    ensures SameCover(r, Disconnect(r, s), k)
  {}

  // ----- The two steps that uncover -----

  lemma CloseUncoversIff(r: Room, s: Sid, k: Level)
    requires !Lone(r, k)
    ensures Lone(Close(r, s), k) <==> k !in r.board.authority && OneOfTwo(r.people, k, s)
  {
    var r' := Close(r, s);
    if ActiveIn(r.people, s, k) {
      assert forall t :: ActiveIn(r'.people, t, k) <==> ActiveIn(r.people, t, k) && t != s;
      WithoutOne(r.people, r'.people, k, s);
    } else {
      assert SameCover(r, r', k);
      SameCoverLone(r, r', k);
    }
  }

  lemma WithoutOne(p: People, q: People, k: Level, s: Sid)
    requires ActiveIn(p, s, k) && forall t :: ActiveIn(q, t, k) <==> ActiveIn(p, t, k) && t != s
    ensures (exists t :: OnlyActive(q, k, t)) <==> OneOfTwo(p, k, s)
  {
    hide ActiveIn;
    if t :| OnlyActive(q, k, t) {
      assert t != s && ActiveIn(p, t, k) && forall u :: ActiveIn(p, u, k) ==> u == s || u == t;
    }
    if OneOfTwo(p, k, s) {
      var t :| t != s && ActiveIn(p, t, k) && forall u :: ActiveIn(p, u, k) ==> u == s || u == t;
      assert OnlyActive(q, k, t);
    }
  }

  /** Leaving level k: an authority that leaves is replaced, anybody else leaves quietly. */
  lemma LeaveUncoversIff(r: Room, s: Sid, l: Level, k: Level)
    requires Core(r) && !Lone(r, k) && l != k && ActiveIn(r.people, s, k)
    ensures Lone(LeaveLevel(r, s, l), k) <==> k !in r.board.authority && OneOfTwo(r.people, k, s)
  {
    hide LevelOk, PeopleOk, Rebalance, ClearPenalty;
    var moved := r.(people := Relocate(r.people, s, l));
    RelocatedPeople(r, s, l);
    PenaltyOps(r.board, k, s, []);
    if Authority(r.board, k) == Some(s) {
      RebalanceCovers(moved.(board := RevokeAuthority(ClearPenalty(r.board, k, s), k)), k);
    } else {
      var r' := LeaveLevel(r, s, l);
      assert forall t :: ActiveIn(r'.people, t, k) <==> ActiveIn(r.people, t, k) && t != s;
      WithoutOne(r.people, r'.people, k, s);
    }
  }

  lemma ChangeLevelUncoversIff(r: Room, s: Sid, l: Level, k: Level)
    requires Core(r) && !Lone(r, k)
    ensures Lone(ChangeLevel(r, s, l), k) <==> Uncovers(r, EvChangeLevel(s, l), k)
  {
    hide LevelOk, PeopleOk, Lone, OneOfTwo, LeaveLevel, EnterLevel, SameCover, Arriving, LevelsExcept;
    if MaySend(r, s, LevelUpdate) && s in r.people.info {
      var from := r.people.info[s].level;
      var r1 := LeaveLevel(r, s, l);
      LeftReady(r, s, l);
      if k == l {
        EnterCovers(r1, s, l);
      } else {
        EnterKeepsCore(r1, s, l);
        OnlyLevelSameCover(r1, EnterLevel(r1, s, l), l, k);
        SameCoverLone(r1, EnterLevel(r1, s, l), k);
        if k == from {
          LeaveUncoversIff(r, s, l, k);
        } else {
          LeaveElsewhere(r, s, l, k);
          SameCoverLone(r, r1, k);
          NotOneOfTwo(r.people, k, s);
        }
      }
    } else {
      NotActive(r.people, s, k);
    }
  }

  lemma NotOneOfTwo(p: People, k: Level, s: Sid)
    requires !InLevel(p, s, k)
    ensures !OneOfTwo(p, k, s)
  {}

  lemma NotActive(p: People, s: Sid, k: Level)
    requires !(InState(p, s, Active) && s in p.info)
    ensures !OneOfTwo(p, k, s)
  {}

  /** After leaving (or staying), s is ready to enter l. */
  lemma LeftReady(r: Room, s: Sid, l: Level)
    requires Core(r) && MaySend(r, s, LevelUpdate) && s in r.people.info
    ensures var r1 := LeaveLevel(r, s, l);
            && PeopleOk(r1.people) && r1.board.suppressed == {} && LevelsExcept(r1, l)
            && Arriving(r1, l, s) && ActiveIn(r1.people, s, l) && AuthorityOk(r1, l)
  {
    hide LevelOk, LeaveLevel, Arriving, PeopleOk, LevelsExcept;
    RelocatedPeople(r, s, l);
    if r.people.info[s].level == l {
      StayingIsNothing(r, s, l);
      CoreElectable(r, l);
      assert LevelOk(r, l);
      LevelIsArriving(r, l, s);
    } else {
      LeaveKeeps(r, s, l);
    }
    ArrivingAuthority(LeaveLevel(r, s, l), l, s);
  }

  lemma ArrivingAuthority(r: Room, l: Level, s: Sid)
    requires Arriving(r, l, s)
    ensures AuthorityOk(r, l)
  {}

  lemma EnterCovers(r: Room, s: Sid, l: Level)
    requires PeopleOk(r.people) && ActiveIn(r.people, s, l) && r.board.suppressed == {}
    requires AuthorityOk(r, l)
    ensures !Lone(EnterLevel(r, s, l), l)
  {
    hide Rebalance, PeopleOk;
    if Authority(r.board, l) == None {
      RebalanceCovers(r, l);
    }
  }

  lemma LeaveElsewhere(r: Room, s: Sid, l: Level, k: Level)
    requires s in r.people.info && k != l && k != r.people.info[s].level
    ensures SameCover(r, LeaveLevel(r, s, l), k)
  {
    hide Rebalance, ClearPenalty;
    var from := r.people.info[s].level;
    var moved := r.(people := Relocate(r.people, s, l));
    PenaltyOps(r.board, from, s, []);
    var freed := moved.(board := RevokeAuthority(ClearPenalty(r.board, from, s), from));
    RebalancePeople(freed, from);
    RebalanceElsewhere(freed, from, k);
  }

  lemma RebalanceElsewhere(r: Room, l: Level, k: Level)
    requires k != l
    ensures Authority(Rebalance(r, l).board, k) == Authority(r.board, k)
  {
    hide Elects, ActiveList, Prune, Pick, ClearPenalty, Pen;
    var pruned := r.(board := Prune(r.board, l, ActiveList(r.people, l)));
    PenaltyOps(r.board, l, 0, ActiveList(r.people, l));
    forall s ensures ClearPenalty(pruned.board, l, s).authority == r.board.authority {
      PenaltyOps(pruned.board, l, s, []);
    }
  }

  /**
   * In a reachable room a step leaves a level k with one active player and no authority, where it was
   * not so before, exactly when k had no authority and two active players, one of whom changes level
   * or is closed.
   */
  lemma StepUncoversIff(r: Room, e: Event, k: Level)
    requires Inv(r) && !Lone(r, k)
    ensures Lone(Step(r, e), k) <==> Uncovers(r, e, k)
  {
    hide LevelOk, PeopleOk, PendingOk, Lone, OneOfTwo, Connect, Join, ChangeLevel, Heartbeat, ClientRevoke,
         ServerRevoke,
         MoveOne, MoveGroup, HandleMoveResult, CancelPlayerMove, Close, Disconnect;
    match e
    case EvConnect => ConnectCovers(r, k);
    case EvJoin(s, id, uuid, l, sent) => JoinCovers(r, s, id, uuid, l, sent, k);
    case EvChangeLevel(s, l) => ChangeLevelUncoversIff(r, s, l, k);
    case EvHeartbeat(s, l) => HeartbeatCovers(r, s, l, k);
    case EvClientRevoke(s) => ClientRevokeCovers(r, s, k);
    case EvServerRevoke(l) => ServerRevokeCovers(r, l, k);
    case EvMove(s, target, now, sent) => MoveOneCovers(r, s, target, now, sent, k);
    case EvMoveGroup(group, txn, target, now, failAt) => MoveGroupCovers(r, group, txn, target, now, failAt, k);
    case EvMoveResult(s, result) => MoveResultCovers(r, s, result, k);
    case EvCancelMove(s, sent) => CancelMoveCovers(r, s, sent, k);
    case EvClose(s) => CloseUncoversIff(r, s, k);
    case EvDisconnect(s) => DisconnectCovers(r, s, k);
  }

  /** A heartbeat of the lone player mends it: the player is forgiven and holds its level. */
  lemma HeartbeatMends(r: Room, s: Sid, k: Level)
    requires Core(r) && Lone(r, k) && ActiveIn(r.people, s, k)
    ensures Authority(Heartbeat(r, s, k).board, k) == Some(s)
  {
    hide LevelOk, PeopleOk, SelectAndElect, ActiveList, Pen;
    SelectElectsEarliest(r, k);
    OnlyActiveList(r, k, s);
    if exists t :: t in [s] && t !in Pen(r.board, k) {
      var i :| 0 <= i < |[s]| && [s][i] == SelectAndElect(r, k).board.authority[k];
    }
  }

  // ----- A run -----

  const LoneRun: seq<Event> := H.Pair2 + [EvClientRevoke(0), EvClientRevoke(1), EvChangeLevel(1, 7)]

  /** Two players revoke in turn, then one of them leaves: the other is alone, penalized, without an authority. */
  lemma LonePlayer()
    ensures OnlyActive(Run(LoneRun).people, 0, 0) && 0 !in Run(LoneRun).board.authority && Lone(Run(LoneRun), 0)
  {
    hide Run, Step;
    var e2 := H.Pair2 + [EvClientRevoke(0)];
    var e3 := e2 + [EvClientRevoke(1)];
    assert LoneRun == e3 + [EvChangeLevel(1, 7)];
    H.SecondArrives();
    H.RunSnoc(H.Pair2, EvClientRevoke(0));
    H.RunSnoc(e2, EvClientRevoke(1));
    H.RunSnoc(e3, EvChangeLevel(1, 7));
    BothRevoke();
    OneLeaves(Run(e3).log);
  }

  lemma ActivesOfTwo(r: Room)
    requires r.people == H.Two(Active, Active, map[], map[], []).people
    ensures ActiveList(r.people, 0) == [0, 1]
  {
    assert Actives(r.people, [], 0) == [];
    assert [1][1..] == [] && [0, 1][1..] == [1];
    assert Actives(r.people, [1], 0) == [1];
  }

  lemma BothRevoke()
    ensures var one := Step(H.Two(Active, Active, map[0 := 0], map[], H.Welcome2), EvClientRevoke(0));
            var r := Step(one, EvClientRevoke(1));
            r == H.Two(Active, Active, map[], map[0 := {0, 1}], r.log)
  {
    var r0 := H.Two(Active, Active, map[0 := 0], map[], H.Welcome2);
    ActivesOfTwo(r0);
    assert [0, 1][1..] == [1];
    hide ActiveList;
    var b0 := RevokeAuthority(Penalize(r0.board, 0, 0), 0);
    assert Pen(r0.board, 0) + {0} == {0};
    assert b0.penalized == map[0 := {0}];
    assert b0.authority == map[];
    assert Among({0}, [0, 1]) == {0};
    assert Prune(b0, 0, [0, 1]) == b0;
    assert Pick(b0, 0, [0, 1]) == Some(1);
    var r1 := Step(r0, EvClientRevoke(0));
    assert r1 == H.Two(Active, Active, map[0 := 1], map[0 := {0}], r1.log);
    var b1 := RevokeAuthority(Penalize(r1.board, 0, 1), 0);
    assert Pen(r1.board, 0) + {1} == {0, 1};
    assert b1.penalized == map[0 := {0, 1}];
    assert b1.authority == map[];
    assert Among({0, 1}, [0, 1]) == {0, 1};
    assert Prune(b1, 0, [0, 1]) == b1;
    assert Pick(b1, 0, [0, 1]) == None;
  }

  lemma OneLeaves(log: seq<Msg>)
    ensures var r := Step(H.Two(Active, Active, map[], map[0 := {0, 1}], log), EvChangeLevel(1, 7));
            OnlyActive(r.people, 0, 0) && 0 !in r.board.authority
  {
    hide Rebalance, ClearPenalty;
    var r := H.Two(Active, Active, map[], map[0 := {0, 1}], log);
    var left := LeaveLevel(r, 1, 7);
    PenaltyOps(r.board, 0, 1, []);
    RebalancePeople(left, 7);
    RebalanceElsewhere(left, 7, 0);
  }
}
