/** News of a change: whoever is active in a level through a change of its holder is told of it. */
module RoomNews {
  import opened Options
  import opened Connections
  import opened RoomSteps
  import opened RoomInvariants
  import opened RoomRuns

  // ----- No step looks at the history -----

  /** The same room with an earlier history. */
  function After(history: seq<Msg>, r: Room): Room {
    r.(log := history + r.log)
  }

  lemma Assoc(a: seq<Msg>, b: seq<Msg>, c: seq<Msg>)
    ensures a + b + c == a + (b + c)
  {}

  lemma SetAuthorityAfter(h: seq<Msg>, r: Room, l: Level, s: Sid)
    requires CanElect(r, l, s)
    ensures SetAuthority(After(h, r), l, s) == After(h, SetAuthority(r, l, s))
  {
    hide Elects, ActiveList;
    Assoc(h, r.log, Elects(ActiveList(r.people, l), r.people.info[s].id, l));
  }

  lemma NotifyAfter(h: seq<Msg>, r: Room, l: Level, a: Sid, s: Sid)
    requires a in r.people.info
    ensures NotifyOne(After(h, r), l, a, s) == After(h, NotifyOne(r, l, a, s))
  {
    Assoc(h, r.log, [Elect(s, r.people.info[a].id, l)]);
  }

  lemma ElectPickedAfter(h: seq<Msg>, r: Room, l: Level, s: Sid)
    requires CanElect(r, l, s)
    ensures ElectPicked(After(h, r), l, s) == After(h, ElectPicked(r, l, s))
  {
    hide SetAuthority, ClearPenalty;
    SetAuthorityAfter(h, r.(board := if s in Pen(r.board, l) then ClearPenalty(r.board, l, s) else r.board), l, s);
  }

  lemma RebalanceAfter(h: seq<Msg>, r: Room, l: Level)
    ensures Rebalance(After(h, r), l) == After(h, Rebalance(r, l))
  {
    hide ActiveList, Prune, Pick, ElectPicked, Keeps;
    var active := ActiveList(r.people, l);
    var pruned := r.(board := Prune(r.board, l, active));
    match Pick(pruned.board, l, active)
    case Some(s) =>
      PickedElectable(r, pruned, l, active);
      ElectPickedAfter(h, pruned, l, s);
    case None =>
  }

  lemma PickedElectable(r: Room, r': Room, l: Level, active: seq<Sid>)
    requires r'.people == r.people && active == ActiveList(r.people, l) && Pick(r'.board, l, active).Some?
    ensures CanElect(r', l, Pick(r'.board, l, active).value)
  {
    hide ActiveList;
    PickedIsActive(r, l);
  }

  lemma SelectAfter(h: seq<Msg>, r: Room, l: Level)
    ensures SelectAndElect(After(h, r), l) == After(h, SelectAndElect(r, l))
  {
    hide ActiveList, Prune, Pick, ElectPicked;
    var active := ActiveList(r.people, l);
    var pruned := r.(board := Prune(r.board, l, active));
    match Pick(pruned.board, l, active)
    case Some(s) =>
      PickedElectable(r, pruned, l, active);
      ElectPickedAfter(h, pruned, l, s);
    case None =>
  }

  lemma ReleaseAfter(h: seq<Msg>, r: Room, s: Sid, l: Level)
    ensures Release(After(h, r), s, l) == After(h, Release(r, s, l))
  {
    hide Rebalance, Released;
    ReleaseIs(r, s, l);
    ReleaseIs(After(h, r), s, l);
    RebalanceAfter(h, r.(board := Released(r.board, s, l)), l);
  }

  lemma JoinAfter(h: seq<Msg>, r: Room, s: Sid, id: int, uuid: string, l: Level, sent: bool)
    ensures Join(After(h, r), s, id, uuid, l, sent) == After(h, Join(r, s, id, uuid, l, sent))
  {
    hide SetAuthority, NotifyOne;
    if MaySend(r, s, JoinGame) && CanAdd(r, s, id, uuid) && sent {
      var joined := r.(people := r.people.(sessions := r.people.sessions[s := Active], order := r.people.order + [s],
                                           info := r.people.info[s := Info(id, uuid, l)]));
      match Authority(r.board, l)
      case None => SetAuthorityAfter(h, joined, l, s);
      case Some(a) =>
        if a in joined.people.info {
          NotifyAfter(h, joined, l, a, s);
        }
    }
  }

  lemma LeaveAfter(h: seq<Msg>, r: Room, s: Sid, l: Level)
    requires s in r.people.info
    ensures LeaveLevel(After(h, r), s, l) == After(h, LeaveLevel(r, s, l))
  {
    hide Rebalance, ClearPenalty;
    var from := r.people.info[s].level;
    var moved := r.(people := Relocate(r.people, s, l));
    RebalanceAfter(h, moved.(board := RevokeAuthority(ClearPenalty(r.board, from, s), from)), from);
  }

  lemma EnterAfter(h: seq<Msg>, r: Room, s: Sid, l: Level)
    ensures EnterLevel(After(h, r), s, l) == After(h, EnterLevel(r, s, l))
  {
    hide Rebalance, NotifyOne;
    RebalanceAfter(h, r, l);
    if l in r.board.authority && r.board.authority[l] in r.people.info {
      NotifyAfter(h, r, l, r.board.authority[l], s);
    }
  }

  lemma ChangeLevelAfter(h: seq<Msg>, r: Room, s: Sid, l: Level)
    ensures ChangeLevel(After(h, r), s, l) == After(h, ChangeLevel(r, s, l))
  {
    hide LeaveLevel, EnterLevel;
    if s in r.people.info {
      LeaveAfter(h, r, s, l);
      EnterAfter(h, LeaveLevel(r, s, l), s, l);
    }
  }

  lemma HeartbeatAfter(h: seq<Msg>, r: Room, s: Sid, l: Level)
    ensures Heartbeat(After(h, r), s, l) == After(h, Heartbeat(r, s, l))
  {
    hide SelectAndElect;
    SelectAfter(h, r, l);
  }

  lemma ClientRevokeAfter(h: seq<Msg>, r: Room, s: Sid)
    ensures ClientRevoke(After(h, r), s) == After(h, ClientRevoke(r, s))
  {
    hide SelectAndElect, Revokes, ActiveList, Penalize;
    if s in r.people.info {
      var l := r.people.info[s].level;
      var told := Revokes(ActiveList(r.people, l), r.people.info[s].id);
      Assoc(h, r.log, told);
      SelectAfter(h, r.(board := RevokeAuthority(Penalize(r.board, l, s), l), log := r.log + told), l);
    }
  }

  lemma ServerRevokeAfter(h: seq<Msg>, r: Room, l: Level)
    ensures ServerRevoke(After(h, r), l) == After(h, ServerRevoke(r, l))
  {
    hide Rebalance, RevokesAndElects, ActiveList;
    if l in r.board.authority && r.board.authority[l] in r.people.info {
      var gated := r.(board := RevokeAuthority(r.board, l).(suppressed := r.board.suppressed + {l}));
      RebalanceAfter(h, gated, l);
      var done := Rebalance(gated, l);
      var next := Authority(done.board, l);
      var nextId := if next.Some? && next.value in r.people.info then Some(r.people.info[next.value].id) else None;
      Assoc(h, done.log, RevokesAndElects(ActiveList(r.people, l), r.people.info[r.board.authority[l]].id, nextId, l));
    }
  }

  lemma StartMovingAfter(h: seq<Msg>, r: Room, s: Sid)
    requires s in r.people.info
    ensures StartMoving(After(h, r), s) == After(h, StartMoving(r, s))
  {
    hide Release;
    ReleaseAfter(h, r.(people := SetState(r.people, s, Moving)), s, r.people.info[s].level);
  }

  lemma MoveOneAfter(h: seq<Msg>, r: Room, s: Sid, target: string, now: int, sent: bool)
    ensures MoveOne(After(h, r), s, target, now, sent) == After(h, MoveOne(r, s, target, now, sent))
  {
    hide StartMoving;
    if Movable(r, s) && sent {
      assert Movable(After(h, r), s);
      var id := r.people.info[s].id;
      Assoc(h, r.log, [MoveGame(s)]);
      StartMovingAfter(h, r.(pending := r.pending[Single(id, target, now) := id], log := r.log + [MoveGame(s)]), s);
    } else {
      assert Movable(After(h, r), s) <==> Movable(r, s);
    }
  }

  lemma {:induction false} EligibleAfter(h: seq<Msg>, r: Room, group: seq<Sid>)
    ensures Eligible(After(h, r), group) == Eligible(r, group)
  {
    if group != [] {
      assert Movable(After(h, r), group[0]) <==> Movable(r, group[0]);
      EligibleAfter(h, r, group[1..]);
    }
  }

  lemma {:induction false} PrepareAfter(h: seq<Msg>, r: Room, group: seq<Sid>, txn: Option<string>, target: string,
      now: int)
    ensures PrepareAll(After(h, r), group, txn, target, now) == PrepareAll(r, group, txn, target, now)
    decreases |group|
  {
    if group != [] {
      var r' := r.(pending := r.pending[MoveIdFor(r, group[0], txn, target, now) := IdOf(r, group[0])]);
      PrepareAfter(h, r', group[1..], txn, target, now);
    }
  }

  lemma {:induction false} StartAllAfter(h: seq<Msg>, r: Room, group: seq<Sid>)
    ensures StartAll(After(h, r), group) == After(h, StartAll(r, group))
    decreases |group|
  {
    hide StartMoving;
    if group != [] {
      if group[0] in r.people.info {
        StartMovingAfter(h, r, group[0]);
        StartAllAfter(h, StartMoving(r, group[0]), group[1..]);
      } else {
        StartAllAfter(h, r, group[1..]);
      }
    }
  }

  lemma MoveGroupAfter(h: seq<Msg>, r: Room, group: seq<Sid>, txn: Option<string>, target: string, now: int,
      failAt: Option<nat>)
    ensures MoveGroup(After(h, r), group, txn, target, now, failAt) ==
            After(h, MoveGroup(r, group, txn, target, now, failAt))
  {
    hide StartAll, PrepareAll, Eligible, MoveGames, CancelMoves, NoDuplicates;
    EligibleAfter(h, r, group);
    var e := Eligible(r, group);
    if failAt.Some? && failAt.value < |e| {
      var told := e[..failAt.value];
      Assoc(h, r.log, MoveGames(told));
      Assoc(h, r.log + MoveGames(told), CancelMoves(told));
    } else {
      PrepareAfter(h, r, e, txn, target, now);
      Assoc(h, r.log, MoveGames(e));
      StartAllAfter(h, r.(pending := PrepareAll(r, e, txn, target, now), log := r.log + MoveGames(e)), e);
    }
  }

  lemma ResumeAfter(h: seq<Msg>, r: Room, s: Sid)
    requires s in r.people.info
    ensures Resume(After(h, r), s) == After(h, Resume(r, s))
  {
    hide Rebalance;
    Assoc(h, r.log, [Resumed(s)]);
    RebalanceAfter(h, r.(people := SetState(r.people, s, Active), log := r.log + [Resumed(s)]), r.people.info[s].level);
  }

  lemma MoveResultAfter(h: seq<Msg>, r: Room, s: Sid, result: int)
    ensures HandleMoveResult(After(h, r), s, result) == After(h, HandleMoveResult(r, s, result))
  {
    hide Resume;
    if s in r.people.info {
      assert HasPending(After(h, r), r.people.info[s].id) <==> HasPending(r, r.people.info[s].id);
      ForgetAfter(h, r, r.people.info[s].id);
      ResumeAfter(h, ForgetMoves(r, r.people.info[s].id), s);
    }
  }

  lemma ForgetAfter(h: seq<Msg>, r: Room, id: int)
    ensures ForgetMoves(After(h, r), id) == After(h, ForgetMoves(r, id))
  {
    assert ForgetMoves(After(h, r), id).pending == ForgetMoves(r, id).pending;
  }

  lemma CancelMoveAfter(h: seq<Msg>, r: Room, s: Sid, sent: bool)
    ensures CancelPlayerMove(After(h, r), s, sent) == After(h, CancelPlayerMove(r, s, sent))
  {
    hide Resume, ForgetMoves;
    if s in r.people.info {
      var told := r.(log := r.log + [CancelMove(s)]);
      Assoc(h, r.log, [CancelMove(s)]);
      ResumeAfter(h, told, s);
      ForgetAfter(h, if InState(r.people, s, Moving) then Resume(told, s) else told, r.people.info[s].id);
    }
  }

  lemma DisconnectAfter(h: seq<Msg>, r: Room, s: Sid)
    ensures Disconnect(After(h, r), s) == After(h, Disconnect(r, s))
  {
    hide Release, ForgetMoves, Remove;
    if s in r.people.sessions && s in r.people.info {
      var removed := r.(people := Without(r.people, s));
      var id := r.people.info[s].id;
      ForgetAfter(h, removed, id);
      ReleaseAfter(h, ForgetMoves(removed, id), s, r.people.info[s].level);
    }
  }

  /** A step does to a room with an earlier history what it does without: it only adds to the end. */
  lemma StepAfter(h: seq<Msg>, r: Room, e: Event)
    ensures Step(After(h, r), e) == After(h, Step(r, e))
  {
    hide Join, ChangeLevel, Heartbeat, ClientRevoke, ServerRevoke, MoveOne, MoveGroup, HandleMoveResult,
         CancelPlayerMove, Disconnect;
    match e
    case EvConnect =>
    case EvJoin(s, id, uuid, l, sent) => JoinAfter(h, r, s, id, uuid, l, sent);
    case EvChangeLevel(s, l) => ChangeLevelAfter(h, r, s, l);
    case EvHeartbeat(s, l) => HeartbeatAfter(h, r, s, l);
    case EvClientRevoke(s) => ClientRevokeAfter(h, r, s);
    case EvServerRevoke(l) => ServerRevokeAfter(h, r, l);
    case EvMove(s, target, now, sent) => MoveOneAfter(h, r, s, target, now, sent);
    case EvMoveGroup(group, txn, target, now, failAt) => MoveGroupAfter(h, r, group, txn, target, now, failAt);
    case EvMoveResult(s, result) => MoveResultAfter(h, r, s, result);
    case EvCancelMove(s, sent) => CancelMoveAfter(h, r, s, sent);
    case EvClose(s) =>
    case EvDisconnect(s) => DisconnectAfter(h, r, s);
  }

  // ----- Coming back is noted only where it happens -----

  predicate Unmarked(log: seq<Msg>, s: Sid) {
    Resumed(s) !in log
  }

  lemma ElectsUnmarked(targets: seq<Sid>, authority: int, l: Level, s: Sid)
    ensures Unmarked(Elects(targets, authority, l), s) && Unmarked(Revokes(targets, authority), s)
  {}

  lemma {:induction false} PairsUnmarked(targets: seq<Sid>, authority: int, next: Option<int>, l: Level, s: Sid)
    ensures Unmarked(RevokesAndElects(targets, authority, next, l), s)
    decreases |targets|
  {
    if targets != [] {
      PairsUnmarked(targets[1..], authority, next, l, s);
    }
  }

  lemma SetAuthorityUnmarked(r: Room, l: Level, a: Sid, s: Sid)
    requires CanElect(r, l, a) && Unmarked(r.log, s)
    ensures Unmarked(SetAuthority(r, l, a).log, s)
  {
    hide Elects, ActiveList;
    ElectsUnmarked(ActiveList(r.people, l), r.people.info[a].id, l, s);
  }

  lemma ElectPickedUnmarked(r: Room, l: Level, a: Sid, s: Sid)
    requires CanElect(r, l, a) && Unmarked(r.log, s)
    ensures Unmarked(ElectPicked(r, l, a).log, s)
  {
    hide SetAuthority, ClearPenalty;
    SetAuthorityUnmarked(r.(board := if a in Pen(r.board, l) then ClearPenalty(r.board, l, a) else r.board), l, a, s);
  }

  lemma ElectionsUnmarked(r: Room, l: Level, s: Sid)
    requires Unmarked(r.log, s)
    ensures Unmarked(Rebalance(r, l).log, s) && Unmarked(SelectAndElect(r, l).log, s)
  {
    hide ActiveList, Prune, Pick, ElectPicked, Keeps;
    var active := ActiveList(r.people, l);
    var pruned := r.(board := Prune(r.board, l, active));
    match Pick(pruned.board, l, active)
    case Some(a) =>
      PickedElectable(r, pruned, l, active);
      ElectPickedUnmarked(pruned, l, a, s);
    case None =>
  }

  lemma ReleaseUnmarked(r: Room, t: Sid, l: Level, s: Sid)
    requires Unmarked(r.log, s)
    ensures Unmarked(Release(r, t, l).log, s)
  {
    hide Rebalance, Released;
    ReleaseIs(r, t, l);
    ElectionsUnmarked(r.(board := Released(r.board, t, l)), l, s);
  }

  lemma JoinUnmarked(r: Room, t: Sid, id: int, uuid: string, l: Level, sent: bool, s: Sid)
    requires Unmarked(r.log, s)
    ensures Unmarked(Join(r, t, id, uuid, l, sent).log, s)
  {
    hide SetAuthority;
    if MaySend(r, t, JoinGame) && CanAdd(r, t, id, uuid) && sent && Authority(r.board, l) == None {
      SetAuthorityUnmarked(
        r.(people := r.people.(sessions := r.people.sessions[t := Active], order := r.people.order + [t],
                               info := r.people.info[t := Info(id, uuid, l)])), l, t, s);
    }
  }

  lemma ChangeLevelUnmarked(r: Room, t: Sid, l: Level, s: Sid)
    requires Unmarked(r.log, s)
    ensures Unmarked(ChangeLevel(r, t, l).log, s)
  {
    hide Rebalance, ClearPenalty;
    if t in r.people.info {
      var from := r.people.info[t].level;
      var moved := r.(people := Relocate(r.people, t, l));
      ElectionsUnmarked(moved.(board := RevokeAuthority(ClearPenalty(r.board, from, t), from)), from, s);
      ElectionsUnmarked(LeaveLevel(r, t, l), l, s);
    }
  }

  lemma RevokesUnmarked(r: Room, t: Sid, l: Level, s: Sid)
    requires Unmarked(r.log, s)
    ensures Unmarked(ClientRevoke(r, t).log, s) && Unmarked(ServerRevoke(r, l).log, s)
  {
    hide SelectAndElect, Rebalance, Revokes, RevokesAndElects, ActiveList, Penalize;
    if t in r.people.info {
      var k := r.people.info[t].level;
      var told := Revokes(ActiveList(r.people, k), r.people.info[t].id);
      ElectsUnmarked(ActiveList(r.people, k), r.people.info[t].id, k, s);
      ElectionsUnmarked(r.(board := RevokeAuthority(Penalize(r.board, k, t), k), log := r.log + told), k, s);
    }
    if l in r.board.authority && r.board.authority[l] in r.people.info {
      var gated := r.(board := RevokeAuthority(r.board, l).(suppressed := r.board.suppressed + {l}));
      ElectionsUnmarked(gated, l, s);
      var next := Authority(Rebalance(gated, l).board, l);
      PairsUnmarked(ActiveList(r.people, l), r.people.info[r.board.authority[l]].id,
                    if next.Some? && next.value in r.people.info then Some(r.people.info[next.value].id) else None, l,
                        s);
    }
  }

  lemma {:induction false} StartAllUnmarked(r: Room, group: seq<Sid>, s: Sid)
    requires Unmarked(r.log, s)
    ensures Unmarked(StartAll(r, group).log, s)
    decreases |group|
  {
    hide Release;
    if group != [] {
      if group[0] in r.people.info {
        ReleaseUnmarked(r.(people := SetState(r.people, group[0], Moving)), group[0], r.people.info[group[0]].level, s);
        StartAllUnmarked(StartMoving(r, group[0]), group[1..], s);
      } else {
        StartAllUnmarked(r, group[1..], s);
      }
    }
  }

  lemma MovesUnmarked(r: Room, e: Event, s: Sid)
    requires Unmarked(r.log, s) && (e.EvMove? || e.EvMoveGroup?)
    ensures Unmarked(Step(r, e).log, s)
  {
    hide Release, StartAll, PrepareAll, Eligible, MoveGames, CancelMoves, NoDuplicates;
    match e
    case EvMove(t, target, now, sent) =>
      if Movable(r, t) && sent {
        var id := r.people.info[t].id;
        var ready := r.(pending := r.pending[Single(id, target, now) := id], log := r.log + [MoveGame(t)]);
        ReleaseUnmarked(ready.(people := SetState(r.people, t, Moving)), t, r.people.info[t].level, s);
      }
    case EvMoveGroup(group, txn, target, now, failAt) =>
      var el := Eligible(r, group);
      MoveGamesAre(el);
      if failAt.Some? && failAt.value < |el| {
        MoveGamesAre(el[..failAt.value]);
      } else {
        StartAllUnmarked(r.(pending := PrepareAll(r, el, txn, target, now), log := r.log + MoveGames(el)), el, s);
      }
    case _ =>
  }

  lemma ResumeUnmarked(r: Room, t: Sid, s: Sid)
    requires Unmarked(r.log, s) && t in r.people.info && t != s
    ensures Unmarked(Resume(r, t).log, s)
  {
    hide Rebalance;
    ElectionsUnmarked(r.(people := SetState(r.people, t, Active), log := r.log + [Resumed(t)]),
        r.people.info[t].level, s);
  }

  /** Only a moving session comes back. */
  lemma StepUnmarked(r: Room, e: Event, s: Sid)
    requires Unmarked(r.log, s) && !InState(r.people, s, Moving)
    ensures Unmarked(Step(r, e).log, s)
  {
    hide Join, ChangeLevel, SelectAndElect, ClientRevoke, ServerRevoke, MoveOne, MoveGroup, Resume, Release, Unmarked;
    match e
    case EvConnect =>
    case EvJoin(t, id, uuid, l, sent) => JoinUnmarked(r, t, id, uuid, l, sent, s);
    case EvChangeLevel(t, l) => ChangeLevelUnmarked(r, t, l, s);
    case EvHeartbeat(t, l) => ElectionsUnmarked(r, l, s);
    case EvClientRevoke(t) => RevokesUnmarked(r, t, 0, s);
    case EvServerRevoke(l) => RevokesUnmarked(r, 0, l, s);
    case EvMove(t, target, now, sent) => MovesUnmarked(r, e, s);
    case EvMoveGroup(group, txn, target, now, failAt) => MovesUnmarked(r, e, s);
    case EvMoveResult(t, result) =>
      if t in r.people.info && t != s {
        ResumeUnmarked(ForgetMoves(r, r.people.info[t].id), t, s);
      }
    case EvCancelMove(t, sent) =>
      if t in r.people.info {
        assert Unmarked(r.log + [CancelMove(t)], s) by { OneMoreUnmarked(r.log, CancelMove(t), s); }
        if t != s {
          ResumeUnmarked(r.(log := r.log + [CancelMove(t)]), t, s);
        }
      }
    case EvClose(t) =>
    case EvDisconnect(t) =>
      if t in r.people.sessions && t in r.people.info {
        ReleaseUnmarked(ForgetMoves(r.(people := Without(r.people, t)), r.people.info[t].id), t,
            r.people.info[t].level, s);
      }
  }

  lemma OneMoreUnmarked(log: seq<Msg>, m: Msg, s: Sid)
    requires Unmarked(log, s) && m != Resumed(s)
    ensures Unmarked(log + [m], s)
  {}

  // ----- Every change is told -----

  /** Telling s once more who holds its level, or anything at all where nobody does, keeps the room right. */
  lemma OnceMore(r: Room, s: Sid, l: Level, id: int)
    requires Inv(r) && ActiveIn(r.people, s, l)
    requires HolderId(r, l).Some? ==> id == HolderId(r, l).value
    ensures Inv(r.(log := r.log + [Elect(s, id, l)]))
  {
    var r' := r.(log := r.log + [Elect(s, id, l)]);
    forall t: Sid
      ensures Last(r'.log, t) == if t == s then Some(Elect(s, id, l)) else Last(r.log, t)
    {
      LastAppend(r.log, [Elect(s, id, l)], t);
      LastOne(Elect(s, id, l), t);
    }
    hide Last, PeopleOk, Pen;
    CarriedPending(r, r', {});
    forall k
      ensures LevelOk(r', k)
    {
      assert LevelOk(r, k);
      if k != l {
        SameForKeeps(r, r', k);
      }
    }
  }

  lemma {:induction false} LastIsIn(log: seq<Msg>, s: Sid)
    ensures Last(log, s).Some? ==> Last(log, s).value in log
    decreases |log|
  {
    if log != [] {
      LastIsIn(log[..|log| - 1], s);
    }
  }

  /**
   * Whoever is active in a level before and after a step that changes the level's holder is told of
   * the new one in that very step, whatever it knew before.
   */
  lemma ChangeReaches(r: Room, e: Event, s: Sid, l: Level)
    requires Inv(r) && ActiveIn(r.people, s, l) && ActiveIn(Step(r, e).people, s, l)
    requires l in Step(r, e).board.authority && HolderId(Step(r, e), l) != HolderId(r, l)
    ensures HolderId(Step(r, e), l).Some?
    ensures Last(Step(r, e).log, s) == Some(Elect(s, HolderId(Step(r, e), l).value, l))
  {
    hide Step, Inv, Last, LevelOk, Unmarked;
    var blank := r.(log := []);
    var added := Step(blank, e);
    assert r == After(r.log, blank);
    StepAfter(r.log, blank, e);
    StepKeepsInv(r, e);
    var r' := Step(r, e);
    HolderIsStored(r', l);
    var holder := HolderId(r', l).value;
    var id := if HolderId(r, l).Some? then HolderId(r, l).value else holder + 1;
    var x := Elect(s, id, l);
    OnceMore(r, s, l, id);
    var again := r.(log := r.log + [x]);
    assert again == After(r.log + [x], blank);
    StepAfter(r.log + [x], blank, e);
    StepKeepsInv(again, e);
    ToldIs(Step(again, e), s, l);
    LastAppend(r.log + [x], added.log, s);
    LastAppend(r.log, [x], s);
    LastOne(x, s);
    LastAppend(r.log, added.log, s);
    NotResumed(blank, e, s);
  }

  lemma HolderIsStored(r: Room, l: Level)
    requires Inv(r) && l in r.board.authority
    ensures HolderId(r, l).Some?
  {
    assert LevelOk(r, l);
  }

  lemma ToldIs(r: Room, s: Sid, l: Level)
    requires Inv(r) && ActiveIn(r.people, s, l) && HolderId(r, l).Some?
    ensures Last(r.log, s) == Some(Elect(s, HolderId(r, l).value, l)) || Last(r.log, s) == Some(Resumed(s))
  {
    assert LevelOk(r, l);
  }

  lemma NotResumed(r: Room, e: Event, s: Sid)
    requires r.log == [] && InState(r.people, s, Active)
    ensures Last(Step(r, e).log, s) != Some(Resumed(s))
  {
    hide Step, Last;
    StepUnmarked(r, e, s);
    LastIsIn(Step(r, e).log, s);
  }
}
