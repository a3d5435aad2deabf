/**
 * Players that come back from a move: exactly when they are told who holds their level, exactly
 * when they are rightly informed, and a run in which one is not.
 */
module RoomHistories {
  import opened Options
  import opened Connections
  import opened RoomSteps
  import opened RoomInvariants
  import opened RoomRuns

  // ----- Coming back from a move -----

  /** The level is held by a player that is active at this moment. */
  predicate HeldActively(r: Room, l: Level) {
    l in r.board.authority && InState(r.people, r.board.authority[l], Active)
  }

  /** What an election of a level sends: nothing, or one elect of the new holder to each active player. */
  lemma RebalanceLog(r: Room, l: Level)
    requires AuthorityOk(r, l) && l !in r.board.suppressed
    ensures var active := ActiveList(r.people, l);
            var r' := Rebalance(r, l);
            && r'.people == r.people
            && r'.log == r.log + (if Authority(r'.board, l) == Authority(r.board, l) || HolderId(r', l).None? then []
                                  else Elects(active, HolderId(r', l).value, l))
  {
    hide ActiveList, Elects, Prune, Pick, ClearPenalty, Pen;
    var active := ActiveList(r.people, l);
    var pruned := r.(board := Prune(r.board, l, active));
    PenaltyOps(r.board, l, 0, active);
    if !Keeps(pruned.board, l, active) {
      match Pick(pruned.board, l, active)
      case Some(s) =>
        PickedIsActive(r, l);
        PenaltyOps(pruned.board, l, s, []);
        PickedOther(r, pruned.board, l, active, s);
      case None =>
    }
  }

  /** The candidate of a level that does not keep its authority is somebody else. */
  lemma PickedOther(r: Room, b: Board, l: Level, active: seq<Sid>, s: Sid)
    requires AuthorityOk(r, l) && !Keeps(b, l, active) && s in active
    requires Authority(b, l) == Authority(r.board, l)
    requires forall t :: t in Pen(b, l) <==> t in Pen(r.board, l) && t in active
    ensures Authority(r.board, l) != Some(s)
  {}

  /** Where s stands when it becomes active again. */
  function Back(r: Room, s: Sid): Room
    requires s in r.people.info
  {
    r.(people := SetState(r.people, s, Active), log := r.log + [Resumed(s)])
  }

  lemma BackIs(r: Room, s: Sid, l: Level)
    requires Core(r) && InLevel(r.people, s, l) && InState(r.people, s, Moving)
    ensures Electable(Back(r, s), l) && PeopleOk(Back(r, s).people)
    ensures s in ActiveList(Back(r, s).people, l) && s !in Pen(r.board, l)
    ensures Keeps(Back(r, s).board, l, ActiveList(Back(r, s).people, l)) <==> HeldActively(r, l)
  {
    hide Pen, PeopleOk, ActiveList, Agreed, Electable;
    CoreElectable(r, l);
    assert LevelOk(r, l);
    ResumedElectable(r, s);
    assert PeopleOk(Back(r, s).people) by { ElectablePeople(Back(r, s), l); }
    ActiveListIs(Back(r, s), l);
  }

  lemma ElectablePeople(r: Room, l: Level)
    requires Electable(r, l)
    ensures PeopleOk(r.people)
  {}

  /**
   * A player that comes back hears of its level's holder if and only if the level is not held by an
   * active player at that moment: then an election follows, and each active player is told once.
   */
  lemma ResumeTellsIffNotHeld(r: Room, s: Sid, l: Level)
    requires Core(r) && InLevel(r.people, s, l) && InState(r.people, s, Moving)
    ensures var r' := Resume(r, s);
            && HolderId(r', l).Some?
            && r.log + [Resumed(s)] <= r'.log
            && For(r'.log[|r.log| + 1..], s) ==
               (if HeldActively(r, l) then [] else [Elect(s, HolderId(r', l).value, l)])
            && (HeldActively(r, l) ==> Authority(r'.board, l) == Authority(r.board, l))
  {
    hide PeopleOk, ActiveList, LevelOk, Electable, Rebalance, Keeps, Elects, For, NoDuplicates, ElectedFrom, Pen;
    var back := Back(r, s);
    var active := ActiveList(back.people, l);
    BackIs(r, s, l);
    assert AuthorityOk(back, l) && back.board.suppressed == {} by { ElectableParts(back, l); }
    RebalanceLog(back, l);
    RebalanceElectsEarliest(back, l);
    var r' := Resume(r, s);
    assert r' == Rebalance(back, l);
    HolderStored(r, s, l);
    if HeldActively(r, l) {
      NothingFor(s);
      assert r'.log[|r.log| + 1..] == [];
    } else {
      ElectedIsOther(r, s, l);
      assert r'.log[|r.log| + 1..] == Elects(active, HolderId(r', l).value, l);
      ActiveListDistinct(back.people, l);
      ForBroadcasts(active, HolderId(r', l).value, l, s);
    }
  }

  lemma ElectableParts(r: Room, l: Level)
    requires Electable(r, l)
    ensures AuthorityOk(r, l) && r.board.suppressed == {}
  {}

  /** The level a player comes back to has a stored holder. */
  lemma HolderStored(r: Room, s: Sid, l: Level)
    requires Core(r) && InLevel(r.people, s, l) && InState(r.people, s, Moving)
    ensures HolderId(Resume(r, s), l).Some?
  {
    hide Rebalance, PeopleOk, Pen, Electable;
    BackIs(r, s, l);
    ResumeKeepsCore(r, s);
    var r' := Resume(r, s);
    RebalanceElectsEarliest(Back(r, s), l);
    assert LevelOk(r', l);
  }

  /** Where no active player holds the level, the election changes its holder. */
  lemma ElectedIsOther(r: Room, s: Sid, l: Level)
    requires Core(r) && InLevel(r.people, s, l) && InState(r.people, s, Moving) && !HeldActively(r, l)
    ensures Authority(Resume(r, s).board, l) != Authority(r.board, l)
  {
    hide Rebalance, PeopleOk, Pen, Electable, ActiveList;
    var back := Back(r, s);
    BackIs(r, s, l);
    RebalanceElectsEarliest(back, l);
    ActiveListIs(back, l);
  }

  /** The last thing about authority s was actually sent. */
  function Heard(log: seq<Msg>, s: Sid): Option<Msg> {
    if log == [] then None
    else if (log[|log| - 1].Elect? || log[|log| - 1].Revoke?) && log[|log| - 1].to == s then Some(log[|log| - 1])
    else Heard(log[..|log| - 1], s)
  }

  lemma {:induction false} HeardAppend(a: seq<Msg>, b: seq<Msg>, s: Sid)
    ensures Heard(a + b, s) == if Heard(b, s).Some? then Heard(b, s) else Heard(a, s)
    decreases |b|
  {
    if b == [] {
      assert a + b == a;
    } else {
      var n := |b| - 1;
      assert (a + b)[|a + b| - 1] == b[n] && (a + b)[..|a + b| - 1] == a + b[..n];
      HeardAppend(a, b[..n], s);
    }
  }

  /** Only what is addressed to s counts. */
  lemma {:induction false} HeardFor(log: seq<Msg>, s: Sid)
    ensures Heard(log, s) == Heard(For(log, s), s)
    decreases |log|
  {
    if log != [] {
      var n := |log| - 1;
      assert log == log[..n] + [log[n]];
      HeardFor(log[..n], s);
      ForAppend(log[..n], [log[n]], s);
      ForOne(log[n], s);
      HeardAppend(log[..n], [log[n]], s);
      HeardAppend(For(log[..n], s), For([log[n]], s), s);
    }
  }

  /**
   * A player that comes back is rightly informed if and only if its level is not actively held, so
   * that it is told anew, or the holder is the one it last heard of.
   */
  lemma ComesBackInformedIff(r: Room, s: Sid, l: Level)
    requires Core(r) && InLevel(r.people, s, l) && InState(r.people, s, Moving)
    ensures var r' := Resume(r, s);
            && HolderId(r', l).Some?
            && (Heard(r'.log, s) == Some(Elect(s, HolderId(r', l).value, l)) <==>
                (HeldActively(r, l) ==> Heard(r.log, s) == Some(Elect(s, HolderId(r', l).value, l))))
  {
    hide Core, Resume, For, Heard;
    ResumeTellsIffNotHeld(r, s, l);
    var r' := Resume(r, s);
    var before := r.log + [Resumed(s)];
    var more := r'.log[|before|..];
    assert r'.log == before + more;
    HeardAppend(before, more, s);
    HeardAppend(r.log, [Resumed(s)], s);
    HeardFor(more, s);
    HeardOne(s, HolderId(r', l).value, l);
  }

  lemma HeardOne(s: Sid, id: int, l: Level)
    ensures Heard([Elect(s, id, l)], s) == Some(Elect(s, id, l))
    ensures Heard([Resumed(s)], s) == None && Heard([], s) == None
  {
    assert [Resumed(s)][..0] == [];
  }

  // ----- A run with a stale player -----

  lemma RunSnoc(events: seq<Event>, e: Event)
    ensures Run(events + [e]) == Step(Run(events), e)
  {
    assert (events + [e])[..|events|] == events;
  }

  function One(c: Conn, authority: map<Level, Sid>, log: seq<Msg>): Room {
    Room(People(map[0 := c], [0], map[0 := Info(1, "a", 0)], 1), Board(authority, map[], {}), map[], log)
  }

  lemma FirstArrives()
    ensures Run([EvConnect, EvJoin(0, 1, "a", 0, true)]) == One(Active, map[0 := 0], [Elect(0, 1, 0)])
  {
    hide Step, Run;
    EmptyRun();
    RunSnoc([], EvConnect);
    RunSnoc([EvConnect], EvJoin(0, 1, "a", 0, true));
    assert [] + [EvConnect] == [EvConnect];
    assert [EvConnect] + [EvJoin(0, 1, "a", 0, true)] == [EvConnect, EvJoin(0, 1, "a", 0, true)];
    FirstConnects();
    FirstJoins();
  }

  lemma EmptyRun()
    ensures Run([]) == Initial
  {}

  const Lobby := Room(People(map[0 := Pending], [], map[], 1), Board(map[], map[], {}), map[], [])

  lemma FirstConnects()
    ensures Step(Initial, EvConnect) == Lobby
  {}

  lemma FirstJoins()
    ensures Step(Lobby, EvJoin(0, 1, "a", 0, true)) == One(Active, map[0 := 0], [Elect(0, 1, 0)])
  {
    var joined := One(Active, map[], []);
    assert ActiveList(joined.people, 0) == [0] by {
      assert Actives(joined.people, [0][1..], 0) == [];
    }
    assert Elects([0], 1, 0) == [Elect(0, 1, 0)];
  }

  /** Two players in level 0. */
  function Two(first: Conn, second: Conn, authority: map<Level, Sid>, penalized: map<Level, set<Sid>>,
      log: seq<Msg>): Room {
    Room(People(map[0 := first, 1 := second], [0, 1], map[0 := Info(1, "a", 0), 1 := Info(2, "b", 0)], 2),
         Board(authority, penalized, {}), map[], log)
  }

  const Pair2: seq<Event> := [EvConnect, EvJoin(0, 1, "a", 0, true), EvConnect, EvJoin(1, 2, "b", 0, true)]
  const Welcome2: seq<Msg> := [Elect(0, 1, 0), Elect(1, 1, 0)]

  lemma SecondArrives()
    ensures Run(Pair2) == Two(Active, Active, map[0 := 0], map[], Welcome2)
  {
    hide Step, Run;
    var one := [EvConnect, EvJoin(0, 1, "a", 0, true)];
    FirstArrives();
    RunSnoc(one, EvConnect);
    RunSnoc(one + [EvConnect], EvJoin(1, 2, "b", 0, true));
    assert one + [EvConnect] + [EvJoin(1, 2, "b", 0, true)] == Pair2;
    SecondJoins();
  }

  lemma SecondJoins()
    ensures var r := Step(One(Active, map[0 := 0], [Elect(0, 1, 0)]), EvConnect);
            Step(r, EvJoin(1, 2, "b", 0, true)) == Two(Active, Active, map[0 := 0], map[], Welcome2)
  {
    var r := Step(One(Active, map[0 := 0], [Elect(0, 1, 0)]), EvConnect);
    assert r.people.sessions == map[0 := Active, 1 := Pending];
    var r' := Step(r, EvJoin(1, 2, "b", 0, true));
    assert r'.people.sessions == map[0 := Active, 1 := Active];
    assert r'.people.info == map[0 := Info(1, "a", 0), 1 := Info(2, "b", 0)];
    assert r'.log == Welcome2;
  }

  /** Three players in level 0. */
  function Three(second: Conn, authority: Sid, penalized: map<Level, set<Sid>>, pending: map<MoveId, int>,
      log: seq<Msg>): Room {
    Room(People(map[0 := Active, 1 := second, 2 := Active], [0, 1, 2],
                map[0 := Info(1, "a", 0), 1 := Info(2, "b", 0), 2 := Info(3, "c", 0)], 3),
         Board(map[0 := authority], penalized, {}), pending, log)
  }

  const Welcome3: seq<Msg> := [Elect(0, 1, 0), Elect(1, 1, 0), Elect(2, 1, 0)]

  lemma ThirdJoins()
    ensures var r := Step(Two(Active, Active, map[0 := 0], map[], Welcome2), EvConnect);
            Step(r, EvJoin(2, 3, "c", 0, true)) == Three(Active, 0, map[], map[], Welcome3)
  {
    var r := Step(Two(Active, Active, map[0 := 0], map[], Welcome2), EvConnect);
    assert r.people.sessions == map[0 := Active, 1 := Active, 2 := Pending];
    var r' := Step(r, EvJoin(2, 3, "c", 0, true));
    assert r'.people.sessions == map[0 := Active, 1 := Active, 2 := Active];
    assert r'.people.info == map[0 := Info(1, "a", 0), 1 := Info(2, "b", 0), 2 := Info(3, "c", 0)];
    assert r'.log == Welcome3;
  }

  const OneMove: map<MoveId, int> := map[Single(2, "x", 0) := 2]

  lemma ActivesOfThree(second: Conn)
    ensures var p := Three(second, 0, map[], map[], []).people;
            ActiveList(p, 0) == if second == Active then [0, 1, 2] else [0, 2]
  {
    var p := Three(second, 0, map[], map[], []).people;
    assert Actives(p, [], 0) == [];
    assert [2][1..] == [] && [1, 2][1..] == [2] && [0, 1, 2][1..] == [1, 2];
    assert Actives(p, [2], 0) == [2];
    assert Actives(p, [1, 2], 0) == if second == Active then [1, 2] else [2];
  }

  lemma SecondMoves()
    ensures Step(Three(Active, 0, map[], map[], Welcome3), EvMove(1, "x", 0, true)) ==
            Three(Moving, 0, map[], OneMove, Welcome3 + [MoveGame(1)])
  {
    ActivesOfThree(Moving);
    var r := Three(Active, 0, map[], map[], Welcome3);
    var ready := r.(people := SetState(r.people, 1, Moving), pending := OneMove, log := Welcome3 + [MoveGame(1)]);
    assert ready == Three(Moving, 0, map[], OneMove, Welcome3 + [MoveGame(1)]);
    hide ActiveList;
    assert Rebalance(ready, 0) == ready;
  }

  const Told3: seq<Msg> := Welcome3 + [MoveGame(1), Revoke(0, 1), Revoke(2, 1), Elect(0, 3, 0), Elect(2, 3, 0)]

  lemma FirstRevokes()
    ensures Step(Three(Moving, 0, map[], OneMove, Welcome3 + [MoveGame(1)]), EvClientRevoke(0)) ==
            Three(Moving, 2, map[0 := {0}], OneMove, Told3)
  {
    ActivesOfThree(Moving);
    var r := Three(Moving, 0, map[], OneMove, Welcome3 + [MoveGame(1)]);
    hide ActiveList;
    var b := RevokeAuthority(Penalize(r.board, 0, 0), 0);
    assert Pen(r.board, 0) + {0} == {0};
    assert b.penalized == map[0 := {0}];
    assert b.authority == map[];
    assert Revokes([0, 2], 1) == [Revoke(0, 1), Revoke(2, 1)];
    assert Elects([0, 2], 3, 0) == [Elect(0, 3, 0), Elect(2, 3, 0)];
    assert Among({0}, [0, 2]) == {0};
    assert Prune(b, 0, [0, 2]) == b;
    assert [0, 2][1..] == [2];
    assert Pick(b, 0, [0, 2]) == Some(2);
  }

  lemma SecondComesBack()
    ensures Step(Three(Moving, 2, map[0 := {0}], OneMove, Told3), EvMoveResult(1, 5)) ==
            Three(Active, 2, map[0 := {0}], map[], Told3 + [Resumed(1)])
  {
    ActivesOfThree(Active);
    var r := Three(Moving, 2, map[0 := {0}], OneMove, Told3);
    assert Single(2, "x", 0) in r.pending && HasPending(r, 2);
    var acked := ForgetMoves(r, 2);
    assert acked.pending == map[];
    var back := Back(acked, 1);
    assert back == Three(Active, 2, map[0 := {0}], map[], Told3 + [Resumed(1)]);
    hide ActiveList;
    assert Among({0}, [0, 1, 2]) == {0};
    assert Rebalance(back, 0) == back;
  }

  const StaleRun: seq<Event> := Pair2 + [EvConnect, EvJoin(2, 3, "c", 0, true), EvMove(1, "x", 0, true),
                                         EvClientRevoke(0), EvMoveResult(1, 5)]

  /**
   * A stale player: the second of three moves away, the first revokes and the third takes over, and
   * the second comes back. It last heard of the first, and the third holds the level.
   */
  lemma StalePlayer()
    ensures var r := Run(StaleRun);
            && ActiveIn(r.people, 1, 0)
            && HolderId(r, 0) == Some(3)
            && Heard(r.log, 1) == Some(Elect(1, 1, 0))
  {
    StaleRunEnds();
    hide Run;
    var rest := Told3[2..] + [Resumed(1)];
    assert Told3 + [Resumed(1)] == Welcome2 + rest;
    HeardAppend(Welcome2, rest, 1);
    HeardFor(rest, 1);
    ForOthers();
    assert Heard(Welcome2, 1) == Some(Elect(1, 1, 0));
  }

  lemma ForOthers()
    ensures Heard(For(Told3[2..] + [Resumed(1)], 1), 1) == None
  {
    var a: seq<Msg> := [Elect(2, 1, 0)];
    var b: seq<Msg> := [Revoke(0, 1), Revoke(2, 1)];
    var c: seq<Msg> := [Elect(0, 3, 0), Elect(2, 3, 0)];
    assert Told3[2..] + [Resumed(1)] == a + [MoveGame(1)] + b + c + [Resumed(1)];
    assert Heard([MoveGame(1), Resumed(1)], 1) == None by {
      assert [MoveGame(1), Resumed(1)][..1] == [MoveGame(1)] && [MoveGame(1)][..0] == [];
    }
    assert For(a, 1) == [] && For(b, 1) == [] && For(c, 1) == [];
    ForOne(MoveGame(1), 1);
    ForOne(Resumed(1), 1);
    ForAppend(a, [MoveGame(1)], 1);
    ForAppend(a + [MoveGame(1)], b, 1);
    ForAppend(a + [MoveGame(1)] + b, c, 1);
    ForAppend(a + [MoveGame(1)] + b + c, [Resumed(1)], 1);
  }

  lemma StaleRunEnds()
    ensures Run(StaleRun) == Three(Active, 2, map[0 := {0}], map[], Told3 + [Resumed(1)])
  {
    hide Step, Run;
    SecondArrives();
    var e2 := Pair2 + [EvConnect];
    var e3 := e2 + [EvJoin(2, 3, "c", 0, true)];
    var e4 := e3 + [EvMove(1, "x", 0, true)];
    var e5 := e4 + [EvClientRevoke(0)];
    assert StaleRun == e5 + [EvMoveResult(1, 5)];
    RunSnoc(Pair2, EvConnect);
    RunSnoc(e2, EvJoin(2, 3, "c", 0, true));
    ThirdJoins();
    RunSnoc(e3, EvMove(1, "x", 0, true));
    SecondMoves();
    RunSnoc(e4, EvClientRevoke(0));
    FirstRevokes();
    RunSnoc(e5, EvMoveResult(1, 5));
    SecondComesBack();
  }
}
