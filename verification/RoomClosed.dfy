/**
 * Levels held by a CLOSED session, one past the bad-packet limit whose disconnect is still to come:
 * exactly which step makes a level so, and exactly which steps end it.
 */
module RoomClosed {
  import opened Options
  import opened Connections
  import opened RoomSteps
  import opened RoomInvariants
  import opened RoomRuns
  import H = RoomHistories
  import C = RoomCoverage

  ghost predicate HeldByClosed(r: Room, l: Level) {
    l in r.board.authority && InState(r.people, r.board.authority[l], Closed)
  }

  /** u is active in l and stays there when gone leave. */
  ghost predicate Remains(r: Room, l: Level, gone: set<Sid>, u: Sid) {
    ActiveIn(r.people, u, l) && u !in gone
  }

  /** When gone have left, l has two active players or more, and all of them are penalized. */
  ghost predicate Stuck(r: Room, l: Level, gone: set<Sid>) {
    && (exists u, v :: u != v && Remains(r, l, gone, u) && Remains(r, l, gone, v))
    && forall u :: Remains(r, l, gone, u) ==> u in Pen(r.board, l)
  }

  function Members(group: seq<Sid>): set<Sid> {
    set s | s in group
  }

  /** At each departure from l in the course of the group's, the level is stuck. */
  ghost predicate StuckThroughout(r: Room, l: Level, group: seq<Sid>) {
    forall i :: 0 <= i < |group| && InLevel(r.people, group[i], l) ==> Stuck(r, l, Members(group[..i + 1]))
  }

  ghost predicate ComesBack(r: Room, s: Sid, l: Level) {
    InLevel(r.people, s, l) && InState(r.people, s, Moving)
  }

  /**
   * The steps that take l from its closed holder: the server's revoke, the holder's own disconnect, a
   * player's return to l, and a departure from l that does not leave it stuck.
   */
  ghost predicate Reopens(r: Room, e: Event, l: Level) {
    match e
    case EvServerRevoke(k) => k == l
    case EvDisconnect(s) =>
      s in r.people.sessions && InLevel(r.people, s, l) && (Authority(r.board, l) == Some(s) || !Stuck(r, l, {s}))
    case EvMove(s, _, _, sent) => Movable(r, s) && sent && InLevel(r.people, s, l) && !Stuck(r, l, {s})
    case EvMoveGroup(group, _, _, _, failAt) =>
      && GroupAccepted(r, group) && !(failAt.Some? && failAt.value < |Eligible(r, group)|)
      && !StuckThroughout(r, l, Eligible(r, group))
    case EvMoveResult(s, result) => ComesBack(r, s, l) && HasPending(r, r.people.info[s].id) && result != 0
    case EvCancelMove(s, sent) => ComesBack(r, s, l) && sent
    case _ => false
  }

  // ----- Elections -----

  /** What is closed-held afterwards was so before, by the same holder. */
  ghost predicate NoneAnew(r: Room, r': Room, l: Level) {
    HeldByClosed(r', l) ==> HeldByClosed(r, l) && Authority(r.board, l) == Authority(r'.board, l)
  }

  lemma NoneAnewTransitive(a: Room, b: Room, c: Room, l: Level)
    requires NoneAnew(a, b, l) && NoneAnew(b, c, l)
    ensures NoneAnew(a, c, l)
  {}

  /** Nobody is closed, and the holder of l stays or goes. */
  lemma SameOrGone(r: Room, r': Room, l: Level)
    requires forall s :: InState(r'.people, s, Closed) ==> InState(r.people, s, Closed)
    requires Authority(r'.board, l) == Authority(r.board, l) || Authority(r'.board, l) == None
    ensures NoneAnew(r, r', l)
  {}

  lemma TwoDistinct(active: seq<Sid>)
    requires NoDuplicates(active)
    ensures |active| >= 2 <==> exists u, v :: u != v && u in active && v in active
  {
    if |active| >= 2 {
      assert active[0] != active[1] && active[0] in active && active[1] in active;
    }
  }

  lemma StuckIs(r: Room, l: Level)
    requires PeopleOk(r.people)
    ensures var active := ActiveList(r.people, l);
            Stuck(r, l, {}) <==> |active| >= 2 && forall u :: u in active ==> u in Pen(r.board, l)
  {
    hide NoDuplicates, Pen, ActiveList, ActiveIn;
    ActiveListIs(r, l);
    ActiveListDistinct(r.people, l);
    TwoDistinct(ActiveList(r.people, l));
    assert forall u :: Remains(r, l, {}, u) <==> u in ActiveList(r.people, l);
  }

  /**
   * An election of l takes it from a holder that is not active, unless the level is stuck; and
   * whoever it elects is active.
   */
  lemma RebalanceEndsIff(r: Room, l: Level)
    requires PeopleOk(r.people)
    ensures var r' := Rebalance(r, l);
            && r'.people == r.people
            && (l in r'.board.authority ==>
                  Authority(r'.board, l) == Authority(r.board, l) || ActiveIn(r.people, r'.board.authority[l], l))
            && (l in r.board.authority && !ActiveIn(r.people, r.board.authority[l], l) ==>
                  && (Authority(r'.board, l) == Authority(r.board, l) <==> Stuck(r, l, {}))
                  && (Stuck(r, l, {}) ==> forall u :: ActiveIn(r.people, u, l) ==> u in Pen(r'.board, l)))
  {
    hide PeopleOk, ActiveList, Prune, Elects, Pen, ClearPenalty, Stuck;
    var active := ActiveList(r.people, l);
    var pruned := r.(board := Prune(r.board, l, active));
    ActiveListIs(r, l);
    StuckIs(r, l);
    PenaltyOps(r.board, l, 0, active);
    PickStuck(pruned.board, l, active);
    forall s ensures ClearPenalty(pruned.board, l, s).authority == r.board.authority {
      PenaltyOps(pruned.board, l, s, []);
    }
  }

  lemma PickStuck(b: Board, l: Level, active: seq<Sid>)
    ensures Pick(b, l, active).None? && active != [] <==> |active| >= 2 && forall u :: u in active ==> u in Pen(b, l)
  {
    hide Pen;
    AllPenalized(active, Pen(b, l));
  }

  lemma {:induction false} AllPenalized(active: seq<Sid>, pen: set<Sid>)
    ensures FirstUnpenalized(active, pen).None? <==> forall u :: u in active ==> u in pen
  {
    if active != [] {
      AllPenalized(active[1..], pen);
    }
  }

  lemma RebalanceNoneAnew(r: Room, l: Level, k: Level)
    requires PeopleOk(r.people)
    ensures NoneAnew(r, Rebalance(r, l), k)
    ensures k != l ==> Authority(Rebalance(r, l).board, k) == Authority(r.board, k)
  {
    hide PeopleOk, Rebalance, Stuck, Pen;
    RebalanceEndsIff(r, l);
    if k != l {
      C.RebalanceElsewhere(r, l, k);
    }
  }

  // ----- Departures -----

  /** What remains of r when s has left, seen by the level it left. */
  ghost predicate LeftBy(r: Room, r0: Room, s: Sid, l: Level) {
    && r0.board == r.board
    && (forall u :: ActiveIn(r0.people, u, l) <==> ActiveIn(r.people, u, l) && u != s)
    && (forall u :: InState(r0.people, u, Closed) ==> InState(r.people, u, Closed))
    && (forall u :: u != s && InState(r.people, u, Closed) ==> InState(r0.people, u, Closed))
  }

  lemma LeftStuck(r: Room, r0: Room, s: Sid, l: Level)
    requires LeftBy(r, r0, s, l)
    ensures Stuck(r0, l, {}) <==> Stuck(r, l, {s})
  {
    hide ActiveIn, Pen;
    assert forall u :: Remains(r0, l, {}, u) <==> Remains(r, l, {s}, u);
  }

  lemma ReleasedStuck(r: Room, s: Sid, l: Level)
    requires !ActiveIn(r.people, s, l)
    ensures var r1 := r.(board := Released(r.board, s, l));
            && (Stuck(r1, l, {}) <==> Stuck(r, l, {}))
            && (forall u :: u != s ==> (u in Pen(r1.board, l) <==> u in Pen(r.board, l)))
            && (Authority(r1.board, l) == if Authority(r.board, l) == Some(s) then None else Authority(r.board, l))
            && (forall k :: k != l ==> Authority(r1.board, k) == Authority(r.board, k))
  {
    hide Pen, ClearPenalty;
    PenaltyOps(r.board, l, s, []);
    RevokeKeepsPen(ClearPenalty(r.board, l, s), l);
    var r1 := r.(board := Released(r.board, s, l));
    assert forall u :: Remains(r1, l, {}, u) <==> Remains(r, l, {}, u);
  }

  /** s leaves l and releases it: the board named it at most, and l elects if it can. */
  lemma DepartureEndsIff(r: Room, r0: Room, s: Sid, l: Level, k: Level)
    requires PeopleOk(r0.people) && LeftBy(r, r0, s, l)
    ensures var r' := Release(r0, s, l);
            && r'.people == r0.people && NoneAnew(r, r', k)
            && (k != l && Authority(r.board, k) != Some(s) && HeldByClosed(r, k) ==> HeldByClosed(r', k))
            && (HeldByClosed(r, l) ==>
                  (HeldByClosed(r', l) <==> Authority(r.board, l) != Some(s) && Stuck(r, l, {s})))
            && (Stuck(r, l, {s}) && HeldByClosed(r', l) ==> forall u :: Remains(r, l, {s}, u) ==> u in Pen(r'.board, l))
  {
    hide PeopleOk, Rebalance, Stuck, Pen, Released;
    var r1 := r0.(board := Released(r0.board, s, l));
    ReleaseIs(r0, s, l);
    LeftStuck(r, r0, s, l);
    ReleasedStuck(r0, s, l);
    RebalanceEndsIff(r1, l);
    RebalanceNoneAnew(r1, l, k);
    RebalanceNoneAnew(r1, l, l);
    SameOrGone(r, r1, k);
    NoneAnewTransitive(r, r1, Rebalance(r1, l), k);
  }

  lemma SameHolders(r: Room, r': Room, k: Level)
    requires Authority(r'.board, k) == Authority(r.board, k)
    requires forall s :: InState(r'.people, s, Closed) <==> InState(r.people, s, Closed)
    ensures HeldByClosed(r', k) <==> HeldByClosed(r, k)
    ensures NoneAnew(r, r', k)
  {}

  lemma MovingLeft(r: Room, s: Sid, l: Level)
    requires InState(r.people, s, Active)
    ensures LeftBy(r, r.(people := SetState(r.people, s, Moving)), s, l)
  {}

  /** One player starts moving. */
  lemma StartMovingEndsIff(r: Room, s: Sid, k: Level)
    requires Core(r) && s in r.people.info && InState(r.people, s, Active)
    ensures var r' := StartMoving(r, s);
            && NoneAnew(r, r', k)
            && (HeldByClosed(r, k) ==>
                  (HeldByClosed(r', k) <==> (InLevel(r.people, s, k) ==> Stuck(r, k, {s}))))
            && (forall u :: ActiveIn(r'.people, u, k) <==> Remains(r, k, {s}, u))
            && (HeldByClosed(r', k) ==>
                  forall u :: ActiveIn(r'.people, u, k) ==> (u in Pen(r'.board, k) <==> u in Pen(r.board, k)))
  {
    hide PeopleOk, Release, Stuck, Pen, Agreed;
    var l := r.people.info[s].level;
    var moving := r.(people := SetState(r.people, s, Moving));
    assert LevelOk(r, l) && LevelOk(r, k);
    MovingLeaves(r, s);
    MovingLeft(r, s, l);
    DepartureEndsIff(r, moving, s, l, k);
    StuckPenalizes(r, k, {s});
    if k != l {
      ReleaseElsewhere(moving, s, l, k);
    }
  }

  lemma StuckPenalizes(r: Room, l: Level, gone: set<Sid>)
    ensures Stuck(r, l, gone) ==> forall u :: Remains(r, l, gone, u) ==> u in Pen(r.board, l)
  {}

  lemma ReleaseElsewhere(r: Room, s: Sid, l: Level, k: Level)
    requires PeopleOk(r.people) && r.board.suppressed == {} && Leaving(r, l, s) && k != l
    ensures Pen(Release(r, s, l).board, k) == Pen(r.board, k)
  {
    hide PeopleOk, Rebalance, Pen, Released, Leaving;
    var r1 := r.(board := Released(r.board, s, l));
    ReleasedElectable(r, s, l);
    RebalanceEstablishes(r1, l);
    ReleaseIs(r, s, l);
  }

  // ----- Groups -----

  /** Who remains, and who of them is penalized, is what a later departure looks at. */
  lemma StuckLater(r: Room, r': Room, l: Level, s: Sid, gone: set<Sid>)
    requires forall u :: ActiveIn(r'.people, u, l) <==> Remains(r, l, {s}, u)
    requires forall u :: ActiveIn(r'.people, u, l) ==> (u in Pen(r'.board, l) <==> u in Pen(r.board, l))
    ensures Stuck(r', l, gone) <==> Stuck(r, l, {s} + gone)
  {
    hide ActiveIn, Pen;
    assert forall u :: Remains(r', l, gone, u) <==> Remains(r, l, {s} + gone, u);
  }

  lemma MembersCons(group: seq<Sid>, i: nat)
    requires 0 < i < |group|
    ensures Members(group[..i + 1]) == {group[0]} + Members(group[1..][..i])
    ensures Members(group[..1]) == {group[0]}
  {
    assert group[..i + 1] == [group[0]] + group[1..][..i];
    assert group[..1] == [group[0]];
  }

  lemma StuckThroughoutCons(r: Room, r': Room, l: Level, group: seq<Sid>)
    requires group != []
    requires forall u :: ActiveIn(r'.people, u, l) <==> Remains(r, l, {group[0]}, u)
    requires forall u :: ActiveIn(r'.people, u, l) ==> (u in Pen(r'.board, l) <==> u in Pen(r.board, l))
    requires forall u :: InLevel(r'.people, u, l) <==> InLevel(r.people, u, l)
    ensures StuckThroughout(r, l, group) <==>
            (InLevel(r.people, group[0], l) ==> Stuck(r, l, {group[0]})) && StuckThroughout(r', l, group[1..])
  {
    hide ActiveIn, Pen, Stuck, Members, InLevel;
    FirstMember(group);
    forall i | 0 < i < |group|
      ensures Stuck(r, l, Members(group[..i + 1])) <==> Stuck(r', l, Members(group[1..][..i]))
    {
      MembersCons(group, i);
      StuckLater(r, r', l, group[0], Members(group[1..][..i]));
    }
    if StuckThroughout(r, l, group) {
      forall i | 0 <= i < |group[1..]| && InLevel(r'.people, group[1..][i], l)
        ensures Stuck(r', l, Members(group[1..][..i + 1]))
      {
        assert group[1..][i] == group[i + 1] && Stuck(r, l, Members(group[..i + 1 + 1]));
      }
    }
    if (InLevel(r.people, group[0], l) ==> Stuck(r, l, {group[0]})) && StuckThroughout(r', l, group[1..]) {
      forall i | 0 <= i < |group| && InLevel(r.people, group[i], l)
        ensures Stuck(r, l, Members(group[..i + 1]))
      {
        if i > 0 {
          assert group[1..][i - 1] == group[i] && Stuck(r', l, Members(group[1..][..i - 1 + 1]));
        }
      }
    }
  }

  lemma FirstMember(group: seq<Sid>)
    requires group != []
    ensures Members(group[..1]) == {group[0]}
  {
    assert group[..1] == [group[0]];
  }

  lemma {:induction false} StartAllEndsIff(r: Room, group: seq<Sid>, k: Level)
    requires Core(r) && NoDuplicates(group)
    requires forall s :: s in group ==> s in r.people.info && InState(r.people, s, Active)
    ensures NoneAnew(r, StartAll(r, group), k)
    ensures HeldByClosed(r, k) ==> (HeldByClosed(StartAll(r, group), k) <==> StuckThroughout(r, k, group))
    decreases |group|
  {
    hide LevelOk, PeopleOk, StartMoving, Stuck, StuckThroughout, HeldByClosed, NoneAnew, Remains;
    if group == [] {
      SameHolders(r, r, k);
      NobodyGoes(r, k);
    } else {
      var s := group[0];
      var r1 := StartMoving(r, s);
      StartMovingKeepsCore(r, s);
      StartMovingEndsIff(r, s, k);
      NoDuplicatesTail(group);
      assert forall t :: t in group[1..] ==> t in group && t != s;
      StartAllEndsIff(r1, group[1..], k);
      NoneAnewTransitive(r, r1, StartAll(r1, group[1..]), k);
      NewlyHeld(r, r1, k);
      NewlyHeld(r1, StartAll(r1, group[1..]), k);
      if HeldByClosed(r1, k) {
        SameLevels(r, s, k);
        StuckThroughoutCons(r, r1, k, group);
      } else if HeldByClosed(r, k) && StuckThroughout(r, k, group) {
        FirstStuck(r, k, group);
      }
    }
  }

  lemma NobodyGoes(r: Room, l: Level)
    ensures StuckThroughout(r, l, [])
  {}

  lemma FirstStuck(r: Room, l: Level, group: seq<Sid>)
    requires group != [] && InLevel(r.people, group[0], l) && StuckThroughout(r, l, group)
    ensures Stuck(r, l, {group[0]})
  {
    hide Stuck;
    FirstMember(group);
  }

  lemma NewlyHeld(r: Room, r': Room, k: Level)
    requires NoneAnew(r, r', k)
    ensures HeldByClosed(r', k) ==> HeldByClosed(r, k)
  {}

  lemma SameLevels(r: Room, s: Sid, k: Level)
    requires s in r.people.info
    ensures forall u :: InLevel(StartMoving(r, s).people, u, k) <==> InLevel(r.people, u, k)
  {
    hide Release;
    ReleasePeople(r.(people := SetState(r.people, s, Moving)), s, r.people.info[s].level);
  }

  // ----- The steps -----

  /** What each step comes to for level k. */
  ghost predicate EndsIff(r: Room, e: Event, k: Level) {
    var r' := Step(r, e);
    && NoneAnew(r, r', k)
    && (HeldByClosed(r, k) ==> (HeldByClosed(r', k) <==> !Reopens(r, e, k)))
  }

  lemma StaysAsIs(r: Room, e: Event, k: Level)
    requires Step(r, e) == r && !Reopens(r, e, k)
    ensures EndsIff(r, e, k)
  {
    SameHolders(r, r, k);
  }

  lemma ConnectEnds(r: Room, k: Level)
    requires PeopleOk(r.people)
    ensures EndsIff(r, EvConnect, k)
  {
    hide NoDuplicates;
    SameHolders(r, Connect(r), k);
  }

  lemma JoinEnds(r: Room, s: Sid, id: int, uuid: string, l: Level, sent: bool, k: Level)
    requires Core(r)
    ensures EndsIff(r, EvJoin(s, id, uuid, l, sent), k)
  {
    hide PeopleOk, Elects, ActiveList, LevelOk;
    var r' := Join(r, s, id, uuid, l, sent);
    assert LevelOk(r, k);
    JoinHolder(r, s, id, uuid, l, sent, k);
  }

  lemma JoinHolder(r: Room, s: Sid, id: int, uuid: string, l: Level, sent: bool, k: Level)
    requires LevelOk(r, k)
    ensures var r' := Join(r, s, id, uuid, l, sent);
            && NoneAnew(r, r', k) && (HeldByClosed(r, k) ==> HeldByClosed(r', k))
  {
    hide Elects, ActiveList, Agreed, Pen;
  }

  lemma ChangeLevelEnds(r: Room, s: Sid, l: Level, k: Level)
    requires Core(r)
    ensures EndsIff(r, EvChangeLevel(s, l), k)
  {
    hide PeopleOk, LevelOk, LeaveLevel, EnterLevel, Arriving, LevelsExcept;
    if MaySend(r, s, LevelUpdate) && s in r.people.info {
      LeaveHolder(r, s, l, k);
      C.LeftReady(r, s, l);
      EnterHolder(LeaveLevel(r, s, l), s, l, k);
      NoneAnewTransitive(r, LeaveLevel(r, s, l), ChangeLevel(r, s, l), k);
    } else {
      StaysAsIs(r, EvChangeLevel(s, l), k);
    }
  }

  lemma LeaveHolder(r: Room, s: Sid, l: Level, k: Level)
    requires Core(r) && s in r.people.info && InState(r.people, s, Active)
    ensures var r' := LeaveLevel(r, s, l);
            && NoneAnew(r, r', k) && (HeldByClosed(r, k) ==> HeldByClosed(r', k))
  {
    hide LevelOk, Rebalance, ClearPenalty, NoDuplicates;
    var left := r.people.info[s].level;
    var moved := r.(people := Relocate(r.people, s, l));
    RelocatedPeople(r, s, l);
    PenaltyOps(r.board, left, s, []);
    if left != l && Authority(ClearPenalty(r.board, left, s), left) == Some(s) {
      var freed := moved.(board := RevokeAuthority(ClearPenalty(r.board, left, s), left));
      SameOrGone(r, freed, k);
      RebalancePeople(freed, left);
      RebalanceNoneAnew(freed, left, k);
      NoneAnewTransitive(r, freed, Rebalance(freed, left), k);
    }
  }

  lemma EnterHolder(r: Room, s: Sid, l: Level, k: Level)
    requires PeopleOk(r.people)
    ensures var r' := EnterLevel(r, s, l);
            && NoneAnew(r, r', k) && (HeldByClosed(r, k) ==> HeldByClosed(r', k))
  {
    hide PeopleOk, Rebalance;
    if Authority(r.board, l) == None {
      RebalancePeople(r, l);
      RebalanceNoneAnew(r, l, k);
    }
  }

  lemma SelectNoneAnew(r: Room, l: Level, k: Level)
    requires Electable(r, l) && l !in r.board.authority
    ensures var r' := SelectAndElect(r, l);
            && r'.people == r.people && NoneAnew(r, r', k)
            && (k != l ==> Authority(r'.board, k) == Authority(r.board, k))
  {
    hide Electable, SelectAndElect, ActiveList, LevelOk, Pen, Last;
    SelectEstablishes(r, l);
    var r' := SelectAndElect(r, l);
    if k == l {
      ElectedActive(r, l);
      assert !HeldByClosed(r', k);
    } else {
      assert Authority(r'.board, k) == Authority(r.board, k) by { hide LevelOk; }
      SameHolders(r, r', k);
    }
  }

  lemma ElectedActive(r: Room, l: Level)
    requires Electable(r, l) && l !in r.board.authority
    ensures l in SelectAndElect(r, l).board.authority ==>
              ActiveIn(r.people, SelectAndElect(r, l).board.authority[l], l)
  {
    hide PeopleOk, ActiveList, Prune, Elects, Pen, ClearPenalty, Agreed;
    var active := ActiveList(r.people, l);
    var pruned := r.(board := Prune(r.board, l, active));
    ActiveListIs(r, l);
    PenaltyOps(r.board, l, 0, active);
    forall s ensures ClearPenalty(pruned.board, l, s).authority == r.board.authority {
      PenaltyOps(pruned.board, l, s, []);
    }
  }

  lemma HeartbeatEnds(r: Room, s: Sid, l: Level, k: Level)
    requires Core(r)
    ensures EndsIff(r, EvHeartbeat(s, l), k)
  {
    hide LevelOk, SelectAndElect, PeopleOk, Electable;
    if MaySend(r, s, GameMsg) && InLevel(r.people, s, l) && l !in r.board.authority {
      CoreElectable(r, l);
      SelectNoneAnew(r, l, k);
    } else {
      StaysAsIs(r, EvHeartbeat(s, l), k);
    }
  }

  lemma ClientRevokeEnds(r: Room, s: Sid, k: Level)
    requires Core(r)
    ensures EndsIff(r, EvClientRevoke(s), k)
  {
    hide LevelOk, SelectAndElect, PeopleOk, Electable, Penalize, Revokes, ActiveList;
    if MaySend(r, s, GameMsg) && s in r.people.info && Authority(r.board, r.people.info[s].level) == Some(s) {
      var l := r.people.info[s].level;
      var r0 := r.(board := RevokeAuthority(Penalize(r.board, l, s), l),
                   log := r.log + Revokes(ActiveList(r.people, l), r.people.info[s].id));
      assert LevelOk(r, l);
      PenaltyOps(r.board, l, s, []);
      PenalizedElectable(r, s, l);
      SameOrGone(r, r0, k);
      SelectNoneAnew(r0, l, k);
      NoneAnewTransitive(r, r0, SelectAndElect(r0, l), k);
    } else {
      StaysAsIs(r, EvClientRevoke(s), k);
    }
  }

  lemma ServerRevokeEnds(r: Room, l: Level, k: Level)
    requires Core(r)
    ensures EndsIff(r, EvServerRevoke(l), k)
  {
    hide LevelOk, Rebalance, PeopleOk, Electable, RevokesAndElects, ActiveList, ServerRevoke;
    assert LevelOk(r, l);
    if l in r.board.authority {
      AuthorityStored(r, l);
      var r0 := r.(board := RevokeAuthority(r.board, l));
      SameOrGone(r, r0, k);
      RebalancePeople(r0, l);
      RebalanceNoneAnew(r0, l, k);
      NoneAnewTransitive(r, r0, Rebalance(r0, l), k);
      ServerRevokeIs(r, l);
    } else {
      NothingToRevoke(r, l);
      SameHolders(r, r, k);
    }
  }

  lemma MoveOneEnds(r: Room, s: Sid, target: string, now: int, sent: bool, k: Level)
    requires Inv(r)
    ensures EndsIff(r, EvMove(s, target, now, sent), k)
  {
    hide LevelOk, PeopleOk, StartMoving, PendingOk, Last, Stuck;
    if Movable(r, s) && sent {
      var id := r.people.info[s].id;
      var ready := r.(pending := r.pending[Single(id, target, now) := id], log := r.log + [MoveGame(s)]);
      LastUnrelated(r.log, [MoveGame(s)]);
      UnrelatedKeepsCore(r, ready);
      StartMovingEndsIff(ready, s, k);
      SameBoardStuck(r, ready, k, {s});
      SameHolders(r, ready, k);
      NoneAnewTransitive(r, ready, StartMoving(ready, s), k);
    } else {
      StaysAsIs(r, EvMove(s, target, now, sent), k);
    }
  }

  lemma SameBoardStuck(r: Room, r': Room, l: Level, gone: set<Sid>)
    requires r'.people == r.people && r'.board == r.board
    ensures Stuck(r', l, gone) <==> Stuck(r, l, gone)
  {
    hide Pen;
    assert forall u :: Remains(r', l, gone, u) <==> Remains(r, l, gone, u);
  }

  lemma SameBoardThroughout(r: Room, r': Room, l: Level, group: seq<Sid>)
    requires r'.people == r.people && r'.board == r.board
    ensures StuckThroughout(r', l, group) <==> StuckThroughout(r, l, group)
  {
    hide Stuck, Members;
    forall gone ensures Stuck(r', l, gone) <==> Stuck(r, l, gone) {
      SameBoardStuck(r, r', l, gone);
    }
  }

  lemma MoveGroupEnds(r: Room, group: seq<Sid>, txn: Option<string>, target: string, now: int, failAt: Option<nat>,
      k: Level)
    requires Inv(r)
    ensures EndsIff(r, EvMoveGroup(group, txn, target, now, failAt), k)
  {
    hide LevelOk, PeopleOk, PendingOk, StartAll, PrepareAll, MoveGames, CancelMoves, Ready, NoDuplicates, Last,
         StuckThroughout;
    var e := Eligible(r, group);
    var r' := MoveGroup(r, group, txn, target, now, failAt);
    if !GroupAccepted(r, group) {
      GroupRejected(r, group, txn, target, now, failAt);
      SameHolders(r, r, k);
    } else if failAt.Some? && failAt.value < |e| {
      GroupMoveRollsBack(r, group, txn, target, now, failAt.value);
      SameHolders(r, r', k);
    } else {
      EligibleReady(r, group);
      EligibleDistinct(r, group);
      var ready := r.(pending := PrepareAll(r, e, txn, target, now), log := r.log + MoveGames(e));
      MoveGamesAre(e);
      LastUnrelated(r.log, MoveGames(e));
      UnrelatedKeepsCore(r, ready);
      StartAllEndsIff(ready, e, k);
      SameBoardThroughout(r, ready, k, e);
      SameHolders(r, ready, k);
      NoneAnewTransitive(r, ready, r', k);
    }
  }

  /** Whoever comes back is active and not penalized, so its level is not stuck. */
  lemma ResumeEnds(r: Room, s: Sid, k: Level)
    requires Core(r) && s in r.people.info && InState(r.people, s, Moving)
    ensures var r' := Resume(r, s);
            && NoneAnew(r, r', k)
            && (HeldByClosed(r, k) ==> (HeldByClosed(r', k) <==> !InLevel(r.people, s, k)))
  {
    hide LevelOk, PeopleOk, Rebalance, Electable, SameFor, Stuck, Pen;
    var l := r.people.info[s].level;
    var back := H.Back(r, s);
    assert LevelOk(r, l);
    ResumedElectable(r, s);
    H.ElectablePeople(back, l);
    NotStuck(r, s, l);
    SameHolderBack(r, s, k);
    RebalanceEndsIff(back, l);
    RebalanceNoneAnew(back, l, k);
    NoneAnewTransitive(r, back, Rebalance(back, l), k);
  }

  lemma SameHolderBack(r: Room, s: Sid, k: Level)
    requires s in r.people.info && InState(r.people, s, Moving)
    ensures NoneAnew(r, H.Back(r, s), k) && (HeldByClosed(H.Back(r, s), k) <==> HeldByClosed(r, k))
    ensures forall u :: InState(H.Back(r, s).people, u, Closed) ==> !InState(H.Back(r, s).people, u, Active)
  {}

  lemma NotStuck(r: Room, s: Sid, l: Level)
    requires LevelOk(r, l) && InLevel(r.people, s, l) && InState(r.people, s, Moving)
    ensures !Stuck(H.Back(r, s), l, {})
  {
    hide Agreed;
    assert Remains(H.Back(r, s), l, {}, s);
  }

  lemma MoveResultEnds(r: Room, s: Sid, result: int, k: Level)
    requires Inv(r)
    ensures EndsIff(r, EvMoveResult(s, result), k)
  {
    hide LevelOk, PeopleOk, PendingOk, Resume;
    if MaySend(r, s, MoveResult) && s in r.people.info && HasPending(r, r.people.info[s].id) {
      var acked := ForgetMoves(r, r.people.info[s].id);
      UnrelatedKeepsCore(r, acked);
      SameHolders(r, acked, k);
      if result != 0 && InState(r.people, s, Moving) {
        ResumeEnds(acked, s, k);
        NoneAnewTransitive(r, acked, Resume(acked, s), k);
      }
    } else {
      StaysAsIs(r, EvMoveResult(s, result), k);
    }
  }

  lemma CancelMoveEnds(r: Room, s: Sid, sent: bool, k: Level)
    requires Inv(r)
    ensures EndsIff(r, EvCancelMove(s, sent), k)
  {
    hide LevelOk, PeopleOk, PendingOk, Resume, Last;
    if s in r.people.info && sent {
      var id := r.people.info[s].id;
      var told := r.(log := r.log + [CancelMove(s)]);
      LastUnrelated(r.log, [CancelMove(s)]);
      UnrelatedKeepsCore(r, told);
      SameHolders(r, told, k);
      var done := if InState(r.people, s, Moving) then Resume(told, s) else told;
      if InState(r.people, s, Moving) {
        ResumeEnds(told, s, k);
      }
      NoneAnewTransitive(r, told, done, k);
      SameHolders(done, ForgetMoves(done, id), k);
      NoneAnewTransitive(r, done, ForgetMoves(done, id), k);
    } else {
      StaysAsIs(r, EvCancelMove(s, sent), k);
    }
  }

  lemma DisconnectEnds(r: Room, s: Sid, k: Level)
    requires Inv(r)
    ensures EndsIff(r, EvDisconnect(s), k)
  {
    hide LevelOk, PeopleOk, PendingOk, Release, Leaving, SameFor, Stuck;
    assert LevelOk(r, k);
    if s !in r.people.sessions {
      StaysAsIs(r, EvDisconnect(s), k);
    } else if s in r.people.info {
      var l := r.people.info[s].level;
      var kept := ForgetMoves(r, r.people.info[s].id);
      UnrelatedKeepsCore(r, kept);
      assert LevelOk(kept, l);
      var removed := kept.(people := Without(r.people, s));
      RemovedLeaves(kept, s);
      GoneLeft(r, removed, s, l);
      DepartureEndsIff(r, removed, s, l, k);
      assert Disconnect(r, s) == Release(removed, s, l);
      AuthorityInLevel(r, k);
    } else {
      GuestGoes(r, s, k);
    }
  }

  lemma AuthorityInLevel(r: Room, k: Level)
    requires LevelOk(r, k)
    ensures k in r.board.authority ==> InLevel(r.people, r.board.authority[k], k)
  {}

  lemma GoneLeft(r: Room, r0: Room, s: Sid, l: Level)
    requires s in r.people.info && r0.people == Without(r.people, s) && r0.board == r.board
    ensures LeftBy(r, r0, s, l)
  {}

  lemma GuestGoes(r: Room, s: Sid, k: Level)
    requires LevelOk(r, k) && s in r.people.sessions && s !in r.people.info
    ensures EndsIff(r, EvDisconnect(s), k)
  {
    hide Agreed, Pen, Stuck;
  }

  /** Closing a session closes no other, and elects nobody. */
  lemma CloseEnds(r: Room, s: Sid, k: Level)
    ensures HeldByClosed(r, k) ==> HeldByClosed(Close(r, s), k)
    ensures !HeldByClosed(r, k) ==>
              (HeldByClosed(Close(r, s), k) <==> s in r.people.sessions && Authority(r.board, k) == Some(s))
  {}

  lemma StepEndsIff(r: Room, e: Event, k: Level)
    requires Inv(r) && !e.EvClose?
    ensures EndsIff(r, e, k)
  {
    hide LevelOk, PeopleOk, PendingOk, EndsIff;
    match e
    case EvConnect => ConnectEnds(r, k);
    case EvJoin(s, id, uuid, l, sent) => JoinEnds(r, s, id, uuid, l, sent, k);
    case EvChangeLevel(s, l) => ChangeLevelEnds(r, s, l, k);
    case EvHeartbeat(s, l) => HeartbeatEnds(r, s, l, k);
    case EvClientRevoke(s) => ClientRevokeEnds(r, s, k);
    case EvServerRevoke(l) => ServerRevokeEnds(r, l, k);
    case EvMove(s, target, now, sent) => MoveOneEnds(r, s, target, now, sent, k);
    case EvMoveGroup(group, txn, target, now, failAt) => MoveGroupEnds(r, group, txn, target, now, failAt, k);
    case EvMoveResult(s, result) => MoveResultEnds(r, s, result, k);
    case EvCancelMove(s, sent) => CancelMoveEnds(r, s, sent, k);
    case EvDisconnect(s) => DisconnectEnds(r, s, k);
  }

  /** In a reachable room a level comes to be held by a closed session exactly when its holder is closed. */
  lemma ClosedIff(r: Room, e: Event, l: Level)
    requires Inv(r) && !HeldByClosed(r, l)
    ensures HeldByClosed(Step(r, e), l) <==> e.EvClose? && Authority(r.board, l) == Some(e.s)
  {
    hide LevelOk, PeopleOk, PendingOk, HeldByClosed, Step;
    if e.EvClose? {
      CloseEnds(r, e.s, l);
      HolderConnected(r, l);
      CloseIs(r, e.s);
    } else {
      StepEndsIff(r, e, l);
      NewlyHeld(r, Step(r, e), l);
    }
  }

  lemma CloseIs(r: Room, s: Sid)
    ensures Step(r, EvClose(s)) == Close(r, s)
  {}

  lemma HolderConnected(r: Room, l: Level)
    requires Inv(r)
    ensures l in r.board.authority ==> r.board.authority[l] in r.people.sessions
  {
    assert LevelOk(r, l);
  }

  /** And it ceases to be so exactly by the steps listed. */
  lemma ReopenedIff(r: Room, e: Event, l: Level)
    requires Inv(r) && HeldByClosed(r, l)
    ensures !HeldByClosed(Step(r, e), l) <==> Reopens(r, e, l)
  {
    hide LevelOk, PeopleOk, PendingOk, HeldByClosed, Step, Reopens;
    if e.EvClose? {
      CloseEnds(r, e.s, l);
      CloseIs(r, e.s);
      CloseReopensNothing(r, e.s, l);
    } else {
      StepEndsIff(r, e, l);
    }
  }

  lemma CloseReopensNothing(r: Room, s: Sid, l: Level)
    ensures !Reopens(r, EvClose(s), l)
  {}

  // ----- A run -----

  const ClosedRun: seq<Event> := [EvConnect, EvJoin(0, 1, "a", 0, true), EvClose(0)]

  /** A level whose only player was closed at the bad-packet limit is held by it until the disconnect. */
  lemma ClosedAuthority()
    ensures HeldByClosed(Run(ClosedRun), 0) && Authority(Run(ClosedRun).board, 0) == Some(0)
    ensures !HeldByClosed(Step(Run(ClosedRun), EvDisconnect(0)), 0)
  {
    ClosedRunEnds();
    RunKeepsInv(ClosedRun);
    hide Inv, Step, Run;
    ReopenedIff(Run(ClosedRun), EvDisconnect(0), 0);
  }

  lemma ClosedRunEnds()
    ensures Run(ClosedRun) == H.One(Closed, map[0 := 0], [Elect(0, 1, 0)])
  {
    H.FirstArrives();
    var one := [EvConnect, EvJoin(0, 1, "a", 0, true)];
    H.RunSnoc(one, EvClose(0));
    assert one + [EvClose(0)] == ClosedRun;
    hide Run;
    assert Step(H.One(Active, map[0 := 0], [Elect(0, 1, 0)]), EvClose(0)) ==
           H.One(Closed, map[0 := 0], [Elect(0, 1, 0)]);
  }
}
