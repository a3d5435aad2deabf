/** What every run of the room keeps: who may hold an authority, who is told, who is moving. */
module RoomInvariants {
  import opened Options
  import opened Connections
  import opened RoomSteps

  // ----- Histories -----

  /** m is about s's knowledge of its level's authority. */
  predicate Concerns(m: Msg, s: Sid) {
    (m.Elect? || m.Revoke? || m.Resumed?) && m.to == s
  }

  /** The last thing s was told about authority, or the mark that it has come back from a move since. */
  function Last(log: seq<Msg>, s: Sid): Option<Msg> {
    if log == [] then None
    else if Concerns(log[|log| - 1], s) then Some(log[|log| - 1])
    else Last(log[..|log| - 1], s)
  }

  lemma {:induction false} LastAppend(a: seq<Msg>, b: seq<Msg>, s: Sid)
    ensures Last(a + b, s) == if Last(b, s).Some? then Last(b, s) else Last(a, s)
    decreases |b|
  {
    if b == [] {
      assert a + b == a;
    } else {
      var n := |b| - 1;
      assert (a + b)[|a + b| - 1] == b[n];
      assert (a + b)[..|a + b| - 1] == a + b[..n];
      LastAppend(a, b[..n], s);
    }
  }

  lemma LastOne(m: Msg, s: Sid)
    ensures Last([m], s) == if Concerns(m, s) then Some(m) else None
  {
    assert [m][..0] == [];
  }

  /** A batch of elects reaches exactly its targets. */
  lemma {:induction false} LastElects(targets: seq<Sid>, authority: int, l: Level, s: Sid)
    ensures Last(Elects(targets, authority, l), s) ==
            if s in targets then Some(Elect(s, authority, l)) else None
    decreases |targets|
  {
    if targets != [] {
      var n := |targets| - 1;
      LastElects(targets[..n], authority, l, s);
      assert Elects(targets, authority, l)[..n] == Elects(targets[..n], authority, l);
      assert targets == targets[..n] + [targets[n]];
    }
  }

  // ----- The invariant -----

  ghost predicate PeopleOk(p: People) {
    && NoDuplicates(p.order)
    && (forall s :: s in p.order <==> s in p.info)
    && (forall s :: s in p.info ==> s in p.sessions && p.sessions[s] in {Active, Moving, Closed})
    && (forall s, t :: s in p.info && t in p.info && s != t ==>
          p.info[s].id != p.info[t].id && p.info[s].uuid != p.info[t].uuid)
    && (forall s :: s in p.sessions ==> s < p.nextSid && p.sessions[s] != Connected)
  }

  /** Only a player of the level, ACTIVE or CLOSED awaiting its disconnect, never a penalized one. */
  ghost predicate AuthorityOk(r: Room, l: Level) {
    l in r.board.authority ==>
      var s := r.board.authority[l];
      && InLevel(r.people, s, l)
      && (InState(r.people, s, Active) || InState(r.people, s, Closed))
      && s !in Pen(r.board, l)
  }

  /** Penalties name stored players of the level, none of them on the move. */
  ghost predicate PenaltiesOk(r: Room, l: Level) {
    forall s :: s in Pen(r.board, l) ==> InLevel(r.people, s, l) && !InState(r.people, s, Moving)
  }

  /** A level without an authority has only penalized active players. */
  ghost predicate Covered(r: Room, l: Level) {
    l !in r.board.authority ==> forall s :: ActiveIn(r.people, s, l) ==> s in Pen(r.board, l)
  }

  ghost predicate Told(r: Room, s: Sid, authority: int, l: Level) {
    Last(r.log, s) == Some(Elect(s, authority, l)) || Last(r.log, s) == Some(Resumed(s))
  }

  /** The last authority message of every active player names the authority, unless it has resumed since. */
  ghost predicate Agreed(r: Room, l: Level) {
    l in r.board.authority && r.board.authority[l] in r.people.info ==>
      forall s :: ActiveIn(r.people, s, l) ==> Told(r, s, r.people.info[r.board.authority[l]].id, l)
  }

  ghost predicate LevelOk(r: Room, l: Level) {
    AuthorityOk(r, l) && PenaltiesOk(r, l) && Covered(r, l) && Agreed(r, l)
  }

  /** Each pending move belongs to one stored player that is moving, closed, or still to be started. */
  ghost predicate PendingOk(r: Room, starting: set<Sid>) {
    && (forall m :: m in r.pending ==> m.player == r.pending[m] && HasOwner(r, r.pending[m], starting))
    && (forall m, n :: m in r.pending && n in r.pending && r.pending[m] == r.pending[n] ==> m == n)
  }

  ghost predicate HasOwner(r: Room, id: int, starting: set<Sid>) {
    exists s :: s in r.people.info && r.people.info[s].id == id &&
                (InState(r.people, s, Moving) || InState(r.people, s, Closed) || s in starting)
  }

  ghost predicate Inv(r: Room) {
    && PeopleOk(r.people)
    && r.board.suppressed == {}
    && PendingOk(r, {})
    && forall l :: LevelOk(r, l)
  }

  // ----- What another level's events leave alone -----

  /** From level l's point of view, r and r' are the same. */
  ghost predicate SameFor(r: Room, r': Room, l: Level) {
    && Authority(r.board, l) == Authority(r'.board, l)
    && Pen(r.board, l) == Pen(r'.board, l)
    && (forall s :: InLevel(r.people, s, l) <==> InLevel(r'.people, s, l))
    && (forall s :: InLevel(r.people, s, l) ==>
          && r.people.info[s].id == r'.people.info[s].id
          && (forall c :: InState(r.people, s, c) <==> InState(r'.people, s, c)))
    && (forall s :: ActiveIn(r.people, s, l) ==> Last(r.log, s) == Last(r'.log, s))
  }

  lemma SameForKeeps(r: Room, r': Room, l: Level)
    requires LevelOk(r, l) && SameFor(r, r', l)
    ensures LevelOk(r', l)
  {
    hide Last, Pen;
  }

  // ----- Electing -----

  /** What an election of level l may change: the board of l, and elects to its active players. */
  ghost predicate OnlyLevel(r: Room, r': Room, l: Level) {
    && r'.people == r.people && r'.pending == r.pending
    && r'.board.suppressed == r.board.suppressed
    && (forall k :: k != l ==> Authority(r'.board, k) == Authority(r.board, k) && Pen(r'.board, k) == Pen(r.board, k))
    && (forall s :: !ActiveIn(r.people, s, l) ==> Last(r'.log, s) == Last(r.log, s))
  }

  lemma OnlyLevelSameFor(r: Room, r': Room, l: Level, k: Level)
    requires OnlyLevel(r, r', l) && k != l
    ensures SameFor(r, r', k)
  {
    hide Last, Pen;
  }

  lemma OnlyLevelTransitive(a: Room, b: Room, c: Room, l: Level)
    requires OnlyLevel(a, b, l) && OnlyLevel(b, c, l)
    ensures OnlyLevel(a, c, l)
  {
    hide Last, Pen;
  }

  lemma SetPenIs(b: Board, l: Level, pen: set<Sid>)
    ensures Pen(SetPen(b, l, pen), l) == pen
    ensures forall k :: k != l ==> Pen(SetPen(b, l, pen), k) == Pen(b, k)
    ensures SetPen(b, l, pen).authority == b.authority && SetPen(b, l, pen).suppressed == b.suppressed
  {}

  /** Clearing, pruning and penalizing touch one level's penalties and nothing else. */
  lemma PenaltyOps(b: Board, l: Level, s: Sid, active: seq<Sid>)
    ensures Pen(ClearPenalty(b, l, s), l) == Pen(b, l) - {s}
    ensures Pen(Penalize(b, l, s), l) == Pen(b, l) + {s}
    ensures forall t :: t in Pen(Prune(b, l, active), l) <==> t in Pen(b, l) && t in active
    ensures forall k :: k != l ==> Pen(ClearPenalty(b, l, s), k) == Pen(b, k)
    ensures forall k :: k != l ==> Pen(Penalize(b, l, s), k) == Pen(b, k)
    ensures forall k :: k != l ==> Pen(Prune(b, l, active), k) == Pen(b, k)
    ensures ClearPenalty(b, l, s).authority == b.authority && ClearPenalty(b, l, s).suppressed == b.suppressed
    ensures Penalize(b, l, s).authority == b.authority && Penalize(b, l, s).suppressed == b.suppressed
    ensures Prune(b, l, active).authority == b.authority && Prune(b, l, active).suppressed == b.suppressed
  {
    SetPenIs(b, l, Pen(b, l) - {s});
    SetPenIs(b, l, Pen(b, l) + {s});
    SetPenIs(b, l, Among(Pen(b, l), active));
  }

  /** An election outside the gate tells every active player of the level, and nobody else. */
  lemma SetAuthorityTells(r: Room, l: Level, s: Sid)
    requires CanElect(r, l, s) && l !in r.board.suppressed && Authority(r.board, l) != Some(s)
    ensures var r' := SetAuthority(r, l, s);
            && r'.board == r.board.(authority := r.board.authority[l := s])
            && r'.people == r.people && r'.pending == r.pending
            && (forall t :: ActiveIn(r.people, t, l) && t in r.people.order ==>
                  Last(r'.log, t) == Some(Elect(t, r.people.info[s].id, l)))
            && (forall t :: !ActiveIn(r.people, t, l) ==> Last(r'.log, t) == Last(r.log, t))
  {
    hide Last, Elects;
    var targets := ActiveList(r.people, l);
    ActivesMembers(r.people, r.people.order, l);
    forall t: Sid
      ensures Last(SetAuthority(r, l, s).log, t) ==
              if t in targets then Some(Elect(t, r.people.info[s].id, l)) else Last(r.log, t)
    {
      LastAppend(r.log, Elects(targets, r.people.info[s].id, l), t);
      LastElects(targets, r.people.info[s].id, l, t);
    }
  }

  /** Electing a suitable candidate makes the level right, whatever was wrong with its authority. */
  lemma ElectEstablishes(r: Room, l: Level, s: Sid)
    requires PeopleOk(r.people) && r.board.suppressed == {} && PenaltiesOk(r, l)
    requires ActiveIn(r.people, s, l) && s !in Pen(r.board, l) && Authority(r.board, l) != Some(s)
    ensures LevelOk(SetAuthority(r, l, s), l) && OnlyLevel(r, SetAuthority(r, l, s), l)
  {
    hide Last, Elects, Actives, NoDuplicates;
    SetAuthorityTells(r, l, s);
    var r' := SetAuthority(r, l, s);
    assert forall k :: Pen(r'.board, k) == Pen(r.board, k);
  }

  lemma ActiveListIs(r: Room, l: Level)
    requires PeopleOk(r.people)
    ensures forall s :: s in ActiveList(r.people, l) <==> ActiveIn(r.people, s, l)
  {
    hide NoDuplicates;
    ActivesMembers(r.people, r.people.order, l);
  }

  /** Electing the picked candidate, an only player's penalty being forgiven. */
  lemma PickEstablishes(r: Room, l: Level, s: Sid)
    requires PeopleOk(r.people) && r.board.suppressed == {} && PenaltiesOk(r, l)
    requires ActiveIn(r.people, s, l) && Authority(r.board, l) != Some(s)
    ensures LevelOk(ElectPicked(r, l, s), l) && OnlyLevel(r, ElectPicked(r, l, s), l)
  {
    hide Last, Actives, SetAuthority, NoDuplicates, Pen, ClearPenalty, LevelOk;
    PenaltyOps(r.board, l, s, []);
    var b := if s in Pen(r.board, l) then ClearPenalty(r.board, l, s) else r.board;
    var forgiven := r.(board := b);
    ElectEstablishes(forgiven, l, s);
    assert OnlyLevel(r, forgiven, l);
    OnlyLevelTransitive(r, forgiven, SetAuthority(forgiven, l, s), l);
  }

  /** What an election needs to start from: nothing about coverage. */
  ghost predicate Electable(r: Room, l: Level) {
    PeopleOk(r.people) && r.board.suppressed == {} && AuthorityOk(r, l) && PenaltiesOk(r, l) && Agreed(r, l)
  }

  lemma PruneKeeps(r: Room, l: Level)
    requires Electable(r, l)
    ensures var pruned := r.(board := Prune(r.board, l, ActiveList(r.people, l)));
            Electable(pruned, l) && OnlyLevel(r, pruned, l) && Authority(pruned.board, l) == Authority(r.board, l)
  {
    hide Last, NoDuplicates, Pen, Prune, ActiveList;
    PenaltyOps(r.board, l, 0, ActiveList(r.people, l));
  }

  /** rebalanceAuthority leaves its level right. */
  lemma RebalanceEstablishes(r: Room, l: Level)
    requires Electable(r, l)
    ensures LevelOk(Rebalance(r, l), l) && OnlyLevel(r, Rebalance(r, l), l)
  {
    hide Last, NoDuplicates, Pen, Prune, ActiveList, ElectPicked, Agreed, PeopleOk;
    var active := ActiveList(r.people, l);
    var pruned := r.(board := Prune(r.board, l, active));
    PruneKeeps(r, l);
    ActiveListIs(r, l);
    if !Keeps(pruned.board, l, active) {
      match Pick(pruned.board, l, active)
      case Some(s) =>
        PickedIsNew(pruned, l, active, s);
        PickEstablishes(pruned, l, s);
        OnlyLevelTransitive(r, pruned, ElectPicked(pruned, l, s), l);
      case None =>
        if active == [] {
          ResetEstablishes(pruned, l);
          OnlyLevelTransitive(r, pruned, pruned.(board := Reset(pruned.board, l)), l);
        } else {
          assert Covered(pruned, l);
        }
    }
  }

  /** The candidate is never the authority that was just not kept. */
  lemma PickedIsNew(r: Room, l: Level, active: seq<Sid>, s: Sid)
    requires AuthorityOk(r, l) && s in active && !Keeps(r.board, l, active)
    ensures Authority(r.board, l) != Some(s)
  {}

  lemma ResetEstablishes(r: Room, l: Level)
    requires forall s :: !ActiveIn(r.people, s, l)
    ensures var r' := r.(board := Reset(r.board, l));
            LevelOk(r', l) && OnlyLevel(r, r', l)
  {
    hide Last;
  }

  /** selectAuthorityCandidate and the election, in a level without an authority. */
  lemma SelectEstablishes(r: Room, l: Level)
    requires Electable(r, l) && l !in r.board.authority
    ensures LevelOk(SelectAndElect(r, l), l) && OnlyLevel(r, SelectAndElect(r, l), l)
  {
    hide Last, NoDuplicates, Pen, Prune, ActiveList, ElectPicked, Agreed, PeopleOk;
    var active := ActiveList(r.people, l);
    var pruned := r.(board := Prune(r.board, l, active));
    PruneKeeps(r, l);
    ActiveListIs(r, l);
    match Pick(pruned.board, l, active)
    case Some(s) =>
      PickEstablishes(pruned, l, s);
      OnlyLevelTransitive(r, pruned, ElectPicked(pruned, l, s), l);
    case None =>
      assert Agreed(pruned, l);
      assert Covered(pruned, l);
  }

  // ----- From one level to all -----

  ghost predicate LevelsExcept(r: Room, l: Level) {
    forall k :: k != l ==> LevelOk(r, k)
  }

  /** The parts of the invariant a step must keep besides the pending moves. */
  ghost predicate Core(r: Room) {
    PeopleOk(r.people) && r.board.suppressed == {} && forall l :: LevelOk(r, l)
  }

  lemma OneLevelFixed(r: Room, r': Room, l: Level)
    requires LevelsExcept(r, l) && OnlyLevel(r, r', l) && LevelOk(r', l)
    ensures forall k :: LevelOk(r', k)
  {
    hide LevelOk, OnlyLevel, SameFor;
    forall k
      ensures LevelOk(r', k)
    {
      if k != l {
        OnlyLevelSameFor(r, r', l, k);
        SameForKeeps(r, r', k);
      }
    }
  }

  lemma Rebalanced(r: Room, l: Level)
    requires Electable(r, l) && LevelsExcept(r, l)
    ensures Core(Rebalance(r, l)) && OnlyLevel(r, Rebalance(r, l), l)
  {
    hide LevelOk, Rebalance;
    RebalanceEstablishes(r, l);
    OneLevelFixed(r, Rebalance(r, l), l);
  }

  lemma Selected(r: Room, l: Level)
    requires Electable(r, l) && LevelsExcept(r, l) && l !in r.board.authority
    ensures Core(SelectAndElect(r, l)) && OnlyLevel(r, SelectAndElect(r, l), l)
  {
    hide LevelOk, SelectAndElect;
    SelectEstablishes(r, l);
    OneLevelFixed(r, SelectAndElect(r, l), l);
  }

  lemma CoreElectable(r: Room, l: Level)
    requires Core(r)
    ensures Electable(r, l) && LevelsExcept(r, l)
  {
    assert LevelOk(r, l);
  }

  // ----- People -----

  lemma SetStatePeople(p: People, s: Sid, c: Conn)
    requires PeopleOk(p) && s in p.sessions && c != Connected
    requires s in p.info ==> c in {Active, Moving, Closed}
    ensures PeopleOk(SetState(p, s, c))
  {
    hide NoDuplicates;
  }

  /** A session that stops being active leaves its level right, unless it was to become MOVING as its authority. */
  lemma ClosedKeepsLevel(r: Room, s: Sid, l: Level)
    requires LevelOk(r, l) && s in r.people.sessions
    ensures LevelOk(r.(people := SetState(r.people, s, Closed)), l)
  {
    hide Last, Pen;
    var r' := r.(people := SetState(r.people, s, Closed));
    assert forall t :: ActiveIn(r'.people, t, l) ==> ActiveIn(r.people, t, l);
  }

  lemma CloseKeepsCore(r: Room, s: Sid)
    requires Core(r)
    ensures Core(Close(r, s))
  {
    hide LevelOk, PeopleOk;
    if s in r.people.sessions && r.people.sessions[s] != Closed {
      SetStatePeople(r.people, s, Closed);
      forall l
        ensures LevelOk(Close(r, s), l)
      {
        ClosedKeepsLevel(r, s, l);
      }
    }
  }

  lemma ConnectKeepsCore(r: Room)
    requires Core(r)
    ensures Core(Connect(r))
  {
    hide LevelOk, NoDuplicates;
    var r' := Connect(r);
    assert PeopleOk(r'.people);
    forall l
      ensures LevelOk(r', l)
    {
      assert SameFor(r, r', l);
      SameForKeeps(r, r', l);
    }
  }

  // ----- Arriving in a level -----

  /** Right but for s, who is active in l and has not been told of its authority. */
  ghost predicate Arriving(r: Room, l: Level, s: Sid) {
    && AuthorityOk(r, l) && PenaltiesOk(r, l)
    && (l in r.board.authority ==>
          forall t :: t != s && ActiveIn(r.people, t, l) ==> Told(r, t, r.people.info[r.board.authority[l]].id, l))
  }

  lemma LevelIsArriving(r: Room, l: Level, s: Sid)
    requires LevelOk(r, l)
    ensures Arriving(r, l, s)
  {}

  lemma SameForKeepsArriving(r: Room, r': Room, l: Level, s: Sid)
    requires Arriving(r, l, s) && SameFor(r, r', l)
    ensures Arriving(r', l, s)
  {
    hide Last, Pen;
  }

  /** Telling the arrival who holds the level. */
  lemma NotifyEstablishes(r: Room, l: Level, s: Sid)
    requires Arriving(r, l, s) && r.board.suppressed == {} && l in r.board.authority && ActiveIn(r.people, s, l)
    ensures var r' := NotifyOne(r, l, r.board.authority[l], s);
            LevelOk(r', l) && OnlyLevel(r, r', l)
  {
    hide Pen;
    var a := r.board.authority[l];
    var m := Elect(s, r.people.info[a].id, l);
    var r' := NotifyOne(r, l, a, s);
    forall t: Sid
      ensures Last(r'.log, t) == if t == s then Some(m) else Last(r.log, t)
    {
      LastAppend(r.log, [m], t);
      LastOne(m, t);
    }
    hide Last;
  }

  /** Entering a level, whoever holds it. */
  lemma EnterKeepsCore(r: Room, s: Sid, l: Level)
    requires PeopleOk(r.people) && r.board.suppressed == {} && LevelsExcept(r, l)
    requires Arriving(r, l, s) && ActiveIn(r.people, s, l)
    ensures Core(EnterLevel(r, s, l)) && OnlyLevel(r, EnterLevel(r, s, l), l)
  {
    hide LevelOk, PeopleOk, Rebalance, NotifyOne, LevelsExcept, Told, OnlyLevel;
    match Authority(r.board, l)
    case None =>
      Rebalanced(r, l);
    case Some(a) =>
      NotifyEstablishes(r, l, s);
      OneLevelFixed(r, NotifyOne(r, l, a, s), l);
      NotifyPeople(r, l, a, s);
  }

  lemma NotifyPeople(r: Room, l: Level, a: Sid, s: Sid)
    requires a in r.people.info
    ensures NotifyOne(r, l, a, s).people == r.people && NotifyOne(r, l, a, s).board == r.board
    ensures NotifyOne(r, l, a, s).pending == r.pending
  {}

  // ----- Leaving a level -----

  /** Right but for s, who no longer counts in l but may still be named on its board. */
  ghost predicate Leaving(r: Room, l: Level, s: Sid) {
    && (Authority(r.board, l) == Some(s) || (AuthorityOk(r, l) && Agreed(r, l)))
    && (forall t :: t in Pen(r.board, l) && t != s ==> InLevel(r.people, t, l) && !InState(r.people, t, Moving))
  }

  function Released(b: Board, s: Sid, l: Level): Board {
    var cleared := ClearPenalty(b, l, s);
    if Authority(cleared, l) == Some(s) then RevokeAuthority(cleared, l) else cleared
  }

  lemma ReleasedElectable(r: Room, s: Sid, l: Level)
    requires PeopleOk(r.people) && r.board.suppressed == {} && Leaving(r, l, s)
    ensures var r' := r.(board := Released(r.board, s, l));
            && Electable(r', l) && OnlyLevel(r, r', l)
            && Authority(r'.board, l) == (if Authority(r.board, l) == Some(s) then None else Authority(r.board, l))
  {
    hide Last, Pen, ClearPenalty, PeopleOk;
    PenaltyOps(r.board, l, s, []);
    RevokeKeepsPen(ClearPenalty(r.board, l, s), l);
  }

  lemma RevokeKeepsPen(b: Board, l: Level)
    ensures forall k :: Pen(RevokeAuthority(b, l), k) == Pen(b, k)
    ensures forall k :: Authority(RevokeAuthority(b, l), k) == if k == l then None else Authority(b, k)
  {}

  lemma ReleaseKeepsCore(r: Room, s: Sid, l: Level)
    requires PeopleOk(r.people) && r.board.suppressed == {} && LevelsExcept(r, l) && Leaving(r, l, s)
    ensures Core(Release(r, s, l)) && OnlyLevel(r, Release(r, s, l), l)
  {
    hide LevelOk, PeopleOk, Rebalance, Released, Leaving, Electable, LevelsExcept, OnlyLevel;
    var r' := r.(board := Released(r.board, s, l));
    ReleasedElectable(r, s, l);
    OnlyLevelKeepsOthers(r, r', l);
    Rebalanced(r', l);
    OnlyLevelTransitive(r, r', Rebalance(r', l), l);
    assert Release(r, s, l) == Rebalance(r', l) by { ReleaseIs(r, s, l); }
  }

  lemma ReleaseIs(r: Room, s: Sid, l: Level)
    ensures Release(r, s, l) == Rebalance(r.(board := Released(r.board, s, l)), l)
  {
    hide Rebalance, ClearPenalty;
  }

  lemma OnlyLevelKeepsOthers(r: Room, r': Room, l: Level)
    requires LevelsExcept(r, l) && OnlyLevel(r, r', l)
    ensures LevelsExcept(r', l)
  {
    hide LevelOk, OnlyLevel, SameFor;
    forall k | k != l
      ensures LevelOk(r', k)
    {
      OnlyLevelSameFor(r, r', l, k);
      SameForKeeps(r, r', k);
    }
  }

  // ----- Steps: joining and changing level -----

  lemma JoinedPeople(r: Room, s: Sid, id: int, uuid: string, l: Level)
    requires PeopleOk(r.people) && CanAdd(r, s, id, uuid) && s in r.people.sessions
    ensures var p := r.people.(sessions := r.people.sessions[s := Active], order := r.people.order + [s],
                               info := r.people.info[s := Info(id, uuid, l)]);
            PeopleOk(p) && ActiveIn(p, s, l) && forall k :: k != l ==> SameFor(r, r.(people := p), k)
  {
    hide Last, Pen;
  }

  lemma JoinArrives(r: Room, s: Sid, id: int, uuid: string, l: Level)
    requires PeopleOk(r.people) && LevelOk(r, l) && s !in r.people.info
    ensures var p := r.people.(sessions := r.people.sessions[s := Active], order := r.people.order + [s],
                               info := r.people.info[s := Info(id, uuid, l)]);
            Arriving(r.(people := p), l, s) && s !in Pen(r.board, l)
  {
    hide Last, Pen, NoDuplicates;
    var p := r.people.(sessions := r.people.sessions[s := Active], order := r.people.order + [s],
                       info := r.people.info[s := Info(id, uuid, l)]);
    assert forall t :: t != s && ActiveIn(p, t, l) ==> ActiveIn(r.people, t, l);
  }

  lemma SameForAllExcept(r: Room, r': Room, l: Level)
    requires LevelsExcept(r, l) && forall k :: k != l ==> SameFor(r, r', k)
    ensures LevelsExcept(r', l)
  {
    hide LevelOk, SameFor;
    forall k | k != l
      ensures LevelOk(r', k)
    {
      SameForKeeps(r, r', k);
    }
  }

  lemma JoinKeepsCore(r: Room, s: Sid, id: int, uuid: string, l: Level, sent: bool)
    requires Core(r)
    ensures Core(Join(r, s, id, uuid, l, sent))
  {
    hide LevelOk, PeopleOk, SetAuthority, NotifyOne, Arriving, SameFor, OnlyLevel, LevelsExcept;
    if MaySend(r, s, JoinGame) && CanAdd(r, s, id, uuid) && sent {
      CoreElectable(r, l);
      var p := r.people.(sessions := r.people.sessions[s := Active], order := r.people.order + [s],
                         info := r.people.info[s := Info(id, uuid, l)]);
      var joined := r.(people := p);
      JoinedPeople(r, s, id, uuid, l);
      assert LevelOk(r, l);
      JoinArrives(r, s, id, uuid, l);
      SameForAllExcept(r, joined, l);
      match Authority(r.board, l)
      case None =>
        assert PenaltiesOk(joined, l) by { ArrivingPenalties(joined, l, s); }
        ElectEstablishes(joined, l, s);
        OneLevelFixed(joined, SetAuthority(joined, l, s), l);
        SetAuthorityPeople(joined, l, s);
      case Some(a) =>
        assert a in p.info by { assert LevelOk(r, l); AuthorityStored(r, l); }
        NotifyEstablishes(joined, l, s);
        OneLevelFixed(joined, NotifyOne(joined, l, a, s), l);
        NotifyPeople(joined, l, a, s);
    }
  }

  lemma ArrivingPenalties(r: Room, l: Level, s: Sid)
    requires Arriving(r, l, s)
    ensures PenaltiesOk(r, l)
  {}

  lemma AuthorityStored(r: Room, l: Level)
    requires LevelOk(r, l) && l in r.board.authority
    ensures r.board.authority[l] in r.people.info
  {}

  lemma SetAuthorityPeople(r: Room, l: Level, s: Sid)
    requires CanElect(r, l, s)
    ensures SetAuthority(r, l, s).people == r.people && SetAuthority(r, l, s).pending == r.pending
    ensures SetAuthority(r, l, s).board.suppressed == r.board.suppressed
  {}

  function Relocate(p: People, s: Sid, l: Level): People
    requires s in p.info
  {
    p.(info := p.info[s := p.info[s].(level := l)])
  }

  lemma RelocatedPeople(r: Room, s: Sid, l: Level)
    requires PeopleOk(r.people) && s in r.people.info && ActiveIn(r.people, s, r.people.info[s].level)
    ensures var p := Relocate(r.people, s, l);
            && PeopleOk(p) && ActiveIn(p, s, l) && (r.people.info[s].level == l ==> p == r.people)
            && forall k :: k != l && k != r.people.info[s].level ==> SameFor(r, r.(people := p), k)
  {
    hide Last, Pen;
    var p := Relocate(r.people, s, l);
    if r.people.info[s].level == l {
      assert p.info == r.people.info;
    }
  }

  /** The two levels a relocation touches. */
  lemma RelocatedLevels(r: Room, s: Sid, l: Level)
    requires PeopleOk(r.people) && s in r.people.info && r.people.info[s].level != l
    requires LevelOk(r, r.people.info[s].level) && LevelOk(r, l)
    ensures var moved := r.(people := Relocate(r.people, s, l));
            Leaving(moved, r.people.info[s].level, s) && Arriving(moved, l, s)
  {
    hide Last, Pen, NoDuplicates;
    var left := r.people.info[s].level;
    var p := Relocate(r.people, s, l);
    assert forall t :: ActiveIn(p, t, left) ==> ActiveIn(r.people, t, left);
    assert forall t :: t != s && ActiveIn(p, t, l) ==> ActiveIn(r.people, t, l);
  }

  /** Once nothing on the old board names s, the old level is right again, without an election. */
  lemma LeftQuietly(r: Room, s: Sid, l: Level)
    requires PeopleOk(r.people) && s in r.people.info && r.people.info[s].level != l
    requires LevelOk(r, r.people.info[s].level)
    requires Authority(r.board, r.people.info[s].level) != Some(s)
    ensures LevelOk(r.(people := Relocate(r.people, s, l), board := ClearPenalty(r.board, r.people.info[s].level, s)),
                    r.people.info[s].level)
  {
    hide Last, Pen, ClearPenalty, NoDuplicates;
    var left := r.people.info[s].level;
    PenaltyOps(r.board, left, s, []);
    var p := Relocate(r.people, s, l);
    assert forall t :: ActiveIn(p, t, left) ==> ActiveIn(r.people, t, left) && t != s;
    assert forall t :: InLevel(p, t, left) <==> InLevel(r.people, t, left) && t != s;
  }

  /** After leaving, every level but the new one is right, and the new one only lacks telling s. */
  lemma LeaveKeeps(r: Room, s: Sid, l: Level)
    requires Core(r) && s in r.people.info && ActiveIn(r.people, s, r.people.info[s].level)
    requires r.people.info[s].level != l
    ensures var r' := LeaveLevel(r, s, l);
            && r'.people == Relocate(r.people, s, l) && r'.pending == r.pending && r'.board.suppressed == {}
            && LevelsExcept(r', l) && Arriving(r', l, s)
  {
    hide LevelOk, Rebalance, Arriving, Leaving, SameFor, OnlyLevel, PeopleOk, Electable, ClearPenalty, Pen, Last;
    var left := r.people.info[s].level;
    assert LevelOk(r, left) && LevelOk(r, l);
    var moved := r.(people := Relocate(r.people, s, l));
    RelocatedPeople(r, s, l);
    RelocatedLevels(r, s, l);
    forall k | k != l && k != left
      ensures LevelOk(moved, k)
    {
      SameForKeeps(r, moved, k);
    }
    PenaltyOps(r.board, left, s, []);
    if Authority(r.board, left) == Some(s) {
      var freed := moved.(board := Released(r.board, s, left));
      ReleasedElectable(moved, s, left);
      OnlyLevelSameFor(moved, freed, left, l);
      SameForKeepsArriving(moved, freed, l, s);
      RebalanceEstablishes(freed, left);
      OnlyLevelSameFor(freed, Rebalance(freed, left), left, l);
      SameForKeepsArriving(freed, Rebalance(freed, left), l, s);
      OnlyLevelTransitive(moved, freed, Rebalance(freed, left), left);
      OthersKept(moved, Rebalance(freed, left), left, l);
      OnlyLevelPeople(moved, Rebalance(freed, left), left);
    } else {
      var quiet := moved.(board := ClearPenalty(r.board, left, s));
      LeftQuietly(r, s, l);
      ClearedOnlyLevel(moved, s, left);
      OnlyLevelSameFor(moved, quiet, left, l);
      SameForKeepsArriving(moved, quiet, l, s);
      OthersKept(moved, quiet, left, l);
    }
  }

  lemma ClearedOnlyLevel(r: Room, s: Sid, l: Level)
    ensures OnlyLevel(r, r.(board := ClearPenalty(r.board, l, s)), l)
  {
    hide Last, Pen, ClearPenalty;
    PenaltyOps(r.board, l, s, []);
  }

  lemma OnlyLevelPeople(r: Room, r': Room, l: Level)
    requires OnlyLevel(r, r', l)
    ensures r'.people == r.people && r'.pending == r.pending && r'.board.suppressed == r.board.suppressed
  {}

  /** A fix of left leaves the levels other than left and l as they were. */
  lemma OthersKept(r: Room, r': Room, left: Level, l: Level)
    requires forall k :: k != l && k != left ==> LevelOk(r, k)
    requires OnlyLevel(r, r', left) && LevelOk(r', left)
    ensures LevelsExcept(r', l)
  {
    hide LevelOk, OnlyLevel, SameFor;
    forall k | k != l
      ensures LevelOk(r', k)
    {
      if k != left {
        OnlyLevelSameFor(r, r', left, k);
        SameForKeeps(r, r', k);
      }
    }
  }

  lemma ChangeLevelKeepsCore(r: Room, s: Sid, l: Level)
    requires Core(r)
    ensures Core(ChangeLevel(r, s, l))
  {
    hide LevelOk, LeaveLevel, EnterLevel, Arriving, PeopleOk, LevelsExcept;
    if MaySend(r, s, LevelUpdate) && s in r.people.info {
      var left := r.people.info[s].level;
      RelocatedPeople(r, s, l);
      if left == l {
        assert LeaveLevel(r, s, l) == r by { StayingIsNothing(r, s, l); }
        CoreElectable(r, l);
        assert LevelOk(r, l);
        LevelIsArriving(r, l, s);
        EnterKeepsCore(r, s, l);
      } else {
        LeaveKeeps(r, s, l);
        EnterKeepsCore(LeaveLevel(r, s, l), s, l);
      }
    }
  }

  lemma StayingIsNothing(r: Room, s: Sid, l: Level)
    requires s in r.people.info && r.people.info[s].level == l
    ensures LeaveLevel(r, s, l) == r
  {
    assert r.people.info[s := r.people.info[s].(level := l)] == r.people.info;
  }
}
