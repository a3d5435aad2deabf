/** The invariant over every step and every run. */
module RoomRuns {
  import opened Options
  import opened Connections
  import opened RoomSteps
  import opened RoomInvariants

  // ----- Revocations -----

  lemma {:induction false} LastRevokes(targets: seq<Sid>, authority: int, s: Sid)
    ensures Last(Revokes(targets, authority), s) == if s in targets then Some(Revoke(s, authority)) else None
    decreases |targets|
  {
    if targets != [] {
      var n := |targets| - 1;
      LastRevokes(targets[..n], authority, s);
      assert Revokes(targets, authority)[..n] == Revokes(targets[..n], authority);
      assert targets == targets[..n] + [targets[n]];
    }
  }

  lemma HeartbeatKeepsCore(r: Room, s: Sid, l: Level)
    requires Core(r)
    ensures Core(Heartbeat(r, s, l)) && Heartbeat(r, s, l).people == r.people && Heartbeat(r, s, l).pending == r.pending
  {
    hide LevelOk, SelectAndElect, PeopleOk, OnlyLevel, LevelsExcept;
    if MaySend(r, s, GameMsg) && InLevel(r.people, s, l) && l !in r.board.authority {
      CoreElectable(r, l);
      Selected(r, l);
      OnlyLevelPeople(r, SelectAndElect(r, l), l);
    }
  }

  /** After penalty, revokes and revocation the level is ready for its election. */
  lemma PenalizedElectable(r: Room, s: Sid, l: Level)
    requires PeopleOk(r.people) && r.board.suppressed == {} && LevelOk(r, l) && ActiveIn(r.people, s, l)
    ensures var r' := r.(board := RevokeAuthority(Penalize(r.board, l, s), l),
                         log := r.log + Revokes(ActiveList(r.people, l), r.people.info[s].id));
            Electable(r', l) && l !in r'.board.authority && OnlyLevel(r, r', l)
  {
    hide Pen, Penalize, ActiveList, PeopleOk;
    PenaltyOps(r.board, l, s, []);
    RevokeKeepsPen(Penalize(r.board, l, s), l);
    ActiveListIs(r, l);
    var targets := ActiveList(r.people, l);
    forall t: Sid | t !in targets
      ensures Last(r.log + Revokes(targets, r.people.info[s].id), t) == Last(r.log, t)
    {
      LastAppend(r.log, Revokes(targets, r.people.info[s].id), t);
      LastRevokes(targets, r.people.info[s].id, t);
    }
    hide Last, Revokes;
  }

  lemma ClientRevokeKeepsCore(r: Room, s: Sid)
    requires Core(r)
    ensures Core(ClientRevoke(r, s)) && ClientRevoke(r, s).people == r.people && ClientRevoke(r, s).pending == r.pending
  {
    hide LevelOk, SelectAndElect, PeopleOk, OnlyLevel, LevelsExcept, Electable, Penalize, Revokes, ActiveList;
    if MaySend(r, s, GameMsg) && s in r.people.info {
      var l := r.people.info[s].level;
      if Authority(r.board, l) == Some(s) {
        var r' := r.(board := RevokeAuthority(Penalize(r.board, l, s), l),
                     log := r.log + Revokes(ActiveList(r.people, l), r.people.info[s].id));
        CoreElectable(r, l);
        assert LevelOk(r, l);
        PenalizedElectable(r, s, l);
        OnlyLevelKeepsOthers(r, r', l);
        Selected(r', l);
        OnlyLevelPeople(r, r', l);
        OnlyLevelPeople(r', SelectAndElect(r', l), l);
      }
    }
  }

  // ----- The gated election -----

  function Gate(r: Room, l: Level): Room {
    r.(board := r.board.(suppressed := r.board.suppressed + {l}))
  }

  /** Behind the gate an election does the same to the board and sends nothing. */
  lemma GateOnlySilences(r: Room, l: Level)
    ensures var g, o := Rebalance(Gate(r, l), l), Rebalance(r, l);
            && g.people == r.people && g.pending == r.pending && g.log == r.log
            && g.board == o.board.(suppressed := g.board.suppressed)
            && g.board.suppressed == r.board.suppressed + {l}
  {
    hide Elects, ActiveList;
    var active := ActiveList(r.people, l);
    PruneGated(r.board, r.board.suppressed + {l}, l, active);
  }

  lemma PruneGated(b: Board, suppressed: set<Level>, l: Level, active: seq<Sid>)
    ensures Prune(b.(suppressed := suppressed), l, active) == Prune(b, l, active).(suppressed := suppressed)
  {}

  /** Whom each target hears of: the revoke, then the successor. */
  lemma {:induction false} LastRevokesAndElects(targets: seq<Sid>, authority: int, next: int, l: Level, s: Sid)
    ensures s !in targets ==> Last(RevokesAndElects(targets, authority, Some(next), l), s) == None
    ensures s in targets && NoDuplicates(targets) ==>
              Last(RevokesAndElects(targets, authority, Some(next), l), s) == Some(Elect(s, next, l))
    decreases |targets|
  {
    if targets != [] {
      var first := [Revoke(targets[0], authority), Elect(targets[0], next, l)];
      var rest := RevokesAndElects(targets[1..], authority, Some(next), l);
      assert RevokesAndElects(targets, authority, Some(next), l) == first + rest;
      LastRevokesAndElects(targets[1..], authority, next, l, s);
      LastAppend(first, rest, s);
      LastPair(targets[0], authority, next, l, s);
      NoDuplicatesTail(targets);
    }
  }

  lemma LastPair(t: Sid, authority: int, next: int, l: Level, s: Sid)
    ensures Last([Revoke(t, authority), Elect(t, next, l)], s) == if s == t then Some(Elect(t, next, l)) else None
  {
    LastAppend([Revoke(t, authority)], [Elect(t, next, l)], s);
    LastOne(Revoke(t, authority), s);
    LastOne(Elect(t, next, l), s);
    assert [Revoke(t, authority), Elect(t, next, l)] == [Revoke(t, authority)] + [Elect(t, next, l)];
  }

  lemma NoDuplicatesTail(s: seq<Sid>)
    requires s != []
    ensures NoDuplicates(s) ==> NoDuplicates(s[1..]) && s[0] !in s[1..]
  {}

  /** Without a successor only active players of the level are told anything. */
  lemma {:induction false} LastRevokesOnly(targets: seq<Sid>, authority: int, l: Level, s: Sid)
    ensures s !in targets ==> Last(RevokesAndElects(targets, authority, None, l), s) == None
    decreases |targets|
  {
    if targets != [] {
      var rest := RevokesAndElects(targets[1..], authority, None, l);
      assert RevokesAndElects(targets, authority, None, l) == [Revoke(targets[0], authority)] + rest;
      LastRevokesOnly(targets[1..], authority, l, s);
      LastAppend([Revoke(targets[0], authority)], rest, s);
      LastOne(Revoke(targets[0], authority), s);
    }
  }

  lemma {:induction false} ActivesDistinct(p: People, order: seq<Sid>, l: Level)
    requires NoDuplicates(order)
    ensures NoDuplicates(Actives(p, order, l))
  {
    if order != [] {
      ActivesDistinct(p, order[1..], l);
      ActivesMembers(p, order[1..], l);
      NoDuplicatesTail(order);
      var rest := Actives(p, order[1..], l);
      if ActiveIn(p, order[0], l) {
        assert order[0] !in rest;
      }
    }
  }

  /** The history after a server revoke, from each session's point of view. */
  lemma RevokeTells(r: Room, l: Level, authority: int, next: Option<int>, s: Sid)
    requires PeopleOk(r.people)
    ensures var log := r.log + RevokesAndElects(ActiveList(r.people, l), authority, next, l);
            && (!ActiveIn(r.people, s, l) ==> Last(log, s) == Last(r.log, s))
            && (ActiveIn(r.people, s, l) && next.Some? ==> Last(log, s) == Some(Elect(s, next.value, l)))
  {
    hide Last, RevokesAndElects, NoDuplicates, Actives;
    var targets := ActiveList(r.people, l);
    ActiveListIs(r, l);
    ActivesDistinct(r.people, r.people.order, l);
    LastAppend(r.log, RevokesAndElects(targets, authority, next, l), s);
    if next.Some? {
      LastRevokesAndElects(targets, authority, next.value, l, s);
    } else {
      LastRevokesOnly(targets, authority, l, s);
    }
  }

  lemma RevokedElectable(r: Room, l: Level)
    requires PeopleOk(r.people) && r.board.suppressed == {} && LevelOk(r, l)
    ensures var r' := r.(board := RevokeAuthority(r.board, l));
            Electable(r', l) && OnlyLevel(r, r', l)
  {
    hide Pen, Last, PeopleOk;
    RevokeKeepsPen(r.board, l);
  }

  /** A board made right by an ungated election, with the messages of the server revoke instead of its own. */
  lemma AnnouncedKeepsLevel(r: Room, o: Room, l: Level, authority: int)
    requires PeopleOk(r.people) && o.people == r.people && LevelOk(o, l)
    ensures var next := Authority(o.board, l);
            var nextId := if next.Some? && next.value in r.people.info then Some(r.people.info[next.value].id)
                else None;
            LevelOk(o.(log := r.log + RevokesAndElects(ActiveList(r.people, l), authority, nextId, l)), l)
  {
    hide Pen, Last, RevokesAndElects, ActiveList, PeopleOk;
    var next := Authority(o.board, l);
    var nextId := if next.Some? && next.value in r.people.info then Some(r.people.info[next.value].id) else None;
    forall s
      ensures var log := r.log + RevokesAndElects(ActiveList(r.people, l), authority, nextId, l);
              ActiveIn(r.people, s, l) && nextId.Some? ==> Last(log, s) == Some(Elect(s, nextId.value, l))
    {
      RevokeTells(r, l, authority, nextId, s);
    }
  }

  lemma ServerRevokeIs(r: Room, l: Level)
    requires r.board.suppressed == {} && l in r.board.authority && r.board.authority[l] in r.people.info
    ensures var o := Rebalance(r.(board := RevokeAuthority(r.board, l)), l);
            var next := Authority(o.board, l);
            var nextId := if next.Some? && next.value in r.people.info then Some(r.people.info[next.value].id)
                else None;
            ServerRevoke(r, l) ==
            r.(board := o.board.(suppressed := {}),
               log := r.log + RevokesAndElects(ActiveList(r.people, l), r.people.info[r.board.authority[l]].id,
                   nextId, l))
  {
    hide Rebalance, RevokesAndElects, ActiveList;
    var revoked := r.(board := RevokeAuthority(r.board, l));
    GateOnlySilences(revoked, l);
    assert Gate(revoked, l).board == RevokeAuthority(r.board, l).(suppressed := r.board.suppressed + {l});
    assert ({} + {l}) - {l} == {};
  }

  lemma ServerRevokeKeepsCore(r: Room, l: Level)
    requires Core(r)
    ensures Core(ServerRevoke(r, l)) && ServerRevoke(r, l).people == r.people && ServerRevoke(r, l).pending == r.pending
  {
    hide LevelOk, Rebalance, PeopleOk, OnlyLevel, SameFor, RevokesAndElects, ActiveList, Electable, ServerRevoke,
         LevelsExcept;
    assert LevelOk(r, l);
    CoreElectable(r, l);
    if l in r.board.authority {
      AuthorityStored(r, l);
      var revoked := r.(board := RevokeAuthority(r.board, l));
      RevokedElectable(r, l);
      OnlyLevelKeepsOthers(r, revoked, l);
      Rebalanced(revoked, l);
      var o := Rebalance(revoked, l);
      OnlyLevelPeople(revoked, o, l);
      assert LevelOk(o, l);
      AnnouncedKeepsLevel(r, o, l, r.people.info[r.board.authority[l]].id);
      ServerRevokeIs(r, l);
      var done := ServerRevoke(r, l);
      assert done.board == o.board;
      OnlyLevelTransitive(r, revoked, o, l);
      AnnouncedOnlyLevel(r, o, done, l);
      OneLevelFixed(r, done, l);
    } else {
      assert ServerRevoke(r, l) == r by { NothingToRevoke(r, l); }
    }
  }

  lemma NothingToRevoke(r: Room, l: Level)
    requires l !in r.board.authority
    ensures ServerRevoke(r, l) == r
  {}

  lemma AnnouncedOnlyLevel(r: Room, o: Room, done: Room, l: Level)
    requires PeopleOk(r.people) && OnlyLevel(r, o, l)
    requires done.people == r.people && done.pending == r.pending && done.board == o.board
    requires exists authority, next ::
               done.log == r.log + RevokesAndElects(ActiveList(r.people, l), authority, next, l)
    ensures OnlyLevel(r, done, l)
  {
    hide Last, Pen, RevokesAndElects, ActiveList, PeopleOk;
    var authority, next :| done.log == r.log + RevokesAndElects(ActiveList(r.people, l), authority, next, l);
    forall s | !ActiveIn(r.people, s, l)
      ensures Last(done.log, s) == Last(r.log, s)
    {
      RevokeTells(r, l, authority, next, s);
    }
  }

  // ----- What a server revoke sends -----

  /** The messages of a history addressed to s. */
  function For(log: seq<Msg>, s: Sid): seq<Msg> {
    if log == [] then []
    else if log[0].to == s then [log[0]] + For(log[1..], s)
    else For(log[1..], s)
  }

  lemma {:induction false} ForAppend(a: seq<Msg>, b: seq<Msg>, s: Sid)
    ensures For(a + b, s) == For(a, s) + For(b, s)
  {
    if a == [] {
      assert a + b == b;
    } else {
      assert (a + b)[1..] == a[1..] + b;
      ForAppend(a[1..], b, s);
    }
  }

  function Pair(t: Sid, authority: int, next: Option<int>, l: Level): seq<Msg> {
    [Revoke(t, authority)] + if next.Some? then [Elect(t, next.value, l)] else []
  }

  lemma ForPair(t: Sid, authority: int, next: Option<int>, l: Level, s: Sid)
    ensures For(Pair(t, authority, next, l), s) == if s == t then Pair(t, authority, next, l) else []
  {
    ForOne(Revoke(t, authority), s);
    if next.Some? {
      ForOne(Elect(t, next.value, l), s);
      ForAppend([Revoke(t, authority)], [Elect(t, next.value, l)], s);
    } else {
      assert Pair(t, authority, next, l) == [Revoke(t, authority)];
    }
  }

  lemma ForOne(m: Msg, s: Sid)
    ensures For([m], s) == if m.to == s then [m] else []
  {
    assert [m][1..] == [];
  }

  lemma {:induction false} ForRevokesAndElects(targets: seq<Sid>, authority: int, next: Option<int>, l: Level, s: Sid)
    requires NoDuplicates(targets)
    ensures For(RevokesAndElects(targets, authority, next, l), s) ==
            if s in targets then Pair(s, authority, next, l) else []
    decreases |targets|
  {
    hide NoDuplicates, For;
    if targets == [] {
      NothingFor(s);
    } else {
      var rest := RevokesAndElects(targets[1..], authority, next, l);
      NoDuplicatesTail(targets);
      ForRevokesAndElects(targets[1..], authority, next, l, s);
      ForPair(targets[0], authority, next, l, s);
      assert RevokesAndElects(targets, authority, next, l) == Pair(targets[0], authority, next, l) + rest;
      ForAppend(Pair(targets[0], authority, next, l), rest, s);
    }
  }

  lemma NothingFor(s: Sid)
    ensures For([], s) == []
  {}

  lemma {:induction false} ForBroadcasts(targets: seq<Sid>, authority: int, l: Level, s: Sid)
    requires NoDuplicates(targets)
    ensures For(Revokes(targets, authority), s) == if s in targets then [Revoke(s, authority)] else []
    ensures For(Elects(targets, authority, l), s) == if s in targets then [Elect(s, authority, l)] else []
    decreases |targets|
  {
    hide NoDuplicates;
    if targets != [] {
      NoDuplicatesTail(targets);
      ForBroadcasts(targets[1..], authority, l, s);
      assert Revokes(targets, authority)[1..] == Revokes(targets[1..], authority);
      assert Elects(targets, authority, l)[1..] == Elects(targets[1..], authority, l);
    }
  }

  /** The player id of a level's stored authority. */
  function HolderId(r: Room, l: Level): Option<int> {
    if l in r.board.authority && r.board.authority[l] in r.people.info
    then Some(r.people.info[r.board.authority[l]].id) else None
  }

  /**
   * A server revoke of a held level sends each active player there exactly one revoke of the old
   * authority, then exactly one elect of the successor if there is one; nobody else hears anything.
   */
  lemma ServerRevokeSends(r: Room, l: Level, s: Sid)
    requires Core(r) && l in r.board.authority
    ensures r.board.authority[l] in r.people.info
    ensures var r' := ServerRevoke(r, l);
            var authority := r.people.info[r.board.authority[l]].id;
            && r.log <= r'.log
            && For(r'.log[|r.log|..], s) ==
               if ActiveIn(r.people, s, l) then Pair(s, authority, HolderId(r', l), l) else []
  {
    hide LevelOk, Rebalance, RevokesAndElects, ActiveList, ServerRevoke, NoDuplicates;
    assert LevelOk(r, l);
    AuthorityStored(r, l);
    ServerRevokeIs(r, l);
    ActiveListIs(r, l);
    ActiveListDistinct(r.people, l);
    var o := Rebalance(r.(board := RevokeAuthority(r.board, l)), l);
    var next := Authority(o.board, l);
    var nextId := if next.Some? && next.value in r.people.info then Some(r.people.info[next.value].id) else None;
    ForRevokesAndElects(ActiveList(r.people, l), r.people.info[r.board.authority[l]].id, nextId, l, s);
  }

  lemma ActiveListDistinct(p: People, l: Level)
    requires PeopleOk(p)
    ensures NoDuplicates(ActiveList(p, l))
  {
    hide NoDuplicates, Actives;
    ActivesDistinct(p, p.order, l);
  }

  // ----- Who is elected -----

  /** s is the earliest of the active players that carries no penalty. */
  predicate EarliestClear(active: seq<Sid>, pen: set<Sid>, s: Sid) {
    s !in pen && exists i :: 0 <= i < |active| && active[i] == s && forall j :: 0 <= j < i ==> active[j] in pen
  }

  lemma {:induction false} FirstIsEarliest(active: seq<Sid>, pen: set<Sid>)
    ensures FirstUnpenalized(active, pen).Some? ==> EarliestClear(active, pen, FirstUnpenalized(active, pen).value)
  {
    if active != [] && active[0] in pen {
      FirstIsEarliest(active[1..], pen);
      var c := FirstUnpenalized(active[1..], pen);
      if c.Some? {
        var i :| 0 <= i < |active[1..]| && active[1..][i] == c.value &&
                 forall j :: 0 <= j < i ==> active[1..][j] in pen;
        assert active[i + 1] == c.value;
        forall j | 0 <= j < i + 1 ensures active[j] in pen {
          assert j > 0 ==> active[j] == active[1..][j - 1];
        }
      }
    }
  }

  /** Penalties of players that are not active make no difference to who comes first. */
  lemma {:induction false} PruningKeepsFirst(active: seq<Sid>, pen: set<Sid>, pruned: set<Sid>)
    requires forall s :: s in active ==> (s in pen <==> s in pruned)
    ensures FirstUnpenalized(active, pruned) == FirstUnpenalized(active, pen)
  {
    if active != [] {
      PruningKeepsFirst(active[1..], pen, pruned);
    }
  }

  /** Who holds l after an election among the active players, given the penalties before it. */
  ghost predicate ElectedFrom(r': Room, l: Level, active: seq<Sid>, pen: set<Sid>) {
    if exists s :: s in active && s !in pen then
      && l in r'.board.authority && EarliestClear(active, pen, r'.board.authority[l])
      && Pen(r'.board, l) == Among(pen, active)
    else if |active| == 1 then
      Authority(r'.board, l) == Some(active[0]) && Pen(r'.board, l) == {}
    else
      Pen(r'.board, l) == Among(pen, active)
  }

  lemma ElectPickedBoard(r: Room, l: Level, s: Sid)
    requires CanElect(r, l, s)
    ensures Authority(ElectPicked(r, l, s).board, l) == Some(s)
    ensures Pen(ElectPicked(r, l, s).board, l) == Pen(r.board, l) - {s}
  {
    hide Elects, ActiveList, ClearPenalty;
    PenaltyOps(r.board, l, s, []);
    var b := if s in Pen(r.board, l) then ClearPenalty(r.board, l, s) else r.board;
    assert Pen(b, l) == Pen(r.board, l) - {s};
    assert Pen(b.(authority := b.authority[l := s]), l) == Pen(b, l);
  }

  lemma PickedFrom(r: Room, l: Level, active: seq<Sid>)
    requires active == ActiveList(r.people, l)
    ensures var pruned := r.(board := Prune(r.board, l, active));
            var c := Pick(pruned.board, l, active);
            && Pen(pruned.board, l) == Among(Pen(r.board, l), active)
            && (c.Some? ==>
                  && CanElect(pruned, l, c.value)
                  && ElectedFrom(ElectPicked(pruned, l, c.value), l, active, Pen(r.board, l)))
            && (c.None? ==> ElectedFrom(pruned, l, active, Pen(r.board, l)))
  {
    hide Prune, ActiveList, ElectPicked, EarliestClear, Pen;
    var pen := Pen(r.board, l);
    var pruned := r.(board := Prune(r.board, l, active));
    PenaltyOps(r.board, l, 0, active);
    assert Pen(pruned.board, l) == Among(pen, active);
    PruningKeepsFirst(active, pen, Among(pen, active));
    FirstIsEarliest(active, pen);
    var c := Pick(pruned.board, l, active);
    if c.Some? {
      PickedIsActive(r, l);
      ElectPickedBoard(pruned, l, c.value);
      if FirstUnpenalized(active, pen).None? {
        assert Among(pen, active) == {active[0]};
      }
    }
  }

  /** An election elects the earliest active player without a penalty, or forgives the only one. */
  lemma SelectElectsEarliest(r: Room, l: Level)
    ensures ElectedFrom(SelectAndElect(r, l), l, ActiveList(r.people, l), Pen(r.board, l))
    ensures SelectAndElect(r, l).board.authority.Keys <= r.board.authority.Keys + {l}
    ensures Pick(Prune(r.board, l, ActiveList(r.people, l)), l, ActiveList(r.people, l)).None? ==>
              Authority(SelectAndElect(r, l).board, l) == Authority(r.board, l)
  {
    hide Prune, ActiveList, ElectedFrom, Pick, Elects, ClearPenalty;
    PickedFrom(r, l, ActiveList(r.people, l));
    PenaltyOps(r.board, l, 0, ActiveList(r.people, l));
    var pruned := r.(board := Prune(r.board, l, ActiveList(r.people, l)));
    forall s ensures ClearPenalty(pruned.board, l, s).authority == r.board.authority {
      PenaltyOps(pruned.board, l, s, []);
    }
  }

  /**
   * Rebalancing keeps a present unpenalized authority and says nothing; otherwise it elects the
   * earliest active player without a penalty, or forgives the only one.
   */
  lemma RebalanceElectsEarliest(r: Room, l: Level)
    ensures var active := ActiveList(r.people, l);
            if Keeps(r.board, l, active) then
              Authority(Rebalance(r, l).board, l) == Authority(r.board, l) && Rebalance(r, l).log == r.log
            else if active == [] then Authority(Rebalance(r, l).board, l) == None && Pen(Rebalance(r, l).board, l) == {}
            else ElectedFrom(Rebalance(r, l), l, active, Pen(r.board, l))
  {
    hide Prune, ActiveList, ElectedFrom, Pick, ElectPicked, Pen;
    var active := ActiveList(r.people, l);
    PickedFrom(r, l, active);
    PenaltyOps(r.board, l, 0, active);
    assert Keeps(Prune(r.board, l, active), l, active) <==> Keeps(r.board, l, active);
    if active == [] {
      NobodyToPick(Prune(r.board, l, active), l);
      ResetBoard(Prune(r.board, l, active), l);
    }
  }

  lemma NobodyToPick(b: Board, l: Level)
    ensures Pick(b, l, []) == None
  {}

  lemma ResetBoard(b: Board, l: Level)
    ensures Authority(Reset(b, l), l) == None && Pen(Reset(b, l), l) == {}
  {}

  /**
   * A client's revoke costs the authority its place: the earliest other player without a penalty
   * takes over and the revoker stays penalized; alone in the level it keeps the place; among
   * penalized players only, the level is left without an authority.
   */
  lemma ClientRevokeReplaces(r: Room, s: Sid, l: Level)
    requires Core(r) && MaySend(r, s, GameMsg) && InLevel(r.people, s, l) && Authority(r.board, l) == Some(s)
    ensures var r' := ClientRevoke(r, s);
            var active := ActiveList(r.people, l);
            && s in active
            && if exists t :: t in active && t != s && t !in Pen(r.board, l) then
                 && l in r'.board.authority && r'.board.authority[l] != s && s in Pen(r'.board, l)
                 && EarliestClear(active, Pen(r.board, l) + {s}, r'.board.authority[l])
               else if |active| == 1 then Authority(r'.board, l) == Some(s) && Pen(r'.board, l) == {}
               else Authority(r'.board, l) == None && s in Pen(r'.board, l)
  {
    hide SelectAndElect, Penalize, ActiveList, Pen, LevelOk, PeopleOk, Revokes, Prune, Pick;
    var active := ActiveList(r.people, l);
    ActiveListIs(r, l);
    var b := RevokeAuthority(Penalize(r.board, l, s), l);
    var r0 := r.(board := b, log := r.log + Revokes(active, r.people.info[s].id));
    PenaltyOps(r.board, l, s, []);
    RevokeKeepsPen(Penalize(r.board, l, s), l);
    assert Pen(b, l) == Pen(r.board, l) + {s};
    SelectElectsEarliest(r0, l);
    assert ClientRevoke(r, s) == SelectAndElect(r0, l);
    if (forall t :: t in active && t != s ==> t in Pen(r.board, l)) && |active| != 1 {
      NoneClear(Prune(b, l, active), l, active, Pen(b, l)) by { PenaltyOps(b, l, 0, active); }
    }
  }

  lemma SelectLog(r: Room, l: Level)
    requires l !in r.board.authority && l !in r.board.suppressed
    ensures var r' := SelectAndElect(r, l);
            r'.people == r.people &&
            r'.log == r.log + (if l in r'.board.authority && r'.board.authority[l] in r.people.info
                               then Elects(ActiveList(r.people, l), r.people.info[r'.board.authority[l]].id, l) else [])
  {
    hide ActiveList, Elects, Prune, Pick, ClearPenalty, Pen;
    var pruned := r.(board := Prune(r.board, l, ActiveList(r.people, l)));
    PenaltyOps(r.board, l, 0, ActiveList(r.people, l));
    match Pick(pruned.board, l, ActiveList(r.people, l))
    case Some(s) =>
      PickedIsActive(r, l);
      PenaltyOps(pruned.board, l, s, []);
    case None =>
  }

  /**
   * A client's revoke sends each active player of its level exactly one revoke of the old authority,
   * then exactly one elect of whoever holds the level next, if anybody; nobody else hears anything.
   */
  lemma ClientRevokeSends(r: Room, s: Sid, l: Level, t: Sid)
    requires Core(r) && MaySend(r, s, GameMsg) && InLevel(r.people, s, l) && Authority(r.board, l) == Some(s)
    ensures var r' := ClientRevoke(r, s);
            && r.log <= r'.log
            && For(r'.log[|r.log|..], t) ==
               if ActiveIn(r.people, t, l) then Pair(t, r.people.info[s].id, HolderId(r', l), l) else []
  {
    hide SelectAndElect, Penalize, ActiveList, LevelOk, PeopleOk, Revokes, Elects, For, NoDuplicates, Pen;
    var active := ActiveList(r.people, l);
    var id := r.people.info[s].id;
    ActiveListIs(r, l);
    ActiveListDistinct(r.people, l);
    PenaltyOps(r.board, l, s, []);
    var r0 := r.(board := RevokeAuthority(Penalize(r.board, l, s), l), log := r.log + Revokes(active, id));
    SelectLog(r0, l);
    var r' := ClientRevoke(r, s);
    assert r' == SelectAndElect(r0, l);
    var elects := if HolderId(r', l).Some? then Elects(active, HolderId(r', l).value, l) else [];
    assert r'.log == r.log + (Revokes(active, id) + elects);
    ForBroadcasts(active, id, l, t);
    ForAppend(Revokes(active, id), elects, t);
    if HolderId(r', l).Some? {
      ForBroadcasts(active, HolderId(r', l).value, l, t);
    } else {
      NothingFor(t);
    }
  }

  lemma NoneClear(b: Board, l: Level, active: seq<Sid>, pen: set<Sid>)
    requires |active| != 1 && forall t :: t in active ==> t in Pen(b, l)
    ensures Pick(b, l, active) == None
  {}

  // ----- Moving and coming back -----

  lemma SameForAll(r: Room, r': Room)
    requires Core(r) && PeopleOk(r'.people) && r'.board.suppressed == {} && forall k :: SameFor(r, r', k)
    ensures Core(r')
  {
    hide LevelOk, SameFor, PeopleOk;
    forall k
      ensures LevelOk(r', k)
    {
      SameForKeeps(r, r', k);
    }
  }

  /** Messages that concern no authority, and pending moves, change no level. */
  lemma UnrelatedKeepsCore(r: Room, r': Room)
    requires Core(r) && r'.people == r.people && r'.board == r.board
    requires forall s :: Last(r'.log, s) == Last(r.log, s)
    ensures Core(r')
  {
    hide LevelOk, PeopleOk, Last, Pen;
    SameForAll(r, r');
  }

  lemma {:induction false} LastUnrelated(log: seq<Msg>, more: seq<Msg>)
    requires forall m :: m in more ==> m.MoveGame? || m.CancelMove?
    ensures forall s :: Last(log + more, s) == Last(log, s)
    decreases |more|
  {
    if more == [] {
      assert log + more == log;
    } else {
      var n := |more| - 1;
      LastUnrelated(log, more[..n]);
      assert more[n] in more;
      assert (log + more)[..|log + more| - 1] == log + more[..n];
      assert (log + more)[|log + more| - 1] == more[n];
    }
  }

  lemma MovingLeaves(r: Room, s: Sid)
    requires PeopleOk(r.people) && s in r.people.info && LevelOk(r, r.people.info[s].level)
    requires InState(r.people, s, Active)
    ensures var r' := r.(people := SetState(r.people, s, Moving));
            && PeopleOk(r'.people) && Leaving(r', r.people.info[s].level, s)
            && forall k :: k != r.people.info[s].level ==> SameFor(r, r', k)
  {
    hide Last, Pen;
    SetStatePeople(r.people, s, Moving);
    var p := SetState(r.people, s, Moving);
    var l := r.people.info[s].level;
    assert forall t :: ActiveIn(p, t, l) ==> ActiveIn(r.people, t, l);
  }

  lemma StartMovingKeepsCore(r: Room, s: Sid)
    requires Core(r) && s in r.people.info && InState(r.people, s, Active)
    ensures var r' := StartMoving(r, s);
            Core(r') && r'.people == SetState(r.people, s, Moving) && r'.pending == r.pending
  {
    hide LevelOk, PeopleOk, Release, Leaving, SameFor, OnlyLevel, LevelsExcept;
    var l := r.people.info[s].level;
    var moving := r.(people := SetState(r.people, s, Moving));
    assert LevelOk(r, l);
    CoreElectable(r, l);
    MovingLeaves(r, s);
    SameForAllExcept(r, moving, l);
    ReleaseKeepsCore(moving, s, l);
    OnlyLevelPeople(moving, Release(moving, s, l), l);
  }

  lemma ResumedElectable(r: Room, s: Sid)
    requires PeopleOk(r.people) && r.board.suppressed == {} && s in r.people.info
    requires LevelOk(r, r.people.info[s].level) && InState(r.people, s, Moving)
    ensures var r' := r.(people := SetState(r.people, s, Active), log := r.log + [Resumed(s)]);
            && Electable(r', r.people.info[s].level)
            && forall k :: k != r.people.info[s].level ==> SameFor(r, r', k)
  {
    SetStatePeople(r.people, s, Active);
    hide Pen, PeopleOk;
    var p := SetState(r.people, s, Active);
    var l := r.people.info[s].level;
    forall t: Sid
      ensures Last(r.log + [Resumed(s)], t) == if t == s then Some(Resumed(s)) else Last(r.log, t)
    {
      LastAppend(r.log, [Resumed(s)], t);
      LastOne(Resumed(s), t);
    }
    hide Last;
    assert forall t :: t != s && ActiveIn(p, t, l) ==> ActiveIn(r.people, t, l);
  }

  lemma ResumeKeepsCore(r: Room, s: Sid)
    requires Core(r) && s in r.people.info && InState(r.people, s, Moving)
    ensures var r' := Resume(r, s);
            Core(r') && r'.people == SetState(r.people, s, Active) && r'.pending == r.pending
  {
    hide LevelOk, PeopleOk, Rebalance, Electable, SameFor, OnlyLevel, LevelsExcept;
    var l := r.people.info[s].level;
    var back := r.(people := SetState(r.people, s, Active), log := r.log + [Resumed(s)]);
    assert LevelOk(r, l);
    CoreElectable(r, l);
    ResumedElectable(r, s);
    SameForAllExcept(r, back, l);
    Rebalanced(back, l);
    OnlyLevelPeople(back, Rebalance(back, l), l);
  }

  lemma {:induction false} RemoveMembers(order: seq<Sid>, s: Sid)
    ensures forall t :: t in Remove(order, s) <==> t in order && t != s
    ensures NoDuplicates(order) ==> NoDuplicates(Remove(order, s))
  {
    if order != [] {
      RemoveMembers(order[1..], s);
      NoDuplicatesTail(order);
    }
  }

  function Without(p: People, s: Sid): People
    requires s in p.info
  {
    p.(sessions := p.sessions - {s}, order := Remove(p.order, s), info := p.info - {s})
  }

  lemma WithoutPeople(p: People, s: Sid)
    requires PeopleOk(p) && s in p.info
    ensures PeopleOk(Without(p, s))
  {
    hide NoDuplicates;
    RemoveMembers(p.order, s);
  }

  lemma RemovedLeaves(r: Room, s: Sid)
    requires PeopleOk(r.people) && s in r.people.info && LevelOk(r, r.people.info[s].level)
    ensures var r' := r.(people := Without(r.people, s));
            && PeopleOk(r'.people) && Leaving(r', r.people.info[s].level, s)
            && forall k :: k != r.people.info[s].level ==> SameFor(r, r', k)
  {
    WithoutPeople(r.people, s);
    hide PeopleOk, Without, Leaving, SameFor;
    RemovedFromLevel(r, s);
    forall k | k != r.people.info[s].level
      ensures SameFor(r, r.(people := Without(r.people, s)), k)
    {
      RemovedElsewhere(r, s, k);
    }
  }

  lemma RemovedFromLevel(r: Room, s: Sid)
    requires s in r.people.info && LevelOk(r, r.people.info[s].level)
    ensures Leaving(r.(people := Without(r.people, s)), r.people.info[s].level, s)
  {
    hide Last, Pen, Remove;
    var p := Without(r.people, s);
    var l := r.people.info[s].level;
    assert forall t :: ActiveIn(p, t, l) ==> ActiveIn(r.people, t, l);
  }

  lemma RemovedElsewhere(r: Room, s: Sid, k: Level)
    requires s in r.people.info && r.people.info[s].level != k
    ensures SameFor(r, r.(people := Without(r.people, s)), k)
  {
    hide Last, Pen, Remove;
  }

  lemma DisconnectPlayerKeepsCore(r: Room, s: Sid)
    requires Core(r) && s in r.people.info && s in r.people.sessions
    ensures var r' := Disconnect(r, s);
            && Core(r') && r'.people == Without(r.people, s)
            && r'.pending == ForgetMoves(r, r.people.info[s].id).pending
  {
    hide LevelOk, PeopleOk, Release, Leaving, SameFor, OnlyLevel, LevelsExcept;
    var l := r.people.info[s].level;
    var kept := ForgetMoves(r, r.people.info[s].id);
    UnrelatedKeepsCore(r, kept);
    assert LevelOk(kept, l);
    CoreElectable(kept, l);
    var removed := kept.(people := Without(r.people, s));
    RemovedLeaves(kept, s);
    SameForAllExcept(kept, removed, l);
    ReleaseKeepsCore(removed, s, l);
    OnlyLevelPeople(removed, Release(removed, s, l), l);
    assert Disconnect(r, s) == Release(removed, s, l);
  }

  lemma DisconnectGuestKeepsCore(r: Room, s: Sid)
    requires Core(r) && s !in r.people.info && s in r.people.sessions
    ensures Core(Disconnect(r, s))
  {
    hide LevelOk, Last, Pen, NoDuplicates;
    SameForAll(r, Disconnect(r, s));
  }

  // ----- Pending moves -----

  /** Players of p other than s keep their id, and their MOVING or CLOSED state, in q. */
  ghost predicate Carries(p: People, q: People, s: Option<Sid>) {
    forall t :: t in p.info && s != Some(t) ==>
      && t in q.info && q.info[t].id == p.info[t].id
      && (InState(p, t, Moving) || InState(p, t, Closed) ==> InState(q, t, Moving) || InState(q, t, Closed))
  }

  lemma CarriedPending(r: Room, r': Room, starting: set<Sid>)
    requires PendingOk(r, starting) && r'.pending == r.pending && Carries(r.people, r'.people, None)
    ensures PendingOk(r', starting)
  {
    forall m | m in r'.pending
      ensures HasOwner(r', r'.pending[m], starting)
    {
      assert HasOwner(r, r.pending[m], starting);
    }
  }

  /** Forgetting a player's moves leaves the owners of all others in place. */
  lemma ForgottenPending(r: Room, r': Room, s: Sid)
    requires PeopleOk(r.people) && PendingOk(r, {}) && s in r.people.info
    requires r'.pending == ForgetMoves(r, r.people.info[s].id).pending && Carries(r.people, r'.people, Some(s))
    ensures PendingOk(r', {})
  {
    hide NoDuplicates;
    forall m | m in r'.pending
      ensures HasOwner(r', r'.pending[m], {})
    {
      assert HasOwner(r, r.pending[m], {});
    }
  }

  /** A new entry for a player that is about to start. */
  lemma PreparedPending(r: Room, m: MoveId, s: Sid, starting: set<Sid>)
    requires PendingOk(r, starting) && s in r.people.info && m.player == r.people.info[s].id
    requires !HasPending(r, r.people.info[s].id) && s in starting
    ensures PendingOk(r.(pending := r.pending[m := r.people.info[s].id]), starting)
  {
    var id := r.people.info[s].id;
    var r' := r.(pending := r.pending[m := id]);
    assert forall n :: n in r.pending ==> r.pending[n] != id;
    assert HasOwner(r', id, starting);
    hide HasPending, HasOwner;
    PendingKept(r, r', m, id, starting);
  }

  /** Adding one entry of a player that has none. */
  lemma PendingKept(r: Room, r': Room, m: MoveId, id: int, starting: set<Sid>)
    requires PendingOk(r, starting) && r' == r.(pending := r.pending[m := id]) && m.player == id
    requires HasOwner(r', id, starting) && forall n :: n in r.pending ==> r.pending[n] != id
    ensures PendingOk(r', starting)
  {
    hide HasOwner;
    forall n | n in r.pending
      ensures HasOwner(r', r.pending[n], starting)
    {
      SameOwner(r, r', r.pending[n], starting);
    }
  }

  lemma SameOwner(r: Room, r': Room, id: int, starting: set<Sid>)
    requires r'.people == r.people && HasOwner(r, id, starting)
    ensures HasOwner(r', id, starting)
  {}

  lemma MorePending(r: Room, small: set<Sid>, large: set<Sid>)
    requires PendingOk(r, small) && small <= large
    ensures PendingOk(r, large)
  {
    forall m | m in r.pending
      ensures HasOwner(r, r.pending[m], large)
    {
      assert HasOwner(r, r.pending[m], small);
    }
  }

  /** A player that has started is an owner in its own right. */
  lemma StartedPending(r: Room, r': Room, s: Sid, starting: set<Sid>)
    requires PendingOk(r, starting) && r'.pending == r.pending
    requires r'.people == SetState(r.people, s, Moving)
    ensures PendingOk(r', starting - {s})
  {
    forall m | m in r'.pending
      ensures HasOwner(r', r'.pending[m], starting - {s})
    {
      assert HasOwner(r, r.pending[m], starting);
      var t :| t in r.people.info && r.people.info[t].id == r.pending[m] &&
               (InState(r.people, t, Moving) || InState(r.people, t, Closed) || t in starting);
      assert t in r'.people.info;
      assert t == s ==> InState(r'.people, t, Moving);
    }
  }

  // ----- A single move -----

  lemma MoveOneKeepsInv(r: Room, s: Sid, target: string, now: int, sent: bool)
    requires Inv(r)
    ensures Inv(MoveOne(r, s, target, now, sent))
  {
    hide LevelOk, PeopleOk, StartMoving, PendingOk, Last;
    if Movable(r, s) && sent {
      var id := r.people.info[s].id;
      var ready := r.(pending := r.pending[Single(id, target, now) := id], log := r.log + [MoveGame(s)]);
      LastUnrelated(r.log, [MoveGame(s)]);
      UnrelatedKeepsCore(r, ready);
      MorePending(r, {}, {s});
      PreparedPending(r, Single(id, target, now), s, {s});
      CarriedPending(r.(pending := ready.pending), ready, {s});
      StartMovingKeepsCore(ready, s);
      StartedPending(ready, StartMoving(ready, s), s, {s});
      assert {s} - {s} == {};
    }
  }

  // ----- Group moves -----

  lemma {:induction false} EligibleDistinct(r: Room, group: seq<Sid>)
    requires NoDuplicates(group)
    ensures NoDuplicates(Eligible(r, group))
  {
    if group != [] {
      NoDuplicatesTail(group);
      EligibleDistinct(r, group[1..]);
      var rest := Eligible(r, group[1..]);
      if Movable(r, group[0]) {
        assert group[0] !in rest;
      }
    }
  }

  /** Every member of group is stored under its own id and has no pending move yet. */
  ghost predicate Ready(r: Room, group: seq<Sid>) {
    && NoDuplicates(group)
    && forall s :: s in group ==> s in r.people.info && !HasPending(r, r.people.info[s].id)
  }

  function Members(group: seq<Sid>): set<Sid> {
    set s | s in group
  }

  lemma MoveIdPlayer(r: Room, s: Sid, txn: Option<string>, target: string, now: int)
    ensures MoveIdFor(r, s, txn, target, now).player == IdOf(r, s)
  {}

  lemma ReadyTail(r: Room, group: seq<Sid>, m: MoveId)
    requires PeopleOk(r.people) && Ready(r, group) && group != []
    ensures Ready(r.(pending := r.pending[m := r.people.info[group[0]].id]), group[1..])
    ensures Members(group[1..]) == Members(group) - {group[0]}
  {
    NoDuplicatesTail(group);
    hide NoDuplicates;
    var r' := r.(pending := r.pending[m := r.people.info[group[0]].id]);
    forall s | s in group[1..]
      ensures s in r'.people.info && !HasPending(r', r'.people.info[s].id)
    {
      assert s in group && s != group[0];
    }
  }

  /** Preparing: one entry per member, the others untouched. */
  lemma {:induction false} PreparedAll(r: Room, group: seq<Sid>, txn: Option<string>, target: string, now: int,
      starting: set<Sid>)
    requires PeopleOk(r.people) && PendingOk(r, starting) && Ready(r, group) && Members(group) <= starting
    ensures var pending := PrepareAll(r, group, txn, target, now);
            && PendingOk(r.(pending := pending), starting)
            && (forall m :: m in r.pending ==> m in pending && pending[m] == r.pending[m])
            && (forall m :: m in pending && m !in r.pending ==>
                  exists s :: s in group && s in r.people.info && pending[m] == r.people.info[s].id)
            && (forall s :: s in group ==>
                  var m := MoveIdFor(r, s, txn, target, now);
                  m in pending && pending[m] == r.people.info[s].id)
    decreases |group|
  {
    hide PeopleOk, PendingOk, HasPending, NoDuplicates;
    if group != [] {
      var s := group[0];
      var m := MoveIdFor(r, s, txn, target, now);
      var r' := r.(pending := r.pending[m := r.people.info[s].id]);
      MoveIdPlayer(r, s, txn, target, now);
      FreshKey(r, m, s, starting);
      PreparedPending(r, m, s, starting);
      ReadyTail(r, group, m);
      PreparedAll(r', group[1..], txn, target, now, starting);
      forall t
        ensures MoveIdFor(r', t, txn, target, now) == MoveIdFor(r, t, txn, target, now)
      {}
      assert forall t :: t in group ==> t == s || t in group[1..];
      assert forall t :: t in group[1..] ==> t in group;
    }
  }

  lemma FreshKey(r: Room, m: MoveId, s: Sid, starting: set<Sid>)
    requires PendingOk(r, starting) && s in r.people.info && m.player == r.people.info[s].id
    requires !HasPending(r, r.people.info[s].id)
    ensures m !in r.pending
  {}

  /** Starting: every member becomes MOVING, one after another, and the levels stay right. */
  lemma {:induction false} StartedAll(r: Room, group: seq<Sid>)
    requires Core(r) && PendingOk(r, Members(group)) && NoDuplicates(group)
    requires forall s :: s in group ==> s in r.people.info && InState(r.people, s, Active)
    ensures var r' := StartAll(r, group);
            && Core(r') && PendingOk(r', {}) && r'.pending == r.pending && r'.people.info == r.people.info
            && (forall s :: s in group ==> InState(r'.people, s, Moving))
            && (forall s, c :: s !in group ==> (InState(r'.people, s, c) <==> InState(r.people, s, c)))
    decreases |group|
  {
    hide LevelOk, PeopleOk, StartMoving, PendingOk;
    if group != [] {
      var s := group[0];
      var r' := StartMoving(r, s);
      StartMovingKeepsCore(r, s);
      StartedPending(r, r', s, Members(group));
      NoDuplicatesTail(group);
      assert Members(group) - {s} == Members(group[1..]);
      assert forall t :: t in group[1..] ==> t in group && t != s;
      StartedAll(r', group[1..]);
    } else {
      assert Members(group) == {};
    }
  }

  lemma EligibleReady(r: Room, group: seq<Sid>)
    requires NoDuplicates(group)
    ensures Ready(r, Eligible(r, group))
    ensures forall s :: s in Eligible(r, group) ==> s in r.people.info && InState(r.people, s, Active)
  {
    EligibleDistinct(r, group);
  }

  /**
   * A committed group move: every eligible member is MOVING with exactly one pending move, which
   * names its own player id; every other session and every other pending move is as before.
   */
  lemma GroupMoveCommits(r: Room, group: seq<Sid>, txn: Option<string>, target: string, now: int, failAt: Option<nat>)
    requires Inv(r) && GroupAccepted(r, group) && !(failAt.Some? && failAt.value < |Eligible(r, group)|)
    ensures var r' := MoveGroup(r, group, txn, target, now, failAt);
            && Core(r') && PendingOk(r', {}) && r'.people.info == r.people.info
            && (forall s :: s in Eligible(r, group) ==>
                  InState(r'.people, s, Moving) && HasPending(r', r.people.info[s].id))
            && (forall s, c :: s !in Eligible(r, group) ==> (InState(r'.people, s, c) <==> InState(r.people, s, c)))
            && (forall m :: m in r.pending ==> m in r'.pending && r'.pending[m] == r.pending[m])
            && (forall m :: m in r'.pending && m !in r.pending ==>
                  exists s :: s in Eligible(r, group) && s in r.people.info && r'.pending[m] == r.people.info[s].id)
  {
    hide LevelOk, PeopleOk, PendingOk, StartAll, PrepareAll, MoveGames, Ready, NoDuplicates, Last;
    var e := Eligible(r, group);
    EligibleReady(r, group);
    EligibleDistinct(r, group);
    MorePending(r, {}, Members(e));
    PreparedAll(r, e, txn, target, now, Members(e));
    var pending := PrepareAll(r, e, txn, target, now);
    var ready := r.(pending := pending, log := r.log + MoveGames(e));
    assert forall m :: m in MoveGames(e) ==> m.MoveGame? by { MoveGamesAre(e); }
    LastUnrelated(r.log, MoveGames(e));
    UnrelatedKeepsCore(r, ready);
    CarriedPending(r.(pending := pending), ready, Members(e));
    StartedAll(ready, e);
  }

  /** The outcome accounts for every member exactly once, and reports a move exactly when there is one. */
  lemma OutcomeAccounts(r: Room, group: seq<Sid>, failAt: Option<nat>)
    ensures var o := GroupOutcome(r, group, failAt);
            && (o.Moved? <==> GroupAccepted(r, group) && !(failAt.Some? && failAt.value < |Eligible(r, group)|))
            && (o.Moved? ==> multiset(o.moved) + multiset(o.failed) == multiset(group) &&
                             (forall s :: s in o.moved <==> s in group && Movable(r, s)))
  {
    hide NoDuplicates, Movable;
    EligibleMembers(r, group);
    var e := Eligible(r, group);
    SplitByMembership(group, group, r);
    assert forall s :: s in group ==> (s in e <==> Movable(r, s));
  }

  lemma {:induction false} EligibleMembers(r: Room, group: seq<Sid>)
    ensures forall s :: s in Eligible(r, group) <==> s in group && Movable(r, s)
  {
    if group != [] {
      EligibleMembers(r, group[1..]);
      assert group == [group[0]] + group[1..];
    }
  }

  /** Part of a group splits into its movable members and the others. */
  lemma {:induction false} SplitByMembership(part: seq<Sid>, group: seq<Sid>, r: Room)
    requires forall s :: s in part ==> s in group
    ensures multiset(Eligible(r, part)) + multiset(Except(part, Eligible(r, group))) == multiset(part)
  {
    hide Movable;
    EligibleMembers(r, group);
    if part != [] {
      SplitByMembership(part[1..], group, r);
      assert part == [part[0]] + part[1..];
    }
  }

  lemma MoveGamesAre(group: seq<Sid>)
    ensures forall m :: m in MoveGames(group) ==> m.MoveGame?
    ensures forall m :: m in CancelMoves(group) ==> m.CancelMove?
  {}

  /**
   * A group move in which a send throws: sessions, levels and pending moves are as before, and
   * exactly the members already told to move are told to cancel.
   */
  lemma GroupMoveRollsBack(r: Room, group: seq<Sid>, txn: Option<string>, target: string, now: int, failAt: nat)
    requires Inv(r) && GroupAccepted(r, group) && failAt < |Eligible(r, group)|
    ensures var r' := MoveGroup(r, group, txn, target, now, Some(failAt));
            && Inv(r') && r'.people == r.people && r'.board == r.board && r'.pending == r.pending
            && r.log <= r'.log
            && forall s :: MoveGame(s) in r'.log[|r.log|..] <==> CancelMove(s) in r'.log[|r.log|..]
  {
    hide LevelOk, PeopleOk, PendingOk, Last;
    var told := Eligible(r, group)[..failAt];
    var r' := MoveGroup(r, group, txn, target, now, Some(failAt));
    var more := MoveGames(told) + CancelMoves(told);
    MoveGamesAre(told);
    assert r.log + MoveGames(told) + CancelMoves(told) == r.log + more;
    LastUnrelated(r.log, more);
    UnrelatedKeepsCore(r, r');
    CarriedPending(r, r', {});
    assert r'.log[|r.log|..] == more;
    forall s
      ensures MoveGame(s) in more <==> CancelMove(s) in more
    {
      ToldBoth(told, s);
    }
  }

  lemma ToldBoth(told: seq<Sid>, s: Sid)
    ensures MoveGame(s) in MoveGames(told) + CancelMoves(told) <==> s in told
    ensures CancelMove(s) in MoveGames(told) + CancelMoves(told) <==> s in told
  {
    var a, b := MoveGames(told), CancelMoves(told);
    if s in told {
      var i :| 0 <= i < |told| && told[i] == s;
      assert a[i] == MoveGame(s) && b[i] == CancelMove(s);
      assert (a + b)[i] == a[i] && (a + b)[|a| + i] == b[i];
    }
  }

  lemma MoveGroupKeepsInv(r: Room, group: seq<Sid>, txn: Option<string>, target: string, now: int, failAt: Option<nat>)
    requires Inv(r)
    ensures Inv(MoveGroup(r, group, txn, target, now, failAt))
  {
    hide LevelOk, PeopleOk, PendingOk, MoveGroup, Eligible;
    if !GroupAccepted(r, group) {
      GroupRejected(r, group, txn, target, now, failAt);
    } else if failAt.Some? && failAt.value < |Eligible(r, group)| {
      GroupMoveRollsBack(r, group, txn, target, now, failAt.value);
    } else {
      GroupMoveCommits(r, group, txn, target, now, failAt);
    }
  }

  lemma GroupRejected(r: Room, group: seq<Sid>, txn: Option<string>, target: string, now: int, failAt: Option<nat>)
    requires !GroupAccepted(r, group)
    ensures MoveGroup(r, group, txn, target, now, failAt) == r
  {}

  // ----- The other steps -----

  lemma MoveResultKeepsInv(r: Room, s: Sid, result: int)
    requires Inv(r)
    ensures Inv(HandleMoveResult(r, s, result))
  {
    hide LevelOk, PeopleOk, PendingOk, Resume;
    if MaySend(r, s, MoveResult) && s in r.people.info && HasPending(r, r.people.info[s].id) {
      var acked := ForgetMoves(r, r.people.info[s].id);
      UnrelatedKeepsCore(r, acked);
      ForgottenPending(r, acked, s);
      if result != 0 && InState(r.people, s, Moving) {
        ResumeKeepsCore(acked, s);
        ForgottenPending(r, Resume(acked, s), s);
      }
    }
  }

  lemma CancelMoveKeepsInv(r: Room, s: Sid, sent: bool)
    requires Inv(r)
    ensures Inv(CancelPlayerMove(r, s, sent))
  {
    hide LevelOk, PeopleOk, PendingOk, Resume, Last;
    if s in r.people.info && sent {
      var id := r.people.info[s].id;
      var told := r.(log := r.log + [CancelMove(s)]);
      LastUnrelated(r.log, [CancelMove(s)]);
      UnrelatedKeepsCore(r, told);
      if InState(r.people, s, Moving) {
        ResumeKeepsCore(told, s);
        var back := Resume(told, s);
        UnrelatedKeepsCore(back, ForgetMoves(back, id));
        ForgottenPending(r, ForgetMoves(back, id), s);
      } else {
        UnrelatedKeepsCore(told, ForgetMoves(told, id));
        ForgottenPending(r, ForgetMoves(told, id), s);
      }
    }
  }

  lemma DisconnectKeepsInv(r: Room, s: Sid)
    requires Inv(r)
    ensures Inv(Disconnect(r, s))
  {
    hide LevelOk, PendingOk, Disconnect, PeopleOk;
    if s !in r.people.sessions {
      assert Disconnect(r, s) == r by { UnknownDisconnect(r, s); }
    } else if s in r.people.info {
      DisconnectPlayerKeepsCore(r, s);
      ForgottenPending(r, Disconnect(r, s), s);
    } else {
      DisconnectGuestKeepsCore(r, s);
      GuestLeaves(r, s);
      CarriedPending(r, Disconnect(r, s), {});
    }
  }

  lemma UnknownDisconnect(r: Room, s: Sid)
    requires s !in r.people.sessions
    ensures Disconnect(r, s) == r
  {}

  lemma GuestLeaves(r: Room, s: Sid)
    requires s !in r.people.info && s in r.people.sessions
    ensures Disconnect(r, s).pending == r.pending && Carries(r.people, Disconnect(r, s).people, None)
  {}

  lemma JoinCarries(r: Room, s: Sid, id: int, uuid: string, l: Level, sent: bool)
    ensures Join(r, s, id, uuid, l, sent).pending == r.pending
    ensures Carries(r.people, Join(r, s, id, uuid, l, sent).people, None)
  {
    hide Elects, ActiveList;
  }

  lemma ChangeLevelCarries(r: Room, s: Sid, l: Level)
    ensures ChangeLevel(r, s, l).pending == r.pending
    ensures Carries(r.people, ChangeLevel(r, s, l).people, None)
  {
    hide Rebalance;
    if MaySend(r, s, LevelUpdate) && s in r.people.info {
      LeaveCarries(r, s, l);
      RebalancePeople(LeaveLevel(r, s, l), l);
    }
  }

  lemma RebalancePeople(r: Room, l: Level)
    ensures Rebalance(r, l).people == r.people && Rebalance(r, l).pending == r.pending
  {
    hide Elects, ActiveList, Prune;
  }

  lemma LeaveCarries(r: Room, s: Sid, l: Level)
    requires s in r.people.info
    ensures LeaveLevel(r, s, l).pending == r.pending && Carries(r.people, LeaveLevel(r, s, l).people, None)
    ensures s in LeaveLevel(r, s, l).people.info
  {
    hide Rebalance, ClearPenalty;
    var moved := r.(people := Relocate(r.people, s, l));
    var left := r.people.info[s].level;
    RebalancePeople(moved.(board := RevokeAuthority(ClearPenalty(r.board, left, s), left)), left);
  }

  // ----- Every step, every run -----

  lemma StepKeepsInv(r: Room, e: Event)
    requires Inv(r)
    ensures Inv(Step(r, e))
  {
    hide LevelOk, PeopleOk, PendingOk, Join, ChangeLevel, Heartbeat, ClientRevoke, ServerRevoke, MoveOne, MoveGroup,
         HandleMoveResult, CancelPlayerMove, Disconnect;
    match e
    case EvConnect =>
      ConnectKeepsCore(r);
      CarriedPending(r, Connect(r), {}) by { ConnectCarries(r); }
    case EvJoin(s, id, uuid, l, sent) =>
      JoinKeepsCore(r, s, id, uuid, l, sent);
      JoinCarries(r, s, id, uuid, l, sent);
      CarriedPending(r, Join(r, s, id, uuid, l, sent), {});
    case EvChangeLevel(s, l) =>
      ChangeLevelKeepsCore(r, s, l);
      ChangeLevelCarries(r, s, l);
      CarriedPending(r, ChangeLevel(r, s, l), {});
    case EvHeartbeat(s, l) =>
      HeartbeatKeepsCore(r, s, l);
      CarriedPending(r, Heartbeat(r, s, l), {});
    case EvClientRevoke(s) =>
      ClientRevokeKeepsCore(r, s);
      CarriedPending(r, ClientRevoke(r, s), {});
    case EvServerRevoke(l) =>
      ServerRevokeKeepsCore(r, l);
      CarriedPending(r, ServerRevoke(r, l), {});
    case EvMove(s, target, now, sent) => MoveOneKeepsInv(r, s, target, now, sent);
    case EvMoveGroup(group, txn, target, now, failAt) => MoveGroupKeepsInv(r, group, txn, target, now, failAt);
    case EvMoveResult(s, result) => MoveResultKeepsInv(r, s, result);
    case EvCancelMove(s, sent) => CancelMoveKeepsInv(r, s, sent);
    case EvClose(s) =>
      CloseKeepsCore(r, s);
      CarriedPending(r, Close(r, s), {});
    case EvDisconnect(s) => DisconnectKeepsInv(r, s);
  }

  lemma ConnectCarries(r: Room)
    requires PeopleOk(r.people)
    ensures Connect(r).pending == r.pending && Carries(r.people, Connect(r).people, None)
  {
    hide NoDuplicates;
  }

  lemma {:induction false} RunKeepsInv(events: seq<Event>)
    ensures Inv(Run(events))
    decreases |events|
  {
    hide Step;
    if events == [] {
      EmptyRoom();
    } else {
      RunKeepsInv(events[..|events| - 1]);
      StepKeepsInv(Run(events[..|events| - 1]), events[|events| - 1]);
    }
  }

  lemma EmptyRoom()
    ensures Inv(Initial)
  {}

  // ----- Session states -----

  /** The session keeps its state or makes a transition the table allows. */
  predicate Moves(p: People, q: People, s: Sid) {
    s in p.sessions && s in q.sessions ==>
      q.sessions[s] == p.sessions[s] || CanTransition(p.sessions[s], q.sessions[s])
  }

  lemma JoinMoves(r: Room, s: Sid, id: int, uuid: string, l: Level, sent: bool, t: Sid)
    ensures Moves(r.people, Join(r, s, id, uuid, l, sent).people, t)
  {
    hide Elects, ActiveList;
  }

  lemma ChangeLevelMoves(r: Room, s: Sid, l: Level, t: Sid)
    ensures Moves(r.people, ChangeLevel(r, s, l).people, t)
  {
    hide Rebalance, ClearPenalty;
    if MaySend(r, s, LevelUpdate) && s in r.people.info {
      var left := r.people.info[s].level;
      RebalancePeople(r.(people := Relocate(r.people, s, l),
          board := RevokeAuthority(ClearPenalty(r.board, left, s), left)), left);
      RebalancePeople(LeaveLevel(r, s, l), l);
    }
  }

  lemma ReleasePeople(r: Room, s: Sid, l: Level)
    ensures Release(r, s, l).people == r.people
  {
    hide Rebalance;
    ReleaseIs(r, s, l);
    RebalancePeople(r.(board := Released(r.board, s, l)), l);
  }

  lemma MoveOneMoves(r: Room, s: Sid, target: string, now: int, sent: bool, t: Sid)
    ensures Moves(r.people, MoveOne(r, s, target, now, sent).people, t)
  {
    hide Release;
    if Movable(r, s) && sent {
      var id := r.people.info[s].id;
      var ready := r.(pending := r.pending[Single(id, target, now) := id], log := r.log + [MoveGame(s)]);
      ReleasePeople(ready.(people := SetState(r.people, s, Moving)), s, r.people.info[s].level);
    }
  }

  lemma MoveGroupMoves(r: Room, group: seq<Sid>, txn: Option<string>, target: string, now: int, failAt: Option<nat>,
      t: Sid)
    requires Inv(r)
    ensures Moves(r.people, MoveGroup(r, group, txn, target, now, failAt).people, t)
  {
    hide Inv, MoveGroup, Core, PendingOk, HasPending;
    var r' := MoveGroup(r, group, txn, target, now, failAt);
    if !GroupAccepted(r, group) {
      GroupRejected(r, group, txn, target, now, failAt);
    } else if failAt.Some? && failAt.value < |Eligible(r, group)| {
      GroupMoveRollsBack(r, group, txn, target, now, failAt.value);
    } else {
      GroupMoveCommits(r, group, txn, target, now, failAt);
      if t !in Eligible(r, group) && t in r.people.sessions {
        assert InState(r'.people, t, r.people.sessions[t]);
      }
    }
  }

  lemma ResumeMoves(r: Room, s: Sid, t: Sid)
    requires s in r.people.info && InState(r.people, s, Moving)
    ensures Moves(r.people, Resume(r, s).people, t)
  {
    hide Rebalance;
    RebalancePeople(r.(people := SetState(r.people, s, Active), log := r.log + [Resumed(s)]), r.people.info[s].level);
  }

  lemma DisconnectMoves(r: Room, s: Sid, t: Sid)
    ensures Moves(r.people, Disconnect(r, s).people, t)
  {
    hide Release;
    if s in r.people.sessions && s in r.people.info {
      var removed := r.(people := Without(r.people, s), pending := ForgetMoves(r, r.people.info[s].id).pending);
      ReleasePeople(removed, s, r.people.info[s].level);
    }
  }

  /** No step of a reachable room asks a session for a transition its table refuses. */
  lemma StepTransitionsAllowed(r: Room, e: Event, t: Sid)
    requires Inv(r)
    ensures Moves(r.people, Step(r, e).people, t)
  {
    hide Inv, Join, ChangeLevel, Heartbeat, ClientRevoke, ServerRevoke, MoveOne, MoveGroup, Resume, Disconnect, Core,
         LevelOk, HasPending;
    assert Core(r) && (t in r.people.sessions ==> t < r.people.nextSid) by { InvKnown(r, t); }
    match e
    case EvConnect =>
    case EvJoin(s, id, uuid, l, sent) => JoinMoves(r, s, id, uuid, l, sent, t);
    case EvChangeLevel(s, l) => ChangeLevelMoves(r, s, l, t);
    case EvHeartbeat(s, l) => HeartbeatKeepsCore(r, s, l);
    case EvClientRevoke(s) => ClientRevokeKeepsCore(r, s);
    case EvServerRevoke(l) => ServerRevokeKeepsCore(r, l);
    case EvMove(s, target, now, sent) => MoveOneMoves(r, s, target, now, sent, t);
    case EvMoveGroup(group, txn, target, now, failAt) => MoveGroupMoves(r, group, txn, target, now, failAt, t);
    case EvMoveResult(s, result) =>
      if s in r.people.info && InState(r.people, s, Moving) {
        ResumeMoves(ForgetMoves(r, r.people.info[s].id), s, t);
      }
    case EvCancelMove(s, sent) =>
      if s in r.people.info && InState(r.people, s, Moving) {
        ResumeMoves(r.(log := r.log + [CancelMove(s)]), s, t);
      }
    case EvClose(s) =>
    case EvDisconnect(s) => DisconnectMoves(r, s, t);
  }

  lemma InvKnown(r: Room, t: Sid)
    requires Inv(r)
    ensures Core(r) && (t in r.people.sessions ==> t < r.people.nextSid)
  {}

  // ----- What it comes to -----

  /** In every reachable room: who holds a level, and who may be penalized there. */
  lemma AuthorityIsPresent(events: seq<Event>, l: Level)
    ensures var r := Run(events);
            && (l in r.board.authority ==>
                  var s := r.board.authority[l];
                  && InLevel(r.people, s, l) && s !in Pen(r.board, l)
                  && (InState(r.people, s, Active) || InState(r.people, s, Closed)))
            && forall s :: s in Pen(r.board, l) ==> InLevel(r.people, s, l) && !InState(r.people, s, Moving)
  {
    RunKeepsInv(events);
    assert LevelOk(Run(events), l);
  }

  /** In every reachable room, an unpenalized active player's level has an authority. */
  lemma NoLevelWithoutAuthority(events: seq<Event>, s: Sid, l: Level)
    requires ActiveIn(Run(events).people, s, l) && s !in Pen(Run(events).board, l)
    ensures l in Run(events).board.authority
  {
    hide Run;
    RunKeepsInv(events);
    assert LevelOk(Run(events), l);
  }

  /** In every reachable room, an active player's last authority message names its level's authority. */
  lemma PlayersAgree(events: seq<Event>, s: Sid, l: Level)
    requires ActiveIn(Run(events).people, s, l) && l in Run(events).board.authority
    ensures var r := Run(events);
            && r.board.authority[l] in r.people.info
            && (Last(r.log, s) == Some(Elect(s, r.people.info[r.board.authority[l]].id, l)) ||
                Last(r.log, s) == Some(Resumed(s)))
  {
    hide Run;
    RunKeepsInv(events);
    assert LevelOk(Run(events), l);
  }

  /**
   * In every reachable room, a pending move names one stored player, MOVING or CLOSED, and a player has at
   * most one.
   */
  lemma PendingMovesOwned(events: seq<Event>, m: MoveId)
    requires m in Run(events).pending
    ensures var r := Run(events);
            && (exists s :: s in r.people.info && r.people.info[s].id == r.pending[m] &&
                            (InState(r.people, s, Moving) || InState(r.people, s, Closed)))
            && forall n :: n in r.pending && r.pending[n] == r.pending[m] ==> n == m
  {
    hide Run;
    RunKeepsInv(events);
    assert HasOwner(Run(events), Run(events).pending[m], {});
  }
}
