/** The three-index player store and its cyclic id allocator: src/domain/PlayerStore.js. */
module PlayerStores {
  import opened Options

  datatype Player = Player(id: int, uuid: string, session: int)

  datatype Error = RoomFull | SessionTaken | UuidTaken | IdUnavailable | NoIds

  datatype Result<+T> = Ok(value: T) | Err(error: Error)

  datatype Store = Store(
    maxPlayers: nat, byId: map<int, Player>, bySession: map<int, Player>, byUuid: map<string, Player>,
    reserved: set<int>, netIdCount: int)

  const MAX_IDS := 255

  predicate IsId(i: int) {
    1 <= i <= 255
  }

  // ----- The invariant -----

  /** p is stored under its id, its session and its uuid. */
  predicate Indexed(s: Store, p: Player) {
    && p.id in s.byId && s.byId[p.id] == p
    && p.session in s.bySession && s.bySession[p.session] == p
    && p.uuid in s.byUuid && s.byUuid[p.uuid] == p
  }

  predicate IdsIndexed(s: Store) {
    forall i :: i in s.byId ==> s.byId[i].id == i && Indexed(s, s.byId[i])
  }

  predicate SessionsIndexed(s: Store) {
    forall k :: k in s.bySession ==> s.bySession[k].session == k && Indexed(s, s.bySession[k])
  }

  predicate UuidsIndexed(s: Store) {
    forall u :: u in s.byUuid ==> s.byUuid[u].uuid == u && Indexed(s, s.byUuid[u])
  }

  /** The three maps index one and the same player set. */
  predicate SamePlayers(s: Store) {
    IdsIndexed(s) && SessionsIndexed(s) && UuidsIndexed(s)
  }

  predicate Valid(s: Store) {
    && SamePlayers(s)
    && |s.byId| <= s.maxPlayers
    && (forall i :: i in s.byId ==> IsId(i))
    && (forall i :: i in s.reserved ==> IsId(i) && i !in s.byId)
    && 0 <= s.netIdCount <= MAX_IDS
  }

  function Empty(maxPlayers: nat): Store {
    Store(maxPlayers, map[], map[], map[], {}, 0)
  }

  // ----- Ids -----

  predicate Free(s: Store, i: int) {
    IsId(i) && i !in s.byId && i !in s.reserved
  }

  function FreeIds(s: Store): set<int> {
    set i | 1 <= i <= MAX_IDS && Free(s, i)
  }

  function Start(s: Store): int {
    if s.netIdCount == 0 then 1 else s.netIdCount
  }

  /** The id k steps after start in the cycle 1..255. */
  function Nth(start: int, k: int): (id: int)
    ensures IsId(id)
  {
    (start - 1 + k) % MAX_IDS + 1
  }

  function After(id: int): int {
    id % MAX_IDS + 1
  }

  /** Steps from the start to the first free id at or after step k; 255 when there is none. */
  function FirstFree(s: Store, k: nat): (r: nat)
    requires k <= MAX_IDS
    ensures k <= r <= MAX_IDS
    ensures r < MAX_IDS ==> Free(s, Nth(Start(s), r))
    ensures forall j :: k <= j < r ==> !Free(s, Nth(Start(s), j))
    decreases MAX_IDS - k
  {
    if k == MAX_IDS then k
    else if Free(s, Nth(Start(s), k)) then k
    else FirstFree(s, k + 1)
  }

  function AllocateId(s: Store): Option<(Store, int)> {
    var k := FirstFree(s, 0);
    if k == MAX_IDS then None
    else
      var id := Nth(Start(s), k);
      Some((s.(netIdCount := After(id)), id))
  }

  /** The cycle visits every id, so allocation fails only when no id is free. */
  lemma FailsOnlyWhenNoneFree(s: Store)
    requires Valid(s)
    ensures AllocateId(s).None? <==> FreeIds(s) == {}
    ensures AllocateId(s).Some? ==> AllocateId(s).value.1 in FreeIds(s)
  {
    if AllocateId(s).None? {
      forall i | IsId(i)
        ensures !Free(s, i)
      {
        var j := (i - Start(s)) % MAX_IDS;
        CycleReaches(Start(s), i);
        assert !Free(s, Nth(Start(s), j));
      }
    } else {
      assert AllocateId(s).value.1 in FreeIds(s);
    }
  }

  lemma CycleReaches(start: int, i: int)
    requires IsId(start) && IsId(i)
    ensures 0 <= (i - start) % 255 < 255 && Nth(start, (i - start) % 255) == i
  {}

  /** Steps from one id to another in the cycle 1..255. */
  function Steps(start: int, i: int): int {
    (i - start) % 255
  }

  /** Of the free ids, the one allocated comes first in cyclic order from the counter. */
  lemma AllocatesFirstInCycle(s: Store, i: int)
    requires Valid(s) && AllocateId(s).Some? && i in FreeIds(s)
    ensures Steps(Start(s), AllocateId(s).value.1) <= Steps(Start(s), i)
  {
    hide Nth;
    var k := FirstFree(s, 0);
    CycleReaches(Start(s), i);
    NthDistance(Start(s), k);
  }

  lemma NthDistance(start: int, k: nat)
    requires IsId(start) && k < 255
    ensures (Nth(start, k) - start) % 255 == k
  {}

  /**
   * An id handed out comes last in the cycle from then on: it is handed out again at once only
   * when no other id is free.
   */
  lemma NotReusedSoon(s: Store, i: int)
    requires Valid(s) && AllocateId(s).Some? && AllocateId(AllocateId(s).value.0).Some?
    requires i in FreeIds(s) && i != AllocateId(s).value.1
    ensures AllocateId(AllocateId(s).value.0).value.1 != AllocateId(s).value.1
  {
    hide AllocateId, FreeIds, Valid, Start, Steps;
    var (s1, id) := AllocateId(s).value;
    AllocationTurnsCycle(s);
    FailsOnlyWhenNoneFree(s);
    FreeIdIsId(s, i);
    FreeIdIsId(s, id);
    AllocatesFirstInCycle(s1, i);
    LastInCycle(id, i);
  }

  lemma FreeIdIsId(s: Store, i: int)
    requires i in FreeIds(s)
    ensures IsId(i)
  {}

  lemma AllocationTurnsCycle(s: Store)
    requires Valid(s) && AllocateId(s).Some?
    ensures var (s1, id) := AllocateId(s).value;
            Valid(s1) && Start(s1) == id % 255 + 1 && FreeIds(s1) == FreeIds(s)
  {
    hide FirstFree, Nth;
  }

  lemma LastInCycle(id: int, i: int)
    requires IsId(id) && IsId(i) && i != id
    ensures Steps(id % 255 + 1, i) < Steps(id % 255 + 1, id)
  {}

  function ReserveId(s: Store, id: int): Result<Store> {
    if !IsId(id) || id in s.byId then Err(IdUnavailable) else Ok(s.(reserved := s.reserved + {id}))
  }

  function ReleaseReservedId(s: Store, id: int): Store {
    s.(reserved := s.reserved - {id})
  }

  function ClaimId(s: Store, id: int): Result<Store> {
    if !IsId(id) || id in s.byId then Err(IdUnavailable)
    else Ok(s.(reserved := s.reserved - {id}, netIdCount := After(id)))
  }

  // ----- Adding and removing -----

  function Insert(s: Store, p: Player): Store {
    s.(byId := s.byId[p.id := p], bySession := s.bySession[p.session := p], byUuid := s.byUuid[p.uuid := p])
  }

  /** id is the one a migration roster announced, or None to allocate. */
  function Add(s: Store, session: int, uuid: string, id: Option<int>): Result<(Store, Player)> {
    if |s.byId| >= s.maxPlayers then Err(RoomFull)
    else if session in s.bySession then Err(SessionTaken)
    else if uuid in s.byUuid then Err(UuidTaken)
    else
      match id
      case None =>
        (match AllocateId(s)
         case None => Err(NoIds)
         case Some(got) => Ok((Insert(got.0, Player(got.1, uuid, session)), Player(got.1, uuid, session))))
      case Some(wanted) =>
        match ClaimId(s, wanted)
        case Err(e) => Err(e)
        case Ok(s') => Ok((Insert(s', Player(wanted, uuid, session)), Player(wanted, uuid, session)))
  }

  function RemoveBySession(s: Store, session: int): Store {
    if session !in s.bySession then s
    else
      var p := s.bySession[session];
      s.(byId := if p.id in s.byId && s.byId[p.id] == p then s.byId - {p.id} else s.byId,
         bySession := s.bySession - {session},
         byUuid := if p.uuid in s.byUuid && s.byUuid[p.uuid] == p then s.byUuid - {p.uuid} else s.byUuid)
  }

  lemma InsertKeepsOthers(s: Store, p: Player, q: Player)
    requires p.id !in s.byId && p.session !in s.bySession && p.uuid !in s.byUuid
    requires Indexed(s, q) || q == p
    ensures Indexed(Insert(s, p), q)
  {}

  lemma InsertKeepsValid(s: Store, p: Player)
    requires Valid(s) && |s.byId| < s.maxPlayers && IsId(p.id) && p.id !in s.reserved
    requires p.id !in s.byId && p.session !in s.bySession && p.uuid !in s.byUuid
    ensures Valid(Insert(s, p))
  {
    hide Indexed;
    var t := Insert(s, p);
    forall q | Indexed(s, q) || q == p
      ensures Indexed(t, q)
    {
      InsertKeepsOthers(s, p, q);
    }
    assert IdsIndexed(t) && SessionsIndexed(t) && UuidsIndexed(t);
    assert t.byId.Keys == s.byId.Keys + {p.id};
  }

  /** A successful add yields a fresh player under an id that was neither stored nor, if allocated, reserved. */
  lemma AddKeepsValid(s: Store, session: int, uuid: string, id: Option<int>)
    requires Valid(s)
    ensures Add(s, session, uuid, id).Ok? ==>
              var (s', p) := Add(s, session, uuid, id).value;
              && Valid(s') && s'.byId == s.byId[p.id := p] && p.id !in s.byId
              && p.uuid == uuid && p.session == session
              && (if id.Some? then p.id == id.value else p.id !in s.reserved)
  {
    if Add(s, session, uuid, id).Ok? {
      var p := Add(s, session, uuid, id).value.1;
      if id.Some? {
        InsertKeepsValid(ClaimId(s, id.value).value, p);
      } else {
        FailsOnlyWhenNoneFree(s);
        InsertKeepsValid(AllocateId(s).value.0, p);
      }
    }
  }

  lemma RemoveKeepsValid(s: Store, session: int)
    requires Valid(s)
    ensures Valid(RemoveBySession(s, session)) && session !in RemoveBySession(s, session).bySession
  {
    if session in s.bySession {
      assert RemoveBySession(s, session).byId.Keys <= s.byId.Keys;
    }
  }

  lemma IdStepsKeepValid(s: Store, id: int)
    requires Valid(s)
    ensures ReserveId(s, id).Ok? ==> Valid(ReserveId(s, id).value)
    ensures Valid(ReleaseReservedId(s, id))
    ensures AllocateId(s).Some? ==> Valid(AllocateId(s).value.0)
  {}

  /** Removing what was just added restores the player set exactly. */
  lemma RemoveUndoesAdd(s: Store, session: int, uuid: string, id: Option<int>)
    requires Valid(s) && Add(s, session, uuid, id).Ok?
    ensures var s' := RemoveBySession(Add(s, session, uuid, id).value.0, session);
            s'.byId == s.byId && s'.bySession == s.bySession && s'.byUuid == s.byUuid
  {
    hide Valid;
    AddKeepsValid(s, session, uuid, id);
    var (added, p) := Add(s, session, uuid, id).value;
    RemoveUndoesInsert(s, added, p);
  }

  lemma RemoveUndoesInsert(s: Store, added: Store, p: Player)
    requires p.id !in s.byId && p.session !in s.bySession && p.uuid !in s.byUuid
    requires added.byId == s.byId[p.id := p]
    requires added.bySession == s.bySession[p.session := p] && added.byUuid == s.byUuid[p.uuid := p]
    ensures var s' := RemoveBySession(added, p.session);
            s'.byId == s.byId && s'.bySession == s.bySession && s'.byUuid == s.byUuid
  {
    var s' := RemoveBySession(added, p.session);
    assert s'.byId == s.byId && s'.bySession == s.bySession && s'.byUuid == s.byUuid;
  }

  // ----- The object -----

  class PlayerStore {
    const maxPlayers: nat
    var playersById: map<int, Player>
    var playersBySession: map<int, Player>
    var playersByUuid: map<string, Player>
    var reservedIds: set<int>
    var netIdCount: int

    ghost function State(): Store
      reads this
    {
      Store(maxPlayers, playersById, playersBySession, playersByUuid, reservedIds, netIdCount)
    }

    constructor (maxPlayers: nat := 8)
      ensures State() == Empty(maxPlayers) && Valid(State())
    {
      this.maxPlayers := maxPlayers;
      playersById, playersBySession, playersByUuid, reservedIds, netIdCount := map[], map[], map[], {}, 0;
    }

    method AddPlayer(session: int, uuid: string, id: Option<int>) returns (r: Result<Player>)
      requires Valid(State())
      modifies this
      ensures Valid(State())
      ensures match Add(old(State()), session, uuid, id)
              case Err(e) => r == Err(e) && State() == old(State())
              case Ok(added) => r == Ok(added.1) && State() == added.0
    {
      AddKeepsValid(State(), session, uuid, id);
      if |playersById| >= maxPlayers {
        return Err(RoomFull);
      }
      if session in playersBySession {
        return Err(SessionTaken);
      }
      if uuid in playersByUuid {
        return Err(UuidTaken);
      }
      var playerId: Result<int>;
      if id == None {
        playerId := Allocate();
      } else {
        playerId := Claim(id.value);
      }
      if playerId.Err? {
        return Err(playerId.error);
      }
      var player := Player(playerId.value, uuid, session);
      playersById := playersById[player.id := player];
      playersBySession := playersBySession[session := player];
      playersByUuid := playersByUuid[uuid := player];
      return Ok(player);
    }

    /** allocateId. */
    method Allocate() returns (r: Result<int>)
      modifies this
      ensures match AllocateId(old(State()))
              case None => r == Err(NoIds) && State() == old(State())
              case Some(got) => r == Ok(got.1) && State() == got.0
    {
      hide Nth, After;
      var start := if netIdCount == 0 then 1 else netIdCount;
      var offset := 0;
      while offset < MAX_IDS
        invariant 0 <= offset <= MAX_IDS
        invariant State() == old(State())
        invariant FirstFree(State(), offset) == FirstFree(State(), 0)
      {
        var id := Nth(start, offset);
        if !(id in playersById || id in reservedIds) {
          netIdCount := After(id);
          return Ok(id);
        }
        offset := offset + 1;
      }
      return Err(NoIds);
    }

    method Reserve(id: int) returns (ok: bool)
      modifies this`reservedIds
      ensures ok <==> ReserveId(old(State()), id).Ok?
      ensures State() == if ok then ReserveId(old(State()), id).value else old(State())
    {
      if id < 1 || id > 0xff || id in playersById {
        return false;
      }
      reservedIds := reservedIds + {id};
      return true;
    }

    method Release(id: int)
      modifies this`reservedIds
      ensures State() == ReleaseReservedId(old(State()), id)
    {
      reservedIds := reservedIds - {id};
    }

    /** claimId. */
    method Claim(id: int) returns (r: Result<int>)
      modifies this
      ensures match ClaimId(old(State()), id)
              case Err(e) => r == Err(e) && State() == old(State())
              case Ok(s) => r == Ok(id) && State() == s
    {
      if id < 1 || id > 0xff || id in playersById {
        return Err(IdUnavailable);
      }
      reservedIds := reservedIds - {id};
      netIdCount := After(id);
      return Ok(id);
    }

    method Remove(session: int) returns (r: Option<Player>)
      requires Valid(State())
      modifies this
      ensures Valid(State()) && State() == RemoveBySession(old(State()), session)
      ensures r == if session in old(playersBySession) then Some(old(playersBySession)[session]) else None
    {
      RemoveKeepsValid(State(), session);
      if session !in playersBySession {
        return None;
      }
      var player := playersBySession[session];
      if player.id in playersById && playersById[player.id] == player {
        playersById := playersById - {player.id};
      }
      playersBySession := playersBySession - {session};
      if player.uuid in playersByUuid && playersByUuid[player.uuid] == player {
        playersByUuid := playersByUuid - {player.uuid};
      }
      return Some(player);
    }
  }
}
