/**
 * Runs of a room of eight players, the capacity the server fixes, in which ids run short: groups of
 * seven keep arriving, each with players of its own; one member of each joins and leaves again, and
 * no roster expires meanwhile.
 */
module RosterRuns {
  import opened Options
  import opened PlayerStores
  import opened MigrationRosters
  import opened RosterLeaks
  import K = RosterKeys

  const HEX := "0123456789abcdef"

  /** The j-th player of the k-th group. */
  function Uuid(k: nat, j: nat): string
    requires k < 256 && j < 16
  {
    "00000000-0000-0000-0000-000000000" + [HEX[k / 16], HEX[k % 16], HEX[j]]
  }

  const Resident := Player(1, Uuid(255, 0), 0)

  function Group(k: nat): (g: seq<string>)
    requires k < 256
    ensures |g| == 7 && forall j :: 0 <= j < 7 ==> g[j] == Uuid(k, j)
  {
    seq(7, j requires 0 <= j < 7 => Uuid(k, j))
  }

  const Start8 := Room(Empty(8), map[])

  /** The join of the k-th group's first member, which lists the whole group. */
  function Arrival(k: nat): (p: K.Payload)
    requires k < 256
    ensures |p.players| == 7 && forall j :: 0 <= j < 7 ==> p.players[j] == Some(Group(k)[j])
  {
    K.Payload(Some(Uuid(k, 0)), true, seq(7, j requires 0 <= j < 7 => Some(Group(k)[j])))
  }

  function Key(k: nat): string
    requires k < 256
  {
    K.MoveKey(Group(k))
  }

  function Arrive(k: nat): Event
    requires k < 256
  {
    Join(k + 1, Uuid(k, 0), ClaimOf(Arrival(k), [], 0), true)
  }

  /** The resident joins, then k groups come one after another. */
  function Groups(k: nat): seq<Event>
    requires k <= 42
  {
    if k == 0 then [Join(0, Uuid(255, 0), ClaimOf(Lone(), [], 0), true)] else Groups(k - 1) + [Arrive(k - 1), Leave(k)]
  }

  /** The resident's own join lists nobody. */
  function Lone(): K.Payload {
    K.Payload(Some(Uuid(255, 0)), false, [])
  }

  // ----- What the server can receive -----

  /** A join is one of a payload that the packet's decoder yields, in a room without reservations. */
  ghost predicate Receivable(e: Event) {
    e.Join? ==> exists p, now :: K.Receivable(p) && p.own == Some(e.uuid) && e.claim == ClaimOf(p, [], now)
  }

  lemma UuidIs(k: nat, j: nat)
    requires k < 256 && j < 16
    ensures K.IsUuid(Uuid(k, j))
  {
    var u := Uuid(k, j);
    assert K.IsHexDigit(u[33]) && K.IsHexDigit(u[34]) && K.IsHexDigit(u[35]);
    assert forall i :: 0 <= i < 33 ==> u[i] == "00000000-0000-0000-0000-000000000"[i];
  }

  /** Different groups share no player. */
  lemma UuidsDiffer(k: nat, j: nat, k': nat, j': nat)
    requires k < 256 && j < 16 && k' < 256 && j' < 16 && Uuid(k, j) == Uuid(k', j')
    ensures k == k' && j == j'
  {
    var u, v := Uuid(k, j), Uuid(k', j');
    assert u[33] == v[33] && u[34] == v[34] && u[35] == v[35];
    HexDiffers(k / 16, k' / 16);
    HexDiffers(k % 16, k' % 16);
    HexDiffers(j, j');
  }

  lemma HexDiffers(a: nat, b: nat)
    requires a < 16 && b < 16 && HEX[a] == HEX[b]
    ensures a == b
  {}

  lemma NoComma(u: string)
    requires K.IsUuid(u)
    ensures u != "" && ',' !in u
  {}

  lemma {:induction false} PresentAll(players: seq<Option<string>>, uuids: seq<string>)
    requires |players| == |uuids| && forall j :: 0 <= j < |uuids| ==> players[j] == Some(uuids[j]) && uuids[j] != ""
    ensures K.Present(players) == uuids
  {
    if players != [] {
      PresentAll(players[1..], uuids[1..]);
      assert uuids == [uuids[0]] + uuids[1..];
    }
  }

  /** The claim is keyed by the group's own list, and the packet that makes it can be received. */
  lemma ArriveIsReceivable(k: nat)
    requires k < 256
    ensures ClaimOf(Arrival(k), [], 0) == Some(ClaimRequest(Key(k), Group(k), 0))
    ensures K.Receivable(Arrival(k)) && Receivable(Arrive(k))
    ensures K.Plain(Group(k))
  {
    hide Uuid, K.IsUuid, K.MoveKey, K.Present;
    forall j | 0 <= j < 7
      ensures K.IsUuid(Group(k)[j]) && Group(k)[j] != "" && ',' !in Group(k)[j]
    {
      UuidIs(k, j);
      NoComma(Uuid(k, j));
    }
    var p := Arrival(k);
    PresentAll(p.players, Group(k));
    assert Group(k)[0] in Group(k);
    assert K.Covering([], Uuid(k, 0), Group(k)) == None;
  }

  lemma LoneIsReceivable()
    ensures ClaimOf(Lone(), [], 0) == None && Receivable(Join(0, Uuid(255, 0), None, true))
  {
    UuidIs(255, 0);
    assert K.Receivable(Lone());
  }

  /** Each group brings a key of its own. */
  lemma KeysDiffer(i: nat, k: nat)
    requires i < k < 256
    ensures Key(i) != Key(k)
  {
    hide Uuid, K.MoveKey, Arrival;
    ArriveIsReceivable(i);
    ArriveIsReceivable(k);
    K.KeysAgreeIff(Group(i), Group(k));
    if Key(i) == Key(k) {
      assert Group(i)[0] in multiset(Group(i));
      assert Group(i)[0] in Group(k);
      var j :| 0 <= j < 7 && Group(k)[j] == Group(i)[0];
      UuidsDiffer(k, j, i, 0);
      assert false;
    }
  }

  /** One resident is stored and k rosters of seven are live, each of which has cost six free ids. */
  ghost predicate Siege(m: Room, k: nat) {
    && Valid(m.store) && OnlyStored(m.store, Resident)
    && |FreeIds(m.store)| == 254 - 6 * k
    && forall key :: key in m.rosters ==>
         KeyBefore(key, k) && |Ids(m.rosters[key].entries)| == 7 && 1 !in Ids(m.rosters[key].entries)
  }

  ghost predicate KeyBefore(key: string, k: nat) {
    exists i: nat :: i < k && i < 256 && key == Key(i)
  }

  lemma KeyIsNew(k: nat)
    requires k < 256
    ensures !KeyBefore(Key(k), k)
  {
    hide Key;
    if i: nat :| i < k && i < 256 && Key(k) == Key(i) {
      KeysDiffer(i, k);
      assert false;
    }
  }

  lemma {:induction false} RunConcat(m: Room, a: seq<Event>, b: seq<Event>)
    ensures Run(m, a + b) == Run(Run(m, a), b)
    decreases |a|
  {
    if a == [] {
      assert a + b == b;
    } else {
      assert (a + b)[1..] == a[1..] + b && (a + b)[0] == a[0];
      RunConcat(Step(m, a[0]), a[1..], b);
    }
  }

  lemma RunTwo(m: Room, a: Event, b: Event)
    ensures Run(m, [a, b]) == Step(Step(m, a), b)
  {
    assert [a, b][1..] == [b] && [b][1..] == [];
    assert Run(Step(m, a), [b]) == Run(Step(Step(m, a), b), []);
  }

  // ----- Counting -----

  function Range(n: nat): set<int> {
    if n == 0 then {} else Range(n - 1) + {n}
  }

  lemma {:induction false} RangeSize(n: nat)
    ensures |Range(n)| == n && forall i :: i in Range(n) <==> 1 <= i <= n
  {
    if n > 0 {
      RangeSize(n - 1);
    }
  }

  lemma ResidentJoins()
    ensures Siege(Run(Start8, Groups(0)), 0) && Run(Start8, Groups(0)).rosters == map[]
  {
    LoneIsReceivable();
    var e := Join(0, Resident.uuid, None, true);
    assert [e][1..] == [];
    hide Uuid;
    var m := Step(Start8, e);
    assert Run(Start8, [e]) == Run(m, []);
    assert Nth(1, 0) == 1 && Free(Empty(8), 1);
    assert FirstFree(Empty(8), 0) == 0;
    RangeSize(255);
    assert FreeIds(m.store) == Range(255) - {1};
    AddKeepsValid(Empty(8), 0, Resident.uuid, None);
  }

  // ----- One group -----

  lemma {:induction false} EntriesAreGroup(s: Store, uuids: seq<string>)
    requires ReserveFor(s, uuids).complete
    ensures |ReserveFor(s, uuids).entries| == |uuids|
    ensures forall i :: 0 <= i < |uuids| ==> ReserveFor(s, uuids).entries[i].uuid == uuids[i]
    decreases |uuids|
  {
    hide AllocateId, ReserveId;
    if uuids != [] {
      var got := AllocateId(s).value;
      EntriesAreGroup(ReserveId(got.0, got.1).value, uuids[1..]);
    }
  }

  lemma {:induction false} ReserveForPlayers(s: Store, uuids: seq<string>)
    ensures var t := ReserveFor(s, uuids).store;
            t.byId == s.byId && t.bySession == s.bySession && t.byUuid == s.byUuid && t.maxPlayers == s.maxPlayers
    decreases |uuids|
  {
    hide FirstFree, Nth, After;
    if uuids != [] && AllocateId(s).Some? {
      var got := AllocateId(s).value;
      if ReserveId(got.0, got.1).Ok? {
        ReserveForPlayers(ReserveId(got.0, got.1).value, uuids[1..]);
      }
    }
  }

  /** What the k-th group does: its roster is announced, its first member is in and out again. */
  ghost predicate GroupCame(m: Room, m': Room, key: string, taken: set<int>) {
    && taken <= FreeIds(m.store) && |taken| == 7
    && m'.rosters.Keys == m.rosters.Keys + {key}
    && Ids(m'.rosters[key].entries) == taken
    && (forall k :: k in m.rosters ==> m'.rosters[k] == m.rosters[k])
  }

  ghost predicate SomeGroupCame(m: Room, m': Room, key: string) {
    exists taken :: GroupCame(m, m', key, taken)
  }

  /** What a claim of seven amounts to, as long as seven ids are free. */
  lemma GroupClaims(m: Room, k: nat) returns (r: Reserved, claimed: Room, id: int)
    requires Siege(m, k) && k <= 41
    ensures var roster := Roster(r.entries, {}, ROSTER_TTL);
            && ClaimRoster(m, ClaimRequest(Key(k), Group(k), 0)) == Joined(claimed, roster)
            && claimed.rosters == m.rosters[Key(k) := roster]
    ensures Valid(claimed.store) && OnlyStored(claimed.store, Resident)
    ensures |r.entries| == 7 && forall i :: 0 <= i < 7 ==> r.entries[i].uuid == Group(k)[i]
    ensures Ids(r.entries) <= FreeIds(m.store) && |Ids(r.entries)| == 7
    ensures claimed.store.reserved == m.store.reserved + Ids(r.entries)
    ensures id in Ids(r.entries) && FindEntry(r.entries, Uuid(k, 0)) == Some(id)
    ensures Key(k) !in m.rosters
  {
    KeyIsNew(k);
    hide Valid, FreeIds, ReserveFor, Key, Uuid;
    r := ReserveFor(m.store, Group(k));
    ReserveForMeaning(m.store, Group(k));
    ReserveForPlayers(m.store, Group(k));
    assert |m.store.byId| == 1;
    EntriesAreGroup(m.store, Group(k));
    claimed := Room(r.store, m.rosters[Key(k) := Roster(r.entries, {}, ROSTER_TTL)]);
    id := r.entries[0].netId;
    assert r.entries[0] in r.entries;
  }

  lemma GroupComes(m: Room, k: nat)
    requires Siege(m, k) && k <= 41
    ensures var m' := Step(Step(m, Arrive(k)), Leave(k + 1));
            Siege(m', k + 1) && SomeGroupCame(m, m', Key(k))
  {
    hide Siege, Valid, FreeIds, ClaimRoster, JoinWith, Ids, FindEntry, Step, Arrive, Group, Key, Uuid;
    SiegeParts(m, k);
    var r, claimed, id := GroupClaims(m, k);
    FreeNotResident(m.store, Ids(r.entries));
    SomeoneElse(k, r.entries);
    NotResident(k);
    FirstMemberJoins(claimed, Key(k), Resident, k + 1, Uuid(k, 0), id);
    ArriveIs(m, k, claimed);
    AfterGroup(m, Step(Step(m, Arrive(k)), Leave(k + 1)), k, r.entries, id);
  }

  lemma SiegeParts(m: Room, k: nat)
    requires Siege(m, k)
    ensures Valid(m.store) && OnlyStored(m.store, Resident)
  {}

  lemma ArriveIs(m: Room, k: nat, claimed: Room)
    requires k < 256 && ClaimRoster(m, ClaimRequest(Key(k), Group(k), 0)).Joined?
    requires ClaimRoster(m, ClaimRequest(Key(k), Group(k), 0)).room == claimed
    ensures Step(m, Arrive(k)) == JoinWith(claimed, k + 1, Uuid(k, 0), Some(Key(k)), true)
  {
    ArriveIsReceivable(k);
    hide ClaimRoster, JoinWith, ClaimOf, Key, Uuid, Group;
  }

  lemma AfterGroup(m: Room, m': Room, k: nat, entries: seq<Entry>, id: int)
    requires k < 255 && Siege(m, k) && Key(k) !in m.rosters
    requires Valid(m'.store) && OnlyStored(m'.store, Resident)
    requires m'.rosters == m.rosters[Key(k) := Roster(entries, {Uuid(k, 0)}, ROSTER_TTL)]
    requires Ids(entries) <= FreeIds(m.store) && |Ids(entries)| == 7 && id in Ids(entries) && 1 !in Ids(entries)
    requires m'.store.reserved == m.store.reserved + Ids(entries) - {id}
    ensures Siege(m', k + 1) && SomeGroupCame(m, m', Key(k))
  {
    hide Valid, FreeIds, Ids, Key, Uuid, KeyBefore;
    FreeAfterGroup(m.store, m'.store, Ids(entries), id);
    KeyBeforeGrows(k);
    assert GroupCame(m, m', Key(k), Ids(entries));
  }

  lemma KeyBeforeGrows(k: nat)
    requires k < 256
    ensures KeyBefore(Key(k), k + 1) && forall key :: KeyBefore(key, k) ==> KeyBefore(key, k + 1)
  {}

  lemma FreeNotResident(s: Store, taken: set<int>)
    requires Valid(s) && OnlyStored(s, Resident) && taken <= FreeIds(s)
    ensures 1 !in taken && forall i :: i in taken ==> IsId(i)
  {}

  lemma FreeAfterGroup(s: Store, t: Store, taken: set<int>, id: int)
    requires taken <= FreeIds(s) && id in taken
    requires t.byId == s.byId && t.reserved == s.reserved + taken - {id}
    ensures FreeIds(t) == FreeIds(s) - taken + {id} && |FreeIds(t)| == |FreeIds(s)| - |taken| + 1
  {
    assert FreeIds(t) == FreeIds(s) - taken + {id};
    assert FreeIds(s) == FreeIds(s) - taken + taken;
  }

  /** Only the resident is stored. */
  predicate OnlyStored(s: Store, resident: Player) {
    && s.maxPlayers == 8 && s.byId == map[resident.id := resident]
    && s.bySession == map[resident.session := resident] && s.byUuid == map[resident.uuid := resident]
  }

  /** The first member claims its id, the rest of the group is still missing, and it leaves again. */
  lemma FirstMemberJoins(m: Room, key: string, resident: Player, session: int, uuid: string, id: int)
    requires Valid(m.store) && OnlyStored(m.store, resident)
    requires key in m.rosters && m.rosters[key].joined == {}
    requires exists e :: e in m.rosters[key].entries && e.uuid != uuid
    requires session != resident.session && uuid != resident.uuid && id != resident.id && IsId(id)
    requires FindEntry(m.rosters[key].entries, uuid) == Some(id)
    ensures var m' := Step(JoinWith(m, session, uuid, Some(key), true), Leave(session));
            && Valid(m'.store) && OnlyStored(m'.store, resident)
            && m'.store.reserved == m.store.reserved - {id}
            && m'.rosters == m.rosters[key := m.rosters[key].(joined := {uuid})]
  {
    var added := Add(m.store, session, uuid, Some(id));
    assert |m.store.byId| == 1;
    assert added.Ok?;
    AddKeepsValid(m.store, session, uuid, Some(id));
    RemoveKeepsValid(added.value.0, session);
    RemoveUndoesAdd(m.store, session, uuid, Some(id));
    var roster := m.rosters[key].(joined := {uuid});
    assert {} + {uuid} == {uuid};
    assert !AllJoined(roster);
  }

  lemma NotResident(k: nat)
    requires k < 255
    ensures Uuid(k, 0) != Resident.uuid
  {
    hide Uuid;
    if Uuid(k, 0) == Uuid(255, 0) {
      UuidsDiffer(k, 0, 255, 0);
    }
  }

  lemma SomeoneElse(k: nat, entries: seq<Entry>)
    requires k < 256 && |entries| == 7 && forall i :: 0 <= i < 7 ==> entries[i].uuid == Group(k)[i]
    ensures exists e :: e in entries && e.uuid != Uuid(k, 0)
  {
    UuidsApart(k);
    hide Uuid;
    assert entries[1] in entries && entries[1].uuid == Uuid(k, 1);
  }

  lemma UuidsApart(k: nat)
    requires k < 256
    ensures Uuid(k, 0) != Uuid(k, 1)
  {
    hide Uuid;
    if Uuid(k, 0) == Uuid(k, 1) {
      UuidsDiffer(k, 0, k, 1);
    }
  }

  lemma {:induction false} SiegeGoesOn(k: nat)
    requires k <= 42
    ensures Siege(Run(Start8, Groups(k)), k)
    ensures k > 0 ==> SomeGroupCame(Run(Start8, Groups(k - 1)), Run(Start8, Groups(k)), Key(k - 1))
  {
    hide Siege, SomeGroupCame, Step, Run, Arrive, Key;
    if k == 0 {
      ResidentJoins();
    } else {
      SiegeGoesOn(k - 1);
      var before := Run(Start8, Groups(k - 1));
      RunConcat(Start8, Groups(k - 1), [Arrive(k - 1), Leave(k)]);
      RunTwo(before, Arrive(k - 1), Leave(k));
      GroupComes(before, k - 1);
    }
  }

  // ----- A leak -----

  /** After 42 groups the resident leaves, and one more group of seven comes for the last three ids. */
  function LeakRun(): seq<Event> {
    Groups(42) + [Leave(0), Arrive(42)]
  }

  lemma {:induction false} GroupsReceivable(k: nat)
    requires k <= 42
    ensures forall e :: e in Groups(k) ==> Receivable(e)
  {
    hide Receivable, Arrive, ClaimOf;
    if k == 0 {
      LoneIsReceivable();
    } else {
      GroupsReceivable(k - 1);
      ArriveIsReceivable(k - 1);
      LeaveReceivable(k);
    }
  }

  lemma LeaveReceivable(session: nat)
    ensures Receivable(Leave(session))
  {}

  lemma LeakRunReceivable()
    ensures forall e :: e in LeakRun() ==> Receivable(e)
  {
    hide Receivable, Arrive;
    GroupsReceivable(42);
    ArriveIsReceivable(42);
    LeaveReceivable(0);
  }

  /**
   * In a room of eight an id leaks, and stays leaked whatever follows; the server can receive every join of
   * the run.
   */
  lemma EightPlayersCanLeak(more: seq<Event>)
    ensures Leaked(Run(Start8, LeakRun() + more), 1)
    ensures forall e :: e in LeakRun() ==> Receivable(e)
  {
    LeakRunReceivable();
    hide Run, Receivable, Leaked, Arrive, Siege, Groups, Valid, Step;
    SiegeGoesOn(42);
    var m := Run(Start8, Groups(42));
    RunConcat(Start8, Groups(42), [Leave(0), Arrive(42)]);
    RunTwo(m, Leave(0), Arrive(42));
    LastGroupLeaks(m);
    RunConcat(Start8, LeakRun(), more);
    LeakIsForGood(Run(Start8, LeakRun()), more, 1);
  }

  lemma LastGroupLeaks(m: Room)
    requires Siege(m, 42)
    ensures var m' := Step(Step(m, Leave(0)), Arrive(42));
            Valid(m'.store) && Leaked(m', 1)
  {
    ArriveIsReceivable(42);
    KeyIsNew(42);
    hide ReserveFor, Ids, Key, Uuid, ClaimOf, Group, KeyBefore, Arrival, Valid, FreeIds, ClaimRoster, RemoveBySession;
    var gone := Step(m, Leave(0));
    ResidentLeaves(m);
    var c := ClaimRequest(Key(42), Group(42), 0);
    LastClaim(gone, c);
    assert Step(gone, Arrive(42)) == ClaimRoster(gone, c).room;
  }

  lemma ResidentLeaves(m: Room)
    requires Siege(m, 42)
    ensures var gone := Step(m, Leave(0));
            && Valid(gone.store) && gone.store.byId == map[] && gone.store.maxPlayers == 8 && gone.rosters == m.rosters
            && 1 in FreeIds(gone.store) && |FreeIds(gone.store)| == 3
  {
    hide Ids, Key, Uuid, Group, KeyBefore;
    var gone := Step(m, Leave(0));
    RemoveKeepsValid(m.store, 0);
    assert gone.store.byId == map[];
    assert FreeIds(gone.store) == FreeIds(m.store) + {1};
  }

  lemma LastClaim(gone: Room, c: ClaimRequest)
    requires Valid(gone.store) && gone.store.byId == map[] && gone.store.maxPlayers == 8
    requires 1 in FreeIds(gone.store) && |FreeIds(gone.store)| == 3 && |c.uuids| == 7 && c.key !in gone.rosters
    requires forall key :: key in gone.rosters ==> 1 !in Ids(gone.rosters[key].entries)
    ensures ClaimRoster(gone, c).Threw?
    ensures Valid(ClaimRoster(gone, c).room.store) && Leaked(ClaimRoster(gone, c).room, 1)
  {
    hide Valid, FreeIds, ReserveFor, Ids;
    ReserveForMeaning(gone.store, c.uuids);
  }

  // ----- Two rosters with one id -----

  /** No two live rosters announce the same id. */
  ghost predicate Apart(m: Room) {
    forall k1, k2, i :: ListedUnder(m, k1, i) && ListedUnder(m, k2, i) ==> k1 == k2
  }

  ghost predicate IsListed(m: Room, i: int) {
    exists key :: ListedUnder(m, key, i)
  }

  ghost function Listed(m: Room): set<int> {
    set i | 2 <= i <= 255 && IsListed(m, i)
  }

  lemma ListingAfterGroup(m: Room, m': Room, key: string, taken: set<int>)
    requires GroupCame(m, m', key, taken) && key !in m.rosters
    ensures forall k, i :: ListedUnder(m', k, i) <==> (ListedUnder(m, k, i) || (k == key && i in taken))
  {
    hide Ids;
  }

  lemma ApartCounts(m: Room, m': Room, k: nat, taken: set<int>)
    requires k < 256 && Siege(m, k) && GroupCame(m, m', Key(k), taken) && Apart(m')
    ensures Apart(m) && Listed(m') == Listed(m) + taken && Listed(m) !! taken
  {
    KeyIsNew(k);
    hide Key;
    assert Key(k) !in m.rosters;
    TakenRange(m, taken);
    ListingAfterGroup(m, m', Key(k), taken);
    assert forall i :: !ListedUnder(m, Key(k), i);
    hide Siege, GroupCame, ListedUnder;
    forall i
      ensures IsListed(m', i) <==> IsListed(m, i) || i in taken
    {
      if i in taken {
        assert ListedUnder(m', Key(k), i);
      }
      if key :| ListedUnder(m, key, i) {
        assert ListedUnder(m', key, i);
      }
    }
    forall i | i in Listed(m)
      ensures i !in taken
    {
      var key :| ListedUnder(m, key, i);
      assert ListedUnder(m', key, i) && key != Key(k);
      var both := ListedUnder(m', Key(k), i);
    }
  }

  lemma TakenRange(m: Room, taken: set<int>)
    requires Valid(m.store) && OnlyStored(m.store, Resident) && taken <= FreeIds(m.store)
    ensures forall i :: i in taken ==> 2 <= i <= 255
  {}

  lemma {:induction false} ListedSize(k: nat)
    requires k <= 42 && Apart(Run(Start8, Groups(k)))
    ensures |Listed(Run(Start8, Groups(k)))| == 7 * k
  {
    hide Run, Siege, GroupCame, Apart, Listed, Groups;
    SiegeGoesOn(k);
    if k == 0 {
      ResidentJoins();
      NothingListed(Run(Start8, Groups(0)));
    } else {
      SiegeGoesOn(k - 1);
      var m, m' := Run(Start8, Groups(k - 1)), Run(Start8, Groups(k));
      var taken :| GroupCame(m, m', Key(k - 1), taken);
      ApartCounts(m, m', k - 1, taken);
      ListedSize(k - 1);
      assert |taken| == 7 by { TakenSeven(m, m', Key(k - 1), taken); }
    }
  }

  lemma TakenSeven(m: Room, m': Room, key: string, taken: set<int>)
    requires GroupCame(m, m', key, taken)
    ensures |taken| == 7
  {}

  lemma NothingListed(m: Room)
    requires m.rosters == map[]
    ensures Listed(m) == {}
  {}

  /** After 37 groups, with seven ids each out of 254, two live rosters announce the same id. */
  lemma RostersCanShare()
    ensures !Apart(Run(Start8, Groups(37)))
    ensures forall e :: e in Groups(37) ==> Receivable(e)
  {
    GroupsReceivable(37);
    hide Run, Apart, Groups, Receivable;
    var m := Run(Start8, Groups(37));
    if Apart(m) {
      ListedSize(37);
      RangeSize(255);
      SubsetSize(Listed(m), Range(255));
    }
  }

  lemma SubsetSize(a: set<int>, b: set<int>)
    requires a <= b
    ensures |a| <= |b|
  {
    assert a + (b - a) == b;
  }
}
