/**
 * Which roster a migrating join belongs to: the guards and the key of claimMigrationRoster in
 * src/session/RoomServer.js. Every member of a group must arrive at the same key, however its own
 * packet lists the group.
 */
module RosterKeys {
  import opened Options

  /** A reservation of the room directory: who may come. */
  datatype Reservation = Reservation(id: string, playerIds: set<string>)

  /** How many players a JoinGame packet may list (src/protocol/packets/client/JoinGamePacket.js). */
  const MAX_MOVE_PLAYERS := 7

  /** The parts of a JoinGame packet that matter; players is empty too where the packet has no list. */
  datatype Payload = Payload(own: Option<string>, moving: bool, players: seq<Option<string>>)

  /** A payload that the packet's decoder yields: few enough players, and each of them there. */
  predicate Receivable(p: Payload) {
    && |p.players| <= MAX_MOVE_PLAYERS && p.own.Some? && IsUuid(p.own.value)
    && forall u :: u in p.players ==> u.Some? && IsUuid(u.value)
  }

  /** The text of sixteen bytes: hexadecimal digits in groups of 8, 4, 4, 4 and 12. */
  predicate IsUuid(u: string) {
    |u| == 36 && forall i :: 0 <= i < 36 ==> if i in {8, 13, 18, 23} then u[i] == '-' else IsHexDigit(u[i])
  }

  predicate IsHexDigit(c: char) {
    '0' <= c <= '9' || 'a' <= c <= 'f'
  }

  /** The uuids that are there and not empty. */
  function Present(players: seq<Option<string>>): (uuids: seq<string>)
    ensures forall u :: u in uuids ==> u != ""
  {
    if players == [] then []
    else (if players[0].Some? && players[0].value != "" then [players[0].value] else []) + Present(players[1..])
  }

  predicate Covers(r: Reservation, own: string, uuids: seq<string>) {
    own in r.playerIds && forall u :: u in uuids ==> u in r.playerIds
  }

  /** The first reservation that names the whole group. */
  function Covering(reservations: seq<Reservation>, own: string, uuids: seq<string>): Option<string> {
    if reservations == [] then None
    else if Covers(reservations[0], own, uuids) then Some(reservations[0].id)
    else Covering(reservations[1..], own, uuids)
  }

  // ----- Sorting -----

  /** The order of JavaScript strings: by UTF-16 code units. */
  predicate AtMost(a: string, b: string) {
    a == "" || (b != "" && (a[0] < b[0] || (a[0] == b[0] && AtMost(a[1..], b[1..]))))
  }

  function Insert(x: string, sorted: seq<string>): seq<string> {
    if sorted == [] || AtMost(x, sorted[0]) then [x] + sorted else [sorted[0]] + Insert(x, sorted[1..])
  }

  function Sorted(uuids: seq<string>): seq<string> {
    if uuids == [] then [] else Insert(uuids[0], Sorted(uuids[1..]))
  }

  predicate Ordered(s: seq<string>) {
    s != [] ==> (forall t :: t in s ==> AtMost(s[0], t)) && Ordered(s[1..])
  }

  lemma {:induction false} AtMostTotal(a: string, b: string)
    ensures AtMost(a, b) || AtMost(b, a)
    ensures AtMost(a, b) && AtMost(b, a) ==> a == b
  {
    if a != "" && b != "" {
      AtMostTotal(a[1..], b[1..]);
      assert a == [a[0]] + a[1..] && b == [b[0]] + b[1..];
    }
  }

  lemma {:induction false} AtMostTransitive(a: string, b: string, c: string)
    requires AtMost(a, b) && AtMost(b, c)
    ensures AtMost(a, c)
  {
    if a != "" && a[0] == b[0] == c[0] {
      AtMostTransitive(a[1..], b[1..], c[1..]);
    }
  }

  lemma {:induction false} InsertKeepsOrder(x: string, sorted: seq<string>)
    requires Ordered(sorted)
    ensures Ordered(Insert(x, sorted)) && multiset(Insert(x, sorted)) == multiset{x} + multiset(sorted)
  {
    hide AtMost;
    if sorted == [] {
      assert [x][1..] == [];
      AtMostTotal(x, x);
    } else if AtMost(x, sorted[0]) {
      var r := [x] + sorted;
      forall t | t in r
        ensures AtMost(x, t)
      {
        AtMostTotal(x, x);
        if t in sorted {
          AtMostTransitive(x, sorted[0], t);
        }
      }
      assert r[1..] == sorted;
    } else {
      AtMostTotal(x, sorted[0]);
      InsertKeepsOrder(x, sorted[1..]);
      var rest := Insert(x, sorted[1..]);
      var r := [sorted[0]] + rest;
      assert r[1..] == rest && sorted == [sorted[0]] + sorted[1..];
      forall t | t in r
        ensures AtMost(sorted[0], t)
      {
        AtMostTotal(sorted[0], sorted[0]);
        assert t in multiset(rest) ==> t == x || t in multiset(sorted[1..]);
        assert t in rest ==> t in multiset(rest);
      }
    }
  }

  lemma {:induction false} SortedIsOrdered(uuids: seq<string>)
    ensures Ordered(Sorted(uuids)) && multiset(Sorted(uuids)) == multiset(uuids)
  {
    if uuids != [] {
      SortedIsOrdered(uuids[1..]);
      InsertKeepsOrder(uuids[0], Sorted(uuids[1..]));
      assert uuids == [uuids[0]] + uuids[1..];
    }
  }

  /** Two orderings of the same texts start with the same one. */
  lemma SameHead(a: seq<string>, b: seq<string>)
    requires Ordered(a) && Ordered(b) && multiset(a) == multiset(b) && a != []
    ensures b != [] && a[0] == b[0]
  {
    hide AtMost;
    assert a[0] in multiset(a);
    assert a[0] in b;
    assert b[0] in multiset(b);
    assert b[0] in a;
    AtMostTotal(a[0], b[0]);
  }

  lemma TailBag(a: seq<string>)
    requires a != []
    ensures multiset(a) == multiset{a[0]} + multiset(a[1..])
  {
    assert a == [a[0]] + a[1..];
  }

  lemma {:induction false} OneOrder(a: seq<string>, b: seq<string>)
    requires Ordered(a) && Ordered(b) && multiset(a) == multiset(b)
    ensures a == b
  {
    hide AtMost;
    if a == [] {
      if b != [] {
        SameHead(b, a);
      }
    } else {
      SameHead(a, b);
      TailBag(a);
      TailBag(b);
      assert multiset(a[1..]) == multiset(a) - multiset{a[0]} == multiset(b[1..]);
      OneOrder(a[1..], b[1..]);
      assert a == [a[0]] + a[1..] && b == [b[0]] + b[1..];
    }
  }

  // ----- Keys -----

  /** Array.join(','). */
  function Joined(parts: seq<string>): string {
    if parts == [] then "" else if |parts| == 1 then parts[0] else parts[0] + "," + Joined(parts[1..])
  }

  function MoveKey(uuids: seq<string>): string {
    "move:" + Joined(Sorted(uuids))
  }

  predicate Plain(uuids: seq<string>) {
    forall u :: u in uuids ==> u != "" && ',' !in u
  }

  /** A plain text before a comma can be told from what follows. */
  lemma {:induction false} CutAtComma(a: string, b: string, x: string, y: string)
    requires ',' !in a && ',' !in b && a + "," + x == b + "," + y
    ensures a == b && x == y
  {
    FirstUnit(a, x);
    FirstUnit(b, y);
    if a == "" || b == "" {
      assert a == b;
      assert a + "," + x == "," + x && b + "," + y == "," + y;
      assert ("," + x)[1..] == x && ("," + y)[1..] == y;
    } else {
      assert (a + "," + x)[1..] == a[1..] + "," + x && (b + "," + y)[1..] == b[1..] + "," + y;
      CutAtComma(a[1..], b[1..], x, y);
      assert a == [a[0]] + a[1..] && b == [b[0]] + b[1..];
    }
  }

  lemma FirstUnit(a: string, x: string)
    ensures (a + "," + x)[0] == if a == "" then ',' else a[0]
    ensures a != "" ==> a[0] in a
  {}

  lemma {:induction false} JoinedInjective(a: seq<string>, b: seq<string>)
    requires Plain(a) && Plain(b) && Joined(a) == Joined(b)
    ensures a == b
  {
    if a == [] || b == [] {
      NotEmpty(a);
      NotEmpty(b);
    } else {
      var x, y := Joined(a[1..]), Joined(b[1..]);
      assert a[0] in a && b[0] in b;
      HasComma(a);
      HasComma(b);
      if |a| == 1 && |b| == 1 {
        assert a == [a[0]] && b == [b[0]];
      } else if |a| == 1 || |b| == 1 {
        assert false;
      } else {
        CutAtComma(a[0], b[0], x, y);
        assert forall u :: u in a[1..] ==> u in a;
        assert forall u :: u in b[1..] ==> u in b;
        JoinedInjective(a[1..], b[1..]);
        assert a == [a[0]] + a[1..] && b == [b[0]] + b[1..];
      }
    }
  }

  lemma HasComma(a: seq<string>)
    ensures |a| > 1 ==> ',' in Joined(a)
  {
    if |a| > 1 {
      assert Joined(a)[|a[0]|] == ',';
    }
  }

  lemma NotEmpty(a: seq<string>)
    requires Plain(a)
    ensures Joined(a) == "" <==> a == []
  {
    assert a != [] ==> a[0] in a;
  }

  /** Two joins without a reservation meet in one roster exactly when they list the same group, in any order. */
  lemma KeysAgreeIff(a: seq<string>, b: seq<string>)
    requires Plain(a) && Plain(b)
    ensures MoveKey(a) == MoveKey(b) <==> multiset(a) == multiset(b)
  {
    hide Sorted, Joined, Ordered;
    SortedIsOrdered(a);
    SortedIsOrdered(b);
    if multiset(a) == multiset(b) {
      OneOrder(Sorted(a), Sorted(b));
    }
    if MoveKey(a) == MoveKey(b) {
      assert MoveKey(a)[5..] == Joined(Sorted(a)) && MoveKey(b)[5..] == Joined(Sorted(b));
      PlainSorted(a);
      PlainSorted(b);
      JoinedInjective(Sorted(a), Sorted(b));
    }
  }

  lemma PlainSorted(a: seq<string>)
    requires Plain(a)
    ensures Plain(Sorted(a))
  {
    SortedIsOrdered(a);
    forall u | u in Sorted(a)
      ensures u != "" && ',' !in u
    {
      assert u in multiset(Sorted(a));
      assert u in multiset(a);
      assert u in a;
    }
  }

  /** The key of the roster a join belongs to; None where it is no migration. */
  function KeyFor(p: Payload, reservations: seq<Reservation>): Option<string> {
    var uuids := Present(p.players);
    if p.players == [] || p.own == None || p.own.value == "" || p.own.value !in uuids then None
    else
      var reservation := Covering(reservations, p.own.value, uuids);
      if !p.moving && (reservation == None || reservation.value == "") then None
      else Some(if reservation.Some? then reservation.value else MoveKey(uuids))
  }

  method ListPresent(players: seq<Option<string>>) returns (uuids: seq<string>)
    ensures uuids == Present(players)
  {
    uuids := [];
    assert players[0..] == players;
    var i := 0;
    while i < |players|
      invariant 0 <= i <= |players|
      invariant Present(players) == uuids + Present(players[i..])
    {
      assert players[i..][1..] == players[i + 1..];
      if players[i].Some? && players[i].value != "" {
        uuids := uuids + [players[i].value];
      }
      i := i + 1;
    }
  }

  method FindCovering(reservations: seq<Reservation>, own: string, uuids: seq<string>) returns (id: Option<string>)
    ensures id == Covering(reservations, own, uuids)
  {
    assert reservations[0..] == reservations;
    var i := 0;
    while i < |reservations|
      invariant 0 <= i <= |reservations|
      invariant Covering(reservations, own, uuids) == Covering(reservations[i..], own, uuids)
    {
      assert reservations[i..][1..] == reservations[i + 1..];
      if own in reservations[i].playerIds && forall u :: u in uuids ==> u in reservations[i].playerIds {
        return Some(reservations[i].id);
      }
      i := i + 1;
    }
    id := None;
  }

  method ChooseKey(p: Payload, reservations: seq<Reservation>) returns (key: Option<string>, uuids: seq<string>)
    ensures uuids == Present(p.players) && key == KeyFor(p, reservations)
  {
    uuids := ListPresent(p.players);
    if p.players == [] || p.own == None || p.own.value == "" || p.own.value !in uuids {
      return None, uuids;
    }
    var reservation := FindCovering(reservations, p.own.value, uuids);
    if !p.moving && (reservation == None || reservation.value == "") {
      return None, uuids;
    }
    key := Some(if reservation.Some? then reservation.value else MoveKey(uuids));
  }
}
