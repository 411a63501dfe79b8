/** Pushing the roster to the panel: the requests made of the local tables, the card table they
    lead to, and how that table compares with the local decision. */
module RosterPush {
  import opened Basics
  import opened Wire
  import opened CommandQueue
  import opened PanelLink
  import opened PushController
  import opened PushServer
  import opened Roster

  // ---- what the tables provision ----

  predicate Filled(v: Option<string>) {
    v.Some? && v.value != ""
  }

  function FastagCards(rows: seq<VehicleRow>): set<string> {
    set r | r in rows && Filled(r.fastag) :: r.fastag.value
  }

  function RfidCards(rows: seq<VehicleRow>): set<string> {
    set r | r in rows && Filled(r.rfid) :: r.rfid.value
  }

  function LastingCards(rows: seq<CardRow>): set<string> {
    set r | r in rows && Filled(r.uid) && r.expiresAt.None? :: r.uid.value
  }

  predicate StillValid(r: CardRow, now: Time) {
    Filled(r.uid) && r.expiresAt.Some? && r.expiresAt.value > now
  }

  function TimedCards(rows: seq<CardRow>, now: Time): set<string> {
    set r | r in rows && StillValid(r, now) :: r.uid.value
  }

  function BlockedTags(rows: seq<BlockRow>): set<string> {
    set r | r in rows && Filled(r.fastag) :: r.fastag.value
  }

  function BlockedUids(rows: seq<BlockRow>): set<string> {
    set r | r in rows && Filled(r.rfid) :: r.rfid.value
  }

  function Permanent(db: Db): set<string> {
    FastagCards(db.whitelist) + RfidCards(db.whitelist) + LastingCards(db.cards)
  }

  function Provisioned(db: Db, now: Time): set<string> {
    Permanent(db) + TimedCards(db.cards, now)
  }

  function Blocked(db: Db): set<string> {
    BlockedTags(db.blacklist) + BlockedUids(db.blacklist)
  }

  // ---- the sorted bulk ----

  /** Lexicographic order of texts. */
  predicate Less(a: string, b: string) {
    if a == [] then b != []
    else b != [] && (a[0] < b[0] || (a[0] == b[0] && Less(a[1..], b[1..])))
  }

  function InsertCard(c: string, s: seq<string>): seq<string> {
    if s == [] || Less(c, s[0]) then [c] + s
    else if c == s[0] then s
    else [s[0]] + InsertCard(c, s[1..])
  }

  function SortedSet(cards: seq<string>): seq<string> {
    if cards == [] then [] else InsertCard(cards[0], SortedSet(cards[1..]))
  }

  function Held(v: Option<string>): set<string> {
    if Filled(v) then {v.value} else {}
  }

  function IfFilled(v: Option<string>): seq<string> {
    if Filled(v) then [v.value] else []
  }

  function FastagList(rows: seq<VehicleRow>): seq<string> {
    if rows == [] then [] else IfFilled(rows[0].fastag) + FastagList(rows[1..])
  }

  function RfidList(rows: seq<VehicleRow>): seq<string> {
    if rows == [] then [] else IfFilled(rows[0].rfid) + RfidList(rows[1..])
  }

  function LastingList(rows: seq<CardRow>): seq<string> {
    if rows == [] then []
    else (if rows[0].expiresAt.None? then IfFilled(rows[0].uid) else []) + LastingList(rows[1..])
  }

  /** The three queries, joined, deduplicated and sorted. */
  function Bulk(db: Db): seq<string> {
    SortedSet(FastagList(db.whitelist) + RfidList(db.whitelist) + LastingList(db.cards))
  }

  predicate Ascending(s: seq<string>) {
    forall i, j :: 0 <= i < j < |s| ==> Less(s[i], s[j])
  }

  lemma {:induction false} LessIsTotal(a: string, b: string)
    ensures Less(a, b) || a == b || Less(b, a)
    ensures !(Less(a, b) && Less(b, a)) && !Less(a, a)
  {
    if a != [] {
      if b != [] {
        LessIsTotal(a[1..], b[1..]);
        assert a == [a[0]] + a[1..] && b == [b[0]] + b[1..];
      }
      LessIsTotal(a[1..], a[1..]);
    }
  }

  lemma {:induction false} LessIsTransitive(a: string, b: string, c: string)
    requires Less(a, b) && Less(b, c)
    ensures Less(a, c)
  {
    if a != [] && b != [] && c != [] && a[0] == b[0] == c[0] { LessIsTransitive(a[1..], b[1..], c[1..]); }
  }

  lemma {:induction false} InsertCardKeeps(c: string, s: seq<string>)
    requires Ascending(s)
    ensures Ascending(InsertCard(c, s))
    ensures forall v :: v in InsertCard(c, s) <==> v == c || v in s
  {
    if s != [] {
      LessIsTotal(c, s[0]);
      if Less(c, s[0]) {
        forall j | 0 < j < |s| ensures Less(c, s[j]) { LessIsTransitive(c, s[0], s[j]); }
      } else if c != s[0] {
        InsertCardKeeps(c, s[1..]);
        assert s == [s[0]] + s[1..];
        var rest := InsertCard(c, s[1..]);
        forall k | 0 <= k < |rest| ensures Less(s[0], rest[k]) { assert rest[k] in rest; }
      }
    }
  }

  lemma {:induction false} SortedSetMeans(cards: seq<string>)
    ensures Ascending(SortedSet(cards))
    ensures forall v :: v in SortedSet(cards) <==> v in cards
  {
    if cards != [] {
      SortedSetMeans(cards[1..]);
      InsertCardKeeps(cards[0], SortedSet(cards[1..]));
      assert cards == [cards[0]] + cards[1..];
    }
  }

  /** `list` holds the members of `cards`. */
  ghost predicate Lists(list: seq<string>, cards: set<string>) {
    forall v :: v in list <==> v in cards
  }

  lemma {:induction false} VehicleQueries(rows: seq<VehicleRow>)
    ensures Lists(FastagList(rows), FastagCards(rows)) && Lists(RfidList(rows), RfidCards(rows))
  {
    if rows != [] {
      VehicleQueries(rows[1..]);
      var r := rows[0];
      assert FastagCards(rows) == Held(r.fastag) + FastagCards(rows[1..]);
      assert RfidCards(rows) == Held(r.rfid) + RfidCards(rows[1..]);
    }
  }

  lemma {:induction false} LastingQuery(rows: seq<CardRow>)
    ensures Lists(LastingList(rows), LastingCards(rows))
  {
    if rows != [] {
      LastingQuery(rows[1..]);
      var v := if rows[0].expiresAt.None? then rows[0].uid else None;
      assert LastingCards(rows) == Held(v) + LastingCards(rows[1..]);
    }
  }

  /** The bulk push names every permanent card once, in ascending order. */
  lemma BulkIsPermanent(db: Db)
    ensures Ascending(Bulk(db)) && Lists(Bulk(db), Permanent(db))
  {
    var f, r, c := FastagList(db.whitelist), RfidList(db.whitelist), LastingList(db.cards);
    VehicleQueries(db.whitelist);
    LastingQuery(db.cards);
    SortedSetMeans(f + r + c);
  }

  // ---- the requests ----

  predicate NeedsWindow(r: CardRow, bulk: seq<string>, now: Time) {
    StillValid(r, now) && r.uid.value !in bulk
  }

  function WindowedPut(r: CardRow, show: Time -> string): Request
    requires Filled(r.uid) && r.expiresAt.Some?
  {
    PutCard(r.uid.value, UserInfo("", "0", show(r.expiresAt.value), ""))
  }

  /** Expiring cards that no permanent credential supersedes, each with its validity window. */
  function TimedPuts(rows: seq<CardRow>, bulk: seq<string>, now: Time, show: Time -> string): seq<Request> {
    if rows == [] then []
    else
      var r := rows[|rows| - 1];
      TimedPuts(rows[..|rows| - 1], bulk, now, show) +
      if NeedsWindow(r, bulk, now) then [WindowedPut(r, show)] else []
  }

  function DropIfFilled(v: Option<string>): seq<Request> {
    if Filled(v) then [DropCard(v.value)] else []
  }

  function Drops(rows: seq<BlockRow>): seq<Request> {
    if rows == [] then []
    else
      var r := rows[|rows| - 1];
      Drops(rows[..|rows| - 1]) + DropIfFilled(r.fastag) + DropIfFilled(r.rfid)
  }

  /** Everything `push_cards_to_c3` asks of the panel, in order; `show` renders an expiry time. */
  function PushRequests(db: Db, now: Time, show: Time -> string): seq<Request> {
    Puts(Bulk(db)) + TimedPuts(db.cards, Bulk(db), now, show) + Drops(db.blacklist)
  }

  method PushCardsToC3(db: Db, c3: C3PushController, online: bool, now: Time, show: Time -> string) returns (count: nat)
    requires c3.syncChunk >= 1
    modifies c3.server
    ensures var s := c3.server;
            if c3.started && online then
              && Queued(s, old(s.State()), old(s.nextId), PushRequests(db, now, show), now)
              && count == |Bulk(db)| + |TimedPuts(db.cards, Bulk(db), now, show)|
            else
              s.State() == old(s.State()) && s.nextId == old(s.nextId) && count == 0
  {
    if !(c3.started && online) {
      return 0;
    }
    ghost var before, first := c3.server.State(), c3.server.nextId;
    var bulk := Bulk(db);
    count := c3.SyncCards(bulk, now);
    PutsLength(bulk);
    var expiring;
    ghost var sent;
    expiring, sent := AddTimed(db.cards, bulk, c3, now, show, before, first, Puts(bulk));
    count := count + expiring;
    sent := BlockAll(db.blacklist, c3, now, before, first, sent);
  }

  /** The expiring cards, one after the other. */
  method AddTimed(rows: seq<CardRow>, bulk: seq<string>, c3: C3PushController, now: Time, show: Time -> string,
                  ghost before: Device, ghost first: nat, ghost added: seq<Request>)
    returns (expiring: nat, ghost sent: seq<Request>)
    requires c3.started && Queued(c3.server, before, first, added, now)
    modifies c3.server
    ensures sent == added + TimedPuts(rows, bulk, now, show) && expiring == |TimedPuts(rows, bulk, now, show)|
    ensures Queued(c3.server, before, first, sent, now)
  {
    sent := added;
    assert added + [] == added;
    expiring := 0;
    for i := 0 to |rows|
      invariant sent == added + TimedPuts(rows[..i], bulk, now, show)
      invariant expiring == |TimedPuts(rows[..i], bulk, now, show)|
      invariant Queued(c3.server, before, first, sent, now) && c3.started
    {
      assert rows[..i + 1][..i] == rows[..i];
      TimedOneMore(rows[..i + 1], bulk, now, show);
      var r := rows[i];
      if NeedsWindow(r, bulk, now) {
        Associate(added, TimedPuts(rows[..i], bulk, now, show), [WindowedPut(r, show)]);
        sent := AddWindowed(r, c3, now, show, before, first, sent);
        expiring := expiring + 1;
      }
    }
    assert rows[..|rows|] == rows;
  }

  /** The blacklist, row by row. */
  method BlockAll(rows: seq<BlockRow>, c3: C3PushController, now: Time,
                  ghost before: Device, ghost first: nat, ghost added: seq<Request>)
    returns (ghost sent: seq<Request>)
    requires c3.started && Queued(c3.server, before, first, added, now)
    modifies c3.server
    ensures sent == added + Drops(rows)
    ensures Queued(c3.server, before, first, sent, now)
  {
    sent := added;
    assert added + [] == added;
    for i := 0 to |rows|
      invariant sent == added + Drops(rows[..i])
      invariant Queued(c3.server, before, first, sent, now) && c3.started
    {
      assert rows[..i + 1][..i] == rows[..i];
      DropsOneMore(rows[..i + 1], added);
      sent := Block(rows[i].fastag, c3, now, before, first, sent);
      sent := Block(rows[i].rfid, c3, now, before, first, sent);
    }
    assert rows[..|rows|] == rows;
  }

  /** The server holds `before` with the requests queued under the ids from `first` on. */
  ghost predicate Queued(s: C3PushServer, before: Device, first: nat, sent: seq<Request>, now: Time)
    reads s
  {
    s.State() == SendAll(before, first, sent, now) && s.nextId == first + |sent|
  }

  lemma TimedOneMore(rows: seq<CardRow>, bulk: seq<string>, now: Time, show: Time -> string)
    requires rows != []
    ensures var r := rows[|rows| - 1];
            TimedPuts(rows, bulk, now, show) == TimedPuts(rows[..|rows| - 1], bulk, now, show) +
              if NeedsWindow(r, bulk, now) then [WindowedPut(r, show)] else []
  {
  }

  lemma DropsOneMore(rows: seq<BlockRow>, added: seq<Request>)
    requires rows != []
    ensures var r := rows[|rows| - 1];
            added + Drops(rows) == added + Drops(rows[..|rows| - 1]) + DropIfFilled(r.fastag) + DropIfFilled(r.rfid)
  {
    var r := rows[|rows| - 1];
    var before := Drops(rows[..|rows| - 1]);
    Associate(added, before + DropIfFilled(r.fastag), DropIfFilled(r.rfid));
    Associate(added, before, DropIfFilled(r.fastag));
  }

  method AddWindowed(r: CardRow, c3: C3PushController, now: Time, show: Time -> string,
                     ghost before: Device, ghost first: nat, ghost sent: seq<Request>)
    returns (ghost sent': seq<Request>)
    requires c3.started && Filled(r.uid) && r.expiresAt.Some?
    requires Queued(c3.server, before, first, sent, now)
    modifies c3.server
    ensures sent' == sent + [WindowedPut(r, show)]
    ensures Queued(c3.server, before, first, sent', now)
  {
    SendTwice(before, first, sent, [WindowedPut(r, show)], now);
    var _ := c3.AddCard(r.uid.value, "0", show(r.expiresAt.value), "", now);
    sent' := sent + [WindowedPut(r, show)];
  }

  /** One column of one blacklist row. */
  method Block(v: Option<string>, c3: C3PushController, now: Time, ghost before: Device, ghost first: nat,
               ghost sent: seq<Request>)
    returns (ghost sent': seq<Request>)
    requires c3.started
    requires Queued(c3.server, before, first, sent, now)
    modifies c3.server
    ensures sent' == sent + DropIfFilled(v)
    ensures Queued(c3.server, before, first, sent', now)
  {
    sent' := sent + DropIfFilled(v);
    assert sent + [] == sent;
    if v.Some? && v.value != "" {
      SendTwice(before, first, sent, [DropCard(v.value)], now);
      var _ := c3.BlockCard(v.value, now);
    }
  }

  // ---- the table the requests lead to ----

  function RequestOps(rs: seq<Request>): seq<Effect> {
    if rs == [] then [] else RequestOps(rs[..|rs| - 1]) + [RequestOp(rs[|rs| - 1])]
  }

  lemma {:induction false} RequestOpsAppend(a: seq<Request>, b: seq<Request>)
    ensures RequestOps(a + b) == RequestOps(a) + RequestOps(b)
  {
    if b == [] {
      assert a + b == a;
    } else {
      assert (a + b)[..|a + b| - 1] == a + b[..|b| - 1];
      RequestOpsAppend(a, b[..|b| - 1]);
    }
  }

  /** The table after requests are carried out in order. */
  function Table(users: set<string>, rs: seq<Request>): set<string> {
    Fold(users, RequestOps(rs))
  }

  lemma TableAppend(users: set<string>, a: seq<Request>, b: seq<Request>)
    ensures Table(users, a + b) == Table(Table(users, a), b)
  {
    RequestOpsAppend(a, b);
    FoldAppend(users, RequestOps(a), RequestOps(b));
  }

  lemma {:induction false} PutsTable(users: set<string>, cards: seq<string>)
    ensures Table(users, Puts(cards)) == users + set c | c in cards
  {
    if cards != [] {
      var n := |cards| - 1;
      PutsTable(users, cards[..n]);
      TableAppend(users, Puts(cards[..n]), [PutCard(cards[n], NO_WINDOW)]);
      assert cards == cards[..n] + [cards[n]];
    }
  }

  function Windowed(rows: seq<CardRow>, bulk: seq<string>, now: Time): set<string> {
    set r | r in rows && NeedsWindow(r, bulk, now) :: r.uid.value
  }

  lemma WindowedOneMore(rows: seq<CardRow>, bulk: seq<string>, now: Time)
    requires rows != []
    ensures var r := rows[|rows| - 1];
            Windowed(rows, bulk, now) ==
              Windowed(rows[..|rows| - 1], bulk, now) + if NeedsWindow(r, bulk, now) then {r.uid.value} else {}
  {
    assert rows == rows[..|rows| - 1] + [rows[|rows| - 1]];
  }

  lemma PutIfNeeded(users: set<string>, before: seq<Request>, r: CardRow, bulk: seq<string>, now: Time,
                    show: Time -> string)
    ensures Table(users, before + if NeedsWindow(r, bulk, now) then [WindowedPut(r, show)] else []) ==
            Table(users, before) + if NeedsWindow(r, bulk, now) then {r.uid.value} else {}
  {
    if NeedsWindow(r, bulk, now) {
      TableAppend(users, before, [WindowedPut(r, show)]);
    } else {
      assert before + [] == before;
    }
  }

  lemma {:induction false} TimedTable(users: set<string>, rows: seq<CardRow>, bulk: seq<string>, now: Time,
                                      show: Time -> string)
    ensures Table(users, TimedPuts(rows, bulk, now, show)) == users + Windowed(rows, bulk, now)
  {
    if rows != [] {
      var n := |rows| - 1;
      TimedTable(users, rows[..n], bulk, now, show);
      TimedOneMore(rows, bulk, now, show);
      PutIfNeeded(users, TimedPuts(rows[..n], bulk, now, show), rows[n], bulk, now, show);
      WindowedOneMore(rows, bulk, now);
    }
  }

  lemma DropTable(users: set<string>, before: seq<Request>, v: Option<string>)
    ensures Table(users, before + DropIfFilled(v)) == Table(users, before) - Held(v)
  {
    TableAppend(users, before, DropIfFilled(v));
  }

  lemma {:induction false} DropsTable(users: set<string>, rows: seq<BlockRow>)
    ensures Table(users, Drops(rows)) == users - (BlockedTags(rows) + BlockedUids(rows))
  {
    if rows != [] {
      var n := |rows| - 1;
      var r := rows[n];
      DropsTable(users, rows[..n]);
      DropTable(users, Drops(rows[..n]), r.fastag);
      DropTable(users, Drops(rows[..n]) + DropIfFilled(r.fastag), r.rfid);
      BlockedOneMore(rows);
    }
  }

  lemma BlockedOneMore(rows: seq<BlockRow>)
    requires rows != []
    ensures var r := rows[|rows| - 1];
            var before := rows[..|rows| - 1];
            && BlockedTags(rows) == BlockedTags(before) + Held(r.fastag)
            && BlockedUids(rows) == BlockedUids(before) + Held(r.rfid)
  {
    assert rows == rows[..|rows| - 1] + [rows[|rows| - 1]];
  }

  /** What a roster push makes of a card table. */
  function PushedTable(users: set<string>, db: Db, now: Time): set<string> {
    users + Provisioned(db, now) - Blocked(db)
  }

  lemma PushLeadsTo(users: set<string>, db: Db, now: Time, show: Time -> string)
    ensures Table(users, PushRequests(db, now, show)) == PushedTable(users, db, now)
  {
    var bulk := Bulk(db);
    var timed := TimedPuts(db.cards, bulk, now, show);
    BulkIsPermanent(db);
    PutsTable(users, bulk);
    TableAppend(users, Puts(bulk), timed);
    TimedTable(Table(users, Puts(bulk)), db.cards, bulk, now, show);
    TableAppend(users, Puts(bulk) + timed, Drops(db.blacklist));
    DropsTable(Table(users, Puts(bulk) + timed), db.blacklist);
    assert (set c | c in bulk) == Permanent(db);
    assert Permanent(db) + Windowed(db.cards, bulk, now) == Provisioned(db, now);
  }
}
