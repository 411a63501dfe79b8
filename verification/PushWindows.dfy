/** The validity windows of a roster push: what each request carries, and what its line says. */
module PushWindows {
  import opened Basics
  import opened PyText
  import opened Wire
  import opened PushController
  import opened Roster
  import opened RosterPush
  import TapRing

  // ---- the requests ----

  const UNLIMITED := UserInfo("", "0", "0", "")

  /** Valid until the given text, from the start. */
  function Until(text: string): UserInfo {
    UserInfo("", "0", text, "")
  }

  /** Some row of the table lets the card in until then. */
  ghost predicate ExpiresAs(rows: seq<CardRow>, now: Time, show: Time -> string, card: string, info: UserInfo) {
    exists r :: r in rows && r.uid == Some(card) && card != "" && r.expiresAt.Some? && r.expiresAt.value > now &&
                info == Until(show(r.expiresAt.value))
  }

  lemma {:induction false} PutsAreUnlimited(cards: seq<string>, card: string, info: UserInfo)
    ensures PutCard(card, info) in Puts(cards) <==> card in cards && info == UNLIMITED
  {
    if cards != [] {
      var n := |cards| - 1;
      PutsAreUnlimited(cards[..n], card, info);
      assert cards == cards[..n] + [cards[n]];
    }
  }

  lemma {:induction false} TimedPutsExpire(rows: seq<CardRow>, bulk: seq<string>, now: Time, show: Time -> string,
                                           card: string, info: UserInfo)
    ensures PutCard(card, info) in TimedPuts(rows, bulk, now, show) <==>
            card !in bulk && ExpiresAs(rows, now, show, card, info)
  {
    if rows != [] {
      var n := |rows| - 1;
      var r := rows[n];
      TimedPutsExpire(rows[..n], bulk, now, show, card, info);
      assert rows == rows[..n] + [r];
      OneMoreRow(rows[..n], r, now, show, card, info);
    }
  }

  lemma OneMoreRow(rows: seq<CardRow>, r: CardRow, now: Time, show: Time -> string, card: string, info: UserInfo)
    ensures ExpiresAs(rows + [r], now, show, card, info) <==>
            ExpiresAs(rows, now, show, card, info) || ExpiresAs([r], now, show, card, info)
  {
    if ExpiresAs(rows, now, show, card, info) {
      var x :| x in rows && x.uid == Some(card) && card != "" && x.expiresAt.Some? && x.expiresAt.value > now &&
               info == Until(show(x.expiresAt.value));
      assert x in rows + [r];
    }
    if ExpiresAs([r], now, show, card, info) { assert r in rows + [r]; }
    if ExpiresAs(rows + [r], now, show, card, info) && !ExpiresAs(rows, now, show, card, info) {
      assert r in [r];
    }
  }

  lemma {:induction false} DropsWriteNothing(rows: seq<BlockRow>, card: string, info: UserInfo)
    ensures PutCard(card, info) !in Drops(rows)
  {
    if rows != [] { DropsWriteNothing(rows[..|rows| - 1], card, info); }
  }

  /** A push writes a card exactly as follows: a permanent credential without limit, any other card
      until the expiry of a row of its own that has not passed; every row that qualifies is pushed. */
  lemma PushCarriesExpiry(db: Db, now: Time, show: Time -> string, card: string, info: UserInfo)
    ensures PutCard(card, info) in PushRequests(db, now, show) <==>
            if card in Permanent(db) then info == UNLIMITED else ExpiresAs(db.cards, now, show, card, info)
  {
    BulkIsPermanent(db);
    PutsAreUnlimited(Bulk(db), card, info);
    TimedPutsExpire(db.cards, Bulk(db), now, show, card, info);
    DropsWriteNothing(db.blacklist, card, info);
  }

  // ---- the count ----

  function CountPuts(rs: seq<Request>): nat {
    if rs == [] then 0 else CountPuts(rs[..|rs| - 1]) + if rs[|rs| - 1].PutCard? then 1 else 0
  }

  lemma {:induction false} CountPutsAppend(a: seq<Request>, b: seq<Request>)
    ensures CountPuts(a + b) == CountPuts(a) + CountPuts(b)
  {
    if b == [] {
      assert a + b == a;
    } else {
      assert (a + b)[..|a + b| - 1] == a + b[..|b| - 1];
      CountPutsAppend(a, b[..|b| - 1]);
    }
  }

  lemma {:induction false} AllPuts(rs: seq<Request>)
    requires forall i :: 0 <= i < |rs| ==> rs[i].PutCard?
    ensures CountPuts(rs) == |rs|
  {
    if rs != [] { AllPuts(rs[..|rs| - 1]); }
  }

  lemma {:induction false} NoPuts(rs: seq<Request>)
    requires forall i :: 0 <= i < |rs| ==> !rs[i].PutCard?
    ensures CountPuts(rs) == 0
  {
    if rs != [] { NoPuts(rs[..|rs| - 1]); }
  }

  lemma KindsOfRequests(bulk: seq<string>, rows: seq<CardRow>, blocks: seq<BlockRow>, now: Time, show: Time -> string)
    ensures forall i :: 0 <= i < |Puts(bulk)| ==> Puts(bulk)[i].PutCard?
    ensures forall i :: 0 <= i < |TimedPuts(rows, bulk, now, show)| ==> TimedPuts(rows, bulk, now, show)[i].PutCard?
    ensures forall i :: 0 <= i < |Drops(blocks)| ==> Drops(blocks)[i].DropCard?
  {
    PutsKind(bulk);
    TimedKind(rows, bulk, now, show);
    DropsKind(blocks);
  }

  lemma {:induction false} PutsKind(bulk: seq<string>)
    ensures forall i :: 0 <= i < |Puts(bulk)| ==> Puts(bulk)[i].PutCard?
  {
    if bulk != [] { PutsKind(bulk[..|bulk| - 1]); }
  }

  lemma {:induction false} TimedKind(rows: seq<CardRow>, bulk: seq<string>, now: Time, show: Time -> string)
    ensures forall i :: 0 <= i < |TimedPuts(rows, bulk, now, show)| ==> TimedPuts(rows, bulk, now, show)[i].PutCard?
  {
    if rows != [] { TimedKind(rows[..|rows| - 1], bulk, now, show); }
  }

  lemma {:induction false} DropsKind(blocks: seq<BlockRow>)
    ensures forall i :: 0 <= i < |Drops(blocks)| ==> Drops(blocks)[i].DropCard?
  {
    if blocks != [] { DropsKind(blocks[..|blocks| - 1]); }
  }

  /** The number a push returns is the number of cards it writes. */
  lemma CountIsWritten(db: Db, now: Time, show: Time -> string)
    ensures |Bulk(db)| + |TimedPuts(db.cards, Bulk(db), now, show)| == CountPuts(PushRequests(db, now, show))
  {
    var puts, timed, drops := Puts(Bulk(db)), TimedPuts(db.cards, Bulk(db), now, show), Drops(db.blacklist);
    KindsOfRequests(Bulk(db), db.cards, db.blacklist, now, show);
    CountPutsAppend(puts + timed, drops);
    CountPutsAppend(puts, timed);
    AllPuts(puts);
    AllPuts(timed);
    NoPuts(drops);
    PutsLength(Bulk(db));
  }

  /** A synchronisation asks for each card in turn, without limit. */
  lemma {:induction false} PutsInOrder(cards: seq<string>)
    ensures |Puts(cards)| == |cards| && forall i :: 0 <= i < |cards| ==> Puts(cards)[i] == PutCard(cards[i], UNLIMITED)
  {
    if cards != [] { PutsInOrder(cards[..|cards| - 1]); }
  }

  /** A push starts with the permanent cards, in ascending order, and writes no card behind a deletion. */
  lemma WritesComeFirst(db: Db, now: Time, show: Time -> string)
    ensures var bulk, rs := Bulk(db), PushRequests(db, now, show);
            && |bulk| <= |rs| && (forall i :: 0 <= i < |bulk| ==> rs[i] == PutCard(bulk[i], UNLIMITED))
            && forall i, j :: 0 <= i < j < |rs| && rs[i].DropCard? ==> rs[j].DropCard?
  {
    var bulk := Bulk(db);
    PutsInOrder(bulk);
    KindsOfRequests(bulk, db.cards, db.blacklist, now, show);
    PutsThenDrops(Puts(bulk), TimedPuts(db.cards, bulk, now, show), Drops(db.blacklist));
  }

  lemma PutsThenDrops(a: seq<Request>, b: seq<Request>, c: seq<Request>)
    requires forall i :: 0 <= i < |a| ==> a[i].PutCard?
    requires forall i :: 0 <= i < |b| ==> b[i].PutCard?
    requires forall i :: 0 <= i < |c| ==> c[i].DropCard?
    ensures var rs := a + b + c;
            && (forall i :: 0 <= i < |a| ==> rs[i] == a[i])
            && forall i, j :: 0 <= i < j < |rs| && rs[i].DropCard? ==> rs[j].DropCard?
  {
  }

  // ---- the text ----

  predicate TabFree(s: string) { '\t' !in s }

  /** The key of the first field, with the head of the line before it. */
  function FirstKey(id: nat): string {
    "C:" + Dec(id) + ":" + UPDATE_USER + " " + "Pin"
  }

  function RecordPairs(id: nat, card: string, info: UserInfo): seq<(string, string)> {
    [(FirstKey(id), Pin(card, info)), ("CardNo", card), ("Password", ""), ("Group", "1"),
     ("StartTime", info.validFrom), ("EndTime", info.validUntil), ("Name", Name(card, info))]
  }

  lemma FirstKeyIsOwn(id: nat)
    ensures '=' !in FirstKey(id) && '\t' !in FirstKey(id) && ' ' in FirstKey(id)
  {
    var key := FirstKey(id);
    assert key[|key| - 4] == ' ';
  }

  lemma RecordKeysApart(id: nat, card: string, info: UserInfo)
    ensures TapRing.KeysApart(RecordPairs(id, card, info))
  {
    var pairs := RecordPairs(id, card, info);
    FirstKeyIsOwn(id);
    assert forall i :: 1 <= i < 7 ==> ' ' !in pairs[i].0;
    assert forall i :: 1 <= i < 7 ==> pairs[i].0 != pairs[0].0;
  }

  lemma {:induction false} RenderedParts(pairs: seq<(string, string)>)
    ensures |TapRing.Rendered(pairs)| == |pairs|
    ensures forall i :: 0 <= i < |pairs| ==> TapRing.Rendered(pairs)[i] == pairs[i].0 + ['='] + pairs[i].1
  {
    if pairs != [] { RenderedParts(pairs[..|pairs| - 1]); }
  }

  lemma JoinHead(head: string, first: string, rest: seq<string>)
    ensures Join([head + first] + rest, '\t') == head + Join([first] + rest, '\t')
  {
    if rest != [] {
      assert ([head + first] + rest)[1..] == rest && ([first] + rest)[1..] == rest;
      assert head + first + ['\t'] + Join(rest, '\t') == head + (first + ['\t'] + Join(rest, '\t'));
    }
  }

  /** A user record is its fields, the head of the line belonging to the first key. */
  lemma RecordIsFields(id: nat, card: string, info: UserInfo)
    ensures UserLine(id, card, info) == Join(TapRing.Rendered(RecordPairs(id, card, info)), '\t')
  {
    var pairs := RecordPairs(id, card, info);
    var head := "C:" + Dec(id) + ":" + UPDATE_USER + " ";
    var fields := ["Pin=" + Pin(card, info), CARD_KEY + card] + TailFields(card, info);
    RenderedParts(pairs);
    var parts := TapRing.Rendered(pairs);
    assert parts[0] == head + fields[0];
    assert parts[1] == fields[1] && parts[2] == fields[2] && parts[3] == fields[3];
    assert parts[4] == fields[4] && parts[5] == fields[5] && parts[6] == fields[6];
    assert parts == [head + fields[0]] + fields[1..] && fields == [fields[0]] + fields[1..];
    JoinHead(head, fields[0], fields[1..]);
  }

  lemma RecordIsCut(id: nat, card: string, info: UserInfo, pairs: seq<(string, string)>)
    requires TabFree(card) && TabFree(info.pin) && TabFree(info.name)
    requires TabFree(info.validFrom) && TabFree(info.validUntil) && pairs == RecordPairs(id, card, info)
    ensures Split(UserLine(id, card, info), '\t') == TapRing.Rendered(pairs)
  {
    FirstKeyIsOwn(id);
    TapRing.RenderedTabFree(pairs);
    RecordIsFields(id, card, info);
    SplitUndoesJoin(TapRing.Rendered(pairs), '\t');
  }

  /** The line of a record says its card, its window, its pin, which is the card if none is given, and
      its name, which is the pin if none is given. */
  lemma RecordSaysWindow(id: nat, card: string, info: UserInfo, fallback: string)
    requires TabFree(card) && TabFree(info.pin) && TabFree(info.name)
    requires TabFree(info.validFrom) && TabFree(info.validUntil)
    ensures var parts := Split(UserLine(id, card, info), '\t');
            && Field(parts, "CardNo", fallback) == card
            && Field(parts, "StartTime", fallback) == info.validFrom
            && Field(parts, "EndTime", fallback) == info.validUntil
            && var pin := if info.pin == "" then card else info.pin;
               && Field(parts, FirstKey(id), fallback) == pin
               && Field(parts, "Name", fallback) == if info.name == "" then pin else info.name
  {
    var pairs := RecordPairs(id, card, info);
    RecordKeysApart(id, card, info);
    RecordIsCut(id, card, info, pairs);
    TapRing.FieldOfPairs(pairs, 0, fallback);
    TapRing.FieldOfPairs(pairs, 1, fallback);
    TapRing.FieldOfPairs(pairs, 4, fallback);
    TapRing.FieldOfPairs(pairs, 5, fallback);
    TapRing.FieldOfPairs(pairs, 6, fallback);
  }
}
