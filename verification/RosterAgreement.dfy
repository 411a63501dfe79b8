/** Does the panel, left to itself, admit what the gate's own local check would admit? */
module RosterAgreement {
  import opened Basics
  import opened PyText
  import opened Wire
  import opened PanelLink
  import opened LossyLink
  import opened MockPanel
  import opened PushController
  import opened Roster
  import opened RosterPush

  // ---- the table against the local check ----

  /** The gate's own decision on a tag that may be read as either kind of card. */
  predicate LocallyAdmitted(db: Db, v: string, now: Time) {
    && v != ""
    && !IsBlacklisted(db, Fastag, v) && !IsBlacklisted(db, Rfid, v)
    && (LocalCheck(db, Fastag, v, now).Allow? || LocalCheck(db, Rfid, v, now).Allow?)
  }

  predicate KnownVehicle(db: Db, v: string) {
    Whitelisted(db.whitelist, Fastag, v) || Whitelisted(db.whitelist, Rfid, v)
  }

  predicate Barred(db: Db, v: string) {
    IsBlacklisted(db, Fastag, v) || IsBlacklisted(db, Rfid, v)
  }

  /** A valid card row counts for the local check only if the first row of its uid is valid too. */
  predicate Shadowed(db: Db, row: CardRow, now: Time) {
    && Filled(row.uid) && Unexpired(row.expiresAt, now)
    && !KnownVehicle(db, row.uid.value) && !Barred(db, row.uid.value)
    && FindCard(db.cards, row.uid.value).Some?
    && !Unexpired(FindCard(db.cards, row.uid.value).value.expiresAt, now)
  }

  predicate ShadowFree(db: Db, now: Time) {
    forall row :: row in db.cards ==> !Shadowed(db, row, now)
  }

  lemma VehicleIsProvisioned(db: Db, v: string, now: Time)
    requires v != "" && KnownVehicle(db, v)
    ensures v in Provisioned(db, now)
  {
    if Whitelisted(db.whitelist, Fastag, v) {
      var i :| 0 <= i < |db.whitelist| && VehicleColumn(db.whitelist[i], Fastag) == Some(v);
      assert db.whitelist[i] in db.whitelist;
      assert v in FastagCards(db.whitelist);
    } else {
      var i :| 0 <= i < |db.whitelist| && VehicleColumn(db.whitelist[i], Rfid) == Some(v);
      assert db.whitelist[i] in db.whitelist;
      assert v in RfidCards(db.whitelist);
    }
  }

  lemma ValidRowIsProvisioned(db: Db, row: CardRow, now: Time)
    requires row in db.cards && Filled(row.uid) && Unexpired(row.expiresAt, now)
    ensures row.uid.value in Provisioned(db, now)
  {
    if row.expiresAt.None? {
      assert row.uid.value in LastingCards(db.cards);
    } else {
      assert row.uid.value in TimedCards(db.cards, now);
    }
  }

  ghost predicate HasValidRow(db: Db, v: string, now: Time) {
    exists row :: row in db.cards && row.uid == Some(v) && Unexpired(row.expiresAt, now)
  }

  lemma ProvisionedMeans(db: Db, v: string, now: Time)
    ensures v in Provisioned(db, now) <==> v != "" && (KnownVehicle(db, v) || HasValidRow(db, v, now))
  {
    if v in FastagCards(db.whitelist) {
      var r :| r in db.whitelist && Filled(r.fastag) && r.fastag.value == v;
      assert VehicleColumn(r, Fastag) == Some(v);
      SomePlace(db.whitelist, r);
    }
    if v in RfidCards(db.whitelist) {
      var r :| r in db.whitelist && Filled(r.rfid) && r.rfid.value == v;
      assert VehicleColumn(r, Rfid) == Some(v);
      SomePlace(db.whitelist, r);
    }
    if v in LastingCards(db.cards) || v in TimedCards(db.cards, now) {
      var r :| r in db.cards && Filled(r.uid) && Unexpired(r.expiresAt, now) && r.uid.value == v;
      assert r.uid == Some(v);
    }
    if v != "" && KnownVehicle(db, v) { VehicleIsProvisioned(db, v, now); }
    if v != "" && HasValidRow(db, v, now) {
      var row :| row in db.cards && row.uid == Some(v) && Unexpired(row.expiresAt, now);
      ValidRowIsProvisioned(db, row, now);
    }
  }

  lemma SomePlace<T>(s: seq<T>, x: T)
    requires x in s
    ensures exists i :: 0 <= i < |s| && s[i] == x
  {
  }

  lemma BlockedMeans(db: Db, v: string)
    ensures v in Blocked(db) <==> v != "" && Barred(db, v)
  {
    if v in BlockedTags(db.blacklist) {
      var r :| r in db.blacklist && Filled(r.fastag) && r.fastag.value == v;
      assert BlockColumn(r, Fastag) == Some(v);
      SomePlace(db.blacklist, r);
    }
    if v in BlockedUids(db.blacklist) {
      var r :| r in db.blacklist && Filled(r.rfid) && r.rfid.value == v;
      assert BlockColumn(r, Rfid) == Some(v);
      SomePlace(db.blacklist, r);
    }
    if v != "" && IsBlacklisted(db, Fastag, v) {
      var i :| 0 <= i < |db.blacklist| && BlockColumn(db.blacklist[i], Fastag) == Some(v);
      assert db.blacklist[i] in db.blacklist;
      assert v in BlockedTags(db.blacklist);
    }
    if v != "" && IsBlacklisted(db, Rfid, v) {
      var i :| 0 <= i < |db.blacklist| && BlockColumn(db.blacklist[i], Rfid) == Some(v);
      assert db.blacklist[i] in db.blacklist;
      assert v in BlockedUids(db.blacklist);
    }
  }

  /** What the local check makes of a tag outside both blacklist columns. */
  lemma LocalCheckMeans(db: Db, v: string, now: Time)
    requires !Barred(db, v)
    ensures LocalCheck(db, Fastag, v, now).Allow? || LocalCheck(db, Rfid, v, now).Allow? <==>
            || KnownVehicle(db, v)
            || (FindCard(db.cards, v).Some? && Unexpired(FindCard(db.cards, v).value.expiresAt, now))
  {
    FindVehicleMeans(db.whitelist, Fastag, v);
    FindVehicleMeans(db.whitelist, Rfid, v);
  }

  /** The panel admits a card and the local check agrees, unless a valid row is shadowed. */
  lemma AdmissionAt(db: Db, v: string, now: Time)
    ensures LocallyAdmitted(db, v, now) ==> v in PushedTable({}, db, now)
    ensures v in PushedTable({}, db, now) && !LocallyAdmitted(db, v, now) ==>
              exists row :: row in db.cards && row.uid == Some(v) && Shadowed(db, row, now)
  {
    ProvisionedMeans(db, v, now);
    BlockedMeans(db, v);
    if v != "" && !Barred(db, v) {
      LocalCheckMeans(db, v, now);
      var i := FindCardMeans(db.cards, v);
      if FindCard(db.cards, v).Some? {
        assert db.cards[i] in db.cards;
      }
      if HasValidRow(db, v, now) && !LocallyAdmitted(db, v, now) {
        var row :| row in db.cards && row.uid == Some(v) && Unexpired(row.expiresAt, now);
        SomePlace(db.cards, row);
        assert Shadowed(db, row, now);
      }
    }
  }

  lemma ShadowedIsAdmitted(db: Db, row: CardRow, now: Time)
    requires row in db.cards && Shadowed(db, row, now)
    ensures row.uid.value in PushedTable({}, db, now) && !LocallyAdmitted(db, row.uid.value, now)
  {
    var v := row.uid.value;
    ValidRowIsProvisioned(db, row, now);
    BlockedMeans(db, v);
    LocalCheckMeans(db, v, now);
  }

  /** After a push onto an empty panel, the panel admits exactly what the local check admits, for
      every tag, if and only if no valid card row stands behind an expired first row of its uid. */
  lemma PanelMatchesLocalCheck(db: Db, now: Time)
    ensures (forall v :: v in PushedTable({}, db, now) <==> LocallyAdmitted(db, v, now)) <==> ShadowFree(db, now)
  {
    if ShadowFree(db, now) {
      forall v ensures v in PushedTable({}, db, now) <==> LocallyAdmitted(db, v, now) {
        AdmissionAt(db, v, now);
      }
    } else {
      var row :| row in db.cards && Shadowed(db, row, now);
      ShadowedIsAdmitted(db, row, now);
    }
  }

  predicate UniqueUids(db: Db) {
    forall i, j :: 0 <= i < j < |db.cards| && db.cards[i].uid.Some? ==> db.cards[i].uid != db.cards[j].uid
  }

  /** With one row per uid nothing is shadowed. */
  lemma UniqueUidsAreShadowFree(db: Db, now: Time)
    requires UniqueUids(db)
    ensures ShadowFree(db, now)
  {
    forall row | row in db.cards ensures !Shadowed(db, row, now) {
      if row.uid.Some? {
        var i := FindCardMeans(db.cards, row.uid.value);
        SomePlace(db.cards, row);
      }
    }
  }

  /** An event for any card on the panel is resolved to a reader and a unit. */
  lemma ProvisionedIsClassified(db: Db, v: string, now: Time)
    requires v in Provisioned(db, now)
    ensures ClassifyCard(db, v).Some?
    ensures ClassifyCard(db, v).value.0 == Fastag <==> Whitelisted(db.whitelist, Fastag, v)
  {
    ProvisionedMeans(db, v, now);
    FindVehicleMeans(db.whitelist, Fastag, v);
    FindVehicleMeans(db.whitelist, Rfid, v);
    var i := FindCardMeans(db.cards, v);
    if HasValidRow(db, v, now) {
      var row :| row in db.cards && row.uid == Some(v) && Unexpired(row.expiresAt, now);
      SomePlace(db.cards, row);
    }
  }

  // ---- the push over the link ----

  /** Hash-like text: safe in every field of a line and without a capital L. */
  predicate CardText(v: string) {
    Spaceless(v) && FieldSafe(v) && 'L' !in v
  }

  predicate CleanValue(v: Option<string>) {
    v.Some? ==> CardText(v.value)
  }

  predicate CleanDb(db: Db) {
    && (forall r :: r in db.whitelist ==> CleanValue(r.fastag) && CleanValue(r.rfid))
    && (forall r :: r in db.blacklist ==> CleanValue(r.fastag) && CleanValue(r.rfid))
    && (forall r :: r in db.cards ==> CleanValue(r.uid))
  }

  /** Expiry times are rendered as text that matters nowhere on the wire, as dates are. */
  ghost predicate ShowsDates(show: Time -> string) {
    forall t :: NamesNone(show(t)) && 'L' !in show(t) && OneLine(show(t))
  }

  /** Texts that neither break the line nor end it in white space. */
  predicate OneLineInfo(info: UserInfo) {
    Unbroken(info) && Trimmed(info.name)
  }

  predicate CleanRequest(r: Request) {
    match r
    case PutCard(card, info) =>
      PlainCard(card, info) && NamesOwnCard(card, info) && FieldSafe(card) && LacksL(card, info) && OneLineInfo(info)
    case DropCard(card) => card != "" && Spaceless(card) && FieldSafe(card)
    case OpenDoor(door, _) => door < 256
  }

  predicate AllClean(rs: seq<Request>) {
    forall i :: 0 <= i < |rs| ==> CleanRequest(rs[i])
  }

  /** Both sides understand the line of a clean request, and a card write stays at data priority. */
  lemma RequestUnderstood(id: nat, r: Request, line: string, echo: bool)
    requires id > 0 && CleanRequest(r) && line == RequestLine(id, r)
    ensures Understood(id, line, Mock(echo)) && Mock(echo).effect(line) == RequestOp(r)
    ensures PriorityOf(line, None) == if r.OpenDoor? then PRIO_CONTROL else PRIO_DATA
  {
    match r
    case PutCard(card, info) =>
      UserLineUnderstood(id, card, info, line, echo);
      PlainUserLine(id, card, info);
    case DropCard(card) =>
      DeleteLineUnderstood(id, card, line, echo);
      PlainDeleteLine(id, card);
    case OpenDoor(door, seconds) =>
      ControlLineUnderstood(id, door, seconds, line, echo);
      ControlLineEffects(id, door, seconds);
  }

  /** The line of a clean request survives transport in a poll reply. */
  lemma RequestSendable(id: nat, r: Request)
    requires CleanRequest(r)
    ensures Sendable(RequestLine(id, r))
  {
    match r
    case PutCard(card, info) => UserLineSendable(id, card, info);
    case DropCard(card) => TextSendable(id, DeleteRest(card));
    case OpenDoor(door, seconds) =>
      ControlOperandShape(door, seconds);
      TextSendable(id, ControlRest(door, seconds));
  }

  lemma UserLineSendable(id: nat, card: string, info: UserInfo)
    requires PlainCard(card, info) && OneLineInfo(info)
    ensures Sendable(UserLine(id, card, info))
  {
    FieldsSendable(card, info);
    JoinSendable(["Pin=" + Pin(card, info), CARD_KEY + card] + TailFields(card, info));
    TextSendable(id, UserRest(card, info));
  }

  lemma FieldsSendable(card: string, info: UserInfo)
    requires PlainCard(card, info) && OneLineInfo(info)
    ensures var parts := ["Pin=" + Pin(card, info), CARD_KEY + card] + TailFields(card, info);
            && (forall i :: 0 <= i < |parts| ==> OneLine(parts[i]))
            && |parts| == 7 && parts[6] != "" && !IsSpace(parts[6][|parts[6]| - 1])
  {
    var name := Name(card, info);
    assert OneLine(name) && name != "" && !IsSpace(name[|name| - 1]);
    assert ("Name=" + name)[|"Name=" + name| - 1] == name[|name| - 1];
    OneLineJoin("Pin=", Pin(card, info));
    OneLineJoin(CARD_KEY, card);
    OneLineJoin("StartTime=", info.validFrom);
    OneLineJoin("EndTime=", info.validUntil);
    OneLineJoin("Name=", name);
  }

  lemma {:induction false} JoinSendable(parts: seq<string>)
    requires parts != [] && forall i :: 0 <= i < |parts| ==> OneLine(parts[i])
    requires var last := parts[|parts| - 1]; last != "" && !IsSpace(last[|last| - 1])
    ensures var s := Join(parts, '\t'); s != "" && OneLine(s) && !IsSpace(s[|s| - 1])
  {
    if |parts| > 1 { JoinSendable(parts[1..]); }
  }

  lemma PutIsClean(card: string, until: string)
    requires card != "" && CardText(card) && NamesNone(until) && 'L' !in until && OneLine(until)
    ensures CleanRequest(PutCard(card, UserInfo("", "0", until, "")))
  {
    PlainNames(card, UserInfo("", "0", until, ""));
  }

  lemma {:induction false} PutsClean(cards: seq<string>)
    requires forall v :: v in cards ==> v != "" && CardText(v)
    ensures AllClean(Puts(cards))
  {
    if cards != [] {
      var n := |cards| - 1;
      assert cards[n] in cards && forall v :: v in cards[..n] ==> v in cards;
      PutsClean(cards[..n]);
      PutIsClean(cards[n], "0");
    }
  }

  lemma {:induction false} TimedPutsClean(rows: seq<CardRow>, bulk: seq<string>, now: Time, show: Time -> string)
    requires ShowsDates(show) && forall r :: r in rows ==> CleanValue(r.uid)
    ensures AllClean(TimedPuts(rows, bulk, now, show))
  {
    if rows != [] {
      var n := |rows| - 1;
      assert rows[n] in rows && forall r :: r in rows[..n] ==> r in rows;
      TimedPutsClean(rows[..n], bulk, now, show);
      if NeedsWindow(rows[n], bulk, now) { PutIsClean(rows[n].uid.value, show(rows[n].expiresAt.value)); }
      TimedOneMore(rows, bulk, now, show);
    }
  }

  lemma {:induction false} DropsClean(rows: seq<BlockRow>)
    requires forall r :: r in rows ==> CleanValue(r.fastag) && CleanValue(r.rfid)
    ensures AllClean(Drops(rows))
  {
    if rows != [] {
      var n := |rows| - 1;
      assert rows[n] in rows && forall r :: r in rows[..n] ==> r in rows;
      DropsClean(rows[..n]);
    }
  }

  lemma PushIsClean(db: Db, now: Time, show: Time -> string)
    requires CleanDb(db) && ShowsDates(show)
    ensures AllClean(PushRequests(db, now, show))
  {
    BulkIsPermanent(db);
    forall v | v in Bulk(db) ensures v != "" && CardText(v) { assert v in Permanent(db); }
    PutsClean(Bulk(db));
    TimedPutsClean(db.cards, Bulk(db), now, show);
    DropsClean(db.blacklist);
  }

  /** The requests written as lines, in order, each under a positive id of its own. */
  predicate Written(posts: seq<(int, string)>, rs: seq<Request>) {
    && |posts| == |rs|
    && forall i :: 0 <= i < |rs| ==> posts[i].0 > 0 && posts[i].1 == RequestLine(posts[i].0, rs[i])
  }

  /** The run posts exactly these requests. */
  predicate Requested(ms: seq<Move>, rs: seq<Request>) {
    Written(PostedAs(ms), rs)
  }

  /** The requests about cards: what is left without door openings. */
  function CardRequests(rs: seq<Request>): seq<Request> {
    if rs == [] then []
    else
      var r := rs[|rs| - 1];
      CardRequests(rs[..|rs| - 1]) + if r.OpenDoor? then [] else [r]
  }

  /** A roster push, with door openings anywhere in between. */
  predicate IsPush(rs: seq<Request>, db: Db, now: Time, show: Time -> string) {
    && CardRequests(rs) == PushRequests(db, now, show)
    && forall i :: 0 <= i < |rs| && rs[i].OpenDoor? ==> rs[i].door < 256
  }

  lemma OneMoreClean(rs: seq<Request>, r: Request)
    ensures AllClean(rs + [r]) <==> AllClean(rs) && CleanRequest(r)
  {
    assert (rs + [r])[|rs|] == r && forall i :: 0 <= i < |rs| ==> (rs + [r])[i] == rs[i];
  }

  lemma {:induction false} CleanWithDoors(rs: seq<Request>)
    requires AllClean(CardRequests(rs)) && forall i :: 0 <= i < |rs| && rs[i].OpenDoor? ==> rs[i].door < 256
    ensures AllClean(rs)
  {
    if rs != [] {
      var n := |rs| - 1;
      var before := CardRequests(rs[..n]);
      if rs[n].OpenDoor? {
        assert CardRequests(rs) == before;
      } else {
        OneMoreClean(before, rs[n]);
      }
      CleanWithDoors(rs[..n]);
      OneMoreClean(rs[..n], rs[n]);
      SplitLast(rs);
    }
  }

  /** Lines written for clean requests are understood, and their card-table operations are theirs. */
  lemma {:induction false} WrittenOps(posts: seq<(int, string)>, rs: seq<Request>, echo: bool)
    requires Written(posts, rs) && AllClean(rs)
    ensures UnderstoodPosts(posts, Mock(echo)) && CardOps(posts, Mock(echo)) == RequestOps(CardRequests(rs))
  {
    if rs != [] {
      var n := |rs| - 1;
      WrittenOps(posts[..n], rs[..n], echo);
      RequestUnderstood(posts[n].0, rs[n], posts[n].1, echo);
      LastOp(rs, posts[n].1, Mock(echo));
    }
  }

  /** A run that posts clean requests is proper, and its card-table operations are theirs. */
  lemma RequestsAreProper(ms: seq<Move>, rs: seq<Request>, echo: bool)
    requires Orderly(ms) && Requested(ms, rs) && AllClean(rs)
    ensures Proper(ms, Mock(echo)) && PostedOps(ms, Mock(echo)) == RequestOps(CardRequests(rs))
  {
    WrittenOps(PostedAs(ms), rs, echo);
    OrderlyIsProper(ms, Mock(echo));
    PostedAreOps(ms, Mock(echo));
  }

  lemma LastOp(rs: seq<Request>, line: string, k: PanelKind)
    requires rs != [] && k.effect(line) == RequestOp(rs[|rs| - 1])
    ensures RequestOps(CardRequests(rs)) == RequestOps(CardRequests(rs[..|rs| - 1])) + Op(line, k)
  {
    LastCardOp(CardRequests(rs[..|rs| - 1]), rs[|rs| - 1]);
  }

  lemma LastCardOp(before: seq<Request>, r: Request)
    ensures RequestOps(before + if r.OpenDoor? then [] else [r]) ==
            RequestOps(before) + if RequestOp(r) == Nothing then [] else [RequestOp(r)]
  {
    if r.OpenDoor? {
      assert before + [] == before && RequestOps(before) + [] == RequestOps(before);
    } else {
      OneMoreOp(before, r);
    }
  }

  lemma OneMoreOp(before: seq<Request>, r: Request)
    ensures RequestOps(before + [r]) == RequestOps(before) + [RequestOp(r)]
  {
    assert (before + [r])[..|before|] == before;
  }

  /** Without loss: whatever polls, door openings and acknowledgements come in between, once nothing
      is outstanding the panel and the server's mirror both hold the old table plus the permanent
      and still valid cards minus both blacklist columns. */
  lemma RosterReachesPanel(db: Db, now: Time, show: Time -> string, users: set<string>,
                           ms: seq<Move>, rs: seq<Request>, echo: bool)
    requires CleanDb(db) && ShowsDates(show)
    requires Orderly(ms) && Requested(ms, rs) && IsPush(rs, db, now, show)
    requires Lossless(Start(users), ms, Mock(echo))
    ensures var w := Play(Start(users), ms, Mock(echo));
            w.dev.queue == [] && w.dev.inFlight == [] ==>
              w.panel.users == w.dev.users == PushedTable(users, db, now)
  {
    PushIsClean(db, now, show);
    CleanWithDoors(rs);
    RequestsAreProper(ms, rs, echo);
    LosslessAgreement(users, ms, Mock(echo));
    PushLeadsTo(users, db, now, show);
  }

  /** The panel then decides every tag as the gate itself would. */
  lemma PanelDecidesLocally(db: Db, now: Time, show: Time -> string, ms: seq<Move>, rs: seq<Request>, echo: bool,
                            v: string)
    requires CleanDb(db) && ShowsDates(show) && ShadowFree(db, now)
    requires Orderly(ms) && Requested(ms, rs) && IsPush(rs, db, now, show)
    requires Lossless(Start({}), ms, Mock(echo))
    ensures var w := Play(Start({}), ms, Mock(echo));
            w.dev.queue == [] && w.dev.inFlight == [] ==> (v in w.panel.users <==> LocallyAdmitted(db, v, now))
  {
    RosterReachesPanel(db, now, show, {}, ms, rs, echo);
    PanelMatchesLocalCheck(db, now);
  }

  // ---- the push over a lossy link ----

  /** The lines of requests under the ids 1, 2, 3, ... */
  function NumberedLines(rs: seq<Request>): seq<string> {
    if rs == [] then [] else NumberedLines(rs[..|rs| - 1]) + [RequestLine(|rs|, rs[|rs| - 1])]
  }

  predicate Deliverable(line: string) {
    Sendable(line) && !PanelRead(line).Failed?
  }

  predicate AllDeliverable(lines: seq<string>) {
    forall i :: 0 <= i < |lines| ==> Deliverable(lines[i])
  }

  lemma OneMoreDeliverable(lines: seq<string>, line: string)
    requires AllDeliverable(lines) && Deliverable(line)
    ensures AllDeliverable(lines + [line])
  {
  }

  lemma {:induction false} LinesDeliverable(rs: seq<Request>)
    requires AllClean(rs)
    ensures AllDeliverable(NumberedLines(rs))
  {
    if rs != [] {
      var n := |rs| - 1;
      var line := RequestLine(n + 1, rs[n]);
      LinesDeliverable(rs[..n]);
      RequestSendable(n + 1, rs[n]);
      RequestRead(n + 1, rs[n], line);
      OneMoreDeliverable(NumberedLines(rs[..n]), line);
      NumberedOneMore(rs, line);
    }
  }

  lemma {:induction false} LinesExecuted(users: set<string>, rs: seq<Request>)
    requires AllClean(rs)
    ensures Fold(users, LineEffects(NumberedLines(rs))) == Table(users, rs)
  {
    if rs != [] {
      var n := |rs| - 1;
      LinesExecuted(users, rs[..n]);
      var line := RequestLine(n + 1, rs[n]);
      LastLineExecuted(users, NumberedLines(rs[..n]), rs[..n], rs[n], n + 1, line);
      NumberedOneMore(rs, line);
      SplitLast(rs);
    }
  }

  lemma NumberedOneMore(rs: seq<Request>, line: string)
    requires rs != [] && line == RequestLine(|rs|, rs[|rs| - 1])
    ensures NumberedLines(rs) == NumberedLines(rs[..|rs| - 1]) + [line]
  {
  }

  lemma SplitLast<T>(s: seq<T>)
    requires s != []
    ensures s == s[..|s| - 1] + [s[|s| - 1]]
  {
  }

  lemma LastLineExecuted(users: set<string>, before: seq<string>, init: seq<Request>, r: Request, id: nat, line: string)
    requires id > 0 && CleanRequest(r) && line == RequestLine(id, r)
    requires Fold(users, LineEffects(before)) == Table(users, init)
    ensures Fold(users, LineEffects(before + [line])) == Table(users, init + [r])
  {
    var op := RequestOp(r);
    RequestRead(id, r, line);
    OneMoreOp(init, r);
    OneMoreLine(before, line, op);
    OneMoreEffect(users, LineEffects(before), RequestOps(init), op);
  }

  lemma OneMoreLine(before: seq<string>, line: string, op: Effect)
    requires PanelEffect(line) == op
    ensures LineEffects(before + [line]) == LineEffects(before) + [op]
  {
    assert (before + [line])[..|before|] == before;
  }

  lemma OneMoreEffect(users: set<string>, a: seq<Effect>, b: seq<Effect>, op: Effect)
    requires Fold(users, a) == Fold(users, b)
    ensures Fold(users, a + [op]) == Fold(users, b + [op])
  {
    assert (a + [op])[..|a|] == a && (b + [op])[..|b|] == b;
  }

  lemma RequestRead(id: nat, r: Request, line: string)
    requires id > 0 && CleanRequest(r) && line == RequestLine(id, r)
    ensures PanelRead(line).Acted? && PanelEffect(line) == RequestOp(r)
  {
    match r
    case PutCard(card, info) => UserLineEffects(id, card, info);
    case DropCard(card) => DeleteLineEffects(id, card);
    case OpenDoor(door, seconds) => ControlLineEffects(id, door, seconds);
  }

  /** From text to table: a poll reply that carries clean requests, cut into lines, parsed and
      executed by the panel, has exactly their effect, in order. */
  lemma ReplyCarriesRequests(users: set<string>, rs: seq<Request>)
    requires AllClean(rs)
    ensures ExecuteLines(users, PanelLines(PollReply(NumberedLines(rs)))) == Table(users, rs)
  {
    LinesExecuted(users, rs);
    LinesDeliverable(rs);
    assert forall i :: 0 <= i < |NumberedLines(rs)| ==> Deliverable(NumberedLines(rs)[i]);
    ReplyExecuted(users, NumberedLines(rs));
  }

  lemma {:induction false} AddedAppend(a: seq<Effect>, b: seq<Effect>)
    ensures Added(a + b) == Added(a) + Added(b) && Removed(a + b) == Removed(a) + Removed(b)
  {
    if a == [] {
      assert a + b == b;
    } else {
      assert (a + b)[1..] == a[1..] + b;
      AddedAppend(a[1..], b);
    }
  }

  /** Requests that add the cards `puts` and remove the cards `drops`. */
  predicate Moves(rs: seq<Request>, puts: set<string>, drops: set<string>) {
    Added(RequestOps(rs)) == puts && Removed(RequestOps(rs)) == drops
  }

  lemma MovesAppend(a: seq<Request>, puts: set<string>, drops: set<string>,
                    b: seq<Request>, puts': set<string>, drops': set<string>)
    requires Moves(a, puts, drops) && Moves(b, puts', drops')
    ensures Moves(a + b, puts + puts', drops + drops')
  {
    RequestOpsAppend(a, b);
    AddedAppend(RequestOps(a), RequestOps(b));
  }

  lemma MovesOne(r: Request)
    requires !r.OpenDoor?
    ensures Moves([r], if r.PutCard? then {r.card} else {}, if r.DropCard? then {r.card} else {})
  {
    assert [r][..0] == [] && [RequestOp(r)][1..] == [];
    assert RequestOps([r]) == [RequestOp(r)];
  }

  lemma {:induction false} PutsMove(cards: seq<string>)
    ensures Moves(Puts(cards), set c | c in cards, {})
  {
    if cards != [] {
      var n := |cards| - 1;
      PutsMove(cards[..n]);
      MovesOne(PutCard(cards[n], NO_WINDOW));
      MovesAppend(Puts(cards[..n]), set c | c in cards[..n], {}, [PutCard(cards[n], NO_WINDOW)], {cards[n]}, {});
      assert cards == cards[..n] + [cards[n]];
      assert (set c | c in cards) == (set c | c in cards[..n]) + {cards[n]};
    }
  }

  lemma {:induction false} TimedPutsMove(rows: seq<CardRow>, bulk: seq<string>, now: Time, show: Time -> string)
    ensures Moves(TimedPuts(rows, bulk, now, show), Windowed(rows, bulk, now), {})
  {
    if rows != [] {
      var n := |rows| - 1;
      TimedPutsMove(rows[..n], bulk, now, show);
      TimedOneMore(rows, bulk, now, show);
      WindowedOneMore(rows, bulk, now);
      var before := TimedPuts(rows[..n], bulk, now, show);
      if NeedsWindow(rows[n], bulk, now) {
        MovesOne(WindowedPut(rows[n], show));
        MovesAppend(before, Windowed(rows[..n], bulk, now), {}, [WindowedPut(rows[n], show)], {rows[n].uid.value}, {});
      } else {
        assert before + [] == before;
      }
    }
  }

  lemma DropMoves(rs: seq<Request>, drops: set<string>, v: Option<string>)
    requires Moves(rs, {}, drops)
    ensures Moves(rs + DropIfFilled(v), {}, drops + Held(v))
  {
    if Filled(v) {
      MovesOne(DropCard(v.value));
      MovesAppend(rs, {}, drops, [DropCard(v.value)], {}, {v.value});
    } else {
      assert rs + [] == rs;
    }
  }

  lemma {:induction false} DropsMove(rows: seq<BlockRow>)
    ensures Moves(Drops(rows), {}, BlockedTags(rows) + BlockedUids(rows))
  {
    if rows != [] {
      var n := |rows| - 1;
      var r := rows[n];
      DropsMove(rows[..n]);
      BlockedOneMore(rows);
      var drops := BlockedTags(rows[..n]) + BlockedUids(rows[..n]);
      DropMoves(Drops(rows[..n]), drops, r.fastag);
      DropMoves(Drops(rows[..n]) + DropIfFilled(r.fastag), drops + Held(r.fastag), r.rfid);
      assert BlockedTags(rows) + BlockedUids(rows) == drops + Held(r.fastag) + Held(r.rfid);
    }
  }

  lemma PushMoves(db: Db, now: Time, show: Time -> string)
    ensures Moves(PushRequests(db, now, show), Provisioned(db, now), Blocked(db))
  {
    var bulk := Bulk(db);
    var timed := TimedPuts(db.cards, bulk, now, show);
    BulkIsPermanent(db);
    assert (set c | c in bulk) == Permanent(db);
    PutsMove(bulk);
    TimedPutsMove(db.cards, bulk, now, show);
    DropsMove(db.blacklist);
    MovesAppend(Puts(bulk), set c | c in bulk, {}, timed, Windowed(db.cards, bulk, now), {});
    assert (set c | c in bulk) + Windowed(db.cards, bulk, now) == Provisioned(db, now);
    MovesAppend(Puts(bulk) + timed, Provisioned(db, now), {}, Drops(db.blacklist), {}, Blocked(db));
  }

  /** With loss, reordering and retries, and door openings in between: full acknowledgement of the
      push guarantees the pushed table exactly when no blacklisted card is provisioned as well. */
  lemma LossyPushExactly(db: Db, now: Time, show: Time -> string, users: set<string>,
                         posts: seq<(int, string)>, rs: seq<Request>, echo: bool)
    requires CleanDb(db) && ShowsDates(show)
    requires FreshPosts(posts) && Written(posts, rs) && IsPush(rs, db, now, show)
    ensures Fold(users, CardOps(posts, Mock(echo))) == PushedTable(users, db, now)
    ensures AlwaysAgrees(posts, users, Mock(echo)) <==> Provisioned(db, now) !! Blocked(db)
  {
    PushIsClean(db, now, show);
    CleanWithDoors(rs);
    WrittenOps(posts, rs, echo);
    PushMoves(db, now, show);
    LossyAgreementExactly(posts, users, Mock(echo));
    PushLeadsTo(users, db, now, show);
  }
}
