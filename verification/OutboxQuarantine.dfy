/** An invalid event never leaves the table: it is charged, and in the end quarantined, but not lost. */
module OutboxQuarantine {
  import opened Basics
  import opened Outbox
  import opened OutboxConservation
  import opened OutboxProgress

  /** Waiting with rejections to spare, or quarantined with none. */
  predicate Shaped(r: Row) {
    (r.synced == 0 && r.attempts < MAX_ATTEMPTS) || (r.synced == -1 && r.attempts == MAX_ATTEMPTS)
  }

  ghost predicate Stands(rows: seq<Row>, e: Event) {
    exists r :: r in rows && r.event == e
  }

  ghost predicate InQuarantine(rows: seq<Row>, e: Event) {
    exists r :: r in rows && r.event == e && r.synced == -1 && r.attempts == MAX_ATTEMPTS
  }

  /** The table holds events that entered, and every invalid one of them. */
  ghost predicate Held(rows: seq<Row>, entered: seq<Event>, valid: Judge) {
    && Distinct(rows)
    && (forall r :: r in rows ==> Shaped(r) && r.event in entered)
    && (forall e :: e in entered && !valid(e) ==> Stands(rows, e))
  }

  lemma {:induction false} SameRow(rows: seq<Row>, x: Row, y: Row)
    requires Distinct(rows) && x in rows && y in rows && x.event.id == y.event.id
    ensures x == y
  {
    MemberIds(rows[1..]);
    if x != rows[0] && y != rows[0] { SameRow(rows[1..], x, y); }
  }

  lemma HeldDeleted(rows: seq<Row>, entered: seq<Event>, valid: Judge, r: Row)
    requires Held(rows, entered, valid) && r in rows && valid(r.event)
    ensures Held(Delete(rows, r.event.id), entered, valid)
    ensures forall x :: x in rows && x.event.id != r.event.id ==> x in Delete(rows, r.event.id)
  {
    DeleteIds(rows, r.event.id);
    DeleteMembers(rows, r.event.id);
    forall e | e in entered && !valid(e) ensures Stands(Delete(rows, r.event.id), e) {
      var x :| x in rows && x.event == e;
      if x.event.id == r.event.id { SameRow(rows, x, r); }
    }
  }

  lemma HeldCharged(rows: seq<Row>, entered: seq<Event>, valid: Judge, r: Row)
    requires Held(rows, entered, valid) && r in rows && r.synced == 0
    ensures Held(Reject(rows, r.event.id), entered, valid)
    ensures forall x :: x in rows && x.event.id != r.event.id ==> x in Reject(rows, r.event.id)
  {
    RejectIds(rows, r.event.id);
    RejectMembers(rows, r);
    ChargedStands(rows, r);
    forall e | e in entered && !valid(e) ensures Stands(Reject(rows, r.event.id), e) {
      var x :| x in rows && x.event == e;
      if x.event.id == r.event.id { SameRow(rows, x, r); }
    }
  }

  lemma {:induction false} ChargedStands(rows: seq<Row>, r: Row)
    requires r in rows && Distinct(rows)
    ensures Charged(r) in Reject(rows, r.event.id)
  {
    MemberIds(rows[1..]);
    if rows[0].event.id != r.event.id {
      ChargedStands(rows[1..], r);
    }
  }

  lemma {:induction false} HeldDelivered(rows: seq<Row>, entered: seq<Event>, valid: Judge, sent: seq<Row>)
    requires Held(rows, entered, valid) && Distinct(sent)
    requires forall t :: t in sent ==> t in rows && valid(t.event)
    ensures Held(DeleteAll(rows, sent), entered, valid)
    decreases sent
  {
    if sent != [] {
      assert sent[0] in sent && forall t :: t in sent[1..] ==> t in sent;
      MemberIds(sent[1..]);
      HeldDeleted(rows, entered, valid, sent[0]);
      HeldDelivered(Delete(rows, sent[0].event.id), entered, valid, sent[1..]);
    }
  }

  lemma {:induction false} AllValidRows(sent: seq<Row>, valid: Judge)
    requires AllValid(EventsOf(sent), valid)
    ensures forall t :: t in sent ==> valid(t.event)
  {
    EventIdsOfRows(sent);
  }

  lemma OneHonest(cloud: Cloud, valid: Judge, n: nat, r: Row)
    requires Honest(cloud, valid)
    ensures cloud(n, [r.event]) == Accepted ==> valid(r.event)
  {
    assert cloud(n, [r.event]) == Transient ||
           cloud(n, [r.event]) == if AllValid([r.event], valid) then Accepted else Rejected;
    OneEvent(r, valid);
  }

  lemma {:induction false} HeldIsolate(s: Store, entered: seq<Event>, todo: seq<Row>, cloud: Cloud, valid: Judge)
    requires Honest(cloud, valid) && Held(s.rows, entered, valid)
    requires Distinct(todo) && forall t :: t in todo ==> t in s.rows && t.synced == 0
    ensures Held(Isolate(s, todo, cloud).rows, entered, valid)
    decreases todo
  {
    if todo != [] {
      var r := todo[0];
      var rest := todo[1..];
      OneRow(r);
      OneHonest(cloud, valid, |s.log|, r);
      assert r in todo && forall t :: t in rest ==> t in todo;
      MemberIds(rest);
      match cloud(|s.log|, EventsOf([r]))
      case Accepted =>
        HeldDeleted(s.rows, entered, valid, r);
        HeldIsolate(Store(Delete(s.rows, r.event.id), s.log + [Post(EventsOf([r]), Accepted)]), entered, rest, cloud,
            valid);
      case Rejected =>
        HeldCharged(s.rows, entered, valid, r);
        HeldIsolate(Store(Reject(s.rows, r.event.id), s.log + [Post(EventsOf([r]), Rejected)]), entered, rest, cloud,
            valid);
      case Transient =>
    }
  }

  lemma HeldSync(s: Store, entered: seq<Event>, batch: int, cloud: Cloud, valid: Judge)
    requires Honest(cloud, valid) && Held(s.rows, entered, valid)
    ensures Held(Sync(s, batch, cloud).rows, entered, valid)
  {
    var sent := Select(s.rows, batch);
    var es := EventsOf(sent);
    SelectMembers(s.rows, batch);
    if sent != [] {
      var reply := cloud(|s.log|, es);
      assert reply == Transient || reply == if AllValid(es, valid) then Accepted else Rejected;
      match reply
      case Accepted =>
        AllValidRows(sent, valid);
        HeldDelivered(s.rows, entered, valid, sent);
      case Transient =>
      case Rejected =>
        if |sent| == 1 {
          HeldCharged(s.rows, entered, valid, sent[0]);
        } else {
          HeldIsolate(s.(log := s.log + [Post(es, Rejected)]), entered, sent, cloud, valid);
        }
    }
  }

  lemma {:induction false} HeldAdd(rows: seq<Row>, entered: seq<Event>, valid: Judge, e: Event, now: Time)
    requires Held(rows, entered, valid) && e.id !in Ids(rows)
    ensures Held(Place(rows, Row(e, now, 0, 0)), entered + [e], valid)
  {
    var r := Row(e, now, 0, 0);
    PlaceIds(rows, r);
    assert r in Place(rows, r);
    forall x | x in entered && !valid(x) ensures Stands(Place(rows, r), x) {
      var y :| y in rows && y.event == x;
      assert y in Place(rows, r);
    }
  }

  /** Over every run: rows are waiting or quarantined in good order, and no invalid event that
      entered is ever missing. */
  lemma {:induction false} InvalidNeverLost(steps: seq<Step>, cloud: Cloud, valid: Judge)
    requires Honest(cloud, valid)
    ensures Held(Run(steps, cloud).rows, Inserted(steps, cloud), valid)
  {
    if steps != [] {
      var before := steps[..|steps| - 1];
      var s := Run(before, cloud);
      InvalidNeverLost(before, cloud, valid);
      assert Inserted(before, cloud) + [] == Inserted(before, cloud);
      match steps[|steps| - 1]
      case Add(e, at) =>
        if e.id !in Ids(s.rows) { HeldAdd(s.rows, Inserted(before, cloud), valid, e, at); }
      case Flush(batch) =>
        HeldSync(s, Inserted(before, cloud), batch, cloud, valid);
    }
  }

  /** With nothing waiting and no valid event left, the table is the quarantine of the invalid ones. */
  lemma QuarantineIs(rows: seq<Row>, entered: seq<Event>, valid: Judge)
    requires Held(rows, entered, valid) && forall r :: r in rows ==> r.synced != 0 && !valid(r.event)
    ensures forall e :: InQuarantine(rows, e) <==> e in entered && !valid(e)
  {
    forall e | e in entered && !valid(e) ensures InQuarantine(rows, e) {
      var r :| r in rows && r.event == e;
      assert Shaped(r);
    }
  }
}
