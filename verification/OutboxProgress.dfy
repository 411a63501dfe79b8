/** Against a cloud that accepts exactly the valid events: delivery in order over every run, no
    charge to a valid event, and a bounded number of calls to drain the queue. */
module OutboxProgress {
  import opened Basics
  import opened Outbox
  import opened OutboxConservation

  type Judge = Event -> bool

  predicate AllValid(es: seq<Event>, valid: Judge) {
    forall i :: 0 <= i < |es| ==> valid(es[i])
  }

  /** A batch is accepted exactly when all its events are valid, permanently rejected otherwise, and
      any request may fail transiently. */
  ghost predicate Honest(cloud: Cloud, valid: Judge) {
    forall n, es :: cloud(n, es) == Transient || cloud(n, es) == if AllValid(es, valid) then Accepted else Rejected
  }

  function Valids(es: seq<Event>, valid: Judge): seq<Event> {
    if es == [] then []
    else if valid(es[0]) then [es[0]] + Valids(es[1..], valid)
    else Valids(es[1..], valid)
  }

  // ---- in-order delivery ----

  /** Only invalid events are ever charged or quarantined. */
  predicate ValidUncharged(rows: seq<Row>, valid: Judge) {
    forall r :: r in rows && valid(r.event) ==> r.synced == 0 && r.attempts == 0
  }

  /** The valid events still in the table, in drain order. */
  function Waiting(rows: seq<Row>, valid: Judge): seq<Event> {
    Valids(EventsOf(rows), valid)
  }

  lemma {:induction false} ValidsAppend(a: seq<Event>, b: seq<Event>, valid: Judge)
    ensures Valids(a + b, valid) == Valids(a, valid) + Valids(b, valid)
  {
    if a == [] {
      assert a + b == b;
    } else {
      assert (a + b)[1..] == a[1..] + b;
      ValidsAppend(a[1..], b, valid);
    }
  }

  lemma {:induction false} AllValidKept(es: seq<Event>, valid: Judge)
    requires AllValid(es, valid)
    ensures Valids(es, valid) == es
  {
    if es != [] {
      assert AllValid(es[1..], valid) by { assert forall i :: 0 <= i < |es| - 1 ==> es[1..][i] == es[i + 1]; }
      AllValidKept(es[1..], valid);
      assert es == [es[0]] + es[1..];
    }
  }

  lemma {:induction false} EventsAppend(a: seq<Row>, b: seq<Row>)
    ensures EventsOf(a + b) == EventsOf(a) + EventsOf(b)
  {
    if a == [] {
      assert a + b == b;
    } else {
      assert (a + b)[1..] == a[1..] + b;
      EventsAppend(a[1..], b);
    }
  }

  lemma {:induction false} WaitingArePending(rows: seq<Row>, valid: Judge)
    requires ValidUncharged(rows, valid)
    ensures Waiting(Pending(rows), valid) == Waiting(rows, valid)
  {
    if rows != [] {
      assert rows[0] in rows && forall r :: r in rows[1..] ==> r in rows;
      WaitingArePending(rows[1..], valid);
    }
  }

  /** The valid events of a batch are the first valid events of the table. */
  lemma SelectedFirst(rows: seq<Row>, batch: int, valid: Judge) returns (rest: seq<Event>)
    requires ValidUncharged(rows, valid)
    ensures Waiting(rows, valid) == Waiting(Select(rows, batch), valid) + rest
  {
    WaitingArePending(rows, valid);
    SelectMembers(rows, batch);
    var p := Pending(rows);
    var s := Select(rows, batch);
    assert p == s + p[|s|..];
    EventsAppend(s, p[|s|..]);
    ValidsAppend(EventsOf(s), EventsOf(p[|s|..]), valid);
    rest := Waiting(p[|s|..], valid);
  }

  /** Deleting the first waiting valid event leaves the others waiting, in order. */
  lemma {:induction false} DeleteFirst(rows: seq<Row>, e: Event, rest: seq<Event>, valid: Judge)
    requires Distinct(rows) && Waiting(rows, valid) == [e] + rest
    ensures Waiting(Delete(rows, e.id), valid) == rest
  {
    if valid(rows[0].event) {
      assert Waiting(rows, valid)[0] == rows[0].event == e;
      assert Waiting(rows, valid)[1..] == rest;
    } else {
      var tail := rows[1..];
      WaitingIds(tail, valid);
      assert Waiting(tail, valid)[0] == e;
      DeleteFirst(tail, e, rest, valid);
      var kept := Delete(tail, e.id);
      assert ([rows[0]] + kept)[1..] == kept;
    }
  }

  lemma {:induction false} WaitingIds(rows: seq<Row>, valid: Judge)
    ensures forall e :: e in Waiting(rows, valid) ==> e.id in Ids(rows)
  {
    if rows != [] { WaitingIds(rows[1..], valid); }
  }

  lemma {:induction false} DeleteSent(rows: seq<Row>, sent: seq<Row>, rest: seq<Event>, valid: Judge)
    requires Distinct(rows) && AllValid(EventsOf(sent), valid)
    requires Waiting(rows, valid) == EventsOf(sent) + rest
    ensures Waiting(DeleteAll(rows, sent), valid) == rest
    decreases sent
  {
    if sent == [] {
      assert EventsOf(sent) + rest == rest;
    } else {
      var es := EventsOf(sent);
      var e := sent[0].event;
      assert es[1..] == EventsOf(sent[1..]);
      assert es + rest == [e] + (EventsOf(sent[1..]) + rest);
      DeleteFirst(rows, e, EventsOf(sent[1..]) + rest, valid);
      DeleteIds(rows, e.id);
      DeleteSent(Delete(rows, e.id), sent[1..], rest, valid);
    }
  }

  /** What is conserved: everything delivered, followed by every valid event still waiting. */
  function Line(s: Store, valid: Judge): seq<Event> {
    Delivered(s.log) + Waiting(s.rows, valid)
  }

  ghost predicate Orderly(s: Store, valid: Judge) {
    Distinct(s.rows) && ValidUncharged(s.rows, valid) && AllValid(Delivered(s.log), valid)
  }

  lemma AcceptedKeepsLine(s: Store, sent: seq<Row>, rest: seq<Event>, valid: Judge)
    requires Orderly(s, valid) && AllValid(EventsOf(sent), valid)
    requires Waiting(s.rows, valid) == EventsOf(sent) + rest
    ensures var s' := Store(DeleteAll(s.rows, sent), s.log + [Post(EventsOf(sent), Accepted)]);
            Orderly(s', valid) && Line(s', valid) == Line(s, valid) && Waiting(s'.rows, valid) == rest
  {
    LogOne(s.log, Post(EventsOf(sent), Accepted));
    DeleteSent(s.rows, sent, rest, valid);
    DeleteAllIds(s.rows, sent);
    Associate(Delivered(s.log), EventsOf(sent), rest);
    ValidJoined(Delivered(s.log), EventsOf(sent), valid);
    forall r | r in DeleteAll(s.rows, sent) && valid(r.event) ensures r.attempts == 0 {
      assert r in s.rows;
    }
  }

  lemma ValidJoined(a: seq<Event>, b: seq<Event>, valid: Judge)
    requires AllValid(a, valid) && AllValid(b, valid)
    ensures AllValid(a + b, valid)
  {
  }

  lemma ChargedKeepsLine(s: Store, r: Row, valid: Judge)
    requires Orderly(s, valid) && r in s.rows && !valid(r.event)
    ensures var s' := Store(Reject(s.rows, r.event.id), s.log + [Post([r.event], Rejected)]);
            Orderly(s', valid) && Line(s', valid) == Line(s, valid) && Waiting(s'.rows, valid) == Waiting(s.rows, valid)
  {
    LogOne(s.log, Post([r.event], Rejected));
    RejectIds(s.rows, r.event.id);
    RejectMembers(s.rows, r);
  }

  lemma OneEvent(r: Row, valid: Judge)
    ensures EventsOf([r]) == [r.event] && (AllValid([r.event], valid) <==> valid(r.event))
    ensures Waiting([r], valid) == if valid(r.event) then [r.event] else []
  {
    OneRow(r);
    var es := [r.event];
    assert es[0] == r.event && es[1..] == [];
    assert Valids([], valid) == [];
  }

  /** The first of a rejected batch, accepted on its own. */
  lemma IsolateAccepts(s: Store, r: Row, tail: seq<Row>, rest: seq<Event>, valid: Judge)
    requires Orderly(s, valid) && valid(r.event) && r.event.id !in Ids(tail)
    requires forall t :: t in tail ==> t in s.rows
    requires Waiting(s.rows, valid) == [r.event] + Waiting(tail, valid) + rest
    ensures var s' := Store(Delete(s.rows, r.event.id), s.log + [Post([r.event], Accepted)]);
            && Orderly(s', valid) && Line(s', valid) == Line(s, valid)
            && Waiting(s'.rows, valid) == Waiting(tail, valid) + rest
            && (forall t :: t in tail ==> t in s'.rows)
  {
    OneEvent(r, valid);
    assert [r.event] + Waiting(tail, valid) + rest == [r.event] + (Waiting(tail, valid) + rest);
    AcceptedKeepsLine(s, [r], Waiting(tail, valid) + rest, valid);
    assert [r][1..] == [] && DeleteAll(s.rows, [r]) == Delete(s.rows, r.event.id);
    DeleteMembers(s.rows, r.event.id);
    MemberIds(tail);
  }

  /** The first of a rejected batch, rejected on its own. */
  lemma IsolateCharges(s: Store, r: Row, tail: seq<Row>, rest: seq<Event>, valid: Judge)
    requires Orderly(s, valid) && !valid(r.event) && r in s.rows && r.event.id !in Ids(tail)
    requires forall t :: t in tail ==> t in s.rows
    requires Waiting(s.rows, valid) == Waiting(tail, valid) + rest
    ensures var s' := Store(Reject(s.rows, r.event.id), s.log + [Post([r.event], Rejected)]);
            && Orderly(s', valid) && Line(s', valid) == Line(s, valid)
            && Waiting(s'.rows, valid) == Waiting(tail, valid) + rest
            && (forall t :: t in tail ==> t in s'.rows)
  {
    ChargedKeepsLine(s, r, valid);
    RejectMembers(s.rows, r);
    MemberIds(tail);
  }

  /** Isolation delivers the valid events of the batch in order, up to where it breaks off. */
  lemma {:induction false} IsolateKeepsLine(s: Store, todo: seq<Row>, rest: seq<Event>, cloud: Cloud, valid: Judge)
    requires Honest(cloud, valid) && Orderly(s, valid)
    requires Distinct(todo) && forall t :: t in todo ==> t in s.rows
    requires Waiting(s.rows, valid) == Waiting(todo, valid) + rest
    ensures var s' := Isolate(s, todo, cloud); Orderly(s', valid) && Line(s', valid) == Line(s, valid)
    decreases todo
  {
    if todo != [] {
      var r := todo[0];
      var tail := todo[1..];
      OneEvent(r, valid);
      assert r in todo && forall t :: t in tail ==> t in todo;
      match cloud(|s.log|, [r.event])
      case Accepted =>
        IsolateAccepts(s, r, tail, rest, valid);
        IsolateKeepsLine(Store(Delete(s.rows, r.event.id), s.log + [Post([r.event], Accepted)]), tail, rest, cloud,
            valid);
      case Rejected =>
        IsolateCharges(s, r, tail, rest, valid);
        IsolateKeepsLine(Store(Reject(s.rows, r.event.id), s.log + [Post([r.event], Rejected)]), tail, rest, cloud,
            valid);
      case Transient =>
        LogOne(s.log, Post([r.event], Transient));
    }
  }

  lemma SyncKeepsLine(s: Store, batch: int, cloud: Cloud, valid: Judge)
    requires Honest(cloud, valid) && Orderly(s, valid)
    ensures var s' := Sync(s, batch, cloud); Orderly(s', valid) && Line(s', valid) == Line(s, valid)
  {
    var sent := Select(s.rows, batch);
    var es := EventsOf(sent);
    SelectMembers(s.rows, batch);
    var rest := SelectedFirst(s.rows, batch, valid);
    if sent != [] {
      var reply := cloud(|s.log|, es);
      LogOne(s.log, Post(es, reply));
      match reply
      case Accepted =>
        AllValidKept(es, valid);
        AcceptedKeepsLine(s, sent, rest, valid);
      case Transient =>
      case Rejected =>
        if |sent| == 1 {
          OneEvent(sent[0], valid);
          assert sent == [sent[0]];
          ChargedKeepsLine(s, sent[0], valid);
        } else {
          IsolateKeepsLine(s.(log := s.log + [Post(es, Rejected)]), sent, rest, cloud, valid);
        }
    }
  }

  /** The clock never runs backwards. */
  predicate ClockForward(steps: seq<Step>) {
    forall i, j :: 0 <= i < j < |steps| && steps[i].Add? && steps[j].Add? ==> steps[i].at <= steps[j].at
  }

  predicate CreatedBy(rows: seq<Row>, now: Time) {
    forall r :: r in rows ==> r.created <= now
  }

  lemma {:induction false} SyncRowsFrom(s: Store, todo: seq<Row>, cloud: Cloud, now: Time)
    requires CreatedBy(s.rows, now)
    ensures CreatedBy(Isolate(s, todo, cloud).rows, now)
    decreases todo
  {
    if todo != [] {
      var r := todo[0];
      DeleteCreated(s.rows, r.event.id, now);
      var s' := Logged(s, [r], cloud);
      match cloud(|s.log|, EventsOf([r]))
      case Accepted => SyncRowsFrom(s'.(rows := Delete(s'.rows, r.event.id)), todo[1..], cloud, now);
      case Rejected => SyncRowsFrom(s'.(rows := Reject(s'.rows, r.event.id)), todo[1..], cloud, now);
      case Transient =>
    }
  }

  lemma {:induction false} DeleteCreated(rows: seq<Row>, id: string, now: Time)
    requires CreatedBy(rows, now)
    ensures CreatedBy(Delete(rows, id), now) && CreatedBy(Reject(rows, id), now)
  {
    if rows != [] {
      assert rows[0] in rows && forall r :: r in rows[1..] ==> r in rows;
      DeleteCreated(rows[1..], id, now);
    }
  }

  lemma {:induction false} DeleteAllCreated(rows: seq<Row>, sent: seq<Row>, now: Time)
    requires CreatedBy(rows, now)
    ensures CreatedBy(DeleteAll(rows, sent), now)
    decreases sent
  {
    if sent != [] {
      DeleteCreated(rows, sent[0].event.id, now);
      DeleteAllCreated(Delete(rows, sent[0].event.id), sent[1..], now);
    }
  }

  lemma SyncCreated(s: Store, batch: int, cloud: Cloud, now: Time)
    requires CreatedBy(s.rows, now)
    ensures CreatedBy(Sync(s, batch, cloud).rows, now)
  {
    var sent := Select(s.rows, batch);
    if sent != [] {
      DeleteAllCreated(s.rows, sent, now);
      DeleteCreated(s.rows, sent[0].event.id, now);
      SyncRowsFrom(Logged(s, sent, cloud), sent, cloud, now);
    }
  }

  lemma {:induction false} RunCreated(steps: seq<Step>, cloud: Cloud, now: Time)
    requires forall i :: 0 <= i < |steps| && steps[i].Add? ==> steps[i].at <= now
    ensures CreatedBy(Run(steps, cloud).rows, now)
  {
    if steps != [] {
      var before := steps[..|steps| - 1];
      RunCreated(before, cloud, now);
      var s := Run(before, cloud);
      match steps[|steps| - 1]
      case Add(e, at) => PlaceIds(s.rows, Row(e, at, 0, 0));
      case Flush(batch) => SyncCreated(s, batch, cloud, now);
    }
  }

  lemma AddExtendsLine(s: Store, e: Event, now: Time, valid: Judge)
    requires Orderly(s, valid) && e.id !in Ids(s.rows) && CreatedBy(s.rows, now)
    ensures var s' := Enqueue(s, e, now);
            Orderly(s', valid) && Line(s', valid) == Line(s, valid) + Valids([e], valid)
  {
    var r := Row(e, now, 0, 0);
    if s.rows != [] { assert s.rows[|s.rows| - 1] in s.rows; }
    assert Place(s.rows, r) == s.rows + [r];
    PlaceIds(s.rows, r);
    OneRow(r);
    EventsAppend(s.rows, [r]);
    ValidsAppend(EventsOf(s.rows), [e], valid);
    assert Delivered(s.log) + (Waiting(s.rows, valid) + Valids([e], valid))
        == Delivered(s.log) + Waiting(s.rows, valid) + Valids([e], valid);
  }

  lemma {:induction false} LineIsWhatEntered(steps: seq<Step>, cloud: Cloud, valid: Judge)
    requires Honest(cloud, valid) && ClockForward(steps)
    ensures var s := Run(steps, cloud);
            Orderly(s, valid) && Line(s, valid) == Valids(Inserted(steps, cloud), valid)
  {
    if steps != [] {
      var before := steps[..|steps| - 1];
      LineIsWhatEntered(before, cloud, valid);
      var s := Run(before, cloud);
      var entered := Inserted(before, cloud);
      assert entered + [] == entered;
      match steps[|steps| - 1]
      case Add(e, at) =>
        if e.id !in Ids(s.rows) {
          RunCreated(before, cloud, at);
          AddExtendsLine(s, e, at, valid);
          ValidsAppend(entered, [e], valid);
        }
      case Flush(batch) => SyncKeepsLine(s, batch, cloud, valid);
    }
  }

  /** Over every run, across batches, isolation and broken-off isolation: the events delivered are
      always a prefix, in order, of the valid events that entered, and no valid event is ever
      charged or quarantined. */
  lemma DeliveredInOrder(steps: seq<Step>, cloud: Cloud, valid: Judge)
    requires Honest(cloud, valid) && ClockForward(steps)
    ensures var s := Run(steps, cloud);
            Delivered(s.log) <= Valids(Inserted(steps, cloud), valid) && ValidUncharged(s.rows, valid)
  {
    LineIsWhatEntered(steps, cloud, valid);
  }
}
