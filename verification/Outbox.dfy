/** The store-and-forward queue of gate events: batches, isolation of a bad record, attempt
    counting and quarantine, against a cloud that answers as it likes. */
module Outbox {
  import opened Basics

  const MAX_ATTEMPTS: nat := 3

  datatype Event = Event(id: string, payload: string)

  /** `synced` is 0 while the event waits and -1 once it is quarantined. */
  datatype Row = Row(event: Event, created: Time, synced: int, attempts: nat)

  /** One request's outcome: accepted, permanently rejected, or a failure worth retrying. */
  datatype Reply = Accepted | Rejected | Transient

  datatype Post = Post(events: seq<Event>, reply: Reply)

  /** `rows` in drain order, by creation time and then by row id; `log` is every request made. */
  datatype Store = Store(rows: seq<Row>, log: seq<Post>)

  /** The cloud's answer may depend on which request this is and on what it carries. */
  type Cloud = (nat, seq<Event>) -> Reply

  // ---- the table ----

  function Ids(rows: seq<Row>): set<string> {
    if rows == [] then {} else {rows[0].event.id} + Ids(rows[1..])
  }

  predicate Distinct(rows: seq<Row>) {
    rows == [] || (rows[0].event.id !in Ids(rows[1..]) && Distinct(rows[1..]))
  }

  /** A new row has the highest row id: it drains after every row created no later. */
  function Place(rows: seq<Row>, r: Row): seq<Row> {
    if rows == [] || rows[|rows| - 1].created <= r.created then rows + [r]
    else Place(rows[..|rows| - 1], r) + [rows[|rows| - 1]]
  }

  /** INSERT OR IGNORE on the event id. */
  function Enqueue(s: Store, e: Event, now: Time): Store {
    if e.id in Ids(s.rows) then s else s.(rows := Place(s.rows, Row(e, now, 0, 0)))
  }

  function Pending(rows: seq<Row>): seq<Row> {
    if rows == [] then []
    else if rows[0].synced == 0 then [rows[0]] + Pending(rows[1..])
    else Pending(rows[1..])
  }

  function Quarantined(rows: seq<Row>): seq<Row> {
    if rows == [] then []
    else if rows[0].synced == -1 then [rows[0]] + Quarantined(rows[1..])
    else Quarantined(rows[1..])
  }

  /** The oldest pending rows; a negative LIMIT is no limit. */
  function Select(rows: seq<Row>, batch: int): seq<Row> {
    var p := Pending(rows);
    if batch < 0 || batch >= |p| then p else p[..batch]
  }

  function Delete(rows: seq<Row>, id: string): seq<Row> {
    if rows == [] then []
    else if rows[0].event.id == id then rows[1..]
    else [rows[0]] + Delete(rows[1..], id)
  }

  function DeleteAll(rows: seq<Row>, sent: seq<Row>): seq<Row>
    decreases sent
  {
    if sent == [] then rows else DeleteAll(Delete(rows, sent[0].event.id), sent[1..])
  }

  /** One more permanent rejection; at MAX_ATTEMPTS the row is quarantined. */
  function Charged(r: Row): Row {
    var n := r.attempts + 1;
    if n >= MAX_ATTEMPTS then r.(synced := -1, attempts := n) else r.(attempts := n)
  }

  function Reject(rows: seq<Row>, id: string): seq<Row> {
    if rows == [] then []
    else if rows[0].event.id == id then [Charged(rows[0])] + rows[1..]
    else [rows[0]] + Reject(rows[1..], id)
  }

  function EventsOf(rows: seq<Row>): seq<Event> {
    if rows == [] then [] else [rows[0].event] + EventsOf(rows[1..])
  }

  // ---- sync ----

  function Logged(s: Store, sent: seq<Row>, cloud: Cloud): Store {
    s.(log := s.log + [Post(EventsOf(sent), cloud(|s.log|, EventsOf(sent)))])
  }

  /** Each row of a rejected batch is sent on its own, until one fails transiently. */
  function Isolate(s: Store, todo: seq<Row>, cloud: Cloud): Store
    decreases todo
  {
    if todo == [] then s
    else
      var s' := Logged(s, [todo[0]], cloud);
      match cloud(|s.log|, EventsOf([todo[0]]))
      case Accepted => Isolate(s'.(rows := Delete(s'.rows, todo[0].event.id)), todo[1..], cloud)
      case Rejected => Isolate(s'.(rows := Reject(s'.rows, todo[0].event.id)), todo[1..], cloud)
      case Transient => s'
  }

  function Sync(s: Store, batch: int, cloud: Cloud): Store {
    var sent := Select(s.rows, batch);
    if sent == [] then s
    else
      var s' := Logged(s, sent, cloud);
      match cloud(|s.log|, EventsOf(sent))
      case Accepted => s'.(rows := DeleteAll(s'.rows, sent))
      case Transient => s'
      case Rejected =>
        if |sent| == 1 then s'.(rows := Reject(s'.rows, sent[0].event.id)) else Isolate(s', sent, cloud)
  }

  // ---- runs ----

  datatype Step = Add(event: Event, at: Time) | Flush(batch: int)

  function Apply(s: Store, step: Step, cloud: Cloud): Store {
    match step
    case Add(e, at) => Enqueue(s, e, at)
    case Flush(batch) => Sync(s, batch, cloud)
  }

  const EMPTY_STORE := Store([], [])

  function Run(steps: seq<Step>, cloud: Cloud): Store {
    if steps == [] then EMPTY_STORE
    else Apply(Run(steps[..|steps| - 1], cloud), steps[|steps| - 1], cloud)
  }

  /** The events a run actually put into the table, in order. */
  function Inserted(steps: seq<Step>, cloud: Cloud): seq<Event> {
    if steps == [] then []
    else
      var before := steps[..|steps| - 1];
      var step := steps[|steps| - 1];
      Inserted(before, cloud) +
        if step.Add? && step.event.id !in Ids(Run(before, cloud).rows) then [step.event] else []
  }

  /** The events accepted by the cloud, in the order of acceptance. */
  function Delivered(log: seq<Post>): seq<Event> {
    if log == [] then []
    else
      var p := log[|log| - 1];
      Delivered(log[..|log| - 1]) + if p.reply == Accepted then p.events else []
  }

  /** How often the cloud rejected this event when it was sent alone. */
  function SoloRejections(log: seq<Post>, id: string): nat {
    if log == [] then 0
    else
      var p := log[|log| - 1];
      SoloRejections(log[..|log| - 1], id) +
        if p.reply == Rejected && |p.events| == 1 && p.events[0].id == id then 1 else 0
  }

  // ---- ids of rows ----

  lemma {:induction false} IdsAppend(a: seq<Row>, b: seq<Row>)
    ensures Ids(a + b) == Ids(a) + Ids(b)
    ensures Distinct(a + b) <==> Distinct(a) && Distinct(b) && Ids(a) !! Ids(b)
  {
    if a == [] {
      assert a + b == b;
    } else {
      assert (a + b)[1..] == a[1..] + b;
      IdsAppend(a[1..], b);
    }
  }

  lemma OneRow(r: Row)
    ensures Ids([r]) == {r.event.id} && Distinct([r]) && EventsOf([r]) == [r.event]
  {
    assert [r][1..] == [];
  }

  lemma {:induction false} PlaceIds(rows: seq<Row>, r: Row)
    ensures Ids(Place(rows, r)) == Ids(rows) + {r.event.id}
    ensures Distinct(rows) && r.event.id !in Ids(rows) ==> Distinct(Place(rows, r))
    ensures forall x :: x in Place(rows, r) <==> x in rows || x == r
  {
    OneRow(r);
    if rows == [] || rows[|rows| - 1].created <= r.created {
      IdsAppend(rows, [r]);
    } else {
      var n := |rows| - 1;
      assert rows == rows[..n] + [rows[n]];
      OneRow(rows[n]);
      IdsAppend(rows[..n], [rows[n]]);
      PlaceIds(rows[..n], r);
      IdsAppend(Place(rows[..n], r), [rows[n]]);
    }
  }

  lemma {:induction false} DeleteIds(rows: seq<Row>, id: string)
    requires Distinct(rows)
    ensures Ids(Delete(rows, id)) == Ids(rows) - {id} && Distinct(Delete(rows, id))
    ensures forall x :: x in Delete(rows, id) ==> x in rows
  {
    if rows != [] && rows[0].event.id != id {
      DeleteIds(rows[1..], id);
      var rest := Delete(rows[1..], id);
      assert ([rows[0]] + rest)[1..] == rest;
    }
  }

  lemma {:induction false} DeleteAllIds(rows: seq<Row>, sent: seq<Row>)
    requires Distinct(rows)
    ensures Ids(DeleteAll(rows, sent)) == Ids(rows) - Ids(sent) && Distinct(DeleteAll(rows, sent))
    ensures forall x :: x in DeleteAll(rows, sent) ==> x in rows
    decreases sent
  {
    if sent != [] {
      DeleteIds(rows, sent[0].event.id);
      DeleteAllIds(Delete(rows, sent[0].event.id), sent[1..]);
    }
  }

  lemma {:induction false} RejectIds(rows: seq<Row>, id: string)
    ensures Ids(Reject(rows, id)) == Ids(rows) && (Distinct(rows) ==> Distinct(Reject(rows, id)))
    ensures EventsOf(Reject(rows, id)) == EventsOf(rows)
  {
    if rows != [] {
      if rows[0].event.id == id {
        assert ([Charged(rows[0])] + rows[1..])[1..] == rows[1..];
      } else {
        RejectIds(rows[1..], id);
        var rest := Reject(rows[1..], id);
        assert ([rows[0]] + rest)[1..] == rest;
      }
    }
  }

  lemma {:induction false} MemberIds(rows: seq<Row>)
    ensures forall r :: r in rows ==> r.event.id in Ids(rows)
    ensures forall id :: id in Ids(rows) ==> exists r :: r in rows && r.event.id == id
  {
    if rows != [] {
      MemberIds(rows[1..]);
      assert rows == [rows[0]] + rows[1..];
      forall id | id in Ids(rows) ensures exists r :: r in rows && r.event.id == id {
        if id == rows[0].event.id {
          assert rows[0] in rows;
        } else {
          var r :| r in rows[1..] && r.event.id == id;
          assert r in rows;
        }
      }
    }
  }

  lemma {:induction false} PendingMembers(rows: seq<Row>)
    ensures forall r :: r in Pending(rows) <==> r in rows && r.synced == 0
    ensures Ids(Pending(rows)) <= Ids(rows) && (Distinct(rows) ==> Distinct(Pending(rows)))
  {
    if rows != [] {
      PendingMembers(rows[1..]);
      assert rows == [rows[0]] + rows[1..];
      var rest := Pending(rows[1..]);
      assert ([rows[0]] + rest)[1..] == rest;
    }
  }

  lemma SelectMembers(rows: seq<Row>, batch: int)
    ensures forall r :: r in Select(rows, batch) ==> r in rows && r.synced == 0
    ensures Select(rows, batch) <= Pending(rows)
    ensures Distinct(rows) ==> Distinct(Select(rows, batch))
  {
    PendingMembers(rows);
    var p := Pending(rows);
    var s := Select(rows, batch);
    assert p == s + p[|s|..];
    IdsAppend(s, p[|s|..]);
  }
}
