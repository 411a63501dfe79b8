/** Whatever the cloud answers, the queue neither loses nor duplicates an event. */
module OutboxConservation {
  import opened Basics
  import opened Outbox

  function EventIds(es: seq<Event>): set<string> {
    if es == [] then {} else {es[0].id} + EventIds(es[1..])
  }

  predicate DistinctEvents(es: seq<Event>) {
    es == [] || (es[0].id !in EventIds(es[1..]) && DistinctEvents(es[1..]))
  }

  lemma {:induction false} EventIdsAppend(a: seq<Event>, b: seq<Event>)
    ensures EventIds(a + b) == EventIds(a) + EventIds(b)
    ensures DistinctEvents(a + b) <==> DistinctEvents(a) && DistinctEvents(b) && EventIds(a) !! EventIds(b)
  {
    if a == [] {
      assert a + b == b;
    } else {
      assert (a + b)[1..] == a[1..] + b;
      EventIdsAppend(a[1..], b);
    }
  }

  lemma {:induction false} EventIdsOfRows(rows: seq<Row>)
    ensures EventIds(EventsOf(rows)) == Ids(rows) && (Distinct(rows) ==> DistinctEvents(EventsOf(rows)))
    ensures |EventsOf(rows)| == |rows|
    ensures forall r :: r in rows ==> r.event in EventsOf(rows)
  {
    if rows != [] {
      EventIdsOfRows(rows[1..]);
      var rest := EventsOf(rows[1..]);
      assert EventsOf(rows)[0] == rows[0].event && EventsOf(rows)[1..] == rest;
      forall r | r in rows ensures r.event in EventsOf(rows) {
        assert r == rows[0] || r in rows[1..];
      }
    }
  }

  /** A waiting row has been rejected fewer than MAX_ATTEMPTS times, a quarantined one exactly so
      often; each count is the number of rejections the event met on its own. */
  ghost predicate RowSound(r: Row, log: seq<Post>, inserted: seq<Event>) {
    && ((r.synced == 0 && r.attempts < MAX_ATTEMPTS) || (r.synced == -1 && r.attempts == MAX_ATTEMPTS))
    && r.attempts == SoloRejections(log, r.event.id)
    && r.event in inserted
  }

  ghost predicate RowsSound(rows: seq<Row>, log: seq<Post>, inserted: seq<Event>) {
    forall r :: r in rows ==> RowSound(r, log, inserted)
  }

  /** Each inserted id is in the table or delivered, never both and never twice. */
  predicate Balanced(rows: seq<Row>, delivered: seq<Event>, inserted: seq<Event>) {
    && Distinct(rows)
    && DistinctEvents(inserted) && DistinctEvents(delivered)
    && EventIds(inserted) == Ids(rows) + EventIds(delivered)
    && Ids(rows) !! EventIds(delivered)
  }

  ghost predicate Sound(s: Store, inserted: seq<Event>) {
    && Balanced(s.rows, Delivered(s.log), inserted)
    && RowsSound(s.rows, s.log, inserted)
    && (forall id :: id !in EventIds(inserted) ==> SoloRejections(s.log, id) == 0)
  }

  lemma LogOne(log: seq<Post>, p: Post)
    ensures Delivered(log + [p]) == if p.reply == Accepted then Delivered(log) + p.events else Delivered(log)
    ensures forall id :: SoloRejections(log + [p], id) ==
              SoloRejections(log, id) +
              (if p.reply == Rejected && |p.events| == 1 && p.events[0].id == id then 1 else 0)
  {
    assert (log + [p])[..|log|] == log;
  }

  lemma BalancedAccepted(rows: seq<Row>, delivered: seq<Event>, inserted: seq<Event>, sent: seq<Row>)
    requires Balanced(rows, delivered, inserted) && Distinct(sent) && forall t :: t in sent ==> t in rows
    ensures Balanced(DeleteAll(rows, sent), delivered + EventsOf(sent), inserted)
    ensures forall r :: r in DeleteAll(rows, sent) ==> r in rows
  {
    DeleteAllIds(rows, sent);
    EventIdsOfRows(sent);
    EventIdsAppend(delivered, EventsOf(sent));
    MemberIds(sent);
    MemberIds(rows);
  }

  lemma SoundAccepted(s: Store, inserted: seq<Event>, sent: seq<Row>)
    requires Sound(s, inserted) && Distinct(sent) && forall t :: t in sent ==> t in s.rows
    ensures Sound(Store(DeleteAll(s.rows, sent), s.log + [Post(EventsOf(sent), Accepted)]), inserted)
  {
    LogOne(s.log, Post(EventsOf(sent), Accepted));
    BalancedAccepted(s.rows, Delivered(s.log), inserted, sent);
  }

  lemma SoundUncharged(s: Store, inserted: seq<Event>, p: Post)
    requires Sound(s, inserted) && (p.reply == Transient || (p.reply == Rejected && |p.events| != 1))
    ensures Sound(s.(log := s.log + [p]), inserted)
  {
    LogOne(s.log, p);
  }

  lemma {:induction false} RejectMembers(rows: seq<Row>, r: Row)
    requires r in rows && Distinct(rows)
    ensures forall x :: x in Reject(rows, r.event.id) ==> x == Charged(r) || (x in rows && x.event.id != r.event.id)
    ensures forall x :: x in rows && x.event.id != r.event.id ==> x in Reject(rows, r.event.id)
  {
    MemberIds(rows[1..]);
    assert rows == [rows[0]] + rows[1..];
    if rows[0].event.id != r.event.id {
      RejectMembers(rows[1..], r);
    } else {
      assert r == rows[0];
    }
  }

  lemma {:induction false} DeleteMembers(rows: seq<Row>, id: string)
    ensures forall x :: x in rows && x.event.id != id ==> x in Delete(rows, id)
  {
    if rows != [] {
      DeleteMembers(rows[1..], id);
      assert rows == [rows[0]] + rows[1..];
    }
  }

  lemma SoundCharged(s: Store, inserted: seq<Event>, r: Row)
    requires Sound(s, inserted) && r in s.rows && r.synced == 0
    ensures Sound(Store(Reject(s.rows, r.event.id), s.log + [Post([r.event], Rejected)]), inserted)
  {
    LogOne(s.log, Post([r.event], Rejected));
    RejectIds(s.rows, r.event.id);
    RejectMembers(s.rows, r);
    MemberIds(s.rows);
  }

  lemma {:induction false} SoundIsolate(s: Store, inserted: seq<Event>, todo: seq<Row>, cloud: Cloud)
    requires Sound(s, inserted) && Distinct(todo) && forall t :: t in todo ==> t in s.rows && t.synced == 0
    ensures Sound(Isolate(s, todo, cloud), inserted)
    decreases todo
  {
    if todo != [] {
      var r := todo[0];
      var rest := todo[1..];
      OneRow(r);
      assert r in todo && forall t :: t in rest ==> t in todo;
      MemberIds(rest);
      match cloud(|s.log|, EventsOf([r]))
      case Accepted =>
        SoundAccepted(s, inserted, [r]);
        assert [r][1..] == [] && DeleteAll(s.rows, [r]) == Delete(s.rows, r.event.id);
        DeleteMembers(s.rows, r.event.id);
        SoundIsolate(Store(Delete(s.rows, r.event.id), s.log + [Post(EventsOf([r]), Accepted)]), inserted, rest, cloud);
      case Rejected =>
        SoundCharged(s, inserted, r);
        RejectMembers(s.rows, r);
        SoundIsolate(Store(Reject(s.rows, r.event.id), s.log + [Post(EventsOf([r]), Rejected)]), inserted, rest, cloud);
      case Transient =>
        SoundUncharged(s, inserted, Post(EventsOf([r]), Transient));
    }
  }

  lemma SoundSync(s: Store, inserted: seq<Event>, batch: int, cloud: Cloud)
    requires Sound(s, inserted)
    ensures Sound(Sync(s, batch, cloud), inserted)
  {
    var sent := Select(s.rows, batch);
    SelectMembers(s.rows, batch);
    EventIdsOfRows(sent);
    if sent != [] {
      var reply := cloud(|s.log|, EventsOf(sent));
      var p := Post(EventsOf(sent), reply);
      match reply
      case Accepted => SoundAccepted(s, inserted, sent);
      case Transient => SoundUncharged(s, inserted, p);
      case Rejected =>
        if |sent| == 1 {
          assert sent == [sent[0]];
          OneRow(sent[0]);
          SoundCharged(s, inserted, sent[0]);
        } else {
          SoundUncharged(s, inserted, p);
          SoundIsolate(s.(log := s.log + [p]), inserted, sent, cloud);
        }
    }
  }

  lemma SoundAdd(s: Store, inserted: seq<Event>, e: Event, now: Time)
    requires Sound(s, inserted) && e.id !in Ids(s.rows) && e.id !in EventIds(Delivered(s.log))
    ensures Sound(Enqueue(s, e, now), inserted + [e])
  {
    PlaceIds(s.rows, Row(e, now, 0, 0));
    assert [e][1..] == [] && EventIds([e]) == {e.id} && DistinctEvents([e]);
    EventIdsAppend(inserted, [e]);
  }

  /** Event ids are never used again once delivered. */
  predicate NoReuse(steps: seq<Step>, cloud: Cloud) {
    steps == [] ||
    (var before := steps[..|steps| - 1];
     var step := steps[|steps| - 1];
     && NoReuse(before, cloud)
     && (step.Add? ==> step.event.id !in EventIds(Delivered(Run(before, cloud).log))))
  }

  lemma {:induction false} AlwaysSound(steps: seq<Step>, cloud: Cloud)
    requires NoReuse(steps, cloud)
    ensures Sound(Run(steps, cloud), Inserted(steps, cloud))
  {
    if steps != [] {
      var before := steps[..|steps| - 1];
      AlwaysSound(before, cloud);
      var s := Run(before, cloud);
      assert Inserted(before, cloud) + [] == Inserted(before, cloud);
      match steps[|steps| - 1]
      case Add(e, at) =>
        if e.id !in Ids(s.rows) { SoundAdd(s, Inserted(before, cloud), e, at); }
      case Flush(batch) =>
        SoundSync(s, Inserted(before, cloud), batch, cloud);
    }
  }

  ghost predicate IsPending(s: Store, id: string) {
    exists r :: r in s.rows && r.event.id == id && r.synced == 0 && r.attempts < MAX_ATTEMPTS
  }

  ghost predicate IsQuarantined(s: Store, id: string) {
    exists r :: r in s.rows && r.event.id == id && r.synced == -1 && r.attempts == MAX_ATTEMPTS
  }

  predicate IsDelivered(s: Store, id: string) {
    id in EventIds(Delivered(s.log))
  }

  /** Over every run and whatever the cloud answers: each event that entered the queue is exactly one
      of waiting, quarantined or delivered, delivered at most once, and quarantined only after exactly
      three rejections of that event alone. */
  lemma ExactlyOnePlace(steps: seq<Step>, cloud: Cloud, id: string)
    requires NoReuse(steps, cloud)
    ensures var s := Run(steps, cloud);
            && (id in EventIds(Inserted(steps, cloud)) <==>
                IsPending(s, id) || IsQuarantined(s, id) || IsDelivered(s, id))
            && !(IsPending(s, id) && IsQuarantined(s, id))
            && !(IsDelivered(s, id) && (IsPending(s, id) || IsQuarantined(s, id)))
            && (IsQuarantined(s, id) ==> SoloRejections(s.log, id) == 3)
            && (IsPending(s, id) ==> SoloRejections(s.log, id) < 3)
            && DistinctEvents(Delivered(s.log))
  {
    AlwaysSound(steps, cloud);
    MemberIds(Run(steps, cloud).rows);
  }
}
