/** The queue as the gate uses it: a table updated in place, request by request. */
module OfflineQueue {
  import opened Basics
  import opened Outbox
  import OutboxConservation
  import OutboxDrain

  class OfflineQueue {
    var rows: seq<Row>
    var log: seq<Post>

    ghost function State(): Store
      reads this
    {
      Store(rows, log)
    }

    constructor ()
      ensures State() == EMPTY_STORE
    {
      rows, log := [], [];
    }

    method EnqueueEvent(e: Event, now: Time)
      modifies this`rows
      ensures State() == Enqueue(old(State()), e, now)
    {
      if e.id in Ids(rows) {
        return;
      }
      rows := Place(rows, Row(e, now, 0, 0));
    }

    /** One request to the cloud, recorded. */
    method PostRows(sent: seq<Row>, cloud: Cloud) returns (reply: Reply)
      modifies this`log
      ensures reply == cloud(|old(log)|, EventsOf(sent))
      ensures State() == Logged(old(State()), sent, cloud)
    {
      reply := cloud(|log|, EventsOf(sent));
      log := log + [Post(EventsOf(sent), reply)];
    }

    /** One call: at most one batch, isolated row by row if the cloud rejects it for good. The result
        is the number of events delivered. */
    method SyncBatch(batch: int, cloud: Cloud) returns (synced: nat)
      modifies this
      ensures State() == Sync(old(State()), batch, cloud)
      ensures synced == |Delivered(log)| - |Delivered(old(log))|
    {
      ghost var start := State();
      var sent := Select(rows, batch);
      if sent == [] {
        return 0;
      }
      var result := PostRows(sent, cloud);
      LogCounts(start, sent, cloud);
      if result == Accepted {
        rows := DeleteAll(rows, sent);
        return |sent|;
      }
      if result == Transient {
        return 0;
      }
      if |sent| == 1 {
        rows := Reject(rows, sent[0].event.id);
        return 0;
      }
      synced := 0;
      ghost var isolating := State();
      for i := 0 to |sent|
        invariant Isolate(State(), sent[i..], cloud) == Isolate(isolating, sent, cloud)
        invariant synced == |Delivered(log)| - |Delivered(isolating.log)|
      {
        ghost var before := State();
        assert sent[i..][0] == sent[i] && sent[i..][1..] == sent[i + 1..];
        LogCounts(before, [sent[i]], cloud);
        var one := PostRows([sent[i]], cloud);
        match one {
          case Accepted =>
            rows := Delete(rows, sent[i].event.id);
            synced := synced + 1;
          case Rejected =>
            rows := Reject(rows, sent[i].event.id);
          case Transient =>
            return;
        }
      }
    }

    method PendingCount() returns (n: nat)
      ensures n == |Pending(rows)|
      ensures n == 0 <==> forall r :: r in rows ==> r.synced != 0
    {
      n := 0;
      for i := 0 to |rows|
        invariant n == |Pending(rows[..i])|
      {
        CountOne(rows, i);
        if rows[i].synced == 0 {
          n := n + 1;
        }
      }
      assert rows[..|rows|] == rows;
      PendingMembers(rows);
      if n > 0 { assert Pending(rows)[0] in Pending(rows); }
    }

    method QuarantinedCount() returns (n: nat)
      ensures n == |Quarantined(rows)|
      ensures (forall r :: r in rows ==> r.synced == 0 || r.synced == -1) ==> n == |rows| - |Pending(rows)|
    {
      n := 0;
      for i := 0 to |rows|
        invariant n == |Quarantined(rows[..i])|
      {
        CountOneMore(rows, i);
        if rows[i].synced == -1 {
          n := n + 1;
        }
      }
      assert rows[..|rows|] == rows;
      if forall r :: r in rows ==> r.synced == 0 || r.synced == -1 {
        TwoKinds(rows);
      }
    }
  }

  lemma LogCounts(s: Store, sent: seq<Row>, cloud: Cloud)
    ensures |Delivered(Logged(s, sent, cloud).log)| ==
            |Delivered(s.log)| + if cloud(|s.log|, EventsOf(sent)) == Accepted then |sent| else 0
  {
    OutboxConservation.LogOne(s.log, Post(EventsOf(sent), cloud(|s.log|, EventsOf(sent))));
    OutboxConservation.EventIdsOfRows(sent);
  }

  lemma {:induction false} QuarantinedAppend(a: seq<Row>, b: seq<Row>)
    ensures Quarantined(a + b) == Quarantined(a) + Quarantined(b)
  {
    if a == [] {
      assert a + b == b;
    } else {
      assert (a + b)[1..] == a[1..] + b;
      QuarantinedAppend(a[1..], b);
    }
  }

  lemma CountOneMore(rows: seq<Row>, i: nat)
    requires i < |rows|
    ensures |Quarantined(rows[..i + 1])| == |Quarantined(rows[..i])| + if rows[i].synced == -1 then 1 else 0
  {
    assert rows[..i + 1] == rows[..i] + [rows[i]];
    QuarantinedAppend(rows[..i], [rows[i]]);
    assert [rows[i]][1..] == [];
  }

  /** A sound table holds pending and quarantined rows only. */
  lemma {:induction false} TwoKinds(rows: seq<Row>)
    requires forall r :: r in rows ==> r.synced == 0 || r.synced == -1
    ensures |rows| == |Pending(rows)| + |Quarantined(rows)|
  {
    if rows != [] {
      assert rows[0] in rows && forall r :: r in rows[1..] ==> r in rows;
      TwoKinds(rows[1..]);
    }
  }

  lemma CountOne(rows: seq<Row>, i: nat)
    requires i < |rows|
    ensures |Pending(rows[..i + 1])| == |Pending(rows[..i])| + if rows[i].synced == 0 then 1 else 0
  {
    assert rows[..i + 1] == rows[..i] + [rows[i]];
    OutboxDrain.PendingAppend(rows[..i], [rows[i]]);
    assert [rows[i]][1..] == [];
  }
}
