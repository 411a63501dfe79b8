/** In which order the outbox drains, whatever the clock does, and what one call sends. */
module OutboxOrder {
  import opened Basics
  import opened Outbox

  // ---- the order of the table ----

  /** The step that last put an event with this id into the table. */
  function EnteredAt(steps: seq<Step>, cloud: Cloud, id: string): int {
    if steps == [] then -1
    else
      var before := steps[..|steps| - 1];
      var s := steps[|steps| - 1];
      if s.Add? && s.event.id == id && id !in Ids(Run(before, cloud).rows) then |before|
      else EnteredAt(before, cloud, id)
  }

  /** When that step was. */
  function EnteredWhen(steps: seq<Step>, cloud: Cloud, id: string): Time {
    var i := EnteredAt(steps, cloud, id);
    if 0 <= i < |steps| && steps[i].Add? then steps[i].at else 0.0
  }

  /** Older rows first, and of rows equally old the one that entered first. */
  predicate RowBefore(a: Row, b: Row, rank: string -> int) {
    a.created < b.created || (a.created == b.created && rank(a.event.id) < rank(b.event.id))
  }

  predicate Ranked(rows: seq<Row>, rank: string -> int) {
    forall i, j :: 0 <= i < j < |rows| ==> RowBefore(rows[i], rows[j], rank)
  }

  predicate RankedFrom(r: Row, rows: seq<Row>, rank: string -> int) {
    forall i :: 0 <= i < |rows| ==> RowBefore(r, rows[i], rank)
  }

  lemma RankedSplit(rows: seq<Row>, rank: string -> int)
    requires rows != []
    ensures Ranked(rows, rank) <==> Ranked(rows[1..], rank) && RankedFrom(rows[0], rows[1..], rank)
  {
    if Ranked(rows[1..], rank) && RankedFrom(rows[0], rows[1..], rank) {
      forall i, j | 0 <= i < j < |rows| ensures RowBefore(rows[i], rows[j], rank) {
        assert rows[j] == rows[1..][j - 1];
        if i > 0 { assert rows[i] == rows[1..][i - 1]; }
      }
    }
  }

  lemma {:induction false} PlaceMembers(rows: seq<Row>, r: Row)
    ensures forall x :: x in Place(rows, r) <==> x in rows || x == r
  {
    if rows != [] && !(rows[|rows| - 1].created <= r.created) {
      PlaceMembers(rows[..|rows| - 1], r);
      assert rows == rows[..|rows| - 1] + [rows[|rows| - 1]];
    }
  }

  lemma RankedSnoc(rows: seq<Row>, last: Row, rank: string -> int)
    requires Ranked(rows, rank) && forall x :: x in rows ==> RowBefore(x, last, rank)
    ensures Ranked(rows + [last], rank)
  {
    forall i, j | 0 <= i < j < |rows + [last]| ensures RowBefore((rows + [last])[i], (rows + [last])[j], rank) {
      assert rows[i] in rows;
    }
  }

  lemma RankedLast(rows: seq<Row>, rank: string -> int)
    requires Ranked(rows, rank) && rows != []
    ensures Ranked(rows[..|rows| - 1], rank)
    ensures forall x :: x in rows[..|rows| - 1] ==> x in rows && RowBefore(x, rows[|rows| - 1], rank)
  {
  }

  /** The newest row takes its place by age. */
  lemma {:induction false} PlaceRanked(rows: seq<Row>, r: Row, rank: string -> int)
    requires Ranked(rows, rank) && forall x :: x in rows ==> rank(x.event.id) < rank(r.event.id)
    ensures Ranked(Place(rows, r), rank)
  {
    if rows == [] {
      assert Place(rows, r) == [r];
    } else {
      var n := |rows| - 1;
      RankedLast(rows, rank);
      assert rows[n] in rows;
      if rows[n].created <= r.created {
        RankedSnoc(rows, r, rank);
      } else {
        PlaceRanked(rows[..n], r, rank);
        PlaceMembers(rows[..n], r);
        RankedSnoc(Place(rows[..n], r), rows[n], rank);
      }
    }
  }

  lemma {:induction false} DeleteRanked(rows: seq<Row>, id: string, rank: string -> int)
    requires Ranked(rows, rank)
    ensures Ranked(Delete(rows, id), rank)
    ensures forall x :: x in Delete(rows, id) ==> x in rows
  {
    if rows != [] {
      assert rows == [rows[0]] + rows[1..];
      RankedSplit(rows, rank);
      if rows[0].event.id != id {
        DeleteRanked(rows[1..], id, rank);
        var rest := Delete(rows[1..], id);
        forall i | 0 <= i < |rest| ensures RowBefore(rows[0], rest[i], rank) {
          assert rest[i] in rest;
          var k :| 0 <= k < |rows[1..]| && rows[1..][k] == rest[i];
        }
        assert ([rows[0]] + rest)[1..] == rest;
        RankedSplit([rows[0]] + rest, rank);
      }
    }
  }

  lemma {:induction false} DeleteAllRanked(rows: seq<Row>, sent: seq<Row>, rank: string -> int)
    requires Ranked(rows, rank)
    ensures Ranked(DeleteAll(rows, sent), rank)
    ensures forall x :: x in DeleteAll(rows, sent) ==> x in rows
    decreases sent
  {
    if sent != [] {
      DeleteRanked(rows, sent[0].event.id, rank);
      DeleteAllRanked(Delete(rows, sent[0].event.id), sent[1..], rank);
    }
  }

  /** Rejecting keeps every row's age and place. */
  lemma {:induction false} RejectSame(rows: seq<Row>, id: string)
    ensures |Reject(rows, id)| == |rows|
    ensures forall i :: 0 <= i < |rows| ==>
              Reject(rows, id)[i].created == rows[i].created && Reject(rows, id)[i].event == rows[i].event
  {
    if rows != [] && rows[0].event.id != id { RejectSame(rows[1..], id); }
  }

  /** Every row is as old as the step that put it in. */
  ghost predicate Aged(rows: seq<Row>, when: string -> Time) {
    forall x :: x in rows ==> x.created == when(x.event.id)
  }

  ghost predicate TableFine(rows: seq<Row>, rank: string -> int, when: string -> Time) {
    Ranked(rows, rank) && Aged(rows, when)
  }

  lemma RejectFine(rows: seq<Row>, id: string, rank: string -> int, when: string -> Time)
    requires TableFine(rows, rank, when)
    ensures TableFine(Reject(rows, id), rank, when)
  {
    RejectSame(rows, id);
    forall x | x in Reject(rows, id) ensures x.created == when(x.event.id) {
      var i :| 0 <= i < |rows| && Reject(rows, id)[i] == x;
      assert rows[i] in rows;
    }
  }

  lemma DeleteFine(rows: seq<Row>, id: string, rank: string -> int, when: string -> Time)
    requires TableFine(rows, rank, when)
    ensures TableFine(Delete(rows, id), rank, when)
  {
    DeleteRanked(rows, id, rank);
  }

  lemma {:induction false} IsolateFine(s: Store, todo: seq<Row>, cloud: Cloud,
                                       rank: string -> int, when: string -> Time)
    requires TableFine(s.rows, rank, when)
    ensures TableFine(Isolate(s, todo, cloud).rows, rank, when)
    decreases todo
  {
    if todo != [] {
      var s' := Logged(s, [todo[0]], cloud);
      match cloud(|s.log|, EventsOf([todo[0]]))
      case Accepted =>
        DeleteFine(s.rows, todo[0].event.id, rank, when);
        IsolateFine(s'.(rows := Delete(s'.rows, todo[0].event.id)), todo[1..], cloud, rank, when);
      case Rejected =>
        RejectFine(s.rows, todo[0].event.id, rank, when);
        IsolateFine(s'.(rows := Reject(s'.rows, todo[0].event.id)), todo[1..], cloud, rank, when);
      case Transient =>
    }
  }

  lemma SyncFine(s: Store, batch: int, cloud: Cloud, rank: string -> int, when: string -> Time)
    requires TableFine(s.rows, rank, when)
    ensures TableFine(Sync(s, batch, cloud).rows, rank, when)
  {
    var sent := Select(s.rows, batch);
    if sent != [] {
      var s' := Logged(s, sent, cloud);
      match cloud(|s.log|, EventsOf(sent))
      case Accepted => DeleteAllRanked(s.rows, sent, rank);
      case Transient =>
      case Rejected =>
        RejectFine(s.rows, sent[0].event.id, rank, when);
        IsolateFine(s', sent, cloud, rank, when);
    }
  }

  lemma EnqueueFine(s: Store, e: Event, at: Time, rank: string -> int, when: string -> Time)
    requires TableFine(s.rows, rank, when) && e.id !in Ids(s.rows)
    requires when(e.id) == at && forall x :: x in s.rows ==> rank(x.event.id) < rank(e.id)
    ensures TableFine(Place(s.rows, Row(e, at, 0, 0)), rank, when)
  {
    PlaceRanked(s.rows, Row(e, at, 0, 0), rank);
    PlaceMembers(s.rows, Row(e, at, 0, 0));
  }

  /** Over every run, however the clock jumps: the rows stand by age and then by entry, each as old as
      the step that put it in. */
  ghost predicate DrainsInOrder(steps: seq<Step>, cloud: Cloud) {
    var rows := Run(steps, cloud).rows;
    && (forall i, j :: 0 <= i < j < |rows| ==>
          RowBefore(rows[i], rows[j], (id: string) => EnteredAt(steps, cloud, id)))
    && (forall x :: x in rows ==> x.created == EnteredWhen(steps, cloud, x.event.id))
  }

  lemma {:induction false} EnteredBound(steps: seq<Step>, cloud: Cloud, id: string)
    ensures -1 <= EnteredAt(steps, cloud, id) < |steps|
  {
    if steps != [] { EnteredBound(steps[..|steps| - 1], cloud, id); }
  }

  /** What one step changes about entries. */
  lemma EnteredStep(steps: seq<Step>, cloud: Cloud, id: string)
    requires steps != []
    ensures var before, s := steps[..|steps| - 1], steps[|steps| - 1];
            if s.Add? && s.event.id == id && id !in Ids(Run(before, cloud).rows) then
              EnteredAt(steps, cloud, id) == |before| && EnteredWhen(steps, cloud, id) == s.at
            else
              && EnteredAt(steps, cloud, id) == EnteredAt(before, cloud, id)
              && EnteredWhen(steps, cloud, id) == EnteredWhen(before, cloud, id)
  {
    EnteredBound(steps[..|steps| - 1], cloud, id);
  }

  lemma SameTable(rows: seq<Row>, rank: string -> int, when: string -> Time,
                  rank': string -> int, when': string -> Time)
    requires TableFine(rows, rank, when)
    requires forall x :: x in rows ==> rank'(x.event.id) == rank(x.event.id) && when'(x.event.id) == when(x.event.id)
    ensures TableFine(rows, rank', when')
  {
    forall i, j | 0 <= i < j < |rows| ensures RowBefore(rows[i], rows[j], rank') {
      assert rows[i] in rows && rows[j] in rows;
    }
  }

  function RankOf(steps: seq<Step>, cloud: Cloud): string -> int {
    (id: string) => EnteredAt(steps, cloud, id)
  }

  function WhenOf(steps: seq<Step>, cloud: Cloud): string -> Time {
    (id: string) => EnteredWhen(steps, cloud, id)
  }

  lemma {:induction false} AlwaysInOrder(steps: seq<Step>, cloud: Cloud)
    ensures TableFine(Run(steps, cloud).rows, RankOf(steps, cloud), WhenOf(steps, cloud))
  {
    if steps != [] {
      var before := steps[..|steps| - 1];
      var s := Run(before, cloud);
      var rank, when := RankOf(steps, cloud), WhenOf(steps, cloud);
      AlwaysInOrder(before, cloud);
      MemberIds(s.rows);
      forall x | x in s.rows
        ensures rank(x.event.id) == RankOf(before, cloud)(x.event.id)
        ensures when(x.event.id) == WhenOf(before, cloud)(x.event.id) && rank(x.event.id) < |before|
      {
        EnteredStep(steps, cloud, x.event.id);
        EnteredBound(before, cloud, x.event.id);
      }
      SameTable(s.rows, RankOf(before, cloud), WhenOf(before, cloud), rank, when);
      match steps[|steps| - 1]
      case Add(e, at) =>
        if e.id !in Ids(s.rows) {
          EnteredStep(steps, cloud, e.id);
          EnqueueFine(s, e, at, rank, when);
        }
      case Flush(batch) => SyncFine(s, batch, cloud, rank, when);
    }
  }

  /** Over every run, however the clock jumps: the table stands by age and then by entry. */
  lemma TableInOrder(steps: seq<Step>, cloud: Cloud)
    ensures DrainsInOrder(steps, cloud)
  {
    AlwaysInOrder(steps, cloud);
    var rows := Run(steps, cloud).rows;
    forall i, j | 0 <= i < j < |rows|
      ensures RowBefore(rows[i], rows[j], (id: string) => EnteredAt(steps, cloud, id))
    {
      assert RowBefore(rows[i], rows[j], RankOf(steps, cloud));
    }
  }

  // ---- what one call sends ----

  lemma {:induction false} IsolateLogs(s: Store, todo: seq<Row>, cloud: Cloud)
    ensures s.log <= Isolate(s, todo, cloud).log
    decreases todo
  {
    if todo != [] {
      var s' := Logged(s, [todo[0]], cloud);
      match cloud(|s.log|, EventsOf([todo[0]]))
      case Accepted => IsolateLogs(s'.(rows := Delete(s'.rows, todo[0].event.id)), todo[1..], cloud);
      case Rejected => IsolateLogs(s'.(rows := Reject(s'.rows, todo[0].event.id)), todo[1..], cloud);
      case Transient =>
    }
  }

  /** A call sends first the oldest waiting events, `batch` of them or all there are, a negative batch
      meaning all; with nothing waiting, or a batch of none, it makes no request and changes nothing. */
  lemma CallSendsOldest(s: Store, batch: int, cloud: Cloud)
    ensures var p, s' := Pending(s.rows), Sync(s, batch, cloud);
            var n := if batch < 0 then |p| else Min(batch, |p|);
            if n == 0 then s' == s
            else
              && |s'.log| > |s.log| && s.log <= s'.log
              && s'.log[|s.log|] == Post(EventsOf(p[..n]), cloud(|s.log|, EventsOf(p[..n])))
  {
    var p := Pending(s.rows);
    var sent := Select(s.rows, batch);
    assert p[..|p|] == p;
    if sent != [] {
      var s' := Logged(s, sent, cloud);
      IsolateLogs(s', sent, cloud);
    }
  }

  /** Rows sent one by one, in order, up to the first transient failure or to the end; `from` is the
      number of the first of these requests. */
  ghost predicate SentSingly(posts: seq<Post>, todo: seq<Row>, from: nat, cloud: Cloud) {
    && |posts| <= |todo|
    && (forall i :: 0 <= i < |posts| ==> posts[i] == Post([todo[i].event], cloud(from + i, [todo[i].event])))
    && (forall i :: 0 <= i < |posts| - 1 ==> posts[i].reply != Transient)
    && (|posts| < |todo| ==> posts != [] && posts[|posts| - 1].reply == Transient)
  }

  lemma OneSentBefore(one: Post, posts: seq<Post>, todo: seq<Row>, from: nat, cloud: Cloud)
    requires todo != [] && one == Post([todo[0].event], cloud(from, [todo[0].event])) && one.reply != Transient
    requires SentSingly(posts, todo[1..], from + 1, cloud)
    ensures SentSingly([one] + posts, todo, from, cloud)
  {
    forall i | 1 <= i < |posts| + 1
      ensures posts[i - 1] == Post([todo[i].event], cloud(from + i, [todo[i].event]))
    {
      assert todo[i] == todo[1..][i - 1] && from + i == from + 1 + (i - 1);
    }
  }

  lemma EventOfOne(r: Row)
    ensures EventsOf([r]) == [r.event]
  {
    assert [r][1..] == [];
  }

  /** After one row: the next one, unless the request failed transiently. */
  lemma IsolationStep(s: Store, todo: seq<Row>, cloud: Cloud) returns (next: Store)
    requires todo != []
    ensures var one := Post([todo[0].event], cloud(|s.log|, [todo[0].event]));
            && next.log == s.log + [one]
            && Isolate(s, todo, cloud).log ==
               if one.reply == Transient then next.log else Isolate(next, todo[1..], cloud).log
  {
    EventOfOne(todo[0]);
    next := Logged(s, [todo[0]], cloud);
    match cloud(|s.log|, [todo[0].event])
    case Accepted => next := next.(rows := Delete(next.rows, todo[0].event.id));
    case Rejected => next := next.(rows := Reject(next.rows, todo[0].event.id));
    case Transient =>
  }

  /** Isolation sends the rows one by one, in order, up to the first transient failure or to the end. */
  lemma {:induction false} IsolationPosts(s: Store, todo: seq<Row>, cloud: Cloud) returns (posts: seq<Post>)
    ensures Isolate(s, todo, cloud).log == s.log + posts && SentSingly(posts, todo, |s.log|, cloud)
    decreases todo
  {
    posts := [];
    if todo != [] {
      var one := Post([todo[0].event], cloud(|s.log|, [todo[0].event]));
      var next := IsolationStep(s, todo, cloud);
      if one.reply != Transient {
        posts := IsolationPosts(next, todo[1..], cloud);
        OneSentBefore(one, posts, todo, |s.log|, cloud);
      }
      Associate(s.log, [one], posts);
      posts := [one] + posts;
    }
  }

  /** The requests one call makes: the batch, and only if it is refused for good and holds several
      events, each of them once more on its own, in order, up to the first transient failure. */
  lemma CallPosts(s: Store, batch: int, cloud: Cloud) returns (posts: seq<Post>)
    requires Select(s.rows, batch) != []
    ensures var sent := Select(s.rows, batch);
            var reply := cloud(|s.log|, EventsOf(sent));
            && Sync(s, batch, cloud).log == s.log + [Post(EventsOf(sent), reply)] + posts
            && (if reply == Rejected && |sent| > 1 then SentSingly(posts, sent, |s.log| + 1, cloud) else posts == [])
  {
    var sent := Select(s.rows, batch);
    posts := [];
    if cloud(|s.log|, EventsOf(sent)) == Rejected && |sent| > 1 {
      posts := IsolationPosts(Logged(s, sent, cloud), sent, cloud);
    }
  }
}
