/** Bad records never block the queue: three rounds of calls per batch drain everything. */
module OutboxDrain {
  import opened Basics
  import opened Outbox
  import opened OutboxProgress
  import opened OutboxQuarantine

  /** From request `start` on, the cloud no longer fails transiently. */
  ghost predicate SteadyFrom(cloud: Cloud, start: nat) {
    forall n, es :: n >= start ==> cloud(n, es) != Transient
  }

  /** What is left pending of one row that was sent on its own. */
  function BumpOne(r: Row, valid: Judge): seq<Row> {
    if valid(r.event) || Charged(r).synced != 0 then [] else [Charged(r)]
  }

  function Bump(rows: seq<Row>, valid: Judge): seq<Row> {
    if rows == [] then [] else BumpOne(rows[0], valid) + Bump(rows[1..], valid)
  }

  lemma {:induction false} BumpAppend(a: seq<Row>, b: seq<Row>, valid: Judge)
    ensures Bump(a + b, valid) == Bump(a, valid) + Bump(b, valid)
  {
    if a == [] {
      assert a + b == b;
    } else {
      assert (a + b)[1..] == a[1..] + b;
      BumpAppend(a[1..], b, valid);
    }
  }

  /** All invalid, and each rejected on its own at least `n` times already. */
  predicate ChargedAtLeast(rows: seq<Row>, n: nat, valid: Judge) {
    forall r :: r in rows ==> !valid(r.event) && n <= r.attempts < MAX_ATTEMPTS
  }

  lemma {:induction false} BumpRejects(rows: seq<Row>, n: nat, valid: Judge)
    requires forall r :: r in rows && !valid(r.event) ==> r.attempts >= n
    ensures ChargedAtLeast(Bump(rows, valid), n + 1, valid) && |Bump(rows, valid)| <= |rows|
  {
    if rows != [] {
      assert rows[0] in rows && forall r :: r in rows[1..] ==> r in rows;
      BumpRejects(rows[1..], n, valid);
    }
  }

  // ---- one row leaves the pending list or stays, charged ----

  lemma {:induction false} PendingAppend(a: seq<Row>, b: seq<Row>)
    ensures Pending(a + b) == Pending(a) + Pending(b)
  {
    if a == [] {
      assert a + b == b;
    } else {
      assert (a + b)[1..] == a[1..] + b;
      PendingAppend(a[1..], b);
    }
  }

  /** Where a pending row stands in the table. */
  lemma {:induction false} PendingSplit(rows: seq<Row>, a: seq<Row>, r: Row, b: seq<Row>)
    returns (x: seq<Row>, y: seq<Row>)
    requires Pending(rows) == a + ([r] + b)
    ensures rows == x + ([r] + y) && Pending(x) == a && Pending(y) == b
  {
    if rows[0].synced != 0 {
      x, y := PendingSplit(rows[1..], a, r, b);
      x := [rows[0]] + x;
      assert x[1..] + ([r] + y) == rows[1..];
    } else if a == [] {
      assert Pending(rows)[0] == r && Pending(rows)[1..] == b;
      x, y := [], rows[1..];
    } else {
      assert Pending(rows)[0] == a[0];
      assert Pending(rows)[1..] == a[1..] + ([r] + b);
      x, y := PendingSplit(rows[1..], a[1..], r, b);
      x := [rows[0]] + x;
      assert x[1..] + ([r] + y) == rows[1..];
      assert [a[0]] + a[1..] == a;
    }
  }

  lemma {:induction false} ChangeMiddle(x: seq<Row>, r: Row, y: seq<Row>)
    requires r.event.id !in Ids(x)
    ensures Delete(x + ([r] + y), r.event.id) == x + y
    ensures Reject(x + ([r] + y), r.event.id) == x + ([Charged(r)] + y)
  {
    var s := x + ([r] + y);
    if x == [] {
      assert s[0] == r && s[1..] == y;
    } else {
      assert s[1..] == x[1..] + ([r] + y);
      ChangeMiddle(x[1..], r, y);
    }
  }

  lemma PendingChanged(rows: seq<Row>, a: seq<Row>, r: Row, b: seq<Row>)
    requires Distinct(rows) && Pending(rows) == a + ([r] + b)
    ensures Pending(Delete(rows, r.event.id)) == a + b
    ensures Pending(Reject(rows, r.event.id)) == a + ((if Charged(r).synced == 0 then [Charged(r)] else []) + b)
  {
    var x, y := PendingSplit(rows, a, r, b);
    IdsAppend(x, [r] + y);
    assert ([r] + y)[1..] == y;
    ChangeMiddle(x, r, y);
    PendingAppend(x, y);
    PendingAppend(x, [Charged(r)] + y);
    assert ([Charged(r)] + y)[1..] == y;
  }

  lemma {:induction false} PendingDeleteAll(rows: seq<Row>, sent: seq<Row>, b: seq<Row>)
    requires Distinct(rows) && Pending(rows) == sent + b
    ensures Pending(DeleteAll(rows, sent)) == b
    decreases sent
  {
    if sent == [] {
      assert sent + b == b;
    } else {
      assert sent + b == [] + ([sent[0]] + (sent[1..] + b));
      PendingChanged(rows, [], sent[0], sent[1..] + b);
      assert [] + (sent[1..] + b) == sent[1..] + b;
      DeleteIds(rows, sent[0].event.id);
      PendingDeleteAll(Delete(rows, sent[0].event.id), sent[1..], b);
    }
  }

  // ---- one call ----

  lemma SteadyOne(cloud: Cloud, valid: Judge, n: nat, e: Event)
    requires Honest(cloud, valid) && cloud(n, [e]) != Transient
    ensures cloud(n, [e]) == if valid(e) then Accepted else Rejected
  {
    assert cloud(n, [e]) == Transient || cloud(n, [e]) == if AllValid([e], valid) then Accepted else Rejected;
    assert AllValid([e], valid) <==> valid(e) by { assert [e][0] == e; }
  }

  /** One row of a rejected batch, sent on its own. */
  lemma IsolateOne(s: Store, done: seq<Row>, r: Row, more: seq<Row>, cloud: Cloud, valid: Judge) returns (s': Store)
    requires Honest(cloud, valid) && SteadyFrom(cloud, |s.log|)
    requires Distinct(s.rows) && Pending(s.rows) == done + ([r] + more)
    ensures Distinct(s'.rows) && |s'.log| == |s.log| + 1
    ensures Pending(s'.rows) == done + BumpOne(r, valid) + more
    ensures s' == AfterOne(s, r, valid)
  {
    var e := r.event;
    OneEvent(r, valid);
    SteadyOne(cloud, valid, |s.log|, e);
    PendingChanged(s.rows, done, r, more);
    DeleteIds(s.rows, e.id);
    RejectIds(s.rows, e.id);
    s' := AfterOne(s, r, valid);
  }

  lemma IsolateFirst(s: Store, r: Row, tail: seq<Row>, cloud: Cloud, valid: Judge, s': Store)
    requires Honest(cloud, valid) && SteadyFrom(cloud, |s.log|) && s' == AfterOne(s, r, valid)
    ensures Isolate(s, [r] + tail, cloud) == Isolate(s', tail, cloud)
  {
    OneEvent(r, valid);
    SteadyOne(cloud, valid, |s.log|, r.event);
    assert ([r] + tail)[0] == r && ([r] + tail)[1..] == tail;
  }

  function AfterOne(s: Store, r: Row, valid: Judge): Store {
    var e := r.event;
    if valid(e) then Store(Delete(s.rows, e.id), s.log + [Post([e], Accepted)])
    else Store(Reject(s.rows, e.id), s.log + [Post([e], Rejected)])
  }

  lemma {:induction false} IsolateBumps(s: Store, done: seq<Row>, todo: seq<Row>, b: seq<Row>, cloud: Cloud,
                                        valid: Judge)
    requires Honest(cloud, valid) && SteadyFrom(cloud, |s.log|)
    requires Distinct(s.rows) && Pending(s.rows) == done + (todo + b)
    ensures var s' := Isolate(s, todo, cloud);
            && Distinct(s'.rows) && |s'.log| >= |s.log|
            && Pending(s'.rows) == done + (Bump(todo, valid) + b)
    decreases todo
  {
    if todo == [] {
      assert todo + b == Bump(todo, valid) + b;
    } else {
      var r := todo[0];
      var tail := todo[1..];
      assert todo == [r] + tail;
      Associate([r], tail, b);
      var s1 := IsolateOne(s, done, r, tail + b, cloud, valid);
      IsolateFirst(s, r, tail, cloud, valid, s1);
      IsolateBumps(s1, done + BumpOne(r, valid), tail, b, cloud, valid);
      Associate(BumpOne(r, valid), Bump(tail, valid), b);
      Associate(done, BumpOne(r, valid), Bump(tail, valid) + b);
    }
  }

  lemma {:induction false} AllValidBumps(rows: seq<Row>, valid: Judge)
    requires AllValid(EventsOf(rows), valid)
    ensures Bump(rows, valid) == []
  {
    if rows != [] {
      var es := EventsOf(rows);
      assert es[0] == rows[0].event;
      assert es[1..] == EventsOf(rows[1..]);
      AllValidBumps(rows[1..], valid);
    }
  }

  /** A call with the cloud steady: the front of the pending list is delivered or charged. */
  lemma SyncBumps(s: Store, batch: int, cloud: Cloud, valid: Judge) returns (k: nat)
    requires batch >= 1 && Honest(cloud, valid) && SteadyFrom(cloud, |s.log|) && Distinct(s.rows)
    ensures var p := Pending(s.rows);
            var s' := Sync(s, batch, cloud);
            && k == Min(batch, |p|)
            && Distinct(s'.rows) && |s'.log| >= |s.log|
            && Pending(s'.rows) == Bump(p[..k], valid) + p[k..]
  {
    var p := Pending(s.rows);
    k := Min(batch, |p|);
    var sent := Select(s.rows, batch);
    assert sent == p[..k];
    assert p == sent + p[k..];
    if sent != [] {
      var es := EventsOf(sent);
      var reply := cloud(|s.log|, es);
      assert reply != Transient;
      assert reply == if AllValid(es, valid) then Accepted else Rejected;
      if reply == Accepted {
        PendingDeleteAll(s.rows, sent, p[k..]);
        DeleteAllIds(s.rows, sent);
        AllValidBumps(sent, valid);
        assert [] + p[k..] == p[k..];
      } else if |sent| == 1 {
        SyncBumpsOne(s, sent[0], p[k..], valid);
        assert sent == [sent[0]];
        OneEvent(sent[0], valid);
      } else {
        var s1 := s.(log := s.log + [Post(es, reply)]);
        assert [] + (sent + p[k..]) == sent + p[k..];
        IsolateBumps(s1, [], sent, p[k..], cloud, valid);
        assert [] + (Bump(sent, valid) + p[k..]) == Bump(sent, valid) + p[k..];
      }
    }
  }

  lemma SyncBumpsOne(s: Store, r: Row, b: seq<Row>, valid: Judge)
    requires Distinct(s.rows) && Pending(s.rows) == [r] + b
    ensures Distinct(Reject(s.rows, r.event.id))
    ensures !valid(r.event) ==> Pending(Reject(s.rows, r.event.id)) == Bump([r], valid) + b
  {
    assert [r] + b == [] + ([r] + b);
    PendingChanged(s.rows, [], r, b);
    RejectIds(s.rows, r.event.id);
    assert [r][1..] == [];
  }

  // ---- three calls clear one batch ----

  lemma SplitAfter<T>(a: seq<T>, b: seq<T>, k: nat)
    requires |a| <= k <= |a| + |b|
    ensures (a + b)[..k] == a + b[..k - |a|] && (a + b)[k..] == b[k - |a|..]
  {
  }

  lemma BumpSplit(a: seq<Row>, b: seq<Row>, k: nat, valid: Judge) returns (b': seq<Row>)
    requires |a| <= k <= |a| + |b|
    ensures Bump((a + b)[..k], valid) + (a + b)[k..] == Bump(a, valid) + b' && |b'| <= |b|
  {
    var m := k - |a|;
    SplitAfter(a, b, k);
    BumpAppend(a, b[..m], valid);
    BumpRejects(b[..m], 0, valid);
    b' := Bump(b[..m], valid) + b[m..];
    Associate(Bump(a, valid), Bump(b[..m], valid), b[m..]);
  }

  /** A leading part that fits in one batch is bumped whole; what follows it only shrinks. */
  lemma BumpsFront(s: Store, a: seq<Row>, b: seq<Row>, batch: int, cloud: Cloud, valid: Judge) returns (b': seq<Row>)
    requires batch >= 1 && Honest(cloud, valid) && SteadyFrom(cloud, |s.log|) && Distinct(s.rows)
    requires Pending(s.rows) == a + b && |a| <= batch
    ensures var s' := Sync(s, batch, cloud);
            && Distinct(s'.rows) && |s'.log| >= |s.log|
            && Pending(s'.rows) == Bump(a, valid) + b' && |b'| <= |b|
  {
    var k := SyncBumps(s, batch, cloud, valid);
    b' := BumpSplit(a, b, k, valid);
  }

  function SyncTimes(s: Store, n: nat, batch: int, cloud: Cloud): Store {
    Iterate(s, n, OneCall(batch, cloud))
  }

  function OneCall(batch: int, cloud: Cloud): Store -> Store {
    (s: Store) => Sync(s, batch, cloud)
  }

  function Iterate(s: Store, n: nat, step: Store -> Store): Store {
    if n == 0 then s else step(Iterate(s, n - 1, step))
  }

  lemma ThreeCalls(s: Store, batch: int, cloud: Cloud, valid: Judge)
    requires batch >= 1 && Honest(cloud, valid) && SteadyFrom(cloud, |s.log|) && Distinct(s.rows)
    ensures var s' := Sync(Sync(Sync(s, batch, cloud), batch, cloud), batch, cloud);
            && Distinct(s'.rows) && |s'.log| >= |s.log|
            && |Pending(s'.rows)| <= |Pending(s.rows)| - Min(batch, |Pending(s.rows)|)
  {
    var p := Pending(s.rows);
    var k := Min(batch, |p|);
    var a, b := p[..k], p[k..];
    assert p == a + b;
    var s1 := Sync(s, batch, cloud);
    var b1 := BumpsFront(s, a, b, batch, cloud, valid);
    BumpRejects(a, 0, valid);
    var s2 := Sync(s1, batch, cloud);
    var b2 := BumpsFront(s1, Bump(a, valid), b1, batch, cloud, valid);
    BumpRejects(Bump(a, valid), 1, valid);
    var b3 := BumpsFront(s2, Bump(Bump(a, valid), valid), b2, batch, cloud, valid);
    BumpRejects(Bump(Bump(a, valid), valid), 2, valid);
    NoneThrice(Bump(Bump(Bump(a, valid), valid), valid), valid);
  }

  lemma NoneThrice(rows: seq<Row>, valid: Judge)
    requires ChargedAtLeast(rows, MAX_ATTEMPTS, valid)
    ensures rows == []
  {
    if rows != [] { SomeMember(rows); }
  }

  lemma SomeMember(rows: seq<Row>)
    requires rows != []
    ensures exists r :: r in rows
  {
    assert rows[0] in rows;
  }

  lemma TimesSplit(s: Store, m: nat, n: nat, batch: int, cloud: Cloud)
    ensures SyncTimes(s, m + n, batch, cloud) == SyncTimes(SyncTimes(s, m, batch, cloud), n, batch, cloud)
  {
    IterateSplit(s, m, n, OneCall(batch, cloud));
  }

  lemma {:induction false} IterateSplit(s: Store, m: nat, n: nat, step: Store -> Store)
    ensures Iterate(s, m + n, step) == Iterate(Iterate(s, m, step), n, step)
  {
    if n > 0 { IterateSplit(s, m, n - 1, step); }
  }

  lemma IterateThree(s: Store, step: Store -> Store)
    ensures Iterate(s, 3, step) == step(step(step(s)))
  {
    assert Iterate(s, 1, step) == step(s);
    assert Iterate(s, 2, step) == step(step(s));
  }

  lemma ThreeTimes(s: Store, batch: int, cloud: Cloud)
    ensures SyncTimes(s, 3, batch, cloud) == Sync(Sync(Sync(s, batch, cloud), batch, cloud), batch, cloud)
  {
    IterateThree(s, OneCall(batch, cloud));
  }

  lemma OneRoundLess(p: nat, p': nat, rounds: nat, batch: nat)
    requires rounds >= 1 && p <= rounds * batch && p' <= p - Min(batch, p)
    ensures p' <= (rounds - 1) * batch
  {
    assert rounds * batch == (rounds - 1) * batch + batch;
    assert (rounds - 1) * batch >= 0;
  }

  function Rounds(s: Store, rounds: nat, batch: int, cloud: Cloud): Store
    decreases rounds
  {
    if rounds == 0 then s else Rounds(SyncTimes(s, 3, batch, cloud), rounds - 1, batch, cloud)
  }

  lemma {:induction false} RoundsAreCalls(s: Store, rounds: nat, batch: int, cloud: Cloud)
    ensures Rounds(s, rounds, batch, cloud) == SyncTimes(s, 3 * rounds, batch, cloud)
    decreases rounds
  {
    if rounds > 0 {
      RoundsAreCalls(SyncTimes(s, 3, batch, cloud), rounds - 1, batch, cloud);
      TimesSplit(s, 3, 3 * rounds - 3, batch, cloud);
    }
  }

  lemma {:induction false} DrainsInRounds(s: Store, rounds: nat, batch: int, cloud: Cloud, valid: Judge)
    requires batch >= 1 && Honest(cloud, valid) && SteadyFrom(cloud, |s.log|) && Distinct(s.rows)
    requires |Pending(s.rows)| <= rounds * batch
    ensures Pending(Rounds(s, rounds, batch, cloud).rows) == []
    decreases rounds
  {
    if rounds > 0 {
      var s' := RoundOfThree(s, rounds, batch, cloud, valid);
      DrainsInRounds(s', rounds - 1, batch, cloud, valid);
    }
  }

  lemma RoundOfThree(s: Store, rounds: nat, batch: int, cloud: Cloud, valid: Judge) returns (s': Store)
    requires batch >= 1 && Honest(cloud, valid) && SteadyFrom(cloud, |s.log|) && Distinct(s.rows)
    requires rounds >= 1 && |Pending(s.rows)| <= rounds * batch
    ensures s' == SyncTimes(s, 3, batch, cloud)
    ensures SteadyFrom(cloud, |s'.log|) && Distinct(s'.rows) && |Pending(s'.rows)| <= (rounds - 1) * batch
  {
    ThreeCalls(s, batch, cloud, valid);
    ThreeTimes(s, batch, cloud);
    s' := SyncTimes(s, 3, batch, cloud);
    OneRoundLess(|Pending(s.rows)|, |Pending(s'.rows)|, rounds, batch);
  }

  /** An empty pending list stays empty: further calls do nothing. */
  lemma {:induction false} StaysDrained(s: Store, n: nat, batch: int, cloud: Cloud)
    requires Pending(s.rows) == []
    ensures SyncTimes(s, n, batch, cloud) == s
  {
    if n > 0 { StaysDrained(s, n - 1, batch, cloud); }
  }

  function Flushes(n: nat, batch: int): seq<Step> {
    seq(n, i => Flush(batch))
  }

  lemma LastFlush(steps: seq<Step>, n: nat, batch: int)
    requires n > 0
    ensures var all := steps + Flushes(n, batch);
            all != [] && all[..|all| - 1] == steps + Flushes(n - 1, batch) && all[|all| - 1] == Flush(batch)
  {
  }

  lemma FlushStep(all: seq<Step>, batch: int, cloud: Cloud)
    requires all != [] && all[|all| - 1] == Flush(batch)
    ensures Run(all, cloud) == Sync(Run(all[..|all| - 1], cloud), batch, cloud)
    ensures Inserted(all, cloud) == Inserted(all[..|all| - 1], cloud)
  {
  }

  lemma {:induction false} RunFlushes(steps: seq<Step>, n: nat, batch: int, cloud: Cloud)
    ensures Run(steps + Flushes(n, batch), cloud) == SyncTimes(Run(steps, cloud), n, batch, cloud)
    ensures Inserted(steps + Flushes(n, batch), cloud) == Inserted(steps, cloud)
  {
    if n == 0 {
      assert steps + Flushes(n, batch) == steps;
    } else {
      RunFlushes(steps, n - 1, batch, cloud);
      LastFlush(steps, n, batch);
      FlushStep(steps + Flushes(n, batch), batch, cloud);
    }
  }

  /** However flaky the cloud has been, once it stops failing transiently and no new event arrives,
      three calls per batch of what is pending drain the queue: every valid event that ever entered has
      been delivered, in order, and the quarantine holds exactly the invalid ones. */
  lemma BoundedDrain(steps: seq<Step>, calls: nat, rounds: nat, batch: int, cloud: Cloud, valid: Judge)
    requires batch >= 1 && Honest(cloud, valid) && ClockForward(steps)
    requires SteadyFrom(cloud, |Run(steps, cloud).log|)
    requires |Pending(Run(steps, cloud).rows)| <= rounds * batch && calls >= 3 * rounds
    ensures var s := Run(steps + Flushes(calls, batch), cloud);
            && Pending(s.rows) == []
            && Delivered(s.log) == Valids(Inserted(steps, cloud), valid)
            && (forall r :: r in s.rows ==> r.synced != 0 && !valid(r.event))
            && (forall e :: InQuarantine(s.rows, e) <==> e in Inserted(steps, cloud) && !valid(e))
  {
    var s0 := Run(steps, cloud);
    LineIsWhatEntered(steps, cloud, valid);
    DrainedAfter(s0, calls, rounds, batch, cloud, valid);
    RunFlushes(steps, calls, batch, cloud);
    FlushesKeepClock(steps, calls, batch);
    LineIsWhatEntered(steps + Flushes(calls, batch), cloud, valid);
    DrainedMeans(Run(steps + Flushes(calls, batch), cloud), valid);
    InvalidNeverLost(steps + Flushes(calls, batch), cloud, valid);
    QuarantineIs(Run(steps + Flushes(calls, batch), cloud).rows, Inserted(steps, cloud), valid);
  }

  lemma FlushesKeepClock(steps: seq<Step>, n: nat, batch: int)
    requires ClockForward(steps)
    ensures ClockForward(steps + Flushes(n, batch))
  {
  }

  lemma DrainedAfter(s: Store, calls: nat, rounds: nat, batch: int, cloud: Cloud, valid: Judge)
    requires batch >= 1 && Honest(cloud, valid) && SteadyFrom(cloud, |s.log|) && Distinct(s.rows)
    requires |Pending(s.rows)| <= rounds * batch && calls >= 3 * rounds
    ensures Pending(SyncTimes(s, calls, batch, cloud).rows) == []
  {
    DrainsInRounds(s, rounds, batch, cloud, valid);
    RoundsAreCalls(s, rounds, batch, cloud);
    TimesSplit(s, 3 * rounds, calls - 3 * rounds, batch, cloud);
    StaysDrained(SyncTimes(s, 3 * rounds, batch, cloud), calls - 3 * rounds, batch, cloud);
  }

  lemma DrainedMeans(s: Store, valid: Judge)
    requires Orderly(s, valid) && Pending(s.rows) == []
    ensures Delivered(s.log) == Line(s, valid)
    ensures forall r :: r in s.rows ==> r.synced != 0 && !valid(r.event)
  {
    PendingMembers(s.rows);
    WaitingArePending(s.rows, valid);
    assert Waiting([], valid) == [];
    assert Delivered(s.log) + [] == Delivered(s.log);
  }
}
