/** How long the command queue can take: every outstanding command is settled within a bounded
    number of polls, and an urgent command waits only for commands at least as urgent. */
module Liveness {
  import opened Basics
  import opened CommandQueue

  predicate TriesBounded(d: Device) {
    (forall c :: c in d.queue ==> c.tries <= MAX_TRIES) && (forall c :: c in d.inFlight ==> c.tries <= MAX_TRIES)
  }

  // ---- the measure: hand-outs still to come ----

  /** Hand-outs left to a command, by where it stands. */
  function Left(c: Command, inFlight: bool): nat {
    var all := if inFlight then MAX_TRIES else MAX_TRIES + 1;
    if c.tries <= all then all - c.tries else 0
  }

  /** Hand-outs left to the commands of `s` whose id is in `ids`. */
  function SumLeft(s: seq<Command>, ids: set<int>, inFlight: bool): nat {
    if s == [] then 0
    else (if s[0].id in ids then Left(s[0], inFlight) else 0) + SumLeft(s[1..], ids, inFlight)
  }

  function Work(d: Device, ids: set<int>): nat {
    SumLeft(d.queue, ids, false) + SumLeft(d.inFlight, ids, true)
  }

  function CountIn(s: seq<Command>, ids: set<int>): nat {
    if s == [] then 0 else (if s[0].id in ids then 1 else 0) + CountIn(s[1..], ids)
  }

  lemma {:induction false} SumAppend(a: seq<Command>, b: seq<Command>, ids: set<int>, inFlight: bool)
    ensures SumLeft(a + b, ids, inFlight) == SumLeft(a, ids, inFlight) + SumLeft(b, ids, inFlight)
  {
    if a == [] {
      assert a + b == b;
    } else {
      assert (a + b)[1..] == a[1..] + b;
      SumAppend(a[1..], b, ids, inFlight);
    }
  }

  lemma {:induction false} SumInsert(c: Command, q: seq<Command>, ids: set<int>)
    ensures SumLeft(Insert(c, q), ids, false) == SumLeft([c] + q, ids, false)
  {
    assert ([c] + q)[1..] == q;
    if q == [] || Before(c, q[0]) {
    } else {
      SumInsert(c, q[1..], ids);
      assert ([c] + q[1..])[1..] == q[1..];
      assert Insert(c, q)[1..] == Insert(c, q[1..]);
    }
  }

  lemma {:induction false} SumSort(q: seq<Command>, ids: set<int>)
    ensures SumLeft(Sort(q), ids, false) == SumLeft(q, ids, false)
  {
    if q != [] {
      SumSort(q[1..], ids);
      SumInsert(q[0], Sort(q[1..]), ids);
      assert ([q[0]] + Sort(q[1..]))[1..] == Sort(q[1..]);
    }
  }

  /** Reaping costs nothing: a retried command keeps the hand-outs it had left. */
  lemma {:induction false} SumReap(fs: seq<Command>, now: Time, ids: set<int>)
    ensures SumLeft(Kept(fs, now), ids, true) + SumLeft(Retried(fs, now), ids, false) <= SumLeft(fs, ids, true)
  {
    if fs != [] { SumReap(fs[1..], now, ids); }
  }

  /** Handing out uses up one hand-out of each command. */
  lemma {:induction false} SumStamp(cs: seq<Command>, now: Time, ids: set<int>)
    requires forall c :: c in cs ==> c.tries <= MAX_TRIES
    ensures SumLeft(Stamp(cs, now), ids, true) + CountIn(cs, ids) == SumLeft(cs, ids, false)
  {
    if cs != [] {
      assert cs[0] in cs && forall c :: c in cs[1..] ==> c in cs;
      SumStamp(cs[1..], now, ids);
    }
  }

  lemma {:induction false} SumWithout(fs: seq<Command>, id: int, ids: set<int>)
    ensures SumLeft(Without(fs, id), ids, true) <= SumLeft(fs, ids, true)
  {
    if fs != [] && fs[0].id != id { SumWithout(fs[1..], id, ids); }
  }

  lemma {:induction false} SumAtMost(s: seq<Command>, ids: set<int>, inFlight: bool)
    ensures SumLeft(s, ids, inFlight) <= (MAX_TRIES + 1) * CountIn(s, ids)
    ensures CountIn(s, ids) <= |s|
    ensures IdSet(s) <= ids ==> CountIn(s, ids) == |s|
  {
    if s != [] { SumAtMost(s[1..], ids, inFlight); }
  }

  lemma {:induction false} RetriedBounded(fs: seq<Command>, now: Time)
    requires forall c :: c in fs ==> c.tries <= MAX_TRIES
    ensures forall c :: c in Retried(fs, now) ==> c.tries <= MAX_TRIES
    ensures forall c :: c in Kept(fs, now) ==> c in fs
  {
    if fs != [] {
      assert fs[0] in fs && forall c :: c in fs[1..] ==> c in fs;
      RetriedBounded(fs[1..], now);
    }
  }

  lemma SortMembers(q: seq<Command>)
    ensures forall c :: c in Sort(q) <==> c in q
  {
    SortIds(q);
    forall c ensures c in Sort(q) <==> c in q {
      assert c in multiset(Sort(q)) <==> c in multiset(q);
    }
  }

  /** The front of the sorted queue: what a poll hands out, unstamped. */
  function Front(d: Device, batch: int, now: Time): seq<Command> {
    var q := Sort(Reap(d, now).queue);
    q[..BatchSize(batch, q)]
  }

  lemma PollBounded(d: Device, batch: int, now: Time)
    requires Separate(d) && TriesBounded(d)
    ensures TriesBounded(Poll(d, batch, now))
    ensures forall c :: c in Front(d, batch, now) ==> c.tries <= MAX_TRIES
  {
    var r := Reap(d, now);
    var q := Sort(r.queue);
    var n := BatchSize(batch, q);
    PollShape(d, batch, now);
    RetriedBounded(d.inFlight, now);
    SortMembers(r.queue);
    FrontBounded(q, n, now);
  }

  lemma FrontBounded(q: seq<Command>, n: nat, now: Time)
    requires n <= |q| && forall c :: c in q ==> c.tries <= MAX_TRIES
    ensures forall c :: c in q[..n] || c in q[n..] || c in Stamp(q[..n], now) ==> c.tries <= MAX_TRIES
  {
    assert forall c :: c in q[..n] || c in q[n..] ==> c in q;
    StampIds(q[..n], now);
  }

  /** A poll uses up as many hand-outs as it hands out commands. */
  lemma PollWork(d: Device, batch: int, now: Time, ids: set<int>)
    requires Separate(d) && TriesBounded(d)
    ensures Work(Poll(d, batch, now), ids) + CountIn(Front(d, batch, now), ids) <= Work(d, ids)
  {
    var r := Reap(d, now);
    var q := Sort(r.queue);
    var n := BatchSize(batch, q);
    PollShape(d, batch, now);
    PollBounded(d, batch, now);
    SumReap(d.inFlight, now, ids);
    SumAppend(d.queue, Retried(d.inFlight, now), ids, false);
    SumSort(r.queue, ids);
    SumStamp(q[..n], now, ids);
    SumAppend(r.inFlight, Stamp(q[..n], now), ids, true);
    SumAppend(q[..n], q[n..], ids, false);
    assert q[..n] + q[n..] == q;
  }

  // ---- bounded completion ----

  function Serves(es: seq<Event>): nat {
    if es == [] then 0 else Serves(es[..|es| - 1]) + if es[|es| - 1].step.Serve? then 1 else 0
  }

  predicate Settled(d: Device) { d.queue == [] && d.inFlight == [] }

  /** No new commands, and each poll arrives when every in-flight command has timed out. */
  predicate QuietAndRipe(d: Device, es: seq<Event>) {
    es == [] ||
    (var e := es[|es| - 1];
     && QuietAndRipe(d, es[..|es| - 1])
     && !e.step.Submit?
     && (e.step.Serve? ==> forall c :: c in Run(d, es[..|es| - 1]).inFlight ==> !Waiting(c, e.at)))
  }

  lemma {:induction false} NoneKept(fs: seq<Command>, now: Time)
    requires forall c :: c in fs ==> !Waiting(c, now)
    ensures Kept(fs, now) == []
  {
    if fs != [] {
      assert fs[0] in fs && forall c :: c in fs[1..] ==> c in fs;
      NoneKept(fs[1..], now);
    }
  }

  lemma ReportKeeps(d: Device, e: Event, ids: set<int>)
    requires Separate(d) && TriesBounded(d) && e.step.Report?
    ensures Separate(Apply(d, e)) && TriesBounded(Apply(d, e))
    ensures Work(Apply(d, e), ids) <= Work(d, ids)
    ensures IdSet(Apply(d, e).inFlight) <= IdSet(d.inFlight)
    ensures Settled(d) ==> Settled(Apply(d, e))
  {
    WithoutIds(d.inFlight, e.step.id);
    SumWithout(d.inFlight, e.step.id, ids);
  }

  /** The ids outstanding after a poll were outstanding before. */
  lemma PollOutstanding(d: Device, batch: int, now: Time)
    requires Separate(d)
    ensures IdSet(Poll(d, batch, now).queue) + IdSet(Poll(d, batch, now).inFlight) <= IdSet(d.queue) + IdSet(d.inFlight)
    ensures IdSet(Front(d, batch, now)) <= IdSet(d.queue) + IdSet(d.inFlight)
  {
    var r := Reap(d, now);
    var q := Sort(r.queue);
    PollShape(d, batch, now);
    ReapSeparate(d, now);
    ReapIds(d.inFlight, now);
    StampIds(q[..BatchSize(batch, q)], now);
    IdSetAppend(r.inFlight, Stamp(q[..BatchSize(batch, q)], now));
  }

  lemma {:induction false} QuietProgress(d: Device, es: seq<Event>, ids: set<int>)
    requires Separate(d) && TriesBounded(d) && QuietAndRipe(d, es)
    requires IdSet(d.queue) + IdSet(d.inFlight) <= ids
    ensures var d' := Run(d, es);
            && Separate(d') && TriesBounded(d') && IdSet(d'.queue) + IdSet(d'.inFlight) <= ids
            && (Settled(d') || Serves(es) + Work(d', ids) <= Work(d, ids))
  {
    if es != [] {
      var before := es[..|es| - 1];
      var e := es[|es| - 1];
      QuietProgress(d, before, ids);
      var m := Run(d, before);
      if e.step.Report? {
        ReportKeeps(m, e, ids);
      } else {
        var r := Reap(m, e.at);
        PollShape(m, e.step.batch, e.at);
        PollBounded(m, e.step.batch, e.at);
        PollWork(m, e.step.batch, e.at, ids);
        PollOutstanding(m, e.step.batch, e.at);
        NoneKept(m.inFlight, e.at);
        SumAtMost(Front(m, e.step.batch, e.at), ids, false);
        SortMembers(r.queue);
        if r.queue != [] {
          assert r.queue[0] in Sort(r.queue);
        }
      }
    }
  }

  lemma ReachableIsBounded(es: seq<Event>)
    requires FreshIds(es)
    ensures Separate(Run(EMPTY_DEVICE, es)) && TriesBounded(Run(EMPTY_DEVICE, es))
    ensures NoneLost(Run(EMPTY_DEVICE, es), es)
  {
    EveryRunAccounted(es);
  }

  lemma {:induction false} RunAppend(d: Device, a: seq<Event>, b: seq<Event>)
    ensures Run(d, a + b) == Run(Run(d, a), b)
  {
    if b == [] {
      assert a + b == a;
    } else {
      assert (a + b)[..|a + b| - 1] == a + b[..|b| - 1];
      RunAppend(d, a, b[..|b| - 1]);
    }
  }

  lemma {:induction false} QuietSubmitsNothing(d: Device, a: seq<Event>, b: seq<Event>)
    requires FreshIds(a) && QuietAndRipe(d, b)
    ensures FreshIds(a + b) && SubmittedIds(a + b) == SubmittedIds(a)
  {
    if b == [] {
      assert a + b == a;
    } else {
      assert (a + b)[..|a + b| - 1] == a + b[..|b| - 1];
      QuietSubmitsNothing(d, a, b[..|b| - 1]);
    }
  }

  /** Whatever the past, once nothing new is submitted and polls come no sooner than ACK_TIMEOUT
      after the last hand-out, 6n + 1 polls settle all n outstanding commands: queue and in-flight
      table are empty and every command ever submitted is acknowledged or marked timed out. */
  lemma BoundedCompletion(past: seq<Event>, es: seq<Event>)
    requires FreshIds(past)
    requires QuietAndRipe(Run(EMPTY_DEVICE, past), es)
    requires var d := Run(EMPTY_DEVICE, past);
             Serves(es) >= 6 * (|d.queue| + |d.inFlight|) + 1
    ensures var d' := Run(EMPTY_DEVICE, past + es);
            Settled(d') && SubmittedIds(past) <= d'.acked.Keys
  {
    var d := Run(EMPTY_DEVICE, past);
    var ids := IdSet(d.queue) + IdSet(d.inFlight);
    ReachableIsBounded(past);
    QuietProgress(d, es, ids);
    SumAtMost(d.queue, ids, false);
    SumAtMost(d.inFlight, ids, true);
    RunAppend(EMPTY_DEVICE, past, es);
    QuietSubmitsNothing(d, past, es);
    ReachableIsBounded(past + es);
  }

  // ---- urgency ----

  /** Only commands of `ids` stand in front of x: what precedes x in the list is in `ids` or
      strictly less urgent, what follows it is in `ids` or no more urgent. */
  ghost predicate OnlyAhead(d: Device, x: Command, ids: set<int>, a: seq<Command>, b: seq<Command>) {
    && d.queue == a + [x] + b
    && (forall c :: c in a ==> c.id in ids || !Before(c, x))
    && (forall c :: c in b ==> c.id in ids || Before(x, c))
    && (forall c :: c in d.inFlight ==> c.id in ids || !Before(c, x))
  }

  /** Inserting into a list that holds x: the newcomer lands ahead of x only if it may go first. */
  lemma {:induction false} InsertAround(c: Command, a: seq<Command>, x: Command, b: seq<Command>)
    returns (a': seq<Command>, b': seq<Command>)
    requires forall p :: p in a ==> Before(p, x)
    ensures Insert(c, a + [x] + b) == a' + [x] + b'
    ensures forall p :: p in a' ==> Before(p, x) && (p in a || p == c)
  {
    var s := a + [x] + b;
    if a == [] {
      assert s[0] == x && s[1..] == b;
      if Before(c, x) {
        a', b' := [c], b;
      } else {
        a', b' := [], Insert(c, b);
      }
    } else {
      assert a[0] in a && s[0] == a[0] && s[1..] == a[1..] + [x] + b;
      if Before(c, a[0]) {
        a', b' := [c] + a, b;
      } else {
        assert forall p :: p in a[1..] ==> p in a;
        var t, u := InsertAround(c, a[1..], x, b);
        a', b' := [a[0]] + t, u;
      }
    }
  }

  /** Sorting leaves only commands of `ids` ahead of x. */
  lemma {:induction false} SortAround(a: seq<Command>, x: Command, b: seq<Command>, ids: set<int>)
    returns (a': seq<Command>, b': seq<Command>)
    requires forall c :: c in a ==> c.id in ids || !Before(c, x)
    requires forall c :: c in b ==> c.id in ids || Before(x, c)
    ensures Sort(a + [x] + b) == a' + [x] + b'
    ensures forall c :: c in a' ==> c.id in ids && Before(c, x)
    decreases a
  {
    var s := a + [x] + b;
    if a == [] {
      assert s[1..] == b;
      a', b' := InsertSplit(x, Sort(b));
      SortMembers(b);
      assert forall c :: c in a' ==> c in Sort(b);
    } else {
      assert s[0] == a[0] && s[1..] == a[1..] + [x] + b;
      assert a[0] in a && forall c :: c in a[1..] ==> c in a;
      var t, u := SortAround(a[1..], x, b, ids);
      a', b' := InsertAround(a[0], t, x, u);
    }
  }

  /** Where a command lands: behind everything it may not precede. */
  lemma {:induction false} InsertSplit(x: Command, q: seq<Command>) returns (a: seq<Command>, b: seq<Command>)
    ensures Insert(x, q) == a + [x] + b && q == a + b
    ensures forall c :: c in a ==> !Before(x, c)
  {
    if q == [] || Before(x, q[0]) {
      a, b := [], q;
    } else {
      var t, u := InsertSplit(x, q[1..]);
      a, b := [q[0]] + t, u;
      assert q == [q[0]] + q[1..];
    }
  }

  /** Retries and kept commands are the in-flight commands, up to the tries. */
  lemma {:induction false} ReapKeepsRank(fs: seq<Command>, now: Time, x: Command, ids: set<int>)
    requires forall c :: c in fs ==> c.id in ids || !Before(c, x)
    ensures forall c :: c in Retried(fs, now) ==> c.id in ids || !Before(c, x)
    ensures forall c :: c in Kept(fs, now) ==> c.id in ids || !Before(c, x)
  {
    if fs != [] {
      assert fs[0] in fs && forall c :: c in fs[1..] ==> c in fs;
      ReapKeepsRank(fs[1..], now, x, ids);
    }
  }

  lemma {:induction false} CountAll(s: seq<Command>, ids: set<int>)
    requires forall c :: c in s ==> c.id in ids
    ensures CountIn(s, ids) == |s|
  {
    if s != [] {
      assert s[0] in s && forall c :: c in s[1..] ==> c in s;
      CountAll(s[1..], ids);
    }
  }

  /** What a poll sorts: commands of `ids`, then x, then what x may precede. */
  lemma SortedAround(d: Device, x: Command, ids: set<int>, a: seq<Command>, b: seq<Command>, now: Time)
    returns (t: seq<Command>, u: seq<Command>)
    requires OnlyAhead(d, x, ids, a, b)
    ensures Sort(Reap(d, now).queue) == t + [x] + u
    ensures forall c :: c in t ==> c.id in ids && Before(c, x)
    ensures forall c :: c in u ==> Before(x, c)
  {
    var more := Retried(d.inFlight, now);
    var q := Sort(Reap(d, now).queue);
    ReapKeepsRank(d.inFlight, now, x, ids);
    assert Reap(d, now).queue == a + [x] + (b + more);
    t, u := SortAround(a, x, b + more, ids);
    SortOrdered(Reap(d, now).queue);
    forall c | c in u ensures Before(x, c) {
      var i :| 0 <= i < |u| && u[i] == c;
      assert q[|t|] == x && q[|t| + 1 + i] == c;
    }
  }

  /** Kept commands and stamped ones of `ids` leave x behind commands of `ids` only. */
  lemma FlightKeepsRank(fs: seq<Command>, front: seq<Command>, x: Command, ids: set<int>, now: Time)
    requires forall c :: c in fs ==> c.id in ids || !Before(c, x)
    requires forall c :: c in front ==> c.id in ids
    ensures forall c :: c in Kept(fs, now) + Stamp(front, now) ==> c.id in ids || !Before(c, x)
  {
    ReapKeepsRank(fs, now, x, ids);
    StampIds(front, now);
  }

  /** One poll either hands x out or hands out a command of `ids` and keeps x waiting behind
      commands of `ids` only. */
  lemma PollAround(d: Device, x: Command, ids: set<int>, a: seq<Command>, b: seq<Command>, batch: int, now: Time)
    returns (a': seq<Command>, b': seq<Command>)
    requires Separate(d) && OnlyAhead(d, x, ids, a, b)
    ensures x in Front(d, batch, now) ||
            (OnlyAhead(Poll(d, batch, now), x, ids, a', b') && CountIn(Front(d, batch, now), ids) >= 1)
  {
    var q := Sort(Reap(d, now).queue);
    var n := BatchSize(batch, q);
    var t, u := SortedAround(d, x, ids, a, b, now);
    a', b' := [], u;
    if n > |t| {
      assert q[..n][|t|] == x;
    } else {
      a' := t[n..];
      assert q[..n] == t[..n] && q[n..] == a' + [x] + u;
      assert forall c :: c in t[..n] || c in t[n..] ==> c in t;
      CountAll(q[..n], ids);
      PollShape(d, batch, now);
      FlightKeepsRank(d.inFlight, q[..n], x, ids, now);
    }
  }

  /** New commands are submitted under unused ids. */
  predicate FreshSubmits(d: Device, es: seq<Event>) {
    es == [] ||
    (var before := es[..|es| - 1];
     var s := es[|es| - 1].step;
     && FreshSubmits(d, before)
     && (s.Submit? ==> s.id !in SubmittedIds(before) + IdSet(d.queue) + IdSet(d.inFlight)))
  }

  /** The command a submission puts on the queue. */
  function Newcomer(e: Event): Command
    requires e.step.Submit?
  {
    Command(e.step.id, e.step.line, e.at, 0, Wire.PriorityOf(e.step.line, e.step.priority), None)
  }

  /** The id an event submits, if its command must go before x. */
  function NewRival(x: Command, e: Event): set<int> {
    if e.step.Submit? && !Before(x, Newcomer(e)) then {e.step.id} else {}
  }

  /** The ids submitted during a run that must go before x. */
  function LaterRivals(x: Command, es: seq<Event>): (ids: set<int>)
    ensures ids <= SubmittedIds(es)
  {
    if es == [] then {} else LaterRivals(x, es[..|es| - 1]) + NewRival(x, es[|es| - 1])
  }

  /** An id that does not occur counts for nothing. */
  lemma {:induction false} SumWithId(s: seq<Command>, ids: set<int>, id: int, inFlight: bool)
    requires id !in IdSet(s)
    ensures SumLeft(s, ids + {id}, inFlight) == SumLeft(s, ids, inFlight)
  {
    if s != [] { SumWithId(s[1..], ids, id, inFlight); }
  }

  function NewId(e: Event): set<int> {
    if e.step.Submit? then {e.step.id} else {}
  }

  function ServeCount(e: Event): nat {
    if e.step.Serve? then 1 else 0
  }

  /** x waits behind commands of `ids` only, and nothing is outstanding but `out`. */
  ghost predicate Waits(d: Device, x: Command, ids: set<int>, out: set<int>, a: seq<Command>, b: seq<Command>) {
    Separate(d) && TriesBounded(d) && OnlyAhead(d, x, ids, a, b) && IdSet(d.queue) + IdSet(d.inFlight) <= out
  }

  /** A newcomer joins behind x. */
  lemma NewcomerWaits(m: Device, x: Command, ids: set<int>, out: set<int>, a: seq<Command>, b: seq<Command>, e: Event,
                      d': Device)
    requires Waits(m, x, ids, out, a, b) && e.step.Submit? && e.step.id !in ids + out && d' == Apply(m, e)
    ensures Waits(d', x, ids + NewRival(x, e), out + {e.step.id}, a, b + [Newcomer(e)])
  {
    EnqueueSeparate(m, e.step.id, e.step.line, e.step.priority, e.at);
    assert m.queue + [Newcomer(e)] == a + [x] + (b + [Newcomer(e)]);
  }

  /** It adds to the work ahead if it must go first. */
  lemma NewcomerWork(m: Device, x: Command, ids: set<int>, e: Event, d': Device)
    requires e.step.Submit? && e.step.id !in ids + IdSet(m.queue) + IdSet(m.inFlight) && d' == Apply(m, e)
    ensures Work(d', ids + NewRival(x, e)) == Work(m, ids) + (MAX_TRIES + 1) * |NewRival(x, e)|
  {
    var c := Newcomer(e);
    var all := ids + NewRival(x, e);
    SumAppend(m.queue, [c], all, false);
    assert [c][1..] == [] && SumLeft([c], all, false) == if Before(x, c) then 0 else MAX_TRIES + 1;
    if Before(x, c) {
      assert all == ids;
    } else {
      SumWithId(m.queue, ids, c.id, false);
      SumWithId(m.inFlight, ids, c.id, true);
    }
  }

  lemma ReportWaits(m: Device, x: Command, ids: set<int>, out: set<int>, a: seq<Command>, b: seq<Command>, e: Event,
                    d': Device)
    requires Waits(m, x, ids, out, a, b) && e.step.Report? && d' == Apply(m, e)
    ensures Waits(d', x, ids, out, a, b) && Work(d', ids) <= Work(m, ids)
  {
    ReportKeeps(m, e, ids);
    WithoutIds(m.inFlight, e.step.id);
  }

  /** A poll that passes x over hands out one of its rivals. */
  lemma PollWaits(m: Device, x: Command, ids: set<int>, out: set<int>, a: seq<Command>, b: seq<Command>,
                  batch: int, now: Time, d': Device)
    returns (a': seq<Command>, b': seq<Command>)
    requires Waits(m, x, ids, out, a, b) && d' == Poll(m, batch, now)
    requires CountId(Handed(m, batch, now), x.id) == 0
    ensures Waits(d', x, ids, out, a', b') && 1 + Work(d', ids) <= Work(m, ids)
  {
    a', b' := PollAround(m, x, ids, a, b, batch, now);
    PollShape(m, batch, now);
    PollBounded(m, batch, now);
    PollWork(m, batch, now, ids);
    PollOutstanding(m, batch, now);
    StampIds(Front(m, batch, now), now);
    CountIsMembership(Handed(m, batch, now), x.id);
    IdSetMembers(Front(m, batch, now));
  }

  /** One event while x waits. */
  lemma UrgentStep(m: Device, x: Command, ids: set<int>, out: set<int>, a: seq<Command>, b: seq<Command>, e: Event,
                   d': Device, ids': set<int>, out': set<int>)
    returns (a': seq<Command>, b': seq<Command>)
    requires Waits(m, x, ids, out, a, b) && NewId(e) !! ids + out
    requires CountId(HandedBy(m, e), x.id) == 0
    requires d' == Apply(m, e) && ids' == ids + NewRival(x, e) && out' == out + NewId(e)
    ensures Waits(d', x, ids', out', a', b')
    ensures ServeCount(e) + Work(d', ids') <= Work(m, ids) + (MAX_TRIES + 1) * |NewRival(x, e)|
  {
    match e.step
    case Submit(_, _, _) =>
      a', b' := a, b + [Newcomer(e)];
      NewcomerWaits(m, x, ids, out, a, b, e, d');
      NewcomerWork(m, x, ids, e, d');
    case Report(_, _, _) =>
      assert ids' == ids && out' == out;
      a', b' := a, b;
      ReportWaits(m, x, ids, out, a, b, e, d');
    case Serve(batch) =>
      assert ids' == ids && out' == out;
      a', b' := PollWaits(m, x, ids, out, a, b, batch, e.at, d');
  }

  lemma OneMoreRival(x: Command, es: seq<Event>)
    requires es != [] && NewId(es[|es| - 1]) !! SubmittedIds(es[..|es| - 1])
    ensures LaterRivals(x, es) == LaterRivals(x, es[..|es| - 1]) + NewRival(x, es[|es| - 1])
    ensures |LaterRivals(x, es)| == |LaterRivals(x, es[..|es| - 1])| + |NewRival(x, es[|es| - 1])|
  {
    assert LaterRivals(x, es[..|es| - 1]) !! NewRival(x, es[|es| - 1]);
  }

  lemma LastEvent(d: Device, es: seq<Event>, id: int)
    requires es != [] && FreshSubmits(d, es) && HandOuts(d, es, id) == 0
    ensures var before := es[..|es| - 1];
            var e := es[|es| - 1];
            && FreshSubmits(d, before) && NewId(e) !! SubmittedIds(before) + IdSet(d.queue) + IdSet(d.inFlight)
            && HandOuts(d, before, id) == 0 && CountId(HandedBy(Run(d, before), e), id) == 0
            && Run(d, es) == Apply(Run(d, before), e)
            && Serves(es) == Serves(before) + ServeCount(e)
            && SubmittedIds(es) == SubmittedIds(before) + NewId(e)
  {
  }

  lemma AssociateSets(a: set<int>, b: set<int>, c: set<int>, bc: set<int>)
    requires bc == b + c
    ensures a + bc == (a + b) + c
  {
  }

  lemma ProgressStep(d: Device, x: Command, ids: set<int>, es: seq<Event>, out: set<int>, a: seq<Command>,
                     b: seq<Command>)
    returns (a': seq<Command>, b': seq<Command>)
    requires es != [] && FreshSubmits(d, es) && HandOuts(d, es, x.id) == 0
    requires out == IdSet(d.queue) + IdSet(d.inFlight) && ids <= out
    requires var before := es[..|es| - 1];
             Waits(Run(d, before), x, ids + LaterRivals(x, before), out + SubmittedIds(before), a, b)
    ensures Waits(Run(d, es), x, ids + LaterRivals(x, es), out + SubmittedIds(es), a', b')
    ensures var before := es[..|es| - 1];
            ServeCount(es[|es| - 1]) + Work(Run(d, es), ids + LaterRivals(x, es)) <=
            Work(Run(d, before), ids + LaterRivals(x, before)) + (MAX_TRIES + 1) * |NewRival(x, es[|es| - 1])|
  {
    var before := es[..|es| - 1];
    var e := es[|es| - 1];
    LastEvent(d, es, x.id);
    OneMoreRival(x, es);
    AssociateSets(ids, LaterRivals(x, before), NewRival(x, e), LaterRivals(x, es));
    AssociateSets(out, SubmittedIds(before), NewId(e), SubmittedIds(es));
    a', b' := UrgentStep(Run(d, before), x, ids + LaterRivals(x, before), out + SubmittedIds(before), a, b, e,
                         Run(d, es), ids + LaterRivals(x, es), out + SubmittedIds(es));
  }

  lemma NoProgressYet(d: Device, x: Command, ids: set<int>, out: set<int>)
    ensures Run(d, []) == d && ids + LaterRivals(x, []) == ids && out + SubmittedIds([]) == out &&
            LaterRivals(x, []) == {}
  {
  }

  /** Progress while x waits: every poll uses up one hand-out of a rival, and every later rival
      brings at most MAX_TRIES + 1 more. */
  lemma {:induction false} UrgentProgress(d: Device, x: Command, ids: set<int>, es: seq<Event>, out: set<int>,
                                          a: seq<Command>, b: seq<Command>)
    returns (a': seq<Command>, b': seq<Command>)
    requires Waits(d, x, ids, out, a, b) && out == IdSet(d.queue) + IdSet(d.inFlight) && ids <= out
    requires FreshSubmits(d, es) && HandOuts(d, es, x.id) == 0
    ensures Waits(Run(d, es), x, ids + LaterRivals(x, es), out + SubmittedIds(es), a', b')
    ensures Serves(es) + Work(Run(d, es), ids + LaterRivals(x, es)) <=
            Work(d, ids) + (MAX_TRIES + 1) * |LaterRivals(x, es)|
  {
    if es == [] {
      NoProgressYet(d, x, ids, out);
      a', b' := a, b;
    } else {
      LastEvent(d, es, x.id);
      OneMoreRival(x, es);
      a', b' := UrgentProgress(d, x, ids, es[..|es| - 1], out, a, b);
      a', b' := ProgressStep(d, x, ids, es, out, a', b');
    }
  }

  /** The ids outstanding in `s` that may go before x. */
  function RivalIds(s: seq<Command>, x: Command): set<int> {
    if s == [] then {}
    else (if s[0].id != x.id && Before(s[0], x) then {s[0].id} else {}) + RivalIds(s[1..], x)
  }

  lemma {:induction false} RivalMembers(s: seq<Command>, x: Command)
    ensures forall c :: c in s && c.id != x.id && Before(c, x) ==> c.id in RivalIds(s, x)
    ensures RivalIds(s, x) <= IdSet(s)
  {
    if s != [] {
      RivalMembers(s[1..], x);
      assert s == [s[0]] + s[1..];
    }
  }

  lemma {:induction false} CountAtMost(s: seq<Command>, ids: set<int>)
    requires Distinct(s)
    ensures CountIn(s, ids) == |IdSet(s) * ids|
  {
    if s != [] {
      CountAtMost(s[1..], ids);
      if s[0].id in ids {
        assert IdSet(s) * ids == (IdSet(s[1..]) * ids) + {s[0].id};
      } else {
        assert IdSet(s) * ids == IdSet(s[1..]) * ids;
      }
    }
  }

  lemma RivalCount(d: Device, x: Command)
    requires Separate(d)
    ensures var ids := RivalIds(d.queue + d.inFlight, x);
            Work(d, ids) <= (MAX_TRIES + 1) * |ids|
  {
    var ids := RivalIds(d.queue + d.inFlight, x);
    SumAtMost(d.queue, ids, false);
    SumAtMost(d.inFlight, ids, true);
    CountAtMost(d.queue, ids);
    CountAtMost(d.inFlight, ids);
    SetSizes(IdSet(d.queue) * ids, IdSet(d.inFlight) * ids, ids);
  }

  lemma SetSizes(a: set<int>, b: set<int>, c: set<int>)
    requires a !! b && a + b <= c
    ensures |a| + |b| <= |c|
  {
    assert c == (a + b) + (c - (a + b));
    assert |a + b| == |a| + |b|;
  }

  lemma RivalsAhead(d: Device, x: Command) returns (a: seq<Command>, b: seq<Command>)
    requires Separate(d) && x in d.queue
    ensures OnlyAhead(d, x, RivalIds(d.queue + d.inFlight, x), a, b)
  {
    var i :| 0 <= i < |d.queue| && d.queue[i] == x;
    a, b := d.queue[..i], d.queue[i + 1..];
    assert d.queue == a + [x] + b;
    assert forall c :: c in a || c in b || c in d.inFlight ==> c in d.queue + d.inFlight;
    RivalMembers(d.queue + d.inFlight, x);
    OthersDiffer(a, x, b);
    IdSetMembers(d.inFlight);
    IdSetMembers(d.queue);
  }

  lemma OthersDiffer(a: seq<Command>, x: Command, b: seq<Command>)
    requires Distinct(a + [x] + b)
    ensures forall c :: c in a || c in b ==> c.id != x.id
  {
    IdSetAppend(a + [x], b);
    IdSetAppend(a, [x]);
    assert [x][1..] == [];
    IdSetMembers(a);
    IdSetMembers(b);
  }

  /** A queued command waits only for its rivals, however long the rest of the queue: with k rivals,
      those outstanding now of higher priority or of its own and no younger, and those submitted
      later that must go first, at most 6k polls can pass it over. */
  lemma UrgentNotDelayed(d: Device, x: Command, es: seq<Event>)
    requires Separate(d) && TriesBounded(d) && x in d.queue
    requires FreshSubmits(d, es)
    requires Serves(es) >= 6 * (|RivalIds(d.queue + d.inFlight, x)| + |LaterRivals(x, es)|) + 1
    ensures HandOuts(d, es, x.id) >= 1
  {
    var ids := RivalIds(d.queue + d.inFlight, x);
    var a, b := RivalsAhead(d, x);
    RivalMembers(d.queue + d.inFlight, x);
    IdSetAppend(d.queue, d.inFlight);
    RivalCount(d, x);
    if HandOuts(d, es, x.id) == 0 {
      var a', b' := UrgentProgress(d, x, ids, es, IdSet(d.queue) + IdSet(d.inFlight), a, b);
    }
  }

  /** An open command behind nothing but bulk data goes out on the very next poll, unless something
      that must go first comes in between. */
  lemma OpenOvertakesData(d: Device, x: Command, es: seq<Event>)
    requires Separate(d) && TriesBounded(d) && x in d.queue
    requires forall c :: c in d.queue + d.inFlight && c.id != x.id ==> c.prio < x.prio
    requires FreshSubmits(d, es) && LaterRivals(x, es) == {} && Serves(es) >= 1
    ensures HandOuts(d, es, x.id) >= 1
  {
    NoRivals(d.queue + d.inFlight, x);
    UrgentNotDelayed(d, x, es);
  }

  lemma {:induction false} NoRivals(s: seq<Command>, x: Command)
    requires forall c :: c in s && c.id != x.id ==> c.prio < x.prio
    ensures RivalIds(s, x) == {}
  {
    if s != [] {
      assert s[0] in s && forall c :: c in s[1..] ==> c in s;
      NoRivals(s[1..], x);
    }
  }
}
