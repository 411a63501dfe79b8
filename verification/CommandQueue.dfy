/** The push server's command queue for one panel, as values: what each lock-protected step makes
    of the queue, the in-flight table, the acknowledgement map and the mirrored card table. */
module CommandQueue {
  import opened Basics
  import opened Wire

  const ACK_TIMEOUT: Time := 4.0
  const CMD_TTL: Time := 60.0
  const MAX_TRIES: nat := 5
  const TIMED_OUT: string := "-1"

  datatype Command = Command(id: int, line: string, enq: Time, tries: nat, prio: int, sent: Option<Time>)

  /** `inFlight` is a dictionary keyed by command id, listed in insertion order. */
  datatype Device = Device(queue: seq<Command>, inFlight: seq<Command>, acked: map<int, string>, users: set<string>)

  const EMPTY_DEVICE := Device([], [], map[], {})

  // ---- enqueue ----

  function Enqueue(d: Device, id: int, line: string, priority: Option<int>, now: Time): Device {
    d.(queue := d.queue + [Command(id, line, now, 0, PriorityOf(line, priority), None)],
       users := ApplyEffect(d.users, MirrorEffect(line)))
  }

  // ---- reap ----

  /** Handed out less than ACK_TIMEOUT ago. */
  predicate Waiting(c: Command, now: Time) {
    now - c.sent.GetOr(now) < ACK_TIMEOUT
  }

  predicate Exhausted(c: Command, now: Time) {
    now - c.enq > CMD_TTL || c.tries >= MAX_TRIES
  }

  function Kept(fs: seq<Command>, now: Time): seq<Command> {
    if fs == [] then []
    else if Waiting(fs[0], now) then [fs[0]] + Kept(fs[1..], now)
    else Kept(fs[1..], now)
  }

  function Retried(fs: seq<Command>, now: Time): seq<Command> {
    if fs == [] then []
    else if !Waiting(fs[0], now) && !Exhausted(fs[0], now) then
      [fs[0].(tries := fs[0].tries + 1)] + Retried(fs[1..], now)
    else Retried(fs[1..], now)
  }

  /** The acknowledgement map once every command given up on is marked, without overwriting. */
  function GivenUp(acked: map<int, string>, fs: seq<Command>, now: Time): map<int, string>
    decreases fs
  {
    if fs == [] then acked
    else
      var c := fs[0];
      var next := if !Waiting(c, now) && Exhausted(c, now) && c.id !in acked then acked[c.id := TIMED_OUT] else acked;
      GivenUp(next, fs[1..], now)
  }

  function Reap(d: Device, now: Time): Device {
    Device(d.queue + Retried(d.inFlight, now), Kept(d.inFlight, now), GivenUp(d.acked, d.inFlight, now), d.users)
  }

  // ---- hand out ----

  /** Higher priority first, then the older: may `a` be handed out before `b`? */
  predicate Before(a: Command, b: Command) {
    a.prio > b.prio || (a.prio == b.prio && a.enq <= b.enq)
  }

  function Insert(c: Command, q: seq<Command>): seq<Command> {
    if q == [] || Before(c, q[0]) then [c] + q else [q[0]] + Insert(c, q[1..])
  }

  /** `list.sort`: stable, by descending priority and then by enqueue time. */
  function Sort(q: seq<Command>): seq<Command> {
    if q == [] then [] else Insert(q[0], Sort(q[1..]))
  }

  function Stamp(cs: seq<Command>, now: Time): seq<Command> {
    if cs == [] then [] else [cs[0].(sent := Some(now))] + Stamp(cs[1..], now)
  }

  /** Dictionary assignment: an existing key keeps its place. */
  function Put(fs: seq<Command>, c: Command): seq<Command> {
    if fs == [] then [c]
    else if fs[0].id == c.id then [c] + fs[1..]
    else [fs[0]] + Put(fs[1..], c)
  }

  function PutAll(fs: seq<Command>, cs: seq<Command>): seq<Command>
    decreases cs
  {
    if cs == [] then fs else PutAll(Put(fs, cs[0]), cs[1..])
  }

  function BatchSize(batch: int, q: seq<Command>): (n: nat)
    ensures n <= |q| && (q != [] ==> n >= 1)
  {
    Min(Max(1, batch), |q|)
  }

  /** What a poll hands out. */
  function Handed(d: Device, batch: int, now: Time): seq<Command> {
    var q := Sort(Reap(d, now).queue);
    Stamp(q[..BatchSize(batch, q)], now)
  }

  function Poll(d: Device, batch: int, now: Time): Device {
    var r := Reap(d, now);
    var q := Sort(r.queue);
    r.(queue := q[BatchSize(batch, q)..], inFlight := PutAll(r.inFlight, Handed(d, batch, now)))
  }

  // ---- acknowledge ----

  /** Dictionary deletion. */
  function Without(fs: seq<Command>, id: int): seq<Command> {
    if fs == [] then []
    else if fs[0].id == id then fs[1..]
    else [fs[0]] + Without(fs[1..], id)
  }

  /** Id 0 stands for an acknowledgement without a readable id, and is dropped. */
  function Ack(d: Device, id: int, code: string, effect: Effect): Device {
    if id == 0 then d
    else Device(d.queue, Without(d.inFlight, id), d.acked[id := code], ApplyEffect(d.users, effect))
  }

  // ---- runs ----

  datatype Step =
    | Submit(id: int, line: string, priority: Option<int>)
    | Serve(batch: int)
    | Report(id: int, code: string, effect: Effect)

  datatype Event = Event(at: Time, step: Step)

  function Apply(d: Device, e: Event): Device {
    match e.step
    case Submit(id, line, priority) => Enqueue(d, id, line, priority, e.at)
    case Serve(batch) => Poll(d, batch, e.at)
    case Report(id, code, effect) => Ack(d, id, code, effect)
  }

  function Run(d: Device, es: seq<Event>): Device {
    if es == [] then d else Apply(Run(d, es[..|es| - 1]), es[|es| - 1])
  }

  /** The commands one event hands to the panel. */
  function HandedBy(d: Device, e: Event): seq<Command> {
    if e.step.Serve? then Handed(d, e.step.batch, e.at) else []
  }

  function CountId(cs: seq<Command>, id: int): nat {
    if cs == [] then 0 else (if cs[0].id == id then 1 else 0) + CountId(cs[1..], id)
  }

  /** How often a run has handed out a command. */
  function HandOuts(d: Device, es: seq<Event>, id: int): nat {
    if es == [] then 0
    else
      var before := es[..|es| - 1];
      HandOuts(d, before, id) + CountId(HandedBy(Run(d, before), es[|es| - 1]), id)
  }

  /** The last code the device itself reported for a command. */
  function LastReport(es: seq<Event>, id: int): Option<string> {
    if es == [] then None
    else
      var s := es[|es| - 1].step;
      if s.Report? && s.id == id && id != 0 then Some(s.code) else LastReport(es[..|es| - 1], id)
  }

  function SubmittedIds(es: seq<Event>): set<int> {
    if es == [] then {}
    else
      var s := es[|es| - 1].step;
      SubmittedIds(es[..|es| - 1]) + if s.Submit? then {s.id} else {}
  }

  /** Ids come from one counter: no id is submitted twice. */
  predicate FreshIds(es: seq<Event>) {
    es == [] ||
    (var s := es[|es| - 1].step;
     FreshIds(es[..|es| - 1]) && (s.Submit? ==> s.id !in SubmittedIds(es[..|es| - 1])))
  }

  // ---- ids ----

  function IdSet(s: seq<Command>): set<int> {
    if s == [] then {} else {s[0].id} + IdSet(s[1..])
  }

  predicate Distinct(s: seq<Command>) {
    s == [] || (s[0].id !in IdSet(s[1..]) && Distinct(s[1..]))
  }

  lemma {:induction false} IdSetAppend(a: seq<Command>, b: seq<Command>)
    ensures IdSet(a + b) == IdSet(a) + IdSet(b)
    ensures Distinct(a + b) <==> Distinct(a) && Distinct(b) && IdSet(a) !! IdSet(b)
  {
    if a == [] {
      assert a + b == b;
    } else {
      assert (a + b)[1..] == a[1..] + b;
      IdSetAppend(a[1..], b);
    }
  }

  lemma {:induction false} IdSetMembers(s: seq<Command>)
    ensures forall c :: c in s ==> c.id in IdSet(s)
    ensures forall id :: id in IdSet(s) ==> exists c :: c in s && c.id == id
  {
    if s != [] {
      IdSetMembers(s[1..]);
      assert s == [s[0]] + s[1..];
      forall id | id in IdSet(s) ensures exists c :: c in s && c.id == id {
        if id == s[0].id {
          assert s[0] in s;
        } else {
          var c :| c in s[1..] && c.id == id;
          assert c in s;
        }
      }
    }
  }

  lemma {:induction false} CountIsMembership(s: seq<Command>, id: int)
    requires Distinct(s)
    ensures CountId(s, id) == if id in IdSet(s) then 1 else 0
  {
    if s != [] { CountIsMembership(s[1..], id); }
  }

  // ---- sorting ----

  lemma {:induction false} InsertIds(c: Command, q: seq<Command>)
    ensures IdSet(Insert(c, q)) == {c.id} + IdSet(q)
    ensures Distinct(Insert(c, q)) <==> Distinct([c] + q)
  {
    assert ([c] + q)[1..] == q;
    if q != [] && !Before(c, q[0]) {
      InsertIds(c, q[1..]);
      assert ([c] + q[1..])[1..] == q[1..];
      assert Insert(c, q)[1..] == Insert(c, q[1..]);
    }
  }

  lemma {:induction false} InsertKeeps(c: Command, q: seq<Command>)
    ensures multiset(Insert(c, q)) == multiset{c} + multiset(q)
  {
    if q != [] && !Before(c, q[0]) {
      InsertKeeps(c, q[1..]);
      assert q == [q[0]] + q[1..];
    }
  }

  /** Sorting keeps every command, and the ids stay distinct. */
  lemma {:induction false} SortIds(q: seq<Command>)
    ensures IdSet(Sort(q)) == IdSet(q)
    ensures Distinct(Sort(q)) <==> Distinct(q)
    ensures multiset(Sort(q)) == multiset(q)
  {
    if q != [] {
      SortIds(q[1..]);
      InsertIds(q[0], Sort(q[1..]));
      InsertKeeps(q[0], Sort(q[1..]));
      assert ([q[0]] + Sort(q[1..]))[1..] == Sort(q[1..]);
      assert q == [q[0]] + q[1..];
    }
  }

  predicate Ordered(q: seq<Command>) {
    forall i, j :: 0 <= i < j < |q| ==> Before(q[i], q[j])
  }

  lemma {:induction false} InsertOrdered(c: Command, q: seq<Command>)
    requires Ordered(q)
    ensures Ordered(Insert(c, q))
  {
    if q == [] || Before(c, q[0]) {
    } else {
      InsertOrdered(c, q[1..]);
      InsertKeeps(c, q[1..]);
      var r := Insert(c, q[1..]);
      forall d | d in r ensures Before(q[0], d) {
        assert d in multiset(r);
        assert d == c || d in q[1..];
      }
      OrderedFrom(q[0], r);
    }
  }

  lemma OrderedFrom(c: Command, q: seq<Command>)
    requires Ordered(q) && forall d :: d in q ==> Before(c, d)
    ensures Ordered([c] + q)
  {
  }

  /** A poll looks at its queue highest priority first, and oldest first within a priority. */
  lemma {:induction false} SortOrdered(q: seq<Command>)
    ensures Ordered(Sort(q))
  {
    if q != [] {
      SortOrdered(q[1..]);
      InsertOrdered(q[0], Sort(q[1..]));
    }
  }

  /** An ordered queue is left alone. */
  lemma {:induction false} SortOfOrdered(q: seq<Command>)
    requires Ordered(q)
    ensures Sort(q) == q
  {
    if q != [] {
      SortOfOrdered(q[1..]);
      assert q == [q[0]] + q[1..];
    }
  }

  /** The commands tied with `c`, in list order. */
  function Tied(q: seq<Command>, c: Command): seq<Command> {
    if q == [] then []
    else if q[0].prio == c.prio && q[0].enq == c.enq then [q[0]] + Tied(q[1..], c)
    else Tied(q[1..], c)
  }

  lemma {:induction false} InsertStable(x: Command, q: seq<Command>, c: Command)
    ensures Tied(Insert(x, q), c) == Tied([x] + q, c)
  {
    assert ([x] + q)[1..] == q;
    if q == [] || Before(x, q[0]) {
    } else {
      InsertStable(x, q[1..], c);
      var r := Insert(x, q[1..]);
      assert ([q[0]] + r)[1..] == r;
      assert ([x] + q[1..])[1..] == q[1..];
    }
  }

  /** The sort is stable: tied commands leave in the order in which they stand. */
  lemma {:induction false} SortStable(q: seq<Command>, c: Command)
    ensures Tied(Sort(q), c) == Tied(q, c)
  {
    if q != [] {
      SortStable(q[1..], c);
      InsertStable(q[0], Sort(q[1..]), c);
      assert ([q[0]] + Sort(q[1..]))[1..] == Sort(q[1..]);
    }
  }

  // ---- reaping and handing out, in ids ----

  lemma {:induction false} ReapIds(fs: seq<Command>, now: Time)
    requires Distinct(fs)
    ensures Distinct(Kept(fs, now)) && Distinct(Retried(fs, now))
    ensures IdSet(Kept(fs, now)) <= IdSet(fs) && IdSet(Retried(fs, now)) <= IdSet(fs)
    ensures IdSet(Kept(fs, now)) !! IdSet(Retried(fs, now))
  {
    if fs != [] {
      ReapIds(fs[1..], now);
    }
  }

  lemma {:induction false} GivenUpIds(acked: map<int, string>, fs: seq<Command>, now: Time)
    ensures forall id :: id in acked ==> id in GivenUp(acked, fs, now) && GivenUp(acked, fs, now)[id] == acked[id]
    ensures forall id :: id in GivenUp(acked, fs, now) && id !in acked ==>
              GivenUp(acked, fs, now)[id] == TIMED_OUT && id in IdSet(fs)
    ensures acked.Keys <= GivenUp(acked, fs, now).Keys
    ensures IdSet(fs) <= IdSet(Kept(fs, now)) + IdSet(Retried(fs, now)) + GivenUp(acked, fs, now).Keys
    decreases fs
  {
    if fs != [] {
      var c := fs[0];
      var next := if !Waiting(c, now) && Exhausted(c, now) && c.id !in acked then acked[c.id := TIMED_OUT] else acked;
      GivenUpIds(next, fs[1..], now);
    }
  }

  lemma {:induction false} StampIds(cs: seq<Command>, now: Time)
    ensures |Stamp(cs, now)| == |cs|
    ensures forall i :: 0 <= i < |cs| ==> Stamp(cs, now)[i] == cs[i].(sent := Some(now))
    ensures IdSet(Stamp(cs, now)) == IdSet(cs) && (Distinct(Stamp(cs, now)) <==> Distinct(cs))
  {
    if cs != [] { StampIds(cs[1..], now); }
  }

  lemma {:induction false} PutFresh(fs: seq<Command>, c: Command)
    requires c.id !in IdSet(fs)
    ensures Put(fs, c) == fs + [c]
  {
    if fs != [] {
      PutFresh(fs[1..], c);
      assert fs == [fs[0]] + fs[1..];
    }
  }

  lemma OneMoreId(fs: seq<Command>, c: Command)
    ensures IdSet(fs + [c]) == IdSet(fs) + {c.id}
  {
    IdSetAppend(fs, [c]);
    assert [c][1..] == [];
  }

  lemma {:induction false} PutAllFresh(fs: seq<Command>, cs: seq<Command>)
    requires Distinct(cs) && IdSet(fs) !! IdSet(cs)
    ensures PutAll(fs, cs) == fs + cs
    decreases cs
  {
    if cs == [] {
      assert fs + cs == fs;
    } else {
      PutFresh(fs, cs[0]);
      OneMoreId(fs, cs[0]);
      PutAllFresh(fs + [cs[0]], cs[1..]);
      assert fs + [cs[0]] + cs[1..] == fs + cs;
    }
  }

  /** Queue and in-flight table hold each id at most once between them. */
  predicate Separate(d: Device) {
    Distinct(d.queue) && Distinct(d.inFlight) && IdSet(d.queue) !! IdSet(d.inFlight)
  }

  lemma ReapSeparate(d: Device, now: Time)
    requires Separate(d)
    ensures Separate(Reap(d, now))
    ensures IdSet(Reap(d, now).queue) == IdSet(d.queue) + IdSet(Retried(d.inFlight, now))
  {
    ReapIds(d.inFlight, now);
    IdSetAppend(d.queue, Retried(d.inFlight, now));
  }

  /** A poll takes the front of the sorted queue and appends it, stamped, to the in-flight table. */
  lemma PollShape(d: Device, batch: int, now: Time)
    requires Separate(d)
    ensures var r := Reap(d, now);
            var q := Sort(r.queue);
            var n := BatchSize(batch, q);
            Poll(d, batch, now) == r.(queue := q[n..], inFlight := r.inFlight + Stamp(q[..n], now)) &&
            Distinct(q[..n]) && Distinct(q[n..]) && IdSet(q[..n]) !! IdSet(q[n..]) &&
            IdSet(q[..n]) + IdSet(q[n..]) == IdSet(r.queue)
    ensures Separate(Poll(d, batch, now))
    ensures Distinct(Handed(d, batch, now))
  {
    var r := Reap(d, now);
    var q := Sort(r.queue);
    var n := BatchSize(batch, q);
    ReapSeparate(d, now);
    SortIds(r.queue);
    assert q == q[..n] + q[n..];
    IdSetAppend(q[..n], q[n..]);
    StampIds(q[..n], now);
    PutAllFresh(r.inFlight, Stamp(q[..n], now));
    IdSetAppend(r.inFlight, Stamp(q[..n], now));
  }

  lemma {:induction false} WithoutIds(fs: seq<Command>, id: int)
    requires Distinct(fs)
    ensures IdSet(Without(fs, id)) == IdSet(fs) - {id} && Distinct(Without(fs, id))
    ensures forall c :: c in Without(fs, id) ==> c in fs
  {
    if fs != [] && fs[0].id != id {
      WithoutIds(fs[1..], id);
      var rest := Without(fs[1..], id);
      assert ([fs[0]] + rest)[1..] == rest;
    }
  }

  lemma EnqueueSeparate(d: Device, id: int, line: string, priority: Option<int>, now: Time)
    requires Separate(d) && id !in IdSet(d.queue) && id !in IdSet(d.inFlight)
    ensures var d' := Enqueue(d, id, line, priority, now);
            Separate(d') && IdSet(d'.queue) == IdSet(d.queue) + {id}
  {
    var c := Command(id, line, now, 0, PriorityOf(line, priority), None);
    assert [c][1..] == [];
    assert IdSet([c]) == {id};
    IdSetAppend(d.queue, [c]);
  }

  // ---- accounting over every run ----

  ghost predicate QueueTallied(q: seq<Command>, es: seq<Event>) {
    forall c :: c in q ==> HandOuts(EMPTY_DEVICE, es, c.id) == c.tries <= MAX_TRIES
  }

  ghost predicate FlightTallied(fs: seq<Command>, es: seq<Event>) {
    forall c :: c in fs ==> HandOuts(EMPTY_DEVICE, es, c.id) == c.tries + 1 <= MAX_TRIES + 1 && c.sent.Some?
  }

  ghost predicate AckMapReported(acked: map<int, string>, es: seq<Event>) {
    && (forall id :: LastReport(es, id).Some? ==> id in acked)
    && (forall id :: id in acked ==> acked[id] == LastReport(es, id).GetOr(TIMED_OUT))
  }

  /** Each submitted id is queued, in flight or acknowledged, and only submitted ids are outstanding. */
  predicate NoneLost(d: Device, es: seq<Event>) {
    IdSet(d.queue) + IdSet(d.inFlight) <= SubmittedIds(es) <= IdSet(d.queue) + IdSet(d.inFlight) + d.acked.Keys
  }

  ghost predicate HandOutsBounded(es: seq<Event>) {
    && (forall id :: HandOuts(EMPTY_DEVICE, es, id) <= MAX_TRIES + 1)
    && (forall id :: id !in SubmittedIds(es) ==> HandOuts(EMPTY_DEVICE, es, id) == 0)
  }

  /** The books of the command queue after a run from the empty device. */
  ghost predicate Accounted(es: seq<Event>) {
    var d := Run(EMPTY_DEVICE, es);
    && Separate(d)
    && NoneLost(d, es)
    && QueueTallied(d.queue, es)
    && FlightTallied(d.inFlight, es)
    && AckMapReported(d.acked, es)
    && HandOutsBounded(es)
  }

  lemma {:induction false} ReapTallied(fs: seq<Command>, now: Time, es: seq<Event>)
    requires FlightTallied(fs, es)
    ensures QueueTallied(Retried(fs, now), es)
    ensures FlightTallied(Kept(fs, now), es)
  {
    if fs != [] {
      assert fs[0] in fs && forall c :: c in fs[1..] ==> c in fs;
      ReapTallied(fs[1..], now, es);
    }
  }

  lemma AccountedSubmit(es: seq<Event>, e: Event)
    requires e.step.Submit? && e.step.id !in SubmittedIds(es) && Accounted(es)
    ensures Accounted(es + [e])
  {
    var es' := es + [e];
    assert es'[..|es|] == es;
    var d := Run(EMPTY_DEVICE, es);
    EnqueueSeparate(d, e.step.id, e.step.line, e.step.priority, e.at);
    assert forall id :: HandOuts(EMPTY_DEVICE, es', id) == HandOuts(EMPTY_DEVICE, es, id);
    assert forall id :: LastReport(es', id) == LastReport(es, id);
  }

  lemma AccountedReport(es: seq<Event>, e: Event)
    requires e.step.Report? && Accounted(es)
    ensures Accounted(es + [e])
  {
    var es' := es + [e];
    assert es'[..|es|] == es;
    var d := Run(EMPTY_DEVICE, es);
    WithoutIds(d.inFlight, e.step.id);
    assert forall id :: HandOuts(EMPTY_DEVICE, es', id) == HandOuts(EMPTY_DEVICE, es, id);
    ReportedAcks(d.acked, es, e);
  }

  lemma ReportedAcks(acked: map<int, string>, es: seq<Event>, e: Event)
    requires e.step.Report? && AckMapReported(acked, es)
    ensures AckMapReported(if e.step.id == 0 then acked else acked[e.step.id := e.step.code], es + [e])
  {
    var es' := es + [e];
    assert es'[..|es|] == es;
    var reported := e.step.id;
    assert forall id :: LastReport(es', id) == if id == reported != 0 then Some(e.step.code) else LastReport(es, id);
  }

  /** What a poll hands out, counted: one more hand-out for each id at the front of the queue. */
  lemma ServeCounts(es: seq<Event>, e: Event, id: int)
    requires e.step.Serve? && Separate(Run(EMPTY_DEVICE, es))
    ensures var q := Sort(Reap(Run(EMPTY_DEVICE, es), e.at).queue);
            var front := q[..BatchSize(e.step.batch, q)];
            HandOuts(EMPTY_DEVICE, es + [e], id) ==
              HandOuts(EMPTY_DEVICE, es, id) + if id in IdSet(front) then 1 else 0
  {
    var d := Run(EMPTY_DEVICE, es);
    var q := Sort(Reap(d, e.at).queue);
    var front := q[..BatchSize(e.step.batch, q)];
    assert (es + [e])[..|es|] == es;
    PollShape(d, e.step.batch, e.at);
    StampIds(front, e.at);
    CountIsMembership(Stamp(front, e.at), id);
  }

  lemma TallyQueueAfter(es: seq<Event>, e: Event, q: seq<Command>, n: nat)
    requires e.step.Serve? && Separate(Run(EMPTY_DEVICE, es))
    requires q == Sort(Reap(Run(EMPTY_DEVICE, es), e.at).queue) && n == BatchSize(e.step.batch, q)
    requires QueueTallied(q, es)
    ensures QueueTallied(q[n..], es + [e])
  {
    PollShape(Run(EMPTY_DEVICE, es), e.step.batch, e.at);
    IdSetMembers(q[n..]);
    forall c | c in q[n..] ensures HandOuts(EMPTY_DEVICE, es + [e], c.id) == c.tries <= MAX_TRIES {
      ServeCounts(es, e, c.id);
      assert c in q;
    }
  }

  lemma TallyHanded(es: seq<Event>, e: Event, q: seq<Command>, n: nat)
    requires e.step.Serve? && Separate(Run(EMPTY_DEVICE, es))
    requires q == Sort(Reap(Run(EMPTY_DEVICE, es), e.at).queue) && n == BatchSize(e.step.batch, q)
    requires QueueTallied(q, es)
    ensures FlightTallied(Stamp(q[..n], e.at), es + [e])
  {
    IdSetMembers(q[..n]);
    StampIds(q[..n], e.at);
    forall c | c in Stamp(q[..n], e.at)
      ensures HandOuts(EMPTY_DEVICE, es + [e], c.id) == c.tries + 1 <= MAX_TRIES + 1 && c.sent.Some?
    {
      var i :| 0 <= i < n && c == Stamp(q[..n], e.at)[i];
      assert q[i] in q && q[i] in q[..n];
      ServeCounts(es, e, c.id);
    }
  }

  lemma TallyFlightAfter(es: seq<Event>, e: Event, fs: seq<Command>)
    requires e.step.Serve? && Separate(Run(EMPTY_DEVICE, es))
    requires FlightTallied(fs, es) && IdSet(fs) !! IdSet(Reap(Run(EMPTY_DEVICE, es), e.at).queue)
    ensures FlightTallied(fs, es + [e])
  {
    var q := Sort(Reap(Run(EMPTY_DEVICE, es), e.at).queue);
    FrontOfQueue(Run(EMPTY_DEVICE, es), e.step.batch, e.at, q);
    IdSetMembers(fs);
    forall c | c in fs ensures HandOuts(EMPTY_DEVICE, es + [e], c.id) == HandOuts(EMPTY_DEVICE, es, c.id) {
      ServeCounts(es, e, c.id);
      assert c.id !in IdSet(q[..BatchSize(e.step.batch, q)]);
    }
  }

  lemma FrontOfQueue(d: Device, batch: int, now: Time, q: seq<Command>)
    requires Separate(d) && q == Sort(Reap(d, now).queue)
    ensures IdSet(q[..BatchSize(batch, q)]) <= IdSet(Reap(d, now).queue)
  {
    PollShape(d, batch, now);
  }

  lemma BoundAfter(es: seq<Event>, e: Event)
    requires e.step.Serve? && Separate(Run(EMPTY_DEVICE, es)) && HandOutsBounded(es)
    requires QueueTallied(Reap(Run(EMPTY_DEVICE, es), e.at).queue, es)
    requires IdSet(Reap(Run(EMPTY_DEVICE, es), e.at).queue) <= SubmittedIds(es)
    ensures HandOutsBounded(es + [e])
  {
    var queue := Reap(Run(EMPTY_DEVICE, es), e.at).queue;
    assert (es + [e])[..|es|] == es;
    PollShape(Run(EMPTY_DEVICE, es), e.step.batch, e.at);
    IdSetMembers(queue);
    forall id
      ensures HandOuts(EMPTY_DEVICE, es + [e], id) <= MAX_TRIES + 1
      ensures id !in SubmittedIds(es + [e]) ==> HandOuts(EMPTY_DEVICE, es + [e], id) == 0
    {
      ServeCounts(es, e, id);
    }
  }

  lemma ServeKeeps(d: Device, batch: int, now: Time, es: seq<Event>, es': seq<Event>)
    requires Separate(d) && NoneLost(d, es) && AckMapReported(d.acked, es)
    requires SubmittedIds(es') == SubmittedIds(es)
    requires forall id :: LastReport(es', id) == LastReport(es, id)
    ensures Separate(Poll(d, batch, now)) && NoneLost(Poll(d, batch, now), es')
    ensures AckMapReported(Poll(d, batch, now).acked, es')
    ensures IdSet(Reap(d, now).queue) <= SubmittedIds(es)
  {
    var r := Reap(d, now);
    var q := Sort(r.queue);
    var n := BatchSize(batch, q);
    PollShape(d, batch, now);
    ReapSeparate(d, now);
    ReapIds(d.inFlight, now);
    GivenUpIds(d.acked, d.inFlight, now);
    StampIds(q[..n], now);
    IdSetAppend(r.inFlight, Stamp(q[..n], now));
  }

  lemma SortTallied(q: seq<Command>, es: seq<Event>)
    requires QueueTallied(q, es)
    ensures QueueTallied(Sort(q), es)
  {
    SortIds(q);
    forall c | c in Sort(q) ensures c in q { assert c in multiset(Sort(q)); }
  }

  lemma ServeTallies(d: Device, es: seq<Event>, e: Event)
    requires e.step.Serve? && d == Run(EMPTY_DEVICE, es) && Separate(d)
    requires QueueTallied(d.queue, es) && FlightTallied(d.inFlight, es)
    ensures QueueTallied(Reap(d, e.at).queue, es)
    ensures QueueTallied(Poll(d, e.step.batch, e.at).queue, es + [e])
    ensures FlightTallied(Poll(d, e.step.batch, e.at).inFlight, es + [e])
  {
    var r := Reap(d, e.at);
    var q := Sort(r.queue);
    var n := BatchSize(e.step.batch, q);
    ReapSeparate(d, e.at);
    ReapTallied(d.inFlight, e.at, es);
    SortTallied(r.queue, es);
    TallyQueueAfter(es, e, q, n);
    TallyHanded(es, e, q, n);
    TallyFlightAfter(es, e, r.inFlight);
    FlightsJoined(r.inFlight, Stamp(q[..n], e.at), es + [e]);
    PollShape(d, e.step.batch, e.at);
  }

  lemma FlightsJoined(a: seq<Command>, b: seq<Command>, es: seq<Event>)
    requires FlightTallied(a, es) && FlightTallied(b, es)
    ensures FlightTallied(a + b, es)
  {
  }

  lemma AccountedServe(es: seq<Event>, e: Event)
    requires e.step.Serve? && Accounted(es)
    ensures Accounted(es + [e])
  {
    var es' := es + [e];
    assert es'[..|es|] == es;
    var d := Run(EMPTY_DEVICE, es);
    ServeTallies(d, es, e);
    ServeKeeps(d, e.step.batch, e.at, es, es');
    BoundAfter(es, e);
  }

  /** Over every run from the empty device, with ids submitted once: no command is lost, queue and
      in-flight table stay apart, hand-outs are exactly the tries on the books and never exceed
      six, and the acknowledgement map holds the last device-reported code or else the time-out
      marker. */
  lemma {:induction false} EveryRunAccounted(es: seq<Event>)
    requires FreshIds(es)
    ensures Accounted(es)
  {
    if es == [] {
    } else {
      var before := es[..|es| - 1];
      var e := es[|es| - 1];
      EveryRunAccounted(before);
      assert before + [e] == es;
      match e.step
      case Submit(_, _, _) => AccountedSubmit(before, e);
      case Serve(_) => AccountedServe(before, e);
      case Report(_, _, _) => AccountedReport(before, e);
    }
  }

  /** From any state the acknowledgement map only grows, and only a report by the device changes a
      code: giving up never overwrites one. */
  lemma {:induction false} AcksOnlyGrow(d: Device, es: seq<Event>)
    ensures d.acked.Keys <= Run(d, es).acked.Keys
    ensures forall id :: id in d.acked ==> Run(d, es).acked[id] == LastReport(es, id).GetOr(d.acked[id])
  {
    if es != [] {
      var before := es[..|es| - 1];
      var e := es[|es| - 1];
      AcksOnlyGrow(d, before);
      var d' := Run(d, before);
      GivenUpIds(d'.acked, d'.inFlight, e.at);
    }
  }

  /** A reap at `now` finds the command overdue and out of tries or of time. */
  predicate GivesUpOn(fs: seq<Command>, id: int, now: Time) {
    exists i :: 0 <= i < |fs| && fs[i].id == id && !Waiting(fs[i], now) && Exhausted(fs[i], now)
  }

  lemma {:induction false} GivenUpExactly(acked: map<int, string>, fs: seq<Command>, now: Time, id: int)
    ensures id in GivenUp(acked, fs, now) <==> id in acked || GivesUpOn(fs, id, now)
    decreases fs
  {
    if fs != [] {
      var c := fs[0];
      var next := if !Waiting(c, now) && Exhausted(c, now) && c.id !in acked then acked[c.id := TIMED_OUT] else acked;
      GivenUpExactly(next, fs[1..], now, id);
      OneMoreGivenUp(fs, id, now);
    }
  }

  lemma OneMoreGivenUp(fs: seq<Command>, id: int, now: Time)
    requires fs != []
    ensures GivesUpOn(fs, id, now) <==>
            (fs[0].id == id && !Waiting(fs[0], now) && Exhausted(fs[0], now)) || GivesUpOn(fs[1..], id, now)
  {
    if GivesUpOn(fs[1..], id, now) {
      var i :| 0 <= i < |fs[1..]| && fs[1..][i].id == id && !Waiting(fs[1..][i], now) && Exhausted(fs[1..][i], now);
      assert fs[i + 1] == fs[1..][i];
    }
    if GivesUpOn(fs, id, now) {
      var i :| 0 <= i < |fs| && fs[i].id == id && !Waiting(fs[i], now) && Exhausted(fs[i], now);
      assert i > 0 ==> fs[1..][i - 1] == fs[i];
    }
  }

  /** Event `i` of a run is a poll that gives up on the command. */
  ghost predicate GivenUpAt(es: seq<Event>, i: nat, id: int)
    requires i < |es|
  {
    es[i].step.Serve? && GivesUpOn(Run(EMPTY_DEVICE, es[..i]).inFlight, id, es[i].at)
  }

  /** A command counts as acknowledged exactly when the device has reported it or some poll has given
      up on it, and the first outlives the second. */
  lemma {:induction false} AckedExactly(es: seq<Event>, id: int)
    ensures id in Run(EMPTY_DEVICE, es).acked <==>
            LastReport(es, id).Some? || exists i :: 0 <= i < |es| && GivenUpAt(es, i, id)
    ensures id in Run(EMPTY_DEVICE, es).acked ==> Run(EMPTY_DEVICE, es).acked[id] == LastReport(es, id).GetOr(TIMED_OUT)
  {
    if es != [] {
      var n := |es| - 1;
      var before := es[..n];
      var d := Run(EMPTY_DEVICE, before);
      AckedExactly(before, id);
      GivenUpIds(d.acked, d.inFlight, es[n].at);
      GivenUpExactly(d.acked, d.inFlight, es[n].at, id);
      OneMoreEvent(es, id);
    }
  }

  lemma OneMoreEvent(es: seq<Event>, id: int)
    requires es != []
    ensures var n := |es| - 1;
            (exists i :: 0 <= i < |es| && GivenUpAt(es, i, id)) <==>
            (exists i :: 0 <= i < n && GivenUpAt(es[..n], i, id)) || GivenUpAt(es, n, id)
  {
    var n := |es| - 1;
    assert forall i :: 0 <= i < n ==> es[..n][..i] == es[..i];
    if i :| 0 <= i < n && GivenUpAt(es[..n], i, id) {
      assert GivenUpAt(es, i, id);
    }
    if i :| 0 <= i < n && GivenUpAt(es, i, id) {
      assert GivenUpAt(es[..n], i, id);
    }
  }
}
