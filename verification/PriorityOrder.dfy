/** The link without loss when card writes may carry control priority, as a record whose text holds
    CONTROL DEVICE does: exactly when does the panel still end with the table that was meant? */
module PriorityOrder {
  import opened Basics
  import opened Wire
  import opened CommandQueue
  import Liveness
  import opened PanelLink
  import opened LossyLink

  // ---- last writes ----

  predicate Writes(c: Command, card: string, dataOnly: bool, k: PanelKind) {
    CardOf(k.effect(c.line)) == Some(card) && (dataOnly ==> c.prio == PRIO_DATA)
  }

  /** The last write to a card in a list of commands, or the last one at data priority. */
  function Last(s: seq<Command>, card: string, dataOnly: bool, k: PanelKind): Option<Effect> {
    if s == [] then None
    else
      var c := s[|s| - 1];
      if Writes(c, card, dataOnly, k) then Some(k.effect(c.line)) else Last(s[..|s| - 1], card, dataOnly, k)
  }

  lemma {:induction false} LastAppend(a: seq<Command>, b: seq<Command>, card: string, dataOnly: bool, k: PanelKind)
    ensures Last(a + b, card, dataOnly, k) ==
            if Last(b, card, dataOnly, k).Some? then Last(b, card, dataOnly, k) else Last(a, card, dataOnly, k)
  {
    if b == [] {
      assert a + b == a;
    } else {
      assert (a + b)[..|a + b| - 1] == a + b[..|b| - 1];
      LastAppend(a, b[..|b| - 1], card, dataOnly, k);
    }
  }

  lemma LastOne(c: Command, card: string, dataOnly: bool, k: PanelKind)
    ensures Last([c], card, dataOnly, k) == if Writes(c, card, dataOnly, k) then Some(k.effect(c.line)) else None
  {
    assert [c][..0] == [];
  }

  lemma {:induction false} LastStamped(s: seq<Command>, now: Time, card: string, dataOnly: bool, k: PanelKind)
    ensures Last(Stamp(s, now), card, dataOnly, k) == Last(s, card, dataOnly, k)
  {
    if s != [] {
      LastStamped(s[1..], now, card, dataOnly, k);
      assert s == [s[0]] + s[1..];
      LastAppend([s[0]], s[1..], card, dataOnly, k);
      LastAppend([s[0].(sent := Some(now))], Stamp(s[1..], now), card, dataOnly, k);
      LastOne(s[0], card, dataOnly, k);
      LastOne(s[0].(sent := Some(now)), card, dataOnly, k);
    }
  }

  lemma {:induction false} AllData(s: seq<Command>, card: string, k: PanelKind)
    requires forall c :: c in s ==> c.prio == PRIO_DATA
    ensures Last(s, card, true, k) == Last(s, card, false, k)
  {
    if s != [] {
      assert s[|s| - 1] in s && forall c :: c in s[..|s| - 1] ==> c in s;
      AllData(s[..|s| - 1], card, k);
    }
  }

  lemma {:induction false} NoData(s: seq<Command>, card: string, k: PanelKind)
    requires Last(s, card, false, k).None?
    ensures Last(s, card, true, k).None?
  {
    if s != [] { NoData(s[..|s| - 1], card, k); }
  }

  /** The last write decides. */
  lemma {:induction false} FoldByLast(users: set<string>, s: seq<Command>, card: string, k: PanelKind)
    ensures card in Fold(users, Ops(s, k)) <==>
            (if Last(s, card, false, k).Some? then Last(s, card, false, k).value.AddCard? else card in users)
  {
    if s != [] {
      var init, c := s[..|s| - 1], s[|s| - 1];
      FoldByLast(users, init, card, k);
      assert s == init + [c];
      OpsAppend(init, [c], k);
      OneOp(c, k);
      FoldOneMoreOp(users, Ops(init, k), c.line, card, k);
    }
  }

  // ---- the schedule: what has been handed out, then what waits, in the order of hand-out ----

  predicate TwoLevel(c: Command) {
    c.prio == PRIO_DATA || c.prio == PRIO_CONTROL
  }

  /** For one card, the schedule keeps the last data write, and ends either in the last write posted
      or in that data write. */
  predicate Settles(s: seq<Command>, posted: seq<Command>, card: string, k: PanelKind) {
    var data, last := Last(posted, card, true, k), Last(posted, card, false, k);
    && Last(s, card, true, k) == data
    && (Last(s, card, false, k) == last || (data.Some? && Last(s, card, false, k) == data))
  }

  /** A newcomer overtakes only commands of lower priority. */
  lemma ScheduleInsert(x: seq<Command>, c: Command, y: seq<Command>, posted: seq<Command>, card: string, k: PanelKind)
    requires TwoLevel(c) && forall d :: d in y ==> TwoLevel(d) && d.prio < c.prio
    requires Settles(x + y, posted, card, k)
    ensures Settles(x + [c] + y, posted + [c], card, k)
  {
    forall dataOnly: bool
      ensures Last(x + [c] + y, card, dataOnly, k) ==
              if Last(y, card, dataOnly, k).Some? then Last(y, card, dataOnly, k)
              else if Writes(c, card, dataOnly, k) then Some(k.effect(c.line)) else Last(x, card, dataOnly, k)
      ensures Last(x + y, card, dataOnly, k) ==
              if Last(y, card, dataOnly, k).Some? then Last(y, card, dataOnly, k) else Last(x, card, dataOnly, k)
      ensures Last(posted + [c], card, dataOnly, k) ==
              if Writes(c, card, dataOnly, k) then Some(k.effect(c.line)) else Last(posted, card, dataOnly, k)
    {
      LastAppend(x + [c], y, card, dataOnly, k);
      LastAppend(x, [c], card, dataOnly, k);
      LastAppend(x, y, card, dataOnly, k);
      LastAppend(posted, [c], card, dataOnly, k);
      LastOne(c, card, dataOnly, k);
    }
    AllData(y, card, k);
    NothingBelowData(c, y);
  }

  lemma NothingBelowData(c: Command, y: seq<Command>)
    requires forall d :: d in y ==> TwoLevel(d) && d.prio < c.prio
    ensures c.prio == PRIO_DATA ==> y == []
  {
    if y != [] { assert y[0] in y; }
  }

  lemma InsertAtHead(d: Command, c: Command, y: seq<Command>) returns (x': seq<Command>, y': seq<Command>)
    requires d.enq <= c.enq && forall e :: e in y ==> e.prio < c.prio
    ensures Insert(d, [c] + y) == x' + [c] + y' && Insert(d, y) == x' + y'
    ensures forall e :: e in y' ==> e.prio < c.prio
  {
    assert ([c] + y)[1..] == y;
    if Before(d, c) {
      x', y' := [d], y;
      if y != [] { assert y[0] in y; }
    } else {
      x', y' := [], Insert(d, y);
      InsertKeeps(d, y);
      forall e | e in y' ensures e.prio < c.prio {
        assert e in multiset(y');
        assert e == d || e in y;
      }
    }
  }

  lemma {:induction false} InsertInto(d: Command, x: seq<Command>, c: Command, y: seq<Command>)
    returns (x': seq<Command>, y': seq<Command>)
    requires d.enq <= c.enq && forall e :: e in y ==> e.prio < c.prio
    ensures Insert(d, x + [c] + y) == x' + [c] + y' && Insert(d, x + y) == x' + y'
    ensures forall e :: e in y' ==> e.prio < c.prio
    decreases x
  {
    if x == [] {
      assert [] + [c] + y == [c] + y && [] + y == y;
      x', y' := InsertAtHead(d, c, y);
    } else {
      var s, t := x + [c] + y, x + y;
      assert s[0] == x[0] == t[0] && s[1..] == x[1..] + [c] + y && t[1..] == x[1..] + y;
      if Before(d, x[0]) {
        x', y' := [d] + x, y;
      } else {
        var head, tail := InsertInto(d, x[1..], c, y);
        x', y' := [x[0]] + head, tail;
      }
    }
  }

  /** Sorting with one more, youngest, command. */
  lemma {:induction false} SortNewest(q: seq<Command>, c: Command) returns (x: seq<Command>, y: seq<Command>)
    requires forall d :: d in q ==> d.enq <= c.enq
    ensures Sort(q + [c]) == x + [c] + y && Sort(q) == x + y
    ensures forall e :: e in y ==> e.prio < c.prio
  {
    if q == [] {
      assert [] + [c] == [c] && [c][1..] == [];
      x, y := [], [];
    } else {
      assert q[0] in q && forall d :: d in q[1..] ==> d in q;
      assert (q + [c])[1..] == q[1..] + [c];
      x, y := SortNewest(q[1..], c);
      x, y := InsertInto(q[0], x, c, y);
    }
  }

  function Schedule(w: World): seq<Command> {
    w.panel.log + w.down + Sort(w.dev.queue)
  }

  ghost predicate Follows(w: World, posted: seq<Command>, k: PanelKind) {
    forall card :: Settles(Schedule(w), posted, card, k)
  }

  predicate QueueFine(q: seq<Command>, now: Time, k: PanelKind) {
    forall c :: c in q ==> Answered(c.id, c.line, k) && TwoLevel(c) && c.enq <= now
  }

  lemma FollowsPost(w: World, posted: seq<Command>, c: Command, now: Time, k: PanelKind, w': World)
    requires Follows(w, posted, k) && QueueFine(w.dev.queue, now, k) && now <= c.enq && TwoLevel(c)
    requires w'.panel == w.panel && w'.down == w.down && w'.dev.queue == w.dev.queue + [c]
    ensures Follows(w', posted + [c], k)
  {
    var x, y := SortNewest(w.dev.queue, c);
    var sent := w.panel.log + w.down;
    Liveness.SortMembers(w.dev.queue);
    forall card ensures Settles(Schedule(w'), posted + [c], card, k) {
      assert Settles(Schedule(w), posted, card, k);
      Regrouped(sent, x, c, y);
      ScheduleInsert(sent + x, c, y, posted, card, k);
    }
  }

  lemma Regrouped(sent: seq<Command>, x: seq<Command>, c: Command, y: seq<Command>)
    ensures sent + (x + y) == sent + x + y && sent + (x + [c] + y) == sent + x + [c] + y
  {
  }

  /** What waits, once its front has been handed out, still waits in order. */
  lemma BackInOrder(q: seq<Command>, n: nat)
    requires n <= |Sort(q)|
    ensures Sort(Sort(q)[n..]) == Sort(q)[n..]
  {
    SortOrdered(q);
    SortOfOrdered(Sort(q)[n..]);
  }

  /** A move that is no post leaves the last writes of the schedule alone. */
  ghost predicate SameLast(w: World, w': World, k: PanelKind) {
    forall card, dataOnly :: Last(Schedule(w'), card, dataOnly, k) == Last(Schedule(w), card, dataOnly, k)
  }

  lemma AskKeeps(w: World, batch: int, now: Time, k: PanelKind, w': World)
    requires Separate(w.dev) && (forall c :: c in w.dev.inFlight ==> Waiting(c, now)) && w' == AskOf(w, batch, now)
    ensures SameLast(w, w', k)
  {
    var q := Sort(w.dev.queue);
    var n := BatchSize(batch, q);
    TimelyPoll(w.dev, batch, now);
    BackInOrder(w.dev.queue, n);
    AskedSchedule(w.panel.log, w.down, q, n, now, k, Schedule(w'));
  }

  lemma AskedSchedule(log: seq<Command>, down: seq<Command>, q: seq<Command>, n: nat, now: Time, k: PanelKind,
                      s: seq<Command>)
    requires n <= |q| && s == log + (down + Stamp(q[..n], now)) + q[n..]
    ensures forall card, dataOnly :: Last(s, card, dataOnly, k) == Last(log + down + q, card, dataOnly, k)
  {
    forall card, dataOnly ensures Last(s, card, dataOnly, k) == Last(log + down + q, card, dataOnly, k) {
      HandedOver(log, down, q[..n], q[n..], now, card, dataOnly, k);
      assert q[..n] + q[n..] == q;
    }
  }

  lemma HandedOver(log: seq<Command>, down: seq<Command>, front: seq<Command>, back: seq<Command>, now: Time,
                   card: string, dataOnly: bool, k: PanelKind)
    ensures Last(log + (down + Stamp(front, now)) + back, card, dataOnly, k) ==
            Last(log + down + (front + back), card, dataOnly, k)
  {
    LastStamped(front, now, card, dataOnly, k);
    LastAppend(log + (down + Stamp(front, now)), back, card, dataOnly, k);
    LastAppend(log, down + Stamp(front, now), card, dataOnly, k);
    LastAppend(down, Stamp(front, now), card, dataOnly, k);
    LastAppend(log + down, front + back, card, dataOnly, k);
    LastAppend(log, down, card, dataOnly, k);
    LastAppend(front, back, card, dataOnly, k);
  }

  lemma ExecuteKeeps(w: World, k: PanelKind, w': World)
    requires LinkSound(w, k) && w' == ExecuteAt(w, 0, k)
    ensures Schedule(w') == Schedule(w) && LinkSound(w', k)
  {
    if w.down != [] {
      LinkAfterExecute(w, w.down[0], k, w');
      Associate(w.panel.log, [w.down[0]], w'.down);
    }
  }

  lemma DeliverKeeps(w: World, k: PanelKind, w': World)
    requires LinkSound(w, k) && w' == DeliverAt(w, 0, k)
    ensures Schedule(w') == Schedule(w) && LinkSound(w', k) && IdSet(w'.dev.inFlight) <= IdSet(w.dev.inFlight)
  {
    if w.up != [] { LinkAfterDeliver(w, w.up[0], k, w'); }
  }

  // ---- runs without loss, at whatever priority the lines have ----

  /** Nothing is lost, both directions keep order, every poll finds every in-flight command still
      within ACK_TIMEOUT, and priorities are left to the lines. */
  predicate LossFree(w: World, ms: seq<Move>, k: PanelKind) {
    ms == [] ||
    (var before := ms[..|ms| - 1];
     LossFree(w, before, k) && KeepsOrder(Play(w, before, k), ms[|ms| - 1]))
  }

  predicate KeepsOrder(w: World, m: Move) {
    match m.act
    case Post(_, _, priority) => priority == None
    case Ask(_) => forall c :: c in w.dev.inFlight ==> Waiting(c, m.at)
    case Execute(i) => i == 0
    case Deliver(i) => i == 0
    case DropLine(_) => false
    case DropAck(_) => false
  }

  /** A posted line as a command, up to its time. */
  function AsCommand(p: (int, string)): Command {
    Command(p.0, p.1, 0.0, 0, PriorityOf(p.1, None), None)
  }

  function AsCommands(posts: seq<(int, string)>): seq<Command> {
    if posts == [] then [] else AsCommands(posts[..|posts| - 1]) + [AsCommand(posts[|posts| - 1])]
  }

  ghost predicate Fine(w: World, users: set<string>, posted: seq<Command>, now: Time, k: PanelKind) {
    && LinkSound(w, k) && QueueFine(w.dev.queue, now, k) && Follows(w, posted, k)
    && w.panel.users == Fold(users, Ops(w.panel.log, k))
  }

  lemma FinePost(w: World, users: set<string>, posted: seq<Command>, now: Time, k: PanelKind, p: (int, string),
                 at: Time, w': World)
    requires Fine(w, users, posted, now, k) && now <= at && Answered(p.0, p.1, k)
    requires MirrorEffect(p.1) == k.effect(p.1) && p.0 !in IdSet(w.dev.queue) + IdSet(w.dev.inFlight)
    requires w' == PostTo(w, p.0, p.1, None, at)
    ensures Fine(w', users, posted + [AsCommand(p)], at, k)
  {
    var c := AsCommand(p).(enq := at);
    FollowsPost(w, posted, c, now, k, w');
    LinkAfterPost(w, k, c, w');
    forall card ensures Settles(Schedule(w'), posted + [AsCommand(p)], card, k) {
      assert Settles(Schedule(w'), posted + [c], card, k);
      SameButTime(posted, c, AsCommand(p), card, true, k);
      SameButTime(posted, c, AsCommand(p), card, false, k);
    }
  }

  lemma SameButTime(posted: seq<Command>, c: Command, d: Command, card: string, dataOnly: bool, k: PanelKind)
    requires d.line == c.line && d.prio == c.prio
    ensures Last(posted + [c], card, dataOnly, k) == Last(posted + [d], card, dataOnly, k)
  {
    LastAppend(posted, [c], card, dataOnly, k);
    LastAppend(posted, [d], card, dataOnly, k);
    LastOne(c, card, dataOnly, k);
    LastOne(d, card, dataOnly, k);
  }

  lemma FineAsk(w: World, users: set<string>, posted: seq<Command>, now: Time, k: PanelKind, batch: int, at: Time,
                w': World)
    requires Fine(w, users, posted, now, k) && (forall c :: c in w.dev.inFlight ==> Waiting(c, at))
    requires w' == AskOf(w, batch, at)
    ensures Fine(w', users, posted, now, k) && SameLast(w, w', k)
    ensures IdSet(w'.dev.queue) + IdSet(w'.dev.inFlight) == IdSet(w.dev.queue) + IdSet(w.dev.inFlight)
  {
    var q := Sort(w.dev.queue);
    TimelyPoll(w.dev, batch, at);
    Liveness.SortMembers(w.dev.queue);
    AskKeeps(w, batch, at, k, w');
    FineQueue(w, now, k, q, BatchSize(batch, q), at, w');
    forall card ensures Settles(Schedule(w'), posted, card, k) {
      assert Settles(Schedule(w), posted, card, k);
    }
  }

  lemma FineQueue(w: World, now: Time, k: PanelKind, q: seq<Command>, n: nat, at: Time, w': World)
    requires LinkSound(w, k) && QueueFine(w.dev.queue, now, k) && n <= |q| && forall c :: c in q ==> c in w.dev.queue
    requires w' == w.(dev := Device(q[n..], w.dev.inFlight + Stamp(q[..n], at), w.dev.acked, w.dev.users),
                      down := w.down + Stamp(q[..n], at))
    requires Separate(w'.dev)
    ensures LinkSound(w', k) && QueueFine(w'.dev.queue, now, k)
  {
    StampIds(q[..n], at);
    Associate(w.up, w.down, Stamp(q[..n], at));
    forall c | c in Stamp(q[..n], at) ensures Answered(c.id, c.line, k) {
      var i :| 0 <= i < n && c == Stamp(q[..n], at)[i];
      assert q[i] in q;
    }
  }

  lemma FineExecute(w: World, users: set<string>, posted: seq<Command>, now: Time, k: PanelKind, w': World)
    requires Fine(w, users, posted, now, k) && w' == ExecuteAt(w, 0, k)
    ensures Fine(w', users, posted, now, k) && SameLast(w, w', k)
  {
    ExecuteKeeps(w, k, w');
    if w.down != [] {
      LinkAfterExecute(w, w.down[0], k, w');
      OpsAfterExecute(w.panel.log, w.down[0], w'.down, users, k);
    }
  }

  /** One move of a run without loss. */
  lemma FineStep(w: World, users: set<string>, posted: seq<Command>, ids: set<int>, now: Time, m: Move, k: PanelKind,
                 w': World)
    requires Fine(w, users, posted, now, k) && now <= m.at && IdSet(w.dev.queue) + IdSet(w.dev.inFlight) <= ids
    requires KeepsOrder(w, m) && w' == Next(w, m, k)
    requires m.act.Post? ==> m.act.id !in ids && Understood(m.act.id, m.act.line, k)
    ensures Fine(w', users, posted + (if m.act.Post? then [AsCommand((m.act.id, m.act.line))] else []), m.at, k)
    ensures IdSet(w'.dev.queue) + IdSet(w'.dev.inFlight) <= ids + (if m.act.Post? then {m.act.id} else {})
    ensures !m.act.Post? ==> SameLast(w, w', k)
  {
    assert posted + [] == posted;
    match m.act
    case Post(id, line, _) =>
      FinePost(w, users, posted, now, k, (id, line), m.at, w');
      EnqueueSeparate(w.dev, id, line, None, m.at);
    case Ask(batch) => FineAsk(w, users, posted, now, k, batch, m.at, w');
    case Execute(_) => FineExecute(w, users, posted, now, k, w');
    case Deliver(_) => DeliverKeeps(w, k, w');
  }

  /** What holds after the moves `ms`. */
  ghost predicate FineAfter(users: set<string>, ms: seq<Move>, now: Time, k: PanelKind) {
    var w := Play(Start(users), ms, k);
    && Fine(w, users, AsCommands(PostedAs(ms)), now, k)
    && IdSet(w.dev.queue) + IdSet(w.dev.inFlight) <= PostedLines(ms).Keys
  }

  lemma FineMore(users: set<string>, before: seq<Move>, m: Move, ms: seq<Move>, now: Time, k: PanelKind)
    requires FineAfter(users, before, now, k) && now <= m.at && ms == before + [m]
    requires KeepsOrder(Play(Start(users), before, k), m)
    requires m.act.Post? ==> m.act.id !in PostedLines(before) && Understood(m.act.id, m.act.line, k)
    ensures FineAfter(users, ms, m.at, k)
    ensures !m.act.Post? ==> SameLast(Play(Start(users), before, k), Play(Start(users), ms, k), k)
  {
    assert ms[..|before|] == before;
    FineStep(Play(Start(users), before, k), users, AsCommands(PostedAs(before)), PostedLines(before).Keys, now, m, k,
             Play(Start(users), ms, k));
    OneMorePosted(before, m, ms);
  }

  lemma LastMove(users: set<string>, ms: seq<Move>, now: Time, k: PanelKind)
    requires Proper(ms, k) && LossFree(Start(users), ms, k) && ms != [] && ms[|ms| - 1].at <= now
    ensures var before := ms[..|ms| - 1];
            var m := ms[|ms| - 1];
            && ms == before + [m] && Proper(before, k) && LossFree(Start(users), before, k)
            && (before != [] ==> before[|before| - 1].at <= m.at)
            && KeepsOrder(Play(Start(users), before, k), m)
            && (m.act.Post? ==> m.act.id !in PostedLines(before) && Understood(m.act.id, m.act.line, k))
  {
  }

  lemma FineLater(users: set<string>, ms: seq<Move>, now: Time, later: Time, k: PanelKind)
    requires FineAfter(users, ms, now, k) && now <= later
    ensures FineAfter(users, ms, later, k)
  {
  }

  lemma {:induction false} AlwaysFine(users: set<string>, ms: seq<Move>, now: Time, k: PanelKind)
    requires Proper(ms, k) && LossFree(Start(users), ms, k) && (ms != [] ==> ms[|ms| - 1].at <= now)
    ensures FineAfter(users, ms, now, k)
  {
    if ms == [] {
      FineStart(users, now, k);
    } else {
      var before := ms[..|ms| - 1];
      var m := ms[|ms| - 1];
      LastMove(users, ms, now, k);
      AlwaysFine(users, before, m.at, k);
      FineMore(users, before, m, ms, m.at, k);
      FineLater(users, ms, m.at, now, k);
    }
  }

  lemma FineStart(users: set<string>, now: Time, k: PanelKind)
    ensures Fine(Start(users), users, [], now, k)
  {
  }

  lemma OneMorePosted(before: seq<Move>, m: Move, ms: seq<Move>)
    requires ms == before + [m]
    ensures AsCommands(PostedAs(ms)) ==
            AsCommands(PostedAs(before)) + (if m.act.Post? then [AsCommand((m.act.id, m.act.line))] else [])
  {
    assert ms[..|before|] == before;
    if m.act.Post? {
      assert PostedAs(ms)[..|PostedAs(before)|] == PostedAs(before);
    } else {
      assert PostedAs(ms) == PostedAs(before);
    }
  }

  // ---- the condition ----

  /** For every card, the last write at data priority, if any, has the effect of the last write. */
  ghost predicate DataIsLast(posts: seq<(int, string)>, k: PanelKind) {
    forall card :: DataAgrees(AsCommands(posts), card, k)
  }

  predicate DataAgrees(s: seq<Command>, card: string, k: PanelKind) {
    Last(s, card, true, k).None? || Last(s, card, true, k) == Last(s, card, false, k)
  }

  predicate Quiet(w: World) {
    w.dev.queue == [] && w.dev.inFlight == []
  }

  /** Whatever polls, executions and acknowledgements come in between, the panel ends with the table
      that was meant. */
  ghost predicate AlwaysEndsRight(posts: seq<(int, string)>, users: set<string>, k: PanelKind) {
    forall ms :: Proper(ms, k) && PostedAs(ms) == posts && LossFree(Start(users), ms, k) &&
                 Quiet(Play(Start(users), ms, k))
      ==> Play(Start(users), ms, k).panel.users == Fold(users, CardOps(posts, k))
  }

  lemma {:induction false} CommandOps(posts: seq<(int, string)>, k: PanelKind)
    ensures Ops(AsCommands(posts), k) == CardOps(posts, k)
  {
    if posts != [] {
      var n := |posts| - 1;
      CommandOps(posts[..n], k);
      OpsAppend(AsCommands(posts[..n]), [AsCommand(posts[n])], k);
      OneOp(AsCommand(posts[n]), k);
    }
  }

  lemma RestingSchedule(w: World, k: PanelKind)
    requires LinkSound(w, k) && Quiet(w)
    ensures Schedule(w) == w.panel.log
  {
    assert w.up == [] && w.down == [];
    assert w.panel.log + [] + [] == w.panel.log;
  }

  /** At rest, the last write executed on a card is the last posted, or the last at data priority. */
  lemma RestSettles(w: World, users: set<string>, posted: seq<Command>, now: Time, k: PanelKind, card: string)
    requires Fine(w, users, posted, now, k) && Quiet(w)
    ensures Settles(w.panel.log, posted, card, k)
  {
    RestingSchedule(w, k);
    assert Settles(Schedule(w), posted, card, k);
  }

  lemma RightWhenDataLast(users: set<string>, posts: seq<(int, string)>, w: World, now: Time, k: PanelKind)
    requires Fine(w, users, AsCommands(posts), now, k) && Quiet(w) && DataIsLast(posts, k)
    ensures w.panel.users == Fold(users, CardOps(posts, k))
  {
    var posted := AsCommands(posts);
    CommandOps(posts, k);
    forall card ensures card in w.panel.users <==> card in Fold(users, Ops(posted, k)) {
      RestSettles(w, users, posted, now, k, card);
      assert DataAgrees(posted, card, k);
      FoldByLast(users, w.panel.log, card, k);
      FoldByLast(users, posted, card, k);
    }
  }

  // ---- the condition is exact: everything queued at once, then drained ----

  function PostAll(posts: seq<(int, string)>): seq<Move> {
    if posts == [] then [] else PostAll(posts[..|posts| - 1]) + [Posting(posts[|posts| - 1])]
  }

  function Drain(posts: seq<(int, string)>, n: nat): seq<Move> {
    if n == 0 then PostAll(posts) else Drain(posts, n - 1) + At(Round(false), 0.0)
  }

  lemma PlayOneMore(w: World, ms: seq<Move>, m: Move, k: PanelKind)
    ensures Play(w, ms + [m], k) == Next(Play(w, ms, k), m, k)
    ensures LossFree(w, ms + [m], k) <==> LossFree(w, ms, k) && KeepsOrder(Play(w, ms, k), m)
  {
    assert (ms + [m])[..|ms|] == ms;
  }

  lemma QueuedLast(w: World, p: (int, string), k: PanelKind)
    ensures var w' := Next(w, Posting(p), k);
            && w'.dev.queue == w.dev.queue + [AsCommand(p)] && w'.dev.inFlight == w.dev.inFlight
            && w'.down == w.down && w'.up == w.up && w'.panel == w.panel
  {
  }

  lemma {:induction false} AllPosted(posts: seq<(int, string)>, users: set<string>, k: PanelKind)
    requires FreshPosts(posts)
    ensures var w := Play(Start(users), PostAll(posts), k);
            && w.dev.queue == AsCommands(posts) && w.dev.inFlight == [] && w.down == [] && w.up == []
            && w.panel == Panel(users, [])
    ensures LossFree(Start(users), PostAll(posts), k)
    ensures EndsBy(PostAll(posts), 0.0) && PostedAs(PostAll(posts)) == posts
  {
    if posts != [] {
      var n := |posts| - 1;
      var before := PostAll(posts[..n]);
      AllPosted(posts[..n], users, k);
      PlayOneMore(Start(users), before, Posting(posts[n]), k);
      QueuedLast(Play(Start(users), before, k), posts[n], k);
      PostedAreOps(before, k);
      AppendPost(before, posts[n], before + [Posting(posts[n])]);
    }
  }

  lemma RoundOrder(w: World, ms: seq<Move>, k: PanelKind)
    requires LossFree(w, ms, k) && Play(w, ms, k).dev.inFlight == []
    ensures LossFree(w, ms + At(Round(false), 0.0), k)
  {
    var a, b, c := Move(0.0, Ask(1)), Move(0.0, Execute(0)), Move(0.0, Deliver(0));
    PlayOneMore(w, ms, a, k);
    PlayOneMore(w, ms + [a], b, k);
    PlayOneMore(w, ms + [a] + [b], c, k);
    assert ms + At(Round(false), 0.0) == ms + [a] + [b] + [c];
  }

  /** Nothing under way, `n` commands waiting. */
  predicate Waits(w: World, n: nat) {
    |w.dev.queue| == n && w.dev.inFlight == [] && w.down == [] && w.up == []
  }

  lemma OneHanded(d: Device, q: seq<Command>, k: PanelKind)
    requires Separate(d) && d.inFlight == [] && d.queue != [] && q == Sort(d.queue)
    ensures q != [] && |q| == |d.queue|
    ensures Handed(d, 1, 0.0) == [q[0].(sent := Some(0.0))]
    ensures Poll(d, 1, 0.0) == Device(q[1..], [q[0].(sent := Some(0.0))], d.acked, d.users)
  {
    SortIds(d.queue);
    assert |multiset(q)| == |multiset(d.queue)|;
    TimelyPoll(d, 1, 0.0);
    OneStamped(q);
    assert [] + Stamp(q[..1], 0.0) == Stamp(q[..1], 0.0);
  }

  lemma OneStamped(q: seq<Command>)
    requires q != []
    ensures Stamp(q[..1], 0.0) == [q[0].(sent := Some(0.0))]
  {
    assert q[..1] == [q[0]] && q[..1][1..] == [];
  }

  /** A round hands out one command, executes and settles it. */
  lemma RoundDrains(w: World, users: set<string>, posted: seq<Command>, k: PanelKind, n: nat)
    requires Fine(w, users, posted, 0.0, k) && Waits(w, n) && n > 0
    ensures Waits(RoundOf(w, false, 0.0, k), n - 1) && SameLast(w, RoundOf(w, false, 0.0, k), k)
  {
    var q := Sort(w.dev.queue);
    var asked := AskOf(w, 1, 0.0);
    var executed := ExecuteAt(asked, 0, k);
    var c := q[0].(sent := Some(0.0));
    OneHanded(w.dev, q, k);
    Liveness.SortMembers(w.dev.queue);
    assert q[0] in q && Answered(c.id, c.line, k);
    assert w.down + [c] == [c] && [] + [c] == [c];
    Completed(asked, c, [], k);
    FineAsk(w, users, posted, 0.0, k, 1, 0.0, asked);
    FineExecute(asked, users, posted, 0.0, k, executed);
    DeliverKeeps(executed, k, DeliverAt(executed, 0, k));
  }

  lemma DrainMore(posts: seq<(int, string)>, n: nat, users: set<string>, k: PanelKind)
    ensures Play(Start(users), Drain(posts, n + 1), k) == RoundOf(Play(Start(users), Drain(posts, n), k), false, 0.0, k)
  {
    PlayAppend(Start(users), Drain(posts, n), At(Round(false), 0.0), k);
    PlayRound(Play(Start(users), Drain(posts, n), k), false, 0.0, k);
  }

  lemma {:induction false} DrainOrderly(posts: seq<(int, string)>, n: nat, users: set<string>, k: PanelKind)
    requires FreshPosts(posts)
    ensures EndsBy(Drain(posts, n), 0.0) && PostedAs(Drain(posts, n)) == posts
  {
    if n == 0 {
      AllPosted(posts, users, k);
    } else {
      DrainOrderly(posts, n - 1, users, k);
      RoundQuiet(false);
      AppendQuiet(Drain(posts, n - 1), Round(false), 0.0, Drain(posts, n));
    }
  }

  /** After `n` rounds: still without loss, and the schedule ends as the sorted queue did. */
  ghost predicate Drained(posts: seq<(int, string)>, n: nat, users: set<string>, k: PanelKind)
    requires n <= |posts|
  {
    var w := Play(Start(users), Drain(posts, n), k);
    && LossFree(Start(users), Drain(posts, n), k) && Waits(w, |posts| - n)
    && forall card, dataOnly ::
         Last(Schedule(w), card, dataOnly, k) == Last(Sort(AsCommands(posts)), card, dataOnly, k)
  }

  lemma {:induction false} CommandCount(posts: seq<(int, string)>)
    ensures |AsCommands(posts)| == |posts|
  {
    if posts != [] { CommandCount(posts[..|posts| - 1]); }
  }

  lemma DrainStarts(posts: seq<(int, string)>, users: set<string>, k: PanelKind)
    requires FreshPosts(posts)
    ensures Drained(posts, 0, users, k)
  {
    AllPosted(posts, users, k);
    CommandCount(posts);
    var q := Sort(AsCommands(posts));
    assert [] + [] + q == q;
  }

  lemma DrainStep(posts: seq<(int, string)>, n: nat, users: set<string>, k: PanelKind)
    requires n < |posts| && FreshPosts(posts) && UnderstoodPosts(posts, k) && Drained(posts, n, users, k)
    ensures Drained(posts, n + 1, users, k)
  {
    var ms := Drain(posts, n);
    var w := Play(Start(users), ms, k);
    DrainOrderly(posts, n, users, k);
    OrderlyIsProper(ms, k);
    AlwaysFine(users, ms, 0.0, k);
    RoundDrains(w, users, AsCommands(posts), k, |posts| - n);
    DrainMore(posts, n, users, k);
    RoundOrder(Start(users), ms, k);
  }

  lemma {:induction false} DrainsAll(posts: seq<(int, string)>, n: nat, users: set<string>, k: PanelKind)
    requires n <= |posts| && FreshPosts(posts) && UnderstoodPosts(posts, k)
    ensures Drained(posts, n, users, k)
  {
    if n == 0 {
      DrainStarts(posts, users, k);
    } else {
      DrainsAll(posts, n - 1, users, k);
      DrainStep(posts, n - 1, users, k);
    }
  }

  /** In an ordered queue writes at data priority stand behind all others. */
  lemma {:induction false} OrderedEndsInData(q: seq<Command>, card: string, k: PanelKind)
    requires Ordered(q) && (forall c :: c in q ==> TwoLevel(c)) && Last(q, card, true, k).Some?
    ensures Last(q, card, false, k) == Last(q, card, true, k)
  {
    var n := |q| - 1;
    assert q[n] in q && forall c :: c in q[..n] ==> c in q;
    if !Writes(q[n], card, false, k) {
      OrderedEndsInData(q[..n], card, k);
    } else if q[n].prio != PRIO_DATA {
      AboveData(q[..n], card, k);
    }
  }

  lemma {:induction false} AboveData(q: seq<Command>, card: string, k: PanelKind)
    requires forall i :: 0 <= i < |q| ==> q[i].prio != PRIO_DATA
    ensures Last(q, card, true, k).None?
  {
    if q != [] { AboveData(q[..|q| - 1], card, k); }
  }

  lemma {:induction false} LastConcerns(s: seq<Command>, card: string, dataOnly: bool, k: PanelKind)
    ensures var last := Last(s, card, dataOnly, k);
            last.Some? ==> CardOf(last.value) == Some(card)
    ensures dataOnly && Last(s, card, dataOnly, k).Some? ==> Last(s, card, false, k).Some?
  {
    if s != [] { LastConcerns(s[..|s| - 1], card, dataOnly, k); }
  }

  lemma {:induction false} CommandsTwoLevel(posts: seq<(int, string)>)
    ensures forall c :: c in AsCommands(posts) ==> TwoLevel(c)
  {
    if posts != [] { CommandsTwoLevel(posts[..|posts| - 1]); }
  }

  lemma SortedEndsInData(posts: seq<(int, string)>, card: string, k: PanelKind)
    requires Last(Sort(AsCommands(posts)), card, true, k).Some?
    ensures var q := Sort(AsCommands(posts));
            Last(q, card, false, k) == Last(q, card, true, k)
  {
    CommandsTwoLevel(posts);
    Liveness.SortMembers(AsCommands(posts));
    SortOrdered(AsCommands(posts));
    OrderedEndsInData(Sort(AsCommands(posts)), card, k);
  }

  /** With a card whose last write overtakes a different data write, the drained queue ends wrong. */
  lemma OvertakingBreaks(posts: seq<(int, string)>, users: set<string>, k: PanelKind, card: string)
    returns (ms: seq<Move>)
    requires FreshPosts(posts) && UnderstoodPosts(posts, k) && !DataAgrees(AsCommands(posts), card, k)
    ensures Proper(ms, k) && PostedAs(ms) == posts && LossFree(Start(users), ms, k)
    ensures var w := Play(Start(users), ms, k);
            Quiet(w) && w.panel.users != Fold(users, CardOps(posts, k))
  {
    ms := Drain(posts, |posts|);
    var w := Play(Start(users), ms, k);
    var posted := AsCommands(posts);
    DrainsAll(posts, |posts|, users, k);
    DrainOrderly(posts, |posts|, users, k);
    OrderlyIsProper(ms, k);
    AlwaysFine(users, ms, 0.0, k);
    RestSettles(w, users, posted, 0.0, k, card);
    RestingSchedule(w, k);
    SortedEndsInData(posts, card, k);
    EndsDifferently(users, w.panel.log, posted, card, k);
    CommandOps(posts, k);
  }

  lemma EndsDifferently(users: set<string>, log: seq<Command>, posted: seq<Command>, card: string, k: PanelKind)
    requires Last(log, card, false, k) == Last(posted, card, true, k) && !DataAgrees(posted, card, k)
    ensures card in Fold(users, Ops(log, k)) <==> card !in Fold(users, Ops(posted, k))
  {
    var data, last := Last(posted, card, true, k), Last(posted, card, false, k);
    LastConcerns(posted, card, true, k);
    LastConcerns(posted, card, false, k);
    TwoEffects(data.value, last.value, card);
    FoldByLast(users, log, card, k);
    FoldByLast(users, posted, card, k);
  }

  lemma TwoEffects(d: Effect, e: Effect, card: string)
    requires CardOf(d) == Some(card) == CardOf(e) && d != e
    ensures d.AddCard? != e.AddCard?
  {
  }

  /** For any commands, at whatever priority their lines have: without loss the panel always ends with
      the intended table if and only if for every card the last write at data priority, if any, has
      the effect of its last write. */
  lemma LosslessExactly(posts: seq<(int, string)>, users: set<string>, k: PanelKind)
    requires FreshPosts(posts) && UnderstoodPosts(posts, k)
    ensures AlwaysEndsRight(posts, users, k) <==> DataIsLast(posts, k)
  {
    if DataIsLast(posts, k) {
      forall ms: seq<Move> | Proper(ms, k) && PostedAs(ms) == posts && LossFree(Start(users), ms, k) &&
                  Quiet(Play(Start(users), ms, k))
        ensures Play(Start(users), ms, k).panel.users == Fold(users, CardOps(posts, k))
      {
        var now := if ms == [] then 0.0 else ms[|ms| - 1].at;
        AlwaysFine(users, ms, now, k);
        RightWhenDataLast(users, posts, Play(Start(users), ms, k), now, k);
      }
    } else {
      var card :| !DataAgrees(AsCommands(posts), card, k);
      var ms := OvertakingBreaks(posts, users, k, card);
    }
  }
}
