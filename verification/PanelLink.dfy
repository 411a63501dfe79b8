/** Server and panel joined by an unreliable link: command lines travel down, acknowledgements
    travel up, and either may be lost. */
module PanelLink {
  import opened Basics
  import opened Wire
  import opened CommandQueue

  /** An acknowledgement as the server takes it in. */
  datatype Reply = Reply(id: int, code: string, effect: Effect)

  /** What a make of panel does with a line: the effect on its card table and the
      acknowledgement, if any. Some panels name the card in the acknowledgement (`echo`), so that
      it moves the server's mirror again; some do not. */
  datatype PanelKind = PanelKind(effect: string -> Effect, reply: string -> Option<Reply>, echo: bool)

  /** `log` lists the commands the panel has executed, oldest first. */
  datatype Panel = Panel(users: set<string>, log: seq<Command>)

  /** `down` and `up` hold the lines and acknowledgements under way; `settled` lists the commands
      whose acknowledgement has reached the server. */
  datatype World = World(dev: Device, down: seq<Command>, up: seq<Command>, panel: Panel, settled: seq<Command>)

  function Start(users: set<string>): World {
    World(EMPTY_DEVICE.(users := users), [], [], Panel(users, []), [])
  }

  datatype Act =
    | Post(id: int, line: string, priority: Option<int>)
    | Ask(batch: int)
    | Execute(i: nat)
    | Deliver(i: nat)
    | DropLine(i: nat)
    | DropAck(i: nat)

  datatype Move = Move(at: Time, act: Act)

  function RemoveAt<T>(s: seq<T>, i: nat): seq<T>
    requires i < |s|
  {
    s[..i] + s[i + 1..]
  }

  function PostTo(w: World, id: int, line: string, priority: Option<int>, now: Time): World {
    w.(dev := Enqueue(w.dev, id, line, priority, now))
  }

  function AskOf(w: World, batch: int, now: Time): World {
    w.(dev := Poll(w.dev, batch, now), down := w.down + Handed(w.dev, batch, now))
  }

  /** The panel acts on the line at place `i` of those under way. */
  function ExecuteAt(w: World, i: nat, k: PanelKind): World {
    if i >= |w.down| then w
    else
      var c := w.down[i];
      w.(down := RemoveAt(w.down, i),
         panel := Panel(ApplyEffect(w.panel.users, k.effect(c.line)), w.panel.log + [c]),
         up := if k.reply(c.line).Some? then w.up + [c] else w.up)
  }

  /** The acknowledgement at place `i` of those under way reaches the server. */
  function DeliverAt(w: World, i: nat, k: PanelKind): World {
    if i >= |w.up| then w
    else
      var c := w.up[i];
      var r := k.reply(c.line).GetOr(Reply(0, "", Nothing));
      w.(up := RemoveAt(w.up, i), dev := Ack(w.dev, r.id, r.code, r.effect), settled := w.settled + [c])
  }

  function Next(w: World, m: Move, k: PanelKind): World {
    match m.act
    case Post(id, line, priority) => PostTo(w, id, line, priority, m.at)
    case Ask(batch) => AskOf(w, batch, m.at)
    case Execute(i) => ExecuteAt(w, i, k)
    case Deliver(i) => DeliverAt(w, i, k)
    case DropLine(i) => if i >= |w.down| then w else w.(down := RemoveAt(w.down, i))
    case DropAck(i) => if i >= |w.up| then w else w.(up := RemoveAt(w.up, i))
  }

  function Play(w: World, ms: seq<Move>, k: PanelKind): World {
    if ms == [] then w else Next(Play(w, ms[..|ms| - 1], k), ms[|ms| - 1], k)
  }

  // ---- card-table operations ----

  function Fold(users: set<string>, ops: seq<Effect>): set<string> {
    if ops == [] then users else ApplyEffect(Fold(users, ops[..|ops| - 1]), ops[|ops| - 1])
  }

  function Op(line: string, k: PanelKind): seq<Effect> {
    if k.effect(line) == Nothing then [] else [k.effect(line)]
  }

  /** The card-table operations among commands, in order. */
  function Ops(s: seq<Command>, k: PanelKind): seq<Effect> {
    if s == [] then [] else Op(s[0].line, k) + Ops(s[1..], k)
  }

  /** The card-table operations posted in a run, in order. */
  function PostedOps(ms: seq<Move>, k: PanelKind): seq<Effect> {
    if ms == [] then []
    else
      var a := ms[|ms| - 1].act;
      PostedOps(ms[..|ms| - 1], k) + if a.Post? then Op(a.line, k) else []
  }

  function PostedLines(ms: seq<Move>): map<int, string> {
    if ms == [] then map[]
    else
      var a := ms[|ms| - 1].act;
      if a.Post? then PostedLines(ms[..|ms| - 1])[a.id := a.line] else PostedLines(ms[..|ms| - 1])
  }

  function Cards(ops: seq<Effect>): set<string> {
    if ops == [] then {}
    else (match ops[0] case Nothing => {} case AddCard(c) => {c} case RemoveCard(c) => {c}) + Cards(ops[1..])
  }

  function Added(ops: seq<Effect>): set<string> {
    if ops == [] then {} else (if ops[0].AddCard? then {ops[0].card} else {}) + Added(ops[1..])
  }

  function Removed(ops: seq<Effect>): set<string> {
    if ops == [] then {} else (if ops[0].RemoveCard? then {ops[0].card} else {}) + Removed(ops[1..])
  }

  /** The panel acknowledges the line under its id, with a code of its own, naming the effect it
      had on the table if it names any. */
  predicate Answered(id: int, line: string, k: PanelKind) {
    && id != 0
    && k.reply(line).Some?
    && k.reply(line).value.id == id
    && k.reply(line).value.code != TIMED_OUT
    && k.reply(line).value.effect == if k.echo then k.effect(line) else Nothing
  }

  /** A line both sides understand alike: answered, and with the same effect on the server's mirror
      as on the panel's table. */
  predicate Understood(id: int, line: string, k: PanelKind) {
    Answered(id, line, k) && MirrorEffect(line) == k.effect(line)
  }

  /** Ids are fresh, time does not run backwards, and every posted line is understood. */
  predicate Proper(ms: seq<Move>, k: PanelKind) {
    ms == [] ||
    (var before := ms[..|ms| - 1];
     var m := ms[|ms| - 1];
     && Proper(before, k)
     && (before != [] ==> before[|before| - 1].at <= m.at)
     && (m.act.Post? ==> m.act.id !in PostedLines(before) && Understood(m.act.id, m.act.line, k)))
  }

  /** Nothing is lost, both directions keep order, every poll finds every in-flight command still
      within ACK_TIMEOUT, and card-table lines keep the data priority. */
  predicate Lossless(w: World, ms: seq<Move>, k: PanelKind) {
    ms == [] ||
    (var before := ms[..|ms| - 1];
     var m := ms[|ms| - 1];
     && Lossless(w, before, k)
     && (match m.act
         case Post(_, line, priority) => k.effect(line) != Nothing ==> PriorityOf(line, priority) == PRIO_DATA
         case Ask(_) => forall c :: c in Play(w, before, k).dev.inFlight ==> Waiting(c, m.at)
         case Execute(i) => i == 0
         case Deliver(i) => i == 0
         case DropLine(_) => false
         case DropAck(_) => false))
  }

  // ---- lists of operations ----

  lemma {:induction false} OpsAppend(a: seq<Command>, b: seq<Command>, k: PanelKind)
    ensures Ops(a + b, k) == Ops(a, k) + Ops(b, k)
  {
    if a == [] {
      assert a + b == b;
    } else {
      assert (a + b)[1..] == a[1..] + b;
      OpsAppend(a[1..], b, k);
    }
  }

  lemma {:induction false} FoldAppend(users: set<string>, a: seq<Effect>, b: seq<Effect>)
    ensures Fold(users, a + b) == Fold(Fold(users, a), b)
  {
    if b == [] {
      assert a + b == a;
    } else {
      assert (a + b)[..|a + b| - 1] == a + b[..|b| - 1];
      FoldAppend(users, a, b[..|b| - 1]);
    }
  }

  lemma FoldOp(users: set<string>, line: string, k: PanelKind)
    ensures Fold(users, Op(line, k)) == ApplyEffect(users, k.effect(line))
  {
  }

  lemma {:induction false} StampOps(cs: seq<Command>, now: Time, k: PanelKind)
    ensures Ops(Stamp(cs, now), k) == Ops(cs, k)
  {
    if cs != [] { StampOps(cs[1..], now, k); }
  }

  /** Card-table commands stand in the order in which they may be handed out. */
  predicate OpsInLine(q: seq<Command>, k: PanelKind) {
    forall i, j :: 0 <= i < j < |q| && Op(q[i].line, k) != [] && Op(q[j].line, k) != [] ==> Before(q[i], q[j])
  }

  lemma {:induction false} InsertOps(c: Command, q: seq<Command>, k: PanelKind)
    requires Op(c.line, k) != [] ==> forall i :: 0 <= i < |q| && Op(q[i].line, k) != [] ==> Before(c, q[i])
    ensures Ops(Insert(c, q), k) == Op(c.line, k) + Ops(q, k)
  {
    assert ([c] + q)[1..] == q;
    if q == [] || Before(c, q[0]) {
    } else {
      InsertOps(c, q[1..], k);
      var r := Insert(c, q[1..]);
      assert ([q[0]] + r)[1..] == r;
    }
  }

  /** Sorting by priority and age never reorders card-table commands: control commands overtake
      them, they do not overtake each other. */
  lemma {:induction false} SortOps(q: seq<Command>, k: PanelKind)
    requires OpsInLine(q, k)
    ensures Ops(Sort(q), k) == Ops(q, k)
  {
    if q != [] {
      SortOps(q[1..], k);
      SortIds(q[1..]);
      var s := Sort(q[1..]);
      forall i | 0 <= i < |s| && Op(s[i].line, k) != [] && Op(q[0].line, k) != [] ensures Before(q[0], s[i]) {
        assert s[i] in multiset(s);
        assert s[i] in q[1..];
      }
      InsertOps(q[0], s, k);
    }
  }

  // ---- without loss ----

  /** Commands not yet settled, oldest first as far as card-table operations go. */
  function Outstanding(w: World): seq<Command> {
    w.up + w.down + w.dev.queue
  }

  /** A panel that names cards moves the mirror late: the mirror is right about every card that no
      outstanding command touches. Otherwise the mirror is right about everything posted. */
  ghost predicate Mirrored(w: World, users: set<string>, posted: seq<Effect>, k: PanelKind) {
    if k.echo then
      forall card :: card !in Cards(Ops(Outstanding(w), k)) ==>
        (card in w.dev.users <==> card in Fold(users, Ops(w.settled, k)))
    else w.dev.users == Fold(users, posted)
  }

  predicate QueueSound(q: seq<Command>, now: Time, k: PanelKind) {
    && OpsInLine(q, k)
    && (forall c :: c in q ==>
          Answered(c.id, c.line, k) && (Op(c.line, k) != [] ==> c.prio == PRIO_DATA) && c.enq <= now)
  }

  /** The link keeps order: what is in flight on the books is what is under way, up before down. */
  ghost predicate LinkSound(w: World, k: PanelKind) {
    && Separate(w.dev)
    && w.dev.inFlight == w.up + w.down
    && (forall c :: c in w.dev.inFlight ==> Answered(c.id, c.line, k))
    && w.panel.log == w.settled + w.up
  }

  ghost predicate PanelSound(w: World, users: set<string>, posted: seq<Effect>, k: PanelKind) {
    && w.panel.users == Fold(users, Ops(w.panel.log, k))
    && Ops(w.panel.log, k) + Ops(w.down, k) + Ops(w.dev.queue, k) == posted
  }

  ghost predicate InOrder(w: World, users: set<string>, posted: seq<Effect>, now: Time, k: PanelKind) {
    && LinkSound(w, k)
    && QueueSound(w.dev.queue, now, k)
    && PanelSound(w, users, posted, k)
    && Mirrored(w, users, posted, k)
  }

  lemma {:induction false} CardsAppend(a: seq<Effect>, b: seq<Effect>)
    ensures Cards(a + b) == Cards(a) + Cards(b)
  {
    if a == [] {
      assert a + b == b;
    } else {
      assert (a + b)[1..] == a[1..] + b;
      CardsAppend(a[1..], b);
    }
  }

  lemma OneOp(c: Command, k: PanelKind)
    ensures Ops([c], k) == Op(c.line, k)
  {
    assert [c][1..] == [];
  }

  /** An operation decides membership of its own card and of no other. */
  lemma OneCard(line: string, k: PanelKind, card: string, users: set<string>, others: set<string>)
    ensures card !in Cards(Op(line, k)) ==> (card in ApplyEffect(users, k.effect(line)) <==> card in users)
    ensures card in Cards(Op(line, k)) ==>
              (card in ApplyEffect(users, k.effect(line)) <==> card in ApplyEffect(others, k.effect(line)))
  {
    var e := k.effect(line);
    if e != Nothing {
      assert Op(line, k) == [e] && [e][1..] == [];
      assert Cards([e]) == {e.card};
    }
  }

  // posting

  lemma MirrorAfterPost(w: World, users: set<string>, posted: seq<Effect>, k: PanelKind, c: Command, w': World)
    requires Mirrored(w, users, posted, k)
    requires w' == w.(dev := w.dev.(queue := w.dev.queue + [c], users := ApplyEffect(w.dev.users, k.effect(c.line))))
    ensures Mirrored(w', users, posted + Op(c.line, k), k)
  {
    OneOp(c, k);
    assert Outstanding(w') == Outstanding(w) + [c];
    OpsAppend(Outstanding(w), [c], k);
    CardsAppend(Ops(Outstanding(w), k), Op(c.line, k));
    FoldAppend(users, posted, Op(c.line, k));
    FoldOp(Fold(users, posted), c.line, k);
    forall card | card !in Cards(Ops(Outstanding(w'), k)) ensures card in w'.dev.users <==> card in w.dev.users {
      OneCard(c.line, k, card, w.dev.users, w.dev.users);
    }
  }

  lemma LinkAfterPost(w: World, k: PanelKind, c: Command, w': World)
    requires LinkSound(w, k) && c.id !in IdSet(w.dev.queue) + IdSet(w.dev.inFlight)
    requires w' == w.(dev := w.dev.(queue := w.dev.queue + [c], users := ApplyEffect(w.dev.users, k.effect(c.line))))
    ensures LinkSound(w', k)
  {
    assert [c][1..] == [] && IdSet([c]) == {c.id};
    IdSetAppend(w.dev.queue, [c]);
  }

  lemma QueueAfterPost(q: seq<Command>, now: Time, k: PanelKind, c: Command)
    requires QueueSound(q, now, k) && now <= c.enq
    requires Answered(c.id, c.line, k) && (Op(c.line, k) != [] ==> c.prio == PRIO_DATA)
    ensures QueueSound(q + [c], c.enq, k)
  {
  }

  lemma PanelAfterPost(w: World, users: set<string>, posted: seq<Effect>, k: PanelKind, c: Command, w': World)
    requires PanelSound(w, users, posted, k)
    requires w' == w.(dev := w.dev.(queue := w.dev.queue + [c], users := ApplyEffect(w.dev.users, k.effect(c.line))))
    ensures PanelSound(w', users, posted + Op(c.line, k), k)
  {
    OneOp(c, k);
    OpsAppend(w.dev.queue, [c], k);
    Associate(Ops(w.panel.log, k) + Ops(w.down, k), Ops(w.dev.queue, k), Op(c.line, k));
  }

  lemma AfterPost(w: World, users: set<string>, posted: seq<Effect>, now: Time, k: PanelKind, c: Command, w': World)
    requires InOrder(w, users, posted, now, k) && now <= c.enq
    requires w' == w.(dev := w.dev.(queue := w.dev.queue + [c], users := ApplyEffect(w.dev.users, k.effect(c.line))))
    requires Answered(c.id, c.line, k) && (Op(c.line, k) != [] ==> c.prio == PRIO_DATA)
    requires c.id !in IdSet(w.dev.queue) + IdSet(w.dev.inFlight)
    ensures InOrder(w', users, posted + Op(c.line, k), c.enq, k)
  {
    MirrorAfterPost(w, users, posted, k, c, w');
    LinkAfterPost(w, k, c, w');
    QueueAfterPost(w.dev.queue, now, k, c);
    PanelAfterPost(w, users, posted, k, c, w');
  }

  // polling

  lemma {:induction false} NothingReaped(fs: seq<Command>, acked: map<int, string>, now: Time)
    requires forall c :: c in fs ==> Waiting(c, now)
    ensures Kept(fs, now) == fs && Retried(fs, now) == [] && GivenUp(acked, fs, now) == acked
  {
    if fs != [] {
      assert fs[0] in fs && forall c :: c in fs[1..] ==> c in fs;
      NothingReaped(fs[1..], acked, now);
      assert fs == [fs[0]] + fs[1..];
    }
  }

  /** A poll that finds nothing overdue moves the front of the queue to the in-flight table. */
  lemma TimelyPoll(d: Device, batch: int, now: Time)
    requires Separate(d) && forall c :: c in d.inFlight ==> Waiting(c, now)
    ensures var q := Sort(d.queue);
            var n := BatchSize(batch, q);
            && Handed(d, batch, now) == Stamp(q[..n], now)
            && Poll(d, batch, now) == Device(q[n..], d.inFlight + Stamp(q[..n], now), d.acked, d.users)
    ensures Separate(Poll(d, batch, now))
    ensures IdSet(Poll(d, batch, now).queue) + IdSet(Poll(d, batch, now).inFlight) == IdSet(d.queue) + IdSet(d.inFlight)
  {
    var q := Sort(d.queue);
    NothingReaped(d.inFlight, d.acked, now);
    assert d.queue + [] == d.queue;
    assert Reap(d, now) == d;
    PollShape(d, batch, now);
    StampIds(q[..BatchSize(batch, q)], now);
    IdSetAppend(d.inFlight, Stamp(q[..BatchSize(batch, q)], now));
  }

  lemma SortedQueue(q: seq<Command>, n: nat, now: Time, k: PanelKind)
    requires QueueSound(q, now, k) && n <= |Sort(q)|
    ensures QueueSound(Sort(q)[n..], now, k)
    ensures forall c :: c in Sort(q)[..n] ==> Answered(c.id, c.line, k)
    ensures Ops(Sort(q)[..n], k) + Ops(Sort(q)[n..], k) == Ops(q, k)
  {
    var s := Sort(q);
    SortIds(q);
    SortOrdered(q);
    SortOps(q, k);
    assert s[..n] + s[n..] == s;
    OpsAppend(s[..n], s[n..], k);
    forall c | c in s ensures c in q { assert c in multiset(s); }
    assert forall c :: c in s[n..] || c in s[..n] ==> c in s;
  }

  /** Moving the front of the queue on its way changes nothing about the operations. */
  lemma OpsAfterAsk(log: seq<Command>, up: seq<Command>, down: seq<Command>, handed: seq<Command>,
                    rest: seq<Command>, queue: seq<Command>, k: PanelKind)
    requires Ops(handed, k) + Ops(rest, k) == Ops(queue, k)
    ensures Ops(log, k) + Ops(down + handed, k) + Ops(rest, k) == Ops(log, k) + Ops(down, k) + Ops(queue, k)
    ensures Ops(up + (down + handed) + rest, k) == Ops(up + down + queue, k)
  {
    OpsAppend(down, handed, k);
    OpsAppend(up, down + handed, k);
    OpsAppend(up + (down + handed), rest, k);
    OpsAppend(up, down, k);
    OpsAppend(up + down, queue, k);
    Regroup(Ops(log, k), Ops(down, k), Ops(handed, k), Ops(rest, k));
    Regroup(Ops(up, k), Ops(down, k), Ops(handed, k), Ops(rest, k));
  }

  lemma Regroup(a: seq<Effect>, b: seq<Effect>, c: seq<Effect>, d: seq<Effect>)
    ensures a + (b + c) + d == a + b + (c + d)
  {
  }

  lemma LinkAfterAsk(w: World, now: Time, k: PanelKind, q: seq<Command>, n: nat, at: Time, w': World)
    requires LinkSound(w, k) && QueueSound(w.dev.queue, now, k)
    requires q == Sort(w.dev.queue) && n <= |q|
    requires w' == w.(dev := Device(q[n..], w.dev.inFlight + Stamp(q[..n], at), w.dev.acked, w.dev.users),
                      down := w.down + Stamp(q[..n], at))
    requires Separate(w'.dev)
    ensures LinkSound(w', k) && QueueSound(w'.dev.queue, now, k)
  {
    var handed := Stamp(q[..n], at);
    SortedQueue(w.dev.queue, n, now, k);
    StampIds(q[..n], at);
    Associate(w.up, w.down, handed);
    forall c | c in handed ensures Answered(c.id, c.line, k) {
      var i :| 0 <= i < n && c == handed[i];
      assert q[i] in q[..n];
    }
  }

  lemma AfterAsk(w: World, users: set<string>, posted: seq<Effect>, now: Time, k: PanelKind,
                 q: seq<Command>, n: nat, at: Time, w': World)
    requires InOrder(w, users, posted, now, k)
    requires q == Sort(w.dev.queue) && n <= |q|
    requires w' == w.(dev := Device(q[n..], w.dev.inFlight + Stamp(q[..n], at), w.dev.acked, w.dev.users),
                      down := w.down + Stamp(q[..n], at))
    requires Separate(w'.dev)
    ensures InOrder(w', users, posted, now, k)
  {
    var handed := Stamp(q[..n], at);
    LinkAfterAsk(w, now, k, q, n, at, w');
    SortedQueue(w.dev.queue, n, now, k);
    StampOps(q[..n], at, k);
    OpsAfterAsk(w.panel.log, w.up, w.down, handed, q[n..], w.dev.queue, k);
  }

  // executing

  lemma AfterExecute(w: World, users: set<string>, posted: seq<Effect>, now: Time, k: PanelKind, w': World)
    requires InOrder(w, users, posted, now, k)
    requires w' == ExecuteAt(w, 0, k)
    ensures InOrder(w', users, posted, now, k)
  {
    if w.down != [] {
      var c := w.down[0];
      LinkAfterExecute(w, c, k, w');
      OpsAfterExecute(w.panel.log, c, w'.down, users, k);
    }
  }

  lemma LinkAfterExecute(w: World, c: Command, k: PanelKind, w': World)
    requires LinkSound(w, k) && w.down != [] && c == w.down[0] && w' == ExecuteAt(w, 0, k)
    ensures w.down == [c] + w'.down && w'.panel.log == w.panel.log + [c]
    ensures LinkSound(w', k) && Outstanding(w') == Outstanding(w)
    ensures w'.panel.users == ApplyEffect(w.panel.users, k.effect(c.line))
  {
    var rest := w.down[1..];
    Associate(w.up, [c], rest);
    Associate(w.settled, w.up, [c]);
  }

  lemma OpsAfterExecute(log: seq<Command>, c: Command, rest: seq<Command>, users: set<string>, k: PanelKind)
    ensures Ops(log + [c], k) + Ops(rest, k) == Ops(log, k) + Ops([c] + rest, k)
    ensures Fold(users, Ops(log + [c], k)) == ApplyEffect(Fold(users, Ops(log, k)), k.effect(c.line))
  {
    OneOp(c, k);
    OpsAppend(log, [c], k);
    OpsAppend([c], rest, k);
    Associate(Ops(log, k), Op(c.line, k), Ops(rest, k));
    FoldAppend(users, Ops(log, k), Op(c.line, k));
    FoldOp(Fold(users, Ops(log, k)), c.line, k);
  }

  // acknowledging

  lemma LinkAfterDeliver(w: World, c: Command, k: PanelKind, w': World)
    requires LinkSound(w, k) && w.up != [] && c == w.up[0] && w' == DeliverAt(w, 0, k)
    ensures w.up == [c] + w'.up
    ensures LinkSound(w', k)
    ensures IdSet(w'.dev.inFlight) <= IdSet(w.dev.inFlight)
    ensures w'.dev.users == if k.echo then ApplyEffect(w.dev.users, k.effect(c.line)) else w.dev.users
  {
    var rest := w.up[1..];
    Associate([c], rest, w.down);
    Associate(w.settled, [c], rest);
    WithoutIds(w.dev.inFlight, c.id);
  }

  lemma AfterDeliver(w: World, users: set<string>, posted: seq<Effect>, now: Time, k: PanelKind, w': World)
    requires InOrder(w, users, posted, now, k)
    requires w' == DeliverAt(w, 0, k)
    ensures InOrder(w', users, posted, now, k)
    ensures IdSet(w'.dev.inFlight) <= IdSet(w.dev.inFlight)
  {
    if w.up != [] {
      var c := w.up[0];
      LinkAfterDeliver(w, c, k, w');
      MirrorAfterDeliver(w, users, posted, k, c, w');
    }
  }

  lemma MirrorAfterDeliver(w: World, users: set<string>, posted: seq<Effect>, k: PanelKind, c: Command, w': World)
    requires Mirrored(w, users, posted, k)
    requires w.up == [c] + w'.up && w'.down == w.down && w'.dev.queue == w.dev.queue && w'.settled == w.settled + [c]
    requires w'.dev.users == if k.echo then ApplyEffect(w.dev.users, k.effect(c.line)) else w.dev.users
    ensures Mirrored(w', users, posted, k)
  {
    if k.echo {
      OneOp(c, k);
      assert Outstanding(w) == [c] + Outstanding(w');
      OpsAppend([c], Outstanding(w'), k);
      CardsAppend(Op(c.line, k), Ops(Outstanding(w'), k));
      OpsAppend(w.settled, [c], k);
      FoldAppend(users, Ops(w.settled, k), Op(c.line, k));
      var table := Fold(users, Ops(w.settled, k));
      FoldOp(table, c.line, k);
      forall card | card !in Cards(Ops(Outstanding(w'), k))
        ensures card in w'.dev.users <==> card in Fold(users, Ops(w'.settled, k))
      {
        OneCard(c.line, k, card, w.dev.users, table);
        OneCard(c.line, k, card, table, table);
      }
    }
  }

  // whole runs

  lemma {:induction false} LosslessInOrder(users: set<string>, ms: seq<Move>, k: PanelKind)
    requires Proper(ms, k) && Lossless(Start(users), ms, k) && ms != []
    ensures var w := Play(Start(users), ms, k);
            && InOrder(w, users, PostedOps(ms, k), ms[|ms| - 1].at, k)
            && IdSet(w.dev.queue) + IdSet(w.dev.inFlight) <= PostedLines(ms).Keys
  {
    var before := ms[..|ms| - 1];
    var m := ms[|ms| - 1];
    var w := Play(Start(users), before, k);
    var now := m.at;
    if before != [] {
      LosslessInOrder(users, before, k);
      now := before[|before| - 1].at;
    }
    LosslessStep(w, users, PostedOps(before, k), PostedLines(before).Keys, now, m, k);
  }

  lemma LosslessStep(w: World, users: set<string>, posted: seq<Effect>, ids: set<int>, now: Time, m: Move, k: PanelKind)
    requires InOrder(w, users, posted, now, k) && now <= m.at
    requires IdSet(w.dev.queue) + IdSet(w.dev.inFlight) <= ids
    requires !m.act.DropLine? && !m.act.DropAck?
    requires m.act.Post? ==>
               && m.act.id !in ids && Understood(m.act.id, m.act.line, k)
               && (k.effect(m.act.line) != Nothing ==> PriorityOf(m.act.line, m.act.priority) == PRIO_DATA)
    requires m.act.Ask? ==> forall c :: c in w.dev.inFlight ==> Waiting(c, m.at)
    requires m.act.Execute? || m.act.Deliver? ==> m.act.i == 0
    ensures var w' := Next(w, m, k);
            && InOrder(w', users, posted + (if m.act.Post? then Op(m.act.line, k) else []), m.at, k)
            && IdSet(w'.dev.queue) + IdSet(w'.dev.inFlight) <= ids + (if m.act.Post? then {m.act.id} else {})
  {
    match m.act
    case Post(id, line, priority) =>
      var c := Command(id, line, m.at, 0, PriorityOf(line, priority), None);
      AfterPost(w, users, posted, now, k, c, Next(w, m, k));
      EnqueueSeparate(w.dev, id, line, priority, m.at);
    case Ask(batch) =>
      TimelyPoll(w.dev, batch, m.at);
      var q := Sort(w.dev.queue);
      AfterAsk(w, users, posted, now, k, q, BatchSize(batch, q), m.at, Next(w, m, k));
      assert posted + [] == posted;
    case Execute(_) =>
      AfterExecute(w, users, posted, now, k, Next(w, m, k));
      assert posted + [] == posted;
    case Deliver(_) =>
      AfterDeliver(w, users, posted, now, k, Next(w, m, k));
      assert posted + [] == posted;
  }

  /** Without loss, the panel executes card-table operations in exactly the order in which they were
      enqueued, whatever control commands overtake them; and whenever nothing is outstanding, the
      panel's table, the server's mirror and the fold of everything enqueued are one. */
  lemma LosslessAgreement(users: set<string>, ms: seq<Move>, k: PanelKind)
    requires Proper(ms, k) && Lossless(Start(users), ms, k)
    ensures var w := Play(Start(users), ms, k);
            && Ops(w.panel.log, k) <= PostedOps(ms, k)
            && w.panel.users == Fold(users, Ops(w.panel.log, k))
            && (w.dev.queue == [] && w.dev.inFlight == [] ==>
                 w.panel.users == w.dev.users == Fold(users, PostedOps(ms, k)))
  {
    if ms != [] {
      LosslessInOrder(users, ms, k);
      var w := Play(Start(users), ms, k);
      QuiescentAgreement(w, users, PostedOps(ms, k), ms[|ms| - 1].at, k);
    }
  }

  lemma QuiescentAgreement(w: World, users: set<string>, posted: seq<Effect>, now: Time, k: PanelKind)
    requires InOrder(w, users, posted, now, k)
    ensures Ops(w.panel.log, k) <= posted
    ensures w.dev.queue == [] && w.dev.inFlight == [] ==> w.panel.users == w.dev.users == Fold(users, posted)
  {
    assert Ops(w.panel.log, k) + (Ops(w.down, k) + Ops(w.dev.queue, k)) == posted;
    if w.dev.queue == [] && w.dev.inFlight == [] {
      assert w.up == [] && w.down == [];
      assert w.panel.log == w.settled;
      assert Ops(w.panel.log, k) == posted;
      assert Outstanding(w) == [];
    }
  }
}
