/** The link when lines and acknowledgements are lost, reordered and retried: exactly when does the
    panel still end up with the table the server meant? */
module LossyLink {
  import opened Basics
  import opened Wire
  import opened CommandQueue
  import opened PanelLink

  // ---- operations as sets ----

  lemma {:induction false} AddedRemovedMembers(ops: seq<Effect>)
    ensures forall card :: card in Added(ops) <==> AddCard(card) in ops
    ensures forall card :: card in Removed(ops) <==> RemoveCard(card) in ops
  {
    if ops != [] {
      AddedRemovedMembers(ops[1..]);
      assert ops == [ops[0]] + ops[1..];
    }
  }

  /** No card is both added and removed. */
  predicate NoConflict(ops: seq<Effect>) {
    Added(ops) !! Removed(ops)
  }

  /** For a card that is not both added and removed, only membership in the list counts. */
  lemma {:induction false} FoldCard(users: set<string>, ops: seq<Effect>, card: string)
    requires !(AddCard(card) in ops && RemoveCard(card) in ops)
    ensures card in Fold(users, ops) <==> (card in users || AddCard(card) in ops) && RemoveCard(card) !in ops
  {
    if ops != [] {
      var init := ops[..|ops| - 1];
      assert ops == init + [ops[|ops| - 1]];
      FoldCard(users, init, card);
    }
  }

  /** Without conflict the order and the number of repetitions do not matter. */
  lemma FoldWithoutConflict(users: set<string>, ops: seq<Effect>)
    requires NoConflict(ops)
    ensures Fold(users, ops) == users + Added(ops) - Removed(ops)
  {
    AddedRemovedMembers(ops);
    forall card ensures card in Fold(users, ops) <==> (card in users || card in Added(ops)) && card !in Removed(ops) {
      FoldCard(users, ops, card);
    }
  }

  lemma {:induction false} OpsMembers(s: seq<Command>, k: PanelKind)
    ensures forall e :: e in Ops(s, k) <==> e != Nothing && exists c :: c in s && k.effect(c.line) == e
  {
    if s != [] {
      OpsMembers(s[1..], k);
      assert s == [s[0]] + s[1..];
      forall e ensures e in Ops(s, k) <==> e != Nothing && exists c :: c in s && k.effect(c.line) == e {
        if e in Ops(s[1..], k) {
          var c :| c in s[1..] && k.effect(c.line) == e;
          assert c in s;
        }
        if e == k.effect(s[0].line) { assert s[0] in s; }
      }
    }
  }

  /** Some posted command has the effect `e`. */
  ghost predicate Meant(e: Effect, posted: map<int, string>, k: PanelKind) {
    exists id :: id in posted && k.effect(posted[id]) == e
  }

  ghost predicate AllAnswered(posted: map<int, string>, k: PanelKind) {
    forall id :: id in posted ==> Answered(id, posted[id], k)
  }

  lemma MeantAfterPost(e: Effect, posted: map<int, string>, id: int, line: string, k: PanelKind)
    requires id !in posted
    ensures Meant(e, posted[id := line], k) <==> Meant(e, posted, k) || k.effect(line) == e
  {
    var after := posted[id := line];
    if Meant(e, posted, k) {
      var i :| i in posted && k.effect(posted[i]) == e;
      assert i in after && after[i] == posted[i];
    }
    if k.effect(line) == e {
      assert id in after && after[id] == line;
    }
  }

  lemma {:induction false} PostedMembers(ms: seq<Move>, k: PanelKind)
    requires Proper(ms, k)
    ensures forall e :: e in PostedOps(ms, k) <==> e != Nothing && Meant(e, PostedLines(ms), k)
    ensures AllAnswered(PostedLines(ms), k)
  {
    if ms != [] {
      var before := ms[..|ms| - 1];
      PostedMembers(before, k);
      var a := ms[|ms| - 1].act;
      if a.Post? {
        forall e ensures e in PostedOps(ms, k) <==> e != Nothing && Meant(e, PostedLines(ms), k) {
          MeantAfterPost(e, PostedLines(before), a.id, a.line, k);
        }
      }
    }
  }

  // ---- everything under way was posted ----

  predicate FromPosted(s: seq<Command>, posted: map<int, string>) {
    forall c :: c in s ==> c.id in posted && posted[c.id] == c.line
  }

  ghost predicate Sourced(w: World, users: set<string>, posted: map<int, string>, k: PanelKind) {
    && FromPosted(w.dev.queue, posted) && FromPosted(w.dev.inFlight, posted)
    && FromPosted(w.down, posted) && FromPosted(w.up, posted) && FromPosted(w.panel.log, posted)
    && (forall c :: c in w.up ==> c.id in IdSet(w.panel.log))
    && (forall id :: id in w.dev.acked && w.dev.acked[id] != TIMED_OUT ==> id in IdSet(w.panel.log))
    && w.panel.users == Fold(users, Ops(w.panel.log, k))
  }

  lemma {:induction false} ReapFromPosted(fs: seq<Command>, now: Time, posted: map<int, string>)
    requires FromPosted(fs, posted)
    ensures FromPosted(Kept(fs, now), posted) && FromPosted(Retried(fs, now), posted)
  {
    if fs != [] {
      assert fs[0] in fs && forall c :: c in fs[1..] ==> c in fs;
      ReapFromPosted(fs[1..], now, posted);
    }
  }

  lemma {:induction false} PutFromPosted(fs: seq<Command>, cs: seq<Command>, posted: map<int, string>)
    requires FromPosted(fs, posted) && FromPosted(cs, posted)
    ensures FromPosted(PutAll(fs, cs), posted)
    decreases cs
  {
    if cs != [] {
      assert cs[0] in cs && forall c :: c in cs[1..] ==> c in cs;
      PutOneFromPosted(fs, cs[0], posted);
      PutFromPosted(Put(fs, cs[0]), cs[1..], posted);
    }
  }

  lemma {:induction false} PutOneFromPosted(fs: seq<Command>, c: Command, posted: map<int, string>)
    requires FromPosted(fs, posted) && c.id in posted && posted[c.id] == c.line
    ensures FromPosted(Put(fs, c), posted)
  {
    if fs != [] {
      assert fs[0] in fs && forall d :: d in fs[1..] ==> d in fs;
      PutOneFromPosted(fs[1..], c, posted);
    }
  }

  lemma FrontFromPosted(q: seq<Command>, n: nat, now: Time, posted: map<int, string>)
    requires FromPosted(q, posted) && n <= |q|
    ensures FromPosted(q[n..], posted) && FromPosted(Stamp(q[..n], now), posted)
  {
    assert forall c :: c in q[n..] ==> c in q;
    StampIds(q[..n], now);
    forall c | c in Stamp(q[..n], now) ensures c.id in posted && posted[c.id] == c.line {
      var i :| 0 <= i < n && c == Stamp(q[..n], now)[i];
      assert q[i] in q;
    }
  }

  lemma PollFromPosted(d: Device, batch: int, now: Time, posted: map<int, string>)
    requires FromPosted(d.queue, posted) && FromPosted(d.inFlight, posted)
    ensures FromPosted(Poll(d, batch, now).queue, posted) && FromPosted(Poll(d, batch, now).inFlight, posted)
    ensures FromPosted(Handed(d, batch, now), posted)
  {
    var r := Reap(d, now);
    var q := Sort(r.queue);
    ReapFromPosted(d.inFlight, now, posted);
    SortIds(r.queue);
    forall c | c in q ensures c in r.queue { assert c in multiset(q); }
    FrontFromPosted(q, BatchSize(batch, q), now, posted);
    PutFromPosted(r.inFlight, Handed(d, batch, now), posted);
  }

  lemma {:induction false} WithoutMembers(fs: seq<Command>, id: int)
    ensures forall c :: c in Without(fs, id) ==> c in fs
  {
    if fs != [] && fs[0].id != id { WithoutMembers(fs[1..], id); }
  }

  lemma SourcedPost(w: World, users: set<string>, posted: map<int, string>, k: PanelKind, d: Device, c: Command)
    requires Sourced(w, users, posted, k) && c.id !in posted
    requires d.queue == w.dev.queue + [c] && d.inFlight == w.dev.inFlight && d.acked == w.dev.acked
    ensures Sourced(w.(dev := d), users, posted[c.id := c.line], k)
  {
  }

  lemma SourcedAsk(w: World, users: set<string>, posted: map<int, string>, k: PanelKind, batch: int, now: Time)
    requires Sourced(w, users, posted, k)
    ensures Sourced(AskOf(w, batch, now), users, posted, k)
  {
    PollFromPosted(w.dev, batch, now, posted);
    GivenUpIds(w.dev.acked, w.dev.inFlight, now);
  }

  lemma SourcedExecute(w: World, users: set<string>, posted: map<int, string>, k: PanelKind, i: nat)
    requires Sourced(w, users, posted, k)
    ensures Sourced(ExecuteAt(w, i, k), users, posted, k)
  {
    if i < |w.down| {
      var c := w.down[i];
      OpsAfterExecute(w.panel.log, c, [], users, k);
      IdSetAppend(w.panel.log, [c]);
      assert c in w.down;
    }
  }

  lemma SourcedDeliver(w: World, users: set<string>, posted: map<int, string>, k: PanelKind, i: nat)
    requires Sourced(w, users, posted, k)
    requires AllAnswered(posted, k)
    ensures Sourced(DeliverAt(w, i, k), users, posted, k)
  {
    if i < |w.up| {
      assert w.up[i] in w.up;
      WithoutMembers(w.dev.inFlight, w.up[i].id);
    }
  }

  lemma {:induction false} AlwaysSourced(users: set<string>, ms: seq<Move>, k: PanelKind)
    requires Proper(ms, k)
    ensures Sourced(Play(Start(users), ms, k), users, PostedLines(ms), k)
  {
    if ms != [] {
      var before := ms[..|ms| - 1];
      AlwaysSourced(users, before, k);
      PostedMembers(before, k);
      SourcedStep(Play(Start(users), before, k), users, PostedLines(before), k, ms[|ms| - 1]);
    }
  }

  lemma SourcedStep(w: World, users: set<string>, posted: map<int, string>, k: PanelKind, m: Move)
    requires Sourced(w, users, posted, k)
    requires AllAnswered(posted, k)
    requires m.act.Post? ==> m.act.id !in posted
    ensures Sourced(Next(w, m, k), users, if m.act.Post? then posted[m.act.id := m.act.line] else posted, k)
  {
    match m.act
    case Post(id, line, priority) =>
      SourcedPost(w, users, posted, k, Enqueue(w.dev, id, line, priority, m.at),
                  Command(id, line, m.at, 0, PriorityOf(line, priority), None));
    case Ask(batch) => SourcedAsk(w, users, posted, k, batch, m.at);
    case Execute(i) => SourcedExecute(w, users, posted, k, i);
    case Deliver(i) => SourcedDeliver(w, users, posted, k, i);
    case DropLine(i) =>
    case DropAck(i) =>
  }

  /** The command carries an acknowledgement the device itself reported. */
  predicate Reported(acked: map<int, string>, id: int) {
    id in acked && acked[id] != TIMED_OUT
  }

  predicate AllReported(w: World, posted: map<int, string>) {
    forall id :: id in posted ==> Reported(w.dev.acked, id)
  }

  /** Under any loss, reordering and retrying: once every command carries a device-reported
      acknowledgement, and if no card is both added and removed, the panel holds the initial table
      plus all added cards minus all removed ones, which is what was meant. */
  lemma LossyAgreement(users: set<string>, ms: seq<Move>, k: PanelKind)
    requires Proper(ms, k) && NoConflict(PostedOps(ms, k))
    requires AllReported(Play(Start(users), ms, k), PostedLines(ms))
    ensures var ops := PostedOps(ms, k);
            Play(Start(users), ms, k).panel.users == users + Added(ops) - Removed(ops) == Fold(users, ops)
  {
    var w := Play(Start(users), ms, k);
    var posted := PostedLines(ms);
    AlwaysSourced(users, ms, k);
    PostedMembers(ms, k);
    forall id | id in posted.Keys ensures id in IdSet(w.panel.log) { assert id in posted; }
    SameEffects(w.panel.log, posted, PostedOps(ms, k), k);
    AddedRemovedMembers(PostedOps(ms, k));
    AddedRemovedMembers(Ops(w.panel.log, k));
    assert Added(Ops(w.panel.log, k)) == Added(PostedOps(ms, k));
    assert Removed(Ops(w.panel.log, k)) == Removed(PostedOps(ms, k));
    FoldWithoutConflict(users, Ops(w.panel.log, k));
    FoldWithoutConflict(users, PostedOps(ms, k));
  }

  lemma SameEffects(log: seq<Command>, posted: map<int, string>, ops: seq<Effect>, k: PanelKind)
    requires FromPosted(log, posted) && posted.Keys <= IdSet(log)
    requires forall e :: e in ops <==> e != Nothing && Meant(e, posted, k)
    ensures forall e :: e in Ops(log, k) <==> e in ops
  {
    OpsMembers(log, k);
    IdSetMembers(log);
    forall e ensures e in Ops(log, k) <==> e in ops {
      if e in Ops(log, k) {
        var c :| c in log && k.effect(c.line) == e;
        assert c.id in posted && k.effect(posted[c.id]) == e;
      }
      if e in ops {
        var id :| id in posted && k.effect(posted[id]) == e;
        var c :| c in log && c.id == id;
        assert k.effect(c.line) == e;
      }
    }
  }

  // ---- the condition is exact: with a conflict, some lossy run leaves the panel wrong ----

  /** The ids and lines a run posts, in order. */
  function PostedAs(ms: seq<Move>): seq<(int, string)> {
    if ms == [] then []
    else
      var a := ms[|ms| - 1].act;
      PostedAs(ms[..|ms| - 1]) + if a.Post? then [(a.id, a.line)] else []
  }

  function IdsOf(posts: seq<(int, string)>): set<int> {
    if posts == [] then {} else IdsOf(posts[..|posts| - 1]) + {posts[|posts| - 1].0}
  }

  /** No id is posted twice. */
  predicate FreshPosts(posts: seq<(int, string)>) {
    posts == [] ||
    (var n := |posts| - 1;
     FreshPosts(posts[..n]) && posts[n].0 !in IdsOf(posts[..n]))
  }

  /** Lines both sides understand alike: card writes and door openings, in any mixture. */
  predicate UnderstoodPosts(posts: seq<(int, string)>, k: PanelKind) {
    posts == [] ||
    (var n := |posts| - 1;
     UnderstoodPosts(posts[..n], k) && Understood(posts[n].0, posts[n].1, k))
  }

  /** The card-table operations among posted lines. */
  function CardOps(posts: seq<(int, string)>, k: PanelKind): seq<Effect> {
    if posts == [] then []
    else
      var n := |posts| - 1;
      CardOps(posts[..n], k) + Op(posts[n].1, k)
  }

  lemma {:induction false} PostedAreOps(ms: seq<Move>, k: PanelKind)
    ensures PostedOps(ms, k) == CardOps(PostedAs(ms), k) && PostedLines(ms).Keys == IdsOf(PostedAs(ms))
  {
    if ms != [] {
      var before := ms[..|ms| - 1];
      var a := ms[|ms| - 1].act;
      PostedAreOps(before, k);
      if a.Post? {
        assert PostedAs(ms)[..|PostedAs(ms)| - 1] == PostedAs(before);
      } else {
        assert PostedAs(ms) == PostedAs(before) && PostedOps(ms, k) == PostedOps(before, k);
      }
    }
  }

  // the run: every line is posted, handed out and settled in turn, except `skip`, which is lost once

  function Round(lost: bool): seq<Act> {
    if lost then [Ask(1), DropLine(0)] else [Ask(1), Execute(0), Deliver(0)]
  }

  function At(acts: seq<Act>, now: Time): seq<Move> {
    seq(|acts|, i requires 0 <= i < |acts| => Move(now, acts[i]))
  }

  function Posting(p: (int, string)): Move {
    Move(0.0, Post(p.0, p.1, None))
  }

  function InTurn(posts: seq<(int, string)>, skip: nat): seq<Move> {
    if posts == [] then []
    else
      var n := |posts| - 1;
      InTurn(posts[..n], skip) + [Posting(posts[n])] + At(Round(n == skip), 0.0)
  }

  function BadRun(posts: seq<(int, string)>, skip: nat): seq<Move> {
    InTurn(posts, skip) + At(Round(false), ACK_TIMEOUT)
  }

  lemma {:induction false} PlayAppend(w: World, a: seq<Move>, b: seq<Move>, k: PanelKind)
    ensures Play(w, a + b, k) == Play(Play(w, a, k), b, k)
  {
    if b == [] {
      assert a + b == a;
    } else {
      assert (a + b)[..|a + b| - 1] == a + b[..|b| - 1];
      PlayAppend(w, a, b[..|b| - 1], k);
    }
  }

  predicate NoPosts(acts: seq<Act>) {
    forall i :: 0 <= i < |acts| ==> !acts[i].Post?
  }

  /** Fresh ids and a clock that does not run backwards. */
  predicate Orderly(ms: seq<Move>) {
    ms == [] ||
    (var before := ms[..|ms| - 1];
     var m := ms[|ms| - 1];
     && Orderly(before)
     && (before != [] ==> before[|before| - 1].at <= m.at)
     && (m.act.Post? ==> m.act.id !in PostedLines(before)))
  }

  /** An orderly run of understood lines is proper. */
  lemma {:induction false} OrderlyIsProper(ms: seq<Move>, k: PanelKind)
    requires Orderly(ms) && UnderstoodPosts(PostedAs(ms), k)
    ensures Proper(ms, k)
  {
    if ms != [] {
      var posts := PostedAs(ms);
      var a := ms[|ms| - 1].act;
      if a.Post? {
        assert posts[..|posts| - 1] == PostedAs(ms[..|ms| - 1]) && posts[|posts| - 1] == (a.id, a.line);
      } else {
        assert posts == PostedAs(ms[..|ms| - 1]);
      }
      OrderlyIsProper(ms[..|ms| - 1], k);
    }
  }

  predicate EndsBy(ms: seq<Move>, now: Time) {
    Orderly(ms) && (ms != [] ==> ms[|ms| - 1].at <= now)
  }

  lemma AppendPost(ms: seq<Move>, p: (int, string), all: seq<Move>)
    requires EndsBy(ms, 0.0) && p.0 !in PostedLines(ms) && all == ms + [Posting(p)]
    ensures EndsBy(all, 0.0) && PostedAs(all) == PostedAs(ms) + [p]
  {
    assert all[..|all| - 1] == ms;
  }

  lemma {:induction false} AppendQuiet(ms: seq<Move>, acts: seq<Act>, now: Time, all: seq<Move>)
    requires EndsBy(ms, now) && NoPosts(acts) && all == ms + At(acts, now)
    ensures EndsBy(all, now) && PostedAs(all) == PostedAs(ms)
  {
    if acts == [] {
      assert all == ms;
    } else {
      var init := acts[..|acts| - 1];
      AppendQuiet(ms, init, now, ms + At(init, now));
      assert all[..|all| - 1] == ms + At(init, now);
      assert all[|all| - 1] == Move(now, acts[|acts| - 1]);
    }
  }

  lemma RoundQuiet(lost: bool)
    ensures NoPosts(Round(lost))
  {
  }

  lemma {:induction false} InTurnOrderly(posts: seq<(int, string)>, skip: nat, k: PanelKind, ms: seq<Move>)
    requires FreshPosts(posts) && ms == InTurn(posts, skip)
    ensures EndsBy(ms, 0.0) && PostedAs(ms) == posts
  {
    if posts != [] {
      var n := |posts| - 1;
      var before := InTurn(posts[..n], skip);
      InTurnOrderly(posts[..n], skip, k, before);
      PostedAreOps(before, k);
      AppendPost(before, posts[n], before + [Posting(posts[n])]);
      RoundQuiet(n == skip);
      AppendQuiet(before + [Posting(posts[n])], Round(n == skip), 0.0, ms);
    }
  }

  /** The table after the effects of all posts but one. */
  function FoldSkipping(users: set<string>, posts: seq<(int, string)>, skip: nat, k: PanelKind): set<string> {
    if posts == [] then users
    else
      var n := |posts| - 1;
      var rest := FoldSkipping(users, posts[..n], skip, k);
      if n == skip then rest else ApplyEffect(rest, k.effect(posts[n].1))
  }

  /** A posted command once it has been handed out. */
  function Sent(p: (int, string)): Command {
    Command(p.0, p.1, 0.0, 0, PriorityOf(p.1, None), Some(0.0))
  }

  predicate ReportedBut(acked: map<int, string>, posts: seq<(int, string)>, skip: nat) {
    forall i :: 0 <= i < |posts| && i != skip ==> Reported(acked, posts[i].0)
  }

  /** After some posts: all of them settled, except `skip`, which waits in flight. */
  ghost predicate Turned(w: World, posts: seq<(int, string)>, skip: nat, users: set<string>, k: PanelKind) {
    && w.dev.queue == [] && w.down == [] && w.up == []
    && w.dev.inFlight == (if |posts| > skip then [Sent(posts[skip])] else [])
    && ReportedBut(w.dev.acked, posts, skip)
    && w.panel.users == FoldSkipping(users, posts, skip, k)
  }

  /** A line posted to an empty queue is handed out by the next poll. */
  lemma PostAndAsk(w: World, p: (int, string), asked: World)
    requires w.dev.queue == [] && w.down == [] && |w.dev.inFlight| <= 1
    requires forall c :: c in w.dev.inFlight ==> c.sent == Some(0.0) && c.id != p.0
    requires asked == AskOf(PostTo(w, p.0, p.1, None, 0.0), 1, 0.0)
    ensures asked.dev.queue == [] && asked.dev.inFlight == w.dev.inFlight + [Sent(p)] && asked.dev.acked == w.dev.acked
    ensures asked.down == [Sent(p)] && asked.up == w.up && asked.panel == w.panel
  {
    var c := Sent(p).(sent := None);
    var d := PostTo(w, p.0, p.1, None, 0.0).dev;
    assert d.queue == [c];
    AloneInQueue(d, c);
    TimelyPoll(d, 1, 0.0);
    OneSent(c);
  }

  lemma AloneInQueue(d: Device, c: Command)
    requires d.queue == [c] && |d.inFlight| <= 1 && forall f :: f in d.inFlight ==> f.id != c.id
    ensures Separate(d) && Sort(d.queue) == [c]
  {
    assert [c][1..] == [];
    if d.inFlight != [] { assert d.inFlight[1..] == [] && d.inFlight[0] in d.inFlight; }
    SortOfOrdered([c]);
  }

  lemma OneSent(c: Command)
    ensures [c][..1] == [c] && [c][1..] == [] && Stamp([c][..1], 0.0) == [c.(sent := Some(0.0))]
  {
    StampIds([c], 0.0);
    assert [c][..1] == [c];
  }

  /** The panel executes the one line under way and its acknowledgement arrives. */
  function Complete(w: World, k: PanelKind): World {
    DeliverAt(ExecuteAt(w, 0, k), 0, k)
  }

  lemma WithoutLast(fs: seq<Command>, c: Command)
    requires |fs| <= 1 && (fs != [] ==> fs[0].id != c.id)
    ensures Without(fs + [c], c.id) == fs
  {
    var s := fs + [c];
    if fs != [] {
      assert s[1..] == [c] && [c][1..] == [];
    } else {
      assert s[1..] == [];
    }
  }

  lemma Completed(w: World, c: Command, fs: seq<Command>, k: PanelKind)
    requires w.down == [c] && w.up == [] && Answered(c.id, c.line, k)
    requires w.dev.inFlight == fs + [c] && |fs| <= 1 && forall f :: f in fs ==> f.id != c.id
    ensures var w' := Complete(w, k);
            && w'.dev.queue == w.dev.queue && w'.dev.inFlight == fs && w'.down == [] && w'.up == []
            && w'.dev.acked == w.dev.acked[c.id := k.reply(c.line).value.code]
            && w'.panel.users == ApplyEffect(w.panel.users, k.effect(c.line))
  {
    WithoutLast(fs, c);
  }

  /** One round as a step of the world. */
  function RoundOf(w: World, lost: bool, now: Time, k: PanelKind): World {
    var asked := AskOf(w, 1, now);
    if !lost then Complete(asked, k)
    else if |asked.down| == 0 then asked else asked.(down := RemoveAt(asked.down, 0))
  }

  lemma PlayRound(w: World, lost: bool, now: Time, k: PanelKind)
    ensures Play(w, At(Round(lost), now), k) == RoundOf(w, lost, now, k)
  {
    var ms := At(Round(lost), now);
    if lost {
      assert ms[..1] == [ms[0]] && ms[..1][..0] == [];
      assert Play(w, ms[..1], k) == AskOf(w, 1, now);
    } else {
      assert ms[..2][..1] == ms[..1] && ms[..1][..0] == [];
      assert Play(w, ms[..1], k) == AskOf(w, 1, now);
      assert Play(w, ms[..2], k) == ExecuteAt(AskOf(w, 1, now), 0, k);
    }
  }

  /** One more post: lost if its turn is `skip`, settled otherwise. */
  function TurnOf(w: World, p: (int, string), lost: bool, k: PanelKind): World {
    RoundOf(PostTo(w, p.0, p.1, None, 0.0), lost, 0.0, k)
  }

  lemma PlayTurn(w: World, p: (int, string), lost: bool, k: PanelKind)
    ensures Play(Play(w, [Posting(p)], k), At(Round(lost), 0.0), k) == TurnOf(w, p, lost, k)
  {
    var post := [Posting(p)];
    assert post[..0] == [];
    assert Play(w, post, k) == PostTo(w, p.0, p.1, None, 0.0);
    PlayRound(PostTo(w, p.0, p.1, None, 0.0), lost, 0.0, k);
  }

  lemma {:induction false} IdsOfMembers(posts: seq<(int, string)>)
    ensures forall i :: 0 <= i < |posts| ==> posts[i].0 in IdsOf(posts)
    ensures forall id :: id in IdsOf(posts) ==> exists i :: 0 <= i < |posts| && posts[i].0 == id
  {
    if posts != [] {
      var n := |posts| - 1;
      IdsOfMembers(posts[..n]);
      forall id | id in IdsOf(posts) ensures exists i :: 0 <= i < |posts| && posts[i].0 == id {
        if id == posts[n].0 {
          assert posts[n].0 == id;
        } else {
          var i :| 0 <= i < n && posts[..n][i].0 == id;
          assert posts[i].0 == id;
        }
      }
    }
  }

  lemma ReportedMore(acked: map<int, string>, posts: seq<(int, string)>, p: (int, string), skip: nat, code: string)
    requires ReportedBut(acked, posts, skip) && code != TIMED_OUT
    ensures ReportedBut(acked[p.0 := code], posts + [p], skip)
  {
    forall i | 0 <= i < |posts + [p]| && i != skip ensures Reported(acked[p.0 := code], (posts + [p])[i].0) {
      if i < |posts| { assert Reported(acked, posts[i].0); }
    }
  }

  lemma SkippingMore(users: set<string>, posts: seq<(int, string)>, p: (int, string), skip: nat, k: PanelKind)
    ensures var before := FoldSkipping(users, posts, skip, k);
            FoldSkipping(users, posts + [p], skip, k) ==
              if |posts| == skip then before else ApplyEffect(before, k.effect(p.1))
  {
    assert (posts + [p])[..|posts|] == posts;
  }

  lemma LosingTurn(w: World, posts: seq<(int, string)>, p: (int, string), users: set<string>, k: PanelKind)
    requires Turned(w, posts, |posts|, users, k)
    ensures Turned(TurnOf(w, p, true, k), posts + [p], |posts|, users, k)
  {
    PostAndAsk(w, p, AskOf(PostTo(w, p.0, p.1, None, 0.0), 1, 0.0));
    SkippingMore(users, posts, p, |posts|, k);
  }

  lemma SettledTurn(w: World, p: (int, string), k: PanelKind, w': World)
    requires w.dev.queue == [] && w.down == [] && w.up == [] && |w.dev.inFlight| <= 1
    requires forall c :: c in w.dev.inFlight ==> c.sent == Some(0.0) && c.id != p.0
    requires Answered(p.0, p.1, k) && w' == TurnOf(w, p, false, k)
    ensures w'.dev.queue == [] && w'.down == [] && w'.up == [] && w'.dev.inFlight == w.dev.inFlight
    ensures w'.dev.acked == w.dev.acked[p.0 := k.reply(p.1).value.code]
    ensures w'.panel.users == ApplyEffect(w.panel.users, k.effect(p.1))
  {
    var asked := AskOf(PostTo(w, p.0, p.1, None, 0.0), 1, 0.0);
    PostAndAsk(w, p, asked);
    Completed(asked, Sent(p), w.dev.inFlight, k);
  }

  /** The command of `skip`, if any is in flight, is not the one now posted. */
  lemma OthersInFlight(w: World, posts: seq<(int, string)>, p: (int, string), skip: nat, users: set<string>,
                       k: PanelKind)
    requires Turned(w, posts, skip, users, k) && p.0 !in IdsOf(posts)
    ensures |w.dev.inFlight| <= 1 && forall c :: c in w.dev.inFlight ==> c.sent == Some(0.0) && c.id != p.0
  {
    IdsOfMembers(posts);
  }

  lemma StaysTurned(w: World, posts: seq<(int, string)>, p: (int, string), skip: nat, users: set<string>, k: PanelKind,
                    w': World, next: seq<(int, string)>)
    requires Turned(w, posts, skip, users, k) && skip != |posts| && next == posts + [p]
    requires w'.dev.queue == [] && w'.down == [] && w'.up == [] && w'.dev.inFlight == w.dev.inFlight
    requires ReportedBut(w'.dev.acked, next, skip)
    requires w'.panel.users == FoldSkipping(users, next, skip, k)
    ensures Turned(w', next, skip, users, k)
  {
  }

  lemma SettlingTurn(w: World, posts: seq<(int, string)>, p: (int, string), skip: nat, users: set<string>, k: PanelKind,
                     w': World, next: seq<(int, string)>)
    requires Turned(w, posts, skip, users, k) && skip != |posts| && p.0 !in IdsOf(posts) && Answered(p.0, p.1, k)
    requires w' == TurnOf(w, p, false, k) && next == posts + [p]
    ensures Turned(w', next, skip, users, k)
  {
    OthersInFlight(w, posts, p, skip, users, k);
    SettledTurn(w, p, k, w');
    ReportedMore(w.dev.acked, posts, p, skip, k.reply(p.1).value.code);
    SkippingMore(users, posts, p, skip, k);
    StaysTurned(w, posts, p, skip, users, k, w', next);
  }

  lemma TurnKeeps(w: World, posts: seq<(int, string)>, p: (int, string), skip: nat, users: set<string>, k: PanelKind,
                  w': World, next: seq<(int, string)>)
    requires Turned(w, posts, skip, users, k) && p.0 !in IdsOf(posts) && Answered(p.0, p.1, k)
    requires w' == TurnOf(w, p, |posts| == skip, k) && next == posts + [p]
    ensures Turned(w', next, skip, users, k)
  {
    if |posts| == skip {
      LosingTurn(w, posts, p, users, k);
    } else {
      SettlingTurn(w, posts, p, skip, users, k, w', next);
    }
  }

  lemma PlayInTurn(posts: seq<(int, string)>, skip: nat, users: set<string>, k: PanelKind)
    requires posts != []
    ensures var n := |posts| - 1;
            Play(Start(users), InTurn(posts, skip), k) ==
              TurnOf(Play(Start(users), InTurn(posts[..n], skip), k), posts[n], n == skip, k)
  {
    var n := |posts| - 1;
    var before := InTurn(posts[..n], skip);
    PlayAppend(Start(users), before + [Posting(posts[n])], At(Round(n == skip), 0.0), k);
    PlayAppend(Start(users), before, [Posting(posts[n])], k);
    PlayTurn(Play(Start(users), before, k), posts[n], n == skip, k);
  }

  predicate AnsweredPosts(posts: seq<(int, string)>, k: PanelKind) {
    forall i :: 0 <= i < |posts| ==> Answered(posts[i].0, posts[i].1, k)
  }

  /** The world after turns taken one by one, whatever a turn is. */
  function Turns(w: World, posts: seq<(int, string)>, turn: (World, (int, string), nat) -> World): World {
    if posts == [] then w
    else
      var n := |posts| - 1;
      turn(Turns(w, posts[..n], turn), posts[n], n)
  }

  function TurnBy(skip: nat, k: PanelKind): (World, (int, string), nat) -> World {
    (w: World, p: (int, string), n: nat) => TurnOf(w, p, n == skip, k)
  }

  lemma {:induction false} PlayedInTurn(posts: seq<(int, string)>, skip: nat, users: set<string>, k: PanelKind)
    ensures Play(Start(users), InTurn(posts, skip), k) == Turns(Start(users), posts, TurnBy(skip, k))
  {
    if posts != [] {
      PlayedInTurn(posts[..|posts| - 1], skip, users, k);
      PlayInTurn(posts, skip, users, k);
    }
  }

  lemma {:induction false} FreshAt(posts: seq<(int, string)>, i: nat)
    requires FreshPosts(posts) && i < |posts|
    ensures posts[i].0 !in IdsOf(posts[..i])
  {
    var n := |posts| - 1;
    if i < n {
      assert posts[..n][..i] == posts[..i];
      FreshAt(posts[..n], i);
    }
  }

  lemma OneMorePost(posts: seq<(int, string)>, i: nat)
    requires i < |posts|
    ensures posts[..i + 1] == posts[..i] + [posts[i]]
  {
  }

  lemma TurnAt(w: World, posts: seq<(int, string)>, i: nat, skip: nat, users: set<string>, k: PanelKind, w': World)
    requires i < |posts| && FreshPosts(posts) && AnsweredPosts(posts, k) && Turned(w, posts[..i], skip, users, k)
    requires w' == TurnOf(w, posts[i], i == skip, k)
    ensures Turned(w', posts[..i + 1], skip, users, k)
  {
    FreshAt(posts, i);
    OneMorePost(posts, i);
    TurnKeeps(w, posts[..i], posts[i], skip, users, k, w', posts[..i + 1]);
  }

  /** What every turn keeps, all turns keep. */
  lemma {:induction false} TurnsKeep(w: World, posts: seq<(int, string)>, n: nat,
                                     turn: (World, (int, string), nat) -> World,
                                     keeps: (World, nat) -> bool)
    requires n <= |posts| && keeps(w, 0)
    requires forall m, i: nat :: i < n && keeps(m, i) ==> keeps(turn(m, posts[i], i), i + 1)
    ensures keeps(Turns(w, posts[..n], turn), n)
  {
    if n > 0 {
      TurnsKeep(w, posts, n - 1, turn, keeps);
      assert posts[..n][..n - 1] == posts[..n - 1];
    }
  }

  ghost function TurnedBy(posts: seq<(int, string)>, skip: nat, users: set<string>, k: PanelKind):
    (World, nat) -> bool
  {
    (w: World, i: nat) => i <= |posts| && Turned(w, posts[..i], skip, users, k)
  }

  lemma TurnByIs(skip: nat, k: PanelKind, turn: (World, (int, string), nat) -> World, w: World, p: (int, string),
                 i: nat)
    requires turn == TurnBy(skip, k)
    ensures turn(w, p, i) == TurnOf(w, p, i == skip, k)
  {
  }

  lemma TurnedByTurns(posts: seq<(int, string)>, skip: nat, users: set<string>, k: PanelKind,
                      turn: (World, (int, string), nat) -> World, keeps: (World, nat) -> bool)
    requires FreshPosts(posts) && AnsweredPosts(posts, k)
    requires turn == TurnBy(skip, k)
    requires forall w, i: nat :: keeps(w, i) <==> i <= |posts| && Turned(w, posts[..i], skip, users, k)
    ensures forall w, i: nat :: i < |posts| && keeps(w, i) ==> keeps(turn(w, posts[i], i), i + 1)
  {
    forall w, i: nat | i < |posts| && keeps(w, i) ensures keeps(turn(w, posts[i], i), i + 1) {
      var w' := turn(w, posts[i], i);
      TurnByIs(skip, k, turn, w, posts[i], i);
      TurnAt(w, posts, i, skip, users, k, w');
    }
  }

  lemma AllTurned(posts: seq<(int, string)>, skip: nat, users: set<string>, k: PanelKind)
    requires FreshPosts(posts) && AnsweredPosts(posts, k)
    ensures Turned(Play(Start(users), InTurn(posts, skip), k), posts, skip, users, k)
  {
    var turn, keeps := TurnBy(skip, k), TurnedBy(posts, skip, users, k);
    TurnedByTurns(posts, skip, users, k, turn, keeps);
    TurnsKeep(Start(users), posts, |posts|, turn, keeps);
    PlayedInTurn(posts, skip, users, k);
    assert posts[..|posts|] == posts;
  }

  /** Once ACK_TIMEOUT has passed, the lost command is retried, executed last and settled. */
  lemma RetryAsk(w: World, c: Command)
    requires w.dev.queue == [] && w.dev.inFlight == [c] && w.down == [] && w.up == []
    requires c.sent == Some(0.0) && c.enq == 0.0 && c.tries == 0
    ensures var asked := AskOf(w, 1, ACK_TIMEOUT);
            && asked.down == [c.(tries := 1, sent := Some(ACK_TIMEOUT))] && asked.up == []
            && asked.dev.acked == w.dev.acked && asked.panel == w.panel
  {
    RetryOne(w.dev, c, ACK_TIMEOUT);
  }

  lemma LateRetry(w: World, posts: seq<(int, string)>, skip: nat, users: set<string>, k: PanelKind)
    requires skip < |posts| && Turned(w, posts, skip, users, k) && AnsweredPosts(posts, k)
    ensures var w' := RoundOf(w, false, ACK_TIMEOUT, k);
            && (forall i :: 0 <= i < |posts| ==> Reported(w'.dev.acked, posts[i].0))
            && w'.panel.users == ApplyEffect(FoldSkipping(users, posts, skip, k), k.effect(posts[skip].1))
  {
    var c := Sent(posts[skip]);
    var asked := AskOf(w, 1, ACK_TIMEOUT);
    RetryAsk(w, c);
    AllReportedNow(w.dev.acked, posts, skip, k.reply(c.line).value.code, Complete(asked, k).dev.acked);
  }

  lemma AllReportedNow(acked: map<int, string>, posts: seq<(int, string)>, skip: nat, code: string,
                       acked': map<int, string>)
    requires skip < |posts| && ReportedBut(acked, posts, skip) && code != TIMED_OUT
    requires acked' == acked[posts[skip].0 := code]
    ensures forall i :: 0 <= i < |posts| ==> Reported(acked', posts[i].0)
  {
    forall i | 0 <= i < |posts| ensures Reported(acked', posts[i].0) {
      if i != skip { assert Reported(acked, posts[i].0); }
    }
  }

  lemma OneRetried(c: Command, now: Time, acked: map<int, string>)
    requires !Waiting(c, now) && !Exhausted(c, now)
    ensures Retried([c], now) == [c.(tries := c.tries + 1)] && Kept([c], now) == [] && GivenUp(acked, [c], now) == acked
  {
    assert [c][0] == c && [c][1..] == [];
    assert Retried([c][1..], now) == [] && Kept([c][1..], now) == [];
  }

  /** A poll that finds one overdue command with tries and time left hands it out again. */
  lemma RetryOne(d: Device, c: Command, now: Time)
    requires d.queue == [] && d.inFlight == [c] && !Waiting(c, now) && !Exhausted(c, now)
    ensures var again := c.(tries := c.tries + 1, sent := Some(now));
            Handed(d, 1, now) == [again] && Poll(d, 1, now) == Device([], [again], d.acked, d.users)
  {
    var again := c.(tries := c.tries + 1);
    OneRetried(c, now, d.acked);
    assert Reap(d, now) == Device([again], [], d.acked, d.users);
    SortOfOrdered([again]);
    assert [again][..1] == [again] && [again][1..] == [];
    StampIds([again], now);
    assert Stamp([again], now) == [again.(sent := Some(now))];
    PutAllFresh([], [again.(sent := Some(now))]);
  }

  // what the run leaves behind

  function CardOf(e: Effect): Option<string> {
    match e
    case Nothing => None
    case AddCard(c) => Some(c)
    case RemoveCard(c) => Some(c)
  }

  predicate Concerns(posts: seq<(int, string)>, i: nat, card: string, k: PanelKind)
    requires i < |posts|
  {
    CardOf(k.effect(posts[i].1)) == Some(card)
  }

  lemma FoldOneMoreOp(users: set<string>, before: seq<Effect>, line: string, card: string, k: PanelKind)
    ensures card in Fold(users, before + Op(line, k)) <==>
            if CardOf(k.effect(line)) == Some(card) then k.effect(line).AddCard? else card in Fold(users, before)
  {
    FoldAppend(users, before, Op(line, k));
    FoldOp(Fold(users, before), line, k);
  }

  /** The last operation on a card decides. */
  lemma {:induction false} LastOpDecides(users: set<string>, posts: seq<(int, string)>, i: nat, card: string,
                                         k: PanelKind)
    returns (j: nat)
    requires i < |posts| && Concerns(posts, i, card, k)
    ensures j < |posts| && Concerns(posts, j, card, k)
    ensures card in Fold(users, CardOps(posts, k)) <==> k.effect(posts[j].1).AddCard?
  {
    var n := |posts| - 1;
    FoldOneMoreOp(users, CardOps(posts[..n], k), posts[n].1, card, k);
    if Concerns(posts, n, card, k) {
      j := n;
    } else {
      assert posts[..n][i] == posts[i];
      j := LastOpDecides(users, posts[..n], i, card, k);
    }
  }

  lemma {:induction false} CardOpsMembers(posts: seq<(int, string)>, k: PanelKind)
    ensures forall e :: e in CardOps(posts, k) ==> exists i :: 0 <= i < |posts| && k.effect(posts[i].1) == e
  {
    if posts != [] {
      var n := |posts| - 1;
      CardOpsMembers(posts[..n], k);
      forall e | e in CardOps(posts, k) ensures exists i :: 0 <= i < |posts| && k.effect(posts[i].1) == e {
        if e in CardOps(posts[..n], k) {
          var i :| 0 <= i < n && k.effect(posts[..n][i].1) == e;
          assert k.effect(posts[i].1) == e;
        } else {
          assert k.effect(posts[n].1) == e;
        }
      }
    }
  }

  lemma {:induction false} UnderstoodAnswered(posts: seq<(int, string)>, k: PanelKind)
    requires UnderstoodPosts(posts, k)
    ensures AnsweredPosts(posts, k)
  {
    if posts != [] { UnderstoodAnswered(posts[..|posts| - 1], k); }
  }

  lemma BadRunOutcome(posts: seq<(int, string)>, skip: nat, users: set<string>, k: PanelKind)
    requires skip < |posts| && FreshPosts(posts) && UnderstoodPosts(posts, k)
    ensures var ms := BadRun(posts, skip);
            && Proper(ms, k) && PostedAs(ms) == posts
            && AllReported(Play(Start(users), ms, k), PostedLines(ms))
            && Play(Start(users), ms, k).panel.users ==
                 ApplyEffect(FoldSkipping(users, posts, skip, k), k.effect(posts[skip].1))
  {
    var turns, ms := InTurn(posts, skip), BadRun(posts, skip);
    var w := Play(Start(users), turns, k);
    InTurnOrderly(posts, skip, k, turns);
    RoundQuiet(false);
    AppendQuiet(turns, Round(false), ACK_TIMEOUT, ms);
    OrderlyIsProper(ms, k);
    UnderstoodAnswered(posts, k);
    AllTurned(posts, skip, users, k);
    PlayAppend(Start(users), turns, At(Round(false), ACK_TIMEOUT), k);
    PlayRound(w, false, ACK_TIMEOUT, k);
    LateRetry(w, posts, skip, users, k);
    PostedAreOps(ms, k);
    IdsOfMembers(posts);
  }

  /** With a card both added and removed, some run in which the device reports every command leaves
      the panel with a table the server never meant. */
  lemma ConflictBreaks(posts: seq<(int, string)>, users: set<string>, k: PanelKind) returns (ms: seq<Move>)
    requires FreshPosts(posts) && UnderstoodPosts(posts, k) && !NoConflict(CardOps(posts, k))
    ensures Proper(ms, k) && PostedAs(ms) == posts
    ensures AllReported(Play(Start(users), ms, k), PostedLines(ms))
    ensures Play(Start(users), ms, k).panel.users != Fold(users, CardOps(posts, k))
  {
    AddedRemovedMembers(CardOps(posts, k));
    CardOpsMembers(posts, k);
    var card :| card in Added(CardOps(posts, k)) && card in Removed(CardOps(posts, k));
    var p :| 0 <= p < |posts| && k.effect(posts[p].1) == AddCard(card);
    var r :| 0 <= r < |posts| && k.effect(posts[r].1) == RemoveCard(card);
    var j := LastOpDecides(users, posts, p, card, k);
    var skip := if k.effect(posts[j].1).AddCard? then r else p;
    ms := BadRun(posts, skip);
    BadRunOutcome(posts, skip, users, k);
    assert card in Play(Start(users), ms, k).panel.users <==> k.effect(posts[skip].1).AddCard?;
  }

  /** However the link behaves, the panel ends with the table that was meant. */
  ghost predicate AlwaysAgrees(posts: seq<(int, string)>, users: set<string>, k: PanelKind) {
    forall ms :: Proper(ms, k) && PostedAs(ms) == posts && AllReported(Play(Start(users), ms, k), PostedLines(ms))
      ==> Play(Start(users), ms, k).panel.users == Fold(users, CardOps(posts, k))
  }

  /** For any commands, card writes and door openings mixed, under any ids: over a lossy link full
      acknowledgement guarantees the intended table exactly when no card is both added and removed. */
  lemma LossyAgreementExactly(posts: seq<(int, string)>, users: set<string>, k: PanelKind)
    requires FreshPosts(posts) && UnderstoodPosts(posts, k)
    ensures AlwaysAgrees(posts, users, k) <==> NoConflict(CardOps(posts, k))
  {
    if NoConflict(CardOps(posts, k)) {
      forall ms | Proper(ms, k) && PostedAs(ms) == posts && AllReported(Play(Start(users), ms, k), PostedLines(ms))
        ensures Play(Start(users), ms, k).panel.users == Fold(users, CardOps(posts, k))
      {
        PostedAreOps(ms, k);
        LossyAgreement(users, ms, k);
      }
    } else {
      var ms := ConflictBreaks(posts, users, k);
    }
  }
}
