/** The life of a command in terms of the events of a run alone: when it was submitted, when it was
    last handed out and how often, and what the next poll therefore does with it. */
module QueueLaws {
  import opened Basics
  import PyText
  import opened Wire
  import opened CommandQueue
  import Liveness

  // ---- one poll, one command in flight ----

  lemma {:induction false} WhereItGoes(fs: seq<Command>, c: Command, sent: Time, now: Time)
    requires c in fs && c.sent == Some(sent)
    ensures if now - sent < 4.0 then c in Kept(fs, now)
            else now - c.enq <= 60.0 && c.tries < 5 ==> c.(tries := c.tries + 1) in Retried(fs, now)
  {
    if c != fs[0] {
      assert fs == [fs[0]] + fs[1..] && c in fs[1..];
      WhereItGoes(fs[1..], c, sent, now);
    }
  }

  lemma {:induction false} WhereItDoesNot(fs: seq<Command>, c: Command, sent: Time, now: Time)
    requires Distinct(fs) && c in fs && c.sent == Some(sent)
    ensures now - sent >= 4.0 ==> c.id !in IdSet(Kept(fs, now))
    ensures now - sent < 4.0 || now - c.enq > 60.0 || c.tries >= 5 ==> c.id !in IdSet(Retried(fs, now))
  {
    ReapIds(fs[1..], now);
    IdSetMembers(fs[1..]);
    if c != fs[0] {
      assert fs == [fs[0]] + fs[1..] && c in fs[1..];
      WhereItDoesNot(fs[1..], c, sent, now);
    }
  }

  lemma {:induction false} GivenUpFate(fs: seq<Command>, acked: map<int, string>, c: Command, sent: Time, now: Time)
    requires Distinct(fs) && c in fs && c.sent == Some(sent)
    ensures c.id in GivenUp(acked, fs, now) <==>
            c.id in acked || (now - sent >= 4.0 && (now - c.enq > 60.0 || c.tries >= 5))
    decreases fs
  {
    var f := fs[0];
    var next := if !Waiting(f, now) && Exhausted(f, now) && f.id !in acked then acked[f.id := TIMED_OUT] else acked;
    IdSetMembers(fs[1..]);
    if c == f {
      OthersGivenUp(next, fs[1..], now, c.id);
    } else {
      assert fs == [f] + fs[1..] && c in fs[1..];
      GivenUpFate(fs[1..], next, c, sent, now);
    }
  }

  lemma {:induction false} OthersGivenUp(acked: map<int, string>, fs: seq<Command>, now: Time, id: int)
    requires id !in IdSet(fs)
    ensures id in GivenUp(acked, fs, now) <==> id in acked
    decreases fs
  {
    if fs != [] {
      var c := fs[0];
      var next := if !Waiting(c, now) && Exhausted(c, now) && c.id !in acked then acked[c.id := TIMED_OUT] else acked;
      OthersGivenUp(next, fs[1..], now, id);
    }
  }

  /** Whoever a poll gives up on is acknowledged as "-1", unless an acknowledgement is there already;
      none is lost or changed. */
  lemma {:induction false} GiveUpCodes(acked: map<int, string>, fs: seq<Command>, now: Time)
    ensures forall id :: id in acked ==> id in GivenUp(acked, fs, now)
    ensures forall id :: id in GivenUp(acked, fs, now) ==>
              GivenUp(acked, fs, now)[id] == if id in acked then acked[id] else "-1"
    decreases fs
  {
    if fs != [] {
      var c := fs[0];
      var next := if !Waiting(c, now) && Exhausted(c, now) && c.id !in acked then acked[c.id := TIMED_OUT] else acked;
      GiveUpCodes(next, fs[1..], now);
    }
  }

  /** The acknowledgement of an id, if there is one. */
  function CodeOf(acked: map<int, string>, id: int): Option<string> {
    if id in acked then Some(acked[id]) else None
  }

  /** A command handed out less than four seconds ago stays in flight. Past that, if it is more than
      sixty seconds old or has been retried five times, it is acknowledged, as "-1" if nothing is known
      of it, and leaves both tables; otherwise it is queued with one more try, behind all that waits. */
  lemma ReapFate(d: Device, c: Command, sent: Time, now: Time)
    requires Separate(d) && c in d.inFlight && c.sent == Some(sent)
    ensures d.queue <= Reap(d, now).queue
    ensures var r := Reap(d, now);
            if now - sent < 4.0 then
              c in r.inFlight && c.id !in IdSet(r.queue) && CodeOf(r.acked, c.id) == CodeOf(d.acked, c.id)
            else if now - c.enq > 60.0 || c.tries >= 5 then
              && c.id !in IdSet(r.queue) + IdSet(r.inFlight)
              && CodeOf(r.acked, c.id) == Some(CodeOf(d.acked, c.id).GetOr("-1"))
            else
              && c.(tries := c.tries + 1) in r.queue && c.id !in IdSet(r.inFlight)
              && CodeOf(r.acked, c.id) == CodeOf(d.acked, c.id)
  {
    WhereItGoes(d.inFlight, c, sent, now);
    WhereItDoesNot(d.inFlight, c, sent, now);
    GivenUpFate(d.inFlight, d.acked, c, sent, now);
    GiveUpCodes(d.acked, d.inFlight, now);
    IdSetAppend(d.queue, Retried(d.inFlight, now));
    IdSetMembers(d.inFlight);
    IdSetMembers(d.queue);
  }

  /** A poll hands out `batch` commands, at least one, or everything that waits if that is less. */
  lemma PollBatch(d: Device, batch: int, now: Time)
    ensures var handed, left := |Handed(d, batch, now)|, |Poll(d, batch, now).queue|;
            if batch <= 1 then handed == Min(1, handed + left) else handed == Min(batch, handed + left)
  {
    var q := Sort(Reap(d, now).queue);
    StampIds(q[..BatchSize(batch, q)], now);
  }

  /** May go no later than: of higher priority, or of the same and no younger. */
  predicate Precedes(a: Command, b: Command) {
    a.prio > b.prio || (a.prio == b.prio && a.enq <= b.enq)
  }

  predicate InTurn(cs: seq<Command>) {
    forall i, j :: 0 <= i < j < |cs| ==> Precedes(cs[i], cs[j])
  }

  lemma SortedInTurn(q: seq<Command>)
    ensures InTurn(Sort(q))
  {
    SortOrdered(q);
    var s := Sort(q);
    forall i, j | 0 <= i < j < |s| ensures Precedes(s[i], s[j]) {
      assert Before(s[i], s[j]);
    }
  }

  lemma SplitInTurn(q: seq<Command>, n: nat, now: Time)
    requires n <= |q| && InTurn(q)
    ensures InTurn(Stamp(q[..n], now) + q[n..])
  {
    StampIds(q[..n], now);
  }

  /** Higher priority goes first, and age within a priority: among the commands handed out, between
      these and the ones left, and among the ones left. */
  lemma HandedInTurn(d: Device, batch: int, now: Time)
    ensures InTurn(Handed(d, batch, now) + Poll(d, batch, now).queue)
  {
    var q := Sort(Reap(d, now).queue);
    SortedInTurn(Reap(d, now).queue);
    SplitInTurn(q, BatchSize(batch, q), now);
  }

  /** A report takes its command out of flight, records its code over any other and moves the card
      table; it leaves the queue alone, a copy of the command included. One without an id does nothing. */
  lemma ReportFate(d: Device, id: int, code: string, effect: Effect)
    requires Distinct(d.inFlight)
    ensures var r := Ack(d, id, code, effect);
            if id == 0 then r == d
            else
              && r.queue == d.queue && r.acked == d.acked[id := code] && r.users == ApplyEffect(d.users, effect)
              && forall c :: c in r.inFlight <==> c in d.inFlight && c.id != id
  {
    OnlyOneTaken(d.inFlight, id);
  }

  lemma {:induction false} OnlyOneTaken(fs: seq<Command>, id: int)
    requires Distinct(fs)
    ensures forall c :: c in Without(fs, id) <==> c in fs && c.id != id
  {
    if fs != [] {
      assert fs == [fs[0]] + fs[1..];
      IdSetMembers(fs[1..]);
      if fs[0].id != id { OnlyOneTaken(fs[1..], id); }
    }
  }

  // ---- what a run says about a command ----

  /** The event that submitted a command. */
  function Submission(es: seq<Event>, id: int): Option<Event> {
    if es == [] then None
    else
      var e := es[|es| - 1];
      if e.step.Submit? && e.step.id == id then Some(e) else Submission(es[..|es| - 1], id)
  }

  /** When a poll last handed a command out. */
  function LastHandedAt(es: seq<Event>, id: int): Option<Time> {
    if es == [] then None
    else
      var before := es[..|es| - 1];
      var e := es[|es| - 1];
      if CountId(HandedBy(Run(EMPTY_DEVICE, before), e), id) > 0 then Some(e.at) else LastHandedAt(before, id)
  }

  /** A command stands as it was submitted. */
  predicate Documented(c: Command, es: seq<Event>) {
    var s := Submission(es, c.id);
    && s.Some? && s.value.step.Submit?
    && c.line == s.value.step.line && c.enq == s.value.at
    && c.prio == (match s.value.step.priority
                  case Some(p) => p
                  case None => if PyText.Contains(c.line, "CONTROL DEVICE") then 10 else 0)
  }

  predicate AllDocumented(cs: seq<Command>, es: seq<Event>) {
    forall c :: c in cs ==> Documented(c, es)
  }

  ghost predicate SentOnBooks(fs: seq<Command>, es: seq<Event>) {
    forall c :: c in fs ==> c.sent == LastHandedAt(es, c.id) && c.sent.Some?
  }

  lemma {:induction false} ReapDocumented(fs: seq<Command>, now: Time, es: seq<Event>)
    requires AllDocumented(fs, es)
    ensures AllDocumented(Kept(fs, now), es) && AllDocumented(Retried(fs, now), es)
    ensures forall c :: c in Kept(fs, now) ==> c in fs
  {
    if fs != [] {
      assert fs[0] in fs && forall c :: c in fs[1..] ==> c in fs;
      ReapDocumented(fs[1..], now, es);
    }
  }

  lemma SameSubmissions(es: seq<Event>, e: Event, cs: seq<Command>)
    requires AllDocumented(cs, es) && (e.step.Submit? ==> e.step.id !in IdSet(cs))
    ensures AllDocumented(cs, es + [e])
  {
    assert (es + [e])[..|es|] == es;
    IdSetMembers(cs);
  }

  lemma NewDocumented(es: seq<Event>, e: Event)
    requires e.step.Submit?
    ensures var prio := PriorityOf(e.step.line, e.step.priority);
            Documented(Command(e.step.id, e.step.line, e.at, 0, prio, None), es + [e])
  {
    assert (es + [e])[..|es|] == es;
  }

  lemma StampedDocumented(cs: seq<Command>, now: Time, es: seq<Event>)
    requires AllDocumented(cs, es)
    ensures AllDocumented(Stamp(cs, now), es)
  {
    StampIds(cs, now);
    forall c | c in Stamp(cs, now) ensures Documented(c, es) {
      var i :| 0 <= i < |cs| && c == Stamp(cs, now)[i];
      assert cs[i] in cs;
    }
  }

  lemma PartsDocumented(q: seq<Command>, n: nat, r: seq<Command>, now: Time, es: seq<Event>)
    requires n <= |q| && AllDocumented(r, es) && forall c :: c in q ==> c in r
    ensures AllDocumented(q[n..], es) && AllDocumented(Stamp(q[..n], now), es)
  {
    forall c | c in q[..n] || c in q[n..] ensures Documented(c, es) {
      assert c in q;
    }
    StampedDocumented(q[..n], now, es);
  }

  lemma JoinedDocumented(a: seq<Command>, b: seq<Command>, es: seq<Event>)
    requires AllDocumented(a, es) && AllDocumented(b, es)
    ensures AllDocumented(a + b, es)
  {
  }

  lemma PollDocumented(d: Device, batch: int, now: Time, es: seq<Event>)
    requires Separate(d) && AllDocumented(d.queue, es) && AllDocumented(d.inFlight, es)
    ensures AllDocumented(Poll(d, batch, now).queue, es) && AllDocumented(Poll(d, batch, now).inFlight, es)
  {
    var r := Reap(d, now);
    var q := Sort(r.queue);
    var n := BatchSize(batch, q);
    ReapDocumented(d.inFlight, now, es);
    JoinedDocumented(d.queue, Retried(d.inFlight, now), es);
    PollShape(d, batch, now);
    Liveness.SortMembers(r.queue);
    PartsDocumented(q, n, r.queue, now, es);
    JoinedDocumented(r.inFlight, Stamp(q[..n], now), es);
  }

  /** What a poll leaves in flight: commands handed out now, and commands kept from before. */
  lemma PollInFlight(d: Device, batch: int, now: Time)
    requires Separate(d)
    ensures forall c :: c in Poll(d, batch, now).inFlight ==>
              (c in Handed(d, batch, now) && c.sent == Some(now)) ||
              (c in d.inFlight && c.id !in IdSet(Handed(d, batch, now)))
  {
    var r := Reap(d, now);
    var q := Sort(r.queue);
    var n := BatchSize(batch, q);
    PollShape(d, batch, now);
    ReapSeparate(d, now);
    StampIds(q[..n], now);
    IdSetMembers(r.inFlight);
    KeptMembers(d.inFlight, now);
  }

  lemma {:induction false} KeptMembers(fs: seq<Command>, now: Time)
    ensures forall c :: c in Kept(fs, now) ==> c in fs
  {
    if fs != [] { KeptMembers(fs[1..], now); }
  }

  lemma HandedAtLast(es: seq<Event>, e: Event, id: int)
    ensures LastHandedAt(es + [e], id) ==
            if id in IdSet(HandedBy(Run(EMPTY_DEVICE, es), e)) then Some(e.at) else LastHandedAt(es, id)
  {
    assert (es + [e])[..|es|] == es;
    CountMeansMember(HandedBy(Run(EMPTY_DEVICE, es), e), id);
  }

  lemma {:induction false} CountMeansMember(s: seq<Command>, id: int)
    ensures CountId(s, id) > 0 <==> id in IdSet(s)
  {
    if s != [] { CountMeansMember(s[1..], id); }
  }

  /** The books of one command are right: as submitted, and sent when last handed out. */
  ghost predicate RightBooks(d: Device, es: seq<Event>) {
    AllDocumented(d.queue, es) && AllDocumented(d.inFlight, es) && SentOnBooks(d.inFlight, es)
  }

  lemma BooksSubmit(d: Device, es: seq<Event>, e: Event)
    requires RightBooks(d, es) && Separate(d) && e.step.Submit? && d == Run(EMPTY_DEVICE, es)
    requires e.step.id !in IdSet(d.queue) + IdSet(d.inFlight)
    ensures RightBooks(Apply(d, e), es + [e])
  {
    SameSubmissions(es, e, d.queue);
    SameSubmissions(es, e, d.inFlight);
    NewDocumented(es, e);
    forall c | c in d.inFlight ensures LastHandedAt(es + [e], c.id) == LastHandedAt(es, c.id) {
      HandedAtLast(es, e, c.id);
    }
  }

  lemma BooksServe(d: Device, es: seq<Event>, e: Event)
    requires RightBooks(d, es) && Separate(d) && e.step.Serve? && d == Run(EMPTY_DEVICE, es)
    ensures RightBooks(Apply(d, e), es + [e])
  {
    var d' := Apply(d, e);
    PollDocumented(d, e.step.batch, e.at, es);
    SameSubmissions(es, e, d'.queue);
    SameSubmissions(es, e, d'.inFlight);
    PollInFlight(d, e.step.batch, e.at);
    IdSetMembers(Handed(d, e.step.batch, e.at));
    forall c | c in d'.inFlight ensures c.sent == LastHandedAt(es + [e], c.id) && c.sent.Some? {
      HandedAtLast(es, e, c.id);
    }
  }

  lemma BooksReport(d: Device, es: seq<Event>, e: Event)
    requires RightBooks(d, es) && Separate(d) && e.step.Report? && d == Run(EMPTY_DEVICE, es)
    ensures RightBooks(Apply(d, e), es + [e])
  {
    var d' := Apply(d, e);
    WithoutIds(d.inFlight, e.step.id);
    SameSubmissions(es, e, d'.queue);
    SameSubmissions(es, e, d'.inFlight);
    forall c | c in d'.inFlight ensures LastHandedAt(es + [e], c.id) == LastHandedAt(es, c.id) {
      HandedAtLast(es, e, c.id);
    }
  }

  /** Over every run: every queued or in-flight command stands as submitted, at the priority given or
      else that of its line, and an in-flight one carries the time of its last hand-out. */
  lemma {:induction false} AlwaysRightBooks(es: seq<Event>)
    requires FreshIds(es)
    ensures RightBooks(Run(EMPTY_DEVICE, es), es)
  {
    if es != [] {
      var before := es[..|es| - 1];
      var e := es[|es| - 1];
      var d := Run(EMPTY_DEVICE, before);
      AlwaysRightBooks(before);
      EveryRunAccounted(before);
      assert before + [e] == es;
      match e.step
      case Submit(_, _, _) => BooksSubmit(d, before, e);
      case Serve(_) => BooksServe(d, before, e);
      case Report(_, _, _) => BooksReport(d, before, e);
    }
  }

  // ---- what the next poll does ----

  lemma QueuedOrHanded(d: Device, batch: int, now: Time)
    requires Separate(d)
    ensures var r, d' := Reap(d, now), Poll(d, batch, now);
            && IdSet(d'.queue) + IdSet(Handed(d, batch, now)) == IdSet(r.queue)
            && IdSet(d'.inFlight) == IdSet(r.inFlight) + IdSet(Handed(d, batch, now))
            && IdSet(d'.queue) !! IdSet(Handed(d, batch, now))
            && IdSet(r.queue) !! IdSet(r.inFlight) && d'.acked == r.acked
  {
    var r := Reap(d, now);
    var q := Sort(r.queue);
    var n := BatchSize(batch, q);
    PollShape(d, batch, now);
    ReapSeparate(d, now);
    StampIds(q[..n], now);
    IdSetAppend(r.inFlight, Stamp(q[..n], now));
  }

  /** Over every run, for a command in flight: a poll less than four seconds after its last hand-out
      leaves it in flight; a later one, if the command was submitted more than sixty seconds ago or
      has been handed out six times, gives it up; and otherwise, and only then, puts it back to be
      handed out again, at once or later. */
  lemma PollFate(es: seq<Event>, e: Event, id: int)
    requires FreshIds(es) && e.step.Serve? && id in IdSet(Run(EMPTY_DEVICE, es).inFlight)
    ensures var d, d' := Run(EMPTY_DEVICE, es), Run(EMPTY_DEVICE, es + [e]);
            var n, handed := HandOuts(EMPTY_DEVICE, es, id), id in IdSet(HandedBy(d, e));
            && Submission(es, id).Some? && LastHandedAt(es, id).Some?
            && var waited, age := e.at - LastHandedAt(es, id).value, e.at - Submission(es, id).value.at;
               if waited < 4.0 then
                 && id in IdSet(d'.inFlight) && id !in IdSet(d'.queue) && !handed
                 && CodeOf(d'.acked, id) == CodeOf(d.acked, id)
               else if age > 60.0 || n >= 6 then
                 && id !in IdSet(d'.queue) + IdSet(d'.inFlight) && !handed
                 && CodeOf(d'.acked, id) == Some(CodeOf(d.acked, id).GetOr("-1"))
               else
                 && (if handed then id in IdSet(d'.inFlight) else id in IdSet(d'.queue))
                 && CodeOf(d'.acked, id) == CodeOf(d.acked, id)
  {
    var d := Run(EMPTY_DEVICE, es);
    AlwaysRightBooks(es);
    EveryRunAccounted(es);
    IdSetMembers(d.inFlight);
    var c :| c in d.inFlight && c.id == id;
    assert (es + [e])[..|es|] == es;
    FateOfPolled(d, c, c.sent.value, e.step.batch, e.at);
  }

  lemma FateOfPolled(d: Device, c: Command, sent: Time, batch: int, now: Time)
    requires Separate(d) && c in d.inFlight && c.sent == Some(sent)
    ensures var d', handed := Poll(d, batch, now), c.id in IdSet(Handed(d, batch, now));
            if now - sent < 4.0 then
              && c.id in IdSet(d'.inFlight) && c.id !in IdSet(d'.queue) && !handed
              && CodeOf(d'.acked, c.id) == CodeOf(d.acked, c.id)
            else if now - c.enq > 60.0 || c.tries >= 5 then
              && c.id !in IdSet(d'.queue) + IdSet(d'.inFlight) && !handed
              && CodeOf(d'.acked, c.id) == Some(CodeOf(d.acked, c.id).GetOr("-1"))
            else
              && (if handed then c.id in IdSet(d'.inFlight) else c.id in IdSet(d'.queue))
              && CodeOf(d'.acked, c.id) == CodeOf(d.acked, c.id)
  {
    ReapFate(d, c, sent, now);
    QueuedOrHanded(d, batch, now);
    IdSetMembers(Reap(d, now).queue);
    IdSetMembers(Reap(d, now).inFlight);
  }

  /** No poll puts a command back later than sixty seconds after it was submitted. */
  lemma NoneRetriedLate(es: seq<Event>, e: Event, id: int)
    requires FreshIds(es) && e.step.Serve? && id in IdSet(Run(EMPTY_DEVICE, es).inFlight)
    requires id in IdSet(Run(EMPTY_DEVICE, es + [e]).queue) + IdSet(HandedBy(Run(EMPTY_DEVICE, es), e))
    ensures Submission(es, id).Some? && e.at - Submission(es, id).value.at <= 60.0
  {
    PollFate(es, e, id);
  }
}
