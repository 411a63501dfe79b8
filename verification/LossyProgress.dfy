/** Progress over the lossy link: how many losses the retries make good. Full acknowledgement, which
    the agreement theorems start from, is derived here from a bound on the losses. */
module LossyProgress {
  import opened Basics
  import opened Wire
  import opened CommandQueue
  import opened Liveness
  import opened PanelLink
  import opened LossyLink

  // ---- what a run on the link is for the server alone ----

  /** The event a move is for the server's command queue, if it is one. */
  function EventOf(w: World, m: Move, k: PanelKind): Option<Event> {
    match m.act
    case Post(id, line, priority) => Some(Event(m.at, Submit(id, line, priority)))
    case Ask(batch) => Some(Event(m.at, Serve(batch)))
    case Deliver(i) =>
      if i >= |w.up| then None
      else
        var r := k.reply(w.up[i].line).GetOr(Reply(0, "", Nothing));
        Some(Event(m.at, Report(r.id, r.code, r.effect)))
    case _ => None
  }

  function Listed(e: Option<Event>): seq<Event> {
    if e.Some? then [e.value] else []
  }

  function Trace(users: set<string>, ms: seq<Move>, k: PanelKind): seq<Event> {
    if ms == [] then []
    else
      var before := ms[..|ms| - 1];
      Trace(users, before, k) + Listed(EventOf(Play(Start(users), before, k), ms[|ms| - 1], k))
  }

  /** Equal up to the card mirror. */
  predicate SameBooks(a: Device, b: Device) {
    a.queue == b.queue && a.inFlight == b.inFlight && a.acked == b.acked
  }

  function ApplyIf(d: Device, e: Option<Event>): Device {
    if e.Some? then Apply(d, e.value) else d
  }

  lemma StepSame(w: World, m: Move, k: PanelKind, d: Device)
    requires SameBooks(w.dev, d)
    ensures SameBooks(Next(w, m, k).dev, ApplyIf(d, EventOf(w, m, k)))
  {
  }

  lemma RunIf(es: seq<Event>, e: Option<Event>)
    ensures Run(EMPTY_DEVICE, es + Listed(e)) == ApplyIf(Run(EMPTY_DEVICE, es), e)
  {
    if e.Some? {
      assert (es + [e.value])[..|es|] == es;
    } else {
      assert es + Listed(e) == es;
    }
  }

  lemma {:induction false} TraceSame(users: set<string>, ms: seq<Move>, k: PanelKind)
    ensures SameBooks(Play(Start(users), ms, k).dev, Run(EMPTY_DEVICE, Trace(users, ms, k)))
  {
    if ms != [] {
      var before := ms[..|ms| - 1];
      var w := Play(Start(users), before, k);
      TraceSame(users, before, k);
      StepSame(w, ms[|ms| - 1], k, Run(EMPTY_DEVICE, Trace(users, before, k)));
      RunIf(Trace(users, before, k), EventOf(w, ms[|ms| - 1], k));
    }
  }

  lemma SubmittedIf(es: seq<Event>, e: Option<Event>)
    ensures SubmittedIds(es + Listed(e)) ==
            SubmittedIds(es) + (if e.Some? && e.value.step.Submit? then {e.value.step.id} else {})
    ensures FreshIds(es + Listed(e)) <==>
            FreshIds(es) && (e.Some? && e.value.step.Submit? ==> e.value.step.id !in SubmittedIds(es))
  {
    if e.Some? {
      assert (es + [e.value])[..|es|] == es;
    } else {
      assert es + Listed(e) == es;
    }
  }

  lemma IdsIf(w: World, m: Move, k: PanelKind, es: seq<Event>, ids: set<int>)
    requires FreshIds(es) && SubmittedIds(es) == ids && (m.act.Post? ==> m.act.id !in ids)
    ensures var es' := es + Listed(EventOf(w, m, k));
            FreshIds(es') && SubmittedIds(es') == ids + (if m.act.Post? then {m.act.id} else {})
  {
    SubmittedIf(es, EventOf(w, m, k));
  }

  lemma {:induction false} TraceIds(users: set<string>, ms: seq<Move>, k: PanelKind)
    requires Proper(ms, k)
    ensures SubmittedIds(Trace(users, ms, k)) == PostedLines(ms).Keys && FreshIds(Trace(users, ms, k))
  {
    if ms != [] {
      var before := ms[..|ms| - 1];
      TraceIds(users, before, k);
      IdsIf(Play(Start(users), before, k), ms[|ms| - 1], k, Trace(users, before, k), PostedLines(before).Keys);
    }
  }

  // ---- every hand-out is lost, under way or told ----

  /** A line or an acknowledgement of the command is lost. */
  function LostBy(w: World, m: Move, id: int): nat {
    match m.act
    case DropLine(i) => if i < |w.down| && w.down[i].id == id then 1 else 0
    case DropAck(i) => if i < |w.up| && w.up[i].id == id then 1 else 0
    case _ => 0
  }

  /** An acknowledgement of the command reaches the server. */
  function ToldBy(w: World, m: Move, id: int): nat {
    match m.act
    case Deliver(i) => if i < |w.up| && w.up[i].id == id then 1 else 0
    case _ => 0
  }

  /** How many lines and acknowledgements of a command a run loses. */
  function Losses(users: set<string>, ms: seq<Move>, k: PanelKind, id: int): nat {
    if ms == [] then 0
    else
      var before := ms[..|ms| - 1];
      Losses(users, before, k, id) + LostBy(Play(Start(users), before, k), ms[|ms| - 1], id)
  }

  function Told(users: set<string>, ms: seq<Move>, k: PanelKind, id: int): nat {
    if ms == [] then 0
    else
      var before := ms[..|ms| - 1];
      Told(users, before, k, id) + ToldBy(Play(Start(users), before, k), ms[|ms| - 1], id)
  }

  function SentBy(w: World, m: Move, id: int): nat {
    match m.act
    case Ask(batch) => CountId(Handed(w.dev, batch, m.at), id)
    case _ => 0
  }

  lemma {:induction false} CountAppend(a: seq<Command>, b: seq<Command>, id: int)
    ensures CountId(a + b, id) == CountId(a, id) + CountId(b, id)
  {
    if a == [] {
      assert a + b == b;
    } else {
      assert (a + b)[1..] == a[1..] + b;
      CountAppend(a[1..], b, id);
    }
  }

  lemma CountRemoved(s: seq<Command>, i: nat, id: int)
    requires i < |s|
    ensures CountId(s, id) == CountId(RemoveAt(s, i), id) + if s[i].id == id then 1 else 0
  {
    assert s == s[..i] + ([s[i]] + s[i + 1..]);
    CountAppend(s[..i], [s[i]] + s[i + 1..], id);
    CountAppend([s[i]], s[i + 1..], id);
    CountAppend(s[..i], s[i + 1..], id);
    CountSingle(s[i], id);
  }

  lemma CountSingle(c: Command, id: int)
    ensures CountId([c], id) == if c.id == id then 1 else 0
  {
    assert [c][1..] == [];
  }

  function UnderWay(w: World, id: int): nat {
    CountId(w.down, id) + CountId(w.up, id)
  }

  predicate AllReplied(s: seq<Command>, k: PanelKind) {
    forall c :: c in s ==> k.reply(c.line).Some?
  }

  lemma StepBalance(w: World, m: Move, k: PanelKind, id: int)
    requires AllReplied(w.down, k)
    ensures UnderWay(w, id) + SentBy(w, m, id) == UnderWay(Next(w, m, k), id) + LostBy(w, m, id) + ToldBy(w, m, id)
  {
    match m.act
    case Post(_, _, _) =>
    case Ask(batch) => CountAppend(w.down, Handed(w.dev, batch, m.at), id);
    case Execute(i) =>
      if i < |w.down| {
        assert w.down[i] in w.down;
        CountRemoved(w.down, i, id);
        CountAppend(w.up, [w.down[i]], id);
        CountSingle(w.down[i], id);
      }
    case Deliver(i) => if i < |w.up| { CountRemoved(w.up, i, id); }
    case DropLine(i) => if i < |w.down| { CountRemoved(w.down, i, id); }
    case DropAck(i) => if i < |w.up| { CountRemoved(w.up, i, id); }
  }

  lemma HandOutsIf(w: World, m: Move, k: PanelKind, es: seq<Event>, id: int)
    requires SameBooks(w.dev, Run(EMPTY_DEVICE, es))
    ensures HandOuts(EMPTY_DEVICE, es + Listed(EventOf(w, m, k)), id) ==
            HandOuts(EMPTY_DEVICE, es, id) + SentBy(w, m, id)
  {
    var e := EventOf(w, m, k);
    if e.Some? {
      assert (es + [e.value])[..|es|] == es;
    } else {
      assert es + Listed(e) == es;
    }
  }

  lemma UnderWayReplied(users: set<string>, ms: seq<Move>, k: PanelKind)
    requires Proper(ms, k)
    ensures var w := Play(Start(users), ms, k);
            AllReplied(w.down, k) && forall c :: c in w.up ==> Answered(c.id, c.line, k)
  {
    AlwaysSourced(users, ms, k);
    PostedMembers(ms, k);
  }

  /** Every hand-out of a command has been lost, is under way or has been told. */
  lemma {:induction false} HandOutsBalance(users: set<string>, ms: seq<Move>, k: PanelKind, id: int)
    requires Proper(ms, k)
    ensures HandOuts(EMPTY_DEVICE, Trace(users, ms, k), id) ==
            Losses(users, ms, k, id) + UnderWay(Play(Start(users), ms, k), id) + Told(users, ms, k, id)
  {
    if ms != [] {
      var before := ms[..|ms| - 1];
      var w := Play(Start(users), before, k);
      HandOutsBalance(users, before, k, id);
      UnderWayReplied(users, before, k);
      StepBalance(w, ms[|ms| - 1], k, id);
      TraceSame(users, before, k);
      HandOutsIf(w, ms[|ms| - 1], k, Trace(users, before, k), id);
    }
  }

  // ---- told means reported ----

  lemma ReportIf(w: World, m: Move, k: PanelKind, es: seq<Event>, id: int)
    requires forall c :: c in w.up ==> Answered(c.id, c.line, k)
    requires LastReport(es, id).Some? ==> LastReport(es, id).value != TIMED_OUT
    ensures var after := LastReport(es + Listed(EventOf(w, m, k)), id);
            && (after.Some? ==> after.value != TIMED_OUT)
            && (LastReport(es, id).Some? || ToldBy(w, m, id) > 0 ==> after.Some?)
  {
    var e := EventOf(w, m, k);
    if e.Some? {
      assert (es + [e.value])[..|es|] == es;
      if m.act.Deliver? { assert w.up[m.act.i] in w.up; }
    } else {
      assert es + Listed(e) == es;
    }
  }

  lemma {:induction false} ToldIsReported(users: set<string>, ms: seq<Move>, k: PanelKind, id: int)
    requires Proper(ms, k)
    ensures var last := LastReport(Trace(users, ms, k), id);
            (last.Some? ==> last.value != TIMED_OUT) && (Told(users, ms, k, id) > 0 ==> last.Some?)
  {
    if ms != [] {
      var before := ms[..|ms| - 1];
      ToldIsReported(users, before, k, id);
      UnderWayReplied(users, before, k);
      ReportIf(Play(Start(users), before, k), ms[|ms| - 1], k, Trace(users, before, k), id);
    }
  }

  // ---- giving up takes every hand-out ----

  predicate YoungInFlight(fs: seq<Command>, now: Time) {
    forall c :: c in fs ==> now - c.enq <= CMD_TTL
  }

  /** No poll finds a command in flight that is older than CMD_TTL. */
  predicate PromptEvents(es: seq<Event>) {
    es == [] ||
    (var before := es[..|es| - 1];
     var e := es[|es| - 1];
     PromptEvents(before) && (e.step.Serve? ==> YoungInFlight(Run(EMPTY_DEVICE, before).inFlight, e.at)))
  }

  predicate Prompt(users: set<string>, ms: seq<Move>, k: PanelKind) {
    ms == [] ||
    (var before := ms[..|ms| - 1];
     var m := ms[|ms| - 1];
     && Prompt(users, before, k)
     && (m.act.Ask? ==> YoungInFlight(Play(Start(users), before, k).dev.inFlight, m.at)))
  }

  lemma PromptIf(es: seq<Event>, e: Option<Event>)
    ensures PromptEvents(es + Listed(e)) <==>
            PromptEvents(es) &&
            (e.Some? && e.value.step.Serve? ==> YoungInFlight(Run(EMPTY_DEVICE, es).inFlight, e.value.at))
  {
    if e.Some? {
      assert (es + [e.value])[..|es|] == es;
    } else {
      assert es + Listed(e) == es;
    }
  }

  lemma {:induction false} PromptTrace(users: set<string>, ms: seq<Move>, k: PanelKind)
    requires Prompt(users, ms, k)
    ensures PromptEvents(Trace(users, ms, k))
  {
    if ms != [] {
      var before := ms[..|ms| - 1];
      PromptTrace(users, before, k);
      TraceSame(users, before, k);
      PromptIf(Trace(users, before, k), EventOf(Play(Start(users), before, k), ms[|ms| - 1], k));
    }
  }

  /** A command that is not too old is given up only after all its hand-outs. */
  lemma GivenUpTired(d: Device, es: seq<Event>, now: Time, id: int)
    requires FlightTallied(d.inFlight, es) && YoungInFlight(d.inFlight, now)
    ensures id !in d.acked && id in GivenUp(d.acked, d.inFlight, now) ==>
              HandOuts(EMPTY_DEVICE, es, id) == MAX_TRIES + 1
  {
    GivenUpExactly(d.acked, d.inFlight, now, id);
    if GivesUpOn(d.inFlight, id, now) {
      var i :| 0 <= i < |d.inFlight| && d.inFlight[i].id == id && !Waiting(d.inFlight[i], now) &&
               Exhausted(d.inFlight[i], now);
      assert d.inFlight[i] in d.inFlight;
    }
  }

  lemma MoreHandOuts(es: seq<Event>, id: int)
    requires es != []
    ensures HandOuts(EMPTY_DEVICE, es, id) >= HandOuts(EMPTY_DEVICE, es[..|es| - 1], id)
  {
  }

  lemma {:induction false} UnreportedIsTired(es: seq<Event>, id: int)
    requires FreshIds(es) && PromptEvents(es)
    requires id in Run(EMPTY_DEVICE, es).acked && LastReport(es, id).None?
    ensures HandOuts(EMPTY_DEVICE, es, id) >= MAX_TRIES + 1
  {
    if es != [] {
      var before := es[..|es| - 1];
      var d := Run(EMPTY_DEVICE, before);
      MoreHandOuts(es, id);
      if id in d.acked {
        UnreportedIsTired(before, id);
      } else {
        EveryRunAccounted(before);
        if es[|es| - 1].step.Serve? { GivenUpTired(d, before, es[|es| - 1].at, id); }
      }
    }
  }

  // ---- the theorems ----

  /** Nothing is queued, in flight or under way. */
  predicate AtRest(w: World) {
    Settled(w.dev) && w.down == [] && w.up == []
  }

  lemma OneReported(users: set<string>, ms: seq<Move>, k: PanelKind, id: int)
    requires Proper(ms, k) && Prompt(users, ms, k) && AtRest(Play(Start(users), ms, k))
    requires id in PostedLines(ms) && Losses(users, ms, k, id) <= MAX_TRIES
    ensures Reported(Play(Start(users), ms, k).dev.acked, id)
  {
    var es := Trace(users, ms, k);
    TraceSame(users, ms, k);
    TraceIds(users, ms, k);
    EveryRunAccounted(es);
    assert id in Run(EMPTY_DEVICE, es).acked;
    ToldIsReported(users, ms, k, id);
    HandOutsBalance(users, ms, k, id);
    PromptTrace(users, ms, k);
    if LastReport(es, id).None? { UnreportedIsTired(es, id); }
  }

  /** The retries make good five losses: if no command loses more than MAX_TRIES lines or
      acknowledgements and none is found too old, then, once everything is at rest, the device has
      reported every command; if no card is both added and removed, the panel holds the table meant. */
  lemma FewLossesAreMadeGood(users: set<string>, ms: seq<Move>, k: PanelKind)
    requires Proper(ms, k) && Prompt(users, ms, k) && AtRest(Play(Start(users), ms, k))
    requires forall id :: id in PostedLines(ms) ==> Losses(users, ms, k, id) <= 5
    ensures AllReported(Play(Start(users), ms, k), PostedLines(ms))
    ensures NoConflict(PostedOps(ms, k)) ==> Play(Start(users), ms, k).panel.users == Fold(users, PostedOps(ms, k))
  {
    forall id | id in PostedLines(ms) ensures Reported(Play(Start(users), ms, k).dev.acked, id) {
      OneReported(users, ms, k, id);
    }
    if NoConflict(PostedOps(ms, k)) { LossyAgreement(users, ms, k); }
  }

  // ---- polls that come no sooner than the time-out ----

  function Asks(ms: seq<Move>): nat {
    if ms == [] then 0 else Asks(ms[..|ms| - 1]) + if ms[|ms| - 1].act.Ask? then 1 else 0
  }

  /** After `past`, nothing more is posted, and each poll finds every in-flight command overdue. */
  predicate Ripening(users: set<string>, past: seq<Move>, more: seq<Move>, k: PanelKind) {
    more == [] ||
    (var before := more[..|more| - 1];
     var m := more[|more| - 1];
     && Ripening(users, past, before, k)
     && !m.act.Post?
     && (m.act.Ask? ==> forall c :: c in Play(Start(users), past + before, k).dev.inFlight ==> !Waiting(c, m.at)))
  }

  lemma OneMoreMove(past: seq<Move>, more: seq<Move>)
    requires more != []
    ensures past + more != [] && (past + more)[..|past + more| - 1] == past + more[..|more| - 1]
    ensures (past + more)[|past + more| - 1] == more[|more| - 1]
  {
  }

  lemma QuietOneMore(d: Device, es: seq<Event>, e: Event)
    requires QuietAndRipe(d, es) && !e.step.Submit?
    requires e.step.Serve? ==> forall c :: c in Run(d, es).inFlight ==> !Waiting(c, e.at)
    ensures QuietAndRipe(d, es + [e])
  {
    assert (es + [e])[..|es|] == es;
  }

  lemma ServesOneMore(es: seq<Event>, e: Event)
    ensures Serves(es + [e]) == Serves(es) + if e.step.Serve? then 1 else 0
  {
    assert (es + [e])[..|es|] == es;
  }

  lemma QuietIf(d: Device, es: seq<Event>, e: Option<Event>)
    requires QuietAndRipe(d, es) && (e.Some? ==> !e.value.step.Submit?)
    requires e.Some? && e.value.step.Serve? ==> forall c :: c in Run(d, es).inFlight ==> !Waiting(c, e.value.at)
    ensures QuietAndRipe(d, es + Listed(e))
    ensures Serves(es + Listed(e)) == Serves(es) + if e.Some? && e.value.step.Serve? then 1 else 0
  {
    match e
    case None =>
      assert es + Listed(e) == es;
    case Some(event) =>
      QuietOneMore(d, es, event);
      ServesOneMore(es, event);
  }

  lemma {:induction false} QuietTrace(users: set<string>, past: seq<Move>, more: seq<Move>, k: PanelKind)
    returns (es: seq<Event>)
    requires Ripening(users, past, more, k)
    ensures Trace(users, past + more, k) == Trace(users, past, k) + es
    ensures QuietAndRipe(Run(EMPTY_DEVICE, Trace(users, past, k)), es) && Serves(es) == Asks(more)
  {
    es := [];
    if more == [] {
      assert past + more == past;
      assert Trace(users, past, k) + [] == Trace(users, past, k);
    } else {
      var before := more[..|more| - 1];
      var start := Trace(users, past, k);
      var earlier := QuietTrace(users, past, before, k);
      var e := EventOf(Play(Start(users), past + before, k), more[|more| - 1], k);
      OneMoreMove(past, more);
      TraceSame(users, past + before, k);
      RunAppend(EMPTY_DEVICE, start, earlier);
      QuietIf(Run(EMPTY_DEVICE, start), earlier, e);
      Associate(start, earlier, Listed(e));
      es := earlier + Listed(e);
    }
  }

  /** From any moment of any run: once nothing more is posted, 6n + 1 polls that find every in-flight
      command overdue, with at most five losses per command and none too old, leave every command
      reported by the device and the panel with the table meant. */
  lemma PollsCompleteTheWork(users: set<string>, past: seq<Move>, more: seq<Move>, k: PanelKind)
    requires Proper(past + more, k) && Prompt(users, past + more, k) && Ripening(users, past, more, k)
    requires var d := Play(Start(users), past, k).dev;
             Asks(more) >= 6 * (|d.queue| + |d.inFlight|) + 1
    requires var w := Play(Start(users), past + more, k); w.down == [] && w.up == []
    requires forall id :: id in PostedLines(past + more) ==> Losses(users, past + more, k, id) <= 5
    ensures var w := Play(Start(users), past + more, k);
            && Settled(w.dev) && AllReported(w, PostedLines(past + more))
            && (NoConflict(PostedOps(past + more, k)) ==> w.panel.users == Fold(users, PostedOps(past + more, k)))
  {
    var es := QuietTrace(users, past, more, k);
    TraceSame(users, past, k);
    TraceSame(users, past + more, k);
    TraceIds(users, past + more, k);
    FreshPrefix(Trace(users, past, k), es);
    BoundedCompletion(Trace(users, past, k), es);
    FewLossesAreMadeGood(users, past + more, k);
  }

  lemma {:induction false} FreshPrefix(a: seq<Event>, b: seq<Event>)
    requires FreshIds(a + b)
    ensures FreshIds(a)
  {
    if b == [] {
      assert a + b == a;
    } else {
      assert (a + b)[..|a + b| - 1] == a + b[..|b| - 1];
      FreshPrefix(a, b[..|b| - 1]);
    }
  }

  // ---- five is exact ----

  /** Whatever the run and the panel, losses up to `n` per command are made good. */
  ghost predicate MakesGood(n: nat) {
    forall users: set<string>, ms: seq<Move>, k: PanelKind ::
      && Proper(ms, k) && Prompt(users, ms, k) && AtRest(Play(Start(users), ms, k))
      && (forall id :: id in PostedLines(ms) ==> Losses(users, ms, k, id) <= n)
      ==> AllReported(Play(Start(users), ms, k), PostedLines(ms))
  }

  /** A panel that acknowledges command 1 and does nothing. */
  function Idler(): PanelKind {
    PanelKind((line: string) => Nothing, (line: string) => Some(Reply(1, "0", Nothing)), false)
  }

  function RoundTime(n: nat): (t: Time)
    ensures t == 4.0 * (n as real)
  {
    if n == 0 then 0.0 else RoundTime(n - 1) + ACK_TIMEOUT
  }

  /** One empty command, handed out and lost `n` times. */
  function LostRun(n: nat): seq<Move> {
    if n == 0 then [Posting((1, ""))] else LostRun(n - 1) + At(Round(true), RoundTime(n - 1))
  }

  function Lost(n: nat): Command {
    Command(1, "", 0.0, n, PriorityOf("", None), Some(RoundTime(n)))
  }

  lemma PostedOnce(k: PanelKind)
    ensures var w := Play(Start({}), LostRun(0), k);
            && w.dev.queue == [Lost(0).(sent := None)]
            && w.dev.inFlight == [] && w.dev.acked == map[] && w.down == [] && w.up == []
  {
    var ms := LostRun(0);
    assert ms[..0] == [];
    assert Play(Start({}), ms[..0], k) == Start({});
  }

  /** In flight, lost, with nothing else anywhere. */
  predicate LostInFlight(w: World, n: nat) {
    w.dev.queue == [] && w.dev.inFlight == [Lost(n)] && w.dev.acked == map[] && w.down == [] && w.up == []
  }

  /** The one line under way is dropped. */
  lemma DroppedRound(w: World, now: Time, k: PanelKind, n: nat)
    requires Poll(w.dev, 1, now) == Device([], [Lost(n)], map[], w.dev.users)
    requires Handed(w.dev, 1, now) == [Lost(n)] && w.down == [] && w.up == []
    ensures LostInFlight(RoundOf(w, true, now, k), n)
  {
    assert w.down + [Lost(n)] == [Lost(n)];
    assert RemoveAt([Lost(n)], 0) == [];
  }

  lemma LoseAgain(w: World, n: nat, k: PanelKind)
    requires LostInFlight(w, n) && n < MAX_TRIES
    ensures LostInFlight(RoundOf(w, true, RoundTime(n + 1), k), n + 1)
  {
    RetryOne(w.dev, Lost(n), RoundTime(n + 1));
    DroppedRound(w, RoundTime(n + 1), k, n + 1);
  }

  lemma LoseFirst(w: World, k: PanelKind)
    requires w.dev.queue == [Lost(0).(sent := None)] && w.dev.inFlight == [] && w.dev.acked == map[]
    requires w.down == [] && w.up == []
    ensures LostInFlight(RoundOf(w, true, RoundTime(0), k), 0)
  {
    var c := Lost(0).(sent := None);
    AloneInQueue(w.dev, c);
    TimelyPoll(w.dev, 1, 0.0);
    OneSent(c);
    DroppedRound(w, 0.0, k, 0);
  }

  lemma OneMoreLoss(n: nat, k: PanelKind, w: World, w': World)
    requires w == Play(Start({}), LostRun(n), k) && w' == Play(Start({}), LostRun(n + 1), k)
    ensures w' == RoundOf(w, true, RoundTime(n), k)
  {
    PlayAppend(Start({}), LostRun(n), At(Round(true), RoundTime(n)), k);
    PlayRound(w, true, RoundTime(n), k);
  }

  /** After `n` losses and one more. */
  predicate LostAfter(n: nat, k: PanelKind) {
    LostInFlight(Play(Start({}), LostRun(n + 1), k), n)
  }

  lemma LostAgain(n: nat, k: PanelKind)
    requires n < MAX_TRIES && LostAfter(n, k)
    ensures LostAfter(n + 1, k)
  {
    var w := Play(Start({}), LostRun(n + 1), k);
    OneMoreLoss(n + 1, k, w, Play(Start({}), LostRun(n + 2), k));
    LoseAgain(w, n, k);
  }

  lemma LostOnce(k: PanelKind)
    ensures LostAfter(0, k)
  {
    var w := Play(Start({}), LostRun(0), k);
    PostedOnce(k);
    OneMoreLoss(0, k, w, Play(Start({}), LostRun(1), k));
    LoseFirst(w, k);
  }

  lemma {:induction false} UpTo(n: nat, most: nat, holds: nat -> bool)
    requires n <= most && holds(0) && forall i: nat :: i < most && holds(i) ==> holds(i + 1)
    ensures holds(n)
  {
    if n > 0 { UpTo(n - 1, most, holds); }
  }

  lemma EachLoss(k: PanelKind, lost: nat -> bool)
    requires forall i: nat :: lost(i) <==> LostAfter(i, k)
    ensures lost(0) && forall i: nat :: i < MAX_TRIES && lost(i) ==> lost(i + 1)
  {
    LostOnce(k);
    forall i: nat | i < MAX_TRIES && lost(i) ensures lost(i + 1) {
      LostAgain(i, k);
    }
  }

  lemma AfterLosses(n: nat, k: PanelKind)
    requires n <= MAX_TRIES
    ensures LostAfter(n, k)
  {
    var lost := (i: nat) => LostAfter(i, k);
    EachLoss(k, lost);
    UpTo(n, MAX_TRIES, lost);
  }

  lemma LostIsYoung(n: nat, k: PanelKind)
    requires n <= MAX_TRIES
    ensures YoungInFlight(Play(Start({}), LostRun(n), k).dev.inFlight, RoundTime(n))
  {
    if n == 0 { PostedOnce(k); } else { AfterLosses(n - 1, k); }
  }

  lemma {:induction false} LostRunOrderly(n: nat)
    ensures EndsBy(LostRun(n), if n == 0 then 0.0 else RoundTime(n - 1)) && PostedAs(LostRun(n)) == [(1, "")]
  {
    if n == 0 {
      AppendPost([], (1, ""), LostRun(0));
    } else {
      LostRunOrderly(n - 1);
      RoundQuiet(true);
      AppendQuiet(LostRun(n - 1), Round(true), RoundTime(n - 1), LostRun(n));
    }
  }

  lemma PromptRound(users: set<string>, ms: seq<Move>, now: Time, k: PanelKind)
    requires Prompt(users, ms, k) && YoungInFlight(Play(Start(users), ms, k).dev.inFlight, now)
    ensures Prompt(users, ms + At(Round(true), now), k)
  {
    var all := ms + At(Round(true), now);
    var asked := ms + [Move(now, Ask(1))];
    assert asked[..|ms|] == ms && all[..|all| - 1] == asked;
  }

  lemma {:induction false} LostRunPrompt(n: nat, k: PanelKind)
    requires n <= MAX_TRIES + 1
    ensures Prompt({}, LostRun(n), k)
  {
    if n == 0 {
      assert LostRun(0)[..0] == [];
    } else {
      LostRunPrompt(n - 1, k);
      LostIsYoung(n - 1, k);
      PromptRound({}, LostRun(n - 1), RoundTime(n - 1), k);
    }
  }

  /** The next poll gives up. */
  lemma GiveUpOne(d: Device, n: nat)
    requires d.queue == [] && d.inFlight == [Lost(MAX_TRIES)] && d.acked == map[] && n == MAX_TRIES + 1
    ensures Handed(d, 1, RoundTime(n)) == [] && Poll(d, 1, RoundTime(n)) == Device([], [], map[1 := TIMED_OUT], d.users)
  {
    var c, now := Lost(MAX_TRIES), RoundTime(n);
    assert !Waiting(c, now) && Exhausted(c, now);
    OneGivenUp(c, now, d.acked);
    assert Reap(d, now) == Device([], [], map[1 := TIMED_OUT], d.users);
  }

  lemma OneGivenUp(c: Command, now: Time, acked: map<int, string>)
    requires !Waiting(c, now) && Exhausted(c, now) && c.id !in acked
    ensures Retried([c], now) == [] && Kept([c], now) == [] && GivenUp(acked, [c], now) == acked[c.id := TIMED_OUT]
  {
    assert [c][0] == c && [c][1..] == [];
    assert Retried([c][1..], now) == [] && Kept([c][1..], now) == [];
  }

  /** A run that shows that losses up to `n` are not always made good. */
  ghost predicate Breaks(users: set<string>, ms: seq<Move>, k: PanelKind, n: nat) {
    && Proper(ms, k) && Prompt(users, ms, k) && AtRest(Play(Start(users), ms, k))
    && (forall id :: id in PostedLines(ms) ==> Losses(users, ms, k, id) <= n)
    && !AllReported(Play(Start(users), ms, k), PostedLines(ms))
  }

  lemma BreakingRun(users: set<string>, ms: seq<Move>, k: PanelKind, n: nat)
    requires Breaks(users, ms, k, n)
    ensures !MakesGood(n)
  {
  }

  lemma NotAllReported(w: World, posted: map<int, string>, id: int)
    requires id in posted && !Reported(w.dev.acked, id)
    ensures !AllReported(w, posted)
  {
  }

  /** Six hand-outs, six losses, and the seventh poll gives up on a command the panel never saw. */
  lemma SixLossesAreNot(n: nat, ms: seq<Move>, k: PanelKind)
    requires n > MAX_TRIES && k == Idler()
    requires ms == LostRun(MAX_TRIES + 1) + [Move(RoundTime(MAX_TRIES + 1), Ask(1))]
    ensures Breaks({}, ms, k, n)
  {
    var last := Move(RoundTime(MAX_TRIES + 1), Ask(1));
    LostRunEnds(ms, MAX_TRIES + 1, k);
    LostRunIsProper(ms, last);
    forall id | id in PostedLines(ms) ensures Losses({}, ms, k, id) <= n {
      LossesBounded({}, ms, k, id);
    }
    NotAllReported(Play(Start({}), ms, k), PostedLines(ms), 1);
  }

  lemma LastAsk(ms: seq<Move>, before: seq<Move>, now: Time, k: PanelKind, w: World)
    requires ms == before + [Move(now, Ask(1))] && w == Play(Start({}), before, k)
    ensures Play(Start({}), ms, k) == AskOf(w, 1, now)
    ensures Prompt({}, before, k) && YoungInFlight(w.dev.inFlight, now) ==> Prompt({}, ms, k)
  {
    assert ms[..|before|] == before;
  }

  lemma GivenUpAtLast(w: World, n: nat)
    requires LostInFlight(w, MAX_TRIES) && n == MAX_TRIES + 1
    ensures AtRest(AskOf(w, 1, RoundTime(n))) && !Reported(AskOf(w, 1, RoundTime(n)).dev.acked, 1)
    ensures YoungInFlight(w.dev.inFlight, RoundTime(n))
  {
    GiveUpOne(w.dev, n);
    assert w.down + [] == [];
  }

  lemma LostRunEnds(ms: seq<Move>, n: nat, k: PanelKind)
    requires n == MAX_TRIES + 1 && ms == LostRun(n) + [Move(RoundTime(n), Ask(1))]
    ensures var w := Play(Start({}), ms, k);
            AtRest(w) && !Reported(w.dev.acked, 1)
    ensures Prompt({}, ms, k)
  {
    var w := Play(Start({}), LostRun(n), k);
    AfterLosses(MAX_TRIES, k);
    GivenUpAtLast(w, n);
    LastAsk(ms, LostRun(n), RoundTime(n), k, w);
    LostRunPrompt(n, k);
  }

  lemma LossesBounded(users: set<string>, ms: seq<Move>, k: PanelKind, id: int)
    requires Proper(ms, k)
    ensures Losses(users, ms, k, id) <= MAX_TRIES + 1
  {
    HandOutsBalance(users, ms, k, id);
    TraceIds(users, ms, k);
    EveryRunAccounted(Trace(users, ms, k));
  }

  lemma EmptyUnderstood()
    ensures UnderstoodPosts([(1, "")], Idler())
  {
    var posts := [(1, "")];
    assert MirrorEffect("") == Nothing;
    assert posts[..0] == [] && Understood(1, "", Idler());
  }

  lemma LostRunIsProper(ms: seq<Move>, last: Move)
    requires last == Move(RoundTime(MAX_TRIES + 1), Ask(1)) && ms == LostRun(MAX_TRIES + 1) + [last]
    ensures Proper(ms, Idler()) && PostedLines(ms).Keys == {1}
  {
    var acts := [Ask(1)];
    assert At(acts, last.at) == [last];
    LostRunOrderly(MAX_TRIES + 1);
    AppendQuiet(LostRun(MAX_TRIES + 1), acts, last.at, ms);
    EmptyUnderstood();
    OrderlyIsProper(ms, Idler());
    PostedAreOps(ms, Idler());
  }

  /** Losses up to `n` per command are always made good if and only if `n` is at most MAX_TRIES. */
  lemma MadeGoodExactly(n: nat)
    ensures MakesGood(n) <==> n <= 5
  {
    if n <= MAX_TRIES {
      forall users: set<string>, ms: seq<Move>, k: PanelKind |
        && Proper(ms, k) && Prompt(users, ms, k) && AtRest(Play(Start(users), ms, k))
        && (forall id :: id in PostedLines(ms) ==> Losses(users, ms, k, id) <= n)
        ensures AllReported(Play(Start(users), ms, k), PostedLines(ms))
      {
        FewLossesAreMadeGood(users, ms, k);
      }
    } else {
      var ms := LostRun(MAX_TRIES + 1) + [Move(RoundTime(MAX_TRIES + 1), Ask(1))];
      SixLossesAreNot(n, ms, Idler());
      BreakingRun({}, ms, Idler(), n);
    }
  }
}
