/** The gate's event handlers: card reads, tag frames and plate detections, and the bonding of an
    unknown tag to the plate seen right after it. */
module Correlation {
  import opened Basics
  import opened Roster
  import opened TimedDedup

  const DEDUP_WINDOW: Time := 2.0
  const READ_LIFE: Time := 30.0

  /** `window` is the correlation window; an exit gate only keeps an audit of plates. */
  datatype Config = Config(window: Time, exit: bool)

  /** What a handler meets: the time, whether the gate is online, the local tables, the answer the
      cloud would give, and whether the barrier would move. */
  datatype Context = Context(at: Time, online: bool, db: Db, cloud: Option<Decision>, barrier: bool)

  datatype Verdict = AllowedRead | DeniedRead | OtherRead

  datatype Input =
    | Alarm
    | Read(card: string, user: string, verdict: Verdict, biometric: bool)
    | UsbTag(epc: string, hash: string)
    | Plate(plate: string)

  datatype Event = Event(ctx: Context, input: Input)

  datatype Outcome = Granted | Denied | Review | Raised

  datatype Audit = Audit(raw: string, outcome: Outcome, gateOpened: bool, paired: bool, ambiguous: bool, offline: bool)

  /** A request to bond a tag, read and denied at `readAt`, to a plate. */
  datatype Pair = Pair(card: string, plate: string, readAt: Time, at: Time)

  /** `pending` holds the denied reads waiting for a plate. */
  datatype Gate = Gate(lastRead: map<string, Time>, pending: map<string, Time>, audits: seq<Audit>, pairs: seq<Pair>,
                       opens: nat)

  const FRESH := Gate(map[], map[], [], [], 0)

  // ---- decisions ----

  function OutcomeOf(d: Decision): Outcome {
    match d
    case Allow(_) => Granted
    case Deny => Denied
    case GuardReview => Review
  }

  predicate CloudAllows(c: Context) {
    c.online && c.cloud.Some? && c.cloud.value.Allow?
  }

  /** Beside a pending tag and for USB tags: the cloud if it allows, otherwise the local check. */
  function EitherAllows(c: Context, m: Method, v: string): Decision {
    if CloudAllows(c) then c.cloud.value else LocalCheck(c.db, m, v, c.at)
  }

  /** With no pending tag: the blacklist, then the cloud if it answers, otherwise the local check. */
  function PlainDecision(c: Context, plate: string): Decision {
    if IsBlacklisted(c.db, Anpr, plate) then Deny
    else if c.online && c.cloud.Some? then c.cloud.value
    else LocalCheck(c.db, Anpr, plate, c.at)
  }

  predicate Visitor(d: Decision) {
    d.Allow? && d.match_.kind == VisitorPass
  }

  function Opens(d: Decision, c: Context): bool {
    d.Allow? && c.barrier
  }

  // ---- handlers ----

  function Log(g: Gate, c: Context, raw: string, outcome: Outcome): Gate {
    g.(audits := g.audits + [Audit(raw, outcome, false, false, false, !c.online)])
  }

  function HandleRead(g: Gate, c: Context, r: Input): Gate
    requires r.Read?
  {
    if !Passes(g.lastRead, r.card, c.at, DEDUP_WINDOW) then g
    else
      var seen := g.(lastRead := Purged(g.lastRead[r.card := c.at], c.at, READ_LIFE));
      if r.biometric then
        Log(seen, c, if r.user != "" then r.user else r.card, if r.verdict == AllowedRead then Granted else Denied)
      else
        match r.verdict
        case AllowedRead => Log(seen, c, r.card, Granted)
        case DeniedRead => seen.(pending := Purged(g.pending[r.card := c.at], c.at, READ_LIFE))
        case OtherRead => seen
  }

  function HandleUsb(g: Gate, c: Context, epc: string, hash: string): Gate {
    if |epc| < 8 || !Passes(g.lastRead, hash, c.at, DEDUP_WINDOW) then g
    else
      var seen := g.(lastRead := g.lastRead[hash := c.at]);
      if IsBlacklisted(c.db, Fastag, hash) then Log(seen, c, epc, Denied)
      else
        var d := EitherAllows(c, Fastag, hash);
        seen.(audits := g.audits + [Audit(epc, OutcomeOf(d), Opens(d, c), false, false, !c.online)],
              opens := g.opens + if Opens(d, c) then 1 else 0)
  }

  /** The tags whose denied read still lies inside the window. */
  function Candidates(pending: map<string, Time>, now: Time, window: Time): set<string> {
    set k | k in pending && now - pending[k] < window
  }

  /** The only member of a set with one member. */
  ghost function Sole(cands: set<string>): Option<string> {
    if exists k :: cands == {k} then
      var k :| cands == {k};
      Some(k)
    else None
  }

  function Settle(pending: map<string, Time>, sole: Option<string>): map<string, Time> {
    if sole.Some? then pending - {sole.value} else pending
  }

  /** A plate with tags pending; `sole` is the pending tag if there is exactly one. */
  function Correlate(g: Gate, c: Context, plate: string, sole: Option<string>): Gate
    requires sole.Some? ==> sole.value in g.pending
  {
    var settled := g.(pending := Settle(g.pending, sole));
    if IsBlacklisted(c.db, Anpr, plate) then Log(settled, c, plate, Denied)
    else
      var d := EitherAllows(c, Anpr, plate);
      if d.Allow? then
        var pairs := sole.Some? && !Visitor(d) && c.online;
        settled.(audits := g.audits + [Audit(plate, Granted, c.barrier, pairs, sole.None?, !c.online)],
                 opens := g.opens + (if c.barrier then 1 else 0),
                 pairs := g.pairs + if pairs then [Pair(sole.value, plate, g.pending[sole.value], c.at)] else [])
      else Log(settled, c, plate, Review)
  }

  ghost function HandlePlate(g: Gate, c: Context, plate: string, window: Time): Gate {
    var cands := Candidates(g.pending, c.at, window);
    if plate == "" then g
    else if cands != {} then Correlate(g, c, plate, Sole(cands))
    else
      var d := PlainDecision(c, plate);
      g.(audits := g.audits + [Audit(plate, OutcomeOf(d), Opens(d, c), false, false, !c.online)],
         opens := g.opens + if Opens(d, c) then 1 else 0)
  }

  ghost function Handle(g: Gate, e: Event, cfg: Config): Gate {
    match e.input
    case Alarm => Log(g, e.ctx, "c3_alarm", Raised)
    case Read(_, _, _, _) => HandleRead(g, e.ctx, e.input)
    case UsbTag(epc, hash) => HandleUsb(g, e.ctx, epc, hash)
    case Plate(plate) => if cfg.exit then Log(g, e.ctx, plate, Granted) else HandlePlate(g, e.ctx, plate, cfg.window)
  }

  // ---- the handlers, updating in place ----

  class GateController {
    const cfg: Config
    var lastRead: map<string, Time>
    var pendingUnknown: map<string, Time>
    var audits: seq<Audit>
    var pairs: seq<Pair>
    var opens: nat

    ghost function State(): Gate
      reads this
    {
      Gate(lastRead, pendingUnknown, audits, pairs, opens)
    }

    constructor (cfg: Config)
      ensures State() == FRESH && this.cfg == cfg
    {
      this.cfg := cfg;
      lastRead, pendingUnknown, audits, pairs, opens := map[], map[], [], [], 0;
    }

    method Enqueue(c: Context, raw: string, outcome: Outcome, opened_: bool, paired: bool, ambiguous: bool)
      modifies this`audits
      ensures audits == old(audits) + [Audit(raw, outcome, opened_, paired, ambiguous, !c.online)]
    {
      audits := audits + [Audit(raw, outcome, opened_, paired, ambiguous, !c.online)];
    }

    method OpenGate(c: Context) returns (moved: bool)
      modifies this`opens
      ensures moved == c.barrier && opens == old(opens) + if moved then 1 else 0
    {
      moved := c.barrier;
      if moved {
        opens := opens + 1;
      }
    }

    method ProcessC3Event(c: Context, input: Input)
      requires input.Alarm? || input.Read?
      modifies this
      ensures State() == Handle(old(State()), Event(c, input), cfg)
    {
      if input.Alarm? {
        Enqueue(c, "c3_alarm", Raised, false, false, false);
        return;
      }
      var card := input.card;
      if card in lastRead && c.at - lastRead[card] < DEDUP_WINDOW {
        return;
      }
      lastRead := lastRead[card := c.at];
      lastRead := PurgeOld(lastRead, c.at, READ_LIFE);
      if input.biometric {
        Enqueue(c, if input.user != "" then input.user else card,
                if input.verdict == AllowedRead then Granted else Denied,
                false, false, false);
        return;
      }
      match input.verdict {
        case AllowedRead =>
          Enqueue(c, card, Granted, false, false, false);
        case DeniedRead =>
          pendingUnknown := pendingUnknown[card := c.at];
          pendingUnknown := PurgeOld(pendingUnknown, c.at, READ_LIFE);
        case OtherRead =>
      }
    }

    method HandleUsbFastag(c: Context, epc: string, hash: string)
      modifies this
      ensures State() == Handle(old(State()), Event(c, UsbTag(epc, hash)), cfg)
    {
      if |epc| < 8 {
        return;
      }
      if hash in lastRead && c.at - lastRead[hash] < DEDUP_WINDOW {
        return;
      }
      lastRead := lastRead[hash := c.at];
      if IsBlacklisted(c.db, Fastag, hash) {
        Enqueue(c, epc, Denied, false, false, false);
        return;
      }
      var result := if c.online then c.cloud else None;
      if result.None? || !result.value.Allow? {
        result := Some(LocalCheck(c.db, Fastag, hash, c.at));
      }
      if result.value.Allow? {
        var moved := OpenGate(c);
        Enqueue(c, epc, Granted, moved, false, false);
      } else {
        Enqueue(c, epc, OutcomeOf(result.value), false, false, false);
      }
    }

    method HandleAnprEvent(c: Context, plate: string)
      modifies this
      ensures State() == Handle(old(State()), Event(c, Plate(plate)), cfg)
    {
      if cfg.exit {
        Enqueue(c, plate, Granted, false, false, false);
      } else {
        HandleAnprDetection(c, plate);
      }
    }

    method HandleAnprDetection(c: Context, plate: string)
      modifies this
      ensures State() == HandlePlate(old(State()), c, plate, cfg.window)
    {
      if plate == "" {
        return;
      }
      var candidates := Candidates(pendingUnknown, c.at, cfg.window);
      if candidates != {} {
        CorrelatePlate(c, plate, candidates);
        return;
      }
      var result;
      if IsBlacklisted(c.db, Anpr, plate) {
        result := Deny;
      } else if c.online && c.cloud.Some? {
        result := c.cloud.value;
      } else {
        result := LocalCheck(c.db, Anpr, plate, c.at);
      }
      var moved := false;
      if result.Allow? {
        moved := OpenGate(c);
      }
      Enqueue(c, plate, OutcomeOf(result), moved, false, false);
    }

    /** The branch with tags pending. Which candidate is looked at matters only when it is the only one. */
    method CorrelatePlate(c: Context, plate: string, candidates: set<string>)
      requires candidates != {} && candidates <= pendingUnknown.Keys
      modifies this
      ensures State() == Correlate(old(State()), c, plate, Sole(candidates))
    {
      var ambiguous := |candidates| > 1;
      var card :| card in candidates;
      OneOrMore(candidates, card);
      var readAt := pendingUnknown[card];
      if !ambiguous {
        pendingUnknown := pendingUnknown - {card};
      }
      if IsBlacklisted(c.db, Anpr, plate) {
        Enqueue(c, plate, Denied, false, false, false);
        return;
      }
      var result := if c.online then c.cloud else None;
      if result.None? || !result.value.Allow? {
        result := Some(LocalCheck(c.db, Anpr, plate, c.at));
      }
      if result.value.Allow? {
        var moved := OpenGate(c);
        var doPair := !ambiguous && result.value.match_.kind != VisitorPass && c.online;
        if doPair {
          pairs := pairs + [Pair(card, plate, readAt, c.at)];
        }
        Enqueue(c, plate, Granted, moved, doPair, ambiguous);
      } else {
        Enqueue(c, plate, Review, false, false, false);
      }
    }
  }

  lemma OneOrMore(s: set<string>, k: string)
    requires k in s
    ensures |s| >= 1 && (|s| == 1 <==> s == {k})
  {
    if |s| == 1 { assert |s - {k}| == 0; }
  }
}
