/** What the gate's handlers promise, for one plate and over whole runs. */
module CorrelationRuns {
  import opened Basics
  import opened Roster
  import opened TimedDedup
  import opened Correlation

  // ---- one plate ----

  /** When the barrier is told to open for a plate: the blacklist is literal and final; beside a
      pending tag a refusal by the cloud can be overruled by the local tables. */
  predicate Admits(c: Context, plate: string, tagPending: bool) {
    && !IsBlacklisted(c.db, Anpr, plate)
    && (CloudAllows(c) || ((tagPending || !c.online || c.cloud.None?) && LocalCheck(c.db, Anpr, plate, c.at).Allow?))
  }

  /** Each detection of a plate writes exactly one audit record, and the record tells the truth about
      the barrier, the pairing and the ambiguity; the barrier opens exactly when the plate is admitted. */
  lemma OneTruthfulAudit(g: Gate, c: Context, plate: string, window: Time)
    requires plate != ""
    ensures var g' := HandlePlate(g, c, plate, window);
            var cands := Candidates(g.pending, c.at, window);
            && |g'.audits| == |g.audits| + 1 && g.audits <= g'.audits && g.pairs <= g'.pairs
            && var a := g'.audits[|g.audits|];
               && a.raw == plate && a.offline == !c.online
               && (a.outcome == Granted <==> Admits(c, plate, cands != {}))
               && (a.gateOpened <==> Admits(c, plate, cands != {}) && c.barrier)
               && g'.opens == g.opens + (if a.gateOpened then 1 else 0)
               && |g'.pairs| == |g.pairs| + (if a.paired then 1 else 0)
               && (a.paired ==> a.outcome == Granted && !a.ambiguous)
               && (a.ambiguous <==> |cands| > 1 && a.outcome == Granted)
  {
    var cands := Candidates(g.pending, c.at, window);
    if cands != {} {
      var k :| k in cands;
      OneOrMore(cands, k);
    }
  }

  /** A plate listed literally never opens the barrier and is never paired. */
  lemma BlacklistedIsRefused(g: Gate, c: Context, plate: string, window: Time)
    requires plate != "" && IsBlacklisted(c.db, Anpr, plate)
    ensures var g' := HandlePlate(g, c, plate, window);
            && g'.opens == g.opens && g'.pairs == g.pairs
            && g'.audits == g.audits + [Audit(plate, Denied, false, false, false, !c.online)]
  {
  }

  /** With two or more tags in the window nothing is paired and all tags stay pending; the barrier
      still opens for an admitted plate. */
  lemma AmbiguityPairsNone(g: Gate, c: Context, plate: string, window: Time)
    requires |Candidates(g.pending, c.at, window)| >= 2
    ensures var g' := HandlePlate(g, c, plate, window);
            && g'.pending == g.pending && g'.pairs == g.pairs
            && g'.opens == g.opens + if plate != "" && Admits(c, plate, true) && c.barrier then 1 else 0
  {
  }

  /** The outcome a plate is audited with. */
  ghost function OutcomeFor(g: Gate, c: Context, plate: string, window: Time): Outcome
    requires plate != ""
  {
    var audits := HandlePlate(g, c, plate, window).audits;
    if audits == [] then Review else audits[|audits| - 1].outcome
  }

  /** The same plate at the same moment, with tags pending in the window and with none: the pending
      tags turn a refusal into an admission exactly when the cloud answers, does not allow, and the
      local tables do; they never turn an admission into a refusal. */
  lemma PendingTagOverrules(tagged: Gate, plain: Gate, c: Context, plate: string, window: Time)
    requires plate != ""
    requires Candidates(tagged.pending, c.at, window) != {} && Candidates(plain.pending, c.at, window) == {}
    ensures var overruled := && !IsBlacklisted(c.db, Anpr, plate)
                             && c.online && c.cloud.Some? && !c.cloud.value.Allow?
                             && LocalCheck(c.db, Anpr, plate, c.at).Allow?;
            var withTag, without := OutcomeFor(tagged, c, plate, window), OutcomeFor(plain, c, plate, window);
            && (withTag == Granted && without != Granted <==> overruled)
            && (without == Granted ==> withTag == Granted)
            && HandlePlate(tagged, c, plate, window).opens - tagged.opens ==
               HandlePlate(plain, c, plate, window).opens - plain.opens + (if overruled && c.barrier then 1 else 0)
  {
    OneTruthfulAudit(tagged, c, plate, window);
    OneTruthfulAudit(plain, c, plate, window);
  }

  // ---- the blacklist and the spelling of plates ----

  /** Whatever the tables, a plate whose normal form is blacklisted does not open the barrier. */
  ghost predicate SafeSpelling(plate: string) {
    forall g: Gate, c: Context, window: Time :: IsBlacklisted(c.db, Anpr, NormPlate(plate)) ==>
      HandlePlate(g, c, plate, window).opens == g.opens
  }

  /** The blacklist is compared literally but the whitelist in normal form, so the blacklist binds
      exactly the spellings that are normal already. */
  lemma BlacklistBindsExactly(plate: string)
    ensures SafeSpelling(plate) <==> NormPlate(plate) == plate
  {
    if NormPlate(plate) == plate {
      forall g: Gate, c: Context, window: Time | IsBlacklisted(c.db, Anpr, NormPlate(plate))
        ensures HandlePlate(g, c, plate, window).opens == g.opens
      {
        if plate != "" { BlacklistedIsRefused(g, c, plate, window); }
      }
    } else {
      var norm := Some(NormPlate(plate));
      var db := Db([VehicleRow(norm, None, None, "A-101")], [BlockRow(norm, None, None)], [], []);
      var c := Context(0.0, false, db, None, true);
      assert BlockColumn(db.blacklist[0], Anpr) == norm;
      assert NormPlate("") == "";
      assert Candidates(FRESH.pending, c.at, 0.0) == {};
      assert LocalCheck(db, Anpr, plate, 0.0).Allow?;
      assert HandlePlate(FRESH, c, plate, 0.0).opens == 1;
    }
  }

  /** The receiver hands over plates in normal form, which is a fixed point. */
  lemma {:induction false} NormalFormIsFixed(raw: string)
    ensures NormPlate(NormPlate(raw)) == NormPlate(raw)
  {
    if raw != [] {
      NormalFormIsFixed(raw[1..]);
      var one, rest := NormPlate(raw[..1]), NormPlate(raw[1..]);
      OnePlateChar(raw[0]);
      assert raw[..1] == [raw[0]];
      assert NormPlate(raw) == one + rest;
      if one != [] {
        assert (one + rest)[0] == one[0] && (one + rest)[1..] == rest;
      } else {
        assert one + rest == rest;
      }
    }
  }

  lemma OnePlateChar(c: char)
    ensures var one := NormPlate([c]);
            && one == (if 'a' <= c <= 'z' then [(c as int - 32) as char]
                       else if 'A' <= c <= 'Z' || '0' <= c <= '9' then [c] else [])
            && (one != [] ==> 'A' <= one[0] <= 'Z' || '0' <= one[0] <= '9')
  {
    assert [c][1..] == [] && NormPlate([]) == [];
  }

  lemma ReceivedPlatesAreBound(raw: string)
    ensures SafeSpelling(NormPlate(raw))
  {
    NormalFormIsFixed(raw);
    BlacklistBindsExactly(NormPlate(raw));
  }

  // ---- runs ----

  ghost function Run(es: seq<Event>, cfg: Config): Gate {
    if es == [] then FRESH else Handle(Run(es[..|es| - 1], cfg), es[|es| - 1], cfg)
  }

  predicate InTime(es: seq<Event>) {
    forall i, j :: 0 <= i < j < |es| ==> es[i].ctx.at <= es[j].ctx.at
  }

  /** A read of `card` at `r` is still on the books of the deduplicator, or long past. */
  predicate Noted(lastRead: map<string, Time>, card: string, r: Time, now: Time) {
    r <= now && ((card in lastRead && lastRead[card] >= r) || now - r > READ_LIFE)
  }

  predicate PendingNoted(g: Gate, now: Time) {
    forall k :: k in g.pending ==> Noted(g.lastRead, k, g.pending[k], now)
  }

  predicate PairsNoted(g: Gate, now: Time) {
    forall i :: 0 <= i < |g.pairs| ==> Noted(g.lastRead, g.pairs[i].card, g.pairs[i].readAt, now)
  }

  predicate PendingIsLater(g: Gate) {
    forall i :: 0 <= i < |g.pairs| && g.pairs[i].card in g.pending ==>
      g.pending[g.pairs[i].card] - g.pairs[i].readAt >= DEDUP_WINDOW
  }

  predicate PairsApart(pairs: seq<Pair>) {
    forall i, j :: 0 <= i < j < |pairs| && pairs[i].card == pairs[j].card ==>
      pairs[j].readAt - pairs[i].readAt >= DEDUP_WINDOW
  }

  predicate Booked(g: Gate, now: Time) {
    PendingNoted(g, now) && PairsNoted(g, now) && PendingIsLater(g) && PairsApart(g.pairs)
  }

  lemma ReadKeepsBooks(g: Gate, c: Context, r: Input, now: Time)
    requires r.Read? && Booked(g, now) && now <= c.at
    ensures Booked(HandleRead(g, c, r), c.at)
  {
    assert HandleRead(g, c, r).pairs == g.pairs;
  }

  lemma UsbKeepsBooks(g: Gate, c: Context, epc: string, hash: string, now: Time)
    requires Booked(g, now) && now <= c.at
    ensures Booked(HandleUsb(g, c, epc, hash), c.at)
  {
    assert HandleUsb(g, c, epc, hash).pairs == g.pairs;
  }

  lemma PlateKeepsBooks(g: Gate, c: Context, plate: string, window: Time, now: Time)
    requires Booked(g, now) && now <= c.at
    ensures Booked(HandlePlate(g, c, plate, window), c.at)
  {
    assert Booked(g, c.at);
  }

  /** Over every run: the reads used for pairings of one tag lie at least the dedup window apart, so
      no denied read is ever used twice. */
  lemma {:induction false} ReadsPairOnce(es: seq<Event>, cfg: Config)
    requires InTime(es)
    ensures PairsApart(Run(es, cfg).pairs)
    ensures es != [] ==> Booked(Run(es, cfg), es[|es| - 1].ctx.at)
  {
    if es != [] {
      var before := es[..|es| - 1];
      var e := es[|es| - 1];
      ReadsPairOnce(before, cfg);
      var g := Run(before, cfg);
      var now := if before == [] then e.ctx.at else before[|before| - 1].ctx.at;
      match e.input
      case Alarm => assert Booked(g, e.ctx.at);
      case Read(_, _, _, _) => ReadKeepsBooks(g, e.ctx, e.input, now);
      case UsbTag(epc, hash) => UsbKeepsBooks(g, e.ctx, epc, hash, now);
      case Plate(plate) =>
        assert Booked(g, e.ctx.at);
        PlateKeepsBooks(g, e.ctx, plate, cfg.window, now);
    }
  }

  // ---- every pairing is justified by the run ----

  /** Event `j` is a denied read of the card that got past the deduplicator. */
  ghost predicate DeniedAt(es: seq<Event>, j: nat, card: string, at: Time, cfg: Config)
    requires j < |es|
  {
    && es[j].input.Read? && es[j].input.card == card && es[j].input.verdict == DeniedRead && !es[j].input.biometric
    && es[j].ctx.at == at
    && Passes(Run(es[..j], cfg).lastRead, card, at, DEDUP_WINDOW)
  }

  /** Event `i` detects the plate of the pair while its tag is the only one pending in the window, the
      gate is online, the plate is not blacklisted and is admitted as a resident's. */
  ghost predicate PairedAt(es: seq<Event>, i: nat, p: Pair, cfg: Config)
    requires i < |es|
  {
    var c := es[i].ctx;
    && es[i].input == Plate(p.plate) && !cfg.exit && c.at == p.at
    && Candidates(Run(es[..i], cfg).pending, c.at, cfg.window) == {p.card}
    && p.at - p.readAt < cfg.window
    && c.online && !IsBlacklisted(c.db, Anpr, p.plate)
    && EitherAllows(c, Anpr, p.plate).Allow? && !Visitor(EitherAllows(c, Anpr, p.plate))
  }

  lemma {:induction false} PendingWasDenied(es: seq<Event>, card: string, cfg: Config) returns (j: nat)
    requires card in Run(es, cfg).pending
    ensures j < |es| && DeniedAt(es, j, card, Run(es, cfg).pending[card], cfg)
  {
    var n := |es| - 1;
    var before := es[..n];
    var e := es[n];
    var g := Run(before, cfg);
    if e.input.Read? && e.input.card == card && Run(es, cfg).pending != g.pending {
      j := n;
    } else {
      j := PendingWasDenied(before, card, cfg);
      assert es[..j] == before[..j];
    }
  }

  /** Every pairing of every run: an earlier denied read of that tag inside the window, no other tag
      pending, an online gate and an admitted plate that is neither blacklisted nor a visitor's. */
  lemma {:induction false} PairJustified(es: seq<Event>, n: nat, cfg: Config) returns (j: nat, i: nat)
    requires n < |Run(es, cfg).pairs|
    ensures var p := Run(es, cfg).pairs[n];
            j < i < |es| && DeniedAt(es, j, p.card, p.readAt, cfg) && PairedAt(es, i, p, cfg)
  {
    var m := |es| - 1;
    var before := es[..m];
    var g := Run(before, cfg);
    if n < |g.pairs| {
      j, i := PairJustified(before, n, cfg);
      assert es[..i] == before[..i] && es[..j] == before[..j];
    } else {
      i := m;
      j := PendingWasDenied(before, Run(es, cfg).pairs[n].card, cfg);
      assert es[..j] == before[..j];
    }
  }

  // ---- forgetting denied reads ----

  /** The read or tag frame an event puts to the deduplicator. */
  function OfferOf(e: Event): Option<Offer> {
    match e.input
    case Read(card, _, _, _) => Some(Offer(card, e.ctx.at, Some(READ_LIFE)))
    case UsbTag(epc, hash) => if |epc| < 8 then None else Some(Offer(hash, e.ctx.at, None))
    case _ => None
  }

  function Offers(es: seq<Event>): seq<Offer> {
    if es == [] then []
    else
      var o := OfferOf(es[|es| - 1]);
      Offers(es[..|es| - 1]) + if o.Some? then [o.value] else []
  }

  /** The table of reads is the deduplicator run on these offers. */
  lemma {:induction false} ReadTable(es: seq<Event>, cfg: Config)
    ensures Run(es, cfg).lastRead == After(Offers(es), DEDUP_WINDOW)
  {
    if es != [] {
      var before := Offers(es[..|es| - 1]);
      var o := OfferOf(es[|es| - 1]);
      ReadTable(es[..|es| - 1], cfg);
      if o.Some? {
        assert (before + [o.value])[..|before|] == before;
      } else {
        assert Offers(es) == before;
      }
    }
  }

  lemma {:induction false} OffersForward(es: seq<Event>, latest: Time)
    requires InTime(es) && (es != [] ==> es[|es| - 1].ctx.at <= latest)
    ensures Forward(Offers(es)) && PurgesAtLeast(Offers(es), DEDUP_WINDOW)
    ensures forall i :: 0 <= i < |Offers(es)| ==> Offers(es)[i].at <= latest
  {
    if es != [] {
      OffersForward(es[..|es| - 1], es[|es| - 1].ctx.at);
    }
  }

  /** A rule that forgets nothing would take a read of the card now. */
  predicate TakesNow(past: seq<Event>, card: string, now: Time) {
    Allowed(LastAllowed(Offers(past), card, DEDUP_WINDOW), now, DEDUP_WINDOW)
  }

  lemma PassesByRule(past: seq<Event>, card: string, now: Time, cfg: Config)
    requires InTime(past) && (past != [] ==> past[|past| - 1].ctx.at <= now)
    ensures Passes(Run(past, cfg).lastRead, card, now, DEDUP_WINDOW) <==> TakesNow(past, card, now)
  {
    ReadTable(past, cfg);
    OffersForward(past, now);
    TableRemembers(Offers(past), DEDUP_WINDOW, card);
  }

  /** The event is a denied read of the card that the rule takes. */
  predicate Denies(past: seq<Event>, e: Event, card: string) {
    && e.input.Read? && e.input.card == card && e.input.verdict == DeniedRead && !e.input.biometric
    && TakesNow(past, card, e.ctx.at)
  }

  predicate Inside(read: Option<Time>, now: Time, window: Time) {
    read.Some? && now - read.value < window
  }

  /** The denied read of a card that still waits for a plate, by a rule that knows no table and
      forgets nothing: a plate settles the card that is alone in the window. */
  ghost function Waiting(es: seq<Event>, card: string, cfg: Config): Option<Time>
    decreases |es|, 0
  {
    if es == [] then None
    else
      var past := es[..|es| - 1];
      var e := es[|es| - 1];
      if Denies(past, e, card) then Some(e.ctx.at)
      else if e.input.Plate? && !cfg.exit && e.input.plate != "" && AloneInside(past, card, cfg, e.ctx.at) then None
      else Waiting(past, card, cfg)
  }

  /** The card is the only one whose read waits inside the window. */
  ghost predicate AloneInside(es: seq<Event>, card: string, cfg: Config, now: Time)
    decreases |es|, 1
  {
    forall k :: Inside(Waiting(es, k, cfg), now, cfg.window) <==> k == card
  }

  predicate Kept(pending: map<string, Time>, waiting: Option<Time>, card: string, now: Time) {
    if card in pending then waiting == Some(pending[card]) && pending[card] <= now
    else waiting.None? || now - waiting.value > READ_LIFE
  }

  /** What the table holds for every card, at time `now`. */
  ghost predicate AllKept(es: seq<Event>, cfg: Config, now: Time) {
    forall card :: Kept(Run(es, cfg).pending, Waiting(es, card, cfg), card, now)
  }

  /** Inside a window no longer than a read's life the table shows every waiting read. */
  lemma ShownExactly(es: seq<Event>, card: string, cfg: Config, earlier: Time, now: Time)
    requires AllKept(es, cfg, earlier) && earlier <= now && cfg.window <= READ_LIFE
    ensures card in Candidates(Run(es, cfg).pending, now, cfg.window) <==>
            Inside(Waiting(es, card, cfg), now, cfg.window)
  {
    assert Kept(Run(es, cfg).pending, Waiting(es, card, cfg), card, earlier);
  }

  /** A plate settles the same card in the table and by the rule. */
  lemma AloneExactly(es: seq<Event>, card: string, cfg: Config, earlier: Time, now: Time)
    requires AllKept(es, cfg, earlier) && earlier <= now && cfg.window <= READ_LIFE
    ensures Candidates(Run(es, cfg).pending, now, cfg.window) == {card} <==> AloneInside(es, card, cfg, now)
  {
    var cands := Candidates(Run(es, cfg).pending, now, cfg.window);
    forall k ensures Inside(Waiting(es, k, cfg), now, cfg.window) <==> k in cands {
      ShownExactly(es, k, cfg, earlier, now);
    }
    SoleMember(cands, card);
  }

  lemma SoleMember(cands: set<string>, card: string)
    ensures cands == {card} <==> forall k :: k in cands <==> k == card
  {
    if forall k :: k in cands <==> k == card {
      assert cands == {card};
    }
  }

  /** One event keeps a card's entry: a denied read writes it, settling deletes it, age drops it. */
  lemma EntryKept(g: Gate, e: Event, card: string, cfg: Config, waiting: Option<Time>, next: Option<Time>,
                  denies: bool, alone: bool)
    requires Kept(g.pending, waiting, card, e.ctx.at)
    requires denies <==> && e.input.Read? && e.input.card == card && e.input.verdict == DeniedRead && !e.input.biometric
                         && Passes(g.lastRead, card, e.ctx.at, DEDUP_WINDOW)
    requires alone <==> Candidates(g.pending, e.ctx.at, cfg.window) == {card}
    requires next == if denies then Some(e.ctx.at)
                     else if e.input.Plate? && !cfg.exit && e.input.plate != "" && alone then None else waiting
    ensures Kept(Handle(g, e, cfg).pending, next, card, e.ctx.at)
  {
  }

  lemma {:induction false} PendingKept(es: seq<Event>, cfg: Config, now: Time)
    requires InTime(es) && cfg.window <= READ_LIFE && (es != [] ==> es[|es| - 1].ctx.at <= now)
    ensures AllKept(es, cfg, now)
  {
    if es != [] {
      var past := es[..|es| - 1];
      var e := es[|es| - 1];
      PendingKept(past, cfg, e.ctx.at);
      forall card ensures Kept(Run(es, cfg).pending, Waiting(es, card, cfg), card, now) {
        CardKept(es, card, cfg);
      }
    }
  }

  lemma CardKept(es: seq<Event>, card: string, cfg: Config)
    requires es != [] && InTime(es) && cfg.window <= READ_LIFE
    requires AllKept(es[..|es| - 1], cfg, es[|es| - 1].ctx.at)
    ensures Kept(Run(es, cfg).pending, Waiting(es, card, cfg), card, es[|es| - 1].ctx.at)
  {
    var past := es[..|es| - 1];
    var e := es[|es| - 1];
    PassesByRule(past, card, e.ctx.at, cfg);
    AloneExactly(past, card, cfg, e.ctx.at, e.ctx.at);
    assert Kept(Run(past, cfg).pending, Waiting(past, card, cfg), card, e.ctx.at);
    EntryKept(Run(past, cfg), e, card, cfg, Waiting(past, card, cfg), Waiting(es, card, cfg), Denies(past, e, card),
              Candidates(Run(past, cfg).pending, e.ctx.at, cfg.window) == {card});
  }

  /** With a correlation window of at most thirty seconds, dropping old reads is never observed: the
      candidates are exactly the tags whose denied read waits and lies inside the window. */
  lemma ForgettingIsUnseen(es: seq<Event>, card: string, cfg: Config, at: Time)
    requires InTime(es) && cfg.window <= READ_LIFE && (es != [] ==> es[|es| - 1].ctx.at <= at)
    ensures ShownAt(es, card, cfg, at)
  {
    PendingKept(es, cfg, at);
    ShownExactly(es, card, cfg, at, at);
  }

  /** At this time the table shows the card exactly if its denied read waits inside the window. */
  ghost predicate ShownAt(es: seq<Event>, card: string, cfg: Config, at: Time) {
    card in Candidates(Run(es, cfg).pending, at, cfg.window) <==> Inside(Waiting(es, card, cfg), at, cfg.window)
  }

  /** Over all runs, cards and times. */
  ghost predicate NeverForgets(cfg: Config) {
    forall es: seq<Event>, card: string, at: Time :: InTime(es) && (es != [] ==> es[|es| - 1].ctx.at <= at) ==>
      ShownAt(es, card, cfg, at)
  }

  /** Dropping old reads is unobservable over all runs if and only if the correlation window does not
      exceed thirty seconds. */
  lemma ForgettingExactly(cfg: Config)
    ensures NeverForgets(cfg) <==> cfg.window <= 30.0
  {
    if cfg.window <= READ_LIFE {
      forall es: seq<Event>, card: string, at: Time | InTime(es) && (es != [] ==> es[|es| - 1].ctx.at <= at)
        ensures ShownAt(es, card, cfg, at)
      {
        ForgettingIsUnseen(es, card, cfg, at);
      }
    } else {
      TooLate(cfg, (READ_LIFE + cfg.window) / 2.0);
    }
  }

  function DenialOf(card: string, at: Time): Event {
    Event(Context(at, false, Db([], [], [], []), None, false), Read(card, "", DeniedRead, false))
  }

  /** A second denied read, later than a read's life but inside the window, drops the first. */
  lemma TooLate(cfg: Config, late: Time)
    requires READ_LIFE < late < cfg.window
    ensures !NeverForgets(cfg)
  {
    var first, second := DenialOf("a", 0.0), DenialOf("b", late);
    var es := [first, second];
    assert es[..1] == [first] && es[..1][..0] == [];
    assert Run(es[..1], cfg).pending == map["a" := 0.0];
    assert Offers(es[..1][..0]) == [] && Denies([], first, "a");
    assert Waiting(es[..1], "a", cfg) == Some(0.0);
    assert Waiting(es, "a", cfg) == Some(0.0);
    assert "a" !in Run(es, cfg).pending;
    assert InTime(es) && !ShownAt(es, "a", cfg, late);
  }
}
