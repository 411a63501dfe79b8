/** Every handler of the gate tells the truth: one audit record for each event that counts, and a
    barrier that moves exactly when the tables or the cloud say so. */
module AuditTruth {
  import opened Basics
  import opened Roster
  import opened LocalDecision
  import opened Correlation
  import CorrelationRuns

  /** Seen less than two seconds ago. */
  predicate JustRead(g: Gate, key: string, now: Time) {
    key in g.lastRead && now - g.lastRead[key] < 2.0
  }

  /** One more record, and nothing else but the table of reads, the pending reads and the barrier. */
  predicate OneMoreAudit(g: Gate, g': Gate) {
    |g'.audits| == |g.audits| + 1 && g.audits <= g'.audits && g'.pairs == g.pairs
  }

  // ---- USB tags ----

  /** The cloud, if the gate is online and it allows, or else the local tables. */
  ghost predicate TagAdmitted(c: Context, hash: string) {
    && !ListedTag(c.db, Fastag, hash)
    && ((c.online && c.cloud.Some? && c.cloud.value.Allow?) || WelcomeTag(c.db, Fastag, hash, c.at))
  }

  /** A tag over USB: a frame shorter than eight characters or read again within two seconds changes
      nothing. Any other is noted as read and audited once, without pairing; the barrier moves exactly
      if the tag is admitted and the barrier can move, and the record says what happened: granted if
      admitted, denied if the tag is listed, otherwise left to the guard. */
  lemma OneTruthfulTag(g: Gate, c: Context, epc: string, hash: string)
    ensures var g' := HandleUsb(g, c, epc, hash);
            if |epc| < 8 || JustRead(g, hash, c.at) then g' == g
            else
              && OneMoreAudit(g, g') && g'.pending == g.pending && g'.lastRead == g.lastRead[hash := c.at]
              && var a := g'.audits[|g.audits|];
                 && a.raw == epc && a.offline == !c.online && !a.paired && !a.ambiguous
                 && (a.gateOpened <==> TagAdmitted(c, hash) && c.barrier)
                 && g'.opens == g.opens + (if a.gateOpened then 1 else 0)
                 && a.outcome == (if TagAdmitted(c, hash) then Granted
                                  else if ListedTag(c.db, Fastag, hash) then Denied else Review)
  {
    ListedIsBlacklisted(c.db, hash, Fastag);
    var i := TagDecision(c.db, Fastag, hash, c.at);
  }

  // ---- reads at the panel ----

  /** The key is noted now; every other entry stays exactly if it is no more than thirty seconds old. */
  ghost predicate Noted(was: map<string, Time>, now': map<string, Time>, key: string, now: Time) {
    && key in now' && now'[key] == now
    && forall k :: k != key ==>
         && (k in now' <==> k in was && now - was[k] <= 30.0)
         && (k in now' ==> now'[k] == was[k])
  }

  /** What a read writes to the audit: a person under the user id, a card the panel let in; nothing for
      a card the panel refused. */
  function ReadRecord(c: Context, card: string, user: string, verdict: Verdict, biometric: bool): seq<Audit> {
    if biometric then
      [Audit(if user == "" then card else user, if verdict == AllowedRead then Granted else Denied, false, false, false,
             !c.online)]
    else if verdict == AllowedRead then [Audit(card, Granted, false, false, false, !c.online)]
    else []
  }

  /** A read at the panel never moves the barrier and never pairs. A repeat within two seconds changes
      nothing; any other is noted and written to the audit, and a card the panel refused is left
      pending for a plate. */
  lemma OneTruthfulRead(g: Gate, c: Context, card: string, user: string, verdict: Verdict, biometric: bool)
    ensures var g' := HandleRead(g, c, Read(card, user, verdict, biometric));
            && g'.opens == g.opens && g'.pairs == g.pairs
            && (if JustRead(g, card, c.at) then g' == g
                else
                  && Noted(g.lastRead, g'.lastRead, card, c.at)
                  && g'.audits == g.audits + ReadRecord(c, card, user, verdict, biometric)
                  && (if verdict == DeniedRead && !biometric then Noted(g.pending, g'.pending, card, c.at)
                      else g'.pending == g.pending))
  {
  }

  // ---- plates ----

  predicate CloudSays(c: Context, d: Decision) {
    c.online && c.cloud == Some(d)
  }

  /** A listed plate never; otherwise the cloud if it allows, or the local tables, which count beside
      a pending tag and whenever the cloud gives no answer. */
  ghost predicate PlateAdmitted(c: Context, plate: string, tagPending: bool) {
    && !ListedPlate(c.db, plate)
    && ((c.online && c.cloud.Some? && c.cloud.value.Allow?) ||
        ((tagPending || !c.online || c.cloud == None) && WelcomePlate(c.db, plate, c.at)))
  }

  /** A plate at the entry gate is audited once: granted exactly if admitted, denied if listed or, with
      no tag pending, if the cloud denies, otherwise left to the guard. The barrier moves exactly if the
      plate is admitted and the barrier can move, and the record says so. */
  lemma OneTruthfulPlate(g: Gate, c: Context, plate: string, window: Time)
    requires plate != ""
    ensures var g' := HandlePlate(g, c, plate, window);
            var tagPending := exists k :: k in g.pending && c.at - g.pending[k] < window;
            && |g'.audits| == |g.audits| + 1 && g.audits <= g'.audits && g'.lastRead == g.lastRead
            && var a := g'.audits[|g.audits|];
               && a.raw == plate && a.offline == !c.online
               && (a.gateOpened <==> PlateAdmitted(c, plate, tagPending) && c.barrier)
               && g'.opens == g.opens + (if a.gateOpened then 1 else 0)
               && a.outcome == (if PlateAdmitted(c, plate, tagPending) then Granted
                                else if ListedPlate(c.db, plate) || (!tagPending && CloudSays(c, Deny)) then Denied
                                else Review)
  {
    ListedIsBlacklisted(c.db, plate, Anpr);
    var i := PlateDecision(c.db, plate, c.at);
    CorrelationRuns.OneTruthfulAudit(g, c, plate, window);
    var cands := Candidates(g.pending, c.at, window);
    if cands == {} {
      forall k | k in g.pending ensures c.at - g.pending[k] >= window {
        assert k !in cands;
      }
    } else {
      var k :| k in cands;
      assert k in g.pending && c.at - g.pending[k] < window;
    }
  }

  /** Offline the barrier moves for a plate exactly if the local tables welcome it and it can move. */
  lemma OfflineBarrier(g: Gate, c: Context, plate: string, window: Time)
    requires plate != "" && !c.online
    ensures HandlePlate(g, c, plate, window).opens ==
            g.opens + if WelcomePlate(c.db, plate, c.at) && c.barrier then 1 else 0
  {
    OneTruthfulPlate(g, c, plate, window);
  }

  // ---- the tags that wait ----

  /** A refused read of this tag waits inside the window. */
  predicate Waits(g: Gate, now: Time, window: Time, k: string) {
    k in g.pending && now - g.pending[k] < window
  }

  /** And no other does. */
  ghost predicate WaitsAlone(g: Gate, now: Time, window: Time, k: string) {
    Waits(g, now, window, k) && forall j :: Waits(g, now, window, j) ==> j == k
  }

  /** The plate is let in as a visitor's: by the cloud's word, or else because no vehicle has it. */
  ghost predicate VisitorHere(c: Context, plate: string) {
    if c.online && c.cloud.Some? && c.cloud.value.Allow? then c.cloud.value.match_.kind == VisitorPass
    else !ResidentPlate(c.db, NormPlate(plate))
  }

  lemma AloneIsSole(g: Gate, now: Time, window: Time, k: string)
    requires WaitsAlone(g, now, window, k)
    ensures Candidates(g.pending, now, window) == {k} && Sole({k}) == Some(k)
  {
    var cands := Candidates(g.pending, now, window);
    forall j ensures j in cands <==> j == k {
      assert j in cands <==> Waits(g, now, window, j);
    }
    var j :| {k} == {j};
    assert j in {k};
  }

  /** A plate uses up the tag that waits alone, whatever it decides; it is bonded to that tag exactly if
      the gate is online and the plate let in as a resident's. */
  lemma LoneTagSettled(g: Gate, c: Context, plate: string, window: Time, k: string)
    requires plate != "" && WaitsAlone(g, c.at, window, k)
    ensures var g' := HandlePlate(g, c, plate, window);
            var bonded := c.online && PlateAdmitted(c, plate, true) && !VisitorHere(c, plate);
            && g'.pending == g.pending - {k}
            && g'.pairs == g.pairs + (if bonded then [Pair(k, plate, g.pending[k], c.at)] else [])
            && |g'.audits| == |g.audits| + 1 && g'.audits[|g.audits|].paired == bonded
            && !g'.audits[|g.audits|].ambiguous
  {
    AloneIsSole(g, c.at, window, k);
    ListedIsBlacklisted(c.db, plate, Anpr);
    var i := PlateDecision(c.db, plate, c.at);
  }

  /** With no tag waiting, or with several, all stay and none is bonded. */
  lemma OtherTagsStay(g: Gate, c: Context, plate: string, window: Time)
    requires forall k :: !WaitsAlone(g, c.at, window, k)
    ensures var g' := HandlePlate(g, c, plate, window);
            g'.pending == g.pending && g'.pairs == g.pairs
  {
    var cands := Candidates(g.pending, c.at, window);
    forall k ensures cands != {k} {
      if cands == {k} {
        assert forall j :: Waits(g, c.at, window, j) ==> j in cands;
        assert k in cands && WaitsAlone(g, c.at, window, k);
      }
    }
  }

  // ---- the exit gate, and alarms ----

  /** At the exit a plate, and anywhere an alarm, is audited once and changes nothing else. */
  lemma OnlyAudited(g: Gate, c: Context, input: Input, cfg: Config)
    requires input.Alarm? || (input.Plate? && cfg.exit)
    ensures var g' := Handle(g, Event(c, input), cfg);
            && OneMoreAudit(g, g') && g'.opens == g.opens && g'.pending == g.pending && g'.lastRead == g.lastRead
            && var a := g'.audits[|g.audits|];
               && a.raw == (if input.Alarm? then "c3_alarm" else input.plate)
               && a.outcome == (if input.Alarm? then Raised else Granted)
               && !a.gateOpened && !a.paired && !a.ambiguous && a.offline == !c.online
  {
  }
}
