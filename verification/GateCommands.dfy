/** Remote commands at the gate: expired ones are refused, repeats are suppressed. */
module GateCommands {
  import opened Basics
  import opened TimedDedup

  const REPLAY_WINDOW: Time := 60.0

  /** What a publisher stamps by default. */
  const COMMAND_TTL: Time := 30.0

  /** A command as it arrives: the same command may arrive any number of times. */
  datatype Delivery = Delivery(eid: string, ttl: Option<Time>, at: Time)

  predicate Expired(d: Delivery) {
    d.ttl.Some? && d.ttl.value < d.at
  }

  /** An id never seen counts as seen at time zero. */
  predicate Suppressed(seen: map<string, Time>, d: Delivery) {
    (if d.eid in seen then seen[d.eid] else 0.0) > d.at - REPLAY_WINDOW
  }

  predicate Acts(seen: map<string, Time>, d: Delivery) {
    !Expired(d) && !Suppressed(seen, d)
  }

  function Next(seen: map<string, Time>, d: Delivery): map<string, Time> {
    if Acts(seen, d) then Purged(seen[d.eid := d.at], d.at, REPLAY_WINDOW) else seen
  }

  function Run(ds: seq<Delivery>): map<string, Time> {
    if ds == [] then map[] else Next(Run(ds[..|ds| - 1]), ds[|ds| - 1])
  }

  predicate ActsAt(ds: seq<Delivery>, i: nat)
    requires i < |ds|
  {
    Acts(Run(ds[..i]), ds[i])
  }

  predicate InTime(ds: seq<Delivery>) {
    forall i, j :: 0 <= i < j < |ds| ==> ds[i].at <= ds[j].at
  }

  datatype Status = Opened | OpenFailed | HeldOpen | Restored | Unsupported

  /** What a command that acts leads to, given what the panel can do. */
  function StatusOf(action: string, opens: bool, holds: bool): Option<Status> {
    if action == "open" then Some(if opens then Opened else OpenFailed)
    else if action == "hold_open" || action == "evacuate" then Some(if holds then HeldOpen else Unsupported)
    else if action == "restore" || action == "lockdown" then Some(if holds then Restored else Unsupported)
    else None
  }

  /** Which commands earn which status: an opening tells whether the barrier moved, the holding and
      releasing actions whether the panel can do them; no other action earns any. */
  lemma StatusExactly(action: string, opens: bool, holds: bool)
    ensures var s := StatusOf(action, opens, holds);
            && (s == Some(Opened) <==> action == "open" && opens)
            && (s == Some(OpenFailed) <==> action == "open" && !opens)
            && (s == Some(HeldOpen) <==> action in {"hold_open", "evacuate"} && holds)
            && (s == Some(Restored) <==> action in {"restore", "lockdown"} && holds)
            && (s == Some(Unsupported) <==> action in {"hold_open", "evacuate", "restore", "lockdown"} && !holds)
  {
  }

  class CommandGuard {
    var seenIds: map<string, Time>

    constructor ()
      ensures seenIds == map[]
    {
      seenIds := map[];
    }

    /** The status to publish, if the command acts and its action is known. */
    method OnCommand(d: Delivery, action: string, opens: bool, holds: bool) returns (status: Option<Status>)
      modifies this
      ensures seenIds == Next(old(seenIds), d)
      ensures status == if Acts(old(seenIds), d) then StatusOf(action, opens, holds) else None
    {
      status := None;
      if d.ttl.Some? && d.ttl.value < d.at {
        return;
      }
      if (if d.eid in seenIds then seenIds[d.eid] else 0.0) > d.at - REPLAY_WINDOW {
        return;
      }
      seenIds := seenIds[d.eid := d.at];
      seenIds := PurgeOld(seenIds, d.at, REPLAY_WINDOW);
      if action == "open" {
        status := Some(if opens then Opened else OpenFailed);
      } else if action == "hold_open" || action == "evacuate" {
        status := Some(if holds then HeldOpen else Unsupported);
      } else if action == "restore" || action == "lockdown" {
        status := Some(if holds then Restored else Unsupported);
      }
    }
  }

  // ---- the guard is a timed deduplicator ----

  /** Deliveries that reach the duplicate test; in the first minute of the epoch none does. */
  predicate Offered(d: Delivery) {
    !Expired(d) && d.at >= REPLAY_WINDOW
  }

  function OfferOf(d: Delivery): Option<Offer> {
    if Offered(d) then Some(Offer(d.eid, d.at, Some(REPLAY_WINDOW))) else None
  }

  function Offers(ds: seq<Delivery>): seq<Option<Offer>> {
    seq(|ds|, i requires 0 <= i < |ds| => OfferOf(ds[i]))
  }

  lemma OffersUpTo(ds: seq<Delivery>, i: nat)
    requires i <= |ds|
    ensures Offers(ds[..i]) == Offers(ds)[..i]
  {
  }

  predicate LateEntries(seen: map<string, Time>) {
    forall k :: k in seen ==> seen[k] >= REPLAY_WINDOW
  }

  lemma {:induction false} RunIsDedup(ds: seq<Delivery>)
    ensures Run(ds) == After(Collect(Offers(ds)), REPLAY_WINDOW) && LateEntries(Run(ds))
  {
    if ds != [] {
      var n := |ds| - 1;
      RunIsDedup(ds[..n]);
      OffersUpTo(ds, n);
      AfterStep(Offers(ds), REPLAY_WINDOW);
    }
  }

  /** A delivery acts exactly when it is offered and the deduplicator lets its offer through. */
  lemma ActsIsPass(ds: seq<Delivery>, i: nat)
    requires i < |ds|
    ensures ActsAt(ds, i) <==> PassesIn(Offers(ds), i, REPLAY_WINDOW)
  {
    RunIsDedup(ds[..i]);
    OffersUpTo(ds, i);
  }

  // ---- what the gate promises ----

  /** When a command id last acted. */
  function LastActed(ds: seq<Delivery>, eid: string): Option<Time> {
    if ds == [] then None
    else
      var n := |ds| - 1;
      if ds[n].eid == eid && ActsAt(ds, n) then Some(ds[n].at) else LastActed(ds[..n], eid)
  }

  lemma {:induction false} LastActedIsAllowed(ds: seq<Delivery>, eid: string)
    requires InTime(ds)
    ensures LastActed(ds, eid) == LastAllowed(Collect(Offers(ds)), eid, REPLAY_WINDOW)
  {
    if ds != [] {
      var n := |ds| - 1;
      LastActedIsAllowed(ds[..n], eid);
      ActsIsPass(ds, n);
      OffersUpTo(ds, n);
      var os := Collect(Offers(ds));
      if Offered(ds[n]) {
        assert os[..|os| - 1] == Collect(Offers(ds[..n]));
        PurgeUnseenIn(Offers(ds), n, REPLAY_WINDOW);
      } else {
        assert os == Collect(Offers(ds[..n]));
      }
    }
  }

  /** Forgetting old ids never changes a decision: a command acts exactly when it is not expired and
      its id has not acted within the last minute, however long ago it acted before. */
  lemma ForgettingIsUnseen(ds: seq<Delivery>, i: nat)
    requires i < |ds| && InTime(ds) && ds[i].at >= 60.0
    ensures ActsAt(ds, i) <==> && (ds[i].ttl.None? || ds[i].ttl.value >= ds[i].at)
                               && Allowed(LastActed(ds[..i], ds[i].eid), ds[i].at, 60.0)
  {
    ActsIsPass(ds, i);
    LastActedIsAllowed(ds[..i], ds[i].eid);
    OffersUpTo(ds, i);
    if Offered(ds[i]) {
      PurgeUnseenIn(Offers(ds), i, REPLAY_WINDOW);
    }
  }

  /** Two actions on one id lie at least a minute apart. */
  lemma MinuteApart(ds: seq<Delivery>, i: nat, j: nat)
    requires i < j < |ds| && InTime(ds) && ds[i].eid == ds[j].eid
    ensures ActsAt(ds, i) && ActsAt(ds, j) ==> ds[j].at - ds[i].at >= 60.0
  {
    ActsIsPass(ds, i);
    ActsIsPass(ds, j);
    if ActsAt(ds, i) && ActsAt(ds, j) {
      SpacedIn(Offers(ds), i, j, REPLAY_WINDOW);
    }
  }

  /** Every delivery carries the expiry its publisher stamped, and none arrives before it was issued. */
  ghost predicate Stamped(ds: seq<Delivery>, issued: string -> Time, life: Time) {
    forall i :: 0 <= i < |ds| ==> ds[i].ttl == Some(issued(ds[i].eid) + life) && ds[i].at >= issued(ds[i].eid)
  }

  ghost predicate AtMostOnce(ds: seq<Delivery>) {
    forall i, j :: 0 <= i < j < |ds| && ds[i].eid == ds[j].eid && ActsAt(ds, i) ==> !ActsAt(ds, j)
  }

  /** A stamped command acts at most once, over any pattern of redelivery. */
  lemma StampedActsOnce(ds: seq<Delivery>, issued: string -> Time, life: Time)
    requires InTime(ds) && Stamped(ds, issued, life) && life < 60.0
    ensures AtMostOnce(ds)
  {
    forall i, j | 0 <= i < j < |ds| && ds[i].eid == ds[j].eid && ActsAt(ds, i) ensures !ActsAt(ds, j) {
      MinuteApart(ds, i, j);
    }
  }

  ghost predicate AlwaysOnce(life: Time) {
    forall ds, issued :: InTime(ds) && Stamped(ds, issued, life) ==> AtMostOnce(ds)
  }

  /** A life of a minute or more lets a redelivery act again. */
  function SecondAction(life: Time): seq<Delivery> {
    [Delivery("a", Some(REPLAY_WINDOW + life), REPLAY_WINDOW),
     Delivery("a", Some(REPLAY_WINDOW + life), 2.0 * REPLAY_WINDOW)]
  }

  lemma SecondActionActs(life: Time)
    requires life >= REPLAY_WINDOW
    ensures var ds := SecondAction(life);
            InTime(ds) && Stamped(ds, _ => REPLAY_WINDOW, life) && ActsAt(ds, 0) && ActsAt(ds, 1)
  {
    var ds := SecondAction(life);
    assert ds[..1][..0] == [];
    assert ds[..1][0] == ds[0];
    assert Run([]) == map[];
    assert Run(ds[..1]) == Next(map[], ds[0]);
  }

  /** Over all runs, the guarantee holds exactly for lives below the replay window; the publisher's
      default is below it. */
  lemma OnceExactly(life: Time)
    ensures AlwaysOnce(life) <==> life < 60.0
    ensures AlwaysOnce(COMMAND_TTL) && COMMAND_TTL == 30.0
  {
    forall l: Time, ds, issued | l < REPLAY_WINDOW && InTime(ds) && Stamped(ds, issued, l) ensures AtMostOnce(ds) {
      StampedActsOnce(ds, issued, l);
    }
    if life >= REPLAY_WINDOW {
      SecondActionActs(life);
    }
  }
}
