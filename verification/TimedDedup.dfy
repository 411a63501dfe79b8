/** Suppressing repeats inside a time window, with periodic purging of old entries: the pattern the
    gate uses for commands, card reads and tag frames. */
module TimedDedup {
  import opened Basics

  /** A key offered at a time; some call sites purge old entries when they accept, some do not. */
  datatype Offer = Offer(key: string, at: Time, purge: Option<Time>)

  /** Not seen within the window. */
  predicate Passes(seen: map<string, Time>, key: string, now: Time, window: Time) {
    !(key in seen && now - seen[key] < window)
  }

  function Purged(seen: map<string, Time>, now: Time, age: Time): map<string, Time> {
    map k | k in seen && now - seen[k] <= age :: seen[k]
  }

  /** The purge loop: the stale keys are listed first and then deleted one by one. */
  method PurgeOld(seen: map<string, Time>, now: Time, age: Time) returns (kept: map<string, Time>)
    ensures kept == Purged(seen, now, age)
  {
    kept := seen;
    var stale := set k | k in seen && now - seen[k] > age;
    while stale != {}
      invariant stale <= set k | k in seen && now - seen[k] > age
      invariant kept.Keys <= seen.Keys && forall k :: k in kept ==> kept[k] == seen[k]
      invariant forall k :: k in seen && k !in kept ==> now - seen[k] > age
      invariant forall k :: k in kept && now - seen[k] > age ==> k in stale
      decreases stale
    {
      var k :| k in stale;
      kept := kept - {k};
      stale := stale - {k};
    }
  }

  function Recorded(seen: map<string, Time>, o: Offer): map<string, Time> {
    var next := seen[o.key := o.at];
    match o.purge
    case None => next
    case Some(age) => Purged(next, o.at, age)
  }

  /** The table after a run of offers. */
  function After(os: seq<Offer>, window: Time): map<string, Time> {
    if os == [] then map[]
    else
      var before := After(os[..|os| - 1], window);
      var o := os[|os| - 1];
      if Passes(before, o.key, o.at, window) then Recorded(before, o) else before
  }

  /** Is the offer at place `i` of a run let through? */
  predicate PassesAt(os: seq<Offer>, i: nat, window: Time)
    requires i < |os|
  {
    Passes(After(os[..i], window), os[i].key, os[i].at, window)
  }

  predicate Forward(os: seq<Offer>) {
    forall i, j :: 0 <= i < j < |os| ==> os[i].at <= os[j].at
  }

  predicate PurgesAtLeast(os: seq<Offer>, age: Time) {
    forall i :: 0 <= i < |os| && os[i].purge.Some? ==> os[i].purge.value >= age
  }

  // ---- the simple rule ----

  predicate Allowed(last: Option<Time>, now: Time, window: Time) {
    last.None? || now - last.value >= window
  }

  /** When the rule last let a key through: the rule knows no table and never forgets. */
  function LastAllowed(os: seq<Offer>, key: string, window: Time): Option<Time> {
    if os == [] then None
    else
      var o := os[|os| - 1];
      var last := LastAllowed(os[..|os| - 1], key, window);
      if o.key == key && Allowed(last, o.at, window) then Some(o.at) else last
  }

  predicate AllowedAt(os: seq<Offer>, i: nat, window: Time)
    requires i < |os|
  {
    Allowed(LastAllowed(os[..i], os[i].key, window), os[i].at, window)
  }

  /** A recorded key carries the time it was last let through; a key that is missing was not let
      through within the last `window`. */
  predicate Remembers(os: seq<Offer>, window: Time, key: string) {
    var seen := After(os, window);
    var last := LastAllowed(os, key, window);
    if key in seen then last == Some(seen[key])
    else last.None? || (os != [] && os[|os| - 1].at - last.value >= window)
  }

  lemma {:induction false} TableRemembers(os: seq<Offer>, window: Time, key: string)
    requires Forward(os) && PurgesAtLeast(os, window)
    ensures Remembers(os, window, key)
  {
    if os != [] {
      var before := os[..|os| - 1];
      TableRemembers(before, window, key);
      assert before != [] ==> before[|before| - 1].at <= os[|os| - 1].at;
    }
  }

  /** As long as entries are kept for at least the window, the table decides by the rule: purging is
      never observed. */
  lemma PurgeUnseen(os: seq<Offer>, i: nat, window: Time)
    requires i < |os| && Forward(os) && PurgesAtLeast(os, window)
    ensures PassesAt(os, i, window) <==> AllowedAt(os, i, window)
  {
    var before := os[..i];
    TableRemembers(before, window, os[i].key);
    assert i > 0 ==> before[i - 1] == os[i - 1];
  }

  lemma {:induction false} LastIsRecent(os: seq<Offer>, i: nat, window: Time)
    requires i < |os| && Forward(os) && AllowedAt(os, i, window)
    ensures LastAllowed(os, os[i].key, window).Some? && LastAllowed(os, os[i].key, window).value >= os[i].at
  {
    var n := |os| - 1;
    var before := os[..n];
    if i < n {
      assert before[..i] == os[..i];
      LastIsRecent(before, i, window);
    }
  }

  /** Two offers of one key that are let through lie at least the window apart. */
  lemma Spaced(os: seq<Offer>, i: nat, j: nat, window: Time)
    requires i < j < |os| && Forward(os) && PurgesAtLeast(os, window) && os[i].key == os[j].key
    requires PassesAt(os, i, window) && PassesAt(os, j, window)
    ensures os[j].at - os[i].at >= window
  {
    PurgeUnseen(os, i, window);
    PurgeUnseen(os, j, window);
    assert os[..j][..i] == os[..i];
    LastIsRecent(os[..j], i, window);
  }

  // ---- offers scattered over a longer trace ----

  /** A trace in which some steps offer a key. */
  function Collect(cs: seq<Option<Offer>>): seq<Offer> {
    if cs == [] then []
    else
      var c := cs[|cs| - 1];
      Collect(cs[..|cs| - 1]) + if c.Some? then [c.value] else []
  }

  /** The table after a trace, one step at a time. */
  lemma AfterStep(cs: seq<Option<Offer>>, window: Time)
    requires cs != []
    ensures var before := After(Collect(cs[..|cs| - 1]), window);
            var c := cs[|cs| - 1];
            After(Collect(cs), window) ==
              if c.Some? && Passes(before, c.value.key, c.value.at, window) then Recorded(before, c.value) else before
  {
    var init := Collect(cs[..|cs| - 1]);
    var c := cs[|cs| - 1];
    if c.Some? {
      assert (init + [c.value])[..|init|] == init;
    } else {
      assert Collect(cs) == init;
    }
  }

  predicate PassesIn(cs: seq<Option<Offer>>, i: nat, window: Time)
    requires i < |cs|
  {
    cs[i].Some? && Passes(After(Collect(cs[..i]), window), cs[i].value.key, cs[i].value.at, window)
  }

  predicate ForwardIn(cs: seq<Option<Offer>>) {
    forall i, j :: 0 <= i < j < |cs| && cs[i].Some? && cs[j].Some? ==> cs[i].value.at <= cs[j].value.at
  }

  predicate PurgesIn(cs: seq<Option<Offer>>, age: Time) {
    forall i :: 0 <= i < |cs| && cs[i].Some? && cs[i].value.purge.Some? ==> cs[i].value.purge.value >= age
  }

  lemma {:induction false} CollectedBounds(cs: seq<Option<Offer>>, latest: Time, age: Time)
    requires ForwardIn(cs) && PurgesIn(cs, age)
    requires forall i :: 0 <= i < |cs| && cs[i].Some? ==> cs[i].value.at <= latest
    ensures Forward(Collect(cs)) && PurgesAtLeast(Collect(cs), age)
    ensures forall k :: 0 <= k < |Collect(cs)| ==> Collect(cs)[k].at <= latest
  {
    if cs != [] {
      var c := cs[|cs| - 1];
      CollectedBounds(cs[..|cs| - 1], if c.Some? then c.value.at else latest, age);
    }
  }

  lemma {:induction false} CollectPrefix(cs: seq<Option<Offer>>, i: nat)
    requires i <= |cs|
    ensures Collect(cs[..i]) <= Collect(cs)
  {
    if i < |cs| {
      assert cs[..|cs| - 1][..i] == cs[..i];
      CollectPrefix(cs[..|cs| - 1], i);
    } else {
      assert cs[..i] == cs;
    }
  }

  /** The place of a step's offer among all offers. */
  lemma PlaceOf(cs: seq<Option<Offer>>, i: nat)
    requires i < |cs| && cs[i].Some?
    ensures var p := |Collect(cs[..i])|;
            p < |Collect(cs)| && Collect(cs)[..p] == Collect(cs[..i]) && Collect(cs)[p] == cs[i].value
  {
    CollectPrefix(cs, i);
    CollectPrefix(cs, i + 1);
    assert cs[..i + 1][..i] == cs[..i];
  }

  lemma Latest(cs: seq<Option<Offer>>) returns (latest: Time)
    ensures forall i :: 0 <= i < |cs| && cs[i].Some? ==> cs[i].value.at <= latest
  {
    latest := 0.0;
    for n := 0 to |cs|
      invariant forall i :: 0 <= i < n && cs[i].Some? ==> cs[i].value.at <= latest
    {
      if cs[n].Some? && cs[n].value.at > latest { latest := cs[n].value.at; }
    }
  }

  /** The rule, on a trace. */
  lemma PurgeUnseenIn(cs: seq<Option<Offer>>, i: nat, window: Time)
    requires i < |cs| && cs[i].Some? && ForwardIn(cs) && PurgesIn(cs, window)
    ensures PassesIn(cs, i, window) <==>
            Allowed(LastAllowed(Collect(cs[..i]), cs[i].value.key, window), cs[i].value.at, window)
  {
    var latest := Latest(cs);
    CollectedBounds(cs, latest, window);
    PlaceOf(cs, i);
    PurgeUnseen(Collect(cs), |Collect(cs[..i])|, window);
  }

  /** Spacing, on a trace. */
  lemma SpacedIn(cs: seq<Option<Offer>>, i: nat, j: nat, window: Time)
    requires i < j < |cs| && ForwardIn(cs) && PurgesIn(cs, window)
    requires PassesIn(cs, i, window) && PassesIn(cs, j, window) && cs[i].value.key == cs[j].value.key
    ensures cs[j].value.at - cs[i].value.at >= window
  {
    var latest := Latest(cs);
    CollectedBounds(cs, latest, window);
    PlaceOf(cs, i);
    PlaceOf(cs, j);
    assert cs[..j][..i] == cs[..i] && cs[..j][i] == cs[i];
    PlaceOf(cs[..j], i);
    Spaced(Collect(cs), |Collect(cs[..i])|, |Collect(cs[..j])|, window);
  }

  /** Every offer of a run purges entries older than `age`. */
  predicate Uniform(os: seq<Offer>, age: Time) {
    forall i :: 0 <= i < |os| ==> os[i].purge == Some(age)
  }

  ghost predicate NeverObserved(window: Time, age: Time) {
    forall os: seq<Offer>, i: nat :: i < |os| && Forward(os) && Uniform(os, age) ==>
      (PassesAt(os, i, window) <==> AllowedAt(os, i, window))
  }

  /** A run on which purging too early shows: another key's offer purges the first key's entry. */
  function EarlyPurge(window: Time, age: Time): seq<Offer> {
    var t := if age < 0.0 then 0.0 else (age + window) / 2.0;
    [Offer("a", 0.0, Some(age)), Offer("b", t, Some(age)), Offer("a", t, Some(age))]
  }

  lemma EarlyPurgeShows(window: Time, age: Time)
    requires age < window && window > 0.0
    ensures var os := EarlyPurge(window, age);
            Forward(os) && Uniform(os, age) && PassesAt(os, 2, window) && !AllowedAt(os, 2, window)
  {
    var os := EarlyPurge(window, age);
    assert os[..2][..1] == os[..1] && os[..1][..0] == [];
    assert After(os[..1], window) == Recorded(map[], os[0]);
    assert "a"[0] != "b"[0];
    assert LastAllowed(os[..1], "a", window) == Some(0.0);
    assert LastAllowed(os[..2], "a", window) == Some(0.0);
  }

  /** Purging is unobservable over all runs exactly when entries are kept for the whole window (or
      the window is empty). */
  lemma PurgeUnseenExactly(window: Time, age: Time)
    ensures NeverObserved(window, age) <==> window <= age || window <= 0.0
  {
    if window <= age || window <= 0.0 {
      forall os: seq<Offer>, i: nat | i < |os| && Forward(os) && Uniform(os, age)
        ensures PassesAt(os, i, window) <==> AllowedAt(os, i, window)
      {
        if window <= age {
          PurgeUnseen(os, i, window);
        } else {
          TimesPast(os[..i], window, os[i].key, os[i].at);
        }
      }
    } else {
      EarlyPurgeShows(window, age);
    }
  }

  lemma {:induction false} TimesPast(os: seq<Offer>, window: Time, key: string, now: Time)
    requires forall i :: 0 <= i < |os| ==> os[i].at <= now
    ensures LastAllowed(os, key, window).Some? ==> LastAllowed(os, key, window).value <= now
    ensures key in After(os, window) ==> After(os, window)[key] <= now
  {
    if os != [] { TimesPast(os[..|os| - 1], window, key, now); }
  }
}
