/** The tap buffer: events a panel posts are de-duplicated against a bounded ring of keys and
    buffered until drained. */
module TapRing {
  import opened Basics
  import opened PyText
  import opened Wire

  const RING_SIZE: nat := 5000

  /** One access read. */
  datatype Tap = Tap(card: string, userId: string, biometric: bool, verify: string, allowed: bool, code: int,
                     door: int, index: string, timestamp: string)

  /** What waits in the event buffer: reads, and alarms raised by panel telemetry. */
  datatype Item = Read(tap: Tap) | Alarm(bits: string)

  // ---- the ring and the simple rule it stands for ----

  datatype Ring = Ring(keys: seq<string>, seen: set<string>, events: seq<Item>)

  const EMPTY_RING := Ring([], {}, [])

  /** The keys once a new one has come in: the oldest makes room when the ring is full. */
  function NextKeys(keys: seq<string>, key: string): seq<string> {
    (if |keys| == RING_SIZE then keys[1..] else keys) + [key]
  }

  function NextSeen(keys: seq<string>, seen: set<string>, key: string): set<string> {
    (if |keys| == RING_SIZE then seen - {keys[0]} else seen) + {key}
  }

  /** One tap offered to the ring. */
  function Offer(r: Ring, key: string, tap: Tap): Ring {
    if key in r.seen then r
    else Ring(NextKeys(r.keys, key), NextSeen(r.keys, r.seen, key), r.events + [Read(tap)])
  }

  datatype Step = Tapped(key: string, tap: Tap) | Raised(bits: string) | Drained

  function Apply(r: Ring, s: Step): Ring {
    match s
    case Tapped(key, tap) => Offer(r, key, tap)
    case Raised(bits) => r.(events := r.events + [Alarm(bits)])
    case Drained => r.(events := [])
  }

  function Run(r: Ring, ss: seq<Step>): Ring {
    if ss == [] then r else Apply(Run(r, ss[..|ss| - 1]), ss[|ss| - 1])
  }

  /** Everything a run has handed out through drains, in order. */
  function DrainedItems(r: Ring, ss: seq<Step>): seq<Item> {
    if ss == [] then []
    else
      var before := ss[..|ss| - 1];
      DrainedItems(r, before) + if ss[|ss| - 1].Drained? then Run(r, before).events else []
  }

  /** The last `n` elements. */
  function Last<T>(s: seq<T>, n: nat): seq<T> {
    if |s| <= n then s else s[|s| - n..]
  }

  /** The simple rule: a key is accepted unless it is among the last RING_SIZE accepted keys. */
  function Accepted(ss: seq<Step>): seq<string> {
    if ss == [] then []
    else
      var before := Accepted(ss[..|ss| - 1]);
      match ss[|ss| - 1]
      case Tapped(key, _) => if key in Last(before, RING_SIZE) then before else before + [key]
      case _ => before
  }

  /** The items of the accepted taps and of all alarms, in order of arrival. */
  function AcceptedItems(ss: seq<Step>): seq<Item> {
    if ss == [] then []
    else
      var before := ss[..|ss| - 1];
      AcceptedItems(before) +
      match ss[|ss| - 1]
      case Tapped(key, tap) => if key in Last(Accepted(before), RING_SIZE) then [] else [Read(tap)]
      case Raised(bits) => [Alarm(bits)]
      case Drained => []
  }

  predicate NoRepeat(s: seq<string>) {
    forall i, j :: 0 <= i < j < |s| ==> s[i] != s[j]
  }

  /** Any RING_SIZE + 1 consecutive keys are distinct. */
  predicate SpreadOut(s: seq<string>) {
    forall i, j :: 0 <= i < j < |s| && j - i <= RING_SIZE ==> s[i] != s[j]
  }

  lemma OfferKeepsRule(r: Ring, key: string, tap: Tap, accepted: seq<string>)
    requires r.keys == Last(accepted, RING_SIZE) && r.seen == (set k | k in r.keys) && SpreadOut(accepted)
    ensures var accepted' := if key in Last(accepted, RING_SIZE) then accepted else accepted + [key];
            var r' := Offer(r, key, tap);
            && r'.keys == Last(accepted', RING_SIZE) && r'.seen == (set k | k in r'.keys) && SpreadOut(accepted')
  {
    if key !in r.seen {
      var accepted' := accepted + [key];
      var r' := Offer(r, key, tap);
      assert r'.keys == Last(accepted', RING_SIZE);
      forall i | 0 <= i < |accepted| && |accepted| - i <= RING_SIZE ensures accepted[i] != key {
        var start := |accepted| - |r.keys|;
        assert accepted[i] == r.keys[i - start];
      }
      if |r.keys| == RING_SIZE {
        assert r.keys == [r.keys[0]] + r.keys[1..];
        assert r.keys[0] !in r.keys[1..];
      }
    }
  }

  /** The ring follows the rule. */
  ghost predicate Follows(r: Ring, accepted: seq<string>) {
    r.keys == Last(accepted, RING_SIZE) && r.seen == (set k | k in r.keys) && SpreadOut(accepted)
  }

  lemma {:induction false} RingFollows(ss: seq<Step>)
    ensures Follows(Run(EMPTY_RING, ss), Accepted(ss))
  {
    if ss != [] {
      var before := ss[..|ss| - 1];
      RingFollows(before);
      var s := ss[|ss| - 1];
      if s.Tapped? {
        OfferKeepsRule(Run(EMPTY_RING, before), s.key, s.tap, Accepted(before));
      }
    }
  }

  lemma {:induction false} NothingLostOrRepeated(ss: seq<Step>)
    ensures DrainedItems(EMPTY_RING, ss) + Run(EMPTY_RING, ss).events == AcceptedItems(ss)
  {
    if ss != [] {
      var before := ss[..|ss| - 1];
      NothingLostOrRepeated(before);
      RingFollows(before);
      var r := Run(EMPTY_RING, before);
      var drained := DrainedItems(EMPTY_RING, before);
      match ss[|ss| - 1]
      case Tapped(key, tap) => assert drained + (r.events + [Read(tap)]) == drained + r.events + [Read(tap)];
      case Raised(bits) => assert drained + (r.events + [Alarm(bits)]) == drained + r.events + [Alarm(bits)];
      case Drained =>
    }
  }

  /** Over every run: the set always equals the ring's keys, which are distinct and at most
      RING_SIZE; the ring is exactly the last accepted keys under the simple rule, and any
      RING_SIZE + 1 consecutive accepted keys are distinct; drains hand out the accepted taps and
      the alarms exactly once, in order. */
  lemma {:induction false} RingIsTheRule(ss: seq<Step>)
    ensures var r := Run(EMPTY_RING, ss);
            && r.keys == Last(Accepted(ss), 5000)
            && r.seen == (set k | k in r.keys)
            && NoRepeat(r.keys) && |r.keys| <= 5000
            && SpreadOut(Accepted(ss))
            && DrainedItems(EMPTY_RING, ss) + r.events == AcceptedItems(ss)
  {
    RingFollows(ss);
    NothingLostOrRepeated(ss);
    LastHasNoRepeat(Accepted(ss));
  }

  lemma LastHasNoRepeat(s: seq<string>)
    requires SpreadOut(s)
    ensures NoRepeat(Last(s, RING_SIZE)) && |Last(s, RING_SIZE)| <= RING_SIZE
  {
    var l := Last(s, RING_SIZE);
    var start := |s| - |l|;
    assert forall i :: 0 <= i < |l| ==> l[i] == s[start + i];
  }

  // ---- replays ----

  function Offers(keys: seq<string>, taps: seq<Tap>): seq<Step>
    requires |keys| == |taps|
  {
    seq(|keys|, i requires 0 <= i < |keys| => Tapped(keys[i], taps[i]))
  }

  lemma {:induction false} RunAppend(r: Ring, a: seq<Step>, b: seq<Step>)
    ensures Run(r, a + b) == Run(Run(r, a), b)
  {
    if b == [] {
      assert a + b == a;
    } else {
      assert (a + b)[..|a + b| - 1] == a + b[..|b| - 1];
      RunAppend(r, a, b[..|b| - 1]);
    }
  }

  /** `all` is the keys accepted so far, then the first `n` of a body. */
  predicate Extends(all: seq<string>, accepted: seq<string>, keys: seq<string>, n: nat)
    requires n <= |keys|
  {
    && |all| == |accepted| + n
    && (forall i :: 0 <= i < |accepted| ==> all[i] == accepted[i])
    && (forall i :: 0 <= i < n ==> all[|accepted| + i] == keys[i])
  }

  lemma StillNew(all: seq<string>, accepted: seq<string>, keys: seq<string>, n: nat)
    requires n < |keys| <= RING_SIZE && NoRepeat(keys) && Extends(all, accepted, keys, n)
    requires forall k :: k in keys ==> k !in Last(accepted, RING_SIZE)
    ensures keys[n] !in Last(all, RING_SIZE)
  {
    var l, was := Last(all, RING_SIZE), Last(accepted, RING_SIZE);
    assert keys[n] in keys;
    forall i | 0 <= i < |l| ensures l[i] != keys[n] {
      var p := |all| - |l| + i;
      assert l[i] == all[p];
      if p < |accepted| {
        assert all[p] == was[p - (|accepted| - |was|)];
      } else {
        assert all[p] == keys[p - |accepted|];
      }
    }
  }

  lemma OneMoreTaken(m: Ring, all: seq<string>, accepted: seq<string>, keys: seq<string>, n: nat, tap: Tap)
    requires n < |keys| <= RING_SIZE && NoRepeat(keys) && Extends(all, accepted, keys, n)
    requires forall k :: k in keys ==> k !in Last(accepted, RING_SIZE)
    requires Follows(m, all)
    ensures Follows(Offer(m, keys[n], tap), all + [keys[n]])
  {
    StillNew(all, accepted, keys, n);
    OfferKeepsRule(m, keys[n], tap, all);
  }

  lemma {:induction false} RunOffers(r: Ring, keys: seq<string>, taps: seq<Tap>)
    requires |keys| == |taps| && keys != []
    ensures var n := |keys| - 1;
            Run(r, Offers(keys, taps)) == Offer(Run(r, Offers(keys[..n], taps[..n])), keys[n], taps[n])
  {
    var n := |keys| - 1;
    assert Offers(keys, taps)[..n] == Offers(keys[..n], taps[..n]);
  }

  lemma SplitKeys(accepted: seq<string>, keys: seq<string>)
    requires keys != []
    ensures var n := |keys| - 1;
            var before := accepted + keys[..n];
            Extends(before, accepted, keys, n) && before + [keys[n]] == accepted + keys
  {
  }

  lemma FewerKeys(keys: seq<string>)
    requires keys != [] && NoRepeat(keys)
    ensures NoRepeat(keys[..|keys| - 1]) && forall k :: k in keys[..|keys| - 1] ==> k in keys
  {
  }

  /** New keys, at most RING_SIZE of them, are all accepted. */
  lemma {:induction false} AllTaken(r: Ring, accepted: seq<string>, keys: seq<string>, taps: seq<Tap>, all: seq<string>)
    requires |keys| == |taps| <= RING_SIZE && NoRepeat(keys) && all == accepted + keys
    requires Follows(r, accepted) && forall k :: k in keys ==> k !in r.seen
    ensures Follows(Run(r, Offers(keys, taps)), all)
  {
    if keys == [] {
      assert all == accepted;
    } else {
      var n := |keys| - 1;
      FewerKeys(keys);
      AllTaken(r, accepted, keys[..n], taps[..n], accepted + keys[..n]);
      RunOffers(r, keys, taps);
      SplitKeys(accepted, keys);
      OneMoreTaken(Run(r, Offers(keys[..n], taps[..n])), accepted + keys[..n], accepted, keys, n, taps[n]);
    }
  }

  /** Offers change nothing exactly when the ring holds all their keys; otherwise the buffer grows. */
  lemma {:induction false} OffersRefused(r: Ring, keys: seq<string>, taps: seq<Tap>)
    requires |keys| == |taps|
    ensures var r' := Run(r, Offers(keys, taps));
            && |r'.events| >= |r.events|
            && (if forall i :: 0 <= i < |keys| ==> keys[i] in r.seen then r' == r else |r'.events| > |r.events|)
  {
    if keys != [] {
      var n := |keys| - 1;
      RunOffers(r, keys, taps);
      OffersRefused(r, keys[..n], taps[..n]);
      assert forall i :: 0 <= i < n ==> keys[..n][i] == keys[i];
    }
  }

  /** Whatever was posted before and whatever is in the body: posting it again at once adds nothing
      exactly when the ring still holds every key of it. */
  lemma ReplayExactly(ss: seq<Step>, keys: seq<string>, taps: seq<Tap>, again: seq<Tap>)
    requires |keys| == |taps| == |again|
    ensures var posted := ss + Offers(keys, taps);
            Run(EMPTY_RING, posted + Offers(keys, again)) == Run(EMPTY_RING, posted) <==>
            forall i :: 0 <= i < |keys| ==> keys[i] in Last(Accepted(posted), 5000)
  {
    var posted := ss + Offers(keys, taps);
    RunAppend(EMPTY_RING, posted, Offers(keys, again));
    RingFollows(posted);
    OffersRefused(Run(EMPTY_RING, posted), keys, again);
  }

  /** The last keys of a list are all among its last RING_SIZE. */
  lemma LastHolds(all: seq<string>, accepted: seq<string>, keys: seq<string>)
    requires Extends(all, accepted, keys, |keys|) && |keys| <= RING_SIZE
    ensures forall i :: 0 <= i < |keys| ==> keys[i] in Last(all, RING_SIZE)
  {
    var l := Last(all, RING_SIZE);
    forall i | 0 <= i < |keys| ensures keys[i] in l {
      assert l[|l| - |keys| + i] == all[|accepted| + i];
    }
  }

  lemma NewKeysHeld(r: Ring, accepted: seq<string>, keys: seq<string>, taps: seq<Tap>, r': Ring)
    requires |keys| == |taps| <= RING_SIZE && NoRepeat(keys) && Follows(r, accepted)
    requires forall k :: k in keys ==> k !in r.seen
    requires r' == Run(r, Offers(keys, taps))
    ensures forall i :: 0 <= i < |keys| ==> keys[i] in r'.seen
  {
    AllTaken(r, accepted, keys, taps, accepted + keys);
    LastHolds(accepted + keys, accepted, keys);
  }

  /** A body of at most RING_SIZE new keys, posted again at once, adds nothing. */
  lemma ReplayAddsNothing(ss: seq<Step>, keys: seq<string>, taps: seq<Tap>, again: seq<Tap>)
    requires |keys| == |taps| == |again| <= 5000 && NoRepeat(keys)
    requires forall k :: k in keys ==> k !in Run(EMPTY_RING, ss).seen
    ensures var posted := ss + Offers(keys, taps);
            Run(EMPTY_RING, posted + Offers(keys, again)) == Run(EMPTY_RING, posted)
  {
    var posted := ss + Offers(keys, taps);
    RingFollows(ss);
    RunAppend(EMPTY_RING, ss, Offers(keys, taps));
    NewKeysHeld(Run(EMPTY_RING, ss), Accepted(ss), keys, taps, Run(EMPTY_RING, posted));
    RunAppend(EMPTY_RING, posted, Offers(keys, again));
    OffersRefused(Run(EMPTY_RING, posted), keys, again);
  }

  // ---- what the panel posts ----

  /** `_verify_method` */
  function VerifyMethod(raw: string): string {
    var v := DropZeros(Strip(raw));
    if v == "" then ""
    else if v == "1" || v == "2" then "fingerprint"
    else if v == "3" then "password"
    else if v == "4" then "card"
    else if v == "9" then "finger_vein"
    else if v == "15" || v == "16" || v == "25" then "face"
    else if v == "20" then "palm"
    else "biometric"
  }

  function DropZeros(s: string): string {
    if s != [] && s[0] == '0' then DropZeros(s[1..]) else s
  }

  /** `fields.get(key, fallback)` over tab-separated parts: values are stripped, the last one wins. */
  function Value(parts: seq<string>, key: string, fallback: string): string {
    Strip(Field(parts, key, fallback))
  }

  /** `parse_rtlog_line`; `clock` stands for the wall-clock text used when the record has no time. */
  function ParseRtlog(line: string, clock: string): Option<Tap> {
    var parts := Split(line, '\t');
    var card := Value(parts, "cardno", "0");
    var pin := Value(parts, "pin", "0");
    var isCard := card != "" && card != "0";
    var isPerson := pin != "" && pin != "0";
    if !isCard && !isPerson then None
    else
      var code := ParseInt(Value(parts, "event", "-1")).GetOr(-1);
      var door := Value(parts, "eventaddr", "1");
      var verify := Value(parts, "verifytype", "");
      Some(Tap(if isCard then card else pin, pin, !isCard && isPerson,
               VerifyMethod(if verify != "" then verify else Value(parts, "verify", "")),
               0 <= code <= 4, code,
               if door == "" then 1 else ParseInt(door).GetOr(1),
               Value(parts, "index", ""), Value(parts, "time", clock)))
  }

  function RtlogKey(sn: string, tap: Tap): string {
    Join([sn, tap.index, tap.timestamp, tap.card], '|')
  }

  /** One attendance-log line: pin, time, status, verify, separated by tabs. */
  function ParseAttlog(line: string, clock: string): Option<Tap> {
    var parts := Split(line, '\t');
    if |parts| < 2 || Strip(parts[0]) == "" then None
    else
      var pin := Strip(parts[0]);
      var ts := Strip(parts[1]);
      Some(Tap(pin, pin, true, VerifyMethod(if |parts| > 3 then parts[3] else ""), true, 0, 1, ts,
               if ts == "" then clock else ts))
  }

  function AttlogKey(sn: string, tap: Tap): string {
    Join([sn, "attlog", tap.index, tap.card], '|')
  }

  datatype Table = Rtlog | Attlog

  /** The key and the tap of one line; blank lines and records of no access read yield nothing. */
  function LineTap(table: Table, sn: string, line: string, clock: string): Option<(string, Tap)> {
    match table
    case Rtlog =>
      if Strip(line) == "" then None
      else
        (match ParseRtlog(line, clock)
         case None => None
         case Some(tap) => Some((RtlogKey(sn, tap), tap)))
    case Attlog =>
      match ParseAttlog(line, clock)
      case None => None
      case Some(tap) => Some((AttlogKey(sn, tap), tap))
  }

  /** The taps one body offers to the ring, line by line. */
  function BodyTaps(table: Table, sn: string, lines: seq<string>, clock: string): seq<(string, Tap)> {
    if lines == [] then []
    else
      match LineTap(table, sn, lines[0], clock)
      case None => BodyTaps(table, sn, lines[1..], clock)
      case Some(offered) => [offered] + BodyTaps(table, sn, lines[1..], clock)
  }

  function StepsOf(offered: seq<(string, Tap)>): seq<Step> {
    if offered == [] then []
    else StepsOf(offered[..|offered| - 1]) + [Tapped(offered[|offered| - 1].0, offered[|offered| - 1].1)]
  }

  /** Text up to a separator is told apart from what follows it. */
  lemma {:induction false} HeadAndRest(a: string, x: string, b: string, y: string)
    requires '|' !in a && '|' !in b
    ensures a + ['|'] + x == b + ['|'] + y <==> a == b && x == y
  {
    var s, t := a + ['|'] + x, b + ['|'] + y;
    if a == [] || b == [] {
      assert s == t ==> s[0] == t[0];
      assert s[1..] == (if a == [] then x else a[1..] + ['|'] + x);
      assert t[1..] == (if b == [] then y else b[1..] + ['|'] + y);
      if a != [] { assert s[0] == a[0]; }
      if b != [] { assert t[0] == b[0]; }
    } else {
      HeadAndRest(a[1..], x, b[1..], y);
      assert s[0] == a[0] && t[0] == b[0];
      assert s[1..] == a[1..] + ['|'] + x && t[1..] == b[1..] + ['|'] + y;
      assert a == [a[0]] + a[1..] && b == [b[0]] + b[1..];
      assert s == [s[0]] + s[1..] && t == [t[0]] + t[1..];
    }
  }

  lemma KeyFields(sn: string, tap: Tap)
    ensures RtlogKey(sn, tap) == sn + ['|'] + (tap.index + ['|'] + (tap.timestamp + ['|'] + tap.card))
  {
    var fields := [sn, tap.index, tap.timestamp, tap.card];
    assert fields[1..] == [tap.index, tap.timestamp, tap.card];
    assert fields[1..][1..] == [tap.timestamp, tap.card];
    assert fields[1..][1..][1..] == [tap.card];
    assert Join([tap.timestamp, tap.card], '|') == tap.timestamp + ['|'] + tap.card;
    assert Join([tap.index, tap.timestamp, tap.card], '|') == tap.index + ['|'] + Join([tap.timestamp, tap.card], '|');
  }

  lemma SamePrefix(p: string, x: string, y: string)
    ensures p + x == p + y <==> x == y
  {
    if p + x == p + y {
      assert (p + x)[|p|..] == x && (p + y)[|p|..] == y;
    }
  }

  predicate SameTap(a: Tap, b: Tap) {
    a.index == b.index && a.timestamp == b.timestamp && a.card == b.card
  }

  /** No other tap of the panel, told apart by index, time and card, has this tap's key. */
  ghost predicate KeyIsItsOwn(sn: string, a: Tap) {
    forall b: Tap :: RtlogKey(sn, a) == RtlogKey(sn, b) ==> SameTap(a, b)
  }

  predicate SeparatorFree(a: Tap) {
    '|' !in a.index && '|' !in a.timestamp && '|' !in a.card
  }

  function Count(s: string): nat {
    if s == [] then 0 else (if s[0] == '|' then 1 else 0) + Count(s[1..])
  }

  lemma {:induction false} CountJoined(a: string, b: string)
    ensures Count(a + b) == Count(a) + Count(b)
  {
    if a == [] {
      assert a + b == b;
    } else {
      assert (a + b)[1..] == a[1..] + b;
      CountJoined(a[1..], b);
    }
  }

  lemma {:induction false} CountNone(s: string)
    ensures Count(s) == 0 <==> '|' !in s
  {
    if s != [] {
      CountNone(s[1..]);
      assert s == [s[0]] + s[1..];
    }
  }

  lemma CountBetween(a: string, b: string)
    ensures Count(a + ['|'] + b) == Count(a) + 1 + Count(b)
  {
    CountJoined(a + ['|'], b);
    CountJoined(a, ['|']);
    assert Count(['|']) == 1 by { assert ['|'][1..] == []; }
  }

  /** A key shows how many separators its fields hold. */
  lemma KeyCount(sn: string, tap: Tap)
    ensures Count(RtlogKey(sn, tap)) == Count(sn) + 3 + Count(tap.index) + Count(tap.timestamp) + Count(tap.card)
  {
    KeyFields(sn, tap);
    CountBetween(sn, tap.index + ['|'] + (tap.timestamp + ['|'] + tap.card));
    CountBetween(tap.index, tap.timestamp + ['|'] + tap.card);
    CountBetween(tap.timestamp, tap.card);
  }

  lemma FreeByCount(sn: string, a: Tap, b: Tap)
    requires SeparatorFree(a) && RtlogKey(sn, a) == RtlogKey(sn, b)
    ensures SeparatorFree(b)
  {
    KeyCount(sn, a);
    KeyCount(sn, b);
    CountNone(a.index);
    CountNone(a.timestamp);
    CountNone(a.card);
    CountNone(b.index);
    CountNone(b.timestamp);
    CountNone(b.card);
  }

  lemma FreeFieldsRead(sn: string, a: Tap, b: Tap)
    requires SeparatorFree(a) && SeparatorFree(b) && RtlogKey(sn, a) == RtlogKey(sn, b)
    ensures SameTap(a, b)
  {
    KeyFields(sn, a);
    KeyFields(sn, b);
    SamePrefix(sn + ['|'], a.index + ['|'] + (a.timestamp + ['|'] + a.card),
               b.index + ['|'] + (b.timestamp + ['|'] + b.card));
    HeadAndRest(a.index, a.timestamp + ['|'] + a.card, b.index, b.timestamp + ['|'] + b.card);
    HeadAndRest(a.timestamp, a.card, b.timestamp, b.card);
  }

  lemma CutAtSeparator(s: string) returns (p: string, q: string)
    requires '|' in s
    ensures s == p + ['|'] + q
  {
    var i :| 0 <= i < |s| && s[i] == '|';
    p, q := s[..i], s[i + 1..];
  }

  /** A tap that holds the separator shares its key with another: the fields can be cut elsewhere. */
  lemma SharedKey(sn: string, a: Tap) returns (b: Tap)
    requires !SeparatorFree(a)
    ensures RtlogKey(sn, a) == RtlogKey(sn, b) && !SameTap(a, b)
  {
    if '|' in a.index {
      var p, q := CutAtSeparator(a.index);
      b := a.(index := p, timestamp := q + ['|'] + a.timestamp);
      Shifted(p, q, a.timestamp + ['|'] + a.card);
      Associate(q + ['|'], a.timestamp, ['|'] + a.card);
    } else if '|' in a.timestamp {
      var p, q := CutAtSeparator(a.timestamp);
      b := a.(index := a.index + ['|'] + p, timestamp := q);
      Shifted(a.index, p, q + ['|'] + a.card);
      Shifted(p, q, a.card);
    } else {
      var p, q := CutAtSeparator(a.card);
      b := a.(index := a.index + ['|'] + a.timestamp, timestamp := p, card := q);
      Shifted(a.index, a.timestamp, p + ['|'] + q);
    }
    KeyFields(sn, a);
    KeyFields(sn, b);
    assert |a.index| != |b.index|;
  }

  lemma Shifted(p: string, q: string, r: string)
    ensures p + ['|'] + q + (['|'] + r) == p + ['|'] + (q + ['|'] + r)
    ensures p + ['|'] + q + ['|'] + r == p + ['|'] + (q + ['|'] + r)
  {
  }

  /** A tap's key belongs to it alone exactly when neither index nor time nor card holds the
      separator. */
  lemma KeysTellTapsApart(sn: string, a: Tap)
    ensures KeyIsItsOwn(sn, a) <==> SeparatorFree(a)
  {
    if SeparatorFree(a) {
      forall b: Tap | RtlogKey(sn, a) == RtlogKey(sn, b) ensures SameTap(a, b) {
        FreeByCount(sn, a, b);
        FreeFieldsRead(sn, a, b);
      }
    } else {
      var b := SharedKey(sn, a);
    }
  }

  /** The event half of the push server: the ring and the buffer, updated in place. */
  class EventBuffer {
    var eventKeys: seq<string>
    var eventKeySet: set<string>
    var events: seq<Item>

    ghost function State(): Ring
      reads this
    {
      Ring(eventKeys, eventKeySet, events)
    }

    constructor ()
      ensures State() == EMPTY_RING
    {
      eventKeys, eventKeySet, events := [], {}, [];
    }

    /** Remembers a key unless it is in the ring; the oldest key makes room. */
    method Remember(key: string) returns (isNew: bool)
      modifies this`eventKeys, this`eventKeySet
      ensures isNew <==> key !in old(eventKeySet)
      ensures eventKeys == if isNew then NextKeys(old(eventKeys), key) else old(eventKeys)
      ensures eventKeySet == if isNew then NextSeen(old(eventKeys), old(eventKeySet), key) else old(eventKeySet)
    {
      isNew := key !in eventKeySet;
      if isNew {
        if |eventKeys| == RING_SIZE {
          eventKeySet := eventKeySet - {eventKeys[0]};
          eventKeys := eventKeys[1..];
        }
        eventKeys := eventKeys + [key];
        eventKeySet := eventKeySet + {key};
      }
    }

    /** An rtlog or attlog body: the reads on its lines are checked against the ring and buffered. */
    method HandlePost(table: Table, sn: string, body: string, clock: string)
      modifies this
      ensures State() == Run(old(State()), StepsOf(BodyTaps(table, sn, SplitLines(body), clock)))
    {
      BufferTaps(BodyTaps(table, sn, SplitLines(body), clock));
    }

    method BufferTaps(offered: seq<(string, Tap)>)
      modifies this
      ensures State() == Run(old(State()), StepsOf(offered))
    {
      var added := [];
      ghost var start := State();
      for i := 0 to |offered|
        invariant events == start.events
        invariant Ring(eventKeys, eventKeySet, events + added) == Run(start, StepsOf(offered[..i]))
      {
        OneMoreTap(start, offered, i);
        var (key, tap) := offered[i];
        var isNew := Remember(key);
        if isNew {
          Associate(events, added, [Read(tap)]);
          added := added + [Read(tap)];
        }
      }
      assert offered[..|offered|] == offered;
      events := events + added;
    }

    method RaiseAlarm(bits: string)
      modifies this`events
      ensures State() == Run(old(State()), [Raised(bits)])
    {
      OneStep(State(), Raised(bits));
      events := events + [Alarm(bits)];
    }

    method DrainEvents() returns (out: seq<Item>)
      modifies this`events
      ensures State() == Run(old(State()), [Drained]) && out == old(events)
    {
      OneStep(State(), Drained);
      out := events;
      events := [];
    }
  }

  lemma OneStep(r: Ring, s: Step)
    ensures Run(r, [s]) == Apply(r, s)
  {
    assert [s][..0] == [];
  }

  lemma OneMoreTap(r: Ring, offered: seq<(string, Tap)>, i: nat)
    requires i < |offered|
    ensures Run(r, StepsOf(offered[..i + 1])) == Offer(Run(r, StepsOf(offered[..i])), offered[i].0, offered[i].1)
  {
    var steps := StepsOf(offered[..i + 1]);
    assert offered[..i + 1][..i] == offered[..i];
    assert steps[..|steps| - 1] == StepsOf(offered[..i]);
  }

  // ---- a simulated tap, from the panel's record to the buffered event ----

  function Rendered(pairs: seq<(string, string)>): seq<string> {
    if pairs == [] then [] else Rendered(pairs[..|pairs| - 1]) + [pairs[|pairs| - 1].0 + ['='] + pairs[|pairs| - 1].1]
  }

  predicate KeysApart(pairs: seq<(string, string)>) {
    && (forall i :: 0 <= i < |pairs| ==> '=' !in pairs[i].0)
    && (forall i, j :: 0 <= i < j < |pairs| ==> pairs[i].0 != pairs[j].0)
  }

  lemma {:induction false} FieldOfPairs(pairs: seq<(string, string)>, i: nat, fallback: string)
    requires KeysApart(pairs) && i < |pairs|
    ensures Field(Rendered(pairs), pairs[i].0, fallback) == pairs[i].1
  {
    var n := |pairs| - 1;
    if i == n {
      FieldLast(Rendered(pairs[..n]), pairs[n].0, pairs[n].1, fallback);
    } else {
      FieldSkip(Rendered(pairs[..n]), pairs[n].0, pairs[n].1, pairs[i].0, fallback);
      FieldOfPairs(pairs[..n], i, fallback);
    }
  }

  lemma {:induction false} RenderedTabFree(pairs: seq<(string, string)>)
    requires forall i :: 0 <= i < |pairs| ==> '\t' !in pairs[i].0 && '\t' !in pairs[i].1
    ensures |Rendered(pairs)| == |pairs|
    ensures forall i :: 0 <= i < |pairs| ==> '\t' !in Rendered(pairs)[i]
  {
    if pairs != [] { RenderedTabFree(pairs[..|pairs| - 1]); }
  }

  /** The record `simulate_card_tap` posts: event 0 for a card in the panel's table, 27 otherwise. */
  function TapPairs(card: string, ts: string, sn: string, index: nat, verified: bool): seq<(string, string)> {
    [("time", ts), ("pin", "1"), ("cardno", card), ("sitecode", "0"), ("linkid", "0"), ("eventaddr", "1"),
     ("event", Dec(if verified then 0 else 27)), ("inoutstatus", "2"), ("verifytype", "1"), ("index", Dec(index)),
     ("sn", sn)]
  }

  function TapRecord(card: string, ts: string, sn: string, index: nat, verified: bool): string {
    Join(Rendered(TapPairs(card, ts, sn, index, verified)), '\t')
  }

  predicate RecordSafe(s: string) { '\t' !in s && Trimmed(s) }

  /** A tap posted by the panel is read back with its card, time and index, and counts as allowed
      exactly when the panel let the card in. */
  lemma TapRecordReadBack(card: string, ts: string, sn: string, index: nat, verified: bool, clock: string)
    requires RecordSafe(card) && card != "" && card != "0" && RecordSafe(ts) && RecordSafe(sn)
    ensures var tap := ParseRtlog(TapRecord(card, ts, sn, index, verified), clock);
            && tap.Some? && tap.value.card == card && tap.value.timestamp == ts && tap.value.index == Dec(index)
            && tap.value.allowed == verified && !tap.value.biometric
  {
    TapFields(card, ts, sn, index, verified, clock);
    DecTrimmed(if verified then 0 else 27);
    DecTrimmed(index);
    ParseIntOfDec(if verified then 0 else 27);
    FieldsRead(TapRecord(card, ts, sn, index, verified), card, ts, Dec(if verified then 0 else 27), Dec(index), clock);
  }

  lemma FieldsRead(line: string, card: string, ts: string, event: string, index: string, clock: string)
    requires Trimmed(card) && card != "" && card != "0" && Trimmed(ts) && Trimmed(event) && Trimmed(index)
    requires var parts := Split(line, '\t');
             && Field(parts, "time", clock) == ts && Field(parts, "cardno", "0") == card
             && Field(parts, "event", "-1") == event && Field(parts, "index", "") == index
    ensures var tap := ParseRtlog(line, clock);
            && tap.Some? && tap.value.card == card && tap.value.timestamp == ts && tap.value.index == index
            && tap.value.code == ParseInt(event).GetOr(-1) && tap.value.allowed == (0 <= tap.value.code <= 4)
            && !tap.value.biometric
  {
    TrimmedStrip(card);
    TrimmedStrip(ts);
    TrimmedStrip(event);
    TrimmedStrip(index);
  }

  lemma TapFields(card: string, ts: string, sn: string, index: nat, verified: bool, clock: string)
    requires RecordSafe(card) && RecordSafe(ts) && RecordSafe(sn)
    ensures var parts := Split(TapRecord(card, ts, sn, index, verified), '\t');
            && Field(parts, "time", clock) == ts && Field(parts, "pin", "0") == "1"
            && Field(parts, "cardno", "0") == card
            && Field(parts, "event", "-1") == Dec(if verified then 0 else 27) && Field(parts, "index", "") == Dec(index)
  {
    var pairs := TapPairs(card, ts, sn, index, verified);
    KeysAreApart(card, ts, sn, index, verified);
    RenderedTabFree(pairs);
    SplitUndoesJoin(Rendered(pairs), '\t');
    FieldOfPairs(pairs, 0, clock);
    FieldOfPairs(pairs, 1, "0");
    FieldOfPairs(pairs, 2, "0");
    FieldOfPairs(pairs, 6, "-1");
    FieldOfPairs(pairs, 9, "");
  }

  lemma DecTrimmed(n: nat)
    ensures Trimmed(Dec(n)) && '\t' !in Dec(n)
  {
  }

  lemma KeysAreApart(card: string, ts: string, sn: string, index: nat, verified: bool)
    ensures KeysApart(TapPairs(card, ts, sn, index, verified))
  {
  }
}
