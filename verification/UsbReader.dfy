/** The keyboard-wedge tag reader: which keystrokes make a tag frame, and which frames reach the
    callback. */
module UsbReader {
  import opened Basics
  import opened TimedDedup

  const ENTRY_LIFE: Time := 60.0

  datatype Config = Config(debounce: Time, lengths: set<nat>, maxGap: Time)

  datatype Key = Key(name: string, at: Time)

  datatype Reader = Reader(buf: string, lastKeyAt: Time, last: map<string, Time>)

  predicate IsHex(c: char) {
    '0' <= c <= '9' || 'a' <= c <= 'f' || 'A' <= c <= 'F'
  }

  predicate AllHex(s: string) {
    forall i :: 0 <= i < |s| ==> IsHex(s[i])
  }

  predicate HexKey(k: Key) {
    |k.name| == 1 && IsHex(k.name[0])
  }

  predicate EnterKey(k: Key) {
    k.name == "enter"
  }

  function Upper(s: string): string {
    if s == [] then []
    else [if 'a' <= s[0] <= 'f' then (s[0] as int - 32) as char else s[0]] + Upper(s[1..])
  }

  // ---- one keystroke ----

  /** The frame an Enter completes. */
  function FrameOf(r: Reader, k: Key, cfg: Config): Option<string> {
    if EnterKey(k) && |r.buf| in cfg.lengths && AllHex(r.buf) then Some(Upper(r.buf)) else None
  }

  function OfferOf(r: Reader, k: Key, cfg: Config): Option<Offer> {
    match FrameOf(r, k, cfg)
    case Some(epc) => Some(Offer(epc, k.at, Some(ENTRY_LIFE)))
    case None => None
  }

  /** The tag the callback is given, if any. */
  function Called(r: Reader, k: Key, cfg: Config): Option<string> {
    match FrameOf(r, k, cfg)
    case Some(epc) => if Passes(r.last, epc, k.at, cfg.debounce) then Some(epc) else None
    case None => None
  }

  function Buffered(r: Reader, k: Key, cfg: Config): string {
    if !HexKey(k) then []
    else if r.buf != [] && k.at - r.lastKeyAt > cfg.maxGap then k.name
    else r.buf + k.name
  }

  function Press(r: Reader, k: Key, cfg: Config): Reader {
    Reader(Buffered(r, k, cfg), if HexKey(k) then k.at else r.lastKeyAt,
           if Called(r, k, cfg).Some? then Recorded(r.last, OfferOf(r, k, cfg).value) else r.last)
  }

  const IDLE := Reader([], 0.0, map[])

  function Presser(cfg: Config): (Reader, Key) -> Reader {
    (r: Reader, k: Key) => Press(r, k, cfg)
  }

  function PressAll(ks: seq<Key>, press: (Reader, Key) -> Reader): Reader {
    if ks == [] then IDLE else press(PressAll(ks[..|ks| - 1], press), ks[|ks| - 1])
  }

  /** The reader after a trace of keystrokes. */
  function Run(ks: seq<Key>, cfg: Config): Reader {
    PressAll(ks, Presser(cfg))
  }

  class UHFUsbReader {
    const cfg: Config
    var buf: string
    var lastKeyAt: Time
    var last: map<string, Time>

    ghost function State(): Reader
      reads this
    {
      Reader(buf, lastKeyAt, last)
    }

    constructor (debounce: Time, lengths: set<nat>, maxGap: Time)
      ensures State() == IDLE && cfg == Config(debounce, lengths, maxGap)
    {
      cfg := Config(debounce, lengths, maxGap);
      buf, lastKeyAt, last := [], 0.0, map[];
    }

    method OnKey(k: Key) returns (called: Option<string>)
      modifies this
      ensures State() == Press(old(State()), k, cfg)
      ensures called == Called(old(State()), k, cfg)
    {
      called := None;
      if k.name == "enter" {
        var epc := buf;
        buf := [];
        if |epc| in cfg.lengths && AllHex(epc) {
          called := Emit(Upper(epc), k.at);
        }
      } else if |k.name| == 1 && IsHex(k.name[0]) {
        if buf != [] && k.at - lastKeyAt > cfg.maxGap {
          buf := [];
        }
        buf := buf + k.name;
        lastKeyAt := k.at;
      } else {
        buf := [];
      }
    }

    method Emit(epc: string, now: Time) returns (called: Option<string>)
      modifies this`last
      ensures called == if Passes(old(last), epc, now, cfg.debounce) then Some(epc) else None
      ensures last == if called.Some? then Recorded(old(last), Offer(epc, now, Some(ENTRY_LIFE))) else old(last)
    {
      if epc in last && now - last[epc] < cfg.debounce {
        return None;
      }
      last := last[epc := now];
      last := PurgeOld(last, now, ENTRY_LIFE);
      called := Some(epc);
    }
  }

  // ---- bursts ----

  /** Hex keys only, each within `maxGap` of the one before. */
  predicate IsBurst(ks: seq<Key>, lo: nat, hi: nat, maxGap: Time) {
    && lo <= hi <= |ks|
    && (forall i :: lo <= i < hi ==> HexKey(ks[i]))
    && (forall i :: lo < i < hi ==> ks[i].at - ks[i - 1].at <= maxGap)
  }

  /** A burst ending at `hi` that cannot be extended to the left. */
  predicate MaximalBurst(ks: seq<Key>, lo: nat, hi: nat, maxGap: Time) {
    IsBurst(ks, lo, hi, maxGap) && (lo > 0 ==> !IsBurst(ks, lo - 1, hi, maxGap))
  }

  function Typed(ks: seq<Key>): string {
    if ks == [] then [] else Typed(ks[..|ks| - 1]) + ks[|ks| - 1].name
  }

  lemma {:induction false} TypedHex(ks: seq<Key>)
    requires forall i :: 0 <= i < |ks| ==> HexKey(ks[i])
    ensures |Typed(ks)| == |ks| && AllHex(Typed(ks))
  {
    if ks != [] { TypedHex(ks[..|ks| - 1]); }
  }

  lemma OneBurst(ks: seq<Key>, lo: nat, lo': nat, hi: nat, maxGap: Time)
    requires MaximalBurst(ks, lo, hi, maxGap) && MaximalBurst(ks, lo', hi, maxGap)
    ensures lo == lo'
  {
    if lo < lo' { assert IsBurst(ks, lo' - 1, hi, maxGap); }
    if lo' < lo { assert IsBurst(ks, lo - 1, hi, maxGap); }
  }

  /** Where the maximal burst starts after one more key. */
  lemma NextBurst(ks: seq<Key>, lo: nat, maxGap: Time) returns (lo': nat)
    requires ks != [] && MaximalBurst(ks[..|ks| - 1], lo, |ks| - 1, maxGap)
    ensures MaximalBurst(ks, lo', |ks|, maxGap)
    ensures var n := |ks| - 1;
            if !HexKey(ks[n]) then lo' == n + 1
            else if lo < n && ks[n].at - ks[n - 1].at > maxGap then lo' == n
            else lo' == lo
  {
    var n := |ks| - 1;
    if !HexKey(ks[n]) {
      lo' := n + 1;
    } else if lo < n && ks[n].at - ks[n - 1].at > maxGap {
      lo' := n;
    } else {
      lo' := lo;
      BurstGrows(ks, lo, maxGap);
    }
  }

  lemma TypedGrows(ks: seq<Key>, lo: nat)
    requires lo < |ks|
    ensures Typed(ks[lo..]) == Typed(ks[..|ks| - 1][lo..]) + ks[|ks| - 1].name
  {
    var s := ks[lo..];
    assert s[..|s| - 1] == ks[..|ks| - 1][lo..];
  }

  /** How a keystroke changes the buffer and the clock of the last hex key. */
  ghost predicate Keying(press: (Reader, Key) -> Reader, cfg: Config) {
    forall r: Reader, k: Key :: press(r, k).buf == Buffered(r, k, cfg) && (HexKey(k) ==> press(r, k).lastKeyAt == k.at)
  }

  lemma {:induction false} PressedBurst(ks: seq<Key>, press: (Reader, Key) -> Reader, cfg: Config) returns (lo: nat)
    requires Keying(press, cfg)
    ensures MaximalBurst(ks, lo, |ks|, cfg.maxGap) && PressAll(ks, press).buf == Typed(ks[lo..])
    ensures lo < |ks| ==> PressAll(ks, press).lastKeyAt == ks[|ks| - 1].at
  {
    lo := 0;
    if ks != [] {
      var n := |ks| - 1;
      var was := PressedBurst(ks[..n], press, cfg);
      lo := NextBurst(ks, was, cfg.maxGap);
      TypedHex(ks[..n][was..]);
      if lo <= n {
        TypedGrows(ks, lo);
      }
    }
  }

  /** After any trace the buffer holds exactly the keys of the maximal burst that ends it. */
  lemma BufferIsBurst(ks: seq<Key>, cfg: Config) returns (lo: nat)
    ensures MaximalBurst(ks, lo, |ks|, cfg.maxGap) && Run(ks, cfg).buf == Typed(ks[lo..])
    ensures lo < |ks| ==> Run(ks, cfg).lastKeyAt == ks[|ks| - 1].at
  {
    lo := PressedBurst(ks, Presser(cfg), cfg);
  }

  lemma BurstShrinks(ks: seq<Key>, lo: nat, maxGap: Time)
    requires lo < |ks|
    ensures IsBurst(ks, lo, |ks|, maxGap) ==> IsBurst(ks[..|ks| - 1], lo, |ks| - 1, maxGap)
  {
  }

  lemma BurstGrows(ks: seq<Key>, lo: nat, maxGap: Time)
    requires ks != [] && HexKey(ks[|ks| - 1]) && MaximalBurst(ks[..|ks| - 1], lo, |ks| - 1, maxGap)
    requires lo < |ks| - 1 ==> ks[|ks| - 1].at - ks[|ks| - 2].at <= maxGap
    ensures MaximalBurst(ks, lo, |ks|, maxGap)
  {
    if lo > 0 { BurstShrinks(ks, lo - 1, maxGap); }
    assert IsBurst(ks, lo, |ks|, maxGap) by {
      assert forall i :: 0 <= i < |ks| - 1 ==> ks[i] == ks[..|ks| - 1][i];
    }
  }

  function FrameAt(ks: seq<Key>, i: nat, cfg: Config): Option<string>
    requires i < |ks|
  {
    FrameOf(Run(ks[..i], cfg), ks[i], cfg)
  }

  /** The keys from `lo` up to an Enter at `i` make the frame `epc`. */
  predicate Frames(ks: seq<Key>, lo: nat, i: nat, cfg: Config, epc: string)
    requires i < |ks|
  {
    && EnterKey(ks[i])
    && MaximalBurst(ks, lo, i, cfg.maxGap)
    && i - lo in cfg.lengths
    && epc == Upper(Typed(ks[lo..i]))
  }

  lemma BurstOfPrefix(ks: seq<Key>, lo: nat, i: nat, maxGap: Time)
    requires i <= |ks|
    ensures IsBurst(ks[..i], lo, i, maxGap) <==> IsBurst(ks, lo, i, maxGap)
  {
    if IsBurst(ks[..i], lo, i, maxGap) {
      assert forall j :: 0 <= j < i ==> ks[j] == ks[..i][j];
    }
  }

  lemma BufferAt(ks: seq<Key>, i: nat, cfg: Config) returns (lo: nat)
    requires i <= |ks|
    ensures MaximalBurst(ks, lo, i, cfg.maxGap) && Run(ks[..i], cfg).buf == Typed(ks[lo..i])
    ensures |Run(ks[..i], cfg).buf| == i - lo && AllHex(Run(ks[..i], cfg).buf)
  {
    lo := BufferIsBurst(ks[..i], cfg);
    BurstOfPrefix(ks, lo, i, cfg.maxGap);
    if lo > 0 { BurstOfPrefix(ks, lo - 1, i, cfg.maxGap); }
    assert ks[..i][lo..] == ks[lo..i];
    TypedHex(ks[lo..i]);
  }

  /** A frame is emitted exactly at an Enter whose maximal preceding burst has an accepted length,
      and it is exactly that burst, in upper case. */
  lemma FramesExactly(ks: seq<Key>, i: nat, cfg: Config, epc: string)
    requires i < |ks|
    ensures FrameAt(ks, i, cfg) == Some(epc) <==> exists lo :: Frames(ks, lo, i, cfg, epc)
  {
    var at := BufferAt(ks, i, cfg);
    if FrameAt(ks, i, cfg) == Some(epc) {
      assert Frames(ks, at, i, cfg, epc);
    }
    forall lo | Frames(ks, lo, i, cfg, epc) ensures FrameAt(ks, i, cfg) == Some(epc) {
      OneBurst(ks, at, lo, i, cfg.maxGap);
    }
  }

  // ---- typing by hand ----

  /** Neighbouring hex keys are always further apart than a machine burst. */
  predicate Slow(ks: seq<Key>, maxGap: Time) {
    forall i :: 0 < i < |ks| && HexKey(ks[i - 1]) && HexKey(ks[i]) ==> ks[i].at - ks[i - 1].at > maxGap
  }

  predicate Silent(ks: seq<Key>, cfg: Config) {
    forall i :: 0 <= i < |ks| ==> FrameAt(ks, i, cfg).None?
  }

  ghost predicate NeverTyped(cfg: Config) {
    forall ks :: Slow(ks, cfg.maxGap) ==> Silent(ks, cfg)
  }

  lemma NeighboursApart(ks: seq<Key>, i: nat, maxGap: Time)
    requires Slow(ks, maxGap) && 0 < i < |ks|
    ensures !(HexKey(ks[i - 1]) && HexKey(ks[i]) && ks[i].at - ks[i - 1].at <= maxGap)
  {
  }

  lemma SlowIsSilent(ks: seq<Key>, cfg: Config)
    requires Slow(ks, cfg.maxGap) && 0 !in cfg.lengths && 1 !in cfg.lengths
    ensures Silent(ks, cfg)
  {
    forall i | 0 <= i < |ks| ensures FrameAt(ks, i, cfg).None? {
      var lo := BufferAt(ks, i, cfg);
      if lo + 1 < |ks| { NeighboursApart(ks, lo + 1, cfg.maxGap); }
    }
  }

  /** Hand typing never makes a frame exactly when no accepted length is 0 or 1. */
  lemma HandTypingExactly(cfg: Config)
    ensures NeverTyped(cfg) <==> 0 !in cfg.lengths && 1 !in cfg.lengths
  {
    if 0 !in cfg.lengths && 1 !in cfg.lengths {
      forall ks | Slow(ks, cfg.maxGap) ensures Silent(ks, cfg) { SlowIsSilent(ks, cfg); }
    } else {
      var ks := if 0 in cfg.lengths then [Key("enter", 0.0)] else [Key("a", 0.0), Key("enter", 0.0)];
      var n := |ks| - 1;
      assert Slow(ks, cfg.maxGap);
      assert Run([], cfg) == IDLE;
      if n == 1 {
        assert ks[..1] == [Key("a", 0.0)] && [Key("a", 0.0)][..0] == [];
        assert Run(ks[..1], cfg) == Press(IDLE, ks[0], cfg);
      } else {
        assert ks[..0] == [];
      }
      assert FrameAt(ks, n, cfg).Some?;
    }
  }

  // ---- repeats of one tag ----

  function Offers(ks: seq<Key>, cfg: Config): seq<Option<Offer>> {
    seq(|ks|, i requires 0 <= i < |ks| => OfferOf(Run(ks[..i], cfg), ks[i], cfg))
  }

  predicate CalledAt(ks: seq<Key>, i: nat, cfg: Config, epc: string)
    requires i < |ks|
  {
    Called(Run(ks[..i], cfg), ks[i], cfg) == Some(epc)
  }

  predicate InTime(ks: seq<Key>) {
    forall i, j :: 0 <= i < j < |ks| ==> ks[i].at <= ks[j].at
  }

  lemma OffersUpTo(ks: seq<Key>, i: nat, cfg: Config)
    requires i <= |ks|
    ensures Offers(ks[..i], cfg) == Offers(ks, cfg)[..i]
  {
    forall j | 0 <= j < i ensures Offers(ks[..i], cfg)[j] == Offers(ks, cfg)[j] {
      assert ks[..i][..j] == ks[..j];
    }
  }

  lemma {:induction false} LastIsDedup(ks: seq<Key>, cfg: Config)
    ensures Run(ks, cfg).last == After(Collect(Offers(ks, cfg)), cfg.debounce)
  {
    if ks != [] {
      var n := |ks| - 1;
      LastIsDedup(ks[..n], cfg);
      OffersUpTo(ks, n, cfg);
      AfterStep(Offers(ks, cfg), cfg.debounce);
    }
  }

  lemma CalledIsPass(ks: seq<Key>, i: nat, cfg: Config, epc: string)
    requires i < |ks|
    ensures CalledAt(ks, i, cfg, epc) <==>
            PassesIn(Offers(ks, cfg), i, cfg.debounce) && FrameAt(ks, i, cfg) == Some(epc)
  {
    LastIsDedup(ks[..i], cfg);
    OffersUpTo(ks, i, cfg);
  }

  lemma OffersInTime(ks: seq<Key>, cfg: Config)
    requires InTime(ks)
    ensures ForwardIn(Offers(ks, cfg)) && PurgesIn(Offers(ks, cfg), ENTRY_LIFE)
  {
  }

  /** When a tag last reached the callback. */
  function LastCalled(ks: seq<Key>, cfg: Config, epc: string): Option<Time> {
    if ks == [] then None
    else
      var n := |ks| - 1;
      if CalledAt(ks, n, cfg, epc) then Some(ks[n].at) else LastCalled(ks[..n], cfg, epc)
  }

  lemma CollectLast(cs: seq<Option<Offer>>)
    requires cs != [] && cs[|cs| - 1].Some?
    ensures var os := Collect(cs);
            os != [] && os[..|os| - 1] == Collect(cs[..|cs| - 1]) && os[|os| - 1] == cs[|cs| - 1].value
  {
  }

  lemma {:induction false} LastCalledIsAllowed(ks: seq<Key>, cfg: Config, epc: string)
    requires InTime(ks) && cfg.debounce <= ENTRY_LIFE
    ensures LastCalled(ks, cfg, epc) == LastAllowed(Collect(Offers(ks, cfg)), epc, cfg.debounce)
  {
    if ks != [] {
      var n := |ks| - 1;
      var cs := Offers(ks, cfg);
      LastCalledIsAllowed(ks[..n], cfg, epc);
      CalledIsPass(ks, n, cfg, epc);
      OffersInTime(ks, cfg);
      OffersUpTo(ks, n, cfg);
      if cs[n].Some? {
        CollectLast(cs);
        PurgeUnseenIn(cs, n, cfg.debounce);
      } else {
        assert Collect(cs) == Collect(cs[..n]);
      }
    }
  }

  /** With a debounce of at most a minute the purge is never observed: a frame reaches the callback
      exactly when its tag has not reached it within the debounce, over the whole trace. */
  lemma CalledByRule(ks: seq<Key>, i: nat, cfg: Config, epc: string)
    requires i < |ks| && InTime(ks) && cfg.debounce <= ENTRY_LIFE
    ensures CalledAt(ks, i, cfg, epc) <==>
            FrameAt(ks, i, cfg) == Some(epc) && Allowed(LastCalled(ks[..i], cfg, epc), ks[i].at, cfg.debounce)
  {
    CalledIsPass(ks, i, cfg, epc);
    OffersInTime(ks, cfg);
    OffersUpTo(ks, i, cfg);
    LastCalledIsAllowed(ks[..i], cfg, epc);
    if FrameAt(ks, i, cfg) == Some(epc) {
      PurgeUnseenIn(Offers(ks, cfg), i, cfg.debounce);
    }
  }

  predicate SpacedOut(ks: seq<Key>, i: nat, j: nat, cfg: Config, epc: string)
    requires i < |ks| && j < |ks|
  {
    i < j && CalledAt(ks, i, cfg, epc) && CalledAt(ks, j, cfg, epc) ==> ks[j].at - ks[i].at >= cfg.debounce
  }

  /** Two callbacks for one tag lie at least the debounce apart. */
  lemma CallbacksSpaced(ks: seq<Key>, i: nat, j: nat, cfg: Config, epc: string)
    requires i < |ks| && j < |ks| && InTime(ks) && cfg.debounce <= ENTRY_LIFE
    ensures SpacedOut(ks, i, j, cfg, epc)
  {
    if i < j && CalledAt(ks, i, cfg, epc) && CalledAt(ks, j, cfg, epc) {
      CalledIsPass(ks, i, cfg, epc);
      CalledIsPass(ks, j, cfg, epc);
      OffersInTime(ks, cfg);
      SpacedIn(Offers(ks, cfg), i, j, cfg.debounce);
    }
  }

  // ---- why the debounce may not exceed the life of an entry ----

  /** The trace after `n` more presses of one key, all at one instant. */
  function Held(ks: seq<Key>, c: char, n: nat, at: Time): seq<Key> {
    if n == 0 then ks else Held(ks, c, n - 1, at) + [Key([c], at)]
  }

  /** The trace after one more whole frame. */
  function WithFrame(ks: seq<Key>, c: char, n: nat, at: Time): seq<Key> {
    Held(ks, c, n, at) + [Key("enter", at)]
  }

  function Repeat(c: char, n: nat): string {
    if n == 0 then [] else Repeat(c, n - 1) + [c]
  }

  lemma {:induction false} RepeatShape(c: char, n: nat)
    requires IsHex(c)
    ensures |Repeat(c, n)| == n && AllHex(Repeat(c, n))
    ensures n > 0 ==> Repeat(c, n)[0] == c
  {
    if n > 0 { RepeatShape(c, n - 1); }
  }

  /** No key later than `at`. */
  predicate Until(ks: seq<Key>, at: Time) {
    InTime(ks) && (ks == [] || ks[|ks| - 1].at <= at)
  }

  lemma OneMoreKey(ks: seq<Key>, k: Key)
    requires Until(ks, k.at)
    ensures Until(ks + [k], k.at)
  {
    assert ks != [] ==> forall i :: 0 <= i < |ks| ==> ks[i].at <= ks[|ks| - 1].at;
  }

  lemma {:induction false} HeldShape(ks: seq<Key>, c: char, n: nat, at: Time)
    requires Until(ks, at)
    ensures |Held(ks, c, n, at)| == |ks| + n && ks <= Held(ks, c, n, at) && Until(Held(ks, c, n, at), at)
  {
    if n > 0 {
      HeldShape(ks, c, n - 1, at);
      OneMoreKey(Held(ks, c, n - 1, at), Key([c], at));
    }
  }

  lemma FrameShape(ks: seq<Key>, c: char, n: nat, at: Time)
    requires Until(ks, at)
    ensures var all := WithFrame(ks, c, n, at);
            |all| == |ks| + n + 1 && ks <= all && Until(all, at) && all[|all| - 1].at == at
  {
    HeldShape(ks, c, n, at);
    OneMoreKey(Held(ks, c, n, at), Key("enter", at));
  }

  /** Typing a hex key within the burst. */
  ghost predicate TypesOn(press: (Reader, Key) -> Reader, c: char, at: Time) {
    forall r: Reader :: (r.buf != [] ==> r.lastKeyAt == at) ==>
        press(r, Key([c], at)) == Reader(r.buf + [c], at, r.last)
  }

  lemma {:induction false} HeldPressed(ks: seq<Key>, c: char, n: nat, at: Time, press: (Reader, Key) -> Reader)
    requires TypesOn(press, c, at) && PressAll(ks, press).buf == []
    ensures PressAll(Held(ks, c, n, at), press) ==
            if n == 0 then PressAll(ks, press) else Reader(Repeat(c, n), at, PressAll(ks, press).last)
  {
    if n > 0 {
      HeldPressed(ks, c, n - 1, at, press);
      var before := Held(ks, c, n - 1, at);
      assert (before + [Key([c], at)])[..|before|] == before;
    }
  }

  lemma PresserTypesOn(c: char, at: Time, cfg: Config)
    requires IsHex(c) && cfg.maxGap >= 0.0
    ensures TypesOn(Presser(cfg), c, at)
  {
    forall r: Reader | r.buf != [] ==> r.lastKeyAt == at
      ensures Press(r, Key([c], at), cfg) == Reader(r.buf + [c], at, r.last)
    {
      HexPressed(r, Key([c], at), cfg);
    }
  }

  lemma HexPressed(r: Reader, k: Key, cfg: Config)
    requires HexKey(k) && cfg.maxGap >= 0.0 && (r.buf != [] ==> r.lastKeyAt == k.at)
    ensures Press(r, k, cfg) == Reader(r.buf + k.name, k.at, r.last)
  {
    assert FrameOf(r, k, cfg).None?;
  }

  lemma PressLast(ks: seq<Key>, k: Key, cfg: Config)
    ensures Run(ks + [k], cfg) == Press(Run(ks, cfg), k, cfg)
  {
    assert (ks + [k])[..|ks|] == ks;
  }

  lemma HeldTyped(ks: seq<Key>, c: char, n: nat, at: Time, cfg: Config)
    requires IsHex(c) && cfg.maxGap >= 0.0 && Run(ks, cfg).buf == []
    ensures Run(Held(ks, c, n, at), cfg).buf == Repeat(c, n)
    ensures Run(Held(ks, c, n, at), cfg).last == Run(ks, cfg).last
  {
    PresserTypesOn(c, at, cfg);
    HeldPressed(ks, c, n, at, Presser(cfg));
  }

  lemma EnterPressed(r: Reader, at: Time, cfg: Config)
    requires |r.buf| in cfg.lengths && AllHex(r.buf)
    ensures var epc := Upper(r.buf);
            var passes := Passes(r.last, epc, at, cfg.debounce);
            && Called(r, Key("enter", at), cfg) == (if passes then Some(epc) else None)
            && Press(r, Key("enter", at), cfg) ==
                 Reader([], r.lastKeyAt, if passes then Recorded(r.last, Offer(epc, at, Some(ENTRY_LIFE))) else r.last)
  {
  }

  lemma FrameTyped(ks: seq<Key>, c: char, n: nat, at: Time, cfg: Config, epc: string)
    requires IsHex(c) && cfg.maxGap >= 0.0 && Run(ks, cfg).buf == [] && n in cfg.lengths && epc == Upper(Repeat(c, n))
    ensures var all := WithFrame(ks, c, n, at);
            var last := Run(ks, cfg).last;
            && Run(all, cfg).buf == []
            && (CalledAt(all, |all| - 1, cfg, epc) <==> Passes(last, epc, at, cfg.debounce))
            && Run(all, cfg).last ==
                 if Passes(last, epc, at, cfg.debounce) then Recorded(last, Offer(epc, at, Some(ENTRY_LIFE))) else last
  {
    var typed := Held(ks, c, n, at);
    HeldTyped(ks, c, n, at, cfg);
    RepeatShape(c, n);
    LastEnter(typed, at, cfg, epc);
  }

  lemma LastEnter(typed: seq<Key>, at: Time, cfg: Config, epc: string)
    requires var r := Run(typed, cfg);
             |r.buf| in cfg.lengths && AllHex(r.buf) && epc == Upper(r.buf)
    ensures var all := typed + [Key("enter", at)];
            var last := Run(typed, cfg).last;
            && Run(all, cfg).buf == []
            && (CalledAt(all, |all| - 1, cfg, epc) <==> Passes(last, epc, at, cfg.debounce))
            && Run(all, cfg).last ==
                 if Passes(last, epc, at, cfg.debounce) then Recorded(last, Offer(epc, at, Some(ENTRY_LIFE))) else last
  {
    var all := typed + [Key("enter", at)];
    assert all[..|all| - 1] == typed;
    PressLast(typed, Key("enter", at), cfg);
    EnterPressed(Run(typed, cfg), at, cfg);
  }

  lemma CalledInPrefix(a: seq<Key>, b: seq<Key>, i: nat, cfg: Config, epc: string)
    requires i < |a| && a <= b
    ensures CalledAt(b, i, cfg, epc) <==> CalledAt(a, i, cfg, epc)
  {
    assert b[..i] == a[..i];
  }

  lemma RepeatsDiffer(n: nat)
    requires n > 0
    ensures Upper(Repeat('1', n)) != Upper(Repeat('2', n))
  {
    RepeatShape('1', n);
    RepeatShape('2', n);
    assert Upper(Repeat('1', n))[0] == '1' && Upper(Repeat('2', n))[0] == '2';
  }

  /** The second frame's purge drops the entry of the first tag. */
  lemma EntryPurged(n: nat, at: Time, cfg: Config, one: seq<Key>, two: seq<Key>, tag: string)
    requires n > 0 && n in cfg.lengths && cfg.maxGap >= 0.0 && ENTRY_LIFE < at && tag == Upper(Repeat('1', n))
    requires one == WithFrame([], '1', n, 0.0) && two == WithFrame(one, '2', n, at)
    ensures CalledAt(one, |one| - 1, cfg, tag) && Run(two, cfg).buf == [] && tag !in Run(two, cfg).last
  {
    RepeatsDiffer(n);
    FrameTyped([], '1', n, 0.0, cfg, tag);
    FrameTyped(one, '2', n, at, cfg, Upper(Repeat('2', n)));
  }

  /** Tag 1, then more than a minute later tag 2 followed by tag 1 again: tag 1 is called twice. */
  lemma EarlyRepeat(n: nat, at: Time, cfg: Config) returns (ks: seq<Key>, i: nat, tag: string)
    requires n > 0 && n in cfg.lengths && cfg.maxGap >= 0.0 && ENTRY_LIFE < at < cfg.debounce
    ensures InTime(ks) && i < |ks| - 1 && !SpacedOut(ks, i, |ks| - 1, cfg, tag)
  {
    tag := Upper(Repeat('1', n));
    var one := WithFrame([], '1', n, 0.0);
    var two := WithFrame(one, '2', n, at);
    ks := WithFrame(two, '1', n, at);
    i := |one| - 1;
    FrameShape([], '1', n, 0.0);
    FrameShape(one, '2', n, at);
    FrameShape(two, '1', n, at);
    EntryPurged(n, at, cfg, one, two, tag);
    FrameTyped(two, '1', n, at, cfg, tag);
    CalledInPrefix(one, ks, i, cfg, tag);
  }

  ghost predicate AlwaysSpaced(cfg: Config) {
    forall ks, i: nat, j: nat, epc :: i < |ks| && j < |ks| && InTime(ks) ==> SpacedOut(ks, i, j, cfg, epc)
  }

  /** For a reader that accepts some frame at all, callbacks for one tag are always at least the
      debounce apart exactly when the debounce does not exceed the life of an entry. */
  lemma DebounceExactly(cfg: Config)
    requires cfg.maxGap >= 0.0 && exists n :: n in cfg.lengths && n > 0
    ensures AlwaysSpaced(cfg) <==> cfg.debounce <= 60.0
  {
    if cfg.debounce <= ENTRY_LIFE {
      forall ks, i: nat, j: nat, epc | i < |ks| && j < |ks| && InTime(ks) ensures SpacedOut(ks, i, j, cfg, epc) {
        CallbacksSpaced(ks, i, j, cfg, epc);
      }
    } else {
      var n :| n in cfg.lengths && n > 0;
      var ks, i, tag := EarlyRepeat(n, (ENTRY_LIFE + cfg.debounce) / 2.0, cfg);
    }
  }

  /** A frame in capitals: as long as what was typed, each small letter as its capital. */
  lemma {:induction false} UpperAt(s: string, i: nat)
    requires i < |s| && AllHex(s)
    ensures |Upper(s)| == |s| && Upper(s)[i] == (if s[i] in "abcdef" then (s[i] as int - 32) as char else s[i])
    ensures Upper(s)[i] in "0123456789ABCDEF"
  {
    assert IsHex(s[i]);
    if |s| > 1 { UpperAt(s[1..], if i > 0 then i - 1 else 0); }
  }
}
