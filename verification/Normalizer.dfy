/** The plate normalizer: positional repair of OCR misreads and a window search in noisy text. */
module Normalizer {
  import opened Basics
  import opened PyText

  predicate IsUpper(c: char) { 'A' <= c <= 'Z' }

  /** `upper()` on ASCII letters. */
  function Upper(c: char): char {
    if 'a' <= c <= 'z' then (c as int - 32) as char else c
  }

  /** Upper-case letters and digits are kept, everything else is dropped. */
  function Clean(raw: string): string {
    if raw == [] then []
    else
      var c := Upper(raw[0]);
      (if IsUpper(c) || IsDigit(c) then [c] else []) + Clean(raw[1..])
  }

  /** Digits that letters are mistaken for. */
  function LetterToDigit(c: char): char {
    if c == 'O' || c == 'Q' || c == 'D' then '0'
    else if c == 'I' || c == 'L' then '1'
    else if c == 'Z' then '2'
    else if c == 'S' then '5'
    else if c == 'B' then '8'
    else if c == 'G' then '6'
    else c
  }

  /** Letters that digits are mistaken for. */
  function DigitToLetter(c: char): char {
    if c == '0' then 'O'
    else if c == '1' then 'I'
    else if c == '2' then 'Z'
    else if c == '5' then 'S'
    else if c == '8' then 'B'
    else if c == '6' then 'G'
    else c
  }

  /** Standard plates are two letters, two digits, `series` letters and `num` digits. */
  predicate LetterPlace(i: int, series: nat) {
    i < 2 || 4 <= i < 4 + series
  }

  predicate Fits(s: string, series: nat, num: nat) {
    |s| == 4 + series + num &&
    forall i :: 0 <= i < |s| ==> if LetterPlace(i, series) then IsUpper(s[i]) else IsDigit(s[i])
  }

  predicate IsStandard(s: string) {
    exists series, num :: 1 <= series <= 3 && 3 <= num <= 4 && Fits(s, series, num)
  }

  /** BH-series plates: two digits, BH, four digits, two letters. */
  predicate IsBH(s: string) {
    |s| == 10 && s[2] == 'B' && s[3] == 'H' && IsUpper(s[8]) && IsUpper(s[9]) &&
    forall i :: 0 <= i < 8 && i != 2 && i != 3 ==> IsDigit(s[i])
  }

  predicate IsPlate(s: string) { IsStandard(s) || IsBH(s) }

  // ---- repair ----

  /** Letters at letter places, digits at digit places, through the confusion tables. */
  function Repair(s: string, series: nat): string {
    seq(|s|, i requires 0 <= i < |s| => if LetterPlace(i, series) then DigitToLetter(s[i]) else LetterToDigit(s[i]))
  }

  function FixAt(s: string, series: nat, num: nat): Option<string> {
    if Fits(Repair(s, series), series, num) then Some(Repair(s, series)) else None
  }

  function OrElse(a: Option<string>, b: Option<string>): Option<string> {
    if a.Some? then a else b
  }

  /** `_fix_ocr_errors`: shorter series first, then the shorter number. */
  function FixOcr(s: string): Option<string> {
    OrElse(FixAt(s, 1, 3), OrElse(FixAt(s, 1, 4), OrElse(FixAt(s, 2, 3),
    OrElse(FixAt(s, 2, 4), OrElse(FixAt(s, 3, 3), FixAt(s, 3, 4))))))
  }

  /** What one window yields: itself if it is a plate, else its repair. */
  function Try(s: string): Option<string> {
    if IsPlate(s) then Some(s) else FixOcr(s)
  }

  /** The windows of length `len` from `start` on. */
  function WindowsOf(s: string, len: nat, start: nat): Option<string>
    requires 8 <= len
    decreases |s| - start
  {
    if start + len > |s| then None
    else OrElse(Try(s[start..start + len]), WindowsOf(s, len, start + 1))
  }

  /** `_sliding_window_search` from windows of length `len` up to 11. */
  function SlideFrom(s: string, len: nat): Option<string>
    requires 8 <= len
    decreases 12 - len
  {
    if len > 11 || len > |s| then None else OrElse(WindowsOf(s, len, 0), SlideFrom(s, len + 1))
  }

  function Normalize(raw: string): Option<string> {
    var s := Clean(raw);
    if |s| < 6 then None
    else if IsPlate(s) then Some(s)
    else if 8 <= |s| <= 11 && FixOcr(s).Some? then FixOcr(s)
    else if |s| >= 8 then SlideFrom(s, 8)
    else None
  }

  // ---- what a correct reading is ----

  /** `seen` may be a misreading of `meant`: equal, or one confused for the other in the direction
      the place allows. */
  predicate MayRead(seen: char, meant: char, letterPlace: bool) {
    if letterPlace then IsUpper(meant) && (seen == meant || DigitToLetter(seen) == meant)
    else IsDigit(meant) && (seen == meant || LetterToDigit(seen) == meant)
  }

  /** `p` is a plate that `s` may have been: equal, or a standard plate place by place. */
  predicate Reads(s: string, p: string) {
    (IsPlate(p) && p == s) ||
    exists series, num :: 1 <= series <= 3 && 3 <= num <= 4 && ReadsAs(s, p, series, num)
  }

  predicate ReadsAs(s: string, p: string, series: nat, num: nat) {
    Fits(p, series, num) && |s| == |p| &&
    forall i :: 0 <= i < |s| ==> MayRead(s[i], p[i], LetterPlace(i, series))
  }

  predicate Alphanumeric(s: string) {
    forall i :: 0 <= i < |s| ==> IsUpper(s[i]) || IsDigit(s[i])
  }

  lemma {:induction false} CleanAlphanumeric(raw: string)
    ensures Alphanumeric(Clean(raw))
  {
    if raw != [] { CleanAlphanumeric(raw[1..]); }
  }

  lemma {:induction false} CleanKeeps(s: string)
    requires Alphanumeric(s)
    ensures Clean(s) == s
  {
    if s != [] {
      assert IsUpper(s[0]) || IsDigit(s[0]);
      assert Alphanumeric(s[1..]) by { assert forall i :: 0 <= i < |s| - 1 ==> s[1..][i] == s[i + 1]; }
      CleanKeeps(s[1..]);
      assert [s[0]] + s[1..] == s;
    }
  }

  /** A place-by-place reading is the repair, and a repair is a reading. */
  lemma RepairIsReading(s: string, series: nat, num: nat)
    requires 1 <= series <= 3 && 3 <= num <= 4
    ensures forall p :: ReadsAs(s, p, series, num) ==> FixAt(s, series, num) == Some(p)
    ensures FixAt(s, series, num).Some? ==> ReadsAs(s, FixAt(s, series, num).value, series, num)
  {
    var r := Repair(s, series);
    forall p | ReadsAs(s, p, series, num) ensures r == p {
      forall i | 0 <= i < |s| ensures r[i] == p[i] {
        assert MayRead(s[i], p[i], LetterPlace(i, series));
      }
    }
    if Fits(r, series, num) {
      forall i | 0 <= i < |s| ensures MayRead(s[i], r[i], LetterPlace(i, series)) {}
    }
  }

  lemma FitsIsPlate(p: string, series: nat, num: nat)
    requires 1 <= series <= 3 && 3 <= num <= 4 && Fits(p, series, num)
    ensures IsPlate(p) && 8 <= |p| <= 11
  {
  }

  /** One window: a result is a plate the window may have been, and there is none exactly when the
      window can be read as no plate at all. */
  lemma TryReads(s: string)
    ensures Try(s).Some? ==> Reads(s, Try(s).value) && IsPlate(Try(s).value) && |s| == |Try(s).value| && 8 <= |s| <= 11
    ensures Try(s) == None <==> forall p :: !Reads(s, p)
  {
    RepairIsReading(s, 1, 3);
    RepairIsReading(s, 1, 4);
    RepairIsReading(s, 2, 3);
    RepairIsReading(s, 2, 4);
    RepairIsReading(s, 3, 3);
    RepairIsReading(s, 3, 4);
    if Try(s).Some? {
      assert Reads(s, Try(s).value);
    } else {
      forall p ensures Reads(s, p) ==> Try(s).Some? { ReadingIsFound(s, p); }
    }
  }

  lemma ReadingIsFound(s: string, p: string)
    ensures Reads(s, p) ==> Try(s).Some?
  {
    if Reads(s, p) && !(IsPlate(p) && p == s) {
      var series, num :| 1 <= series <= 3 && 3 <= num <= 4 && ReadsAs(s, p, series, num);
      RepairIsReading(s, series, num);
    }
  }

  // ---- windows ----

  predicate IsWindow(s: string, start: int, len: int) {
    0 <= start && 8 <= len <= 11 && start + len <= |s|
  }

  function Window(s: string, start: int, len: int): string
    requires IsWindow(s, start, len)
  {
    s[start..start + len]
  }

  /** The search order: shorter windows first, then further left. */
  predicate Earlier(start: int, len: int, start': int, len': int) {
    len < len' || (len == len' && start < start')
  }

  lemma {:induction false} WindowsOfFinds(s: string, len: nat, from: nat) returns (at: nat)
    requires 8 <= len <= 11
    ensures var r := WindowsOf(s, len, from);
            if r.Some? then
              && from <= at && IsWindow(s, at, len) && Try(Window(s, at, len)) == r
              && (forall i :: from <= i < at && IsWindow(s, i, len) ==> Try(Window(s, i, len)) == None)
            else forall i :: from <= i && IsWindow(s, i, len) ==> Try(Window(s, i, len)) == None
    decreases |s| - from
  {
    at := from;
    if from + len <= |s| {
      assert Window(s, from, len) == s[from..from + len];
      if Try(Window(s, from, len)) == None {
        at := WindowsOfFinds(s, len, from + 1);
      }
    }
  }

  predicate Unreadable(s: string, start: int, len: int) {
    IsWindow(s, start, len) ==> Try(Window(s, start, len)) == None
  }

  ghost predicate NoneOfLength(s: string, len: nat) {
    forall i :: IsWindow(s, i, len) ==> Unreadable(s, i, len)
  }

  ghost predicate NoneFrom(s: string, len: nat) {
    forall i, l :: len <= l && IsWindow(s, i, l) ==> Unreadable(s, i, l)
  }

  ghost predicate NoneEarlier(s: string, len: nat, at: int, size: int) {
    forall i, l :: len <= l && IsWindow(s, i, l) && Earlier(i, l, at, size) ==> Unreadable(s, i, l)
  }

  lemma LongerOnly(s: string, len: nat, at: int, size: int)
    requires NoneOfLength(s, len)
    ensures NoneFrom(s, len + 1) ==> NoneFrom(s, len)
    ensures NoneEarlier(s, len + 1, at, size) ==> NoneEarlier(s, len, at, size)
  {
    forall i, l | len <= l && IsWindow(s, i, l) ensures l == len ==> Unreadable(s, i, l) {}
  }

  /** The window search returns the first readable window, shortest first and then leftmost; it finds
      none only when none is readable. */
  lemma {:induction false} SlideFinds(s: string, len: nat) returns (at: nat, size: nat)
    requires 8 <= len <= 12
    ensures var r := SlideFrom(s, len);
            if r.Some? then
              && len <= size && IsWindow(s, at, size) && Try(Window(s, at, size)) == r
              && NoneEarlier(s, len, at, size)
            else NoneFrom(s, len)
    decreases 12 - len
  {
    at, size := 0, len;
    if len <= 11 && len <= |s| {
      at := FirstOfLength(s, len);
      if WindowsOf(s, len, 0) == None {
        at, size := SlideFinds(s, len + 1);
        LongerOnly(s, len, at, size);
      }
    }
  }

  lemma FirstOfLength(s: string, len: nat) returns (at: nat)
    requires 8 <= len <= 11
    ensures var r := WindowsOf(s, len, 0);
            if r.Some? then
              IsWindow(s, at, len) && Try(Window(s, at, len)) == r && NoneEarlier(s, len, at, len)
            else NoneOfLength(s, len)
  {
    at := WindowsOfFinds(s, len, 0);
  }

  lemma WholeWindow(s: string)
    requires 8 <= |s| <= 11
    ensures IsWindow(s, 0, |s|) && Window(s, 0, |s|) == s
  {
  }

  lemma NormalizeInWindows(raw: string)
    ensures var s := Clean(raw);
            Normalize(raw) == if 8 <= |s| <= 11 && Try(s).Some? then Try(s)
                              else if |s| >= 8 then SlideFrom(s, 8) else None
  {
    TryReads(Clean(raw));
  }

  /** Soundness: a result is always a valid plate, and one window of the cleaned text may have been
      that plate. */
  lemma NormalizeSound(raw: string) returns (at: nat, size: nat)
    requires Normalize(raw).Some?
    ensures var s := Clean(raw);
            var p := Normalize(raw).value;
            IsPlate(p) && IsWindow(s, at, size) && Reads(Window(s, at, size), p)
  {
    var s := Clean(raw);
    NormalizeInWindows(raw);
    if 8 <= |s| <= 11 && Try(s).Some? {
      at, size := 0, |s|;
      WholeWindow(s);
      TryReads(s);
    } else {
      at, size := SlideFinds(s, 8);
      TryReads(Window(s, at, size));
    }
  }

  /** Completeness: the answer is None exactly when no window of length 8 to 11 can be read as a plate. */
  lemma NormalizeComplete(raw: string)
    ensures var s := Clean(raw);
            Normalize(raw) == None <==>
              forall at, size, p :: IsWindow(s, at, size) ==> !Reads(Window(s, at, size), p)
  {
    var s := Clean(raw);
    NormalizeInWindows(raw);
    if Normalize(raw) == None {
      forall at, size, p | IsWindow(s, at, size) ensures !Reads(Window(s, at, size), p) {
        var a, l := SlideFinds(s, 8);
        assert Unreadable(s, at, size);
        TryReads(Window(s, at, size));
      }
    } else {
      var at, size := NormalizeSound(raw);
      assert Reads(Window(s, at, size), Normalize(raw).value);
    }
  }

  /** Preference: a readable whole text wins; otherwise the shortest, then leftmost, readable window. */
  lemma NormalizePrefers(raw: string, at: nat, size: nat)
    requires IsWindow(Clean(raw), at, size) && Try(Window(Clean(raw), at, size)).Some?
    ensures var s := Clean(raw);
            var whole := 8 <= |s| <= 11 && Try(s).Some?;
            && (whole ==> Normalize(raw) == Try(s))
            && (!whole && NoneEarlier(s, 8, at, size) ==> Normalize(raw) == Try(Window(s, at, size)))
  {
    var s := Clean(raw);
    NormalizeInWindows(raw);
    var a, l := SlideFinds(s, 8);
    assert (a == at && l == size) || Earlier(a, l, at, size) || Earlier(at, size, a, l);
    assert !Unreadable(s, at, size);
    assert SlideFrom(s, 8).Some? ==> !Unreadable(s, a, l);
  }

  /** A clean plate is left alone. */
  lemma PlatesUnchanged(p: string)
    requires IsPlate(p)
    ensures Normalize(p) == Some(p)
  {
    assert Alphanumeric(p);
    CleanKeeps(p);
  }

  /** Normalizing twice is normalizing once. */
  lemma NormalizeIdempotent(raw: string)
    ensures Normalize(raw).Some? ==> Normalize(Normalize(raw).value) == Normalize(raw)
  {
    if Normalize(raw).Some? {
      var at, size := NormalizeSound(raw);
      PlatesUnchanged(Normalize(raw).value);
    }
  }

  /** Only splits of the right length count: the chosen one, after the shorter series of that length. */
  lemma SplitsTried(q: string, series: nat, num: nat)
    requires 1 <= series <= 3 && 3 <= num <= 4 && |q| == 4 + series + num
    ensures FixOcr(q) ==
            if num == 3 && series > 1 then OrElse(FixAt(q, series - 1, 4), FixAt(q, series, 3))
            else if series < 3 && num == 4 then OrElse(FixAt(q, series, 4), FixAt(q, series + 1, 3))
            else FixAt(q, series, num)
  {
  }

  // ---- recovery ----

  /** Some places of a standard plate misread: letters that have a look-alike digit as that digit,
      digits as any letter mistaken for them. */
  predicate Corrupts(p: string, q: string, series: nat) {
    |p| == |q| &&
    forall i :: 0 <= i < |p| ==>
      q[i] == p[i] ||
      (if LetterPlace(i, series) then IsDigit(q[i]) && DigitToLetter(q[i]) == p[i]
       else IsUpper(q[i]) && LetterToDigit(q[i]) == p[i])
  }

  lemma CorruptedReads(p: string, q: string, series: nat, num: nat)
    requires 1 <= series <= 3 && 3 <= num <= 4 && Fits(p, series, num) && Corrupts(p, q, series)
    ensures FixAt(q, series, num) == Some(p) && Alphanumeric(q) && !IsBH(q)
  {
    RepairIsReading(q, series, num);
    assert ReadsAs(q, p, series, num) by {
      forall i | 0 <= i < |q| ensures MayRead(q[i], p[i], LetterPlace(i, series)) {}
    }
    assert q[3] == p[3] || LetterToDigit(q[3]) == p[3];
  }

  /** Does the split with one letter fewer and four digits, tried first, also accept `q`? */
  predicate AmbiguousAt(q: string, series: nat, num: nat)
    requires |q| == 4 + series + num
  {
    num == 3 && series > 1 && IsDigit(LetterToDigit(q[3 + series]))
  }

  lemma OtherSplit(p: string, q: string, series: nat)
    requires 2 <= series <= 3 && Fits(p, series, 3) && Corrupts(p, q, series)
    ensures FixAt(q, series - 1, 4).Some? <==> IsDigit(LetterToDigit(q[3 + series]))
    ensures FixAt(q, series - 1, 4).Some? ==> FixAt(q, series - 1, 4).value[3 + series] != p[3 + series]
  {
    var r := Repair(q, series - 1);
    var t := Repair(q, series);
    CorruptedReads(p, q, series, 3);
    forall i | 0 <= i < |q| && i != 3 + series
      ensures LetterPlace(i, series - 1) == LetterPlace(i, series) && r[i] == t[i] == p[i]
    {
    }
    assert r[3 + series] == LetterToDigit(q[3 + series]);
  }

  /** Repair alone recovers the plate exactly when the split tried first refuses the text. */
  lemma RepairRecovers(p: string, q: string, series: nat, num: nat)
    requires 1 <= series <= 3 && 3 <= num <= 4 && Fits(p, series, num) && Corrupts(p, q, series)
    ensures FixOcr(q).Some? && (FixOcr(q) == Some(p) <==> !AmbiguousAt(q, series, num))
  {
    CorruptedReads(p, q, series, num);
    SplitsTried(q, series, num);
    if num == 3 && series > 1 { OtherSplit(p, q, series); }
  }

  /** Hence repair alone would rewrite some clean plates, such as KA05MB123 into KA05M8123: the
      direct match has to come first. */
  lemma RepairAloneRewrites(p: string, series: nat)
    requires 2 <= series <= 3 && Fits(p, series, 3) && IsDigit(LetterToDigit(p[3 + series]))
    ensures FixOcr(p) != Some(p) && Normalize(p) == Some(p)
  {
    RepairRecovers(p, p, series, 3);
    FitsIsPlate(p, series, 3);
    PlatesUnchanged(p);
  }

  lemma NormalizeMisread(q: string)
    requires Alphanumeric(q) && !IsBH(q) && 8 <= |q| <= 11 && FixOcr(q).Some?
    ensures Normalize(q) == if IsStandard(q) then Some(q) else FixOcr(q)
  {
    CleanKeeps(q);
  }

  /** Exactly when a misread standard plate is recovered: it was not misread at all, or the misread
      text is not itself a plate and the split tried first does not accept it. */
  lemma RecoveryExactly(p: string, q: string, series: nat, num: nat)
    requires 1 <= series <= 3 && 3 <= num <= 4 && Fits(p, series, num) && Corrupts(p, q, series)
    ensures Normalize(q) == Some(p) <==> q == p || (!IsStandard(q) && !AmbiguousAt(q, series, num))
  {
    CorruptedReads(p, q, series, num);
    RepairRecovers(p, q, series, num);
    NormalizeMisread(q);
    if q == p { FitsIsPlate(p, series, num); }
  }

  /** Plates of 8 or 11 characters have one split only: every misreading is undone. */
  lemma RecoveryAtUniqueLengths(p: string, q: string, series: nat, num: nat)
    requires 1 <= series <= 3 && 3 <= num <= 4 && Fits(p, series, num) && Corrupts(p, q, series)
    requires |p| == 8 || |p| == 11
    ensures Normalize(q) == Some(p)
  {
    RecoveryExactly(p, q, series, num);
    if IsStandard(q) {
      var s, n :| 1 <= s <= 3 && 3 <= n <= 4 && Fits(q, s, n);
      assert s == series && n == num;
      forall i | 0 <= i < |q| ensures q[i] == p[i] {}
    }
  }

  // ---- merging text blocks ----

  function Pairs(texts: seq<string>): seq<string> {
    seq(if |texts| >= 1 then |texts| - 1 else 0, i requires 0 <= i < |texts| - 1 => texts[i] + texts[i + 1])
  }

  function Triples(texts: seq<string>): seq<string> {
    seq(if |texts| >= 2 then |texts| - 2 else 0,
        i requires 0 <= i < |texts| - 2 => texts[i] + texts[i + 1] + texts[i + 2])
  }

  function Concat(texts: seq<string>): string {
    if texts == [] then "" else texts[0] + Concat(texts[1..])
  }

  /** The first candidate that normalizes. */
  function FirstPlate(candidates: seq<string>): Option<string> {
    if candidates == [] then None else OrElse(Normalize(candidates[0]), FirstPlate(candidates[1..]))
  }

  /** Single blocks first, then adjacent pairs, then triples, then everything. */
  function Candidates(texts: seq<string>): seq<string> {
    texts + Pairs(texts) + Triples(texts) + (if |texts| > 1 then [Concat(texts)] else [])
  }

  function TryMergeTexts(texts: seq<string>): Option<string> {
    OrElse(FirstPlate(texts), OrElse(FirstPlate(Pairs(texts)), OrElse(FirstPlate(Triples(texts)),
      if |texts| > 1 then Normalize(Concat(texts)) else None)))
  }

  lemma {:induction false} FirstPlateAppend(a: seq<string>, b: seq<string>)
    ensures FirstPlate(a + b) == OrElse(FirstPlate(a), FirstPlate(b))
  {
    if a == [] {
      assert a + b == b;
    } else {
      assert (a + b)[1..] == a[1..] + b;
      FirstPlateAppend(a[1..], b);
    }
  }

  lemma {:induction false} FirstPlateFirst(c: seq<string>) returns (i: nat)
    ensures if FirstPlate(c).Some? then
              i < |c| && FirstPlate(c) == Normalize(c[i]) && forall j :: 0 <= j < i ==> Normalize(c[j]) == None
            else forall j :: 0 <= j < |c| ==> Normalize(c[j]) == None
  {
    i := 0;
    if c != [] && Normalize(c[0]) == None {
      i := FirstPlateFirst(c[1..]);
      i := i + 1;
      assert forall j :: 1 <= j < |c| ==> c[j] == c[1..][j - 1];
    }
  }

  /** The merge returns the plate of the first readable candidate, and None exactly when no single
      block, adjacent pair, adjacent triple or whole concatenation is readable. */
  lemma MergeFindsFirst(texts: seq<string>) returns (i: nat)
    ensures var c := Candidates(texts);
            if TryMergeTexts(texts).Some? then
              && i < |c| && TryMergeTexts(texts) == Normalize(c[i]) && IsPlate(TryMergeTexts(texts).value)
              && (forall j :: 0 <= j < i ==> Normalize(c[j]) == None)
            else forall j :: 0 <= j < |c| ==> Normalize(c[j]) == None
  {
    var all := if |texts| > 1 then [Concat(texts)] else [];
    FirstPlateAppend(texts + Pairs(texts) + Triples(texts), all);
    FirstPlateAppend(texts + Pairs(texts), Triples(texts));
    FirstPlateAppend(texts, Pairs(texts));
    if |texts| > 1 { assert all[1..] == []; }
    i := FirstPlateFirst(Candidates(texts));
    if TryMergeTexts(texts).Some? {
      var at, size := NormalizeSound(Candidates(texts)[i]);
    }
  }
}
