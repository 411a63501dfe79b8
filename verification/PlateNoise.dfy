/** Clean plates with noise around them: exactly when the window search still finds the plate. */
module PlateNoise {
  import opened Basics
  import opened PyText
  import opened Normalizer

  /** Some noise on at least one side, of the characters that cleaning keeps. */
  predicate Noise(a: string, b: string) {
    Alphanumeric(a) && Alphanumeric(b) && a + b != ""
  }

  /** A standard plate. */
  predicate Standard(p: string, series: nat, num: nat) {
    1 <= series <= 3 && 3 <= num <= 4 && Fits(p, series, num)
  }

  predicate Readable(s: string, at: int, size: int) {
    IsWindow(s, at, size) && Try(Window(s, at, size)).Some?
  }

  /** No part of the plate, shorter than the plate itself, can be read as a plate. */
  ghost predicate Solid(p: string) {
    forall at, size :: size < |p| ==> !Readable(p, at, size)
  }

  predicate WholeReadable(s: string) {
    8 <= |s| <= 11 && Try(s).Some?
  }

  lemma NoisyText(p: string, series: nat, num: nat, a: string, b: string)
    requires Standard(p, series, num) && Noise(a, b)
    ensures Clean(a + p + b) == a + p + b && |a + p + b| > |p| && Window(a + p + b, |a|, |p|) == p
  {
    FitsIsPlate(p, series, num);
    assert Alphanumeric(p);
    CleanKeeps(a + p + b);
    assert |a| + |b| == |a + b| > 0;
    assert (a + p + b)[|a|..|a| + |p|] == p;
  }

  lemma WindowInside(a: string, p: string, b: string, at: int, size: int)
    requires IsWindow(p, at, size)
    ensures IsWindow(a + p + b, |a| + at, size) && Window(a + p + b, |a| + at, size) == Window(p, at, size)
  {
    assert (a + p + b)[|a| + at..|a| + at + size] == p[at..at + size];
  }

  /** When the whole text is no plate, the answer is the first readable window's, of its length. */
  lemma SearchResult(t: string, at: int, size: int) returns (i: nat, l: nat)
    requires Clean(t) == t && !WholeReadable(t) && Readable(t, at, size)
    ensures Readable(t, i, l) && NoneEarlier(t, 8, i, l) && Normalize(t) == Try(Window(t, i, l))
    ensures |Normalize(t).value| == l && !Earlier(at, size, i, l)
  {
    NormalizeInWindows(t);
    i, l := SlideFinds(t, 8);
    assert !Unreadable(t, at, size);
    TryReads(Window(t, i, l));
  }

  lemma WholeIsLonger(t: string, p: string)
    requires WholeReadable(t) && |t| > |p|
    ensures Clean(t) == t ==> Normalize(t).Some? && Normalize(t) != Some(p)
  {
    NormalizeInWindows(t);
    TryReads(t);
  }

  /** A readable part hides the plate: whatever the noise, another plate is answered. */
  lemma InnerPlateHides(p: string, series: nat, num: nat, a: string, b: string, at: int, size: int)
    requires Standard(p, series, num) && Noise(a, b) && size < |p| && Readable(p, at, size)
    ensures Normalize(a + p + b).Some? && Normalize(a + p + b) != Some(p)
  {
    var t := a + p + b;
    NoisyText(p, series, num, a, b);
    if WholeReadable(t) {
      WholeIsLonger(t, p);
    } else {
      WindowInside(a, p, b, at, size);
      var i, l := SearchResult(t, |a| + at, size);
    }
  }

  /** A clean plate with four digits is never found inside noise: without its last digit it is a
      shorter plate, such as KA05MF123 in XKA05MF1234. */
  lemma FourDigitsAreLost(p: string, series: nat, a: string, b: string)
    requires Standard(p, series, 4) && Noise(a, b)
    ensures Normalize(a + p + b).Some? && Normalize(a + p + b) != Some(p)
  {
    ShorterPlateInside(p, series);
    InnerPlateHides(p, series, 4, a, b, 0, |p| - 1);
  }

  lemma ShorterPlateInside(p: string, series: nat)
    requires Standard(p, series, 4)
    ensures Readable(p, 0, |p| - 1)
  {
    var inner := Window(p, 0, |p| - 1);
    assert Fits(inner, series, 3);
    FitsIsPlate(inner, series, 3);
  }

  /** Around one plate, for given noise: it is found exactly when the whole text is no plate, no
      shorter window is, and the first window of its length that can be read is read as it. */
  lemma FoundExactly(p: string, series: nat, num: nat, a: string, b: string)
    requires Standard(p, series, num) && Noise(a, b)
    ensures var t := a + p + b;
            Normalize(t) == Some(p) <==>
              && !WholeReadable(t)
              && exists at :: Readable(t, at, |p|) && NoneEarlier(t, 8, at, |p|) && Try(Window(t, at, |p|)) == Some(p)
  {
    var t := a + p + b;
    NoisyText(p, series, num, a, b);
    FitsIsPlate(p, series, num);
    if WholeReadable(t) {
      WholeIsLonger(t, p);
    } else {
      var i, l := SearchResult(t, |a|, |p|);
      if at :| Readable(t, at, |p|) && NoneEarlier(t, 8, at, |p|) && Try(Window(t, at, |p|)) == Some(p) {
        assert !Unreadable(t, i, l) && !Unreadable(t, at, |p|);
        assert at == i && l == |p|;
      }
    }
  }

  ghost predicate FoundSomewhere(p: string) {
    exists a, b :: Noise(a, b) && Normalize(a + p + b) == Some(p)
  }

  /** The letter W is no digit's look-alike: a window that ends in it is no standard plate. */
  lemma NoPlateEndsInW(s: string)
    requires s != [] && s[|s| - 1] == 'W' && !IsBH(s)
    ensures Try(s) == None
  {
    TryReads(s);
    forall q ensures !Reads(s, q) {
      if Reads(s, q) {
        EndsInDigit(s, q);
      }
    }
  }

  lemma EndsInDigit(s: string, q: string)
    requires s != [] && Reads(s, q) && !IsBH(s)
    ensures IsDigit(LetterToDigit(s[|s| - 1]))
  {
    if IsPlate(q) && q == s {
      var series, num :| 1 <= series <= 3 && 3 <= num <= 4 && Fits(s, series, num);
      assert IsDigit(s[|s| - 1]);
    } else {
      var series, num :| 1 <= series <= 3 && 3 <= num <= 4 && ReadsAs(s, q, series, num);
      assert MayRead(s[|s| - 1], q[|s| - 1], LetterPlace(|s| - 1, series));
    }
  }

  /** Behind a three-digit plate the letter W makes no window readable. */
  lemma NoneWithW(p: string, series: nat, at: int, size: int)
    requires Standard(p, series, 3) && at + size == |p| + 1 && IsWindow(p + "W", at, size)
    ensures !Readable(p + "W", at, size)
  {
    var s := Window(p + "W", at, size);
    assert s[|s| - 1] == 'W';
    assert !IsBH(s) by {
      if size == 10 { assert s[4] == (p + "W")[at + 4]; assert s[0] == (p + "W")[at]; }
    }
    NoPlateEndsInW(s);
  }

  lemma SolidBeforeW(p: string, series: nat)
    requires Standard(p, series, 3) && Solid(p)
    ensures NoneEarlier(p + "W", 8, 0, |p|) && !WholeReadable(p + "W")
  {
    var t := p + "W";
    forall i, l | IsWindow(t, i, l) && Earlier(i, l, 0, |p|) ensures Unreadable(t, i, l) {
      if i + l == |t| {
        NoneWithW(p, series, i, l);
      } else {
        assert IsWindow(p, i, l) && Window(t, i, l) == Window(p, i, l);
        assert !Readable(p, i, l);
      }
    }
    if |t| <= 11 {
      WholeWindow(t);
      NoneWithW(p, series, 0, |t|);
    }
  }

  /** A clean plate can be found inside noise at all exactly when no shorter part of it can be read
      as a plate. */
  lemma FoundInNoiseExactly(p: string, series: nat, num: nat)
    requires Standard(p, series, num)
    ensures FoundSomewhere(p) <==> Solid(p)
  {
    if num == 4 { ShorterPlateInside(p, series); }
    if Solid(p) {
      FitsIsPlate(p, series, num);
      SolidBeforeW(p, series);
      assert "" + p + "W" == p + "W";
      assert Window(p + "W", 0, |p|) == p;
      FoundExactly(p, series, num, "", "W");
      assert Readable(p + "W", 0, |p|);
    } else {
      var at, size :| size < |p| && Readable(p, at, size);
      forall a, b | Noise(a, b) ensures Normalize(a + p + b) != Some(p) {
        InnerPlateHides(p, series, num, a, b, at, size);
      }
    }
  }

  /** Plates of eight characters have no shorter part to be mistaken for. */
  lemma ShortestAreSolid(p: string)
    requires Standard(p, 1, 3)
    ensures FoundSomewhere(p)
  {
    FoundInNoiseExactly(p, 1, 3);
  }
}
