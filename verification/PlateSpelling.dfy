/** How a plate may be spelled: spacing, punctuation and case never change what it is normalized to,
    and exactly these characters are taken for each other. */
module PlateSpelling {
  import opened Basics
  import opened PyText
  import opened Normalizer

  /** Neither an ASCII letter nor a digit. */
  predicate Separator(c: char) {
    !('a' <= c <= 'z') && !('A' <= c <= 'Z') && !('0' <= c <= '9')
  }

  /** The same character, up to the case of a letter. */
  predicate SameKey(c: char, d: char) {
    c == d || ('a' <= c <= 'z' && d as int == c as int - 32) || ('a' <= d <= 'z' && c as int == d as int - 32)
  }

  lemma CleanOne(c: char)
    ensures Separator(c) ==> Clean([c]) == []
    ensures 'A' <= c <= 'Z' || '0' <= c <= '9' ==> Clean([c]) == [c]
    ensures 'a' <= c <= 'z' ==> Clean([c]) == [(c as int - 32) as char]
  {
    assert [c][1..] == [] && Clean([]) == [];
  }

  lemma CleanFirst(c: char, rest: string)
    ensures Clean([c] + rest) == Clean([c]) + Clean(rest)
  {
    CleanOne(c);
    assert ([c] + rest)[1..] == rest;
    assert [c][1..] == [] && Clean([]) == [];
  }

  lemma {:induction false} CleanAppend(a: string, b: string)
    ensures Clean(a + b) == Clean(a) + Clean(b)
  {
    if a == [] {
      assert a + b == b;
    } else {
      CleanAppend(a[1..], b);
      CleanFirst(a[0], a[1..]);
      CleanFirst(a[0], a[1..] + b);
      assert a == [a[0]] + a[1..] && a + b == [a[0]] + (a[1..] + b);
      Associate(Clean([a[0]]), Clean(a[1..]), Clean(b));
    }
  }

  lemma CleanAround(a: string, c: string, b: string)
    ensures Clean(a + c + b) == Clean(a) + Clean(c) + Clean(b)
  {
    CleanAppend(a + c, b);
    CleanAppend(a, c);
  }

  lemma SameClean(raw: string, other: string)
    requires Clean(raw) == Clean(other)
    ensures Normalize(raw) == Normalize(other)
  {
  }

  /** A character that is no letter and no digit, put in or left out anywhere, changes no answer. */
  lemma SeparatorsAreIgnored(a: string, c: char, b: string)
    requires Separator(c)
    ensures Normalize(a + [c] + b) == Normalize(a + b)
  {
    CleanOne(c);
    CleanAround(a, [c], b);
    CleanAppend(a, b);
    assert Clean(a) + [] == Clean(a);
    SameClean(a + [c] + b, a + b);
  }

  /** Nor does the case of a letter. */
  lemma CaseIsIgnored(a: string, c: char, d: char, b: string)
    requires SameKey(c, d)
    ensures Normalize(a + [c] + b) == Normalize(a + [d] + b)
  {
    CleanOne(c);
    CleanOne(d);
    CleanAround(a, [c], b);
    CleanAround(a, [d], b);
    SameClean(a + [c] + b, a + [d] + b);
  }

  /** `raw` is `p` with any separators put in and letters in either case. */
  predicate Spells(raw: string, p: string)
    decreases |raw|
  {
    if raw == [] then p == []
    else if Separator(raw[0]) then Spells(raw[1..], p)
    else p != [] && SameKey(raw[0], p[0]) && Spells(raw[1..], p[1..])
  }

  lemma {:induction false} SpellingIsCleaned(raw: string, p: string)
    requires Spells(raw, p) && Alphanumeric(p)
    ensures Clean(raw) == p
    decreases |raw|
  {
    if raw != [] {
      CleanOne(raw[0]);
      CleanFirst(raw[0], raw[1..]);
      assert raw == [raw[0]] + raw[1..];
      if Separator(raw[0]) {
        SpellingIsCleaned(raw[1..], p);
        assert [] + Clean(raw[1..]) == Clean(raw[1..]);
      } else {
        assert IsUpper(p[0]) || IsDigit(p[0]);
        assert Alphanumeric(p[1..]) by { assert forall i :: 0 <= i < |p| - 1 ==> p[1..][i] == p[i + 1]; }
        SpellingIsCleaned(raw[1..], p[1..]);
        assert p == [p[0]] + p[1..];
      }
    }
  }

  /** Every spelling of a plate is normalized to the plate. */
  lemma EverySpelling(raw: string, p: string)
    requires IsPlate(p) && Spells(raw, p)
    ensures Normalize(raw) == Some(p)
  {
    assert Alphanumeric(p);
    SpellingIsCleaned(raw, p);
    PlatesUnchanged(p);
    CleanKeeps(p);
    SameClean(raw, p);
  }

  // ---- which characters are taken for each other ----

  /** A letter read where a digit stands. */
  const LETTERS_FOR_DIGITS: set<(char, char)> :=
    {('O', '0'), ('Q', '0'), ('D', '0'), ('I', '1'), ('L', '1'), ('Z', '2'), ('S', '5'), ('B', '8'), ('G', '6')}

  /** A digit read where a letter stands. */
  const DIGITS_FOR_LETTERS: set<(char, char)> :=
    {('0', 'O'), ('1', 'I'), ('2', 'Z'), ('5', 'S'), ('8', 'B'), ('6', 'G')}

  /** A character may have been meant exactly if it is the one seen or the tables pair the two. */
  lemma MayReadByTables(seen: char, meant: char)
    ensures MayRead(seen, meant, true) <==> IsUpper(meant) && (seen == meant || (seen, meant) in DIGITS_FOR_LETTERS)
    ensures MayRead(seen, meant, false) <==> IsDigit(meant) && (seen == meant || (seen, meant) in LETTERS_FOR_DIGITS)
  {
  }

  // ---- what a plate looks like ----

  /** Letters written as A and digits as 9. */
  function Shape(s: string): string {
    seq(|s|, i requires 0 <= i < |s| => if IsUpper(s[i]) then 'A' else if IsDigit(s[i]) then '9' else '?')
  }

  const STANDARD_SHAPES: set<string> :=
    {"AA99A999", "AA99A9999", "AA99AA999", "AA99AA9999", "AA99AAA999", "AA99AAA9999"}

  /** The shape of standard plates with so many letters and digits. */
  function StandardShape(series: nat, num: nat): string {
    seq(4 + series + num, i requires 0 <= i < 4 + series + num => if LetterPlace(i, series) then 'A' else '9')
  }

  lemma FitsByShape(s: string, series: nat, num: nat)
    ensures Fits(s, series, num) <==> Shape(s) == StandardShape(series, num)
  {
    if Shape(s) == StandardShape(series, num) {
      assert |s| == |Shape(s)|;
      forall i | 0 <= i < |s| ensures if LetterPlace(i, series) then IsUpper(s[i]) else IsDigit(s[i]) {
        assert Shape(s)[i] == StandardShape(series, num)[i];
      }
    }
  }

  lemma TheSixShapes()
    ensures StandardShape(1, 3) == "AA99A999" && StandardShape(1, 4) == "AA99A9999"
    ensures StandardShape(2, 3) == "AA99AA999" && StandardShape(2, 4) == "AA99AA9999"
    ensures StandardShape(3, 3) == "AA99AAA999" && StandardShape(3, 4) == "AA99AAA9999"
  {
  }

  lemma StandardByShape(s: string)
    ensures IsStandard(s) <==> Shape(s) in STANDARD_SHAPES
  {
    TheSixShapes();
    FitsByShape(s, 1, 3);
    FitsByShape(s, 1, 4);
    FitsByShape(s, 2, 3);
    FitsByShape(s, 2, 4);
    FitsByShape(s, 3, 3);
    FitsByShape(s, 3, 4);
    if IsStandard(s) {
      var series, num :| 1 <= series <= 3 && 3 <= num <= 4 && Fits(s, series, num);
      FitsByShape(s, series, num);
    }
  }

  lemma BHByShape(s: string)
    ensures IsBH(s) <==> Shape(s) == "99AA9999AA" && s[2..4] == "BH"
  {
    var shape := "99AA9999AA";
    if IsBH(s) {
      assert Shape(s) == shape;
      assert s[2..4] == "BH";
    }
    if Shape(s) == shape && s[2..4] == "BH" {
      assert |s| == |Shape(s)| == 10;
      assert s[2..4][0] == 'B' && s[2..4][1] == 'H';
      forall i | 0 <= i < 10 ensures if shape[i] == 'A' then IsUpper(s[i]) else IsDigit(s[i]) {
        assert Shape(s)[i] == shape[i];
      }
    }
  }

  /** A text is a plate exactly if it has one of seven shapes, the last with BH for its letters. */
  lemma PlatesByShape(s: string)
    ensures IsPlate(s) <==> Shape(s) in STANDARD_SHAPES || (Shape(s) == "99AA9999AA" && s[2..4] == "BH")
  {
    StandardByShape(s);
    BHByShape(s);
  }

  // ---- merged blocks ----

  /** The blocks from `i` on, `n` of them, read as one. */
  function Run(texts: seq<string>, i: nat, n: nat): string
    requires i + n <= |texts|
  {
    Concat(texts[i..i + n])
  }

  /** One block, two or three neighbours, or all of them. */
  predicate IsRun(texts: seq<string>, i: nat, n: nat) {
    i + n <= |texts| && (1 <= n <= 3 || (n == |texts| && n > 1 && i == 0))
  }

  /** Fewer blocks are tried first, and of as many the leftmost; all of them come last. */
  predicate TriedBefore(texts: seq<string>, i: nat, n: nat, i': nat, n': nat) {
    n < n' || (n == n' && i < i')
  }

  lemma ConcatOne(a: string)
    ensures Concat([a]) == a
  {
    assert [a][1..] == [] && Concat([]) == "";
  }

  lemma ConcatTwo(a: string, b: string)
    ensures Concat([a, b]) == a + b
  {
    ConcatOne(b);
    assert [a, b][1..] == [b];
  }

  lemma ConcatThree(a: string, b: string, c: string)
    ensures Concat([a, b, c]) == a + b + c
  {
    ConcatTwo(b, c);
    assert [a, b, c][1..] == [b, c];
    assert a + (b + c) == a + b + c;
  }

  /** Where a run stands among the candidates. */
  lemma RunIsCandidate(texts: seq<string>, i: nat, n: nat)
    requires IsRun(texts, i, n) && n <= 3
    ensures var c := Candidates(texts);
            var at := if n == 1 then i else if n == 2 then |texts| + i else |texts| + |Pairs(texts)| + i;
            at < |c| && c[at] == Run(texts, i, n)
  {
    if n == 1 {
      assert texts[i..i + 1] == [texts[i]];
      ConcatOne(texts[i]);
    } else if n == 2 {
      assert texts[i..i + 2] == [texts[i], texts[i + 1]];
      ConcatTwo(texts[i], texts[i + 1]);
    } else {
      assert texts[i..i + 3] == [texts[i], texts[i + 1], texts[i + 2]];
      ConcatThree(texts[i], texts[i + 1], texts[i + 2]);
    }
  }

  lemma AllIsCandidate(texts: seq<string>)
    requires |texts| > 1
    ensures var c := Candidates(texts);
            c != [] && c[|c| - 1] == Run(texts, 0, |texts|)
  {
    assert texts[0..|texts|] == texts;
  }

  /** Every candidate is a run, and candidates stand in the order in which runs are tried. */
  lemma CandidateIsRun(texts: seq<string>, at: nat) returns (i: nat, n: nat)
    requires at < |Candidates(texts)|
    ensures IsRun(texts, i, n) && Candidates(texts)[at] == Run(texts, i, n)
    ensures if at < |texts| then n == 1 && i == at
            else if at < |texts| + |Pairs(texts)| then n == 2 && i == at - |texts|
            else if at < |texts| + |Pairs(texts)| + |Triples(texts)| then n == 3 && i == at - |texts| - |Pairs(texts)|
            else n == |texts| && i == 0
  {
    if at < |texts| {
      i, n := at, 1;
      RunIsCandidate(texts, i, n);
    } else if at < |texts| + |Pairs(texts)| {
      i, n := at - |texts|, 2;
      RunIsCandidate(texts, i, n);
    } else if at < |texts| + |Pairs(texts)| + |Triples(texts)| {
      i, n := at - |texts| - |Pairs(texts)|, 3;
      RunIsCandidate(texts, i, n);
    } else {
      i, n := 0, |texts|;
      AllIsCandidate(texts);
    }
  }

  /** Merging answers None exactly when no single block, no two or three neighbours and not all the
      blocks together can be read; otherwise it answers with the plate of the first readable run. */
  lemma MergeReadsRuns(texts: seq<string>) returns (i: nat, n: nat)
    ensures if TryMergeTexts(texts) == None then
              forall j, m: nat :: IsRun(texts, j, m) ==> Normalize(Run(texts, j, m)) == None
            else
              && IsRun(texts, i, n) && TryMergeTexts(texts) == Normalize(Run(texts, i, n))
              && forall j, m: nat :: IsRun(texts, j, m) && TriedBefore(texts, j, m, i, n) ==>
                                       Normalize(Run(texts, j, m)) == None
  {
    i, n := 0, 0;
    var at := MergeFindsFirst(texts);
    if TryMergeTexts(texts).Some? {
      i, n := CandidateIsRun(texts, at);
      forall j, m: nat | IsRun(texts, j, m) && TriedBefore(texts, j, m, i, n)
        ensures Normalize(Run(texts, j, m)) == None
      {
        RunIsCandidate(texts, j, m);
      }
    } else {
      forall j, m: nat | IsRun(texts, j, m) ensures Normalize(Run(texts, j, m)) == None {
        if m <= 3 { RunIsCandidate(texts, j, m); } else { AllIsCandidate(texts); }
      }
    }
  }
}
