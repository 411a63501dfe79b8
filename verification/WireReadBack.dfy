/** What the texts that pass between panel and server say, field by field, whatever the values. */
module WireReadBack {
  import opened Basics
  import opened PyText
  import opened Wire
  import opened TapRing

  // ---- openings ----

  /** The eight characters that end an opening: output operation, door, lock and seconds. */
  lemma OpeningSaysDoor(id: nat, door: nat, duration: int)
    requires door < 256
    ensures var line := ControlLine(id, door, duration);
            |line| >= 8
            && var operand := line[|line| - 8..];
               && operand[..2] == "01" && ParseHex2(operand[2..4]) == Some(door)
               && operand[4..6] == "01" && ParseHex2(operand[6..8]) == Some(Clamp(duration, 1, 254))
  {
    var line, operand := ControlLine(id, door, duration), ControlOperand(door, duration);
    ControlOperandShape(door, duration);
    HexByteRoundTrip(door);
    assert line[|line| - 8..] == operand;
    assert operand[..2] == "01" && operand[2..4] == Hex2(door) && operand[4..6] == "01";
  }

  // ---- lines of other kinds ----

  /** A line that does not begin with C: or has no second colon is ignored. */
  lemma NoCommand(line: string)
    requires !("C:" <= line) || ':' !in line[2..]
    ensures PanelRead(line) == Ignored
  {
    if "C:" <= line {
      var n := IndexOf(line[2..], ':');
    }
  }

  predicate OtherKind(rest: string) {
    rest != "" && rest[0] != 'C' && rest[0] != 'D'
  }

  lemma OtherRead(id: nat, rest: string)
    requires OtherKind(rest)
    ensures PanelRead(Line(id, rest)) == Acted(Dec(id), rest[..IndexOf(rest, ' ')], "", Nothing, None)
  {
    PanelReadsLine(id, rest);
    FirstLetters();
  }

  lemma FirstLetters()
    ensures CONTROL_DEVICE[0] == 'C' && UPDATE_USER[0] == 'D' && DELETE_USER[0] == 'D'
  {
  }

  lemma {:induction false} FirstWordEnds(verb: string)
    requires ' ' !in verb
    ensures IndexOf(verb, ' ') == |verb|
  {
    if verb != "" { FirstWordEnds(verb[1..]); }
  }

  /** Any other verb is acknowledged under its first word and changes nothing. */
  lemma OtherVerb(id: nat, verb: string, rest: string)
    requires ' ' !in verb && OtherKind(verb)
    ensures PanelRead(Line(id, verb + [' '] + rest)) == Acted(Dec(id), verb, "", Nothing, None)
    ensures PanelRead(Line(id, verb)) == Acted(Dec(id), verb, "", Nothing, None)
  {
    var text := verb + [' '] + rest;
    IndexOfFirst(verb, ' ', rest);
    FirstWordEnds(verb);
    assert text[..|verb|] == verb && verb[..|verb|] == verb;
    OtherRead(id, text);
    OtherRead(id, verb);
  }

  lemma OpeningRead(id: nat, rest: string)
    requires CONTROL_DEVICE <= rest
    ensures PanelRead(Line(id, rest)) ==
            if Seconds(rest).None? then Failed
            else Acted(Dec(id), CONTROL_DEVICE, "", Nothing, Some(Seconds(rest).value))
  {
    PanelReadsLine(id, rest);
  }

  lemma WordsOfTwo(a: string, b: string)
    requires Spaceless(a) && a != [] && Spaceless(b) && b != []
    ensures Words(a + [' '] + b) == [a, b]
  {
    WordsAtSpace(a, ' ', b);
    OneWord(a);
    OneWord(b);
  }

  lemma VerbOfTwo()
    ensures CONTROL_DEVICE == "CONTROL" + [' '] + "DEVICE"
  {
  }

  lemma DefaultSeconds()
    ensures "01010105"[6..8] == "05" && ParseHex2("05") == Some(5)
  {
  }

  lemma SecondsWithout(rest: string)
    requires |Words(rest)| == 2
    ensures Seconds(rest) == Some(5)
  {
    DefaultSeconds();
  }

  /** An opening without an operand lasts five seconds. */
  lemma BareOpening(id: nat)
    ensures PanelRead(Line(id, CONTROL_DEVICE)) == Acted(Dec(id), CONTROL_DEVICE, "", Nothing, Some(5))
  {
    VerbOfTwo();
    WordsOfTwo("CONTROL", "DEVICE");
    SecondsWithout(CONTROL_DEVICE);
    OpeningRead(id, CONTROL_DEVICE);
  }

  lemma OperandIsThird(operand: string)
    requires operand != "" && Spaceless(operand)
    ensures var ws := Words(CONTROL_DEVICE + " " + operand);
            |ws| == 3 && ws[2] == operand
  {
    VerbAndOperand(operand, CONTROL_DEVICE + " " + operand);
    ThreeWords("CONTROL", "DEVICE", operand);
  }

  lemma VerbAndOperand(operand: string, text: string)
    requires text == CONTROL_DEVICE + " " + operand
    ensures text == "CONTROL" + [' '] + ("DEVICE" + [' '] + operand)
  {
    VerbOfTwo();
    Wire.Regroup("CONTROL" + [' '], "DEVICE", [' '], operand);
  }

  /** So does one with an operand that is too short; one whose last byte is no hexadecimal number fails. */
  lemma OddOpening(id: nat, operand: string)
    requires operand != "" && Spaceless(operand)
    ensures var read := PanelRead(Line(id, CONTROL_DEVICE + " " + operand));
            && (|operand| < 8 ==> read == Acted(Dec(id), CONTROL_DEVICE, "", Nothing, Some(5)))
            && (|operand| >= 8 && ParseHex2(operand[6..8]).None? ==> read == Failed)
  {
    OperandIsThird(operand);
    OpeningRead(id, CONTROL_DEVICE + " " + operand);
  }

  lemma VerbsNameNoCard()
    ensures 'N' !in UPDATE_USER && 'N' !in DELETE_USER
  {
  }

  lemma CardBehindVerb(verb: string, text: string)
    requires 'N' !in verb
    ensures FirstCard(Words(verb + [' '] + text)) == FirstCard(Words(text))
  {
    WordsAtSpace(verb, ' ', text);
    NoCardWithout(verb, 'N');
    FirstCardPrepend(Words(verb), Words(text));
  }

  /** Whatever its text, a record adds and a deletion removes the first card the text names; one that
      names none leaves the table alone, and is acknowledged all the same. */
  lemma FirstCardCounts(id: nat, text: string, users: set<string>)
    ensures var card := FirstCard(Words(text));
            var update, delete := PanelRead(Line(id, UPDATE_USER + [' '] + text)),
                                  PanelRead(Line(id, DELETE_USER + [' '] + text));
            && update.Acted? && update.id == Dec(id) && update.card == card && update.doorSeconds == None
            && delete.Acted? && delete.id == Dec(id) && delete.card == card && delete.doorSeconds == None
            && update.command == "DATA UPDATE user" && delete.command == "DATA DELETE user"
            && ApplyEffect(users, update.effect) == (if card == "" then users else users + {card})
            && ApplyEffect(users, delete.effect) == (if card == "" then users else users - {card})
  {
    VerbsNameNoCard();
    CardBehindVerb(UPDATE_USER, text);
    CardBehindVerb(DELETE_USER, text);
    CommandRead(id, UPDATE_USER, text);
    CommandRead(id, DELETE_USER, text);
  }

  lemma CommandRead(id: nat, verb: string, text: string)
    requires verb == UPDATE_USER || verb == DELETE_USER
    ensures var rest := verb + [' '] + text;
            var card := FirstCard(Words(rest));
            PanelRead(Line(id, rest)) ==
              Acted(Dec(id), verb, card,
                    if card == "" then Nothing else if verb == UPDATE_USER then AddCard(card) else RemoveCard(card),
                    None)
  {
    var rest := verb + [' '] + text;
    PanelReadsLine(id, rest);
    FirstLetters();
    VerbsDiffer();
    assert rest[..|verb|] == verb;
  }

  lemma VerbsDiffer()
    ensures |UPDATE_USER| == 16 && |DELETE_USER| == 16 && UPDATE_USER[5] == 'U' && DELETE_USER[5] == 'D'
  {
  }

  /** Nothing but a record or a deletion that names a card moves the server's mirror. */
  lemma MirrorStays(line: string)
    requires (!Contains(line, "DATA UPDATE user") && !Contains(line, "DATA DELETE user")) || LastCard(Words(line)) == ""
    ensures MirrorEffect(line) == Nothing
  {
  }

  // ---- key=value texts ----

  /** The part gives the key a value. */
  predicate Says(part: string, key: string) {
    |part| > |key| && part[..|key|] == key && part[|key|] == '='
  }

  lemma SaidIsFirst(part: string, key: string, rest: string)
    requires '=' !in key && part == key + ['='] + rest
    ensures IndexOf(part, '=') == |key|
  {
    IndexOfFirst(key, '=', rest);
  }

  lemma SaidInTwo(part: string, key: string)
    requires Says(part, key)
    ensures part == key + ['='] + part[|key| + 1..]
  {
  }

  lemma SaysAtFirst(part: string, key: string, n: nat)
    requires '=' !in key && n == IndexOf(part, '=')
    ensures n < |part| && part[..n] == key <==> Says(part, key)
  {
    if Says(part, key) {
      SaidInTwo(part, key);
      SaidIsFirst(part, key, part[|key| + 1..]);
    }
  }

  /** The last part that gives a key a value counts; without one it is the fallback. */
  lemma {:induction false} FieldIsLast(parts: seq<string>, key: string, fallback: string) returns (i: nat)
    requires '=' !in key
    ensures if exists j :: 0 <= j < |parts| && Says(parts[j], key) then
              && i < |parts| && Says(parts[i], key) && (forall j :: i < j < |parts| ==> !Says(parts[j], key))
              && Field(parts, key, fallback) == parts[i][|key| + 1..]
            else Field(parts, key, fallback) == fallback
  {
    i := 0;
    if parts != [] {
      var n := |parts| - 1;
      SaysAtFirst(parts[n], key, IndexOf(parts[n], '='));
      if Says(parts[n], key) {
        i := n;
      } else {
        i := FieldIsLast(parts[..n], key, fallback);
        forall j | 0 <= j < n ensures Says(parts[j], key) <==> Says(parts[..n][j], key) {
        }
      }
    }
  }

  lemma {:induction false} FieldAbsent(pairs: seq<(string, string)>, key: string, fallback: string)
    requires forall i :: 0 <= i < |pairs| ==> '=' !in pairs[i].0 && pairs[i].0 != key
    ensures Field(Rendered(pairs), key, fallback) == fallback
  {
    if pairs != [] {
      var n := |pairs| - 1;
      FieldSkip(Rendered(pairs[..n]), pairs[n].0, pairs[n].1, key, fallback);
      FieldAbsent(pairs[..n], key, fallback);
    }
  }

  // ---- acknowledgements ----

  predicate LineEnds(s: string) {
    forall i :: 0 <= i < |s| ==> s[i] == '\r' || s[i] == '\n'
  }

  lemma {:induction false} FieldTextAppend(a: string, b: string)
    ensures FieldText(a + b) == FieldText(a) + FieldText(b)
  {
    if a == [] {
      assert a + b == b;
    } else {
      assert (a + b)[1..] == a[1..] + b;
      FieldTextAppend(a[1..], b);
    }
  }

  predicate Ampersands(s: string) {
    forall i :: 0 <= i < |s| ==> s[i] == '&'
  }

  lemma {:induction false} EndsAreAmpersands(s: string)
    requires LineEnds(s)
    ensures Ampersands(FieldText(s))
  {
    if s != [] { EndsAreAmpersands(s[1..]); }
  }

  predicate AllEmpty(parts: seq<string>) {
    forall i :: 0 <= i < |parts| ==> parts[i] == ""
  }

  lemma {:induction false} SplitAmpersands(s: string)
    requires Ampersands(s)
    ensures AllEmpty(Split(s, '&'))
  {
    if s != [] { SplitAmpersands(s[1..]); }
  }

  /** Trailing separators add empty parts. */
  lemma SplitTrailing(text: string, tail: string) returns (more: seq<string>)
    requires Ampersands(tail)
    ensures Split(text + tail, '&') == Split(text, '&') + more && AllEmpty(more)
  {
    if tail == "" {
      assert text + tail == text;
      assert Split(text, '&') + [] == Split(text, '&');
      more := [];
    } else {
      more := Split(tail[1..], '&');
      SplitAmpersands(tail[1..]);
      SplitAtSeparator(text, '&', tail[1..]);
      assert text + tail == text + ['&'] + tail[1..];
    }
  }

  lemma {:induction false} EmptyPartsSayNothing(parts: seq<string>, more: seq<string>, key: string, fallback: string)
    requires AllEmpty(more)
    ensures Field(parts + more, key, fallback) == Field(parts, key, fallback)
    decreases more
  {
    if more == [] {
      assert parts + more == parts;
    } else {
      var n := |more| - 1;
      assert (parts + more)[..|parts + more| - 1] == parts + more[..n] && (parts + more)[|parts + more| - 1] == "";
      EmptyPartsSayNothing(parts, more[..n], key, fallback);
    }
  }

  predicate PlainPairs(pairs: seq<(string, string)>) {
    forall i :: 0 <= i < |pairs| ==> FieldSafe(pairs[i].0) && FieldSafe(pairs[i].1)
  }

  lemma {:induction false} RenderedPlain(pairs: seq<(string, string)>)
    requires PlainPairs(pairs)
    ensures |Rendered(pairs)| == |pairs| && forall i :: 0 <= i < |pairs| ==> FieldSafe(Rendered(pairs)[i])
  {
    if pairs != [] { RenderedPlain(pairs[..|pairs| - 1]); }
  }

  /** An acknowledgement read as its pairs, line ends or not. */
  lemma AckIsPairs(pairs: seq<(string, string)>, ending: string) returns (more: seq<string>)
    requires pairs != [] && PlainPairs(pairs) && LineEnds(ending)
    ensures Split(FieldText(Join(Rendered(pairs), '&') + ending), '&') == Rendered(pairs) + more && AllEmpty(more)
  {
    var parts := Rendered(pairs);
    RenderedPlain(pairs);
    JoinLacks(parts, '&', '\r');
    JoinLacks(parts, '&', '\n');
    FieldTextAppend(Join(parts, '&'), ending);
    FieldTextPlain(Join(parts, '&'));
    EndsAreAmpersands(ending);
    more := SplitTrailing(Join(parts, '&'), FieldText(ending));
    SplitUndoesJoin(parts, '&');
  }

  function AckPairs(id: nat, code: string, command: string, card: Option<string>): seq<(string, string)> {
    [("ID", Dec(id)), ("Return", code), ("CMD", command)] + (if card.Some? then [("CardNo", card.value)] else [])
  }

  lemma AckPairsPlain(id: nat, code: string, command: string, card: Option<string>)
    requires FieldSafe(code) && FieldSafe(command) && (card.Some? ==> FieldSafe(card.value))
    ensures PlainPairs(AckPairs(id, code, command, card)) && KeysApart(AckPairs(id, code, command, card))
  {
    assert FieldSafe(Dec(id));
  }

  /** Whatever the code, whether or not the panel names a card, and however the body ends: the server
      reads back the id, the code, the command and the card. */
  lemma AckReadBack(id: nat, code: string, command: string, card: Option<string>, ending: string)
    requires FieldSafe(code) && FieldSafe(command) && (card.Some? ==> FieldSafe(card.value)) && LineEnds(ending)
    ensures ParseAck(Join(Rendered(AckPairs(id, code, command, card)), '&') + ending) ==
            AckReport(id, code, command, card.GetOr(""))
  {
    var pairs := AckPairs(id, code, command, card);
    AckPairsPlain(id, code, command, card);
    var more := AckIsPairs(pairs, ending);
    EmptyPartsSayNothing(Rendered(pairs), more, "ID", "0");
    EmptyPartsSayNothing(Rendered(pairs), more, "Return", "0");
    EmptyPartsSayNothing(Rendered(pairs), more, "CMD", "");
    EmptyPartsSayNothing(Rendered(pairs), more, "CardNo", "");
    FieldOfPairs(pairs, 0, "0");
    FieldOfPairs(pairs, 1, "0");
    FieldOfPairs(pairs, 2, "");
    if card.Some? { FieldOfPairs(pairs, 3, ""); } else { FieldAbsent(pairs, "CardNo", ""); }
    ParseIntOfDec(id);
  }

  /** An acknowledgement that names no card, or neither a deletion nor an update, moves no table. */
  lemma OtherAckStays(r: AckReport)
    requires r.card == "" || (!Contains(r.command, "DELETE") && !Contains(r.command, "UPDATE"))
    ensures AckEffect(r) == Nothing
  {
  }

  // ---- event records ----

  function EventPairs(time: string, pin: string, card: string, door: nat, code: nat, verify: string, index: string,
                      sn: string): seq<(string, string)>
  {
    [("time", time), ("pin", pin), ("cardno", card), ("sitecode", "0"), ("linkid", "0"), ("eventaddr", Dec(door)),
     ("event", Dec(code)), ("inoutstatus", "2"), ("verifytype", verify), ("index", index), ("sn", sn)]
  }

  /** A number a record gives for nobody. */
  predicate Nobody(s: string) { s == "" || s == "0" }

  lemma EventKeysApart(time: string, pin: string, card: string, door: nat, code: nat, verify: string, index: string,
                       sn: string)
    ensures KeysApart(EventPairs(time, pin, card, door, code, verify, index, sn))
  {
  }

  lemma EventFields(pairs: seq<(string, string)>, time: string, pin: string, card: string, door: nat, code: nat,
                    verify: string, index: string, sn: string, clock: string)
    requires pairs == EventPairs(time, pin, card, door, code, verify, index, sn)
    ensures var parts := Rendered(pairs);
            && KeysApart(pairs)
            && Field(parts, "time", clock) == time && Field(parts, "pin", "0") == pin
            && Field(parts, "cardno", "0") == card && Field(parts, "eventaddr", "1") == Dec(door)
            && Field(parts, "event", "-1") == Dec(code) && Field(parts, "verifytype", "") == verify
            && Field(parts, "index", "") == index && Field(parts, "verify", "") == ""
  {
    EventKeysApart(time, pin, card, door, code, verify, index, sn);
    FieldOfPairs(pairs, 0, clock);
    FieldOfPairs(pairs, 1, "0");
    FieldOfPairs(pairs, 2, "0");
    FieldOfPairs(pairs, 5, "1");
    FieldOfPairs(pairs, 6, "-1");
    FieldOfPairs(pairs, 8, "");
    FieldOfPairs(pairs, 9, "");
    FieldAbsent(pairs, "verify", "");
  }

  lemma EventLine(pairs: seq<(string, string)>, time: string, pin: string, card: string, door: nat, code: nat,
                  verify: string, index: string, sn: string)
    requires pairs == EventPairs(time, pin, card, door, code, verify, index, sn)
    requires RecordSafe(time) && RecordSafe(pin) && RecordSafe(card) && RecordSafe(verify) && RecordSafe(index)
    requires RecordSafe(sn)
    ensures Split(Join(Rendered(pairs), '\t'), '\t') == Rendered(pairs)
  {
    DecTrimmed(door);
    DecTrimmed(code);
    RenderedTabFree(pairs);
    SplitUndoesJoin(Rendered(pairs), '\t');
  }

  /** Every event record is read back: a record without card and person is no access read; of any other
      the card counts if there is one and else the person, the door and the index are its own, the
      method is that of its verify type, and it counts as allowed for the event codes 0 to 4. */
  lemma EventReadBack(time: string, pin: string, card: string, door: nat, code: nat, verify: string, index: string,
                      sn: string, clock: string)
    requires RecordSafe(time) && RecordSafe(pin) && RecordSafe(card) && RecordSafe(verify) && RecordSafe(index)
    requires RecordSafe(sn)
    ensures ParseRtlog(Join(Rendered(EventPairs(time, pin, card, door, code, verify, index, sn)), '\t'), clock) ==
            if Nobody(card) && Nobody(pin) then None
            else Some(Tap(if Nobody(card) then pin else card, pin, Nobody(card), VerifyMethod(verify),
                          code in {0, 1, 2, 3, 4}, code, door, index, time))
  {
    var pairs := EventPairs(time, pin, card, door, code, verify, index, sn);
    EventFields(pairs, time, pin, card, door, code, verify, index, sn, clock);
    EventLine(pairs, time, pin, card, door, code, verify, index, sn);
    TapFromFields(Join(Rendered(pairs), '\t'), time, pin, card, door, code, verify, index, clock);
  }

  lemma TapFromFields(line: string, time: string, pin: string, card: string, door: nat, code: nat, verify: string,
                      index: string, clock: string)
    requires Trimmed(time) && Trimmed(pin) && Trimmed(card) && Trimmed(verify) && Trimmed(index)
    requires var parts := Split(line, '\t');
             && Field(parts, "time", clock) == time && Field(parts, "pin", "0") == pin
             && Field(parts, "cardno", "0") == card && Field(parts, "eventaddr", "1") == Dec(door)
             && Field(parts, "event", "-1") == Dec(code) && Field(parts, "verifytype", "") == verify
             && Field(parts, "index", "") == index && Field(parts, "verify", "") == ""
    ensures ParseRtlog(line, clock) ==
            if Nobody(card) && Nobody(pin) then None
            else Some(Tap(if Nobody(card) then pin else card, pin, Nobody(card), VerifyMethod(verify),
                          code in {0, 1, 2, 3, 4}, code, door, index, time))
  {
    TrimmedStrip(time);
    TrimmedStrip(pin);
    TrimmedStrip(card);
    TrimmedStrip(verify);
    TrimmedStrip(index);
    TrimmedStrip("");
    DecTrimmed(door);
    DecTrimmed(code);
    TrimmedStrip(Dec(door));
    TrimmedStrip(Dec(code));
    ParseIntOfDec(door);
    ParseIntOfDec(code);
  }

  lemma AttendanceRow(line: string, parts: seq<string>, clock: string)
    requires Split(line, '\t') == parts && |parts| >= 2 && Trimmed(parts[0]) && Trimmed(parts[1])
    ensures ParseAttlog(line, clock) ==
            if parts[0] == "" then None
            else Some(Tap(parts[0], parts[0], true, if |parts| > 3 then VerifyMethod(parts[3]) else "", true, 0, 1,
                          parts[1], if parts[1] == "" then clock else parts[1]))
  {
    TrimmedStrip(parts[0]);
    TrimmedStrip(parts[1]);
    NoMethod();
  }

  /** An attendance line of four columns or more: the person, always allowed, at the time it names, by
      the method of its fourth column; a line without a person is no access read. */
  lemma AttendanceReadBack(parts: seq<string>, clock: string)
    requires |parts| >= 4 && Trimmed(parts[0]) && Trimmed(parts[1])
    requires forall i :: 0 <= i < |parts| ==> '\t' !in parts[i]
    ensures var pin, time := parts[0], parts[1];
            ParseAttlog(Join(parts, '\t'), clock) ==
              if pin == "" then None
              else Some(Tap(pin, pin, true, VerifyMethod(parts[3]), true, 0, 1, time,
                            if time == "" then clock else time))
  {
    SplitUndoesJoin(parts, '\t');
    AttendanceRow(Join(parts, '\t'), parts, clock);
  }

  /** With two columns no method is known; with one there is no access read. */
  lemma ShortAttendance(pin: string, time: string, clock: string)
    requires RecordSafe(pin) && RecordSafe(time)
    ensures ParseAttlog(Join([pin, time], '\t'), clock) ==
            if pin == "" then None
            else Some(Tap(pin, pin, true, "", true, 0, 1, time, if time == "" then clock else time))
    ensures ParseAttlog(pin, clock) == None
  {
    SplitUndoesJoin([pin, time], '\t');
    SplitWhole(pin, '\t');
    AttendanceRow(Join([pin, time], '\t'), [pin, time], clock);
  }

  lemma NoMethod()
    ensures VerifyMethod("") == ""
  {
    TrimmedStrip("");
  }

  // ---- verify types ----

  /** The method a terminal's verify type stands for. */
  function MethodName(n: nat): string {
    if n == 0 then "" else if n in {1, 2} then "fingerprint" else if n == 3 then "password" else if n == 4 then "card"
    else if n == 9 then "finger_vein" else if n in {15, 16, 25} then "face" else if n == 20 then "palm"
    else "biometric"
  }

  function Zeros(k: nat): string {
    if k == 0 then "" else ['0'] + Zeros(k - 1)
  }

  lemma {:induction false} ZerosDropped(k: nat, s: string)
    ensures DropZeros(Zeros(k) + s) == DropZeros(s)
  {
    if k == 0 {
      assert Zeros(0) + s == s;
    } else {
      assert Zeros(k) + s == ['0'] + (Zeros(k - 1) + s);
      ZerosDropped(k - 1, s);
    }
  }

  lemma {:induction false} DecLeads(n: nat)
    ensures n > 0 ==> Dec(n)[0] != '0'
  {
    if n >= 10 {
      DecLeads(n / 10);
      assert Dec(n)[0] == Dec(n / 10)[0];
    }
  }

  lemma DecIs(n: nat, m: nat)
    ensures Dec(n) == Dec(m) <==> n == m
  {
    DigitsOfDec(n);
    DigitsOfDec(m);
  }

  lemma SmallNumbers()
    ensures Dec(1) == "1" && Dec(2) == "2" && Dec(3) == "3" && Dec(4) == "4" && Dec(9) == "9"
    ensures Dec(15) == "15" && Dec(16) == "16" && Dec(20) == "20" && Dec(25) == "25"
  {
  }

  lemma {:induction false} ZerosTrimmed(k: nat, n: nat)
    ensures Trimmed(Zeros(k) + Dec(n)) && Trimmed(Zeros(k))
  {
    ZerosAreZeros(k);
    DecTrimmed(n);
    var s := Zeros(k) + Dec(n);
    assert s[|s| - 1] == Dec(n)[|Dec(n)| - 1];
  }

  lemma {:induction false} ZerosAreZeros(k: nat)
    ensures forall i :: 0 <= i < |Zeros(k)| ==> Zeros(k)[i] == '0'
    ensures DropZeros(Zeros(k)) == ""
  {
    if k > 0 { ZerosAreZeros(k - 1); }
  }

  /** A verify type is read by its number, with any leading zeros; zeros alone name no method. */
  lemma VerifyByNumber(k: nat, n: nat)
    ensures n > 0 ==> VerifyMethod(Zeros(k) + Dec(n)) == MethodName(n)
    ensures VerifyMethod(Zeros(k)) == MethodName(0)
  {
    ZerosTrimmed(k, n);
    TrimmedStrip(Zeros(k) + Dec(n));
    TrimmedStrip(Zeros(k));
    ZerosAreZeros(k);
    ZerosDropped(k, Dec(n));
    DecLeads(n);
    SmallNumbers();
    DecIs(n, 1);
    DecIs(n, 2);
    DecIs(n, 3);
    DecIs(n, 4);
    DecIs(n, 9);
    DecIs(n, 15);
    DecIs(n, 16);
    DecIs(n, 20);
    DecIs(n, 25);
  }

  // ---- posted bodies ----

  lemma {:induction false} BlankHoldsNothing(s: string, c: char)
    requires Strip(s) == "" && !IsSpace(c)
    ensures c !in s
  {
    LeftOfBlank(s, c);
    RightOfBlank(StripLeft(s), c);
  }

  lemma {:induction false} LeftOfBlank(s: string, c: char)
    requires !IsSpace(c)
    ensures c in s <==> c in StripLeft(s)
  {
    if s != [] && IsSpace(s[0]) {
      LeftOfBlank(s[1..], c);
      assert s == [s[0]] + s[1..];
    }
  }

  lemma {:induction false} RightOfBlank(s: string, c: char)
    requires !IsSpace(c)
    ensures c in s <==> c in StripRight(s)
  {
    if s != [] && IsSpace(s[|s| - 1]) {
      RightOfBlank(s[..|s| - 1], c);
      assert s == s[..|s| - 1] + [s[|s| - 1]];
    }
  }

  lemma {:induction false} PartsLack(s: string, sep: char, c: char)
    requires c !in s
    ensures forall i :: 0 <= i < |Split(s, sep)| ==> c !in Split(s, sep)[i]
  {
    if s != [] { PartsLack(s[1..], sep, c); }
  }

  lemma NoField(line: string, key: string, fallback: string)
    requires '=' !in line && '=' !in key
    ensures Field(Split(line, '\t'), key, fallback) == fallback
  {
    PartsLack(line, '\t', '=');
    var i := FieldIsLast(Split(line, '\t'), key, fallback);
  }

  /** A blank line is no access read. */
  lemma BlankIsNoRead(line: string, clock: string)
    requires Strip(line) == ""
    ensures ParseRtlog(line, clock) == None
  {
    BlankHoldsNothing(line, '=');
    NoField(line, "cardno", "0");
    NoField(line, "pin", "0");
    TrimmedStrip("0");
  }

  /** A body is read line by line: whatever stands on a line, the lines before and behind it are read
      as if it were not there. */
  lemma {:induction false} BodyByLine(table: Table, sn: string, a: seq<string>, b: seq<string>, clock: string)
    ensures BodyTaps(table, sn, a + b, clock) == BodyTaps(table, sn, a, clock) + BodyTaps(table, sn, b, clock)
    decreases a
  {
    if a == [] {
      assert a + b == b;
    } else {
      assert (a + b)[1..] == a[1..] + b && (a + b)[0] == a[0];
      BodyByLine(table, sn, a[1..], b, clock);
    }
  }

  /** A line offers the read it holds, if any, under the panel, the time and the card; for an event
      record its index as well. */
  lemma LineOffers(table: Table, sn: string, line: string, clock: string)
    ensures var read := if table == Rtlog then ParseRtlog(line, clock) else ParseAttlog(line, clock);
            BodyTaps(table, sn, [line], clock) ==
              if read.None? then []
              else
                var tap := read.value;
                if table == Rtlog then
                  [(sn + ['|'] + (tap.index + ['|'] + (tap.timestamp + ['|'] + tap.card)), tap)]
                else
                  [(sn + ['|'] + ("attlog" + ['|'] + (tap.index + ['|'] + tap.card)), tap)]
  {
    assert [line][1..] == [];
    if table == Rtlog {
      if Strip(line) == "" {
        BlankIsNoRead(line, clock);
      } else if ParseRtlog(line, clock).Some? {
        KeyFields(sn, ParseRtlog(line, clock).value);
      }
    } else if ParseAttlog(line, clock).Some? {
      AttendanceKey(sn, ParseAttlog(line, clock).value);
    }
  }

  function Terminated(lines: seq<string>): string {
    if lines == [] then "" else lines[0] + "\r\n" + Terminated(lines[1..])
  }

  /** The body is cut into its lines. */
  lemma {:induction false} BodyLines(lines: seq<string>)
    requires forall i :: 0 <= i < |lines| ==> OneLine(lines[i])
    ensures SplitLines(Terminated(lines)) == lines
  {
    if lines != [] {
      BodyLines(lines[1..]);
      FirstLine(lines[0], Terminated(lines[1..]));
    }
  }

  // ---- attendance keys ----

  ghost predicate AttendanceKeyIsItsOwn(sn: string, a: Tap) {
    forall b: Tap :: AttlogKey(sn, a) == AttlogKey(sn, b) ==> a.index == b.index && a.card == b.card
  }

  lemma AttendanceKey(sn: string, tap: Tap)
    ensures AttlogKey(sn, tap) == sn + ['|'] + ("attlog" + ['|'] + (tap.index + ['|'] + tap.card))
  {
    var fields := [sn, "attlog", tap.index, tap.card];
    assert fields[1..] == ["attlog", tap.index, tap.card];
    assert fields[1..][1..] == [tap.index, tap.card];
    assert fields[1..][1..][1..] == [tap.card];
    assert Join([tap.index, tap.card], '|') == tap.index + ['|'] + tap.card;
    assert Join(["attlog", tap.index, tap.card], '|') == "attlog" + ['|'] + Join([tap.index, tap.card], '|');
  }

  lemma SameTail(sn: string, a: Tap, b: Tap)
    ensures AttlogKey(sn, a) == AttlogKey(sn, b) <==> a.index + ['|'] + a.card == b.index + ['|'] + b.card
  {
    AttendanceKey(sn, a);
    AttendanceKey(sn, b);
    SamePrefix(sn + ['|'], "attlog" + ['|'] + (a.index + ['|'] + a.card),
               "attlog" + ['|'] + (b.index + ['|'] + b.card));
    SamePrefix("attlog" + ['|'], a.index + ['|'] + a.card, b.index + ['|'] + b.card);
  }

  lemma OtherCut(sn: string, a: Tap) returns (b: Tap)
    requires '|' in a.index || '|' in a.card
    ensures AttlogKey(sn, a) == AttlogKey(sn, b) && a.index != b.index
  {
    if '|' in a.index {
      var p, q := CutAtSeparator(a.index);
      b := a.(index := p, card := q + ['|'] + a.card);
      Shifted(p, q, a.card);
    } else {
      var p, q := CutAtSeparator(a.card);
      b := a.(index := a.index + ['|'] + p, card := q);
      Shifted(a.index, p, q);
    }
    SameTail(sn, a, b);
    assert |a.index| != |b.index|;
  }

  lemma NoOtherCut(a: Tap, b: Tap)
    requires '|' !in a.index && '|' !in a.card && a.index + ['|'] + a.card == b.index + ['|'] + b.card
    ensures a.index == b.index && a.card == b.card
  {
    CountBetween(a.index, a.card);
    CountBetween(b.index, b.card);
    CountNone(a.index);
    CountNone(a.card);
    CountNone(b.index);
    HeadAndRest(a.index, a.card, b.index, b.card);
  }

  /** The key of an attendance record belongs to its time and person alone exactly when neither holds
      the separator. */
  lemma AttendanceKeysExactly(sn: string, a: Tap)
    ensures AttendanceKeyIsItsOwn(sn, a) <==> '|' !in a.index && '|' !in a.card
  {
    if '|' in a.index || '|' in a.card {
      var b := OtherCut(sn, a);
    } else {
      forall b: Tap | AttlogKey(sn, a) == AttlogKey(sn, b) ensures a.index == b.index && a.card == b.card {
        SameTail(sn, a, b);
        NoOtherCut(a, b);
      }
    }
  }
}
