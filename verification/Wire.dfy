/** The text of the push protocol: command lines, poll replies and acknowledgements,
    as the server writes and reads them and as the panel reads and writes them. */
module Wire {
  import opened Basics
  import opened PyText

  const PRIO_CONTROL: int := 10
  const PRIO_DATA: int := 0
  const CARD_KEY := "CardNo="
  const CONTROL_DEVICE := "CONTROL DEVICE"
  const UPDATE_USER := "DATA UPDATE user"
  const DELETE_USER := "DATA DELETE user"

  /** What a command line does to a card table. */
  datatype Effect = Nothing | AddCard(card: string) | RemoveCard(card: string)

  function ApplyEffect(users: set<string>, e: Effect): set<string> {
    match e
    case Nothing => users
    case AddCard(c) => users + {c}
    case RemoveCard(c) => users - {c}
  }

  // ---- lines the server writes ----

  function Clamp(n: int, lo: int, hi: int): int { Max(lo, Min(hi, n)) }

  /** Every line carries the command id between its first two colons. */
  function Line(id: nat, rest: string): string {
    "C:" + Dec(id) + ":" + rest
  }

  function ControlOperand(door: nat, duration: int): string {
    "01" + Hex2(door) + "01" + Hex2(Clamp(duration, 1, 0xFE))
  }

  function ControlRest(door: nat, duration: int): string {
    CONTROL_DEVICE + " " + ControlOperand(door, duration)
  }

  /** `format_control_cmd` */
  function ControlLine(id: nat, door: nat, duration: int): string {
    Line(id, ControlRest(door, duration))
  }

  /** The validity window and the name of a user record. */
  datatype UserInfo = UserInfo(pin: string, validFrom: string, validUntil: string, name: string)

  /** An empty pin stands for the card number, an empty name for the pin. */
  function Pin(card: string, info: UserInfo): string { if info.pin == "" then card else info.pin }

  function Name(card: string, info: UserInfo): string { if info.name == "" then Pin(card, info) else info.name }

  function TailFields(card: string, info: UserInfo): seq<string> {
    ["Password=", "Group=1", "StartTime=" + info.validFrom, "EndTime=" + info.validUntil, "Name=" + Name(card, info)]
  }

  function UserFields(card: string, info: UserInfo): string {
    Join(["Pin=" + Pin(card, info), CARD_KEY + card] + TailFields(card, info), '\t')
  }

  function UserRest(card: string, info: UserInfo): string {
    UPDATE_USER + " " + UserFields(card, info)
  }

  /** `format_user_cmd` */
  function UserLine(id: nat, card: string, info: UserInfo): string {
    Line(id, UserRest(card, info))
  }

  function DeleteRest(card: string): string {
    DELETE_USER + " " + (CARD_KEY + card)
  }

  /** `format_user_delete_cmd` */
  function DeleteLine(id: nat, card: string): string {
    Line(id, DeleteRest(card))
  }

  // ---- reading card numbers ----

  predicate IsCardWord(w: string) { CARD_KEY <= w }

  /** The server's scan: the last CardNo token wins. */
  function LastCard(ws: seq<string>): string {
    if ws == [] then ""
    else if IsCardWord(ws[|ws| - 1]) then ws[|ws| - 1][|CARD_KEY|..]
    else LastCard(ws[..|ws| - 1])
  }

  /** The panel's scan: the first CardNo token wins. */
  function FirstCard(ws: seq<string>): string {
    if ws == [] then ""
    else if IsCardWord(ws[0]) then ws[0][|CARD_KEY|..]
    else FirstCard(ws[1..])
  }

  predicate NoCardWord(ws: seq<string>) {
    forall i :: 0 <= i < |ws| ==> !IsCardWord(ws[i])
  }

  /** How `enqueue_command` changes the server's mirror of the card table. */
  function MirrorEffect(line: string): Effect {
    if Contains(line, UPDATE_USER) || Contains(line, DELETE_USER) then
      var card := LastCard(Words(line));
      if card == "" then Nothing
      else if Contains(line, "DELETE") then RemoveCard(card)
      else AddCard(card)
    else Nothing
  }

  /** The priority `enqueue_command` gives a line when the caller names none. */
  function PriorityOf(line: string, priority: Option<int>): int {
    match priority
    case Some(p) => p
    case None => if Contains(line, CONTROL_DEVICE) then PRIO_CONTROL else PRIO_DATA
  }

  // ---- the panel ----

  datatype PanelAct =
    | Ignored
    | Failed
    | Acted(id: string, command: string, card: string, effect: Effect, doorSeconds: Option<nat>)

  /** Index of the first `c`, or the length. */
  function IndexOf(s: string, c: char): (n: nat)
    ensures n <= |s| && c !in s[..n] && (n < |s| ==> s[n] == c)
  {
    if s == [] || s[0] == c then 0 else 1 + IndexOf(s[1..], c)
  }

  function Seconds(rest: string): Option<nat> {
    var parts := Words(rest);
    var operand := if |parts| > 2 then parts[2] else "01010105";
    if |operand| >= 8 then ParseHex2(operand[6..8]) else Some(5)
  }

  /** `_execute` once the line is split at its first two colons. */
  function PanelCommand(id: string, rest: string): PanelAct {
    if CONTROL_DEVICE <= rest then
      match Seconds(rest)
      case None => Failed
      case Some(n) => Acted(id, CONTROL_DEVICE, "", Nothing, Some(n))
    else if UPDATE_USER <= rest then
      var card := FirstCard(Words(rest));
      Acted(id, UPDATE_USER, card, if card == "" then Nothing else AddCard(card), None)
    else if DELETE_USER <= rest then
      var card := FirstCard(Words(rest));
      Acted(id, DELETE_USER, card, if card == "" then Nothing else RemoveCard(card), None)
    else
      Acted(id, rest[..IndexOf(rest, ' ')], "", Nothing, None)
  }

  /** `_execute`: what the panel does with one line. */
  function PanelRead(line: string): PanelAct {
    if !("C:" <= line) then Ignored
    else
      var tail := line[2..];
      var n := IndexOf(tail, ':');
      if n == |tail| then Ignored else PanelCommand(tail[..n], tail[n + 1..])
  }

  function PanelEffect(line: string): Effect {
    match PanelRead(line)
    case Acted(_, _, _, e, _) => e
    case _ => Nothing
  }

  /** The acknowledgement the panel posts after acting. */
  function AckBody(id: string, command: string, card: string): string {
    "ID=" + id + "&Return=0&CMD=" + command + "&CardNo=" + card
  }

  // ---- acknowledgements as the server reads them ----

  datatype AckReport = AckReport(id: int, code: string, command: string, card: string)

  /** Carriage returns dropped, line feeds turned into field separators. */
  function FieldText(body: string): string {
    if body == [] then []
    else if body[0] == '\r' then FieldText(body[1..])
    else if body[0] == '\n' then ['&'] + FieldText(body[1..])
    else [body[0]] + FieldText(body[1..])
  }

  /** `fields.get(key, fallback)`: the last `key=value` part wins. */
  function Field(parts: seq<string>, key: string, fallback: string): string {
    if parts == [] then fallback
    else
      var p := parts[|parts| - 1];
      var n := IndexOf(p, '=');
      if n < |p| && p[..n] == key then p[n + 1..] else Field(parts[..|parts| - 1], key, fallback)
  }

  /** The reading half of `_handle_devicecmd`. */
  function ParseAck(body: string): AckReport {
    var parts := Split(FieldText(body), '&');
    AckReport(ParseInt(Field(parts, "ID", "0")).GetOr(0), Field(parts, "Return", "0"),
              Field(parts, "CMD", ""), Field(parts, "CardNo", ""))
  }

  /** `_apply_user_effect`: how an acknowledgement changes the mirror. */
  function AckEffect(r: AckReport): Effect {
    if r.card == "" then Nothing
    else if Contains(r.command, "DELETE") then RemoveCard(r.card)
    else if Contains(r.command, "UPDATE") then AddCard(r.card)
    else Nothing
  }

  // ---- poll replies ----

  function Lines(lines: seq<string>): string {
    if |lines| == 0 then "" else if |lines| == 1 then lines[0] else lines[0] + "\r\n" + Lines(lines[1..])
  }

  /** The reply to a poll that hands out `lines`. */
  function PollReply(lines: seq<string>): string {
    if lines == [] then "OK\r\n" else Lines(lines) + "\r\n"
  }

  function StripAll(lines: seq<string>): seq<string> {
    if lines == [] then [] else [Strip(lines[0])] + StripAll(lines[1..])
  }

  /** The lines `_poll_loop` executes out of one reply. */
  function PanelLines(reply: string): seq<string> {
    var body := Strip(reply);
    if body == "" || body == "OK" then [] else StripAll(SplitLines(body))
  }

  // ---- proofs: card scans ----

  lemma {:induction false} LastCardAppend(a: seq<string>, b: seq<string>)
    requires NoCardWord(b)
    ensures LastCard(a + b) == LastCard(a)
  {
    if b == [] {
      assert a + b == a;
    } else {
      var s := a + b;
      assert s[..|s| - 1] == a + b[..|b| - 1];
      LastCardAppend(a, b[..|b| - 1]);
    }
  }

  lemma {:induction false} FirstCardPrepend(a: seq<string>, b: seq<string>)
    requires NoCardWord(a)
    ensures FirstCard(a + b) == FirstCard(b)
  {
    if a == [] {
      assert a + b == b;
    } else {
      assert (a + b)[1..] == a[1..] + b;
      FirstCardPrepend(a[1..], b);
    }
  }

  /** The last card a list names, or else `card`. */
  function LastOr(ws: seq<string>, card: string): string {
    if NoCardWord(ws) then card else LastCard(ws)
  }

  lemma {:induction false} LastCardWins(a: seq<string>, b: seq<string>)
    ensures LastCard(a + b) == LastOr(b, LastCard(a))
  {
    if NoCardWord(b) {
      LastCardAppend(a, b);
    } else {
      var n := |b| - 1;
      assert (a + b)[..|a + b| - 1] == a + b[..n];
      if !IsCardWord(b[n]) {
        assert !NoCardWord(b[..n]);
        LastCardWins(a, b[..n]);
      }
    }
  }

  /** The first scan stops at the first card word, the last scan goes on to the last one. */
  lemma CardWord(ws: seq<string>, a: seq<string>, card: string, b: seq<string>)
    requires NoCardWord(a) && ws == a + ([CARD_KEY + card] + b)
    ensures FirstCard(ws) == card && LastCard(ws) == LastOr(b, card)
  {
    var w := CARD_KEY + card;
    assert w[|CARD_KEY|..] == card;
    FirstCardPrepend(a, [w] + b);
    Associate(a, [w], b);
    LastCardWins(a + [w], b);
  }

  // ---- proofs: what a field of free text can hold ----

  lemma {:induction false} WordsAreParts(s: string, c: char)
    requires c !in s
    ensures forall i :: 0 <= i < |Words(s)| ==> c !in Words(s)[i]
    decreases |s|
  {
    if s == [] {
    } else if IsSpace(s[0]) {
      WordsAreParts(s[1..], c);
    } else {
      WordsAreParts(s[WordEnd(s)..], c);
    }
  }

  lemma NoCardWithout(s: string, c: char)
    requires c == 'C' || c == 'N'
    requires c !in s
    ensures NoCardWord(Words(s))
  {
    WordsAreParts(s, c);
    forall w: string | IsCardWord(w) ensures c in w {
      assert w[0] == 'C' && w[4] == 'N';
    }
  }

  /** A label joins the first word of the text behind it. */
  lemma LabelWords(key: string, text: string)
    requires Spaceless(key) && key != []
    ensures var n := WordEnd(text);
            && Words(key + text) == [key + text[..n]] + Words(text[n..])
            && (n > 0 ==> Words(text) == [text[..n]] + Words(text[n..]))
            && (n == 0 ==> text[n..] == text)
  {
    var n := WordEnd(text);
    var first := key + text[..n];
    assert key + text == first + text[n..];
    WordEndUpToSpace(first, text[n..]);
    assert (key + text)[..|first|] == first && (key + text)[|first|..] == text[n..];
  }

  /** A labelled text names a card only if the text itself does: a card number right behind the
      label is part of the label's word. */
  lemma LabelledWords(key: string, text: string)
    requires Spaceless(key) && key != [] && key[0] != 'C' && NoCardWord(Words(text))
    ensures NoCardWord(Words(key + text))
  {
    LabelWords(key, text);
    var n := WordEnd(text);
    assert (key + text[..n])[0] == key[0];
    assert forall i :: 0 <= i < |Words(text[n..])| ==> Words(text[n..])[i] in Words(text);
  }

  lemma LabelledWord(key: string, text: string)
    requires Spaceless(key) && key != [] && key[0] != 'C' && Spaceless(text)
    ensures NoCardWord(Words(key + text))
  {
    OneWord(key + text);
    assert (key + text)[0] == key[0];
  }

  function AllWords(parts: seq<string>): seq<string> {
    if parts == [] then [] else Words(parts[0]) + AllWords(parts[1..])
  }

  lemma {:induction false} JoinedWords(parts: seq<string>)
    ensures Words(Join(parts, '\t')) == AllWords(parts)
  {
    if |parts| == 1 {
      assert AllWords(parts[1..]) == [];
    } else if |parts| > 1 {
      JoinedWords(parts[1..]);
      WordsAtSpace(parts[0], '\t', Join(parts[1..], '\t'));
    }
  }

  /** A card and a pin that each are one word. */
  predicate PlainCard(card: string, info: UserInfo) {
    card != "" && Spaceless(card) && Spaceless(info.pin)
  }

  /** The words of the free text of a record: its validity window and its name. */
  function FreeWords(card: string, info: UserInfo): seq<string> {
    Words("StartTime=" + info.validFrom) + (Words("EndTime=" + info.validUntil) + Words("Name=" + Name(card, info)))
  }

  /** The free text names no card, or this card last. */
  predicate NamesOwnCard(card: string, info: UserInfo) {
    LastOr(FreeWords(card, info), card) == card
  }

  lemma LastOrSkips(a: seq<string>, b: seq<string>, card: string)
    requires NoCardWord(a)
    ensures LastOr(a + b, card) == LastOr(b, card)
  {
    LastCardWins(a, b);
    if !NoCardWord(b) {
      var i :| 0 <= i < |b| && IsCardWord(b[i]);
      assert (a + b)[|a| + i] == b[i];
    }
  }

  /** Free text without a card word names no card: single words and dates are such text. */
  predicate NamesNone(text: string) {
    Spaceless(text) || NoCardWord(Words(text))
  }

  lemma PlainNames(card: string, info: UserInfo)
    requires PlainCard(card, info) && NamesNone(info.validFrom) && NamesNone(info.validUntil) && NamesNone(info.name)
    ensures NoCardWord(FreeWords(card, info)) && NamesOwnCard(card, info)
  {
    NoneLabelled("StartTime=", info.validFrom);
    NoneLabelled("EndTime=", info.validUntil);
    NoneLabelled("Name=", Name(card, info));
  }

  lemma NoneLabelled(key: string, text: string)
    requires Spaceless(key) && key != [] && key[0] != 'C' && NamesNone(text)
    ensures NoCardWord(Words(key + text))
  {
    if Spaceless(text) { LabelledWord(key, text); } else { LabelledWords(key, text); }
  }

  lemma FixedFields()
    ensures Words("Password=") == ["Password="] && Words("Group=1") == ["Group=1"]
    ensures NoCardWord(["Password="]) && NoCardWord(["Group=1"])
  {
    PasswordField();
    GroupField();
  }

  lemma PasswordField()
    ensures Words("Password=") == ["Password="] && NoCardWord(["Password="])
  {
    OneFixed("Password=");
  }

  lemma GroupField()
    ensures Words("Group=1") == ["Group=1"] && NoCardWord(["Group=1"])
  {
    OneFixed("Group=1");
  }

  lemma OneFixed(s: string)
    requires Spaceless(s) && s != [] && s[0] != 'C'
    ensures Words(s) == [s] && NoCardWord([s])
  {
    OneWord(s);
  }

  lemma TailWords(card: string, info: UserInfo)
    ensures LastOr(Words(Join(TailFields(card, info), '\t')), card) == LastOr(FreeWords(card, info), card)
  {
    var fields := TailFields(card, info);
    var free := FreeWords(card, info);
    JoinedWords(fields);
    FiveFields(fields);
    FixedFields();
    LastOrSkips(["Password="], ["Group=1"] + free, card);
    LastOrSkips(["Group=1"], free, card);
  }

  lemma FiveFields(f: seq<string>)
    requires |f| == 5
    ensures AllWords(f) == Words(f[0]) + (Words(f[1]) + (Words(f[2]) + (Words(f[3]) + Words(f[4]))))
  {
    assert f[4..][1..] == [] && AllWords(f[4..]) == Words(f[4]) + [];
    assert AllWords(f[3..]) == Words(f[3]) + AllWords(f[4..]) by { assert f[3..][1..] == f[4..]; }
    assert AllWords(f[2..]) == Words(f[2]) + AllWords(f[3..]) by { assert f[2..][1..] == f[3..]; }
    assert AllWords(f[1..]) == Words(f[1]) + AllWords(f[2..]) by { assert f[1..][1..] == f[2..]; }
  }

  lemma TwoFieldsFirst(a: string, b: string, more: seq<string>)
    requires more != []
    ensures Join([a, b] + more, '\t') == a + ['\t'] + (b + ['\t'] + Join(more, '\t'))
  {
    var fields := [a, b] + more;
    assert fields[1..] == [b] + more;
    assert fields[1..][1..] == more;
  }

  /** Behind text without card words, the panel's scan finds this card and the server's scan the last. */
  lemma CardBetween(a: string, card: string, b: string)
    requires NoCardWord(Words(a)) && Spaceless(card)
    ensures var ws := Words(a + ['\t'] + (CARD_KEY + card + ['\t'] + b));
            FirstCard(ws) == card && LastCard(ws) == LastOr(Words(b), card)
  {
    var key := CARD_KEY + card;
    WordsAtSpace(a, '\t', key + ['\t'] + b);
    WordsAtSpace(key, '\t', b);
    OneWord(key);
    CardWord(Words(a + ['\t'] + (key + ['\t'] + b)), Words(a), card, Words(b));
  }

  lemma Regroup(a: string, b: string, c: string, d: string)
    ensures a + b + (c + d) == a + b + c + d
  {
  }

  lemma CardAfterPin(prefix: string, pin: string, card: string, tail: string)
    requires NoCardWord(Words(prefix)) && NoCardWord(Words(pin)) && Spaceless(card)
    ensures var ws := Words(prefix + [' '] + (pin + ['\t'] + (CARD_KEY + card + ['\t'] + tail)));
            FirstCard(ws) == card && LastCard(ws) == LastOr(Words(tail), card)
  {
    WordsAtSpace(prefix, ' ', pin);
    var a := prefix + [' '] + pin;
    CardBetween(a, card, tail);
    var more := CARD_KEY + card + ['\t'] + tail;
    Regroup(prefix, [' '], pin + ['\t'], more);
    Regroup(prefix, [' '], pin, ['\t']);
  }

  /** Whatever stands before the fields, the panel's scan finds the card of a user record and the
      server's scan the last card its free text names, if any. */
  lemma UserCardFound(prefix: string, card: string, info: UserInfo)
    requires 'N' !in prefix && PlainCard(card, info)
    ensures var ws := Words(prefix + " " + UserFields(card, info));
            FirstCard(ws) == card && LastCard(ws) == LastOr(FreeWords(card, info), card)
  {
    var pin := "Pin=" + Pin(card, info);
    TwoFieldsFirst(pin, CARD_KEY + card, TailFields(card, info));
    NoCardWithout(prefix, 'N');
    TailWords(card, info);
    LabelledWord("Pin=", Pin(card, info));
    CardAfterPin(prefix, pin, card, Join(TailFields(card, info), '\t'));
  }

  lemma DeleteCardFound(prefix: string, card: string)
    requires 'N' !in prefix && card != "" && Spaceless(card)
    ensures var ws := Words(prefix + " " + (CARD_KEY + card));
            LastCard(ws) == card == FirstCard(ws)
  {
    NoCardWithout(prefix, 'N');
    WordsAtSpace(prefix, ' ', CARD_KEY + card);
    OneWord(CARD_KEY + card);
    CardWord(Words(prefix) + [CARD_KEY + card], Words(prefix), card, []);
  }

  // ---- proofs: lines ----

  lemma {:induction false} IndexOfFirst(a: string, c: char, b: string)
    requires c !in a
    ensures IndexOf(a + [c] + b, c) == |a|
  {
    if a != [] {
      assert (a + [c] + b)[1..] == a[1..] + [c] + b;
      IndexOfFirst(a[1..], c, b);
    }
  }

  /** The panel recovers the id and the command from a line. */
  lemma PanelReadsLine(id: nat, rest: string)
    ensures PanelRead(Line(id, rest)) == PanelCommand(Dec(id), rest)
  {
    var tail := Dec(id) + ":" + rest;
    assert Line(id, rest)[2..] == tail;
    IndexOfFirst(Dec(id), ':', rest);
    assert tail[..|Dec(id)|] == Dec(id) && tail[|Dec(id)| + 1..] == rest;
  }

  lemma RestOccurs(id: nat, rest: string, sub: string)
    requires sub <= rest
    ensures OccursAt(Line(id, rest), sub, 3 + |Dec(id)|) && Contains(Line(id, rest), sub)
  {
    assert OccursAt(Line(id, rest), sub, 3 + |Dec(id)|);
  }

  lemma PanelUpdates(id: string, fields: string, card: string)
    requires card == FirstCard(Words(UPDATE_USER + " " + fields))
    ensures PanelCommand(id, UPDATE_USER + " " + fields) ==
            Acted(id, UPDATE_USER, card, if card == "" then Nothing else AddCard(card), None)
  {
    var rest := UPDATE_USER + " " + fields;
    assert rest[0] == 'D' && rest[..|UPDATE_USER|] == UPDATE_USER;
  }

  lemma PanelDeletes(id: string, fields: string, card: string)
    requires card == FirstCard(Words(DELETE_USER + " " + fields))
    ensures PanelCommand(id, DELETE_USER + " " + fields) ==
            Acted(id, DELETE_USER, card, if card == "" then Nothing else RemoveCard(card), None)
  {
    var rest := DELETE_USER + " " + fields;
    assert rest[0] == 'D' && rest[5] == 'D' && rest[..|DELETE_USER|] == DELETE_USER;
  }

  /** The mirror's move by the card it found, in a line that does or does not hold DELETE. */
  function MirrorOf(card: string, deletes: bool): Effect {
    if card == "" then Nothing else if deletes then RemoveCard(card) else AddCard(card)
  }

  lemma MirrorOfUserLine(line: string)
    requires Contains(line, UPDATE_USER) || Contains(line, DELETE_USER)
    ensures MirrorEffect(line) == MirrorOf(LastCard(Words(line)), Contains(line, "DELETE"))
  {
  }

  lemma DeleteOccurs(line: string, i: nat)
    requires OccursAt(line, DELETE_USER, i)
    ensures Contains(line, "DELETE")
  {
    SliceOfSlice(line, i, i + 16, 5, 11);
    DeleteInVerb();
    assert OccursAt(line, "DELETE", i + 5);
  }

  lemma SliceOfSlice(s: string, i: nat, j: nat, a: nat, b: nat)
    requires i <= j <= |s| && a <= b <= j - i
    ensures s[i..j][a..b] == s[i + a..i + b]
  {
    var t, u := s[i..j][a..b], s[i + a..i + b];
    assert |t| == |u| && forall n :: 0 <= n < |t| ==> t[n] == s[i + a + n] == u[n];
  }

  lemma DeleteInVerb()
    ensures |DELETE_USER| == 16 && DELETE_USER[5..11] == "DELETE"
  {
  }

  lemma PrefixedLine(id: nat, verb: string, fields: string)
    ensures Line(id, verb + " " + fields) == "C:" + Dec(id) + ":" + verb + " " + fields
  {
  }

  lemma PrefixHasNoN(id: nat, verb: string)
    requires 'N' !in verb
    ensures 'N' !in "C:" + Dec(id) + ":" + verb
  {
  }

  lemma UserLineRead(id: nat, card: string, info: UserInfo)
    requires PlainCard(card, info)
    ensures PanelRead(UserLine(id, card, info)) == Acted(Dec(id), UPDATE_USER, card, AddCard(card), None)
  {
    PanelReadsLine(id, UserRest(card, info));
    UserCardFound(UPDATE_USER, card, info);
    PanelUpdates(Dec(id), UserFields(card, info), card);
  }

  lemma UserLineMirrored(id: nat, card: string, info: UserInfo, line: string)
    requires PlainCard(card, info) && line == UserLine(id, card, info)
    ensures MirrorEffect(line) == MirrorOf(LastOr(FreeWords(card, info), card), Contains(line, "DELETE"))
  {
    PrefixHasNoN(id, UPDATE_USER);
    UserCardFound("C:" + Dec(id) + ":" + UPDATE_USER, card, info);
    PrefixedLine(id, UPDATE_USER, UserFields(card, info));
    RestOccurs(id, UserRest(card, info), UPDATE_USER);
    MirrorOfUserLine(line);
  }

  /** Whatever its free text, a user record reaches the panel as an addition of its card; the
      server's mirror moves by the last card the free text names, and removes it if the line holds
      the text DELETE. */
  lemma UserLineEffects(id: nat, card: string, info: UserInfo)
    requires PlainCard(card, info)
    ensures PanelRead(UserLine(id, card, info)) == Acted(Dec(id), UPDATE_USER, card, AddCard(card), None)
    ensures MirrorEffect(UserLine(id, card, info)) ==
            MirrorOf(LastOr(FreeWords(card, info), card), Contains(UserLine(id, card, info), "DELETE"))
  {
    UserLineRead(id, card, info);
    UserLineMirrored(id, card, info, UserLine(id, card, info));
  }

  lemma DeleteLineRead(id: nat, card: string)
    requires card != "" && Spaceless(card)
    ensures PanelRead(DeleteLine(id, card)) == Acted(Dec(id), DELETE_USER, card, RemoveCard(card), None)
  {
    PanelReadsLine(id, DeleteRest(card));
    DeleteCardFound(DELETE_USER, card);
    PanelDeletes(Dec(id), CARD_KEY + card, card);
  }

  lemma DeleteLineMirrored(id: nat, card: string, line: string)
    requires card != "" && Spaceless(card) && line == DeleteLine(id, card)
    ensures MirrorEffect(line) == RemoveCard(card)
  {
    PrefixHasNoN(id, DELETE_USER);
    DeleteCardFound("C:" + Dec(id) + ":" + DELETE_USER, card);
    PrefixedLine(id, DELETE_USER, CARD_KEY + card);
    RestOccurs(id, DeleteRest(card), DELETE_USER);
    MirrorOfUserLine(line);
    DeleteOccurs(line, 3 + |Dec(id)|);
  }

  /** A deletion reaches the panel with its id and card, and the mirror always agrees. */
  lemma DeleteLineEffects(id: nat, card: string)
    requires card != "" && Spaceless(card)
    ensures PanelRead(DeleteLine(id, card)) == Acted(Dec(id), DELETE_USER, card, RemoveCard(card), None)
    ensures MirrorEffect(DeleteLine(id, card)) == RemoveCard(card)
  {
    DeleteLineRead(id, card);
    DeleteLineMirrored(id, card, DeleteLine(id, card));
  }

  lemma ControlOperandShape(door: nat, duration: int)
    requires door < 256
    ensures var operand := ControlOperand(door, duration);
            |operand| == 8 && Spaceless(operand) && 'u' !in operand &&
            ParseHex2(operand[6..8]) == Some(Clamp(duration, 1, 254))
  {
    var seconds := Clamp(duration, 1, 0xFE);
    HexByteRoundTrip(door);
    HexByteRoundTrip(seconds);
    HexPrintable(door);
    HexPrintable(seconds);
    assert ControlOperand(door, duration)[6..8] == Hex2(seconds);
  }

  lemma ControlLineLacks(id: nat, operand: string)
    requires 'u' !in operand
    ensures 'u' !in Line(id, CONTROL_DEVICE + " " + operand)
  {
  }

  /** A relay command opens the door for the requested seconds, clamped to one byte, and touches
      no card table. */
  lemma ControlLineEffects(id: nat, door: nat, duration: int)
    requires door < 256
    ensures PanelRead(ControlLine(id, door, duration)) ==
            Acted(Dec(id), CONTROL_DEVICE, "", Nothing, Some(Clamp(duration, 1, 254)))
    ensures MirrorEffect(ControlLine(id, door, duration)) == Nothing
    ensures PriorityOf(ControlLine(id, door, duration), None) == PRIO_CONTROL
  {
    var rest := ControlRest(door, duration);
    PanelReadsLine(id, rest);
    ControlOperandShape(door, duration);
    OperandSeconds(ControlOperand(door, duration));
    RestOccurs(id, rest, CONTROL_DEVICE);
    ControlLineLacks(id, ControlOperand(door, duration));
    ContainsNeeds(ControlLine(id, door, duration), UPDATE_USER, 'u');
    ContainsNeeds(ControlLine(id, door, duration), DELETE_USER, 'u');
  }

  lemma HexPrintable(n: nat)
    requires n < 256
    ensures Spaceless(Hex2(n)) && 'u' !in Hex2(n)
  {
    HexByteRoundTrip(n);
  }

  lemma ThreeWords(a: string, b: string, c: string)
    requires Spaceless(a) && a != [] && Spaceless(b) && b != [] && Spaceless(c) && c != []
    ensures Words(a + [' '] + (b + [' '] + c)) == [a, b, c]
  {
    WordsAtSpace(a, ' ', b + [' '] + c);
    WordsAtSpace(b, ' ', c);
    OneWord(a);
    OneWord(b);
    OneWord(c);
  }

  lemma OperandSeconds(operand: string)
    requires Spaceless(operand) && |operand| >= 8
    ensures Seconds(CONTROL_DEVICE + " " + operand) == ParseHex2(operand[6..8])
  {
    ThreeWords("CONTROL", "DEVICE", operand);
    assert CONTROL_DEVICE + " " + operand == "CONTROL" + [' '] + ("DEVICE" + [' '] + operand);
  }

  lemma ContainsNeeds(s: string, sub: string, c: char)
    requires c in sub
    ensures Contains(s, sub) ==> c in s
  {
    if i :| 0 <= i <= |s| && OccursAt(s, sub, i) {
      var k :| 0 <= k < |sub| && sub[k] == c;
      assert s[i..i + |sub|][k] == s[i + k];
    }
  }

  lemma {:induction false} JoinLacks(parts: seq<string>, sep: char, c: char)
    requires c != sep && forall i :: 0 <= i < |parts| ==> c !in parts[i]
    ensures c !in Join(parts, sep)
  {
    if |parts| > 1 { JoinLacks(parts[1..], sep, c); }
  }

  /** Text such as lower-case hexadecimal hashes, digits and dates: no capital L. */
  predicate LacksL(card: string, info: UserInfo) {
    'L' !in card && 'L' !in info.pin && 'L' !in info.validFrom && 'L' !in info.validUntil && 'L' !in info.name
  }

  /** A user record without a capital L is plain data: no DELETE, no CONTROL DEVICE. */
  lemma PlainUserLine(id: nat, card: string, info: UserInfo)
    requires LacksL(card, info)
    ensures !Contains(UserLine(id, card, info), "DELETE")
    ensures PriorityOf(UserLine(id, card, info), None) == PRIO_DATA
  {
    var line := UserLine(id, card, info);
    JoinLacks(["Pin=" + Pin(card, info), CARD_KEY + card] + TailFields(card, info), '\t', 'L');
    assert 'L' !in line;
    ContainsNeeds(line, "DELETE", 'L');
    ContainsNeeds(line, CONTROL_DEVICE, 'L');
  }

  lemma PlainDeleteLine(id: nat, card: string)
    requires Spaceless(card)
    ensures PriorityOf(DeleteLine(id, card), None) == PRIO_DATA
  {
    var line := DeleteLine(id, card);
    var n := 3 + |Dec(id)|;
    var verb := "C:" + Dec(id) + ":" + DELETE_USER;
    PrefixedLine(id, DELETE_USER, CARD_KEY + card);
    assert Spaceless(CARD_KEY + card);
    assert |verb| == n + 16;
    assert forall k :: 0 <= k < |line| && line[k] == ' ' ==> k == n + 4 || k == n + 11 || k == n + 16;
    forall i | 0 <= i <= |line| && OccursAt(line, CONTROL_DEVICE, i)
      ensures i + 7 < |line| && line[i + 6] == 'L' && line[i + 7] == ' '
    {
      ControlShape(line, i);
    }
  }

  lemma ControlShape(line: string, i: nat)
    requires OccursAt(line, CONTROL_DEVICE, i)
    ensures i + 7 < |line| && line[i + 6] == 'L' && line[i + 7] == ' '
  {
    assert line[i..i + 14][6] == line[i + 6];
    assert line[i..i + 14][7] == line[i + 7];
  }

  // ---- proofs: acknowledgements ----

  lemma {:induction false} FieldTextPlain(body: string)
    requires '\r' !in body && '\n' !in body
    ensures FieldText(body) == body
  {
    if body != [] { FieldTextPlain(body[1..]); }
  }

  lemma KeyValue(key: string, value: string)
    requires '=' !in key
    ensures var p := key + ['='] + value;
            IndexOf(p, '=') == |key| && p[..|key|] == key && p[|key| + 1..] == value
  {
    IndexOfFirst(key, '=', value);
  }

  lemma FieldLast(parts: seq<string>, key: string, value: string, fallback: string)
    requires '=' !in key
    ensures Field(parts + [key + ['='] + value], key, fallback) == value
  {
    KeyValue(key, value);
    var all := parts + [key + ['='] + value];
    assert all[|all| - 1] == key + ['='] + value;
  }

  lemma FieldSkip(parts: seq<string>, other: string, value: string, key: string, fallback: string)
    requires '=' !in other && other != key
    ensures Field(parts + [other + ['='] + value], key, fallback) == Field(parts, key, fallback)
  {
    KeyValue(other, value);
    var all := parts + [other + ['='] + value];
    assert all[|all| - 1] == other + ['='] + value;
    assert all[..|all| - 1] == parts;
  }

  function AckParts(id: string, command: string, card: string): seq<string> {
    ["ID" + ['='] + id, "Return" + ['='] + "0", "CMD" + ['='] + command, "CardNo" + ['='] + card]
  }

  lemma AckBodyIsJoin(id: string, command: string, card: string)
    ensures AckBody(id, command, card) == Join(AckParts(id, command, card), '&')
  {
    var p := AckParts(id, command, card);
    assert Join(p, '&') == p[0] + ['&'] + Join(p[1..], '&');
    assert Join(p[1..], '&') == p[1] + ['&'] + Join(p[2..], '&');
    assert p[1..][1..] == p[2..] && p[2..][1..] == p[3..];
    assert Join(p[2..], '&') == p[2] + ['&'] + p[3];
  }

  lemma AckFields(id: string, command: string, card: string)
    ensures var p := AckParts(id, command, card);
            Field(p, "ID", "0") == id && Field(p, "Return", "0") == "0" &&
            Field(p, "CMD", "") == command && Field(p, "CardNo", "") == card
  {
    var p := AckParts(id, command, card);
    assert p == p[..3] + ["CardNo" + ['='] + card] && p[..3] == p[..2] + ["CMD" + ['='] + command] &&
           p[..2] == p[..1] + ["Return" + ['='] + "0"] && p[..1] == [] + ["ID" + ['='] + id];
    FieldLast(p[..3], "CardNo", card, "");
    FieldSkip(p[..3], "CardNo", card, "CMD", "");
    FieldLast(p[..2], "CMD", command, "");
    FieldSkip(p[..3], "CardNo", card, "Return", "0");
    FieldSkip(p[..2], "CMD", command, "Return", "0");
    FieldLast(p[..1], "Return", "0", "0");
    FieldSkip(p[..3], "CardNo", card, "ID", "0");
    FieldSkip(p[..2], "CMD", command, "ID", "0");
    FieldSkip(p[..1], "Return", "0", "ID", "0");
    FieldLast([], "ID", id, "0");
  }

  /** Text that cannot break out of its field of an acknowledgement. */
  predicate FieldSafe(s: string) {
    '&' !in s && '\r' !in s && '\n' !in s
  }

  /** The server reads back exactly the id, the code, the command and the card the panel posted. */
  lemma AckRoundTrip(id: nat, command: string, card: string)
    requires FieldSafe(command) && FieldSafe(card)
    ensures ParseAck(AckBody(Dec(id), command, card)) == AckReport(id, "0", command, card)
  {
    var parts := AckParts(Dec(id), command, card);
    AckBodyIsJoin(Dec(id), command, card);
    forall i | 0 <= i < |parts| ensures FieldSafe(parts[i]) {}
    JoinLacks(parts, '&', '\r');
    JoinLacks(parts, '&', '\n');
    FieldTextPlain(Join(parts, '&'));
    SplitUndoesJoin(parts, '&');
    AckFields(Dec(id), command, card);
    ParseIntOfDec(id);
  }

  /** The whole exchange for one card: what the panel acknowledges has, on the server, the effect
      the panel itself applied. */
  lemma AckEffectMatches(id: nat, card: string, adding: bool)
    requires card != "" && FieldSafe(card)
    ensures AckEffect(ParseAck(AckBody(Dec(id), if adding then UPDATE_USER else DELETE_USER, card))) ==
            if adding then AddCard(card) else RemoveCard(card)
  {
    AckRoundTrip(id, if adding then UPDATE_USER else DELETE_USER, card);
    CommandNames();
  }

  lemma CommandNames()
    ensures Contains(DELETE_USER, "DELETE")
    ensures !Contains(UPDATE_USER, "DELETE") && Contains(UPDATE_USER, "UPDATE")
  {
    assert OccursAt(DELETE_USER, "DELETE", 5);
    assert OccursAt(UPDATE_USER, "UPDATE", 5);
    ContainsNeeds(UPDATE_USER, "DELETE", 'L');
  }

  // ---- proofs: poll replies ----

  /** A command line that survives transport: it starts with `C:` and neither breaks nor has
      white space at its ends. */
  predicate Sendable(line: string) {
    "C:" <= line && OneLine(line) && Trimmed(line)
  }

  /** Dates and name without a line break. */
  predicate Unbroken(info: UserInfo) {
    OneLine(info.validFrom) && OneLine(info.validUntil) && OneLine(info.name)
  }

  lemma OneLineJoin(a: string, b: string)
    requires OneLine(a) && OneLine(b)
    ensures OneLine(a + b)
  {
  }

  lemma TextSendable(id: nat, rest: string)
    requires rest != "" && OneLine(rest) && !IsSpace(rest[|rest| - 1])
    ensures Sendable(Line(id, rest))
  {
  }

  lemma TrimmedStrip(s: string)
    requires Trimmed(s)
    ensures Strip(s) == s
  {
  }

  lemma {:induction false} LinesShape(lines: seq<string>)
    requires lines != [] && forall i :: 0 <= i < |lines| ==> Sendable(lines[i])
    ensures "C:" <= Lines(lines) && Trimmed(Lines(lines))
    ensures SplitLines(Lines(lines)) == lines
    ensures StripAll(lines) == lines
  {
    TrimmedStrip(lines[0]);
    if |lines| == 1 {
      assert LineEnd(lines[0]) == |lines[0]|;
    } else {
      LinesShape(lines[1..]);
      FirstLine(lines[0], Lines(lines[1..]));
      var all := Lines(lines);
      assert all[|all| - 1] == Lines(lines[1..])[|Lines(lines[1..])| - 1];
    }
  }

  lemma {:induction false} StripLeftEnds(s: string)
    ensures |StripLeft(s)| <= |s| && StripLeft(s) == s[|s| - |StripLeft(s)|..]
    ensures StripLeft(s) != [] ==> !IsSpace(StripLeft(s)[0])
  {
    if s != [] && IsSpace(s[0]) { StripLeftEnds(s[1..]); }
  }

  lemma {:induction false} StripRightEnds(s: string)
    ensures StripRight(s) <= s
    ensures StripRight(s) != [] ==> !IsSpace(StripRight(s)[|StripRight(s)| - 1])
  {
    if s != [] && IsSpace(s[|s| - 1]) { StripRightEnds(s[..|s| - 1]); }
  }

  lemma StripPlain(s: string)
    ensures Trimmed(Strip(s)) && (OneLine(s) ==> OneLine(Strip(s)))
  {
    StripLeftEnds(s);
    StripRightEnds(StripLeft(s));
  }

  predicate PlainLines(lines: seq<string>) {
    forall i :: 0 <= i < |lines| ==> OneLine(lines[i]) && Trimmed(lines[i])
  }

  lemma {:induction false} LinesPlain(s: string)
    ensures PlainLines(StripAll(SplitLines(s)))
    decreases |s|
  {
    if s != [] {
      var n := LineEnd(s);
      StripPlain(s[..n]);
      assert s[..|s|] == s;
      if n < |s| {
        LinesPlain(s[n + 1..]);
        if n + 2 <= |s| { LinesPlain(s[n + 2..]); }
      } else {
        assert StripAll([]) == [];
      }
    }
  }

  /** The panel executes exactly the lines the server handed out, in that order, if and only if none
      of them breaks or ends in white space. */
  lemma PollReplyRoundTrip(lines: seq<string>)
    requires forall i :: 0 <= i < |lines| ==> "C:" <= lines[i]
    ensures PanelLines(PollReply(lines)) == lines <==> forall i :: 0 <= i < |lines| ==> Sendable(lines[i])
  {
    if forall i :: 0 <= i < |lines| ==> Sendable(lines[i]) {
      LinesDelivered(lines);
    }
    LinesPlain(Strip(PollReply(lines)));
  }

  lemma LinesDelivered(lines: seq<string>)
    requires forall i :: 0 <= i < |lines| ==> Sendable(lines[i])
    ensures PanelLines(PollReply(lines)) == lines
  {
    if lines == [] {
      assert StripLeft("OK\r\n") == "OK\r\n";
      assert StripRight("OK\r\n") == StripRight("OK\r") == StripRight("OK") == "OK" by {
        assert "OK\r\n"[..3] == "OK\r" && "OK\r"[..2] == "OK";
      }
    } else {
      LinesShape(lines);
      StripEndOfLine(Lines(lines));
    }
  }

  lemma StripEndOfLine(text: string)
    requires text != [] && Trimmed(text)
    ensures Strip(text + "\r\n") == text
  {
    var reply := text + "\r\n";
    assert StripLeft(reply) == reply;
    assert reply[..|reply| - 1] == text + "\r";
    assert (text + "\r")[..|text|] == text;
    assert StripRight(text) == text;
    assert StripRight(text + "\r") == text;
    assert StripRight(reply) == StripRight(text + "\r");
  }
}
