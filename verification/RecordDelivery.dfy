/** From a user record to the panel's table, as the record is delivered: the text of a poll reply is
    cut into lines before the panel executes them, so free text that breaks a line is executed. */
module RecordDelivery {
  import opened Basics
  import opened PyText
  import opened Wire
  import opened PanelLink
  import opened LossyLink
  import opened MockPanel

  /** What the panel executes when one line has been handed out to it. */
  function Delivered(line: string): seq<string> {
    PanelLines(PollReply([line]))
  }

  lemma StripLeftKeeps(head: string, t: string)
    requires "C:" <= head
    ensures StripLeft(head + t) == head + t
  {
    assert (head + t)[0] == 'C';
  }

  lemma EndOfLineStripped(line: string)
    ensures StripRight(line + "\r\n") == StripRight(line)
  {
    var reply := line + "\r\n";
    assert reply[..|reply| - 1] == line + "\r" && (line + "\r")[..|line|] == line;
    assert StripRight(reply) == StripRight(line + "\r");
  }

  lemma StillACommand(line: string)
    requires "C:" <= line
    ensures "C:" <= StripRight(line)
  {
    StripRightKeeps("C:", line[2..]);
    assert "C:" + line[2..] == line;
  }

  lemma DeliveredText(line: string)
    requires "C:" <= line
    ensures Delivered(line) == StripAll(SplitLines(StripRight(line))) && "C:" <= StripRight(line)
  {
    assert Lines([line]) == line;
    StripLeftKeeps(line, "\r\n");
    EndOfLineStripped(line);
    StillACommand(line);
  }

  /** Stripping text behind a head that ends in no white space leaves the head alone. */
  lemma {:induction false} StripRightKeeps(head: string, rest: string)
    requires head != [] && !IsSpace(head[|head| - 1])
    ensures StripRight(head + rest) == head + StripRight(rest)
  {
    if rest == [] {
      assert head + rest == head;
    } else {
      var s := head + rest;
      assert s[..|s| - 1] == head + rest[..|rest| - 1] && s[|s| - 1] == rest[|rest| - 1];
      StripRightKeeps(head, rest[..|rest| - 1]);
    }
  }

  lemma {:induction false} LineEndBehind(head: string, rest: string)
    requires OneLine(head)
    ensures LineEnd(head + rest) == |head| + LineEnd(rest)
  {
    if head == [] {
      assert head + rest == rest;
    } else {
      assert (head + rest)[1..] == head[1..] + rest;
      LineEndBehind(head[1..], rest);
    }
  }

  lemma FirstOfLines(s: string)
    requires s != []
    ensures SplitLines(s) != [] && SplitLines(s)[0] == s[..LineEnd(s)]
  {
    assert s[..|s|] == s;
  }

  lemma FirstCut(head: string, body: string, first: string)
    requires OneLine(head) && head != [] && first == body[..LineEnd(body)]
    ensures SplitLines(head + body) != [] && SplitLines(head + body)[0] == head + first
  {
    LineEndBehind(head, body);
    FirstOfLines(head + body);
    assert (head + body)[..|head| + LineEnd(body)] == head + first;
  }

  lemma FirstStripped(lines: seq<string>)
    requires lines != []
    ensures StripAll(lines) != [] && StripAll(lines)[0] == Strip(lines[0])
  {
  }

  /** The first line executed begins with every head of the record that neither breaks nor ends in
      white space. */
  lemma HeadDelivered(head: string, rest: string) returns (t: string)
    requires "C:" <= head && OneLine(head) && !IsSpace(head[|head| - 1])
    ensures t <= rest && Delivered(head + rest) != [] && Delivered(head + rest)[0] == head + t
  {
    var body := StripRight(rest);
    var first := body[..LineEnd(body)];
    t := StripRight(first);
    StripRightEnds(rest);
    StripRightEnds(first);
    HeadText(head, rest);
    DeliveredText(head + rest);
    StripRightKeeps(head, rest);
    FirstCut(head, body, first);
    FirstStripped(SplitLines(head + body));
    StripLeftKeeps(head, first);
    StripRightKeeps(head, first);
  }

  lemma HeadText(head: string, rest: string)
    requires "C:" <= head
    ensures "C:" <= head + rest
  {
  }

  // ---- the record's own line ----

  /** A record up to its card number. */
  function RecordHead(id: nat, card: string, info: UserInfo): string {
    Line(id, UPDATE_USER + " " + ("Pin=" + Pin(card, info) + ['\t'] + (CARD_KEY + card)))
  }

  function RecordTail(card: string, info: UserInfo): string {
    ['\t'] + Join(TailFields(card, info), '\t')
  }

  lemma RecordParts(id: nat, card: string, info: UserInfo)
    ensures UserLine(id, card, info) == RecordHead(id, card, info) + RecordTail(card, info)
  {
    TwoFieldsFirst("Pin=" + Pin(card, info), CARD_KEY + card, TailFields(card, info));
  }

  lemma HeadPlain(id: nat, card: string, info: UserInfo)
    requires PlainCard(card, info)
    ensures var head := RecordHead(id, card, info);
            "C:" <= head && OneLine(head) && !IsSpace(head[|head| - 1])
  {
    var fields := "Pin=" + Pin(card, info) + ['\t'] + (CARD_KEY + card);
    assert OneLine("Pin=" + Pin(card, info) + ['\t']) && OneLine(CARD_KEY + card);
    assert fields[|fields| - 1] == card[|card| - 1];
    LinePlain(id, UPDATE_USER + " ", fields);
  }

  lemma LinePlain(id: nat, verb: string, rest: string)
    requires OneLine(verb) && OneLine(rest) && rest != [] && !IsSpace(rest[|rest| - 1])
    ensures var line := Line(id, verb + rest);
            Sendable(line) && !IsSpace(line[|line| - 1])
  {
    OneLineJoin(verb, rest);
    TextSendable(id, verb + rest);
  }

  lemma NoCardJoined(a: string, c: char, b: string)
    requires IsSpace(c) && NoCardWord(Words(a)) && NoCardWord(Words(b))
    ensures NoCardWord(Words(a + [c] + b))
  {
    WordsAtSpace(a, c, b);
  }

  lemma CardAtEnd(a: string, card: string)
    requires NoCardWord(Words(a)) && Spaceless(card)
    ensures FirstCard(Words(a + ['\t'] + (CARD_KEY + card))) == card
  {
    var key := CARD_KEY + card;
    WordsAtSpace(a, '\t', key);
    OneWord(key);
    FirstOnly(Words(a), card, Words(a + ['\t'] + key));
  }

  lemma FirstOnly(ws: seq<string>, card: string, all: seq<string>)
    requires NoCardWord(ws) && all == ws + [CARD_KEY + card]
    ensures FirstCard(all) == card
  {
    assert [CARD_KEY + card] + [] == [CARD_KEY + card];
    CardWord(all, ws, card, []);
  }

  /** The scan finds the card when the line is cut right behind it. */
  lemma CardAtCut(prefix: string, pin: string, card: string)
    requires NoCardWord(Words(prefix)) && NoCardWord(Words(pin)) && Spaceless(card)
    ensures FirstCard(Words(prefix + [' '] + (pin + ['\t'] + (CARD_KEY + card)))) == card
  {
    NoCardJoined(prefix, ' ', pin);
    CardAtEnd(prefix + [' '] + pin, card);
    Wire.Regroup(prefix, [' '], pin + ['\t'], CARD_KEY + card);
    Wire.Regroup(prefix, [' '], pin, ['\t']);
  }

  lemma BehindCard(pin: string, card: string, t: string)
    requires t != [] && t[0] == '\t'
    ensures pin + ['\t'] + (CARD_KEY + card) + t == pin + ['\t'] + (CARD_KEY + card + ['\t'] + t[1..])
  {
    assert t == ['\t'] + t[1..];
  }

  /** The scan finds the card wherever the line is cut behind it. */
  lemma CardInCut(prefix: string, pin: string, card: string, t: string)
    requires NoCardWord(Words(prefix)) && NoCardWord(Words(pin)) && Spaceless(card) && (t != [] ==> t[0] == '\t')
    ensures FirstCard(Words(prefix + [' '] + (pin + ['\t'] + (CARD_KEY + card) + t))) == card
  {
    if t == [] {
      CardAtCut(prefix, pin, card);
      assert pin + ['\t'] + (CARD_KEY + card) + t == pin + ['\t'] + (CARD_KEY + card);
    } else {
      CardAfterPin(prefix, pin, card, t[1..]);
      BehindCard(pin, card, t);
    }
  }

  lemma AdditionRead(id: nat, fields: string, card: string)
    requires card != "" && card == FirstCard(Words(UPDATE_USER + " " + fields))
    ensures PanelRead(Line(id, UPDATE_USER + " " + fields)) == Acted(Dec(id), UPDATE_USER, card, AddCard(card), None)
  {
    PanelReadsLine(id, UPDATE_USER + " " + fields);
    PanelUpdates(Dec(id), fields, card);
  }

  lemma CutLine(id: nat, head: string, t: string)
    ensures Line(id, UPDATE_USER + " " + head) + t == Line(id, UPDATE_USER + " " + (head + t))
  {
  }

  /** The fields of a record, cut somewhere behind its card number. */
  function CutFields(card: string, info: UserInfo, t: string): string {
    "Pin=" + Pin(card, info) + ['\t'] + (CARD_KEY + card) + t
  }

  lemma VerbNamesNone()
    ensures NoCardWord(Words(UPDATE_USER))
  {
    NoCardWithout(UPDATE_USER, 'N');
  }

  lemma CutCardFound(verb: string, card: string, info: UserInfo, t: string)
    requires NoCardWord(Words(verb)) && PlainCard(card, info) && (t != [] ==> t[0] == '\t')
    ensures FirstCard(Words(verb + " " + CutFields(card, info, t))) == card
  {
    LabelledWord("Pin=", Pin(card, info));
    CardInCut(verb, "Pin=" + Pin(card, info), card, t);
  }

  lemma CutRecordIs(id: nat, card: string, info: UserInfo, t: string)
    ensures RecordHead(id, card, info) + t == Line(id, UPDATE_USER + " " + CutFields(card, info, t))
  {
    CutLine(id, "Pin=" + Pin(card, info) + ['\t'] + (CARD_KEY + card), t);
  }

  lemma CutRecordRead(id: nat, card: string, info: UserInfo, t: string, line: string)
    requires PlainCard(card, info) && (t != [] ==> t[0] == '\t') && line == RecordHead(id, card, info) + t
    ensures PanelRead(line) == Acted(Dec(id), UPDATE_USER, card, AddCard(card), None)
  {
    VerbNamesNone();
    CutCardFound(UPDATE_USER, card, info, t);
    CutRecordIs(id, card, info, t);
    AdditionRead(id, CutFields(card, info, t), card);
  }

  /** Wherever its free text breaks, the record's first line adds its card under its id. */
  lemma RecordComesFirst(id: nat, card: string, info: UserInfo, line: string)
    requires PlainCard(card, info) && line == UserLine(id, card, info)
    ensures Delivered(line) != []
    ensures PanelRead(Delivered(line)[0]) == Acted(Dec(id), UPDATE_USER, card, AddCard(card), None)
  {
    RecordParts(id, card, info);
    HeadPlain(id, card, info);
    var t := HeadDelivered(RecordHead(id, card, info), RecordTail(card, info));
    assert t != [] ==> t[0] == RecordTail(card, info)[0];
    CutRecordRead(id, card, info, t, Delivered(line)[0]);
  }

  // ---- operations, and when they amount to one ----

  /** The card-table operations of lines executed in turn; a line the panel fails on ends them. */
  function OpsOf(lines: seq<string>): seq<Effect>
    decreases lines
  {
    if lines == [] || PanelRead(lines[0]).Failed? then []
    else (if PanelEffect(lines[0]) == Nothing then [] else [PanelEffect(lines[0])]) + OpsOf(lines[1..])
  }

  lemma {:induction false} OpsAreOps(lines: seq<string>)
    ensures forall i :: 0 <= i < |OpsOf(lines)| ==> OpsOf(lines)[i] != Nothing
    decreases lines
  {
    if lines != [] { OpsAreOps(lines[1..]); }
  }

  lemma OneFold(users: set<string>, e: Effect)
    ensures Fold(users, if e == Nothing then [] else [e]) == ApplyEffect(users, e)
  {
    assert [e][..0] == [];
  }

  lemma {:induction false} ExecuteIsOps(users: set<string>, lines: seq<string>)
    ensures ExecuteLines(users, lines) == Fold(users, OpsOf(lines))
    decreases lines
  {
    if lines != [] && !PanelRead(lines[0]).Failed? {
      var e := PanelEffect(lines[0]);
      ExecuteIsOps(ApplyEffect(users, e), lines[1..]);
      FoldAppend(users, if e == Nothing then [] else [e], OpsOf(lines[1..]));
      OneFold(users, e);
    }
  }

  /** Operations that on every table amount to the one effect. */
  ghost predicate Amounts(ops: seq<Effect>, e: Effect) {
    forall users :: Fold(users, ops) == ApplyEffect(users, e)
  }

  predicate AllOn(ops: seq<Effect>, card: string) {
    forall i :: 0 <= i < |ops| ==> CardOf(ops[i]) == Some(card)
  }

  /** A card that operations mention is decided by them, whatever the table. */
  lemma {:induction false} Decided(ops: seq<Effect>, i: nat, card: string, a: set<string>, b: set<string>)
    requires i < |ops| && CardOf(ops[i]) == Some(card)
    ensures card in Fold(a, ops) <==> card in Fold(b, ops)
  {
    var n := |ops| - 1;
    if CardOf(ops[n]) != Some(card) {
      assert ops[..n][i] == ops[i];
      Decided(ops[..n], i, card, a, b);
    }
  }

  /** Operations amount to one effect on a card exactly when they are all on that card and the last
      one is that effect. */
  lemma AmountsExactly(ops: seq<Effect>, e: Effect)
    requires ops != [] && forall i :: 0 <= i < |ops| ==> ops[i] != Nothing
    ensures Amounts(ops, e) <==> e == ops[|ops| - 1] && AllOn(ops, CardOf(ops[|ops| - 1]).value)
  {
    var last := ops[|ops| - 1];
    var card := CardOf(last).value;
    if Amounts(ops, e) {
      forall i | 0 <= i < |ops| ensures CardOf(e) == CardOf(ops[i]) {
        var c := CardOf(ops[i]).value;
        Decided(ops, i, c, {}, {c});
        assert Fold({}, ops) == ApplyEffect({}, e) && Fold({c}, ops) == ApplyEffect({c}, e);
      }
      assert card in ApplyEffect({}, last) <==> card in ApplyEffect({}, e);
    } else if e == last && AllOn(ops, card) {
      forall users ensures Fold(users, ops) == ApplyEffect(users, last) {
        OnOneCard(ops, card, users);
      }
    }
  }

  lemma {:induction false} OnOneCard(ops: seq<Effect>, card: string, users: set<string>)
    requires ops != [] && AllOn(ops, card)
    ensures Fold(users, ops) == ApplyEffect(users, ops[|ops| - 1])
  {
    var n := |ops| - 1;
    assert CardOf(ops[n]) == Some(card);
    if n > 0 {
      OnOneCard(ops[..n], card, users);
      assert CardOf(ops[n - 1]) == Some(card);
    }
  }

  // ---- panel and mirror on a delivered record ----

  /** What the text behind a line break makes the panel do to its table. */
  function Extra(line: string): seq<Effect> {
    var lines := Delivered(line);
    if lines == [] then [] else OpsOf(lines[1..])
  }

  /** Whatever the table, executing the delivered record leaves the panel as the mirror has it. */
  ghost predicate RecordAgrees(line: string) {
    forall users :: ExecuteLines(users, Delivered(line)) == ApplyEffect(users, MirrorEffect(line))
  }

  lemma RecordOps(id: nat, card: string, info: UserInfo, line: string)
    requires PlainCard(card, info) && line == UserLine(id, card, info)
    ensures OpsOf(Delivered(line)) == [AddCard(card)] + Extra(line)
    ensures RecordAgrees(line) <==> Amounts([AddCard(card)] + Extra(line), MirrorEffect(line))
  {
    RecordComesFirst(id, card, info, line);
    forall users ensures ExecuteLines(users, Delivered(line)) == Fold(users, [AddCard(card)] + Extra(line)) {
      ExecuteIsOps(users, Delivered(line));
    }
  }

  /** For every record, whatever its dates and name: panel and mirror agree exactly when the text
      behind its line breaks touches no other card, and leaves this card as the mirror has it. */
  lemma RecordAgreesExactly(id: nat, card: string, info: UserInfo, line: string)
    requires PlainCard(card, info) && line == UserLine(id, card, info)
    ensures RecordAgrees(line) <==>
            && AllOn(Extra(line), card)
            && LastOf(Extra(line), AddCard(card)) ==
               MirrorOf(LastOr(FreeWords(card, info), card), Contains(line, "DELETE"))
  {
    UserLineEffects(id, card, info);
    RecordOps(id, card, info, line);
    OpsAreOps(Delivered(line));
    AgreesExactly(Extra(line), card, MirrorEffect(line));
  }

  function LastOf(ops: seq<Effect>, first: Effect): Effect {
    if ops == [] then first else ops[|ops| - 1]
  }

  lemma AgreesExactly(extra: seq<Effect>, card: string, mirror: Effect)
    requires forall i :: 0 <= i < |[AddCard(card)] + extra| ==> ([AddCard(card)] + extra)[i] != Nothing
    ensures Amounts([AddCard(card)] + extra, mirror) <==> AllOn(extra, card) && LastOf(extra, AddCard(card)) == mirror
  {
    AmountsExactly([AddCard(card)] + extra, mirror);
    OnThisCard(extra, card);
  }

  lemma OnThisCard(extra: seq<Effect>, card: string)
    requires forall i :: 0 <= i < |[AddCard(card)] + extra| ==> ([AddCard(card)] + extra)[i] != Nothing
    ensures var ops := [AddCard(card)] + extra;
            && ops[|ops| - 1] == LastOf(extra, AddCard(card))
            && (AllOn(ops, CardOf(ops[|ops| - 1]).value) <==> AllOn(extra, card))
  {
    var ops := [AddCard(card)] + extra;
    assert ops[0] == AddCard(card) && forall i :: 0 <= i < |extra| ==> ops[i + 1] == extra[i];
  }

  // ---- records of one line ----

  lemma {:induction false} JoinOneLine(parts: seq<string>)
    requires forall i :: 0 <= i < |parts| ==> OneLine(parts[i])
    ensures OneLine(Join(parts, '\t'))
  {
    if |parts| > 1 { JoinOneLine(parts[1..]); }
  }

  /** The fields behind the card number when the last one is `Name=` and this text. */
  function NamedFields(info: UserInfo, name: string): seq<string> {
    ["Password=", "Group=1", "StartTime=" + info.validFrom, "EndTime=" + info.validUntil] + ["Name=" + name]
  }

  lemma NamedOneLine(info: UserInfo, name: string)
    requires OneLine(info.validFrom) && OneLine(info.validUntil) && OneLine(name)
    ensures OneLine(['\t'] + Join(NamedFields(info, name), '\t'))
  {
    OneLineJoin("StartTime=", info.validFrom);
    OneLineJoin("EndTime=", info.validUntil);
    OneLineJoin("Name=", name);
    JoinOneLine(NamedFields(info, name));
  }

  lemma TailIsNamed(card: string, info: UserInfo)
    ensures TailFields(card, info) == NamedFields(info, Name(card, info))
  {
  }

  lemma RecordOneLine(id: nat, card: string, info: UserInfo)
    requires PlainCard(card, info) && Unbroken(info)
    ensures OneLine(UserLine(id, card, info))
  {
    RecordParts(id, card, info);
    HeadPlain(id, card, info);
    TailIsNamed(card, info);
    NamedOneLine(info, Name(card, info));
    OneLineJoin(RecordHead(id, card, info), RecordTail(card, info));
  }

  lemma OneLineDelivered(line: string)
    requires "C:" <= line && OneLine(line)
    ensures |Delivered(line)| == 1
  {
    var s := StripRight(line);
    DeliveredText(line);
    StripRightEnds(line);
    assert LineEnd(s) == |s|;
    OneStripped(s);
  }

  lemma OneStripped(s: string)
    ensures |StripAll([s])| == 1
  {
    assert [s][1..] == [];
  }

  /** A record without line breaks: panel and mirror agree exactly when the line does not hold DELETE
      and dates and name hold no card token, or this card's last. */
  lemma OneLineRecordAgrees(id: nat, card: string, info: UserInfo, line: string)
    requires PlainCard(card, info) && Unbroken(info) && line == UserLine(id, card, info)
    ensures |Delivered(line)| == 1
    ensures RecordAgrees(line) <==> !Contains(line, "DELETE") && NamesOwnCard(card, info)
  {
    RecordOneLine(id, card, info);
    OneLineDelivered(line);
    RecordAgreesExactly(id, card, info, line);
    MirrorAdds(card, LastOr(FreeWords(card, info), card), Contains(line, "DELETE"));
  }

  lemma MirrorAdds(card: string, named: string, deletes: bool)
    requires card != ""
    ensures AddCard(card) == MirrorOf(named, deletes) <==> !deletes && named == card
  {
  }

  // ---- records with a line break ----

  lemma {:induction false} JoinTail(parts: seq<string>, a: string, b: string)
    ensures Join(parts + [a + b], '\t') == Join(parts + [a], '\t') + b
  {
    if parts != [] {
      JoinTail(parts[1..], a, b);
      assert (parts + [a + b])[1..] == parts[1..] + [a + b] && (parts + [a])[1..] == parts[1..] + [a];
    }
  }

  lemma SplitAtBreak(first: string, second: string)
    requires OneLine(first)
    ensures SplitLines(first + ['\n'] + second) == [first] + SplitLines(second)
  {
    var line := first + ['\n'] + second;
    LineEndBehind(first, ['\n'] + second);
    assert line == first + (['\n'] + second);
    assert line[..|first|] == first && line[|first| + 1..] == second;
  }

  lemma BothStripped(first: string, second: string)
    requires OneLine(second) && Trimmed(second) && second != []
    ensures StripAll([first] + SplitLines(second)) == [Strip(first), second]
  {
    TrimmedStrip(second);
    assert LineEnd(second) == |second| && SplitLines(second) == [second];
    assert [second][1..] == [] && StripAll([second]) == [second];
    assert ([first] + [second])[1..] == [second];
  }

  lemma EndKept(a: string, b: string)
    requires b != [] && Trimmed(b)
    ensures StripRight(a + b) == a + b
  {
  }

  lemma TwoLines(first: string, second: string)
    requires "C:" <= first && OneLine(first) && Sendable(second)
    ensures Delivered(first + ['\n'] + second) == [Strip(first), second]
  {
    HeadText(first, ['\n']);
    HeadText(first + ['\n'], second);
    DeliveredText(first + ['\n'] + second);
    EndKept(first + ['\n'], second);
    SplitAtBreak(first, second);
    BothStripped(first, second);
  }

  /** The name of the record, behind a line break, is a line of its own for the panel. */
  lemma BrokenRecord(id: nat, card: string, info: UserInfo, first: string, command: string, line: string)
    returns (prefix: string)
    requires PlainCard(card, info) && OneLine(info.validFrom) && OneLine(info.validUntil)
    requires OneLine(first) && Sendable(command) && info.name == first + ['\n'] + command
    requires line == UserLine(id, card, info)
    ensures |Delivered(line)| == 2 && Delivered(line)[1] == command && Extra(line) == OpsOf([command])
    ensures line == prefix + command
  {
    var head := RecordHead(id, card, info) + (['\t'] + Join(NamedFields(info, first), '\t'));
    RecordParts(id, card, info);
    HeadPlain(id, card, info);
    TailIsNamed(card, info);
    NamedOneLine(info, first);
    OneLineJoin(RecordHead(id, card, info), ['\t'] + Join(NamedFields(info, first), '\t'));
    NameSplit(RecordHead(id, card, info), info, first, command);
    TwoLines(head, command);
    prefix := head + ['\n'];
  }

  lemma NameSplit(head: string, info: UserInfo, first: string, command: string)
    ensures head + (['\t'] + Join(NamedFields(info, first + ['\n'] + command), '\t')) ==
            head + (['\t'] + Join(NamedFields(info, first), '\t')) + ['\n'] + command
  {
    var fields := ["Password=", "Group=1", "StartTime=" + info.validFrom, "EndTime=" + info.validUntil];
    assert "Name=" + (first + ['\n'] + command) == "Name=" + first + (['\n'] + command);
    JoinTail(fields, "Name=" + first, ['\n'] + command);
  }

  lemma OneOpOf(command: string)
    requires PanelRead(command).Acted? && PanelEffect(command) != Nothing
    ensures OpsOf([command]) == [PanelEffect(command)]
  {
    assert [command][1..] == [];
  }

  /** A line of one card addition that ends in a token of another card. */
  function Adding(n: nat, other: string, card: string): string {
    Line(n, UPDATE_USER + " " + (CARD_KEY + other + ['\t'] + (CARD_KEY + card)))
  }

  lemma AddingEnds(n: nat, other: string, card: string)
    ensures Adding(n, other, card) == Line(n, UPDATE_USER + " " + (CARD_KEY + other)) + ['\t'] + (CARD_KEY + card)
  {
    CutLine(n, CARD_KEY + other, ['\t'] + (CARD_KEY + card));
    Associate(CARD_KEY + other, ['\t'], CARD_KEY + card);
    Associate(Line(n, UPDATE_USER + " " + (CARD_KEY + other)), ['\t'], CARD_KEY + card);
  }

  /** A line break in a name can make the panel add a second card, although the line holds no DELETE
      and names the record's own card last. */
  lemma BrokenNameAddsCard(id: nat, card: string, info: UserInfo, first: string, n: nat, other: string, line: string)
    requires PlainCard(card, info) && OneLine(info.validFrom) && OneLine(info.validUntil) && OneLine(first)
    requires other != "" && Spaceless(other) && other != card
    requires info.name == first + ['\n'] + Adding(n, other, card) && line == UserLine(id, card, info)
    ensures NamesOwnCard(card, info) && Extra(line) == [AddCard(other)] && !RecordAgrees(line)
    ensures LacksL(card, info) ==> !Contains(line, "DELETE")
  {
    var command := Adding(n, other, card);
    AddingSendable(n, other, card);
    AddingRead(n, other, card);
    AddingEnds(n, other, card);
    var _ := BrokenRecord(id, card, info, first, command, line);
    OneOpOf(command);
    Associate(first + ['\n'], Line(n, UPDATE_USER + " " + (CARD_KEY + other)) + ['\t'], CARD_KEY + card);
    Associate(first + ['\n'], Line(n, UPDATE_USER + " " + (CARD_KEY + other)), ['\t']);
    NamedLast(card, info, first + ['\n'] + Line(n, UPDATE_USER + " " + (CARD_KEY + other)), '\t', card);
    RecordAgreesExactly(id, card, info, line);
    if LacksL(card, info) { PlainUserLine(id, card, info); }
  }

  lemma AddingSendable(n: nat, other: string, card: string)
    requires Spaceless(other) && card != "" && Spaceless(card)
    ensures Sendable(Adding(n, other, card))
  {
    var fields := CARD_KEY + other + ['\t'] + (CARD_KEY + card);
    assert fields[|fields| - 1] == card[|card| - 1];
    LinePlain(n, UPDATE_USER + " ", fields);
  }

  lemma AddingRead(n: nat, other: string, card: string)
    requires other != "" && Spaceless(other) && Spaceless(card)
    ensures PanelRead(Adding(n, other, card)) == Acted(Dec(n), UPDATE_USER, other, AddCard(other), None)
  {
    VerbNamesNone();
    AddingFields(UPDATE_USER, other, card);
    AdditionRead(n, CARD_KEY + other + ['\t'] + (CARD_KEY + card), other);
  }

  lemma AddingFields(verb: string, other: string, card: string)
    requires NoCardWord(Words(verb)) && Spaceless(other) && Spaceless(card)
    ensures FirstCard(Words(verb + " " + (CARD_KEY + other + ['\t'] + (CARD_KEY + card)))) == other
  {
    WordsAtSpace(verb, ' ', CARD_KEY + other + ['\t'] + (CARD_KEY + card));
    WordsAtSpace(CARD_KEY + other, '\t', CARD_KEY + card);
    OneWord(CARD_KEY + other);
    CardWord(Words(verb) + ([CARD_KEY + other] + Words(CARD_KEY + card)), Words(verb), other, Words(CARD_KEY + card));
  }

  /** And it can make both sides agree although the line holds DELETE: both then drop the card. */
  lemma BrokenNameDropsCard(id: nat, card: string, info: UserInfo, first: string, n: nat, line: string)
    requires PlainCard(card, info) && OneLine(info.validFrom) && OneLine(info.validUntil) && OneLine(first)
    requires info.name == first + ['\n'] + DeleteLine(n, card) && line == UserLine(id, card, info)
    ensures Contains(line, "DELETE") && Extra(line) == [RemoveCard(card)] && RecordAgrees(line)
  {
    var command := DeleteLine(n, card);
    DeleteLineEffects(n, card);
    DeleteSendable(n, card);
    var prefix := BrokenRecord(id, card, info, first, command, line);
    RestOccurs(n, DeleteRest(card), DELETE_USER);
    DeleteOccurs(command, 3 + |Dec(n)|);
    ContainsBehind(prefix, command, "DELETE");
    OneOpOf(command);
    DeleteIsNamed(n, card);
    Associate(first + ['\n'], Line(n, DELETE_USER) + [' '], CARD_KEY + card);
    Associate(first + ['\n'], Line(n, DELETE_USER), [' ']);
    NamedLast(card, info, first + ['\n'] + Line(n, DELETE_USER), ' ', card);
    RecordAgreesExactly(id, card, info, line);
  }

  lemma ContainsBehind(a: string, b: string, sub: string)
    requires Contains(b, sub)
    ensures Contains(a + b, sub)
  {
    var i :| 0 <= i <= |b| && OccursAt(b, sub, i);
    assert (a + b)[|a| + i..|a| + i + |sub|] == b[i..i + |sub|];
    assert OccursAt(a + b, sub, |a| + i);
  }

  lemma DeleteIsNamed(n: nat, card: string)
    ensures DeleteLine(n, card) == Line(n, DELETE_USER) + [' '] + (CARD_KEY + card)
  {
  }

  lemma DeleteSendable(n: nat, card: string)
    requires card != "" && Spaceless(card)
    ensures Sendable(DeleteLine(n, card))
  {
    assert (CARD_KEY + card)[|CARD_KEY + card| - 1] == card[|card| - 1];
    LinePlain(n, DELETE_USER + " ", CARD_KEY + card);
  }

  /** It can even open a door. */
  lemma BrokenNameOpensDoor(id: nat, card: string, info: UserInfo, first: string, n: nat, door: nat, seconds: int,
                            line: string)
    requires PlainCard(card, info) && OneLine(info.validFrom) && OneLine(info.validUntil) && OneLine(first)
    requires door < 256 && info.name == first + ['\n'] + ControlLine(n, door, seconds)
    requires line == UserLine(id, card, info)
    ensures |Delivered(line)| == 2
    ensures PanelRead(Delivered(line)[1]) == Acted(Dec(n), CONTROL_DEVICE, "", Nothing, Some(Clamp(seconds, 1, 254)))
  {
    ControlOperandShape(door, seconds);
    LinePlain(n, CONTROL_DEVICE + " ", ControlOperand(door, seconds));
    ControlLineEffects(n, door, seconds);
    var _ := BrokenRecord(id, card, info, first, ControlLine(n, door, seconds), line);
  }
}
