/** The simulated panel: what it does with lines and poll replies, and which formatted lines it and
    the server understand alike. */
module MockPanel {
  import opened Basics
  import opened PyText
  import opened Wire
  import opened PanelLink

  /** The acknowledgement of a line, as the server reads it. */
  function MockReply(line: string, echo: bool): Option<Reply> {
    match PanelRead(line)
    case Acted(id, command, card, _, _) =>
      var r := ParseAck(AckBody(id, command, if echo then card else ""));
      Some(Reply(r.id, r.code, AckEffect(r)))
    case _ => None
  }

  /** The simulated panel names the card in its acknowledgements; the real one does not. */
  function Mock(echo: bool): PanelKind {
    PanelKind(PanelEffect, (line: string) => MockReply(line, echo), echo)
  }

  /** The effect an acknowledged command name and card stand for. */
  function NamedEffect(command: string, card: string): Effect {
    AckEffect(AckReport(0, "0", command, card))
  }

  /** A line the panel reads is answered under its id, with the effect the panel applied. */
  lemma ReadLineAnswered(line: string, id: nat, command: string, card: string, effect: Effect,
                         seconds: Option<nat>, echo: bool)
    requires id > 0 && PanelRead(line) == Acted(Dec(id), command, card, effect, seconds)
    requires FieldSafe(command) && FieldSafe(card) && NamedEffect(command, card) == effect
    ensures Answered(id, line, Mock(echo)) && Mock(echo).effect(line) == effect
  {
    AckRoundTrip(id, command, card);
    AckRoundTrip(id, command, "");
    assert MockReply(line, echo) == Some(Reply(id, "0", if echo then effect else Nothing));
  }

  lemma UserCommandsNamed(card: string)
    requires card != ""
    ensures NamedEffect(UPDATE_USER, card) == AddCard(card) && NamedEffect(DELETE_USER, card) == RemoveCard(card)
  {
    CommandNames();
  }

  lemma CommandsFieldSafe()
    ensures FieldSafe(UPDATE_USER) && FieldSafe(DELETE_USER) && FieldSafe(CONTROL_DEVICE) && FieldSafe("")
  {
  }

  /** Whatever its free text, a user record is answered and adds its card to the panel; the mirror
      agrees exactly when the line does not hold DELETE and the free text names no other card last. */
  lemma UserLineUnderstood(id: nat, card: string, info: UserInfo, line: string, echo: bool)
    requires id > 0 && PlainCard(card, info) && FieldSafe(card) && line == UserLine(id, card, info)
    ensures Answered(id, line, Mock(echo)) && Mock(echo).effect(line) == AddCard(card)
    ensures MirrorEffect(line) == Mock(echo).effect(line) <==> !Contains(line, "DELETE") && NamesOwnCard(card, info)
  {
    UserCommandsNamed(card);
    CommandsFieldSafe();
    UserLineEffects(id, card, info);
    ReadLineAnswered(line, id, UPDATE_USER, card, AddCard(card), None, echo);
  }

  /** The first failing family is not empty: the mirror drops the very card the panel adds. */
  lemma CardNamedDeleteIsMisread(id: nat, line: string)
    requires line == UserLine(id, "DELETE", UserInfo("", "0", "0", ""))
    ensures PanelEffect(line) == AddCard("DELETE") && MirrorEffect(line) == RemoveCard("DELETE")
  {
    var info := UserInfo("", "0", "0", "");
    UserLineEffects(id, "DELETE", info);
    PlainNames("DELETE", info);
    PinInLine(id, "DELETE", info);
  }

  /** Nor is the second: when a name ends in a card token of its own, the mirror moves to that card
      while the panel adds the record's own. */
  lemma NamedCardIsMirrored(id: nat, card: string, info: UserInfo, text: string, space: char, other: string,
                            line: string)
    requires PlainCard(card, info) && IsSpace(space) && Spaceless(other)
    requires info.name == text + [space] + (CARD_KEY + other) && line == UserLine(id, card, info)
    ensures PanelEffect(line) == AddCard(card) && MirrorEffect(line) == MirrorOf(other, Contains(line, "DELETE"))
  {
    UserLineEffects(id, card, info);
    NamedLast(card, info, text, space, other);
  }

  lemma NamedLast(card: string, info: UserInfo, text: string, space: char, other: string)
    requires IsSpace(space) && Spaceless(other) && info.name == text + [space] + (CARD_KEY + other)
    ensures LastOr(FreeWords(card, info), card) == other
  {
    var word := CARD_KEY + other;
    var start, end := Words("StartTime=" + info.validFrom), Words("EndTime=" + info.validUntil);
    Associate("Name=", text + [space], word);
    Associate("Name=", text, [space]);
    WordsAtSpace("Name=" + text, space, word);
    OneWord(word);
    Associate(end, Words("Name=" + text), [word]);
    Associate(start, end + Words("Name=" + text), [word]);
    LastIsNamed(start + (end + Words("Name=" + text)), other, card);
  }

  lemma LastIsNamed(before: seq<string>, other: string, card: string)
    ensures LastOr(before + [CARD_KEY + other], card) == other
  {
    var ws := before + [CARD_KEY + other];
    assert IsCardWord(ws[|ws| - 1]) && (CARD_KEY + other)[|CARD_KEY|..] == other;
  }

  /** The name "A CardNo=9". */
  const TWO_CARDS := UserInfo("", "0", "0", "A" + [' '] + (CARD_KEY + "9"))

  lemma TwoCardsPlain()
    ensures PlainCard("77", TWO_CARDS) && LacksL("77", TWO_CARDS) && Spaceless("9")
  {
  }

  lemma SecondCardIsMisread(id: nat, line: string)
    requires line == UserLine(id, "77", TWO_CARDS)
    ensures !Contains(line, "DELETE") && PanelEffect(line) == AddCard("77") && MirrorEffect(line) == AddCard("9")
  {
    TwoCardsPlain();
    NamedCardIsMirrored(id, "77", TWO_CARDS, "A", ' ', "9", line);
    PlainUserLine(id, "77", TWO_CARDS);
  }

  lemma PinInLine(id: nat, card: string, info: UserInfo)
    ensures Contains(UserLine(id, card, info), Pin(card, info))
  {
    var pin := "Pin=" + Pin(card, info);
    var rest := CARD_KEY + card + ['\t'] + Join(TailFields(card, info), '\t');
    TwoFieldsFirst(pin, CARD_KEY + card, TailFields(card, info));
    PinAt(id, Pin(card, info), rest);
    assert UserFields(card, info) == pin + ['\t'] + rest;
  }

  lemma PinAt(id: nat, pin: string, rest: string)
    ensures Contains(Line(id, UPDATE_USER + " " + ("Pin=" + pin + ['\t'] + rest)), pin)
  {
    assert OccursAt(Line(id, UPDATE_USER + " " + ("Pin=" + pin + ['\t'] + rest)), pin,
                    3 + |Dec(id)| + |UPDATE_USER| + 1 + 4);
  }

  lemma DeleteLineUnderstood(id: nat, card: string, line: string, echo: bool)
    requires id > 0 && card != "" && Spaceless(card) && FieldSafe(card) && line == DeleteLine(id, card)
    ensures Answered(id, line, Mock(echo)) && Mock(echo).effect(line) == RemoveCard(card)
    ensures MirrorEffect(line) == Mock(echo).effect(line)
  {
    DeleteLineEffects(id, card);
    UserCommandsNamed(card);
    CommandsFieldSafe();
    ReadLineAnswered(line, id, DELETE_USER, card, RemoveCard(card), None, echo);
  }

  lemma ControlLineUnderstood(id: nat, door: nat, duration: int, line: string, echo: bool)
    requires id > 0 && door < 256 && line == ControlLine(id, door, duration)
    ensures Answered(id, line, Mock(echo)) && Mock(echo).effect(line) == Nothing
    ensures MirrorEffect(line) == Mock(echo).effect(line)
  {
    ControlLineEffects(id, door, duration);
    CommandsFieldSafe();
    ReadLineAnswered(line, id, CONTROL_DEVICE, "", Nothing, Some(Clamp(duration, 1, 254)), echo);
  }

  // ---- the panel's poll loop ----

  /** The card table after executing lines in turn; a line the panel fails on ends the reply. */
  function ExecuteLines(users: set<string>, lines: seq<string>): set<string>
    decreases lines
  {
    if lines == [] || PanelRead(lines[0]).Failed? then users
    else ExecuteLines(ApplyEffect(users, PanelEffect(lines[0])), lines[1..])
  }

  function AckOf(line: string): seq<string> {
    match PanelRead(line)
    case Acted(id, command, card, _, _) => [AckBody(id, command, card)]
    case _ => []
  }

  /** The acknowledgements posted while executing lines in turn. */
  function AcksOf(lines: seq<string>): seq<string> {
    if lines == [] || PanelRead(lines[0]).Failed? then [] else AckOf(lines[0]) + AcksOf(lines[1..])
  }

  /** How long the door is opened for while executing lines in turn. */
  function OpeningsOf(lines: seq<string>): seq<nat> {
    if lines == [] || PanelRead(lines[0]).Failed? then [] else OpeningOf(lines[0]) + OpeningsOf(lines[1..])
  }

  function OpeningOf(line: string): seq<nat> {
    match PanelRead(line)
    case Acted(_, _, _, _, Some(seconds)) => [seconds]
    case _ => []
  }

  class C3PushDeviceMock {
    var users: set<string>
    var doorOpenEvents: seq<nat>

    constructor ()
      ensures users == {} && doorOpenEvents == []
    {
      users, doorOpenEvents := {}, [];
    }

    /** Executes one line; the result is the acknowledgement it posts, if any. */
    method Execute(line: string) returns (ack: Option<string>)
      modifies this
      ensures users == ApplyEffect(old(users), PanelEffect(line))
      ensures match PanelRead(line)
              case Acted(id, command, card, _, seconds) =>
                && ack == Some(AckBody(id, command, card))
                && doorOpenEvents == old(doorOpenEvents) + (if seconds.Some? then [seconds.value] else [])
              case _ => ack == None && doorOpenEvents == old(doorOpenEvents)
      ensures AckOf(line) == if ack.Some? then [ack.value] else []
      ensures doorOpenEvents == old(doorOpenEvents) + OpeningOf(line)
    {
      match PanelRead(line) {
        case Acted(id, command, card, effect, seconds) =>
          if seconds.Some? {
            doorOpenEvents := doorOpenEvents + [seconds.value];
          }
          match effect {
            case Nothing =>
            case AddCard(c) => users := users + {c};
            case RemoveCard(c) => users := users - {c};
          }
          ack := Some(AckBody(id, command, card));
        case _ =>
          ack := None;
      }
    }

    /** Executes the lines of one poll reply, posting an acknowledgement for each line acted on. */
    method HandleReply(reply: string) returns (acks: seq<string>)
      modifies this
      ensures users == ExecuteLines(old(users), PanelLines(reply))
      ensures acks == AcksOf(PanelLines(reply))
      ensures doorOpenEvents == old(doorOpenEvents) + OpeningsOf(PanelLines(reply))
    {
      acks := [];
      var lines := PanelLines(reply);
      var i := 0;
      while i < |lines|
        invariant i <= |lines|
        invariant ExecuteLines(users, lines[i..]) == ExecuteLines(old(users), lines)
        invariant acks + AcksOf(lines[i..]) == AcksOf(lines)
        invariant doorOpenEvents + OpeningsOf(lines[i..]) == old(doorOpenEvents) + OpeningsOf(lines)
      {
        assert lines[i..][0] == lines[i] && lines[i..][1..] == lines[i + 1..];
        if PanelRead(lines[i]).Failed? {
          return;
        }
        Associate(doorOpenEvents, OpeningOf(lines[i]), OpeningsOf(lines[i + 1..]));
        var ack := Execute(lines[i]);
        Associate(acks, AckOf(lines[i]), AcksOf(lines[i + 1..]));
        acks := acks + if ack.Some? then [ack.value] else [];
        i := i + 1;
      }
    }
  }

  /** From the server's reply text to the panel's table: every line handed out is executed, in the
      order handed out. */
  lemma {:induction false} ReplyExecuted(users: set<string>, lines: seq<string>)
    requires forall i :: 0 <= i < |lines| ==> Sendable(lines[i]) && !PanelRead(lines[i]).Failed?
    ensures ExecuteLines(users, PanelLines(PollReply(lines))) == Fold(users, LineEffects(lines))
  {
    PollReplyRoundTrip(lines);
    ExecuteIsFold(users, lines);
  }

  function LineEffects(lines: seq<string>): seq<Effect> {
    if lines == [] then [] else LineEffects(lines[..|lines| - 1]) + [PanelEffect(lines[|lines| - 1])]
  }

  lemma {:induction false} ExecuteAppend(users: set<string>, a: seq<string>, line: string)
    requires forall i :: 0 <= i < |a| ==> !PanelRead(a[i]).Failed?
    ensures ExecuteLines(users, a + [line]) == ApplyEffect(ExecuteLines(users, a), PanelEffect(line))
    decreases a
  {
    if a == [] {
      assert (a + [line])[1..] == [];
    } else {
      assert (a + [line])[1..] == a[1..] + [line];
      ExecuteAppend(ApplyEffect(users, PanelEffect(a[0])), a[1..], line);
    }
  }

  lemma {:induction false} ExecuteIsFold(users: set<string>, lines: seq<string>)
    requires forall i :: 0 <= i < |lines| ==> !PanelRead(lines[i]).Failed?
    ensures ExecuteLines(users, lines) == Fold(users, LineEffects(lines))
  {
    if lines != [] {
      var n := |lines| - 1;
      ExecuteIsFold(users, lines[..n]);
      ExecuteAppend(users, lines[..n], lines[n]);
      assert lines[..n] + [lines[n]] == lines;
      var effects := LineEffects(lines);
      assert effects == LineEffects(lines[..n]) + [PanelEffect(lines[n])];
      assert effects[..|effects| - 1] == LineEffects(lines[..n]);
    }
  }

  // ---- what a reply is answered with ----

  /** A line the panel fails on ends the reply: nothing behind it is executed or answered. */
  lemma {:induction false} FailureEndsReply(users: set<string>, a: seq<string>, bad: string, b: seq<string>)
    requires PanelRead(bad).Failed?
    ensures var lines := a + ([bad] + b);
            && ExecuteLines(users, lines) == ExecuteLines(users, a)
            && AcksOf(lines) == AcksOf(a) && OpeningsOf(lines) == OpeningsOf(a)
    decreases a
  {
    var lines := a + ([bad] + b);
    if a == [] {
      assert lines[0] == bad;
    } else {
      assert lines[0] == a[0] && lines[1..] == a[1..] + ([bad] + b);
      FailureEndsReply(ApplyEffect(users, PanelEffect(a[0])), a[1..], bad, b);
    }
  }

  /** The panel acts on every line, opening the door where `seconds` says so. */
  predicate AllActed(lines: seq<string>) {
    forall i :: 0 <= i < |lines| ==> PanelRead(lines[i]).Acted?
  }

  /** Every line acted on is answered, in the order of the lines, under its id and with its command and
      card. */
  lemma {:induction false} AnsweredInOrder(lines: seq<string>)
    requires AllActed(lines)
    ensures |AcksOf(lines)| == |lines|
    ensures forall i :: 0 <= i < |lines| ==>
              var act := PanelRead(lines[i]);
              AcksOf(lines)[i] == "ID=" + act.id + "&Return=0&CMD=" + act.command + "&CardNo=" + act.card
  {
    if lines != [] {
      AnsweredInOrder(lines[1..]);
      assert AcksOf(lines) == AckOf(lines[0]) + AcksOf(lines[1..]);
      assert forall i :: 1 <= i < |lines| ==> lines[i] == lines[1..][i - 1];
    }
  }

  /** The openings of a reply, one behind the other. */
  lemma {:induction false} OpeningsInOrder(a: seq<string>, b: seq<string>)
    requires forall i :: 0 <= i < |a| ==> !PanelRead(a[i]).Failed?
    ensures OpeningsOf(a + b) == OpeningsOf(a) + OpeningsOf(b)
    decreases a
  {
    if a == [] {
      assert a + b == b;
    } else {
      assert (a + b)[0] == a[0] && (a + b)[1..] == a[1..] + b;
      OpeningsInOrder(a[1..], b);
    }
  }

  /** A door opening in a reply opens the door once, for its clamped time. */
  lemma OpeningInReply(id: nat, door: nat, duration: int)
    requires door < 256
    ensures OpeningsOf([ControlLine(id, door, duration)]) == [Clamp(duration, 1, 254)]
  {
    ControlLineEffects(id, door, duration);
    assert [ControlLine(id, door, duration)][1..] == [];
  }
}
