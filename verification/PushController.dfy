/** The controller in front of the push server: requests become numbered command lines. */
module PushController {
  import opened Basics
  import opened PyText
  import opened Wire
  import opened CommandQueue
  import opened PanelLink
  import opened LossyLink
  import opened PushServer

  datatype Request = PutCard(card: string, info: UserInfo) | DropCard(card: string) | OpenDoor(door: nat, seconds: int)

  const NO_WINDOW := UserInfo("", "0", "0", "")

  function RequestLine(id: nat, r: Request): string {
    match r
    case PutCard(card, info) => UserLine(id, card, info)
    case DropCard(card) => DeleteLine(id, card)
    case OpenDoor(door, seconds) => ControlLine(id, door, seconds)
  }

  /** What a request asks of the card table. */
  function RequestOp(r: Request): Effect {
    match r
    case PutCard(card, _) => AddCard(card)
    case DropCard(card) => RemoveCard(card)
    case OpenDoor(_, _) => Nothing
  }

  function Puts(cards: seq<string>): seq<Request> {
    if cards == [] then [] else Puts(cards[..|cards| - 1]) + [PutCard(cards[|cards| - 1], NO_WINDOW)]
  }

  /** Queueing one request under a given id. */
  function SendOne(now: Time): (Device, nat, Request) -> Device {
    (d: Device, id: nat, r: Request) => Enqueue(d, id, RequestLine(id, r), None, now)
  }

  function SendInTurn(d: Device, first: nat, rs: seq<Request>, send: (Device, nat, Request) -> Device): Device {
    if rs == [] then d
    else
      var n := |rs| - 1;
      send(SendInTurn(d, first, rs[..n], send), first + n, rs[n])
  }

  /** The device after requests are queued in turn under consecutive ids. */
  function SendAll(d: Device, first: nat, rs: seq<Request>, now: Time): Device {
    SendInTurn(d, first, rs, SendOne(now))
  }

  lemma SendOneMore(d: Device, first: nat, rs: seq<Request>, r: Request, now: Time)
    ensures SendAll(d, first, rs + [r], now) ==
            Enqueue(SendAll(d, first, rs, now), first + |rs|, RequestLine(first + |rs|, r), None, now)
  {
    assert (rs + [r])[..|rs|] == rs;
  }

  lemma SendTwice(d: Device, first: nat, a: seq<Request>, b: seq<Request>, now: Time)
    ensures SendAll(d, first, a + b, now) == SendAll(SendAll(d, first, a, now), first + |a|, b, now)
  {
    SendInTurnTwice(d, first, a, b, SendOne(now));
  }

  lemma {:induction false} SendInTurnTwice(d: Device, first: nat, a: seq<Request>, b: seq<Request>,
                                           send: (Device, nat, Request) -> Device)
    ensures SendInTurn(d, first, a + b, send) == SendInTurn(SendInTurn(d, first, a, send), first + |a|, b, send)
  {
    if b == [] {
      assert a + b == a;
    } else {
      assert (a + b)[..|a + b| - 1] == a + b[..|b| - 1];
      SendInTurnTwice(d, first, a, b[..|b| - 1], send);
    }
  }

  lemma PutsOneMore(cards: seq<string>, i: nat)
    requires i < |cards|
    ensures Puts(cards[..i + 1]) == Puts(cards[..i]) + [PutCard(cards[i], NO_WINDOW)]
  {
    assert cards[..i + 1][..i] == cards[..i];
  }

  lemma {:induction false} PutsLength(cards: seq<string>)
    ensures |Puts(cards)| == |cards|
  {
    if cards != [] { PutsLength(cards[..|cards| - 1]); }
  }

  class C3PushController {
    const server: C3PushServer
    const doorNumber: nat
    const openDuration: int
    const syncChunk: nat
    var started: bool

    constructor (door: nat, duration: int, chunk: int)
      ensures fresh(server) && server.Valid() && server.State() == EMPTY_DEVICE && server.nextId == 1
      ensures !started && doorNumber == door && openDuration == duration && syncChunk == Max(1, chunk)
    {
      server := new C3PushServer();
      doorNumber, openDuration, syncChunk := door, duration, Max(1, chunk);
      started := false;
    }

    /** Mints an id, formats the line with it and queues the line. */
    method Send(r: Request, now: Time)
      modifies server
      ensures server.State() == SendAll(old(server.State()), old(server.nextId), [r], now)
      ensures server.nextId == old(server.nextId) + 1
      ensures server.getreqBatch == old(server.getreqBatch) && server.inFlight == old(server.inFlight)
    {
      SendSingle(server.State(), server.nextId, r, now);
      var id := server.NextCmdId();
      server.EnqueueCommand(id, RequestLine(id, r), None, now);
    }

    /** Queues one update per card, chunk by chunk. */
    method SyncCards(cards: seq<string>, now: Time) returns (n: nat)
      requires syncChunk >= 1
      modifies server
      ensures !started ==> n == 0 && server.State() == old(server.State()) && server.nextId == old(server.nextId)
      ensures started ==>
                && n == |cards|
                && server.State() == SendAll(old(server.State()), old(server.nextId), Puts(cards), now)
                && server.nextId == old(server.nextId) + |cards|
      ensures server.getreqBatch == old(server.getreqBatch) && server.inFlight == old(server.inFlight)
    {
      if !started {
        return 0;
      }
      var i := 0;
      while i < |cards|
        invariant i <= |cards|
        invariant server.State() == SendAll(old(server.State()), old(server.nextId), Puts(cards[..i]), now)
        invariant server.nextId == old(server.nextId) + i
        invariant server.getreqBatch == old(server.getreqBatch) && server.inFlight == old(server.inFlight)
      {
        var end := Min(i + syncChunk, |cards|);
        var start := i;
        while i < end
          invariant start <= i <= end
          invariant server.State() == SendAll(old(server.State()), old(server.nextId), Puts(cards[..i]), now)
          invariant server.nextId == old(server.nextId) + i
          invariant server.getreqBatch == old(server.getreqBatch) && server.inFlight == old(server.inFlight)
        {
          PutsOneMore(cards, i);
          PutsLength(cards[..i]);
          SendTwice(old(server.State()), old(server.nextId), Puts(cards[..i]), [PutCard(cards[i], NO_WINDOW)], now);
          Send(PutCard(cards[i], NO_WINDOW), now);
          i := i + 1;
        }
      }
      assert cards[..|cards|] == cards;
      n := |cards|;
    }

    method SendIfStarted(r: Request, now: Time) returns (ok: bool)
      modifies server
      ensures ok == started
      ensures ok ==> server.State() == SendAll(old(server.State()), old(server.nextId), [r], now)
      ensures ok ==> server.nextId == old(server.nextId) + 1
      ensures !ok ==> server.State() == old(server.State()) && server.nextId == old(server.nextId)
      ensures server.getreqBatch == old(server.getreqBatch) && server.inFlight == old(server.inFlight)
    {
      if started {
        Send(r, now);
      }
      ok := started;
    }

    method AddCard(card: string, validFrom: string, validUntil: string, name: string, now: Time) returns (ok: bool)
      modifies server
      ensures ok == started
      ensures ok ==>
                var r := PutCard(card, UserInfo("", validFrom, validUntil, name));
                && server.nextId == old(server.nextId) + 1
                && server.State() == SendAll(old(server.State()), old(server.nextId), [r], now)
      ensures !ok ==> server.State() == old(server.State()) && server.nextId == old(server.nextId)
      ensures server.getreqBatch == old(server.getreqBatch) && server.inFlight == old(server.inFlight)
    {
      ok := SendIfStarted(PutCard(card, UserInfo("", validFrom, validUntil, name)), now);
    }

    /** Blocking a card is removing it from the panel's table. */
    method BlockCard(card: string, now: Time) returns (ok: bool)
      modifies server
      ensures ok == started
      ensures ok ==> server.nextId == old(server.nextId) + 1 &&
                     server.State() == SendAll(old(server.State()), old(server.nextId), [DropCard(card)], now)
      ensures !ok ==> server.State() == old(server.State()) && server.nextId == old(server.nextId)
      ensures server.getreqBatch == old(server.getreqBatch) && server.inFlight == old(server.inFlight)
    {
      ok := SendIfStarted(DropCard(card), now);
    }

    method OpenDoor(now: Time) returns (ok: bool)
      modifies server
      ensures ok == started
      ensures ok ==>
                var r := Request.OpenDoor(doorNumber, Clamp(openDuration, 1, 254));
                && server.nextId == old(server.nextId) + 1
                && server.State() == SendAll(old(server.State()), old(server.nextId), [r], now)
      ensures !ok ==> server.State() == old(server.State()) && server.nextId == old(server.nextId)
    {
      var seconds := Max(1, Min(254, openDuration));
      ok := SendIfStarted(Request.OpenDoor(doorNumber, seconds), now);
    }
  }

  lemma SendSingle(d: Device, id: nat, r: Request, now: Time)
    ensures SendAll(d, id, [r], now) == Enqueue(d, id, RequestLine(id, r), None, now)
  {
    SendOneMore(d, id, [], r, now);
    assert [] + [r] == [r];
  }

  /** An opening request is queued at control priority, leaves the card mirror alone, and the panel
      reads it as opening for a duration between 1 and 254 seconds. */
  lemma OpenDoorMeans(d: Device, id: nat, door: nat, seconds: int, now: Time, line: string)
    requires door < 256 && line == RequestLine(id, Request.OpenDoor(door, seconds))
    ensures SendAll(d, id, [Request.OpenDoor(door, seconds)], now) ==
            d.(queue := d.queue + [Command(id, line, now, 0, PRIO_CONTROL, None)])
    ensures PanelRead(line) == Acted(Dec(id), CONTROL_DEVICE, "", Nothing, Some(Clamp(seconds, 1, 254)))
  {
    ControlLineEffects(id, door, seconds);
    SendSingle(d, id, Request.OpenDoor(door, seconds), now);
  }

  // ---- requests on the link ----

  /** Queueing requests at one time, as moves of the link. */
  function PostsOf(first: nat, rs: seq<Request>, now: Time): seq<Move> {
    if rs == [] then []
    else
      var n := |rs| - 1;
      PostsOf(first, rs[..n], now) + [Move(now, Post(first + n, RequestLine(first + n, rs[n]), None))]
  }

  /** What the controller does to the server is what posting does on the link, where polls and
      acknowledgements may come in between. */
  lemma {:induction false} SendingIsPosting(w: World, first: nat, rs: seq<Request>, now: Time, k: PanelKind)
    ensures Play(w, PostsOf(first, rs, now), k) == w.(dev := SendAll(w.dev, first, rs, now))
  {
    if rs != [] {
      var n := |rs| - 1;
      SendingIsPosting(w, first, rs[..n], now, k);
      PlayOneMore(w, PostsOf(first, rs[..n], now), Move(now, Post(first + n, RequestLine(first + n, rs[n]), None)), k);
    }
  }

  lemma PlayOneMore(w: World, ms: seq<Move>, m: Move, k: PanelKind)
    requires m.act.Post?
    ensures Play(w, ms + [m], k) == PostTo(Play(w, ms, k), m.act.id, m.act.line, m.act.priority, m.at)
  {
    assert (ms + [m])[..|ms|] == ms;
  }

  function LinesFrom(first: nat, rs: seq<Request>): seq<(int, string)> {
    if rs == [] then []
    else
      var n := |rs| - 1;
      LinesFrom(first, rs[..n]) + [(first + n, RequestLine(first + n, rs[n]))]
  }

  /** The lines posted for requests, under consecutive ids. */
  lemma {:induction false} PostsAreRequests(first: nat, rs: seq<Request>, now: Time)
    ensures PostedAs(PostsOf(first, rs, now)) == LinesFrom(first, rs)
  {
    if rs != [] {
      var n := |rs| - 1;
      PostsAreRequests(first, rs[..n], now);
    }
  }
}
