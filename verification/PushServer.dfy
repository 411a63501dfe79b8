/** The push server, updating its state in place; every method is tied to the step functions of
    CommandQueue. */
module PushServer {
  import opened Basics
  import opened PyText
  import opened Wire
  import opened CommandQueue

  function LinesOf(cs: seq<Command>): seq<string> {
    if cs == [] then [] else [cs[0].line] + LinesOf(cs[1..])
  }

  class C3PushServer {
    var cmdQueue: seq<Command>
    var inFlight: seq<Command>
    var acked: map<int, string>
    var users: set<string>
    var nextId: nat
    var getreqBatch: int

    /** `inFlight` is a dictionary: no key twice. */
    ghost predicate Valid()
      reads this
    {
      Distinct(inFlight)
    }

    ghost function State(): Device
      reads this
    {
      Device(cmdQueue, inFlight, acked, users)
    }

    constructor ()
      ensures Valid() && State() == EMPTY_DEVICE && nextId == 1 && getreqBatch == 1
    {
      cmdQueue, inFlight, acked, users := [], [], map[], {};
      nextId, getreqBatch := 1, 1;
    }

    method NextCmdId() returns (id: nat)
      modifies this`nextId
      ensures id == old(nextId) && nextId == id + 1
    {
      id := nextId;
      nextId := nextId + 1;
    }

    method EnqueueCommand(id: int, command: string, priority: Option<int>, now: Time)
      modifies this`cmdQueue, this`users
      ensures State() == Enqueue(old(State()), id, command, priority, now)
    {
      var prio := PRIO_DATA;
      if priority.Some? {
        prio := priority.value;
      } else if Contains(command, CONTROL_DEVICE) {
        prio := PRIO_CONTROL;
      }
      cmdQueue := cmdQueue + [Command(id, command, now, 0, prio, None)];
      if Contains(command, UPDATE_USER) || Contains(command, DELETE_USER) {
        var card := "";
        var tokens := Words(command);
        for i := 0 to |tokens|
          invariant card == LastCard(tokens[..i])
        {
          assert tokens[..i + 1][..i] == tokens[..i];
          if CARD_KEY <= tokens[i] {
            card := tokens[i][|CARD_KEY|..];
          }
        }
        assert tokens[..|tokens|] == tokens;
        if card != "" {
          if Contains(command, "DELETE") {
            users := users - {card};
          } else {
            users := users + {card};
          }
        }
      }
    }

    /** One round of the reaper: leave the command waiting, retry it or give it up. */
    method ReapCommand(c: Command, now: Time)
      modifies this`cmdQueue, this`inFlight, this`acked
      ensures State() == ReapOne(old(State()), c, now)
    {
      if Waiting(c, now) {
        return;
      }
      inFlight := Without(inFlight, c.id);
      if Exhausted(c, now) {
        if c.id !in acked {
          acked := acked[c.id := TIMED_OUT];
        }
      } else {
        cmdQueue := cmdQueue + [c.(tries := c.tries + 1)];
      }
    }

    method ReapInFlight(now: Time)
      requires Valid()
      modifies this`cmdQueue, this`inFlight, this`acked
      ensures Valid() && State() == Reap(old(State()), now)
    {
      var snapshot := inFlight;
      PartReapedEnds(State(), now);
      for i := 0 to |snapshot|
        invariant State() == PartReaped(old(State()), i, now)
      {
        ReapRound(old(State()), i, now);
        ReapCommand(snapshot[i], now);
      }
      ReapIds(snapshot, now);
    }

    method HandleGetRequest(now: Time) returns (reply: string)
      requires Valid()
      modifies this`cmdQueue, this`inFlight, this`acked
      ensures Valid() && State() == Poll(old(State()), getreqBatch, now)
      ensures reply == PollReply(LinesOf(Handed(old(State()), getreqBatch, now)))
    {
      ReapInFlight(now);
      ghost var r := Reap(old(State()), now);
      ghost var sorted := Sort(r.queue);
      if cmdQueue == [] {
        return "OK\r\n";
      }
      SortKeepsSome(cmdQueue);
      cmdQueue := Sort(cmdQueue);
      var n := Min(Max(1, getreqBatch), |cmdQueue|);
      var lines := [];
      for k := 0 to n
        invariant k <= |sorted| && cmdQueue == sorted[k..]
        invariant inFlight == PutAll(r.inFlight, Stamp(sorted[..k], now))
        invariant Distinct(inFlight)
        invariant lines == LinesOf(Stamp(sorted[..k], now)) && |lines| == k
        invariant acked == r.acked && users == r.users && r.queue != []
      {
        var c := cmdQueue[0].(sent := Some(now));
        cmdQueue := cmdQueue[1..];
        PutIds(inFlight, c);
        HandOneMore(r.inFlight, sorted, k, now);
        inFlight := Put(inFlight, c);
        lines := lines + [c.line];
      }
      reply := PollReply(lines);
    }

    method HandleDeviceCmd(body: string)
      requires Valid()
      modifies this`inFlight, this`acked, this`users
      ensures Valid()
      ensures var r := ParseAck(body); State() == Ack(old(State()), r.id, r.code, AckEffect(r))
    {
      var r := ParseAck(body);
      if r.id != 0 {
        WithoutIds(inFlight, r.id);
        inFlight := Without(inFlight, r.id);
        acked := acked[r.id := r.code];
        if r.card != "" {
          if Contains(r.command, "DELETE") {
            users := users - {r.card};
          } else if Contains(r.command, "UPDATE") {
            users := users + {r.card};
          }
        }
      }
    }

    /** On a server whose state a run has led to: has the device reported the command, or has a poll
        given up on it? */
    method CommandAcked(id: int) returns (yes: bool)
      ensures yes <==> id in State().acked
      ensures forall es :: State() == Run(EMPTY_DEVICE, es) ==>
                (yes <==> LastReport(es, id).Some? || exists i :: 0 <= i < |es| && GivenUpAt(es, i, id))
    {
      yes := id in acked;
      forall es | State() == Run(EMPTY_DEVICE, es)
        ensures yes <==> LastReport(es, id).Some? || exists i :: 0 <= i < |es| && GivenUpAt(es, i, id)
      {
        AckedExactly(es, id);
      }
    }

    method QueueDepth() returns (n: nat)
      ensures n == |State().queue| + |State().inFlight|
      ensures n == 0 <==> State().queue == [] && State().inFlight == []
    {
      n := |cmdQueue| + |inFlight|;
    }
  }

  // ---- one more round of each loop ----

  lemma SortKeepsSome(q: seq<Command>)
    requires q != []
    ensures Sort(q) != []
  {
    SortIds(q);
    assert q[0] in multiset(Sort(q));
  }

  lemma {:induction false} ReapSplit(a: seq<Command>, b: seq<Command>, acked: map<int, string>, now: Time)
    ensures Kept(a + b, now) == Kept(a, now) + Kept(b, now)
    ensures Retried(a + b, now) == Retried(a, now) + Retried(b, now)
    ensures GivenUp(acked, a + b, now) == GivenUp(GivenUp(acked, a, now), b, now)
    decreases a
  {
    KeptSplit(a, b, now);
    RetriedSplit(a, b, now);
    GivenUpSplit(a, b, acked, now);
  }

  lemma {:induction false} KeptSplit(a: seq<Command>, b: seq<Command>, now: Time)
    ensures Kept(a + b, now) == Kept(a, now) + Kept(b, now)
  {
    if a == [] {
      assert a + b == b;
    } else {
      assert (a + b)[0] == a[0] && (a + b)[1..] == a[1..] + b;
      KeptSplit(a[1..], b, now);
    }
  }

  lemma {:induction false} RetriedSplit(a: seq<Command>, b: seq<Command>, now: Time)
    ensures Retried(a + b, now) == Retried(a, now) + Retried(b, now)
  {
    if a == [] {
      assert a + b == b;
    } else {
      assert (a + b)[0] == a[0] && (a + b)[1..] == a[1..] + b;
      RetriedSplit(a[1..], b, now);
    }
  }

  lemma {:induction false} GivenUpSplit(a: seq<Command>, b: seq<Command>, acked: map<int, string>, now: Time)
    ensures GivenUp(acked, a + b, now) == GivenUp(GivenUp(acked, a, now), b, now)
    decreases a
  {
    if a == [] {
      assert a + b == b;
    } else {
      var c := a[0];
      var next := if !Waiting(c, now) && Exhausted(c, now) && c.id !in acked then acked[c.id := TIMED_OUT] else acked;
      assert (a + b)[0] == c && (a + b)[1..] == a[1..] + b;
      GivenUpSplit(a[1..], b, next, now);
    }
  }

  lemma {:induction false} WithoutMiddle(a: seq<Command>, c: Command, b: seq<Command>)
    requires c.id !in IdSet(a)
    ensures Without(a + ([c] + b), c.id) == a + b
  {
    var s := a + ([c] + b);
    if a == [] {
      assert s[0] == c && s[1..] == b;
    } else {
      assert s[1..] == a[1..] + ([c] + b);
      WithoutMiddle(a[1..], c, b);
    }
  }

  /** The device after the first `i` in-flight commands have been looked at. */
  function PartReaped(d: Device, i: nat, now: Time): Device
    requires i <= |d.inFlight|
  {
    var seen := d.inFlight[..i];
    Device(d.queue + Retried(seen, now), Kept(seen, now) + d.inFlight[i..], GivenUp(d.acked, seen, now), d.users)
  }

  /** Looking at one in-flight command. */
  function ReapOne(d: Device, c: Command, now: Time): Device {
    if Waiting(c, now) then d
    else
      var rest := Without(d.inFlight, c.id);
      if !Exhausted(c, now) then d.(inFlight := rest, queue := d.queue + [c.(tries := c.tries + 1)])
      else d.(inFlight := rest, acked := if c.id in d.acked then d.acked else d.acked[c.id := TIMED_OUT])
  }

  lemma PartReapedEnds(d: Device, now: Time)
    ensures PartReaped(d, 0, now) == d && PartReaped(d, |d.inFlight|, now) == Reap(d, now)
  {
    assert d.inFlight[..|d.inFlight|] == d.inFlight;
  }

  lemma ReapRemoves(fs: seq<Command>, i: nat, now: Time)
    requires i < |fs| && Distinct(fs)
    ensures var a := Kept(fs[..i], now);
            && fs[i..] == [fs[i]] + fs[i + 1..]
            && Without(a + fs[i..], fs[i].id) == a + fs[i + 1..]
  {
    var a := fs[..i];
    assert fs[i..] == [fs[i]] + fs[i + 1..];
    assert fs == a + fs[i..];
    IdSetAppend(a, fs[i..]);
    ReapIds(a, now);
    WithoutMiddle(Kept(a, now), fs[i], fs[i + 1..]);
  }

  lemma ReapRound(d: Device, i: nat, now: Time)
    requires i < |d.inFlight| && Distinct(d.inFlight)
    ensures PartReaped(d, i + 1, now) == ReapOne(PartReaped(d, i, now), d.inFlight[i], now)
  {
    ReapOneMore(d, i, now);
    ReapRemoves(d.inFlight, i, now);
    ReapSingle(d.inFlight[i], GivenUp(d.acked, d.inFlight[..i], now), now);
    NothingAdded(PartReaped(d, i, now).queue, d.inFlight[i + 1..]);
  }

  lemma NothingAdded(a: seq<Command>, b: seq<Command>)
    ensures a + [] == a && [] + b == b
  {
  }

  /** The tables after one more command, in terms of that command alone. */
  lemma ReapOneMore(d: Device, i: nat, now: Time)
    requires i < |d.inFlight|
    ensures var part := PartReaped(d, i, now);
            var more := PartReaped(d, i + 1, now);
            var c := d.inFlight[i];
            && more.queue == part.queue + Retried([c], now)
            && more.inFlight == Kept(d.inFlight[..i], now) + (Kept([c], now) + d.inFlight[i + 1..])
            && more.acked == GivenUp(part.acked, [c], now)
  {
    var fs := d.inFlight;
    assert fs[..i + 1] == fs[..i] + [fs[i]];
    ReapSplit(fs[..i], [fs[i]], d.acked, now);
    Associate(d.queue, Retried(fs[..i], now), Retried([fs[i]], now));
    Associate(Kept(fs[..i], now), Kept([fs[i]], now), fs[i + 1..]);
  }

  lemma ReapSingle(c: Command, acked: map<int, string>, now: Time)
    ensures Kept([c], now) == if Waiting(c, now) then [c] else []
    ensures Retried([c], now) == if !Waiting(c, now) && !Exhausted(c, now) then [c.(tries := c.tries + 1)] else []
    ensures GivenUp(acked, [c], now) ==
            if !Waiting(c, now) && Exhausted(c, now) && c.id !in acked then acked[c.id := TIMED_OUT] else acked
  {
    assert [c][1..] == [];
    assert Kept([c][1..], now) == [] && Retried([c][1..], now) == [];
  }

  lemma {:induction false} PutIds(fs: seq<Command>, c: Command)
    requires Distinct(fs)
    ensures Distinct(Put(fs, c)) && IdSet(Put(fs, c)) == IdSet(fs) + {c.id}
  {
    if fs == [] {
      assert [c][1..] == [];
    } else if fs[0].id != c.id {
      PutIds(fs[1..], c);
      var rest := Put(fs[1..], c);
      assert ([fs[0]] + rest)[1..] == rest;
    } else {
      assert ([c] + fs[1..])[1..] == fs[1..];
    }
  }

  lemma {:induction false} PutAllLast(fs: seq<Command>, cs: seq<Command>, c: Command)
    ensures PutAll(fs, cs + [c]) == Put(PutAll(fs, cs), c)
    decreases cs
  {
    if cs == [] {
      assert cs + [c] == [c] && [c][1..] == [];
    } else {
      assert (cs + [c])[1..] == cs[1..] + [c];
      PutAllLast(Put(fs, cs[0]), cs[1..], c);
    }
  }

  lemma {:induction false} LinesAppend(a: seq<Command>, c: Command)
    ensures LinesOf(a + [c]) == LinesOf(a) + [c.line]
  {
    if a == [] {
      assert a + [c] == [c] && [c][1..] == [];
    } else {
      assert (a + [c])[1..] == a[1..] + [c];
      LinesAppend(a[1..], c);
    }
  }

  lemma HandOneMore(fs: seq<Command>, sorted: seq<Command>, k: nat, now: Time)
    requires k < |sorted|
    ensures var c := sorted[k].(sent := Some(now));
            && Stamp(sorted[..k + 1], now) == Stamp(sorted[..k], now) + [c]
            && PutAll(fs, Stamp(sorted[..k + 1], now)) == Put(PutAll(fs, Stamp(sorted[..k], now)), c)
            && LinesOf(Stamp(sorted[..k + 1], now)) == LinesOf(Stamp(sorted[..k], now)) + [c.line]
  {
    var c := sorted[k].(sent := Some(now));
    StampIds(sorted[..k], now);
    StampIds(sorted[..k + 1], now);
    assert Stamp(sorted[..k + 1], now) == Stamp(sorted[..k], now) + [c];
    PutAllLast(fs, Stamp(sorted[..k], now), c);
    LinesAppend(Stamp(sorted[..k], now), c);
  }
}
