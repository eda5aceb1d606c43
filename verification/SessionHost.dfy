/**
 * The session host's own state: the translator, the request bridge, and the frames they write (apps/session-host/src/).
 */
module SessionHost {
  import opened Wrappers
  import opened Observations

  /**
   * Compares the pending injections with the steering queue: each that still finds a copy of its text takes that copy
   * and stays.
   */
  method DiffDeliveredAtTurnStart(pending: seq<Injection>, steering: seq<string>)
      returns (delivered: seq<InjectionId>, remaining: seq<Injection>)
    ensures delivered == Delivered(pending, steering) && remaining == Remaining(pending, steering)
  {
    var held := steering;
    delivered, remaining := [], [];
    NothingTaken(steering);
    hide HoldsLeft, StillQueued, Delivered, Remaining;
    for i := 0 to |pending|
      invariant delivered == Delivered(pending[..i], steering) && remaining == Remaining(pending[..i], steering)
      invariant HoldsLeft(held, pending[..i], steering)
    {
      var injection := pending[i];
      ghost var k: nat := i + 1;
      assert pending[..k][..i] == pending[..i];
      var index := IndexOf(held, injection.text);
      if index.None? {
        Goes(pending[..k], steering, held);
        delivered := delivered + [injection.id];
      } else {
        Splice(held, index.value);
        var rest := held[..index.value] + held[index.value + 1..];
        Takes(pending[..k], steering, held, rest);
        held := rest;
        remaining := remaining + [injection];
      }
    }
    assert pending[..|pending|] == pending;
  }

  lemma NothingTaken(steering: seq<string>)
    ensures Delivered([], steering) == [] && Remaining([], steering) == [] && HoldsLeft(steering, [], steering)
  {
  }

  ghost predicate HoldsLeft(held: seq<string>, pending: seq<Injection>, steering: seq<string>) {
    forall text :: multiset(held)[text] == Left(pending, steering, text)
  }

  /** The last injection finds no copy of its text left, and is delivered. */
  lemma Goes(pending: seq<Injection>, steering: seq<string>, held: seq<string>)
    requires pending != []
    requires var n := |pending| - 1; HoldsLeft(held, pending[..n], steering) && multiset(held)[pending[n].text] == 0
    ensures var n := |pending| - 1;
      && Remaining(pending, steering) == Remaining(pending[..n], steering)
      && Delivered(pending, steering) == Delivered(pending[..n], steering) + [pending[n].id]
      && HoldsLeft(held, pending, steering)
  {
    assert !StillQueued(pending, steering, |pending| - 1);
  }

  /** The last injection takes a copy of its text, and remains. */
  lemma Takes(pending: seq<Injection>, steering: seq<string>, held: seq<string>, rest: seq<string>)
    requires pending != []
    requires var n := |pending| - 1;
      HoldsLeft(held, pending[..n], steering) && multiset(held)[pending[n].text] > 0
          && multiset(rest) == multiset(held) - multiset{pending[n].text}
    ensures var n := |pending| - 1;
      && Remaining(pending, steering) == Remaining(pending[..n], steering) + [pending[n]]
      && Delivered(pending, steering) == Delivered(pending[..n], steering)
      && HoldsLeft(rest, pending, steering)
  {
    var n := |pending| - 1;
    assert StillQueued(pending, steering, n);
    forall text
      ensures multiset(rest)[text] == Left(pending, steering, text)
    {
      assert multiset(held)[text] == Left(pending[..n], steering, text);
    }
  }

  /** How many copies of a text the queue still has after the first injections have taken theirs. */
  ghost function Left(pending: seq<Injection>, steering: seq<string>, text: string): nat {
    var n, taken := multiset(steering)[text], CountText(pending, text);
    if taken < n then n - taken else 0
  }

  method IndexOf(held: seq<string>, text: string) returns (index: Option<nat>)
    ensures index.None? ==> multiset(held)[text] == 0
    ensures index.Some? ==> index.value < |held| && held[index.value] == text && multiset(held)[text] > 0
  {
    for i := 0 to |held|
      invariant forall k | 0 <= k < i :: held[k] != text
    {
      if held[i] == text {
        return Some(i);
      }
    }
    return None;
  }

  lemma Splice(held: seq<string>, index: nat)
    requires index < |held|
    ensures multiset(held[..index] + held[index + 1..]) == multiset(held) - multiset{held[index]}
  {
    assert held == held[..index] + [held[index]] + held[index + 1..];
  }

  class ObservationTranslator {
    var turn: nat
    var turnOpen: bool
    var pending: seq<Injection>

    ghost function State(): Translator
      reads this
    {
      Translator(turn, turnOpen, pending)
    }

    constructor ()
      ensures State() == IDLE
    {
      turn, turnOpen, pending := 0, false, [];
    }

    method TrackInjection(injection: Injection)
      modifies this
      ensures State() == Observations.Next(old(State()), Inject(injection.id, injection.text))
    {
      pending := pending + [injection];
    }

    method UntrackInjection(id: InjectionId)
      modifies this
      ensures State() == Observations.Next(old(State()), Reject(id))
    {
      var kept := [];
      for i := 0 to |pending|
        invariant kept == Without(pending[..i], {id}) && pending == old(pending) && turn == old(turn)
            && turnOpen == old(turnOpen)
      {
        ghost var k: nat := i + 1;
        assert pending[..k][..i] == pending[..i];
        if pending[i].id != id {
          kept := kept + [pending[i]];
        }
      }
      assert pending[..|pending|] == pending;
      pending := kept;
    }

    method Translate(event: Event, at: Time) returns (observations: seq<Observation>)
      modifies this
      ensures State() == After(old(State()), event)
      ensures observations == Observed(old(State()), event, at)
    {
      hide Delivered, Remaining, QueueOf, TurnUsageOf;
      match event
      case TurnStart(queuedSteering) =>
        turn, turnOpen := turn + 1, true;
        observations := [TurnStarted(turn, at)];
        var delivered, remaining := DiffDeliveredAtTurnStart(pending, QueueOf(queuedSteering));
        pending := remaining;
        for i := 0 to |delivered|
          invariant observations == [TurnStarted(turn, at)] + DeliveredAt(delivered[..i], at)
        {
          observations := observations + [InjectionDelivered(delivered[i], at)];
          assert delivered[..i + 1] == delivered[..i] + [delivered[i]];
        }
        assert delivered[..|delivered|] == delivered;
      case TurnEnd(usage, contextUsage) =>
        if !turnOpen {
          return [];
        }
        turnOpen := false;
        return [TurnEnded(turn, TurnUsageOf(usage, contextUsage), at)];
      case TextDelta(text) => return [OutputDelta(text, at)];
      case ThinkingDelta(text) => return [ReasoningDelta(text, at)];
      case ToolExecutionStart(callId, toolName) => return [ToolStarted(callId, toolName, at)];
      case ToolExecutionEnd(callId, isError) => return [ToolFinished(callId, isError.Some? && isError.value, at)];
      case AutoCompactionStart => return [CompactionStarted(at)];
      case AutoCompactionEnd => return [CompactionFinished(at)];
      case Notice(isErrorLevel, source, message) =>
        if !isErrorLevel {
          return [];
        }
        return [RuntimeError(if source.None? then message else source.value + ": " + message, false, at)];
      case OtherEvent => return [];
    }
  }

  // ----- frames

  datatype Frame = Ack(command: nat) | Nack(command: nat, error: string) | Seen(observation: Observation)

  class FrameWriter {
    var frames: seq<Frame>

    constructor ()
      ensures frames == []
    {
      frames := [];
    }

    method Write(frame: Frame)
      modifies this
      ensures frames == old(frames) + [frame]
      ensures forall id: nat ::
          RaisedTimes(frames, id) == RaisedTimes(old(frames), id) + if Raises(frame, id) then 1 else 0
      ensures forall id: nat ::
          SettledTimes(frames, id) == SettledTimes(old(frames), id) + if Settles(frame, id) then 1 else 0
    {
      frames := frames + [frame];
      assert frames[..|frames| - 1] == old(frames);
    }
  }

  /** The gate's channel back: requests raised, numbered upwards, each answered at most once. */
  class RequestBridge {
    const out: FrameWriter
    var sequence: nat
    var pending: set<nat>
    /** What each blocked call was released with. */
    var released: map<nat, bool>

    /** Every request was raised once, and is either still pending or was answered once and its call released. */
    ghost predicate Valid()
      reads this, out
    {
      && (forall id: nat :: RaisedTimes(out.frames, id) == if 1 <= id <= sequence then 1 else 0)
      && (forall id: nat :: SettledTimes(out.frames, id) == if id in released then 1 else 0)
      && (forall id: nat :: 1 <= id <= sequence <==> id in pending || id in released)
      && (forall id: nat :: !(id in pending && id in released))
    }

    constructor (out: FrameWriter)
      requires out.frames == []
      ensures this.out == out && Valid() && pending == {} && released == map[]
    {
      this.out, sequence, pending, released := out, 0, {}, map[];
    }

    method Raise(now: Time) returns (requestId: nat)
      requires Valid()
      modifies this, out
      ensures Valid() && requestId !in old(pending) && requestId !in old(released)
      ensures pending == old(pending) + {requestId} && released == old(released)
      ensures out.frames == old(out.frames) + [Seen(RequestRaised(requestId, now))]
    {
      sequence := sequence + 1;
      requestId := sequence;
      pending := pending + {requestId};
      out.Write(Seen(RequestRaised(requestId, now)));
    }

    /** Answers a request that is pending; an id nothing waits on changes nothing and says so. */
    method Settle(requestId: nat, outcome: bool, now: Time) returns (settled: bool)
      requires Valid()
      modifies this, out
      ensures Valid() && settled == (requestId in old(pending))
      ensures settled ==> pending == old(pending) - {requestId} && released == old(released)[requestId := outcome]
      ensures settled ==> out.frames == old(out.frames) + [Seen(RequestSettled(requestId, outcome, now))]
      ensures !settled ==> pending == old(pending) && released == old(released) && out.frames == old(out.frames)
    {
      if requestId !in pending {
        return false;
      }
      pending := pending - {requestId};
      released := released[requestId := outcome];
      out.Write(Seen(RequestSettled(requestId, outcome, now)));
      return true;
    }
  }

  /** The command loop's branches, and what happens when the runtime reports an event or rejects an input. */
  class Host {
    const translator: ObservationTranslator
    const bridge: RequestBridge
    const out: FrameWriter

    ghost predicate Valid()
      reads this, bridge, out
    {
      bridge.out == out && bridge.Valid()
    }

    constructor (translator: ObservationTranslator, bridge: RequestBridge)
      requires bridge.Valid()
      ensures this.translator == translator && this.bridge == bridge && Valid()
    {
      this.translator, this.bridge, out := translator, bridge, bridge.out;
    }

    /** An injection is tracked before it is handed over, and acknowledged; nothing is said about delivery. */
    method InjectCommand(command: nat, id: InjectionId, text: string)
      requires Valid()
      modifies translator, out
      ensures Valid() && translator.State() == Observations.Next(old(translator.State()), Inject(id, text))
      ensures out.frames == old(out.frames) + [Ack(command)]
    {
      translator.TrackInjection(Injection(id, text));
      out.Write(Ack(command));
    }

    /**
     * The runtime rejected an input: an injection is refused and tracked no more, a bare prompt is an error that ends
     * nothing.
     */
    method PromptRejected(injection: Option<InjectionId>, message: string, now: Time)
      requires Valid()
      modifies translator, out
      ensures Valid()
      ensures injection.None? ==>
        translator.State() == old(translator.State())
        && out.frames == old(out.frames) + [Seen(RuntimeError(message, false, now))]
      ensures injection.Some? ==>
        translator.State() == Observations.Next(old(translator.State()), Reject(injection.value))
        && out.frames == old(out.frames) + [Seen(InjectionRefused(injection.value, message, now))]
    {
      if injection.None? {
        out.Write(Seen(RuntimeError(message, false, now)));
      } else {
        translator.UntrackInjection(injection.value);
        out.Write(Seen(InjectionRefused(injection.value, message, now)));
      }
    }

    /** An answer is acknowledged exactly when it released a call that was waiting for it. */
    method Respond(command: nat, requestId: nat, outcome: bool, now: Time)
      requires Valid()
      modifies bridge, out
      ensures Valid()
      ensures requestId in old(bridge.pending) ==>
        bridge.released == old(bridge.released)[requestId := outcome]
            && bridge.pending == old(bridge.pending) - {requestId}
        && out.frames == old(out.frames) + [Seen(RequestSettled(requestId, outcome, now)), Ack(command)]
      ensures requestId !in old(bridge.pending) ==>
        bridge.released == old(bridge.released) && bridge.pending == old(bridge.pending)
        && out.frames == old(out.frames) + [Nack(command, "no such request is pending in this session")]
    {
      var settled := bridge.Settle(requestId, outcome, now);
      if settled {
        out.Write(Ack(command));
      } else {
        out.Write(Nack(command, "no such request is pending in this session"));
      }
    }

    /** An observation that is not the bridge's own. */
    method Report(o: Observation)
      requires Valid() && !o.RequestRaised? && !o.RequestSettled?
      modifies out
      ensures Valid() && out.frames == old(out.frames) + [Seen(o)]
    {
      out.Write(Seen(o));
    }

    method OnEvent(event: Event, at: Time)
      requires Valid()
      modifies translator, out
      ensures Valid() && translator.State() == After(old(translator.State()), event)
      ensures out.frames == old(out.frames) + Frames(Observed(old(translator.State()), event, at))
    {
      var observations := translator.Translate(event, at);
      hide After, RaisedTimes, SettledTimes;
      assert forall i | 0 <= i < |observations| :: !observations[i].RequestRaised? && !observations[i].RequestSettled?;
      hide Observed, RequestBridge.Valid;
      for i := 0 to |observations|
        invariant Valid() && translator.State() == After(old(translator.State()), event)
        invariant out.frames == old(out.frames) + Frames(observations[..i])
      {
        Report(observations[i]);
        assert observations[..i + 1] == observations[..i] + [observations[i]];
      }
      assert observations[..|observations|] == observations;
    }
  }

  function Frames(observations: seq<Observation>): (r: seq<Frame>)
    ensures |r| == |observations| && forall i | 0 <= i < |r| :: r[i] == Seen(observations[i])
  {
    seq(|observations|, i requires 0 <= i < |observations| => Seen(observations[i]))
  }

  function RaisedTimes(frames: seq<Frame>, id: nat): nat
    decreases |frames|
  {
    if frames == [] then 0
    else RaisedTimes(frames[..|frames| - 1], id) + if Raises(frames[|frames| - 1], id) then 1 else 0
  }

  function SettledTimes(frames: seq<Frame>, id: nat): nat
    decreases |frames|
  {
    if frames == [] then 0
    else SettledTimes(frames[..|frames| - 1], id) + if Settles(frames[|frames| - 1], id) then 1 else 0
  }

  predicate Raises(frame: Frame, id: nat) { frame.Seen? && frame.observation.RequestRaised?
      && frame.observation.requestId == id }

  predicate Settles(frame: Frame, id: nat) { frame.Seen? && frame.observation.RequestSettled?
      && frame.observation.requestId == id }
}
