/**
 Readers, batch loop and router connected, as the daemon connects them
 (crates/lasterm-agent/src/handler.rs, batch.rs, daemon.rs). Two lists of turns say in
 which order the tasks act, and the pipeline stands where the turns have left it.
 */
module OutputPipeline {
  import opened OutputBatching
  import Router = OutputRouter

  /** A turn before the batch loop: the next event of a channel, or the timer. */
  datatype BatchTurn = FromReader(channel: string) | Timer

  /** A turn around the router: a hub connects, a handler ends, or the router takes a batch. */
  datatype RouterTurn = Connect | Leave(conn: nat) | Take

  type Reads = map<string, seq<Bytes>>

  type Events = map<string, seq<OutputEvent>>

  // ----- the readers

  ghost predicate FitBuffer(readsOf: Reads) {
    forall c :: c in readsOf ==> forall i :: 0 <= i < |readsOf[c]| ==> |readsOf[c][i]| <= READ_MAX
  }

  /** What each channel's reader sends by its end. */
  ghost predicate Sends(readsOf: Reads, events: Events) {
    && events.Keys == readsOf.Keys
    && forall c :: c in readsOf ==> DataOf(events[c]) == StrippedReads(readsOf[c]) && EventsSoFar(events[c], c, readsOf[c], |readsOf[c]|)
  }

  method RunReaders(readsOf: Reads) returns (events: Events)
    requires FitBuffer(readsOf)
    ensures Sends(readsOf, events)
  {
    events := map[];
    var left := readsOf.Keys;
    while left != {}
      invariant left <= readsOf.Keys && events.Keys == readsOf.Keys - left
      invariant forall c :: c in events ==>
        DataOf(events[c]) == StrippedReads(readsOf[c]) && EventsSoFar(events[c], c, readsOf[c], |readsOf[c]|)
      decreases |left|
    {
      var c :| c in left;
      var sent := ReaderTask(c, readsOf[c]);
      events := events[c := sent];
      left := left - {c};
    }
  }

  // ----- what arrives at the batch loop

  ghost predicate OwnChannels(events: Events) {
    forall c :: c in events ==> forall i :: 0 <= i < |events[c]| ==> events[c][i].channel == c
  }

  lemma {:induction false} SendsOwnChannels(readsOf: Reads, events: Events)
    requires Sends(readsOf, events)
    ensures OwnChannels(events)
  {
    forall c | c in events ensures forall i :: 0 <= i < |events[c]| ==> events[c][i].channel == c {
      assert EventsSoFar(events[c], c, readsOf[c], |readsOf[c]|);
    }
  }

  /** What a turn adds: a tick, or the channel's next event if there is one. */
  function Arrival(events: Events, soFar: seq<Input>, turn: BatchTurn): seq<Input> {
    match turn
    case Timer => [Tick]
    case FromReader(c) =>
      if c in events && |EventsOf(soFar, c)| < |events[c]| then [Arrived(events[c][|EventsOf(soFar, c)|])] else []
  }

  function Scheduled(events: Events, turns: seq<BatchTurn>): seq<Input> {
    if turns == [] then []
    else
      var before := Scheduled(events, turns[..|turns| - 1]);
      before + Arrival(events, before, turns[|turns| - 1])
  }

  /** Each channel's events arrive in order, none twice. */
  ghost predicate Merged(inputs: seq<Input>, events: Events) {
    forall c :: EventsOf(inputs, c) <= if c in events then events[c] else []
  }

  lemma {:induction false} EventsAppend(inputs: seq<Input>, i: Input, c: string)
    ensures EventsOf(inputs + [i], c) == EventsOf(inputs, c) + if i.Arrived? && i.event.channel == c then [i.event] else []
  {
    InputAppends(inputs, i);
  }

  lemma {:induction false} NextKeepsMerged(inputs: seq<Input>, events: Events, c: string)
    requires OwnChannels(events) && Merged(inputs, events) && c in events && |EventsOf(inputs, c)| < |events[c]|
    ensures Merged(inputs + [Arrived(events[c][|EventsOf(inputs, c)|])], events)
  {
    var e := events[c][|EventsOf(inputs, c)|];
    hide EventsOf;
    forall d ensures EventsOf(inputs + [Arrived(e)], d) <= if d in events then events[d] else [] {
      EventsAppend(inputs, Arrived(e), d);
    }
  }

  lemma {:induction false} TickKeepsMerged(inputs: seq<Input>, events: Events)
    requires Merged(inputs, events)
    ensures Merged(inputs + [Tick], events)
  {
    hide EventsOf;
    forall d ensures EventsOf(inputs + [Tick], d) <= if d in events then events[d] else [] {
      EventsAppend(inputs, Tick, d);
      assert EventsOf(inputs, d) + [] == EventsOf(inputs, d);
    }
  }

  lemma {:induction false} ArrivalKeepsMerged(inputs: seq<Input>, events: Events, turn: BatchTurn)
    requires OwnChannels(events) && Merged(inputs, events)
    ensures Merged(inputs + Arrival(events, inputs, turn), events)
  {
    hide OwnChannels, Merged, EventsOf;
    assert inputs + [] == inputs;
    match turn {
      case Timer => TickKeepsMerged(inputs, events);
      case FromReader(c) => if c in events && |EventsOf(inputs, c)| < |events[c]| { NextKeepsMerged(inputs, events, c); }
    }
  }

  lemma {:induction false} ScheduledIsMerged(events: Events, turns: seq<BatchTurn>)
    requires OwnChannels(events)
    ensures Merged(Scheduled(events, turns), events)
  {
    if turns != [] {
      ScheduledIsMerged(events, turns[..|turns| - 1]);
      ArrivalKeepsMerged(Scheduled(events, turns[..|turns| - 1]), events, turns[|turns| - 1]);
    }
  }

  lemma {:induction false} MergedShrinks(inputs: seq<Input>, events: Events)
    requires inputs != [] && Merged(inputs, events)
    ensures Merged(inputs[..|inputs| - 1], events)
  {
    var before := inputs[..|inputs| - 1];
    forall c ensures EventsOf(before, c) <= if c in events then events[c] else [] {
      assert EventsOf(before, c) <= EventsOf(inputs, c);
    }
  }

  /** The last input of a merge is what some turn adds. */
  lemma {:induction false} LastIsArrival(before: seq<Input>, last: Input, events: Events) returns (turn: BatchTurn)
    requires Merged(before + [last], events)
    ensures Arrival(events, before, turn) == [last]
  {
    if last.Tick? {
      turn := Timer;
    } else {
      var c := last.event.channel;
      turn := FromReader(c);
      EventsAppend(before, last, c);
      assert EventsOf(before + [last], c)[|EventsOf(before, c)|] == last.event;
    }
  }

  /** Conversely, every merge of ticks with what the readers send comes from some turns. */
  lemma {:induction false} EveryMergeIsScheduled(inputs: seq<Input>, events: Events) returns (turns: seq<BatchTurn>)
    requires Merged(inputs, events)
    ensures Scheduled(events, turns) == inputs
  {
    if inputs == [] {
      turns := [];
    } else {
      var before, last := inputs[..|inputs| - 1], inputs[|inputs| - 1];
      MergedShrinks(inputs, events);
      var earlier := EveryMergeIsScheduled(before, events);
      assert before + [last] == inputs;
      hide Merged, Arrival;
      var turn := LastIsArrival(before, last, events);
      turns := earlier + [turn];
      assert turns[..|turns| - 1] == earlier;
    }
  }

  lemma {:induction false} NextTurn(events: Events, turns: seq<BatchTurn>, i: nat)
    requires i < |turns|
    ensures Scheduled(events, turns[..i + 1]) ==
            Scheduled(events, turns[..i]) + Arrival(events, Scheduled(events, turns[..i]), turns[i])
  {
    assert turns[..i + 1][..i] == turns[..i];
  }

  method Interleave(events: Events, turns: seq<BatchTurn>) returns (inputs: seq<Input>)
    ensures inputs == Scheduled(events, turns)
  {
    hide EventsOf;
    inputs := [];
    for i := 0 to |turns|
      invariant inputs == Scheduled(events, turns[..i])
    {
      NextTurn(events, turns, i);
      assert inputs + [] == inputs;
      match turns[i] {
        case Timer => inputs := inputs + [Tick];
        case FromReader(c) =>
          var taken := |EventsOf(inputs, c)|;
          if c in events && taken < |events[c]| { inputs := inputs + [Arrived(events[c][taken])]; }
      }
    }
    assert turns[..|turns|] == turns;
  }

  ghost function ChunksOf(readsOf: Reads): string -> seq<Bytes> {
    c => if c in readsOf then readsOf[c] else []
  }

  lemma {:induction false} PrefixOfReader(part: seq<OutputEvent>, all: seq<OutputEvent>, channel: string, chunks: seq<Bytes>)
    requires part <= all && EventsSoFar(all, channel, chunks, |chunks|)
    ensures Numbered(part, |chunks|) && forall i :: 0 <= i < |part| ==> IsRead(part[i], channel, chunks)
  {
    assert forall i :: 0 <= i < |part| ==> part[i] == all[i];
  }

  lemma {:induction false} MergedIsFromReaders(readsOf: Reads, events: Events, inputs: seq<Input>)
    requires Sends(readsOf, events) && Merged(inputs, events)
    ensures FromReaders(inputs)
  {
    hide EventsSoFar, Numbered, IsRead, FromReaders, EventsOf, DataOf;
    var chunks := ChunksOf(readsOf);
    forall c ensures Numbered(EventsOf(inputs, c), |chunks(c)|)
      ensures forall i :: 0 <= i < |EventsOf(inputs, c)| ==> IsRead(EventsOf(inputs, c)[i], c, chunks(c))
    {
      if c in readsOf {
        PrefixOfReader(EventsOf(inputs, c), events[c], c, readsOf[c]);
      } else {
        NothingIsNumbered(|chunks(c)|);
      }
    }
    MergeIsFromReaders(inputs, chunks);
  }

  lemma {:induction false} NothingIsNumbered(last: nat)
    ensures Numbered([], last)
  {
  }

  // ----- what happens around the router

  /** What a turn adds: an accepted connection, the exit of an accepted one's handler, or the next batch if there is one. */
  function RouterStep(out: seq<Batch>, soFar: seq<Router.Event>, turn: RouterTurn): seq<Router.Event> {
    match turn
    case Connect => [Router.Accept]
    case Leave(conn) => if 1 <= conn <= Router.Accepts(soFar) then [Router.HandlerExit(conn)] else []
    case Take => if |Router.Frames(soFar)| < |out| then [Router.Output(out[|Router.Frames(soFar)|])] else []
  }

  function Routed(out: seq<Batch>, turns: seq<RouterTurn>): seq<Router.Event> {
    if turns == [] then []
    else
      var before := Routed(out, turns[..|turns| - 1]);
      before + RouterStep(out, before, turns[|turns| - 1])
  }

  /** A feasible history in which the router has taken the first batches, in order. */
  ghost predicate Takes(history: seq<Router.Event>, out: seq<Batch>) {
    Router.Feasible(history) && Router.Frames(history) <= out
  }

  lemma {:induction false} RouterStepKeepsTakes(out: seq<Batch>, history: seq<Router.Event>, turn: RouterTurn)
    requires Takes(history, out)
    ensures Takes(history + RouterStep(out, history, turn), out)
  {
    var more := RouterStep(out, history, turn);
    if more == [] {
      assert history + more == history;
    } else {
      assert (history + more)[..|history|] == history;
    }
  }

  lemma {:induction false} RoutedTakes(out: seq<Batch>, turns: seq<RouterTurn>)
    ensures Takes(Routed(out, turns), out)
  {
    if turns != [] {
      RoutedTakes(out, turns[..|turns| - 1]);
      RouterStepKeepsTakes(out, Routed(out, turns[..|turns| - 1]), turns[|turns| - 1]);
    }
  }

  /** Conversely, every such history comes from some turns. */
  lemma {:induction false} EveryHistoryIsRouted(history: seq<Router.Event>, out: seq<Batch>) returns (turns: seq<RouterTurn>)
    requires Takes(history, out)
    ensures Routed(out, turns) == history
  {
    if history == [] {
      turns := [];
    } else {
      var before, last := history[..|history| - 1], history[|history| - 1];
      assert Router.Frames(before) <= Router.Frames(history);
      var earlier := EveryHistoryIsRouted(before, out);
      var turn := match last case Accept => Connect case HandlerExit(conn) => Leave(conn) case Output(_) => Take;
      turns := earlier + [turn];
      assert turns[..|turns| - 1] == earlier;
      if last.Output? { assert Router.Frames(history)[|Router.Frames(before)|] == last.frame; }
      assert before + [last] == history;
    }
  }

  method Connections(out: seq<Batch>, turns: seq<RouterTurn>) returns (history: seq<Router.Event>)
    ensures history == Routed(out, turns)
  {
    history := [];
    var accepted, taken := 0, 0;
    for i := 0 to |turns|
      invariant history == Routed(out, turns[..i])
      invariant accepted == Router.Accepts(history) && taken == |Router.Frames(history)|
    {
      assert turns[..i + 1][..i] == turns[..i];
      ghost var before := history;
      if turns[i] == Connect {
        history, accepted := history + [Router.Accept], accepted + 1;
      } else if turns[i] == Take && taken < |out| {
        history, taken := history + [Router.Output(out[taken])], taken + 1;
      } else if turns[i].Leave? && 1 <= turns[i].conn <= accepted {
        history := history + [Router.HandlerExit(turns[i].conn)];
      } else {
        assert history + [] == history;
      }
      if history != before { assert history[..|history| - 1] == before; }
    }
    assert turns[..|turns|] == turns;
  }

  // ----- the whole pipeline

  lemma {:induction false} DataOfPrefix(part: seq<OutputEvent>, all: seq<OutputEvent>)
    requires part <= all
    ensures DataOf(part) <= DataOf(all)
    decreases |all|
  {
    if |part| < |all| {
      DataOfPrefix(part, all[..|all| - 1]);
    } else {
      assert part == all;
    }
  }

  /** Each channel's batches and residual are its reads as far as they have arrived, stripped. */
  ghost predicate Batched(readsOf: Reads, events: Events, inputs: seq<Input>, out: seq<Batch>, residual: Buffers) {
    forall c :: c in readsOf && c in events ==>
      && Emitted(out, c) + Residual(residual, c) <= StrippedReads(readsOf[c])
      && (EventsOf(inputs, c) == events[c] ==> Emitted(out, c) + Residual(residual, c) == StrippedReads(readsOf[c]))
  }

  lemma {:induction false} ConservedIsBatched(readsOf: Reads, events: Events, inputs: seq<Input>, out: seq<Batch>, residual: Buffers)
    requires Sends(readsOf, events) && Merged(inputs, events)
    requires forall c :: Conserved(inputs, out, residual, c)
    ensures Batched(readsOf, events, inputs, out, residual)
  {
    forall c | c in readsOf
      ensures Emitted(out, c) + Residual(residual, c) <= StrippedReads(readsOf[c])
      ensures EventsOf(inputs, c) == events[c] ==> Emitted(out, c) + Residual(residual, c) == StrippedReads(readsOf[c])
    {
      assert Conserved(inputs, out, residual, c);
      StreamIsData(inputs, c);
      DataOfPrefix(EventsOf(inputs, c), events[c]);
    }
  }

  lemma {:induction false} NumbersIncrease(inputs: seq<Input>, out: seq<Batch>)
    requires BatchesOk(inputs, out) && forall j :: 0 <= j < |out| ==> out[j].data != []
    ensures forall i, j :: 0 <= i < j < |out| && out[i].channel == out[j].channel ==> out[i].seqNo < out[j].seqNo
  {
    forall i, j | 0 <= i < j < |out| && out[i].channel == out[j].channel ensures out[i].seqNo < out[j].seqNo {
      BatchNumbersIncrease(inputs, out, i, j);
    }
  }

  /** From the reads of every channel to the batches, in the order of the turns: nothing is
      lost or reordered within a channel, nothing is held back longer than the next tick or
      beyond 4096 bytes, no batch is empty or too large, and the numbers increase. */
  method ReadAndBatch(readsOf: Reads, turns: seq<BatchTurn>)
    returns (events: Events, inputs: seq<Input>, out: seq<Batch>, residual: Buffers, marks: seq<nat>)
    requires FitBuffer(readsOf)
    ensures Sends(readsOf, events) && inputs == Scheduled(events, turns)
    ensures Batched(readsOf, events, inputs, out, residual) && OnTime(inputs, out, marks)
    ensures HoldsWaiting(inputs, residual) && SentExactly(inputs, out, marks)
    ensures forall j :: 0 <= j < |out| ==> 1 <= |out[j].data| <= BATCH_LIMIT
    ensures forall i, j :: 0 <= i < j < |out| && out[i].channel == out[j].channel ==> out[i].seqNo < out[j].seqNo
  {
    events := RunReaders(readsOf);
    SendsOwnChannels(readsOf, events);
    inputs := Interleave(events, turns);
    ScheduledIsMerged(events, turns);
    MergedIsFromReaders(readsOf, events, inputs);
    hide FromReaders, Conserved, Aligned, Small, Batched, Sends, Merged, OnTime, HoldsWaiting, SentExactly;
    out, residual, marks := BatchLoop(inputs);
    ConservedIsBatched(readsOf, events, inputs, out, residual);
    NumbersIncrease(inputs, out);
  }

  /** Of the batches taken in the order of the turns, each is handed over, pending, or
      lost because it waited behind 1000 others. */
  method ConnectAndRoute(out: seq<Batch>, turns: seq<RouterTurn>)
    returns (handed: seq<Router.Handover>, pending: seq<Batch>, history: seq<Router.Event>)
    ensures history == Routed(out, turns) && handed == Router.Delivered(history)
    ensures Takes(history, out)
    ensures Router.FramesOf(handed) + pending == Router.Keep(Router.Frames(history), Router.LostFrames(history))
  {
    history := Connections(out, turns);
    RoutedTakes(out, turns);
    handed, pending := Router.Drive(history);
    Router.LossIsExact(history);
  }

  /** From the reads of every channel to the hub, where the turns have left the tasks. When
      everything sent has arrived and been taken and nothing was lost, handed-over, pending
      and residual bytes are everything the reads strip to. */
  method Run(readsOf: Reads, batchTurns: seq<BatchTurn>, routerTurns: seq<RouterTurn>)
    returns (events: Events, inputs: seq<Input>, out: seq<Batch>, residual: Buffers, marks: seq<nat>,
             history: seq<Router.Event>, handed: seq<Router.Handover>, pending: seq<Batch>)
    requires FitBuffer(readsOf)
    ensures Sends(readsOf, events) && inputs == Scheduled(events, batchTurns)
    ensures Batched(readsOf, events, inputs, out, residual) && OnTime(inputs, out, marks)
    ensures HoldsWaiting(inputs, residual) && SentExactly(inputs, out, marks)
    ensures history == Routed(out, routerTurns) && Takes(history, out) && handed == Router.Delivered(history)
    ensures Router.FramesOf(handed) + pending == Router.Keep(Router.Frames(history), Router.LostFrames(history))
    ensures Router.Frames(history) == out && Router.LostFrames(history) == {} ==>
      Batched(readsOf, events, inputs, Router.FramesOf(handed) + pending, residual)
  {
    hide Batched, OnTime, HoldsWaiting, SentExactly, Sends, Takes, Scheduled, Routed, Router.KeepTo, Router.LostFrames, Router.Delivered, Router.Frames;
    events, inputs, out, residual, marks := ReadAndBatch(readsOf, batchTurns);
    handed, pending, history := ConnectAndRoute(out, routerTurns);
    Router.KeepAll(out, |out|);
    assert out[..|out|] == out;
  }
}
