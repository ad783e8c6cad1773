/**
 The hub's quit lifecycle and its single teardown (packages/hub/src/shutdown.ts).

 An `Input` is one turn of the event loop: a request, a callback, a signal, the
 settling of a promise or the shutdown timer. A turn runs to completion, so the
 continuation of a settled promise belongs to the turn that settled it. `Step`
 says what a turn does; the class `QuitLifecycle` below is the stateful form,
 and everything that can happen is a sequence of inputs.
 */
module Shutdown {
  import opened Prelude

  datatype Deleted = Removed | NotOurs | DeleteThrew

  /** How the session layer answers `beginQuit` followed by `stopLocalAgent`. */
  datatype Session = BeginThrows | StopThrows | StopPending

  datatype Input =
    | StartupDone
    | QuitRequest(session: Option<Session>)
    | StopperSettles(stopped: bool)
    | QuitDelivered(retry: Session)
    | ShutdownRequest
    | CloseSettles(closed: bool, dbClosed: bool, first: Deleted, second: Deleted)
    | TimerFires(deleted: Deleted)

  /** Everything the lifecycle does or observes, in order. */
  datatype Event =
    | QuitBegan
    | AgentStopSettled(ok: bool)
    | DeliveryFired
    | ServerCloseStarted
    | ServerClosed(ok: bool)
    | DbClosed(ok: bool)
    | TimedOut
    | RecordRemoval(result: Deleted)
    | Exited(code: nat)

  datatype StopPromise = NotBegun | Pending | Settled(ok: bool)

  datatype TeardownPromise = NotRequested | AfterQuit | Ordinary

  datatype Coordinator = Coordinator(stop: StopPromise, teardown: TeardownPromise)

  /** The module-level `shutdownPromise` and how far its teardown has come. */
  datatype Teardown = NotStarted | Closing(exitCode: nat) | Ended

  datatype State = State(ready: bool, coordinator: Option<Coordinator>, teardown: Teardown, log: seq<Event>)

  const Start := State(false, None, NotStarted, [])

  // ----- one turn

  function Log(s: State, events: seq<Event>): State {
    s.(log := s.log + events)
  }

  function GracefulShutdown(s: State, exitCode: nat): State {
    if s.teardown != NotStarted then s
    else Log(s.(teardown := Closing(exitCode)), [ServerCloseStarted])
  }

  function ExitCodeOf(ok: bool): nat {
    if ok then 0 else 1
  }

  /** What the coordinator's `beginQuit` does to the stop promise; the session may throw before anything began. */
  function BegunStop(c: Coordinator, session: Session): StopPromise {
    if c.stop != NotBegun || session == BeginThrows then c.stop
    else if session == StopThrows then Settled(false) else Pending
  }

  function BeginEvents(c: Coordinator, session: Session): seq<Event> {
    if c.stop != NotBegun || session == BeginThrows then []
    else if session == StopThrows then [QuitBegan, AgentStopSettled(false)] else [QuitBegan]
  }

  function BeginQuit(s: State, c: Coordinator, session: Session): State {
    Log(s.(coordinator := Some(c.(stop := BegunStop(c, session)))), BeginEvents(c, session))
  }

  function OnQuit(s: State, session: Option<Session>): State {
    if session == None then s
    else if s.coordinator == None && !s.ready then s
    else BeginQuit(s, if s.coordinator == None then Coordinator(NotBegun, NotRequested) else s.coordinator.value, session.value)
  }

  function OnStopperSettles(s: State, ok: bool): State {
    if s.coordinator == None || s.coordinator.value.stop != Pending then s
    else
      var t := Log(s.(coordinator := Some(s.coordinator.value.(stop := Settled(ok)))), [AgentStopSettled(ok)]);
      if s.coordinator.value.teardown == AfterQuit then GracefulShutdown(t, ExitCodeOf(ok)) else t
  }

  function OnQuitDelivered(s: State, session: Session): State {
    var s := Log(s, [DeliveryFired]);
    if s.coordinator == None || s.coordinator.value.teardown != NotRequested then s
    else
      var t := BeginQuit(s, s.coordinator.value, session);
      var c := t.coordinator.value;
      if c.stop == NotBegun then t
      else
        var u := t.(coordinator := Some(c.(teardown := AfterQuit)));
        if c.stop.Settled? then GracefulShutdown(u, ExitCodeOf(c.stop.ok)) else u
  }

  function OnShutdown(s: State): State {
    if s.coordinator == None then (if s.ready then GracefulShutdown(s, 0) else s)
    else if s.coordinator.value.stop != NotBegun || s.coordinator.value.teardown != NotRequested then s
    else GracefulShutdown(s.(coordinator := Some(s.coordinator.value.(teardown := Ordinary))), 0)
  }

  function ForcedEnd(deleted: Deleted): seq<Event> {
    [RecordRemoval(deleted), Exited(1)]
  }

  /** The rest of the teardown once `server.close` has settled. */
  function CloseEvents(exitCode: nat, closed: bool, dbClosed: bool, first: Deleted, second: Deleted): seq<Event> {
    if !closed then [ServerClosed(false)] + ForcedEnd(first)
    else if !dbClosed then [ServerClosed(true), DbClosed(false)] + ForcedEnd(first)
    else if first == DeleteThrew then [ServerClosed(true), DbClosed(true), RecordRemoval(first)] + ForcedEnd(second)
    else [ServerClosed(true), DbClosed(true), RecordRemoval(first), Exited(exitCode)]
  }

  function OnCloseSettles(s: State, closed: bool, dbClosed: bool, first: Deleted, second: Deleted): State {
    if !s.teardown.Closing? then s
    else Log(s.(teardown := Ended), CloseEvents(s.teardown.exitCode, closed, dbClosed, first, second))
  }

  function OnTimer(s: State, deleted: Deleted): State {
    if !s.teardown.Closing? then s else Log(s.(teardown := Ended), [TimedOut] + ForcedEnd(deleted))
  }

  /** Nothing happens after `process.exit`. */
  function Step(s: State, input: Input): State {
    if s.teardown == Ended then s
    else match input
         case StartupDone => s.(ready := true)
         case QuitRequest(session) => OnQuit(s, session)
         case StopperSettles(ok) => OnStopperSettles(s, ok)
         case QuitDelivered(retry) => OnQuitDelivered(s, retry)
         case ShutdownRequest => OnShutdown(s)
         case CloseSettles(closed, dbClosed, first, second) => OnCloseSettles(s, closed, dbClosed, first, second)
         case TimerFires(deleted) => OnTimer(s, deleted)
  }

  function Run(inputs: seq<Input>): State {
    if inputs == [] then Start else Step(Run(inputs[..|inputs| - 1]), inputs[|inputs| - 1])
  }

  // ----- reading a log

  /** The part of the log before `server.close` was called. */
  function BeforeClose(log: seq<Event>): seq<Event> {
    if log == [] || log[0] == ServerCloseStarted then [] else [log[0]] + BeforeClose(log[1..])
  }

  predicate IsTeardown(e: Event) {
    !e.QuitBegan? && !e.AgentStopSettled? && !e.DeliveryFired?
  }

  function TeardownOf(log: seq<Event>): seq<Event> {
    if log == [] then [] else (if IsTeardown(log[0]) then [log[0]] else []) + TeardownOf(log[1..])
  }

  /** Every course a complete teardown may take when it was asked to exit with `code`:
      timer, failed socket, failed databases, failed removal, or none of these. */
  ghost predicate CompleteTeardown(events: seq<Event>, code: nat) {
    || (exists d :: events == [ServerCloseStarted, TimedOut] + ForcedEnd(d))
    || (exists d :: events == [ServerCloseStarted, ServerClosed(false)] + ForcedEnd(d))
    || (exists d :: events == [ServerCloseStarted, ServerClosed(true), DbClosed(false)] + ForcedEnd(d))
    || (exists d :: events == [ServerCloseStarted, ServerClosed(true), DbClosed(true), RecordRemoval(DeleteThrew)] + ForcedEnd(d))
    || (exists d :: d != DeleteThrew && events == [ServerCloseStarted, ServerClosed(true), DbClosed(true), RecordRemoval(d), Exited(code)])
  }

  ghost predicate DeliveredAfterQuit(log: seq<Event>) {
    exists i, j :: 0 <= i < j < |log| && log[i] == QuitBegan && log[j] == DeliveryFired
  }

  lemma {:induction false} BeforeCloseAppend(log: seq<Event>, more: seq<Event>)
    ensures ServerCloseStarted in log ==> BeforeClose(log + more) == BeforeClose(log)
    ensures ServerCloseStarted !in log ==> BeforeClose(log) == log && BeforeClose(log + more) == log + BeforeClose(more)
  {
    if log == [] {
      assert log + more == more;
    } else {
      BeforeCloseAppend(log[1..], more);
      assert (log + more)[1..] == log[1..] + more;
    }
  }

  lemma {:induction false} TeardownOfAppend(log: seq<Event>, more: seq<Event>)
    ensures TeardownOf(log + more) == TeardownOf(log) + TeardownOf(more)
  {
    if log == [] {
      assert log + more == more;
    } else {
      var head := if IsTeardown(log[0]) then [log[0]] else [];
      TeardownOfAppend(log[1..], more);
      assert (log + more)[1..] == log[1..] + more;
      assert head + (TeardownOf(log[1..]) + TeardownOf(more)) == (head + TeardownOf(log[1..])) + TeardownOf(more);
    }
  }

  lemma {:induction false} TeardownOfAll(log: seq<Event>)
    requires forall e :: e in log ==> IsTeardown(e)
    ensures TeardownOf(log) == log
  {
    if log != [] {
      TeardownOfAll(log[1..]);
    }
  }

  lemma {:induction false} TeardownOfNone(log: seq<Event>)
    requires forall e :: e in log ==> !IsTeardown(e)
    ensures TeardownOf(log) == []
  {
    if log != [] {
      TeardownOfNone(log[1..]);
    }
  }

  lemma {:induction false} TeardownOfKeeps(log: seq<Event>, e: Event)
    requires IsTeardown(e)
    ensures e in TeardownOf(log) <==> e in log
  {
    if log != [] {
      TeardownOfKeeps(log[1..], e);
    }
  }

  // ----- the invariant

  function StopOf(s: State): StopPromise {
    if s.coordinator == None then NotBegun else s.coordinator.value.stop
  }

  ghost predicate StopOk(s: State) {
    && (QuitBegan in s.log <==> StopOf(s) != NotBegun)
    && (forall ok :: AgentStopSettled(ok) in s.log <==> StopOf(s) == Settled(ok))
  }

  ghost predicate TeardownOk(s: State) {
    && (ServerCloseStarted in s.log <==> s.teardown != NotStarted)
    && match s.teardown
       case NotStarted => TeardownOf(s.log) == []
       case Closing(_) => TeardownOf(s.log) == [ServerCloseStarted]
       case Ended => exists code :: CompleteTeardown(TeardownOf(s.log), code)
  }

  ghost predicate PromisesOk(s: State) {
    && (s.coordinator.Some? && s.coordinator.value.teardown == AfterQuit ==> DeliveryFired in s.log && StopOf(s) != NotBegun)
    && (s.coordinator.Some? && s.coordinator.value.teardown == Ordinary ==> s.teardown != NotStarted)
    && (s.coordinator.Some? && s.coordinator.value.teardown == AfterQuit && StopOf(s).Settled? ==> s.teardown != NotStarted)
    && (DeliveredAfterQuit(s.log) ==> s.coordinator.Some? && s.coordinator.value.teardown != NotRequested)
  }

  /** A quit that began before the teardown holds the socket open until the agent
      stop has settled and a response has been delivered. */
  ghost predicate BoundaryOk(s: State) {
    QuitBegan in BeforeClose(s.log) && s.teardown != NotStarted ==>
      && DeliveryFired in BeforeClose(s.log)
      && exists ok ::
        && AgentStopSettled(ok) in BeforeClose(s.log)
        && (s.teardown.Closing? ==> s.teardown.exitCode == ExitCodeOf(ok))
        && (Exited(0) in s.log ==> ok)
  }

  ghost predicate Inv(s: State) {
    StopOk(s) && TeardownOk(s) && PromisesOk(s) && BoundaryOk(s)
  }

  /** Events outside the teardown leave the teardown and its past alone. */
  lemma QuietLog(log: seq<Event>, more: seq<Event>)
    requires forall e :: e in more ==> !IsTeardown(e)
    ensures TeardownOf(log + more) == TeardownOf(log)
    ensures ServerCloseStarted in log ==> BeforeClose(log + more) == BeforeClose(log)
    ensures ServerCloseStarted !in log ==> BeforeClose(log + more) == log + more
  {
    TeardownOfAppend(log, more);
    TeardownOfNone(more);
    BeforeCloseAppend(log, more);
    BeforeCloseAppend(more, []);
    assert more + [] == more;
  }

  /** Turns that neither start nor advance the teardown. */
  lemma QuietStep(s: State, t: State, more: seq<Event>)
    requires Inv(s) && StopOk(t) && PromisesOk(t)
    requires t.log == s.log + more && t.teardown == s.teardown && forall e :: e in more ==> !IsTeardown(e)
    ensures Inv(t)
  {
    QuietLog(s.log, more);
    assert Exited(0) in t.log ==> Exited(0) in s.log;
  }

  lemma ShutdownStarts(s: State, code: nat)
    requires StopOk(s) && TeardownOk(s)
    requires s.coordinator.Some? && s.coordinator.value.teardown == AfterQuit ==> DeliveryFired in s.log && StopOf(s) != NotBegun
    requires DeliveredAfterQuit(s.log) ==> s.coordinator.Some? && s.coordinator.value.teardown != NotRequested
    requires s.teardown != NotStarted ==> BoundaryOk(s)
    requires s.teardown == NotStarted && QuitBegan in s.log ==> DeliveryFired in s.log && StopOf(s).Settled? && code == ExitCodeOf(StopOf(s).ok)
    ensures Inv(GracefulShutdown(s, code))
  {
    if s.teardown == NotStarted {
      var t := GracefulShutdown(s, code);
      TeardownOfAppend(s.log, [ServerCloseStarted]);
      BeforeCloseAppend(s.log, [ServerCloseStarted]);
      assert BeforeClose(t.log) == s.log;
      TeardownOfKeeps(s.log, Exited(0));
      if QuitBegan in s.log { assert AgentStopSettled(StopOf(s).ok) in BeforeClose(t.log); }
      if DeliveredAfterQuit(t.log) {
        var i, j :| 0 <= i < j < |t.log| && t.log[i] == QuitBegan && t.log[j] == DeliveryFired;
        assert s.log[i] == QuitBegan && s.log[j] == DeliveryFired;
      }
    }
  }

  lemma CleanExitWasRequested(more: seq<Event>, code: nat)
    requires CompleteTeardown([ServerCloseStarted] + more, code) && Exited(0) in more
    ensures code == 0
  {
    var events := [ServerCloseStarted] + more;
    assert Exited(0) in events;
  }

  /** The rest of a teardown: it ends with an exit and takes one of the listed courses. */
  lemma TeardownEnds(s: State, more: seq<Event>)
    requires Inv(s) && s.teardown.Closing?
    requires forall e :: e in more ==> IsTeardown(e) && e != ServerCloseStarted
    requires CompleteTeardown([ServerCloseStarted] + more, s.teardown.exitCode)
    ensures Inv(Log(s.(teardown := Ended), more))
  {
    var t := Log(s.(teardown := Ended), more);
    TeardownOfAppend(s.log, more);
    TeardownOfAll(more);
    assert TeardownOf(t.log) == [ServerCloseStarted] + more;
    BeforeCloseAppend(s.log, more);
    TeardownOfKeeps(s.log, Exited(0));
    DeliveredAfterQuitAppend(s.log, more);
    if Exited(0) in more { CleanExitWasRequested(more, s.teardown.exitCode); }
    assert StopOk(t) && TeardownOk(t) && PromisesOk(t);
  }

  lemma DeliveredAfterQuitAppend(log: seq<Event>, more: seq<Event>)
    requires DeliveryFired !in more
    ensures DeliveredAfterQuit(log + more) <==> DeliveredAfterQuit(log)
  {
    if DeliveredAfterQuit(log + more) {
      var i, j :| 0 <= i < j < |log + more| && (log + more)[i] == QuitBegan && (log + more)[j] == DeliveryFired;
      assert log[i] == QuitBegan && log[j] == DeliveryFired;
    }
    if DeliveredAfterQuit(log) {
      var i, j :| 0 <= i < j < |log| && log[i] == QuitBegan && log[j] == DeliveryFired;
      assert (log + more)[i] == QuitBegan && (log + more)[j] == DeliveryFired;
    }
  }

  lemma BeginKeepsStopOk(s: State, c: Coordinator, session: Session)
    requires StopOk(s) && StopOf(s) == c.stop
    ensures StopOk(BeginQuit(s, c, session))
  {
  }

  lemma QuitKeepsInv(s: State, session: Option<Session>)
    requires Inv(s)
    ensures Inv(OnQuit(s, session))
  {
    hide BeforeClose, TeardownOf, CompleteTeardown;
    if session.Some? && (s.coordinator.Some? || s.ready) {
      var c := if s.coordinator == None then Coordinator(NotBegun, NotRequested) else s.coordinator.value;
      BeginKeepsStopOk(s, c, session.value);
      DeliveredAfterQuitAppend(s.log, BeginEvents(c, session.value));
      QuietStep(s, BeginQuit(s, c, session.value), BeginEvents(c, session.value));
    }
  }

  lemma StopperKeepsInv(s: State, ok: bool)
    requires Inv(s)
    ensures Inv(OnStopperSettles(s, ok))
  {
    hide BeforeClose, TeardownOf, CompleteTeardown;
    if StopOf(s) == Pending {
      var c := s.coordinator.value;
      var t := Log(s.(coordinator := Some(c.(stop := Settled(ok)))), [AgentStopSettled(ok)]);
      DeliveredAfterQuitAppend(s.log, [AgentStopSettled(ok)]);
      if c.teardown == AfterQuit {
        QuietLog(s.log, [AgentStopSettled(ok)]);
        ShutdownStarts(t, ExitCodeOf(ok));
      } else {
        QuietStep(s, t, [AgentStopSettled(ok)]);
      }
    }
  }

  lemma DeliveryKeepsInv(s: State, session: Session)
    requires Inv(s)
    ensures Inv(OnQuitDelivered(s, session))
  {
    hide BeforeClose, TeardownOf, CompleteTeardown;
    var d := Log(s, [DeliveryFired]);
    if d.coordinator == None || d.coordinator.value.teardown != NotRequested {
      QuietStep(s, d, [DeliveryFired]);
    } else {
      FirstDeliveryKeepsInv(s, session);
    }
  }

  /** After the callback the coordinator waits for the stopper, unless the session refused to begin. */
  lemma FirstDeliveryKeepsInv(s: State, session: Session)
    requires Inv(s) && s.coordinator.Some? && s.coordinator.value.teardown == NotRequested
    ensures Inv(OnQuitDelivered(s, session))
  {
    hide BeforeClose, TeardownOf, CompleteTeardown, DeliveredAfterQuit;
    var d := Log(s, [DeliveryFired]);
    var c := d.coordinator.value;
    var more := [DeliveryFired] + BeginEvents(c, session);
    assert StopOk(d);
    BeginKeepsStopOk(d, c, session);
    var t := BeginQuit(d, c, session);
    assert t.log == s.log + more;
    if StopOf(t) == NotBegun {
      NoQuitNoDelivery(t.log);
      QuietStep(s, t, more);
    } else {
      AwaitedDeliveryKeepsInv(s, t.(coordinator := Some(t.coordinator.value.(teardown := AfterQuit))), more);
    }
  }

  lemma AwaitedDeliveryKeepsInv(s: State, u: State, more: seq<Event>)
    requires Inv(s) && StopOk(u) && u.log == s.log + more && u.teardown == s.teardown
    requires forall e :: e in more ==> !IsTeardown(e)
    requires u.coordinator.Some? && u.coordinator.value.teardown == AfterQuit && StopOf(u) != NotBegun && DeliveryFired in u.log
    ensures StopOf(u) == Pending ==> Inv(u)
    ensures StopOf(u).Settled? ==> Inv(GracefulShutdown(u, ExitCodeOf(StopOf(u).ok)))
  {
    hide BeforeClose, TeardownOf, CompleteTeardown, DeliveredAfterQuit;
    if StopOf(u) == Pending {
      QuietStep(s, u, more);
    } else {
      QuietTeardown(s, u, more);
      ShutdownStarts(u, ExitCodeOf(StopOf(u).ok));
    }
  }

  lemma QuietTeardown(s: State, t: State, more: seq<Event>)
    requires Inv(s) && t.log == s.log + more && t.teardown == s.teardown && forall e :: e in more ==> !IsTeardown(e)
    ensures TeardownOk(t)
    ensures s.teardown != NotStarted ==> BoundaryOk(t)
  {
    QuietLog(s.log, more);
    assert Exited(0) in t.log ==> Exited(0) in s.log;
  }

  lemma NoQuitNoDelivery(log: seq<Event>)
    requires QuitBegan !in log
    ensures !DeliveredAfterQuit(log)
  {
  }

  lemma ShutdownKeepsInv(s: State)
    requires Inv(s)
    ensures Inv(OnShutdown(s))
  {
    hide BeforeClose, TeardownOf, CompleteTeardown;
    if s.coordinator == None && s.ready {
      ShutdownStarts(s, 0);
    } else if s.coordinator.Some? && s.coordinator.value == Coordinator(NotBegun, NotRequested) {
      ShutdownStarts(s.(coordinator := Some(Coordinator(NotBegun, Ordinary))), 0);
    }
  }

  lemma CloseCompletes(code: nat, closed: bool, dbClosed: bool, first: Deleted, second: Deleted)
    ensures CompleteTeardown([ServerCloseStarted] + CloseEvents(code, closed, dbClosed, first, second), code)
    ensures forall e :: e in CloseEvents(code, closed, dbClosed, first, second) ==> IsTeardown(e) && e != ServerCloseStarted
  {
    var events := [ServerCloseStarted] + CloseEvents(code, closed, dbClosed, first, second);
    if !closed {
      assert events == [ServerCloseStarted, ServerClosed(false)] + ForcedEnd(first);
    } else if !dbClosed {
      assert events == [ServerCloseStarted, ServerClosed(true), DbClosed(false)] + ForcedEnd(first);
    } else if first == DeleteThrew {
      assert events == [ServerCloseStarted, ServerClosed(true), DbClosed(true), RecordRemoval(DeleteThrew)] + ForcedEnd(second);
    } else {
      assert events == [ServerCloseStarted, ServerClosed(true), DbClosed(true), RecordRemoval(first), Exited(code)];
    }
  }

  lemma TimerCompletes(deleted: Deleted, code: nat)
    ensures CompleteTeardown([ServerCloseStarted] + ([TimedOut] + ForcedEnd(deleted)), code)
  {
    assert [ServerCloseStarted] + ([TimedOut] + ForcedEnd(deleted)) == [ServerCloseStarted, TimedOut] + ForcedEnd(deleted);
  }

  lemma TeardownTurnKeepsInv(s: State, input: Input)
    requires Inv(s) && s.teardown != Ended && (input.CloseSettles? || input.TimerFires?)
    ensures Inv(Step(s, input))
  {
    hide Inv, CompleteTeardown, CloseEvents;
    if s.teardown.Closing? {
      match input {
        case TimerFires(d) =>
          TimerCompletes(d, s.teardown.exitCode);
          TeardownEnds(s, [TimedOut] + ForcedEnd(d));
        case CloseSettles(closed, dbClosed, first, second) =>
          CloseCompletes(s.teardown.exitCode, closed, dbClosed, first, second);
          TeardownEnds(s, CloseEvents(s.teardown.exitCode, closed, dbClosed, first, second));
      }
    }
  }

  lemma StepKeepsInv(s: State, input: Input)
    requires Inv(s)
    ensures Inv(Step(s, input))
  {
    if s.teardown != Ended {
      match input {
        case StartupDone => QuietStep(s, Step(s, input), []);
        case QuitRequest(session) => QuitKeepsInv(s, session);
        case StopperSettles(ok) => StopperKeepsInv(s, ok);
        case QuitDelivered(retry) => DeliveryKeepsInv(s, retry);
        case ShutdownRequest => ShutdownKeepsInv(s);
        case CloseSettles(_, _, _, _) => TeardownTurnKeepsInv(s, input);
        case TimerFires(_) => TeardownTurnKeepsInv(s, input);
      }
    }
  }

  lemma {:induction false} InvHolds(inputs: seq<Input>)
    ensures Inv(Run(inputs))
  {
    if inputs != [] {
      InvHolds(inputs[..|inputs| - 1]);
      StepKeepsInv(Run(inputs[..|inputs| - 1]), inputs[|inputs| - 1]);
    }
  }

  // ----- main results, for every sequence of inputs

  /** At most one teardown starts and it exits at most once; before any exit comes
      an attempt to remove the record; the phases keep their order. */
  lemma SingleOrderedTeardown(inputs: seq<Input>)
    ensures var events := TeardownOf(Run(inputs).log);
            events == [] || events == [ServerCloseStarted] || exists code :: CompleteTeardown(events, code)
  {
    InvHolds(inputs);
  }

  ghost predicate CleanPhases(events: seq<Event>) {
    && ServerClosed(true) in events && DbClosed(true) in events
    && TimedOut !in events && ServerClosed(false) !in events && DbClosed(false) !in events && RecordRemoval(DeleteThrew) !in events
  }

  lemma CompleteTeardownFacts(events: seq<Event>, asked: nat)
    requires CompleteTeardown(events, asked)
    ensures exists d :: RecordRemoval(d) in events
    ensures Exited(0) in events ==> CleanPhases(events)
  {
    var k := |events| - 2;
    assert events[k].RecordRemoval?;
    assert RecordRemoval(events[k].result) in events;
  }

  lemma FactsLiftToLog(log: seq<Event>)
    requires exists d :: RecordRemoval(d) in TeardownOf(log)
    requires Exited(0) in TeardownOf(log) ==> CleanPhases(TeardownOf(log))
    ensures exists d :: RecordRemoval(d) in log
    ensures Exited(0) in log ==> CleanPhases(log)
  {
    var d :| RecordRemoval(d) in TeardownOf(log);
    TeardownOfKeeps(log, RecordRemoval(d));
    forall e | e in {Exited(0), TimedOut, RecordRemoval(DeleteThrew), ServerClosed(true), ServerClosed(false), DbClosed(true), DbClosed(false)}
      ensures e in TeardownOf(log) <==> e in log
    {
      TeardownOfKeeps(log, e);
    }
  }

  /** Exit 0 means that every phase succeeded in time; any exit means a removal was attempted. */
  lemma {:induction false} ExitStatusIsHonest(inputs: seq<Input>, code: nat)
    requires Exited(code) in Run(inputs).log
    ensures exists d :: RecordRemoval(d) in Run(inputs).log
    ensures code == 0 ==> CleanPhases(Run(inputs).log)
  {
    var log := Run(inputs).log;
    SingleOrderedTeardown(inputs);
    TeardownOfKeeps(log, Exited(code));
    if asked: nat :| CompleteTeardown(TeardownOf(log), asked) {
      CompleteTeardownFacts(TeardownOf(log), asked);
      FactsLiftToLog(log);
    }
  }

  // ----- the order by position

  function Rank(e: Event): nat {
    match e
    case ServerCloseStarted => 1
    case ServerClosed(_) => 2
    case TimedOut => 2
    case DbClosed(_) => 3
    case RecordRemoval(_) => 4
    case Exited(_) => 5
    case _ => 0
  }

  /** Where a teardown event of the log stands among the teardown events. */
  lemma PlaceInTeardown(log: seq<Event>, i: nat)
    requires i < |log| && IsTeardown(log[i])
    ensures |TeardownOf(log[..i])| < |TeardownOf(log)| && TeardownOf(log)[|TeardownOf(log[..i])|] == log[i]
    ensures |TeardownOf(log[..i + 1])| == |TeardownOf(log[..i])| + 1
  {
    assert log == log[..i] + log[i..] && log[..i + 1] == log[..i] + [log[i]];
    TeardownOfAppend(log[..i], log[i..]);
    TeardownOfAppend(log[..i], [log[i]]);
  }

  lemma PlacesGrow(log: seq<Event>, i: nat, j: nat)
    requires i <= j <= |log|
    ensures |TeardownOf(log[..i])| <= |TeardownOf(log[..j])|
  {
    assert log[..j] == log[..i] + log[i..j];
    TeardownOfAppend(log[..i], log[i..j]);
  }

  lemma CompleteIsRanked(events: seq<Event>, code: nat, i: nat, j: nat)
    requires CompleteTeardown(events, code) && i < j < |events|
    ensures Rank(events[i]) < Rank(events[j]) || (events[i] == RecordRemoval(DeleteThrew) && events[j].RecordRemoval?)
    ensures events[j].Exited? ==> j == |events| - 1 && events[j - 1].RecordRemoval?
  {
  }

  /** In every log the server close stands before the database close, this before the
      record removal, and this before the exit. No teardown event repeats, except that
      a removal that threw is tried once more. */
  lemma TeardownStepsInOrder(inputs: seq<Input>, i: nat, j: nat)
    requires i < j < |Run(inputs).log| && IsTeardown(Run(inputs).log[i]) && IsTeardown(Run(inputs).log[j])
    ensures var log := Run(inputs).log;
            Rank(log[i]) < Rank(log[j]) || (log[i] == RecordRemoval(DeleteThrew) && log[j].RecordRemoval?)
  {
    var log := Run(inputs).log;
    SingleOrderedTeardown(inputs);
    PlaceInTeardown(log, i);
    PlaceInTeardown(log, j);
    PlacesGrow(log, i + 1, j);
    if code :| CompleteTeardown(TeardownOf(log), code) {
      CompleteIsRanked(TeardownOf(log), code, |TeardownOf(log[..i])|, |TeardownOf(log[..j])|);
    }
  }

  lemma {:induction false} EndedAtExit(inputs: seq<Input>)
    ensures Run(inputs).teardown == Ended ==> Run(inputs).log != [] && Run(inputs).log[|Run(inputs).log| - 1].Exited?
  {
    hide Inv;
    if inputs != [] { EndedAtExit(inputs[..|inputs| - 1]); }
  }

  lemma ExitedMeansEnded(inputs: seq<Input>, code: nat)
    requires Exited(code) in Run(inputs).log
    ensures Run(inputs).teardown == Ended
  {
    InvHolds(inputs);
    TeardownOfKeeps(Run(inputs).log, Exited(code));
  }

  /** Nothing at all follows the exit, so there is one, and a removal was attempted before it. */
  lemma ExitComesLast(inputs: seq<Input>, j: nat)
    requires j < |Run(inputs).log| && Run(inputs).log[j].Exited?
    ensures j == |Run(inputs).log| - 1
    ensures exists i :: 0 <= i < j && Run(inputs).log[i].RecordRemoval?
  {
    hide Run, CleanPhases;
    var log := Run(inputs).log;
    assert Exited(log[j].code) in log;
    ExitedMeansEnded(inputs, log[j].code);
    EndedAtExit(inputs);
    if j < |log| - 1 { TeardownStepsInOrder(inputs, j, |log| - 1); }
    ExitStatusIsHonest(inputs, log[j].code);
    var d :| RecordRemoval(d) in log;
    var i :| 0 <= i < |log| && log[i] == RecordRemoval(d);
  }

  /** If a quit began before any teardown, the socket is closed only after the
      agent stop settled and a response was delivered, and exit 0 then implies
      that the agent stop was confirmed. */
  lemma QuitResponseComesFirst(inputs: seq<Input>)
    requires QuitBegan in BeforeClose(Run(inputs).log) && ServerCloseStarted in Run(inputs).log
    ensures DeliveryFired in BeforeClose(Run(inputs).log)
    ensures AgentStopSettled(true) in BeforeClose(Run(inputs).log) || AgentStopSettled(false) in BeforeClose(Run(inputs).log)
    ensures Exited(0) in Run(inputs).log ==> AgentStopSettled(true) in BeforeClose(Run(inputs).log)
  {
    InvHolds(inputs);
  }

  /** Nor does the boundary block the quit: a settled stop and a response delivered
      after the quit began have started the teardown. */
  lemma DeliveredQuitTearsDown(inputs: seq<Input>, ok: bool)
    requires DeliveredAfterQuit(Run(inputs).log) && AgentStopSettled(ok) in Run(inputs).log
    ensures ServerCloseStarted in Run(inputs).log
  {
    InvHolds(inputs);
  }

  /** Before startup has completed, requests are refused and nothing begins. */
  lemma {:induction false} NothingBeforeStartup(inputs: seq<Input>)
    ensures Run(inputs).ready ==> StartupDone in inputs
    ensures !Run(inputs).ready ==>
      Run(inputs).coordinator == None && Run(inputs).teardown == NotStarted && forall e :: e in Run(inputs).log ==> e == DeliveryFired
  {
    if inputs != [] {
      NothingBeforeStartup(inputs[..|inputs| - 1]);
    }
  }

  lemma {:induction false} StartupCompletes(inputs: seq<Input>)
    requires StartupDone in inputs
    ensures Run(inputs).ready
  {
    var before, last := inputs[..|inputs| - 1], inputs[|inputs| - 1];
    assert inputs == before + [last];
    if StartupDone in before { StartupCompletes(before); } else { NothingBeforeStartup(before); }
  }

  /** After startup a stop request or signal has its teardown, unless a quit has begun and will have it. */
  lemma ShutdownRequestIsHonoured(inputs: seq<Input>)
    requires StartupDone in inputs
    ensures var log := Run(inputs + [ShutdownRequest]).log; ServerCloseStarted in log || QuitBegan in log
  {
    StartupCompletes(inputs);
    assert (inputs + [ShutdownRequest])[..|inputs|] == inputs;
    InvHolds(inputs + [ShutdownRequest]);
    InvHolds(inputs);
  }

  /** A started teardown ends the process as soon as the close settles or the timer fires. */
  lemma TeardownAlwaysExits(inputs: seq<Input>, last: Input)
    requires ServerCloseStarted in Run(inputs).log && (last.CloseSettles? || last.TimerFires?)
    ensures Run(inputs + [last]).teardown == Ended
    ensures exists code :: CompleteTeardown(TeardownOf(Run(inputs + [last]).log), code)
  {
    assert (inputs + [last])[..|inputs|] == inputs;
    InvHolds(inputs + [last]);
    InvHolds(inputs);
  }

  // ----- what decides the exit

  ghost predicate HasExited(log: seq<Event>) {
    exists code :: Exited(code) in log
  }

  lemma {:induction false} EndedHasExited(inputs: seq<Input>)
    ensures Run(inputs).teardown == Ended ==> HasExited(Run(inputs).log)
  {
    EndedAtExit(inputs);
    var log := Run(inputs).log;
    if Run(inputs).teardown == Ended { assert Exited(log[|log| - 1].code) in log; }
  }

  lemma {:induction false} TeardownIsOpen(inputs: seq<Input>)
    requires ServerCloseStarted in Run(inputs).log && !HasExited(Run(inputs).log)
    ensures Run(inputs).teardown.Closing? && TeardownOf(Run(inputs).log) == [ServerCloseStarted]
  {
    InvHolds(inputs);
    EndedHasExited(inputs);
  }

  lemma {:induction false} NotExitedIsNotEnded(inputs: seq<Input>)
    requires !HasExited(Run(inputs).log)
    ensures Run(inputs).teardown != Ended
  {
    EndedHasExited(inputs);
  }

  /** A teardown that no quit came before was asked to exit with 0. */
  ghost predicate PlainIsClean(s: State) {
    s.teardown.Closing? && QuitBegan !in BeforeClose(s.log) ==> s.teardown.exitCode == 0
  }

  lemma {:induction false} PlainStart(s: State, code: nat)
    requires PlainIsClean(s) && (s.teardown == NotStarted ==> ServerCloseStarted !in s.log && (code == 0 || QuitBegan in s.log))
    ensures PlainIsClean(GracefulShutdown(s, code))
  {
    if s.teardown == NotStarted { BeforeCloseAppend(s.log, [ServerCloseStarted]); }
  }

  lemma {:induction false} PlainQuiet(s: State, t: State, more: seq<Event>)
    requires PlainIsClean(s) && TeardownOk(s) && t.log == s.log + more && t.teardown == s.teardown && forall e :: e in more ==> !IsTeardown(e)
    ensures PlainIsClean(t)
  {
    QuietLog(s.log, more);
  }

  lemma {:induction false} PlainStep(s: State, input: Input)
    requires Inv(s) && PlainIsClean(s)
    ensures PlainIsClean(Step(s, input))
  {
    hide BeforeClose, PromisesOk, BoundaryOk, CompleteTeardown, PlainIsClean;
    if s.teardown == Ended || input.StartupDone? || input.CloseSettles? || input.TimerFires? {
      PlainUnasked(s, input);
    } else {
      match input {
        case QuitRequest(session) => PlainQuit(s, session);
        case StopperSettles(ok) => PlainStopper(s, ok);
        case QuitDelivered(retry) => PlainDelivery(s, retry);
        case ShutdownRequest =>
          if s.coordinator == None { if s.ready { PlainStart(s, 0); } }
          else if s.coordinator.value == Coordinator(NotBegun, NotRequested) {
            var t := s.(coordinator := Some(Coordinator(NotBegun, Ordinary)));
            PlainQuiet(s, t, []);
            PlainStart(t, 0);
          }
      }
    }
  }

  lemma {:induction false} PlainUnasked(s: State, input: Input)
    requires PlainIsClean(s) && (s.teardown == Ended || input.StartupDone? || input.CloseSettles? || input.TimerFires?)
    ensures PlainIsClean(Step(s, input))
  {
    hide BeforeClose;
  }

  lemma {:induction false} PlainQuit(s: State, session: Option<Session>)
    requires Inv(s) && PlainIsClean(s)
    ensures PlainIsClean(OnQuit(s, session))
  {
    hide BeforeClose, PromisesOk, BoundaryOk, CompleteTeardown, PlainIsClean;
    if session.Some? && (s.coordinator.Some? || s.ready) {
      var c := if s.coordinator == None then Coordinator(NotBegun, NotRequested) else s.coordinator.value;
      PlainQuiet(s, BeginQuit(s, c, session.value), BeginEvents(c, session.value));
    }
  }

  lemma {:induction false} PlainStopper(s: State, ok: bool)
    requires Inv(s) && PlainIsClean(s)
    ensures PlainIsClean(OnStopperSettles(s, ok))
  {
    hide BeforeClose, PromisesOk, BoundaryOk, CompleteTeardown, PlainIsClean;
    if StopOf(s) == Pending {
      var t := Log(s.(coordinator := Some(s.coordinator.value.(stop := Settled(ok)))), [AgentStopSettled(ok)]);
      PlainQuiet(s, t, [AgentStopSettled(ok)]);
      PlainStart(t, ExitCodeOf(ok));
    }
  }

  lemma {:induction false} PlainDelivery(s: State, session: Session)
    requires Inv(s) && PlainIsClean(s)
    ensures PlainIsClean(OnQuitDelivered(s, session))
  {
    hide BeforeClose, PromisesOk, BoundaryOk, CompleteTeardown, PlainIsClean;
    var d := Log(s, [DeliveryFired]);
    PlainQuiet(s, d, [DeliveryFired]);
    if d.coordinator.Some? && d.coordinator.value.teardown == NotRequested {
      var c := d.coordinator.value;
      var more := [DeliveryFired] + BeginEvents(c, session);
      BeginKeepsStopOk(d, c, session);
      var t := BeginQuit(d, c, session);
      assert t.log == s.log + more;
      PlainQuiet(s, t, more);
      if StopOf(t) != NotBegun { PlainAfterQuit(s, t.(coordinator := Some(t.coordinator.value.(teardown := AfterQuit))), more); }
    }
  }

  lemma {:induction false} PlainAfterQuit(s: State, u: State, more: seq<Event>)
    requires Inv(s) && PlainIsClean(s) && StopOk(u) && StopOf(u) != NotBegun
    requires u.log == s.log + more && u.teardown == s.teardown && forall e :: e in more ==> !IsTeardown(e)
    ensures PlainIsClean(u)
    ensures StopOf(u).Settled? ==> PlainIsClean(GracefulShutdown(u, ExitCodeOf(StopOf(u).ok)))
  {
    hide BeforeClose, PromisesOk, BoundaryOk, CompleteTeardown, PlainIsClean;
    PlainQuiet(s, u, more);
    if StopOf(u).Settled? { PlainStart(u, ExitCodeOf(StopOf(u).ok)); }
  }

  lemma {:induction false} PlainHolds(inputs: seq<Input>)
    ensures PlainIsClean(Run(inputs))
  {
    if inputs != [] {
      PlainHolds(inputs[..|inputs| - 1]);
      InvHolds(inputs[..|inputs| - 1]);
      PlainStep(Run(inputs[..|inputs| - 1]), inputs[|inputs| - 1]);
    }
  }

  /** What the open teardown was asked to exit with. */
  lemma {:induction false} AskedFor(inputs: seq<Input>)
    requires ServerCloseStarted in Run(inputs).log && !HasExited(Run(inputs).log)
    ensures Run(inputs).teardown ==
      Closing(if QuitBegan in BeforeClose(Run(inputs).log) && AgentStopSettled(true) !in BeforeClose(Run(inputs).log) then 1 else 0)
  {
    TeardownIsOpen(inputs);
    InvHolds(inputs);
    PlainHolds(inputs);
    forall ok | AgentStopSettled(ok) in BeforeClose(Run(inputs).log) ensures StopOf(Run(inputs)) == Settled(ok) {
      BeforeCloseIsPrefix(Run(inputs).log, AgentStopSettled(ok));
    }
  }

  lemma {:induction false} BeforeCloseIsPrefix(log: seq<Event>, e: Event)
    requires e in BeforeClose(log)
    ensures e in log
  {
    if log[0] != e { BeforeCloseIsPrefix(log[1..], e); }
  }

  /** The last turn of a teardown adds these events and no others of the teardown. */
  lemma {:induction false} LastTurnAdds(inputs: seq<Input>, last: Input, more: seq<Event>)
    requires ServerCloseStarted in Run(inputs).log && !HasExited(Run(inputs).log)
    requires Run(inputs + [last]).log == Run(inputs).log + more && forall e :: e in more ==> IsTeardown(e)
    ensures BeforeClose(Run(inputs + [last]).log) == BeforeClose(Run(inputs).log)
    ensures forall e :: IsTeardown(e) ==> (e in Run(inputs + [last]).log <==> e == ServerCloseStarted || e in more)
  {
    TeardownIsOpen(inputs);
    BeforeCloseAppend(Run(inputs).log, more);
    forall e | IsTeardown(e) ensures e in Run(inputs).log <==> e == ServerCloseStarted { TeardownOfKeeps(Run(inputs).log, e); }
  }

  lemma {:induction false} LastTurn(inputs: seq<Input>, last: Input)
    requires Run(inputs).teardown.Closing?
    ensures last.TimerFires? ==> Run(inputs + [last]).log == Run(inputs).log + [TimedOut, RecordRemoval(last.deleted), Exited(1)]
    ensures last.CloseSettles? ==>
      Run(inputs + [last]).log == Run(inputs).log + CloseEvents(Run(inputs).teardown.exitCode, last.closed, last.dbClosed, last.first, last.second)
  {
    assert (inputs + [last])[..|inputs|] == inputs;
    if last.TimerFires? { assert [TimedOut] + ForcedEnd(last.deleted) == [TimedOut, RecordRemoval(last.deleted), Exited(1)]; }
  }

  lemma {:induction false} WhichAreTeardown()
    ensures IsTeardown(TimedOut) && IsTeardown(ServerCloseStarted) && forall code :: IsTeardown(Exited(code))
    ensures forall ok :: IsTeardown(ServerClosed(ok)) && IsTeardown(DbClosed(ok))
    ensures forall d :: IsTeardown(RecordRemoval(d))
  {
  }

  lemma {:induction false} CloseReports(exitCode: nat, closed: bool, dbClosed: bool, first: Deleted, second: Deleted)
    ensures var events := CloseEvents(exitCode, closed, dbClosed, first, second);
            && (forall code :: Exited(code) in events <==> code == if closed && dbClosed && first != DeleteThrew then exitCode else 1)
            && (forall ok :: ServerClosed(ok) in events <==> ok == closed)
            && (forall ok :: DbClosed(ok) in events <==> closed && ok == dbClosed)
            && (forall d :: RecordRemoval(d) in events <==> d == first || (closed && dbClosed && first == DeleteThrew && d == second))
            && TimedOut !in events && ServerCloseStarted !in events && forall e :: e in events ==> IsTeardown(e)
  {
    var events := CloseEvents(exitCode, closed, dbClosed, first, second);
    if !closed {
      assert events == [ServerClosed(false), RecordRemoval(first), Exited(1)];
    } else if !dbClosed {
      assert events == [ServerClosed(true), DbClosed(false), RecordRemoval(first), Exited(1)];
    } else if first == DeleteThrew {
      assert events == [ServerClosed(true), DbClosed(true), RecordRemoval(first), RecordRemoval(second), Exited(1)];
    } else {
      assert events == [ServerClosed(true), DbClosed(true), RecordRemoval(first), Exited(exitCode)];
    }
  }

  lemma {:induction false} TimerReports(deleted: Deleted)
    ensures var events := [TimedOut, RecordRemoval(deleted), Exited(1)];
            && TimedOut in events && (forall code :: Exited(code) in events <==> code == 1)
            && (forall ok :: ServerClosed(ok) !in events && DbClosed(ok) !in events)
            && (forall d :: RecordRemoval(d) in events <==> d == deleted)
            && forall e :: e in events ==> IsTeardown(e)
  {
  }

  /** What the close turn reports, phase by phase, and the exit status: 0 exactly when every
      phase succeeded and a quit that came before the teardown had its agent stop confirmed. */
  lemma {:induction false} CloseDecidesExit(inputs: seq<Input>, closed: bool, dbClosed: bool, first: Deleted, second: Deleted)
    requires ServerCloseStarted in Run(inputs).log && !HasExited(Run(inputs).log)
    ensures var log := Run(inputs + [CloseSettles(closed, dbClosed, first, second)]).log;
            var clean := closed && dbClosed && first != DeleteThrew;
            var confirmed := QuitBegan in BeforeClose(log) ==> AgentStopSettled(true) in BeforeClose(log);
            && (forall code :: Exited(code) in log <==> code == if clean && confirmed then 0 else 1)
            && (forall ok :: ServerClosed(ok) in log <==> ok == closed)
            && (forall ok :: DbClosed(ok) in log <==> closed && ok == dbClosed)
            && (forall d :: RecordRemoval(d) in log <==> d == first || (closed && dbClosed && first == DeleteThrew && d == second))
            && TimedOut !in log
  {
    hide *;
    var last := CloseSettles(closed, dbClosed, first, second);
    WhichAreTeardown();
    AskedFor(inputs);
    var code := Run(inputs).teardown.exitCode;
    LastTurn(inputs, last);
    CloseReports(code, closed, dbClosed, first, second);
    LastTurnAdds(inputs, last, CloseEvents(code, closed, dbClosed, first, second));
  }

  /** A timeout exits with 1, after one removal attempt and whatever the phases were. */
  lemma {:induction false} TimerDecidesExit(inputs: seq<Input>, deleted: Deleted)
    requires ServerCloseStarted in Run(inputs).log && !HasExited(Run(inputs).log)
    ensures var log := Run(inputs + [TimerFires(deleted)]).log;
            && (forall code :: Exited(code) in log <==> code == 1)
            && (forall ok :: ServerClosed(ok) !in log && DbClosed(ok) !in log)
            && (forall d :: RecordRemoval(d) in log <==> d == deleted)
            && TimedOut in log
  {
    TeardownIsOpen(inputs);
    hide *;
    WhichAreTeardown();
    LastTurn(inputs, TimerFires(deleted));
    TimerReports(deleted);
    LastTurnAdds(inputs, TimerFires(deleted), [TimedOut, RecordRemoval(deleted), Exited(1)]);
  }

  // ----- what the log owes to the turns

  /** A turn in which the session may begin the quit, and how it then answers. */
  predicate MayBegin(input: Input, session: Session) {
    input == QuitRequest(Some(session)) || input == QuitDelivered(session)
  }

  ghost predicate BeginAsked(inputs: seq<Input>, sessions: set<Session>) {
    exists i, session :: 0 <= i < |inputs| && session in sessions && MayBegin(inputs[i], session)
  }

  lemma {:induction false} BeginAskedLater(inputs: seq<Input>, sessions: set<Session>)
    requires inputs != []
    ensures BeginAsked(inputs[..|inputs| - 1], sessions) ==> BeginAsked(inputs, sessions)
    ensures forall session :: session in sessions && MayBegin(inputs[|inputs| - 1], session) ==> BeginAsked(inputs, sessions)
  {
    var before := inputs[..|inputs| - 1];
    if BeginAsked(before, sessions) {
      var i, session :| 0 <= i < |before| && session in sessions && MayBegin(before[i], session);
      assert MayBegin(inputs[i], session);
    }
  }

  lemma {:induction false} EventsOfStep(s: State, input: Input)
    requires Inv(s)
    ensures forall e :: e in Step(s, input).log ==>
      || e in s.log
      || IsTeardown(e)
      || (e == QuitBegan && (MayBegin(input, StopThrows) || MayBegin(input, StopPending)))
      || (e == AgentStopSettled(false) && MayBegin(input, StopThrows))
      || (e.AgentStopSettled? && input == StopperSettles(e.ok))
      || (e == DeliveryFired && input.QuitDelivered?)
  {
    hide Inv, BeforeClose, TeardownOf, CloseEvents, OnQuit, OnStopperSettles, OnQuitDelivered, OnShutdown;
    match input {
      case QuitRequest(session) => EventsOfQuit(s, session);
      case StopperSettles(ok) => EventsOfStopper(s, ok);
      case QuitDelivered(retry) => EventsOfDelivery(s, retry);
      case ShutdownRequest => EventsOfShutdown(s);
      case CloseSettles(closed, dbClosed, first, second) =>
        if s.teardown.Closing? { CloseReports(s.teardown.exitCode, closed, dbClosed, first, second); }
      case _ =>
    }
  }

  lemma {:induction false} EventsOfQuit(s: State, session: Option<Session>)
    ensures forall e :: e in OnQuit(s, session).log ==>
      || e in s.log || (e == QuitBegan && session in {Some(StopThrows), Some(StopPending)}) || (e == AgentStopSettled(false) && session == Some(StopThrows))
  {
  }

  lemma {:induction false} EventsOfStopper(s: State, ok: bool)
    ensures forall e :: e in OnStopperSettles(s, ok).log ==> e in s.log || IsTeardown(e) || e == AgentStopSettled(ok)
  {
  }

  lemma {:induction false} EventsOfShutdown(s: State)
    ensures forall e :: e in OnShutdown(s).log ==> e in s.log || IsTeardown(e)
  {
  }

  lemma {:induction false} EventsOfDelivery(s: State, retry: Session)
    ensures forall e :: e in OnQuitDelivered(s, retry).log ==>
      || e in s.log || IsTeardown(e) || e == DeliveryFired
      || (e == QuitBegan && retry in {StopThrows, StopPending}) || (e == AgentStopSettled(false) && retry == StopThrows)
  {
  }

  /** Nothing is logged of its own accord: a quit begins only at a request or callback whose
      session does not throw at once, and the stop settles as the stopper or that session did. */
  lemma {:induction false} LogIsAskedFor(inputs: seq<Input>)
    ensures QuitBegan in Run(inputs).log ==> BeginAsked(inputs, {StopThrows, StopPending})
    ensures AgentStopSettled(true) in Run(inputs).log ==> StopperSettles(true) in inputs
    ensures AgentStopSettled(false) in Run(inputs).log ==> StopperSettles(false) in inputs || BeginAsked(inputs, {StopThrows})
    ensures DeliveryFired in Run(inputs).log ==> exists i :: 0 <= i < |inputs| && inputs[i].QuitDelivered?
  {
    if inputs != [] {
      var before, last := inputs[..|inputs| - 1], inputs[|inputs| - 1];
      LogIsAskedFor(before);
      InvHolds(before);
      EventsOfStep(Run(before), last);
      assert inputs == before + [last];
      BeginAskedLater(inputs, {StopThrows, StopPending});
      BeginAskedLater(inputs, {StopThrows});
      hide Step, MayBegin, BeginAsked;
    }
  }

  /** After startup a quit request begins the quit unless the session throws at once, and a
      stopper that throws settles the stop as failed. */
  lemma {:induction false} QuitRequestIsHonoured(inputs: seq<Input>, session: Session)
    requires StartupDone in inputs && !HasExited(Run(inputs).log) && session != BeginThrows
    ensures var before, log := Run(inputs).log, Run(inputs + [QuitRequest(Some(session))]).log;
            && QuitBegan in log
            && (QuitBegan !in before ==> (AgentStopSettled(false) in log <==> session == StopThrows) && AgentStopSettled(true) !in log)
  {
    StartupCompletes(inputs);
    NotExitedIsNotEnded(inputs);
    InvHolds(inputs);
    assert (inputs + [QuitRequest(Some(session))])[..|inputs|] == inputs;
    hide BeforeClose, TeardownOf, BoundaryOk, PromisesOk;
  }

  /** The stop of a begun quit settles as its stopper does, once. */
  lemma {:induction false} StopperDecides(inputs: seq<Input>, ok: bool)
    requires QuitBegan in Run(inputs).log && !HasExited(Run(inputs).log)
    requires AgentStopSettled(true) !in Run(inputs).log && AgentStopSettled(false) !in Run(inputs).log
    ensures var log := Run(inputs + [StopperSettles(ok)]).log; AgentStopSettled(ok) in log && AgentStopSettled(!ok) !in log
  {
    NotExitedIsNotEnded(inputs);
    InvHolds(inputs);
    assert (inputs + [StopperSettles(ok)])[..|inputs|] == inputs;
    assert StopOf(Run(inputs)) == Pending;
    hide BeforeClose, TeardownOf, BoundaryOk, PromisesOk;
  }

  /** A quit that the session refused to begin is begun by the delivery, if nothing else came between. */
  lemma {:induction false} DeliveryRetriesTheQuit(inputs: seq<Input>, session: Session, retry: Session)
    requires StartupDone in inputs && ServerCloseStarted !in Run(inputs).log && retry != BeginThrows
    ensures QuitBegan in Run(inputs + [QuitRequest(Some(session)), QuitDelivered(retry)]).log
  {
    var asked := inputs + [QuitRequest(Some(session))];
    var both := inputs + [QuitRequest(Some(session)), QuitDelivered(retry)];
    assert asked[..|inputs|] == inputs && both[..|asked|] == asked;
    StartupCompletes(inputs);
    InvHolds(inputs);
    InvHolds(asked);
    InvHolds(both);
    AskedHasCoordinator(Run(inputs), session);
    hide Inv, OnQuit, OnQuitDelivered;
    RetryBegins(Run(asked), retry);
  }

  lemma {:induction false} AskedHasCoordinator(s: State, session: Session)
    requires TeardownOk(s) && ServerCloseStarted !in s.log && s.ready
    ensures Step(s, QuitRequest(Some(session))).coordinator.Some? && Step(s, QuitRequest(Some(session))).teardown == NotStarted
  {
    hide TeardownOf, CompleteTeardown;
  }

  lemma {:induction false} RetryBegins(s: State, retry: Session)
    requires Inv(s) && s.coordinator.Some? && s.teardown == NotStarted && retry != BeginThrows
    ensures QuitBegan in Step(s, QuitDelivered(retry)).log
  {
    hide BeforeClose, TeardownOf, BoundaryOk, CompleteTeardown;
  }

  /** A delivered response is noticed. */
  lemma {:induction false} DeliveryIsNoticed(inputs: seq<Input>, retry: Session)
    requires !HasExited(Run(inputs).log)
    ensures DeliveryFired in Run(inputs + [QuitDelivered(retry)]).log
  {
    NotExitedIsNotEnded(inputs);
    assert (inputs + [QuitDelivered(retry)])[..|inputs|] == inputs;
  }

  // ----- the stateful form

  class QuitLifecycle {
    var ready: bool
    var coordinator: Option<Coordinator>
    var teardown: Teardown
    var log: seq<Event>

    ghost function Value(): State
      reads this
    {
      State(ready, coordinator, teardown, log)
    }

    constructor ()
      ensures Value() == Run([])
    {
      ready, coordinator, teardown, log := false, None, NotStarted, [];
    }

    method Graceful(exitCode: nat)
      modifies this
      ensures Value() == GracefulShutdown(old(Value()), exitCode)
    {
      if teardown != NotStarted { return; }
      teardown := Closing(exitCode);
      log := log + [ServerCloseStarted];
    }

    /** The coordinator's own `beginQuit`, on an existing coordinator. */
    method Begin(session: Session)
      requires coordinator.Some?
      modifies this
      ensures Value() == BeginQuit(old(Value()), old(coordinator.value), session)
    {
      if coordinator.value.stop != NotBegun || session == BeginThrows { return; }
      log := log + [QuitBegan];
      var promise := Pending;
      if session == StopThrows {
        promise := Settled(false);
        log := log + [AgentStopSettled(false)];
      }
      coordinator := Some(coordinator.value.(stop := promise));
    }

    method Quit(session: Option<Session>)
      modifies this
      ensures Value() == OnQuit(old(Value()), session)
    {
      if session == None { return; }
      if coordinator == None {
        if !ready { return; }
        coordinator := Some(Coordinator(NotBegun, NotRequested));
      }
      Begin(session.value);
    }

    method StopperSettled(ok: bool)
      modifies this
      ensures Value() == OnStopperSettles(old(Value()), ok)
    {
      if coordinator == None || coordinator.value.stop != Pending { return; }
      coordinator := Some(coordinator.value.(stop := Settled(ok)));
      log := log + [AgentStopSettled(ok)];
      if coordinator.value.teardown == AfterQuit { Graceful(ExitCodeOf(ok)); }
    }

    method Delivered(session: Session)
      modifies this
      ensures Value() == OnQuitDelivered(old(Value()), session)
    {
      log := log + [DeliveryFired];
      if coordinator == None || coordinator.value.teardown != NotRequested { return; }
      Begin(session);
      if coordinator.value.stop == NotBegun { return; }
      coordinator := Some(coordinator.value.(teardown := AfterQuit));
      if coordinator.value.stop.Settled? { Graceful(ExitCodeOf(coordinator.value.stop.ok)); }
    }

    method Shutdown()
      modifies this
      ensures Value() == OnShutdown(old(Value()))
    {
      if coordinator == None {
        if ready { Graceful(0); }
      } else if coordinator.value.stop == NotBegun && coordinator.value.teardown == NotRequested {
        coordinator := Some(coordinator.value.(teardown := Ordinary));
        Graceful(0);
      }
    }

    /** The async body of `runGracefulShutdown` once `server.close` has settled. */
    method CloseSettled(closed: bool, dbClosed: bool, first: Deleted, second: Deleted)
      modifies this
      ensures Value() == OnCloseSettles(old(Value()), closed, dbClosed, first, second)
    {
      if !teardown.Closing? { return; }
      var exitCode, failed, retry := teardown.exitCode, true, first;
      teardown := Ended;
      log := log + [ServerClosed(closed)];
      if closed {
        log := log + [DbClosed(dbClosed)];
        if dbClosed {
          log := log + [RecordRemoval(first)];
          failed, retry := first == DeleteThrew, second;
        }
      }
      log := log + if failed then [RecordRemoval(retry), Exited(1)] else [Exited(exitCode)];
    }

    method TimerFired(deleted: Deleted)
      modifies this
      ensures Value() == OnTimer(old(Value()), deleted)
    {
      if !teardown.Closing? { return; }
      teardown := Ended;
      log := log + [TimedOut, RecordRemoval(deleted), Exited(1)];
    }

    /** One turn of the event loop. */
    method Turn(input: Input)
      modifies this
      ensures Value() == Step(old(Value()), input)
    {
      if teardown == Ended { return; }
      match input {
        case StartupDone => ready := true;
        case QuitRequest(session) => Quit(session);
        case StopperSettles(ok) => StopperSettled(ok);
        case QuitDelivered(retry) => Delivered(retry);
        case ShutdownRequest => Shutdown();
        case CloseSettles(closed, dbClosed, first, second) => CloseSettled(closed, dbClosed, first, second);
        case TimerFires(deleted) => TimerFired(deleted);
      }
    }
  }

  /** The lifecycle object driven by a whole sequence of turns. */
  method Drive(inputs: seq<Input>) returns (log: seq<Event>)
    ensures log == Run(inputs).log
  {
    var lifecycle := new QuitLifecycle();
    for i := 0 to |inputs|
      invariant lifecycle.Value() == Run(inputs[..i])
    {
      lifecycle.Turn(inputs[i]);
      assert inputs[..i + 1][..i] == inputs[..i];
    }
    assert inputs[..|inputs|] == inputs;
    log := lifecycle.log;
  }
}
