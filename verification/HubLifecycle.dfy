/**
 Any number of hub processes sharing one state directory
 (packages/hub/src/hub-startup.ts, hub-lock.ts, shutdown.ts and the record
 functions of cli.ts).

 A hub process has two tasks: `startHub` with its catch block, and the graceful
 shutdown. Their steps interleave with each other, with the steps of every
 other hub, and with crashes. `deleteRuntime` reads the record in one step and
 removes the file in another; removing deletes whatever is there by then. The
 process runs no other code between the two, but other processes do. The record
 may be unreadable, and removing it may fail.
 */
module HubLifecycle {
  import opened Prelude
  import opened RuntimeRecord
  import opened QuitObserver

  type Id = nat  // a hub process

  datatype StartupPc =
    | Boot | HasLock | DbOpen | Serving | Publishing | Up
    | CatchClose | CatchDb | CatchRecord | Thrown

  datatype ShutdownPc = Idle | AwaitClose | CloseDb | DeleteRecord | Forced | ExitNow

  datatype Task = StartupTask | ShutdownTask

  /** A `deleteRuntime` call between its read and its removal. */
  datatype Deletion = Deletion(task: Task, matched: bool)

  datatype Hub = Hub(
    pid: nat, alive: bool, locked: bool, db: bool, listening: bool,
    startup: StartupPc, shutdown: ShutdownPc,
    runtime: Option<RuntimeInfo>, published: bool,
    deleting: Option<Deletion>)

  datatype State = State(hubs: map<Id, Hub>, lock: Option<Id>, record: RecordFile, used: set<string>)

  datatype Action =
    | Start(h: Id, pid: nat)
    | Acquire(h: Id)
    | OpenDb(h: Id)
    | Listen(h: Id)
    | BeginPublish(h: Id, info: RuntimeInfo)
    | Rename(h: Id)
    | Throw(h: Id)
    | CatchCloseServer(h: Id, ok: bool)
    | CatchCloseDb(h: Id, ok: bool)
    | CatchSkipRecord(h: Id)
    | CatchReadRecord(h: Id, readable: bool)
    | RequestShutdown(h: Id)
    | ShutCloseServer(h: Id, ok: bool)
    | ShutCloseDb(h: Id, ok: bool)
    | ShutTimeout(h: Id)
    | ShutReadRecord(h: Id, readable: bool)
    | Remove(h: Id)
    | RemoveFails(h: Id)
    | Exit(h: Id)
    | Crash(h: Id)
    | Cleanup            // a CLI caller removes the record of a dead pid

  function NewHub(pid: nat): Hub {
    Hub(pid, true, false, false, false, Boot, Idle, None, false, None)
  }

  /** The fresh read of `deleteRuntime`. */
  predicate ReadMatches(expected: RuntimeInfo, current: RecordFile) {
    current.Present? && RuntimeMatches(expected, current.runtime)
  }

  ghost predicate PidAlive(s: State, pid: nat) {
    exists h :: h in s.hubs && s.hubs[h].alive && s.hubs[h].pid == pid
  }

  ghost predicate Free(s: State, h: Id) {
    h in s.hubs && s.hubs[h].alive && s.hubs[h].deleting == None
  }

  ghost predicate Enabled(s: State, a: Action) {
    match a
    case Start(h, pid) => h !in s.hubs && forall g :: g in s.hubs && s.hubs[g].alive ==> s.hubs[g].pid != pid
    case Acquire(h) => Free(s, h) && s.hubs[h].startup == Boot
    case OpenDb(h) => Free(s, h) && s.hubs[h].startup == HasLock
    case Listen(h) => Free(s, h) && s.hubs[h].startup == DbOpen
    case BeginPublish(h, info) =>
      // a random instanceId is never one that was used before
      && Free(s, h) && s.hubs[h].startup == Serving
      && info.pid == s.hubs[h].pid && info.instanceId.Some? && info.instanceId.value !in s.used
    case Rename(h) => Free(s, h) && s.hubs[h].startup == Publishing && s.hubs[h].runtime.Some?
    case Throw(h) => Free(s, h) && s.hubs[h].startup in {Boot, HasLock, DbOpen, Serving, Publishing, Up}
    case CatchCloseServer(h, _) => Free(s, h) && s.hubs[h].startup == CatchClose
    case CatchCloseDb(h, _) => Free(s, h) && s.hubs[h].startup == CatchDb
    case CatchSkipRecord(h) => Free(s, h) && s.hubs[h].startup == CatchRecord && !s.hubs[h].published
    case CatchReadRecord(h, _) =>
      Free(s, h) && s.hubs[h].startup == CatchRecord && s.hubs[h].published && s.hubs[h].runtime.Some?
    // the shutdown options need a server and a runtime, so a request before that is refused
    case RequestShutdown(h) =>
      Free(s, h) && s.hubs[h].runtime.Some? && s.hubs[h].startup != Publishing && s.hubs[h].shutdown == Idle
    case ShutCloseServer(h, _) => Free(s, h) && s.hubs[h].shutdown == AwaitClose
    case ShutCloseDb(h, _) => Free(s, h) && s.hubs[h].shutdown == CloseDb
    case ShutTimeout(h) => Free(s, h) && s.hubs[h].shutdown == AwaitClose
    case ShutReadRecord(h, _) =>
      Free(s, h) && s.hubs[h].shutdown in {DeleteRecord, Forced} && s.hubs[h].runtime.Some?
    case Remove(h) => h in s.hubs && s.hubs[h].alive && s.hubs[h].deleting.Some?
    case RemoveFails(h) => h in s.hubs && s.hubs[h].alive && s.hubs[h].deleting.Some? && s.hubs[h].deleting.value.matched
    case Exit(h) => Free(s, h) && (s.hubs[h].shutdown == ExitNow || s.hubs[h].startup == Thrown)
    case Crash(h) => h in s.hubs && s.hubs[h].alive
    case Cleanup => s.record.Present? && !PidAlive(s, s.record.runtime.pid)
  }

  /** What the calling task does after `deleteRuntime` returned or threw. */
  function AfterDelete(hub: Hub, task: Task, threw: bool): Hub {
    if task == StartupTask then hub.(startup := Thrown, deleting := None)
    else if hub.shutdown == DeleteRecord && threw then hub.(shutdown := Forced, deleting := None)
    else hub.(shutdown := ExitNow, deleting := None)
  }

  /** The process that takes the step, after it. */
  ghost function HubAfter(s: State, a: Action): Hub
    requires Enabled(s, a) && a != Cleanup
  {
    match a
    case Start(h, pid) => NewHub(pid)
    case Acquire(h) =>
      if s.lock == None then s.hubs[h].(startup := HasLock, locked := true) else s.hubs[h].(startup := Thrown)
    case OpenDb(h) => s.hubs[h].(startup := DbOpen, db := true)
    case Listen(h) => s.hubs[h].(startup := Serving, listening := true)
    case BeginPublish(h, info) => s.hubs[h].(startup := Publishing, runtime := Some(info))
    case Rename(h) => s.hubs[h].(startup := Up, published := true)
    // before the lock there is nothing to unwind
    case Throw(h) => s.hubs[h].(startup := if s.hubs[h].startup == Boot then Thrown else CatchClose)
    case CatchCloseServer(h, ok) => s.hubs[h].(startup := CatchDb, listening := s.hubs[h].listening && !ok)
    case CatchCloseDb(h, ok) => s.hubs[h].(startup := CatchRecord, db := s.hubs[h].db && !ok)
    case CatchSkipRecord(h) => s.hubs[h].(startup := Thrown)
    case CatchReadRecord(h, readable) =>
      s.hubs[h].(deleting := Some(Deletion(StartupTask, readable && ReadMatches(s.hubs[h].runtime.value, s.record))))
    case RequestShutdown(h) => s.hubs[h].(shutdown := AwaitClose)
    case ShutCloseServer(h, ok) =>
      s.hubs[h].(shutdown := if ok then CloseDb else Forced, listening := s.hubs[h].listening && !ok)
    case ShutCloseDb(h, ok) => s.hubs[h].(shutdown := if ok then DeleteRecord else Forced, db := s.hubs[h].db && !ok)
    case ShutTimeout(h) => s.hubs[h].(shutdown := Forced)
    case ShutReadRecord(h, readable) =>
      s.hubs[h].(deleting := Some(Deletion(ShutdownTask, readable && ReadMatches(s.hubs[h].runtime.value, s.record))))
    case Remove(h) =>
      var d := s.hubs[h].deleting.value;
      AfterDelete(s.hubs[h], d.task, d.matched && s.record == Absent)
    case RemoveFails(h) => AfterDelete(s.hubs[h], s.hubs[h].deleting.value.task, true)
    case Exit(h) => s.hubs[h].(alive := false, db := false, listening := false, deleting := None)
    case Crash(h) => s.hubs[h].(alive := false, db := false, listening := false, deleting := None)
  }

  /** The kernel grants the lock when it is free and takes it back from a process that ends. */
  ghost function LockAfter(s: State, a: Action): Option<Id> {
    match a
    case Acquire(h) => if s.lock == None then Some(h) else s.lock
    case Exit(h) => if s.lock == Some(h) then None else s.lock
    case Crash(h) => if s.lock == Some(h) then None else s.lock
    case _ => s.lock
  }

  /** A removal deletes whatever record is there by now. */
  ghost function RecordAfter(s: State, a: Action): RecordFile
    requires Enabled(s, a)
  {
    match a
    case Rename(h) => Present(s.hubs[h].runtime.value)
    case Remove(h) => if s.hubs[h].deleting.value.matched then Absent else s.record
    case Cleanup => Absent
    case _ => s.record
  }

  ghost function Apply(s: State, a: Action): State
    requires Enabled(s, a)
  {
    State(if a == Cleanup then s.hubs else s.hubs[a.h := HubAfter(s, a)],
          LockAfter(s, a), RecordAfter(s, a),
          if a.BeginPublish? then s.used + {a.info.instanceId.value} else s.used)
  }

  /** Whatever record is found has an instance that counts as used. */
  ghost predicate RecordIsKnown(s: State) {
    s.record.Present? && s.record.runtime.instanceId.Some? ==> s.record.runtime.instanceId.value in s.used
  }

  ghost predicate Init(s: State) {
    && s.hubs == map[] && s.lock == None
    && RecordIsKnown(s)
  }

  ghost predicate IsRun(states: seq<State>, actions: seq<Action>) {
    && |states| == |actions| + 1
    && Init(states[0])
    && forall i :: 0 <= i < |actions| ==> Enabled(states[i], actions[i]) && states[i + 1] == Apply(states[i], actions[i])
  }

  // ----- the invariant

  /** The process is between lock acquisition and its end. */
  ghost predicate Owner(s: State, h: Id) {
    h in s.hubs && s.hubs[h].alive && s.hubs[h].locked
  }

  /** Something only a lock holder may do or have. */
  ghost predicate Active(hub: Hub) {
    || hub.db || hub.listening || hub.runtime.Some? || hub.published || hub.shutdown != Idle || hub.deleting.Some?
    || hub.startup !in {Boot, Thrown}
  }

  ghost predicate HubOk(s: State, h: Id)
    requires h in s.hubs
  {
    var hub := s.hubs[h];
    && (hub.alive && Active(hub) ==> hub.locked)
    && (!hub.alive ==> !hub.db && !hub.listening && hub.deleting == None)
    && (hub.alive && hub.locked ==> s.lock == Some(h))
    && (hub.runtime.Some? ==> hub.runtime.value.pid == hub.pid && hub.runtime.value.instanceId.Some? && hub.runtime.value.instanceId.value in s.used)
    && (hub.runtime.Some? && ReadMatches(hub.runtime.value, s.record) ==> s.record.runtime == hub.runtime.value)
    && (hub.published || hub.startup == Publishing ==> hub.runtime.Some?)
    && (hub.deleting.Some? ==> hub.runtime.Some?)
    && (hub.deleting.Some? && hub.deleting.value.matched ==> s.record in {Absent, Present(hub.runtime.value)})
  }

  /** The lock comes first, and the graceful path withdraws the record only when socket and databases are closed. */
  ghost predicate PhaseOrder(hub: Hub) {
    && (hub.startup == Boot ==> !hub.locked)
    && (hub.shutdown != Idle ==> hub.startup !in {Boot, HasLock, DbOpen, Serving})
    && (hub.runtime.Some? ==> hub.startup !in {Boot, HasLock, DbOpen, Serving})
    && (hub.shutdown in {CloseDb, DeleteRecord} ==> !hub.listening)
    && (hub.shutdown == DeleteRecord ==> !hub.db)
    && (hub.deleting.Some? && hub.deleting.value.task == StartupTask ==> hub.startup == CatchRecord)
    && (hub.deleting.Some? && hub.deleting.value.task == ShutdownTask ==> hub.shutdown in {DeleteRecord, Forced})
  }

  ghost predicate DistinctInstances(s: State) {
    forall g, h :: g in s.hubs && h in s.hubs && g != h && s.hubs[g].runtime.Some? && s.hubs[h].runtime.Some? ==>
      s.hubs[g].runtime.value.instanceId != s.hubs[h].runtime.value.instanceId
  }

  ghost predicate Inv(s: State) {
    && (forall h :: h in s.hubs ==> HubOk(s, h) && PhaseOrder(s.hubs[h]))
    && (s.lock.Some? ==> Owner(s, s.lock.value))
    && RecordIsKnown(s)
    && DistinctInstances(s)
  }

  /** What the rest of the world must look like to a hub for its part of the invariant
      to survive a step of another process. */
  lemma OtherHubKeepsOk(s: State, t: State, g: Id)
    requires g in s.hubs && g in t.hubs && t.hubs[g] == s.hubs[g] && HubOk(s, g) && s.used <= t.used
    requires s.hubs[g].alive && s.hubs[g].locked ==> t.lock == Some(g)
    requires t.record in {s.record, Absent} || (s.hubs[g].runtime.Some? ==> !ReadMatches(s.hubs[g].runtime.value, t.record))
    requires s.hubs[g].deleting.Some? ==> t.record in {s.record, Absent}
    ensures HubOk(t, g)
  {
  }

  /** A publication needs the lock, so no other hub is in the middle of a removal. */
  lemma OthersKeepOk(s: State, a: Action, g: Id)
    requires Inv(s) && Enabled(s, a) && a != Cleanup && g in s.hubs && g != a.h
    ensures HubOk(Apply(s, a), g)
  {
    hide HubAfter;
    assert HubOk(s, g);
    if a.Rename? { assert HubOk(s, a.h); }
    OtherHubKeepsOk(s, Apply(s, a), g);
  }

  predicate IsStartupStep(a: Action) {
    a.OpenDb? || a.Listen? || a.Throw? || a.CatchCloseServer? || a.CatchCloseDb? || a.CatchSkipRecord? || a.CatchReadRecord?
  }

  predicate IsShutdownStep(a: Action) {
    a.RequestShutdown? || a.ShutCloseServer? || a.ShutCloseDb? || a.ShutTimeout? || a.ShutReadRecord? || a.Remove? || a.RemoveFails?
  }

  lemma StartupStepKeepsOk(s: State, a: Action)
    requires Enabled(s, a) && IsStartupStep(a) && HubOk(s, a.h)
    ensures HubOk(Apply(s, a), a.h)
  {
    hide PidAlive;
  }

  lemma ShutdownStepKeepsOk(s: State, a: Action)
    requires Enabled(s, a) && IsShutdownStep(a) && HubOk(s, a.h)
    ensures HubOk(Apply(s, a), a.h)
  {
    hide PidAlive;
  }

  lemma LifetimeStepKeepsOk(s: State, a: Action)
    requires Inv(s) && Enabled(s, a) && (a.Start? || a.Acquire? || a.BeginPublish? || a.Rename? || a.Exit? || a.Crash?)
    ensures a.h in Apply(s, a).hubs && HubOk(Apply(s, a), a.h)
  {
    assert a.h in s.hubs ==> HubOk(s, a.h);
  }

  lemma OwnHubKeepsOk(s: State, a: Action)
    requires Inv(s) && Enabled(s, a) && a != Cleanup
    ensures a.h in Apply(s, a).hubs && HubOk(Apply(s, a), a.h)
  {
    assert a.h in s.hubs ==> HubOk(s, a.h);
    hide HubAfter, HubOk, RecordAfter, LockAfter;
    if IsStartupStep(a) {
      StartupStepKeepsOk(s, a);
    } else if IsShutdownStep(a) {
      ShutdownStepKeepsOk(s, a);
    } else {
      LifetimeStepKeepsOk(s, a);
    }
  }

  lemma OwnHubKeepsOrder(s: State, a: Action)
    requires Enabled(s, a) && a != Cleanup && (a.h in s.hubs ==> PhaseOrder(s.hubs[a.h]))
    ensures PhaseOrder(HubAfter(s, a))
  {
    hide PidAlive;
  }

  lemma LifeAfter(s: State, a: Action)
    requires Enabled(s, a) && a != Cleanup
    ensures HubAfter(s, a).alive <==> !a.Exit? && !a.Crash?
    ensures HubAfter(s, a).locked <==> !a.Start? && (s.hubs[a.h].locked || (a.Acquire? && s.lock == None))
  {
    hide PidAlive;
  }

  lemma LockIsOwned(s: State, a: Action)
    requires Inv(s) && Enabled(s, a) && a != Cleanup
    ensures var t := Apply(s, a); t.lock.Some? ==> Owner(t, t.lock.value)
  {
    LifeAfter(s, a);
    hide PidAlive, HubAfter, HubOk, PhaseOrder, RecordAfter, DistinctInstances;
    if s.lock.Some? { assert Owner(s, s.lock.value); }
  }

  lemma RuntimeAfter(s: State, a: Action)
    requires Enabled(s, a) && a != Cleanup
    ensures HubAfter(s, a).runtime == if a.BeginPublish? then Some(a.info) else if a.Start? then None else s.hubs[a.h].runtime
  {
    hide PidAlive;
  }

  lemma InstancesStayDistinct(s: State, a: Action)
    requires Inv(s) && Enabled(s, a) && a != Cleanup
    ensures DistinctInstances(Apply(s, a)) && RecordIsKnown(Apply(s, a))
  {
    RuntimeAfter(s, a);
    hide HubAfter, LockAfter;
    var t := Apply(s, a);
    if a.h in s.hubs { assert HubOk(s, a.h); }
    forall g, h | g in t.hubs && h in t.hubs && g != h && t.hubs[g].runtime.Some? && t.hubs[h].runtime.Some?
      ensures t.hubs[g].runtime.value.instanceId != t.hubs[h].runtime.value.instanceId
    {
      assert g in s.hubs ==> HubOk(s, g);
      assert h in s.hubs ==> HubOk(s, h);
    }
  }

  lemma CleanupKeepsInv(s: State)
    requires Inv(s) && Enabled(s, Cleanup)
    ensures Inv(Apply(s, Cleanup))
  {
    forall g | g in s.hubs ensures HubOk(Apply(s, Cleanup), g) { assert HubOk(s, g); }
  }

  lemma InvIsInductive(s: State, a: Action)
    requires Inv(s) && Enabled(s, a)
    ensures Inv(Apply(s, a))
  {
    hide HubAfter, HubOk, PhaseOrder, DistinctInstances, Owner, LockAfter, RecordAfter, RecordIsKnown, Enabled;
    if a == Cleanup {
      CleanupKeepsInv(s);
    } else {
      OwnHubKeepsOk(s, a);
      OwnHubKeepsOrder(s, a);
      LockIsOwned(s, a);
      InstancesStayDistinct(s, a);
      forall g | g in s.hubs && g != a.h ensures HubOk(Apply(s, a), g) { OthersKeepOk(s, a, g); }
    }
  }

  lemma {:induction false} InvHolds(states: seq<State>, actions: seq<Action>, i: nat)
    requires IsRun(states, actions) && i < |states|
    ensures Inv(states[i])
  {
    if i > 0 {
      InvHolds(states, actions, i - 1);
      InvIsInductive(states[i - 1], actions[i - 1]);
    }
  }

  // ----- main results

  /** At most one process is between lock acquisition and process end. */
  lemma AtMostOneOwner(states: seq<State>, actions: seq<Action>, i: nat, g: Id, h: Id)
    requires IsRun(states, actions) && i < |states|
    requires Owner(states[i], g) && Owner(states[i], h)
    ensures g == h
  {
    InvHolds(states, actions, i);
    assert HubOk(states[i], g) && HubOk(states[i], h);
  }

  /** Databases, a listening server, a publication or a removal in progress
      belong to the lock holder, and so to one process. */
  lemma OnlyOwnerIsActive(states: seq<State>, actions: seq<Action>, i: nat, h: Id)
    requires IsRun(states, actions) && i < |states| && h in states[i].hubs && states[i].hubs[h].alive
    requires Active(states[i].hubs[h])
    ensures Owner(states[i], h) && states[i].lock == Some(h)
    ensures forall g :: g in states[i].hubs && g != h && states[i].hubs[g].alive ==> !Active(states[i].hubs[g])
  {
    InvHolds(states, actions, i);
    assert HubOk(states[i], h);
    forall g | g in states[i].hubs && g != h && states[i].hubs[g].alive ensures !Active(states[i].hubs[g]) {
      assert HubOk(states[i], g);
    }
  }

  /** The lock is granted exactly when no process owns it: it is never stale. */
  lemma AcquireIsExact(states: seq<State>, actions: seq<Action>, i: nat, h: Id)
    requires IsRun(states, actions) && i < |actions| && actions[i] == Acquire(h)
    ensures Owner(states[i + 1], h) <==> forall g :: !Owner(states[i], g)
  {
    InvHolds(states, actions, i);
    InvHolds(states, actions, i + 1);
    assert HubOk(states[i], h) && HubOk(states[i + 1], h) && PhaseOrder(states[i].hubs[h]);
    if g :| Owner(states[i], g) { assert HubOk(states[i], g); }
  }

  /** No hub step other than its own publication and removal changes the record,
      and the removal only ever deletes the record this hub published. */
  lemma HubsOnlyRemoveTheirOwnRecord(states: seq<State>, actions: seq<Action>, i: nat)
    requires IsRun(states, actions) && i < |actions|
    requires states[i + 1].record != states[i].record && actions[i] != Cleanup
    ensures (actions[i].Rename? || actions[i].Remove?) && Owner(states[i], actions[i].h)
    ensures states[i].hubs[actions[i].h].runtime.Some?
    ensures actions[i].Rename? ==> states[i + 1].record == Present(states[i].hubs[actions[i].h].runtime.value)
    ensures actions[i].Remove? ==> states[i + 1].record == Absent && states[i].record == Present(states[i].hubs[actions[i].h].runtime.value)
  {
    InvHolds(states, actions, i);
    assert HubOk(states[i], actions[i].h);
  }

  /** Two hubs never share an instance, so the record removed is nobody else's. */
  lemma InstancesAreDistinct(states: seq<State>, actions: seq<Action>, i: nat, g: Id, h: Id)
    requires IsRun(states, actions) && i < |states|
    requires g in states[i].hubs && h in states[i].hubs && g != h
    requires states[i].hubs[g].runtime.Some? && states[i].hubs[h].runtime.Some?
    ensures !RuntimeMatches(states[i].hubs[g].runtime.value, states[i].hubs[h].runtime.value)
  {
    InvHolds(states, actions, i);
    assert HubOk(states[i], g);
  }

  /** A graceful shutdown that neither failed nor timed out starts withdrawing the
      record only after the socket and the databases are closed. */
  lemma GracefulWithdrawalIsLast(states: seq<State>, actions: seq<Action>, i: nat)
    requires IsRun(states, actions) && i < |actions| && actions[i].ShutReadRecord?
    requires states[i].hubs[actions[i].h].shutdown == DeleteRecord
    ensures !states[i].hubs[actions[i].h].listening && !states[i].hubs[actions[i].h].db
  {
    InvHolds(states, actions, i);
    assert PhaseOrder(states[i].hubs[actions[i].h]);
  }

  ghost predicate ClosedServer(actions: seq<Action>, h: Id, end: nat) {
    exists j :: 0 <= j < end <= |actions| && actions[j].CatchCloseServer? && actions[j].h == h
  }

  ghost predicate ClosedBoth(actions: seq<Action>, h: Id, end: nat) {
    exists k :: 0 <= k < end <= |actions| && actions[k].CatchCloseDb? && actions[k].h == h && ClosedServer(actions, h, k)
  }

  ghost predicate CloseFailed(actions: seq<Action>, h: Id, end: nat) {
    exists j :: 0 <= j < end <= |actions| && actions[j] == CatchCloseServer(h, false)
  }

  ghost predicate DbCloseFailed(actions: seq<Action>, h: Id, end: nat) {
    exists j :: 0 <= j < end <= |actions| && actions[j] == CatchCloseDb(h, false)
  }

  /** What the catch block leaves open is what refused to close. */
  lemma {:induction false} CatchLeaves(s: State, a: Action, h: Id)
    requires Enabled(s, a) && h in Apply(s, a).hubs
    ensures var t := Apply(s, a).hubs[h];
            && (t.startup in {CatchDb, CatchRecord} && t.listening ==>
                  a == CatchCloseServer(h, false) || (h in s.hubs && s.hubs[h].startup in {CatchDb, CatchRecord} && s.hubs[h].listening))
            && (t.startup == CatchRecord && t.db ==>
                  a == CatchCloseDb(h, false) || (h in s.hubs && s.hubs[h].startup == CatchRecord && s.hubs[h].db))
  {
    hide PidAlive, LockAfter, RecordAfter;
  }

  lemma {:induction false} CatchLeftovers(states: seq<State>, actions: seq<Action>, i: nat, h: Id)
    requires IsRun(states, actions) && i < |states| && h in states[i].hubs
    ensures states[i].hubs[h].startup in {CatchDb, CatchRecord} && states[i].hubs[h].listening ==> CloseFailed(actions, h, i)
    ensures states[i].hubs[h].startup == CatchRecord && states[i].hubs[h].db ==> DbCloseFailed(actions, h, i)
  {
    hide Apply, Enabled;
    if i > 0 && states[i].hubs[h].startup in {CatchDb, CatchRecord} {
      CatchLeaves(states[i - 1], actions[i - 1], h);
      if h in states[i - 1].hubs { CatchLeftovers(states, actions, i - 1, h); }
    }
  }

  /** Where the catch block's positions are entered from. */
  lemma CatchStep(s: State, a: Action, h: Id)
    requires Enabled(s, a) && h in Apply(s, a).hubs
    ensures Apply(s, a).hubs[h].startup == CatchDb ==>
      h in s.hubs && (s.hubs[h].startup == CatchDb || (a.CatchCloseServer? && a.h == h))
    ensures Apply(s, a).hubs[h].startup == CatchRecord ==>
      h in s.hubs && (s.hubs[h].startup == CatchRecord || (a.CatchCloseDb? && a.h == h && s.hubs[h].startup == CatchDb))
  {
    hide PidAlive;
  }

  lemma {:induction false} CatchPositions(states: seq<State>, actions: seq<Action>, i: nat, h: Id)
    requires IsRun(states, actions) && i < |states| && h in states[i].hubs
    ensures states[i].hubs[h].startup == CatchDb ==> ClosedServer(actions, h, i)
    ensures states[i].hubs[h].startup == CatchRecord ==> ClosedBoth(actions, h, i)
  {
    hide Apply, Enabled;
    if i > 0 && states[i].hubs[h].startup in {CatchDb, CatchRecord} {
      CatchStep(states[i - 1], actions[i - 1], h);
      CatchPositions(states, actions, i - 1, h);
    }
  }

  /** A failed startup withdraws its record only after it tried to close the server and then
      the databases; what is still open then refused to close. */
  lemma FailedStartupUnwindsInOrder(states: seq<State>, actions: seq<Action>, i: nat)
    requires IsRun(states, actions) && i < |actions| && actions[i].CatchReadRecord?
    ensures ClosedBoth(actions, actions[i].h, i)
    ensures states[i].hubs[actions[i].h].listening ==> CloseFailed(actions, actions[i].h, i)
    ensures states[i].hubs[actions[i].h].db ==> DbCloseFailed(actions, actions[i].h, i)
  {
    CatchPositions(states, actions, i, actions[i].h);
    CatchLeftovers(states, actions, i, actions[i].h);
  }

  lemma EndedStepsNoMore(s: State, a: Action, h: Id)
    requires Enabled(s, a) && h in s.hubs && !s.hubs[h].alive
    ensures h in Apply(s, a).hubs && !Apply(s, a).hubs[h].alive
  {
    hide HubAfter, LockAfter, RecordAfter;
  }

  lemma {:induction false} EndedStaysEnded(states: seq<State>, actions: seq<Action>, i: nat, j: nat, h: Id)
    requires IsRun(states, actions) && i <= j < |states|
    requires h in states[i].hubs && !states[i].hubs[h].alive
    ensures h in states[j].hubs && !states[j].hubs[h].alive
    decreases j
  {
    hide Apply, Enabled, Init;
    if i < j {
      EndedStaysEnded(states, actions, i, j - 1, h);
      EndedStepsNoMore(states[j - 1], actions[j - 1], h);
    }
  }

  /** A hub that is up and has not started to withdraw its record. */
  ghost predicate IsUp(hub: Hub) {
    hub.alive && hub.startup == Up && hub.shutdown in {Idle, AwaitClose, CloseDb}
  }

  ghost predicate NoHubIsUp(s: State) {
    forall h :: h in s.hubs ==> !IsUp(s.hubs[h])
  }

  ghost predicate UpIsVisible(s: State) {
    forall h :: h in s.hubs && IsUp(s.hubs[h]) ==> s.hubs[h].runtime.Some? && s.record == Present(s.hubs[h].runtime.value)
  }

  /** A hub comes up only by publishing. */
  lemma UpComesFromRename(s: State, a: Action, h: Id)
    requires Enabled(s, a) && h in Apply(s, a).hubs && IsUp(Apply(s, a).hubs[h]) && a != Rename(h)
    ensures h in s.hubs && IsUp(s.hubs[h]) && s.hubs[h].runtime == Apply(s, a).hubs[h].runtime
  {
    hide PidAlive;
  }

  /** While a hub is up, no hub is about to publish or to remove a record, and a CLI
      caller that finds the record finds a live pid. */
  lemma UpExcludesRecordSteps(s: State, a: Action, h: Id)
    requires Inv(s) && UpIsVisible(s) && Enabled(s, a) && h in s.hubs && IsUp(s.hubs[h])
    ensures Apply(s, a).record == s.record
  {
    assert HubOk(s, h) && PhaseOrder(s.hubs[h]);
    assert a.Rename? || a.Remove? ==> HubOk(s, a.h);
    assert PidAlive(s, s.hubs[h].pid);
  }

  lemma UpIsVisibleIsInductive(s: State, a: Action)
    requires Inv(s) && UpIsVisible(s) && Enabled(s, a)
    ensures UpIsVisible(Apply(s, a))
  {
    hide Inv, Enabled;
    var t := Apply(s, a);
    forall h | h in t.hubs && IsUp(t.hubs[h]) ensures t.hubs[h].runtime.Some? && t.record == Present(t.hubs[h].runtime.value) {
      if a == Rename(h) {
        RenameIsVisible(s, a);
      } else {
        hide Apply;
        UpComesFromRename(s, a, h);
        UpExcludesRecordSteps(s, a, h);
      }
    }
  }

  lemma RenameIsVisible(s: State, a: Action)
    requires Enabled(s, a) && a.Rename?
    ensures var t := Apply(s, a); a.h in t.hubs && t.hubs[a.h].runtime.Some? && t.record == Present(t.hubs[a.h].runtime.value)
  {
    hide PidAlive;
  }

  /** In every run the record of a hub that is up is there for everyone to find. */
  lemma {:induction false} UpHubsAreVisible(states: seq<State>, actions: seq<Action>, i: nat)
    requires IsRun(states, actions) && i < |states|
    ensures UpIsVisible(states[i])
  {
    if i > 0 {
      UpHubsAreVisible(states, actions, i - 1);
      InvHolds(states, actions, i - 1);
      UpIsVisibleIsInductive(states[i - 1], actions[i - 1]);
    }
  }

  // ----- what a hub leaves behind

  /** The record is the one this hub publishes. */
  ghost predicate OwnRecord(s: State, h: Id) {
    h in s.hubs && s.hubs[h].runtime.Some? && s.record == Present(s.hubs[h].runtime.value)
  }

  /** Removing its record has gone wrong for this hub. */
  ghost predicate RemovalFailed(states: seq<State>, actions: seq<Action>, h: Id, end: nat) {
    exists j :: 0 <= j < end <= |actions| && end <= |states| && GoesWrong(states[j], actions[j], h)
  }

  /** The record cannot be read, or cannot be removed and will not be tried again: the graceful
      path tries once more after a failure, the forced path and the catch block do not. */
  ghost predicate GoesWrong(s: State, a: Action, h: Id) {
    || a in {CatchReadRecord(h, false), ShutReadRecord(h, false)}
    || (a == RemoveFails(h) && h in s.hubs && s.hubs[h].deleting.Some?
        && (s.hubs[h].deleting.value.task == StartupTask || s.hubs[h].shutdown != DeleteRecord))
  }

  /** This step takes the record away from the hub that published it. */
  ghost predicate Withdraws(s: State, a: Action) {
    a == Cleanup || a.Rename? || (a.Remove? && a.h in s.hubs && s.hubs[a.h].deleting.Some? && s.hubs[a.h].deleting.value.matched)
  }

  /** A hub has its record exactly from its publication on, until the next withdrawal. */
  lemma {:induction false} OwnRecordStep(s: State, a: Action, h: Id)
    requires Inv(s) && Enabled(s, a)
    ensures OwnRecord(Apply(s, a), h) <==> a == Rename(h) || (OwnRecord(s, h) && !Withdraws(s, a))
  {
    hide Apply, Enabled, Inv, Withdraws, OwnRecord;
    if a.Rename? { OwnRecordPublished(s, a, h); }
    else if a.BeginPublish? || a.Start? { OwnRecordPrepared(s, a, h); }
    else { OwnRecordKept(s, a, h); }
  }

  lemma {:induction false} OwnRecordPublished(s: State, a: Action, h: Id)
    requires Inv(s) && Enabled(s, a) && a.Rename?
    ensures Withdraws(s, a) && (OwnRecord(Apply(s, a), h) <==> a == Rename(h))
  {
    RuntimeAfter(s, a);
    hide HubAfter, LockAfter, PidAlive, PhaseOrder;
    assert HubOk(s, a.h);
  }

  lemma {:induction false} OwnRecordPrepared(s: State, a: Action, h: Id)
    requires Inv(s) && Enabled(s, a) && (a.BeginPublish? || a.Start?)
    ensures !Withdraws(s, a) && (OwnRecord(Apply(s, a), h) <==> OwnRecord(s, h))
  {
    RuntimeAfter(s, a);
    hide HubAfter, LockAfter, PidAlive, HubOk;
    if a.BeginPublish? { assert PhaseOrder(s.hubs[a.h]); }
  }

  lemma {:induction false} OwnRecordKept(s: State, a: Action, h: Id)
    requires Enabled(s, a) && !a.Rename? && !a.BeginPublish? && !a.Start?
    ensures OwnRecord(Apply(s, a), h) <==> OwnRecord(s, h) && !Withdraws(s, a)
  {
    if a != Cleanup { RuntimeAfter(s, a); }
    hide HubAfter, LockAfter, PidAlive;
  }

  /** By the history: published, and not withdrawn since. */
  ghost predicate PublishedAndKept(states: seq<State>, actions: seq<Action>, i: nat, h: Id)
    requires i <= |actions| < |states|
  {
    exists j :: 0 <= j < i && actions[j] == Rename(h) && forall m :: j < m < i ==> !Withdraws(states[m], actions[m])
  }

  lemma {:induction false} KeptStep(states: seq<State>, actions: seq<Action>, i: nat, h: Id)
    requires 0 < i <= |actions| < |states|
    ensures PublishedAndKept(states, actions, i, h) <==>
            actions[i - 1] == Rename(h) || (PublishedAndKept(states, actions, i - 1, h) && !Withdraws(states[i - 1], actions[i - 1]))
  {
    hide Withdraws;
    if PublishedAndKept(states, actions, i - 1, h) && !Withdraws(states[i - 1], actions[i - 1]) {
      var j :| 0 <= j < i - 1 && actions[j] == Rename(h) && forall m :: j < m < i - 1 ==> !Withdraws(states[m], actions[m]);
      assert forall m :: j < m < i ==> !Withdraws(states[m], actions[m]);
    }
  }

  /** The record is a hub's own exactly when this hub has published it and nobody has
      removed, cleaned up or replaced it since. */
  lemma {:induction false} RecordIsItsHistory(states: seq<State>, actions: seq<Action>, i: nat, h: Id)
    requires IsRun(states, actions) && i < |states|
    ensures OwnRecord(states[i], h) <==> PublishedAndKept(states, actions, i, h)
  {
    hide Apply, Enabled, Withdraws, Inv;
    if i > 0 {
      RecordIsItsHistory(states, actions, i - 1, h);
      InvHolds(states, actions, i - 1);
      OwnRecordStep(states[i - 1], actions[i - 1], h);
      KeptStep(states, actions, i, h);
    }
  }

  /** A hub whose record is there has published it and is not past removing it. */
  ghost predicate StillToRemove(s: State, h: Id) {
    OwnRecord(s, h) && s.hubs[h].alive ==>
      && s.hubs[h].published && s.hubs[h].startup != Thrown && s.hubs[h].shutdown != ExitNow
      && (s.hubs[h].deleting.Some? ==> s.hubs[h].deleting.value.matched)
  }

  /** A hub that is about to publish has neither published nor begun to shut down. */
  ghost predicate PublishesOnce(s: State, h: Id) {
    h in s.hubs && s.hubs[h].startup in {Boot, HasLock, DbOpen, Serving, Publishing} ==>
      !s.hubs[h].published && s.hubs[h].shutdown == Idle && s.hubs[h].deleting == None
  }

  lemma {:induction false} PublishesOnceStep(s: State, a: Action, h: Id)
    requires Enabled(s, a) && PublishesOnce(s, h) && (h in s.hubs ==> PhaseOrder(s.hubs[h]))
    ensures PublishesOnce(Apply(s, a), h)
  {
    hide PidAlive, LockAfter, RecordAfter;
  }

  lemma {:induction false} StillToRemoveStep(s: State, a: Action, h: Id)
    requires Inv(s) && Enabled(s, a) && StillToRemove(s, h) && PublishesOnce(s, h) && !GoesWrong(s, a, h)
    ensures StillToRemove(Apply(s, a), h)
  {
    OwnRecordStep(s, a, h);
    if OwnRecord(Apply(s, a), h) {
      assert h in s.hubs && PhaseOrder(s.hubs[h]) && HubOk(s, h);
      if a != Cleanup && a.h == h {
        hide Inv, LockAfter, PidAlive, HubOk;
        OwnHubStillToRemove(s, a);
      }
    }
  }

  lemma {:induction false} OwnHubStillToRemove(s: State, a: Action)
    requires Enabled(s, a) && a != Cleanup && a.h in s.hubs && PhaseOrder(s.hubs[a.h]) && !GoesWrong(s, a, a.h)
    requires StillToRemove(s, a.h) && PublishesOnce(s, a.h) && (a.Rename? || (OwnRecord(s, a.h) && !Withdraws(s, a)))
    ensures var hub := HubAfter(s, a);
            hub.alive ==>
              && hub.published && hub.startup != Thrown && hub.shutdown != ExitNow
              && (hub.deleting.Some? ==> hub.deleting.value.matched)
  {
    hide PidAlive, LockAfter, RecordAfter;
  }

  lemma {:induction false} StillToRemoveHolds(states: seq<State>, actions: seq<Action>, i: nat, h: Id)
    requires IsRun(states, actions) && i < |states|
    ensures PublishesOnce(states[i], h)
    ensures !RemovalFailed(states, actions, h, i) ==> StillToRemove(states[i], h)
  {
    hide Apply, Enabled, GoesWrong, PublishesOnce, StillToRemove, PhaseOrder;
    if i == 0 {
      NothingToRemove(states[0], h);
    } else {
      StillToRemoveHolds(states, actions, i - 1, h);
      InvHolds(states, actions, i - 1);
      PublishesOnceStep(states[i - 1], actions[i - 1], h);
      if !RemovalFailed(states, actions, h, i) {
        assert !GoesWrong(states[i - 1], actions[i - 1], h);
        StillToRemoveStep(states[i - 1], actions[i - 1], h);
      }
    }
  }

  lemma {:induction false} NothingToRemove(s: State, h: Id)
    requires Init(s)
    ensures PublishesOnce(s, h) && StillToRemove(s, h)
  {
  }

  /** A hub that ends in order, after a shutdown, a forced one or a failed startup, leaves
      no record of its own unless reading or removing it went wrong: else only a crash does. */
  lemma ExitLeavesNoRecord(states: seq<State>, actions: seq<Action>, i: nat, h: Id)
    requires IsRun(states, actions) && i < |actions| && actions[i] == Exit(h)
    ensures OwnRecord(states[i], h) ==> RemovalFailed(states, actions, h, i)
    ensures OwnRecord(states[i + 1], h) <==> OwnRecord(states[i], h)
  {
    StillToRemoveHolds(states, actions, i, h);
    InvHolds(states, actions, i);
    OwnRecordStep(states[i], actions[i], h);
    hide Apply, RemovalFailed, Inv, PidAlive;
  }

  // ----- no hub goes on for ever

  function StartupLeft(pc: StartupPc): nat {
    match pc
    case Boot => 10 case HasLock => 9 case DbOpen => 8 case Serving => 7 case Publishing => 6 case Up => 5
    case CatchClose => 4 case CatchDb => 3 case CatchRecord => 2 case Thrown => 1
  }

  function ShutdownLeft(pc: ShutdownPc): nat {
    match pc
    case Idle => 6 case AwaitClose => 5 case CloseDb => 4 case DeleteRecord => 3 case Forced => 2 case ExitNow => 1
  }

  function StepsLeft(hub: Hub): nat {
    if !hub.alive then 0
    else 2 * (StartupLeft(hub.startup) + ShutdownLeft(hub.shutdown)) + if hub.deleting == None then 1 else 0
  }

  /** Every step of a hub brings its end nearer, and a live hub can always take one, so
      each hub ends after at most 33 steps of its own, in order or by a crash. */
  lemma {:induction false} HubsComeToAnEnd(s: State, a: Action, h: Id)
    requires Inv(s) && h in s.hubs && s.hubs[h].alive
    ensures Enabled(s, a) && a != Cleanup && a.h == h ==> StepsLeft(HubAfter(s, a)) < StepsLeft(s.hubs[h]) <= 33
    ensures exists own: Action :: own != Cleanup && !own.Crash? && own.h == h && Enabled(s, own)
  {
    assert PhaseOrder(s.hubs[h]) && HubOk(s, h);
    hide Inv, Enabled, HubAfter, HubOk, PhaseOrder, StepsLeft;
    NeverStuck(s, h);
    StepsLeftBound(s.hubs[h]);
    if Enabled(s, a) && a != Cleanup && a.h == h {
      if IsShutdownStep(a) { ShutdownAdvances(s, a); } else { StartupAdvances(s, a); }
    }
  }

  lemma {:induction false} StepsLeftBound(hub: Hub)
    ensures StepsLeft(hub) <= 33
  {
  }

  lemma {:induction false} StartupAdvances(s: State, a: Action)
    requires Enabled(s, a) && a != Cleanup && !IsShutdownStep(a) && a.h in s.hubs && s.hubs[a.h].alive && PhaseOrder(s.hubs[a.h])
    ensures StepsLeft(HubAfter(s, a)) < StepsLeft(s.hubs[a.h])
  {
    hide PidAlive;
  }

  lemma {:induction false} ShutdownAdvances(s: State, a: Action)
    requires Enabled(s, a) && IsShutdownStep(a) && a.h in s.hubs && s.hubs[a.h].alive && PhaseOrder(s.hubs[a.h])
    ensures StepsLeft(HubAfter(s, a)) < StepsLeft(s.hubs[a.h])
  {
    hide PidAlive;
  }

  lemma {:induction false} NeverStuck(s: State, h: Id)
    requires h in s.hubs && s.hubs[h].alive && PhaseOrder(s.hubs[h]) && HubOk(s, h)
    ensures exists own: Action :: own != Cleanup && !own.Crash? && own.h == h && Enabled(s, own)
  {
    var hub := s.hubs[h];
    var own := if hub.deleting.Some? then Remove(h)
               else if hub.startup in {Boot, HasLock, DbOpen, Serving, Publishing, Up} then Throw(h)
               else if hub.startup == CatchClose then CatchCloseServer(h, true)
               else if hub.startup == CatchDb then CatchCloseDb(h, true)
               else if hub.startup == Thrown then Exit(h)
               else if hub.published then CatchReadRecord(h, true)
               else CatchSkipRecord(h);
    assert own != Cleanup && !own.Crash? && own.h == h && Enabled(s, own);
  }

  // ----- what a hub that is up holds

  ghost predicate HoldsResources(hub: Hub) {
    hub.alive && hub.shutdown in {Idle, AwaitClose} ==>
      && (hub.startup in {DbOpen, Serving, Publishing, Up} ==> hub.db)
      && (hub.startup in {Serving, Publishing, Up} && hub.shutdown == Idle ==> hub.listening)
      && (hub.startup == Up ==> hub.published)
  }

  lemma {:induction false} HoldsResourcesStep(s: State, a: Action, h: Id)
    requires Enabled(s, a) && h in Apply(s, a).hubs && (h in s.hubs ==> HoldsResources(s.hubs[h]))
    ensures HoldsResources(Apply(s, a).hubs[h])
  {
    hide PidAlive, LockAfter, RecordAfter;
  }

  /** A hub that is up and not shutting down owns the lock, has its databases and its server
      open, and its record is the one to be found. */
  lemma {:induction false} UpHubServes(states: seq<State>, actions: seq<Action>, i: nat, h: Id)
    requires IsRun(states, actions) && i < |states| && h in states[i].hubs
    ensures HoldsResources(states[i].hubs[h])
    ensures var hub := states[i].hubs[h];
            hub.startup == Up && hub.alive && hub.shutdown == Idle ==>
              Owner(states[i], h) && hub.db && hub.listening && hub.published && OwnRecord(states[i], h)
  {
    hide Apply, Enabled;
    if i > 0 {
      if h in states[i - 1].hubs { UpHubServes(states, actions, i - 1, h); }
      HoldsResourcesStep(states[i - 1], actions[i - 1], h);
    }
    InvHolds(states, actions, i);
    UpHubsAreVisible(states, actions, i);
    assert HubOk(states[i], h);
    hide Inv, PhaseOrder;
  }

  // ----- the protocol does act

  ghost predicate Leads(s: State, a: Action, t: State) {
    Enabled(s, a) && t == Apply(s, a)
  }

  /** A state directory nobody uses, and a record that is new to it. */
  ghost predicate Fresh(s: State, info: RuntimeInfo) {
    Init(s) && info.instanceId.Some? && info.instanceId.value !in s.used
  }

  /** The hub of an undisturbed life after `k` steps. */
  function LifeHub(info: RuntimeInfo, k: nat): Hub {
    var up := Hub(info.pid, true, true, true, true, Up, Idle, Some(info), true, None);
    var closed := up.(listening := false, db := false);
    if k <= 1 then NewHub(info.pid)
    else if k == 2 then NewHub(info.pid).(startup := HasLock, locked := true)
    else if k == 3 then NewHub(info.pid).(startup := DbOpen, locked := true, db := true)
    else if k == 4 then up.(startup := Serving, runtime := None, published := false)
    else if k == 5 then up.(startup := Publishing, published := false)
    else if k == 6 then up
    else if k == 7 then up.(shutdown := AwaitClose)
    else if k == 8 then up.(shutdown := CloseDb, listening := false)
    else if k == 9 then closed.(shutdown := DeleteRecord)
    else if k == 10 then closed.(shutdown := DeleteRecord, deleting := Some(Deletion(ShutdownTask, true)))
    else if k == 11 then closed.(shutdown := ExitNow)
    else closed.(shutdown := ExitNow, alive := false)
  }

  function LifeAction(h: Id, info: RuntimeInfo, k: nat): Action {
    if k == 0 then Start(h, info.pid)
    else if k == 1 then Acquire(h)
    else if k == 2 then OpenDb(h)
    else if k == 3 then Listen(h)
    else if k == 4 then BeginPublish(h, info)
    else if k == 5 then Rename(h)
    else if k == 6 then RequestShutdown(h)
    else if k == 7 then ShutCloseServer(h, true)
    else if k == 8 then ShutCloseDb(h, true)
    else if k == 9 then ShutReadRecord(h, true)
    else if k == 10 then Remove(h)
    else Exit(h)
  }

  function LifeStage(s: State, h: Id, info: RuntimeInfo, k: nat): State
    requires info.instanceId.Some?
  {
    if k == 0 then s
    else State(map[h := LifeHub(info, k)], if 2 <= k <= 11 then Some(h) else None,
               if k <= 5 then s.record else if k <= 10 then Present(info) else Absent,
               if k <= 4 then s.used else s.used + {info.instanceId.value})
  }

  lemma {:induction false} StartupStep(s: State, h: Id, info: RuntimeInfo, k: nat)
    requires Fresh(s, info) && k < 6
    ensures Leads(LifeStage(s, h, info, k), LifeAction(h, info, k), LifeStage(s, h, info, k + 1))
  {
    var t := LifeStage(s, h, info, k);
    assert t.hubs.Keys == if k == 0 then {} else {h};
    if k == 0 { assert t.hubs[h := NewHub(info.pid)] == map[h := NewHub(info.pid)]; }
  }

  lemma {:induction false} ShutdownStep(s: State, h: Id, info: RuntimeInfo, k: nat)
    requires Fresh(s, info) && 6 <= k < 12
    ensures Leads(LifeStage(s, h, info, k), LifeAction(h, info, k), LifeStage(s, h, info, k + 1))
  {
    var t := LifeStage(s, h, info, k);
    hide PidAlive;
    assert t.hubs == map[h := LifeHub(info, k)];
  }

  /** A hub can start on a free state directory, be found while it serves, and shut down
      leaving neither record nor lock. */
  lemma {:induction false} HubCanServeAndStop(s: State, h: Id, info: RuntimeInfo) returns (states: seq<State>, actions: seq<Action>)
    requires Fresh(s, info)
    ensures IsRun(states, actions) && states[0] == s && |actions| == 12
    ensures states[6].hubs == map[h := LifeHub(info, 6)] && states[6].record == Present(info) && states[6].lock == Some(h)
    ensures states[12].hubs == map[h := LifeHub(info, 12)] && states[12].record == Absent && states[12].lock == None
  {
    states := seq(13, k requires 0 <= k < 13 => LifeStage(s, h, info, k));
    actions := seq(12, k requires 0 <= k < 12 => LifeAction(h, info, k));
    forall k | 0 <= k < 12 ensures Leads(states[k], actions[k], states[k + 1]) {
      if k < 6 { StartupStep(s, h, info, k); } else { ShutdownStep(s, h, info, k); }
    }
    hide Apply, Enabled, LifeHub, LifeAction;
  }

  /** The hub of a life whose shutdown times out and whose removal then fails. */
  function ForcedHub(info: RuntimeInfo, k: nat): Hub {
    var forced := LifeHub(info, 7).(shutdown := Forced);
    if k <= 7 then LifeHub(info, k)
    else if k == 8 then forced
    else if k == 9 then forced.(deleting := Some(Deletion(ShutdownTask, true)))
    else if k == 10 then forced.(shutdown := ExitNow)
    else forced.(shutdown := ExitNow, alive := false, db := false, listening := false)
  }

  function ForcedAction(h: Id, info: RuntimeInfo, k: nat): Action {
    if k <= 6 then LifeAction(h, info, k)
    else if k == 7 then ShutTimeout(h)
    else if k == 8 then ShutReadRecord(h, true)
    else if k == 9 then RemoveFails(h)
    else Exit(h)
  }

  function ForcedStage(s: State, h: Id, info: RuntimeInfo, k: nat): State
    requires info.instanceId.Some?
  {
    if k <= 7 then LifeStage(s, h, info, k)
    else State(map[h := ForcedHub(info, k)], if k <= 10 then Some(h) else None, Present(info), s.used + {info.instanceId.value})
  }

  lemma {:induction false} ForcedStep(s: State, h: Id, info: RuntimeInfo, k: nat)
    requires Fresh(s, info) && 7 <= k < 11
    ensures Leads(ForcedStage(s, h, info, k), ForcedAction(h, info, k), ForcedStage(s, h, info, k + 1))
  {
    var t := ForcedStage(s, h, info, k);
    hide PidAlive;
    assert t.hubs == map[h := ForcedHub(info, k)];
  }

  /** When removing fails on the forced path, the record outlives its hub. */
  lemma {:induction false} FailedRemovalLeavesRecord(s: State, h: Id, info: RuntimeInfo) returns (states: seq<State>, actions: seq<Action>)
    requires Fresh(s, info)
    ensures IsRun(states, actions) && states[0] == s && |actions| == 11 && actions[10] == Exit(h)
    ensures OwnRecord(states[11], h) && !states[11].hubs[h].alive
  {
    states := seq(12, k requires 0 <= k < 12 => ForcedStage(s, h, info, k));
    actions := seq(11, k requires 0 <= k < 11 => ForcedAction(h, info, k));
    forall k | 0 <= k < 11 ensures Leads(states[k], actions[k], states[k + 1]) {
      if k < 6 { StartupStep(s, h, info, k); } else if k == 6 { ShutdownStep(s, h, info, k); } else { ForcedStep(s, h, info, k); }
    }
    assert states[11].hubs == map[h := ForcedHub(info, 11)] && ForcedHub(info, 11).runtime == Some(info);
    hide Apply, Enabled, ForcedHub, LifeHub, LifeAction, ForcedAction;
  }

  /** What `waitForHubQuit` has established when it confirms, its k-th observation
      being made at moment `at(k)` of a run: the target has ended for good and holds
      nothing, and no hub is up. Any process may hold the pid, so a live hub only
      implies that the pid looks alive. */
  lemma ConfirmedQuit(states: seq<State>, actions: seq<Action>, at: nat -> nat, w: World, k: nat, target: Id)
    requires IsRun(states, actions) && at(k + 1) <= at(k + 2) < |states|
    requires target in states[at(k + 1)].hubs
    requires PidAlive(states[at(k + 1)], states[at(k + 1)].hubs[target].pid) ==> w.alive(k + 1)
    requires w.load(k + 2) == states[at(k + 2)].record
    requires SawQuit(w, k)
    ensures forall m :: at(k + 1) <= m < |states| ==> target in states[m].hubs && !states[m].hubs[target].alive
    ensures var s := states[at(k + 2)]; !s.hubs[target].db && !s.hubs[target].listening && s.lock != Some(target)
    ensures NoHubIsUp(states[at(k + 2)])
  {
    forall m | at(k + 1) <= m < |states| ensures target in states[m].hubs && !states[m].hubs[target].alive {
      EndedStaysEnded(states, actions, at(k + 1), m, target);
    }
    InvHolds(states, actions, at(k + 2));
    assert HubOk(states[at(k + 2)], target);
    UpHubsAreVisible(states, actions, at(k + 2));
  }
}
