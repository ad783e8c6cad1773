/**
 The hub's two-slot download queue for agent binaries
 (packages/hub/src/api/agents.ts). Jobs are numbered by the order in which they
 are registered. A request looks its target up, awaits the file system, and
 registers a job only then, so lookup and registration are separate steps.
 */
module FetchQueue {
  const CONCURRENCY: nat := 2

  datatype Job = Job(id: nat, target: string)

  datatype Event =
    | Lookup(request: nat, target: string)
    | AlreadyCached(request: nat)
    | Register(request: nat)
    | DrainTick
    | Completed(id: nat)

  /** `awaiting` are the requests whose lookup found no job, with their targets;
      `enqueued`, `started` and `finished` are the history. */
  datatype State = State(
    jobsByTarget: map<string, nat>, queued: seq<Job>, runningJobs: nat, awaiting: map<nat, string>,
    enqueued: seq<Job>, started: seq<Job>, finished: set<nat>)

  const Start := State(map[], [], 0, map[], [], [], {})

  function Drained(s: State): State
    decreases |s.queued|
  {
    if s.runningJobs >= CONCURRENCY || s.queued == [] then s
    else Drained(s.(queued := s.queued[1..], runningJobs := s.runningJobs + 1, started := s.started + [s.queued[0]]))
  }

  predicate IsRunning(s: State, id: nat) {
    id < |s.started| && id !in s.finished
  }

  /** A request goes on only after a lookup that found nothing; a job completes only while it runs. */
  predicate Enabled(s: State, e: Event) {
    match e
    case Lookup(request, _) => request !in s.awaiting
    case AlreadyCached(request) => request in s.awaiting
    case Register(request) => request in s.awaiting
    case DrainTick => true
    case Completed(id) => IsRunning(s, id) && s.runningJobs > 0
  }

  function Registered(s: State, target: string): State {
    var job := Job(|s.enqueued|, target);
    s.(jobsByTarget := s.jobsByTarget[target := job.id], queued := s.queued + [job], enqueued := s.enqueued + [job])
  }

  function Finished(s: State, id: nat): State
    requires IsRunning(s, id) && s.runningJobs > 0
  {
    s.(runningJobs := s.runningJobs - 1, finished := s.finished + {id}, jobsByTarget := s.jobsByTarget - {s.started[id].target})
  }

  function Step(s: State, e: Event): State
    requires Enabled(s, e)
  {
    match e
    case Lookup(request, target) =>
      if target in s.jobsByTarget then s else s.(awaiting := s.awaiting[request := target])
    case AlreadyCached(request) => s.(awaiting := s.awaiting - {request})
    case Register(request) => Registered(s, s.awaiting[request]).(awaiting := s.awaiting - {request})
    case DrainTick => Drained(s)
    case Completed(id) => Drained(Finished(s, id))
  }

  ghost predicate IsRun(states: seq<State>, events: seq<Event>) {
    && |states| == |events| + 1
    && states[0] == Start
    && forall i :: 0 <= i < |events| ==> Enabled(states[i], events[i]) && states[i + 1] == Step(states[i], events[i])
  }

  // ----- the invariant

  ghost predicate Inv(s: State) {
    && s.started + s.queued == s.enqueued
    && (forall i :: 0 <= i < |s.enqueued| ==> s.enqueued[i].id == i)
    && (forall id :: id in s.finished ==> id < |s.started|)
    && s.runningJobs + |s.finished| == |s.started|
    && s.runningJobs <= CONCURRENCY
    && (forall t :: t in s.jobsByTarget ==>
          s.jobsByTarget[t] < |s.enqueued| && s.enqueued[s.jobsByTarget[t]].target == t && s.jobsByTarget[t] !in s.finished)
  }

  lemma {:induction false} DrainKeepsInv(s: State)
    requires Inv(s)
    ensures Inv(Drained(s))
    ensures Drained(s).runningJobs == CONCURRENCY || Drained(s).queued == []
    ensures s.started <= Drained(s).started && Drained(s).enqueued == s.enqueued
    ensures Drained(s).finished == s.finished && Drained(s).jobsByTarget == s.jobsByTarget && Drained(s).awaiting == s.awaiting
    decreases |s.queued|
  {
    if s.runningJobs < CONCURRENCY && s.queued != [] {
      var t := s.(queued := s.queued[1..], runningJobs := s.runningJobs + 1, started := s.started + [s.queued[0]]);
      assert t.started + t.queued == s.started + s.queued;
      DrainKeepsInv(t);
    }
  }

  lemma RegisterKeepsInv(s: State, target: string)
    requires Inv(s)
    ensures Inv(Registered(s, target))
  {
    var t := Registered(s, target);
    assert t.started + t.queued == (s.started + s.queued) + [Job(|s.enqueued|, target)];
  }

  lemma FinishKeepsInv(s: State, id: nat)
    requires Inv(s) && IsRunning(s, id) && s.runningJobs > 0
    ensures Inv(Finished(s, id))
  {
    assert s.enqueued[id] == s.started[id];
  }

  lemma StepKeepsInv(s: State, e: Event)
    requires Inv(s) && Enabled(s, e)
    ensures Inv(Step(s, e))
    ensures s.started <= Step(s, e).started && s.finished <= Step(s, e).finished
  {
    match e {
      case Lookup(_, _) =>
      case AlreadyCached(_) =>
      case Register(request) => RegisterKeepsInv(s, s.awaiting[request]);
      case DrainTick => DrainKeepsInv(s);
      case Completed(id) => FinishKeepsInv(s, id); DrainKeepsInv(Finished(s, id));
    }
  }

  lemma {:induction false} InvHolds(states: seq<State>, events: seq<Event>, i: nat)
    requires IsRun(states, events) && i < |states|
    ensures Inv(states[i])
  {
    if i > 0 {
      InvHolds(states, events, i - 1);
      StepKeepsInv(states[i - 1], events[i - 1]);
    }
  }

  /** A running job occupies a slot, so the counter never goes below zero. */
  lemma RunningJobHasSlot(s: State, id: nat)
    requires Inv(s) && IsRunning(s, id)
    ensures s.runningJobs > 0
  {
    var all := NumbersBelow(|s.started|);
    assert s.finished <= all - {id};
    SubsetIsSmaller(s.finished, all - {id});
  }

  lemma {:induction false} SubsetIsSmaller(a: set<nat>, b: set<nat>)
    requires a <= b
    ensures |a| <= |b|
  {
    if x :| x in a {
      SubsetIsSmaller(a - {x}, b - {x});
    }
  }

  // ----- main results

  /** At every moment at most two jobs run; jobs start in the order they were enqueued
      and once each; every job is queued, running or finished. */
  lemma QueueIsFair(states: seq<State>, events: seq<Event>, i: nat)
    requires IsRun(states, events) && i < |states|
    ensures states[i].runningJobs <= 2
    ensures states[i].started <= states[i].enqueued
    ensures |states[i].enqueued| == |states[i].queued| + states[i].runningJobs + |states[i].finished|
    ensures states[i].runningJobs == |NumbersBelow(|states[i].started|) - states[i].finished|
  {
    InvHolds(states, events, i);
    assert states[i].finished <= NumbersBelow(|states[i].started|);
  }

  function NumbersBelow(n: nat): (r: set<nat>)
    ensures |r| == n && forall k: nat :: k in r <==> k < n
  {
    if n == 0 then {} else NumbersBelow(n - 1) + {n - 1}
  }

  /** No drain and no completion leaves a free slot beside a queued job. */
  lemma NoIdleSlot(states: seq<State>, events: seq<Event>, i: nat)
    requires IsRun(states, events) && i < |events| && (events[i].DrainTick? || events[i].Completed?)
    ensures states[i + 1].runningJobs == 2 || states[i + 1].queued == []
  {
    InvHolds(states, events, i);
    var s := states[i];
    if events[i].DrainTick? {
      DrainKeepsInv(s);
    } else {
      FinishKeepsInv(s, events[i].id);
      DrainKeepsInv(Finished(s, events[i].id));
    }
  }

  /** The job a later request is pointed to by its lookup is still queued or running. */
  lemma JoinedJobIsUnfinished(states: seq<State>, events: seq<Event>, i: nat, target: string)
    requires IsRun(states, events) && i < |states| && target in states[i].jobsByTarget
    ensures states[i].jobsByTarget[target] < |states[i].enqueued| && states[i].jobsByTarget[target] !in states[i].finished
    ensures states[i].enqueued[states[i].jobsByTarget[target]].target == target
  {
    InvHolds(states, events, i);
  }

  // ----- one job per target

  ghost predicate OneJobPerTarget(s: State) {
    forall a, b :: 0 <= a < b < |s.enqueued| && a !in s.finished && b !in s.finished ==> s.enqueued[a].target != s.enqueued[b].target
  }

  /** Every unfinished job is the one its target points to. */
  ghost predicate Tracked(s: State) {
    forall id :: 0 <= id < |s.enqueued| && id !in s.finished ==>
      s.enqueued[id].target in s.jobsByTarget && s.jobsByTarget[s.enqueued[id].target] == id
  }

  /** No request registers a job for a target that has got one since its lookup. */
  ghost predicate Guarded(states: seq<State>, events: seq<Event>)
    requires IsRun(states, events)
  {
    forall i :: 0 <= i < |events| && events[i].Register? ==> states[i].awaiting[events[i].request] !in states[i].jobsByTarget
  }

  lemma TrackedFinish(s: State, id: nat)
    requires Inv(s) && IsRunning(s, id) && s.runningJobs > 0 && Tracked(s)
    ensures Tracked(Finished(s, id))
  {
    assert s.enqueued[id] == s.started[id];
  }

  lemma TrackedDrain(s: State)
    requires Inv(s) && Tracked(s)
    ensures Tracked(Drained(s))
  {
    DrainKeepsInv(s);
  }

  lemma TrackedStep(s: State, e: Event)
    requires Inv(s) && Enabled(s, e) && Tracked(s) && (e.Register? ==> s.awaiting[e.request] !in s.jobsByTarget)
    ensures Tracked(Step(s, e))
  {
    hide Drained;
    match e {
      case Lookup(_, _) =>
      case AlreadyCached(_) =>
      case Register(_) =>
      case DrainTick => TrackedDrain(s);
      case Completed(id) =>
        FinishKeepsInv(s, id);
        TrackedFinish(s, id);
        TrackedDrain(Finished(s, id));
    }
  }

  lemma TrackedIsOnePerTarget(s: State)
    requires Tracked(s)
    ensures OneJobPerTarget(s)
  {
  }

  /** The jobs of a guarded run are tracked throughout. */
  lemma {:induction false} GuardedRunIsTracked(states: seq<State>, events: seq<Event>, i: nat)
    requires IsRun(states, events) && i < |states|
    requires forall k :: 0 <= k < i && events[k].Register? ==> states[k].awaiting[events[k].request] !in states[k].jobsByTarget
    ensures Tracked(states[i])
  {
    if i > 0 {
      GuardedRunIsTracked(states, events, i - 1);
      InvHolds(states, events, i - 1);
      TrackedStep(states[i - 1], events[i - 1]);
    }
  }

  lemma LateRegistrationMakesTwo(s: State, request: nat)
    requires Inv(s) && request in s.awaiting && s.awaiting[request] in s.jobsByTarget
    ensures !OneJobPerTarget(Step(s, Register(request)))
  {
    var t, other := Step(s, Register(request)), s.jobsByTarget[s.awaiting[request]];
    assert t.enqueued[other].target == t.enqueued[|s.enqueued|].target;
  }

  /** No target ever has two unfinished jobs exactly when every lookup still holds at registration. */
  lemma {:induction false} OneJobPerTargetNeedsFreshLookup(states: seq<State>, events: seq<Event>)
    requires IsRun(states, events)
    ensures (forall i :: 0 <= i < |states| ==> OneJobPerTarget(states[i])) <==> Guarded(states, events)
  {
    if Guarded(states, events) {
      forall i | 0 <= i < |states| ensures OneJobPerTarget(states[i]) {
        GuardedRunIsTracked(states, events, i);
        TrackedIsOnePerTarget(states[i]);
      }
    } else {
      var i :| 0 <= i < |events| && events[i].Register? && states[i].awaiting[events[i].request] in states[i].jobsByTarget;
      InvHolds(states, events, i);
      LateRegistrationMakesTwo(states[i], events[i].request);
      assert !OneJobPerTarget(states[i + 1]);
    }
  }

  // ----- what a request does after its lookup

  predicate IsOf(e: Event, request: nat) {
    (e.Lookup? || e.AlreadyCached? || e.Register?) && e.request == request
  }

  /** Event `i` registers a job for this target. */
  ghost predicate RegistersFor(states: seq<State>, events: seq<Event>, i: nat, target: string)
    requires i < |events| && i + 1 < |states|
  {
    events[i].Register? && |states[i + 1].enqueued| > |states[i].enqueued| && states[i + 1].enqueued[|states[i].enqueued|].target == target
  }

  /** Event `i` completes a job of this target. */
  ghost predicate CompletesFor(states: seq<State>, events: seq<Event>, i: nat, target: string)
    requires i < |events| && i < |states|
  {
    events[i].Completed? && events[i].id < |states[i].enqueued| && states[i].enqueued[events[i].id].target == target
  }

  /** By the history a job for this target was registered, and none was completed since. */
  ghost predicate Known(states: seq<State>, events: seq<Event>, i: nat, target: string)
    requires i <= |events| < |states|
  {
    exists m :: 0 <= m < i && RegistersFor(states, events, m, target)
      && forall n :: m < n < i ==> !CompletesFor(states, events, n, target)
  }

  lemma {:induction false} KnownStep(states: seq<State>, events: seq<Event>, i: nat, target: string)
    requires 0 < i <= |events| < |states|
    ensures Known(states, events, i, target) <==>
            RegistersFor(states, events, i - 1, target)
            || (Known(states, events, i - 1, target) && !CompletesFor(states, events, i - 1, target))
  {
    if Known(states, events, i - 1, target) && !CompletesFor(states, events, i - 1, target) {
      var m :| 0 <= m < i - 1 && RegistersFor(states, events, m, target)
        && forall n :: m < n < i - 1 ==> !CompletesFor(states, events, n, target);
      assert RegistersFor(states, events, m, target) && forall n :: m < n < i ==> !CompletesFor(states, events, n, target);
    }
  }

  lemma {:induction false} TargetsStep(s: State, e: Event, target: string)
    requires Inv(s) && Enabled(s, e)
    ensures var t := Step(s, e);
            target in t.jobsByTarget <==>
            || (e.Register? && |t.enqueued| > |s.enqueued| && t.enqueued[|s.enqueued|].target == target)
            || (target in s.jobsByTarget && !(e.Completed? && e.id < |s.enqueued| && s.enqueued[e.id].target == target))
  {
    if e.DrainTick? { DrainKeepsInv(s); }
    if e.Completed? {
      FinishKeepsInv(s, e.id);
      DrainKeepsInv(Finished(s, e.id));
      assert s.enqueued[e.id] == s.started[e.id];
    }
    hide Drained;
  }

  /** A lookup finds a job exactly when the history knows one. */
  lemma {:induction false} LookupKnows(states: seq<State>, events: seq<Event>, i: nat, target: string)
    requires IsRun(states, events) && i < |states|
    ensures target in states[i].jobsByTarget <==> Known(states, events, i, target)
  {
    if i > 0 {
      LookupKnows(states, events, i - 1, target);
      InvHolds(states, events, i - 1);
      TargetsStep(states[i - 1], events[i - 1], target);
      KnownStep(states, events, i, target);
      hide Step, Known, Inv, Enabled;
    }
  }

  /** Moment `j` is the lookup after which the request has done nothing else up to moment `i`. */
  ghost predicate LastOf(events: seq<Event>, j: nat, i: nat, request: nat, target: string) {
    j < i <= |events| && events[j] == Lookup(request, target) && forall k :: j < k < i ==> !IsOf(events[k], request)
  }

  lemma {:induction false} AwaitingStep(s: State, e: Event, request: nat)
    requires Inv(s) && Enabled(s, e) && request in Step(s, e).awaiting
    ensures var target := Step(s, e).awaiting[request];
            || (e == Lookup(request, target) && target !in s.jobsByTarget)
            || (!IsOf(e, request) && request in s.awaiting && s.awaiting[request] == target)
  {
    if e.DrainTick? { DrainKeepsInv(s); }
    if e.Completed? {
      FinishKeepsInv(s, e.id);
      DrainKeepsInv(Finished(s, e.id));
    }
    hide Drained;
  }

  lemma {:induction false} WaitsSinceItsLookup(states: seq<State>, events: seq<Event>, i: nat, request: nat) returns (j: nat)
    requires IsRun(states, events) && i < |states| && request in states[i].awaiting
    ensures LastOf(events, j, i, request, states[i].awaiting[request])
    ensures states[i].awaiting[request] !in states[j].jobsByTarget
  {
    InvHolds(states, events, i - 1);
    AwaitingStep(states[i - 1], events[i - 1], request);
    hide Step, Enabled, Inv;
    if events[i - 1] == Lookup(request, states[i].awaiting[request]) && states[i].awaiting[request] !in states[i - 1].jobsByTarget {
      j := i - 1;
    } else {
      j := WaitsSinceItsLookup(states, events, i - 1, request);
    }
  }

  /** A request registers one job, for the target of its last lookup, and that lookup found
      no job: by the history none was registered for the target without one being completed
      since. A request that was pointed to a job registers none from that lookup. */
  lemma {:induction false} RegistrationFollowsAMiss(states: seq<State>, events: seq<Event>, i: nat)
    requires IsRun(states, events) && i < |events| && events[i].Register?
    ensures exists j: nat, target ::
              && LastOf(events, j, i, events[i].request, target) && !Known(states, events, j, target)
              && states[i + 1].enqueued == states[i].enqueued + [Job(|states[i].enqueued|, target)]
  {
    var request := events[i].request;
    var j := WaitsSinceItsLookup(states, events, i, request);
    LookupKnows(states, events, j, states[i].awaiting[request]);
    assert LastOf(events, j, i, request, states[i].awaiting[request]);
  }

  /** A request whose lookup missed may register until it does something else. */
  lemma {:induction false} MissMayRegister(states: seq<State>, events: seq<Event>, j: nat, i: nat, request: nat, target: string)
    requires IsRun(states, events) && LastOf(events, j, i, request, target) && !Known(states, events, j, target)
    ensures Enabled(states[i], Register(request)) && states[i].awaiting[request] == target
    decreases i
  {
    InvHolds(states, events, i - 1);
    LookupKnows(states, events, j, target);
    WaitingStays(states[i - 1], events[i - 1], request);
    if j < i - 1 { MissMayRegister(states, events, j, i - 1, request, target); }
  }

  lemma {:induction false} WaitingStays(s: State, e: Event, request: nat)
    requires Inv(s) && Enabled(s, e)
    ensures !IsOf(e, request) && request in s.awaiting ==>
      request in Step(s, e).awaiting && Step(s, e).awaiting[request] == s.awaiting[request]
    ensures e.Lookup? && e.request == request && e.target !in s.jobsByTarget ==>
      request in Step(s, e).awaiting && Step(s, e).awaiting[request] == e.target
  {
    if e.DrainTick? { DrainKeepsInv(s); }
    if e.Completed? {
      FinishKeepsInv(s, e.id);
      DrainKeepsInv(Finished(s, e.id));
    }
    hide Drained;
  }

  ghost predicate Unfinished(s: State, id: nat, target: string) {
    id < |s.enqueued| && s.enqueued[id].target == target && id !in s.finished
  }

  /** Some job of the target completed while another one was unfinished that still is. */
  ghost predicate TwinRemains(states: seq<State>, events: seq<Event>, i: nat, target: string)
    requires i <= |events| < |states|
  {
    exists id: nat, m :: 0 <= m < i && CompletesFor(states, events, m, target) && Unfinished(states[m + 1], id, target) && Unfinished(states[i], id, target)
  }

  lemma {:induction false} JobsGrow(states: seq<State>, events: seq<Event>, j: nat, i: nat)
    requires IsRun(states, events) && j <= i < |states|
    ensures states[j].enqueued <= states[i].enqueued && states[j].finished <= states[i].finished
    decreases i
  {
    if j < i {
      JobsGrow(states, events, j, i - 1);
      InvHolds(states, events, i - 1);
      EnqueuedGrows(states[i - 1], events[i - 1]);
    }
  }

  lemma {:induction false} EnqueuedGrows(s: State, e: Event)
    requires Inv(s) && Enabled(s, e)
    ensures s.enqueued <= Step(s, e).enqueued && s.finished <= Step(s, e).finished
    ensures |Step(s, e).enqueued| == |s.enqueued| + if e.Register? then 1 else 0
  {
    StepKeepsInv(s, e);
    if e.DrainTick? { DrainKeepsInv(s); }
    if e.Completed? {
      FinishKeepsInv(s, e.id);
      DrainKeepsInv(Finished(s, e.id));
    }
    hide Drained;
  }

  /** When a lookup misses although a job of its target is unfinished: exactly when another
      job of the target has completed beside it. */
  lemma {:induction false} MissedJobHadATwin(states: seq<State>, events: seq<Event>, i: nat, target: string)
    requires IsRun(states, events) && i < |states| && !Known(states, events, i, target)
    ensures (exists id: nat :: Unfinished(states[i], id, target)) <==> TwinRemains(states, events, i, target)
  {
    if id: nat :| Unfinished(states[i], id, target) {
      var r := RegistrationOf(states, events, i, id);
      assert RegistersFor(states, events, r, target);
      var m :| r < m < i && CompletesFor(states, events, m, target);
      JobsGrow(states, events, r + 1, m + 1);
      JobsGrow(states, events, m + 1, i);
      assert Unfinished(states[m + 1], id, target);
    }
  }

  lemma {:induction false} RegistrationOf(states: seq<State>, events: seq<Event>, i: nat, id: nat) returns (r: nat)
    requires IsRun(states, events) && i < |states| && id < |states[i].enqueued|
    ensures r < i && events[r].Register? && |states[r].enqueued| == id && id < |states[r + 1].enqueued|
    ensures states[r + 1].enqueued[id] == states[i].enqueued[id]
  {
    InvHolds(states, events, i - 1);
    EnqueuedGrows(states[i - 1], events[i - 1]);
    hide Step, Enabled, Inv;
    if id < |states[i - 1].enqueued| { r := RegistrationOf(states, events, i - 1, id); } else { r := i - 1; }
  }

  /** In a run where every registration still finds no job, a request registers only after a
      lookup at which no job of its target was unfinished. */
  lemma {:induction false} GuardedLookupIsTrue(states: seq<State>, events: seq<Event>, i: nat)
    requires IsRun(states, events) && i < |events| && events[i].Register? && Guarded(states, events)
    ensures exists j: nat, target :: LastOf(events, j, i, events[i].request, target) && forall id: nat :: !Unfinished(states[j], id, target)
  {
    var request := events[i].request;
    var j := WaitsSinceItsLookup(states, events, i, request);
    GuardedRunIsTracked(states, events, j);
    assert LastOf(events, j, i, request, states[i].awaiting[request]);
  }

  lemma DrainTwo(s: State, first: Job, second: Job)
    requires s.queued == [first, second] && s.runningJobs == 0 && s.started == []
    ensures Drained(s) == s.(queued := [], runningJobs := 2, started := [first, second])
  {
    var one := s.(queued := [second], runningJobs := 1, started := [first]);
    var two := s.(queued := [], runningJobs := 2, started := [first, second]);
    assert s.(queued := s.queued[1..], runningJobs := 1, started := s.started + [s.queued[0]]) == one;
    assert one.(queued := one.queued[1..], runningJobs := 2, started := one.started + [one.queued[0]]) == two;
    assert Drained(one) == Drained(two) == two;
  }

  /** After both lookups, and after each of the two registrations. */
  function Overlap(target: string, registered: nat): State
    requires registered <= 2
  {
    var first, second := Job(0, target), Job(1, target);
    if registered == 0 then Start.(awaiting := map[0 := target, 1 := target])
    else if registered == 1 then State(map[target := 0], [first], 0, map[1 := target], [first], [], {})
    else State(map[target := 1], [first, second], 0, map[], [first, second], [], {})
  }

  lemma OverlapSteps(target: string)
    ensures Step(Step(Start, Lookup(0, target)), Lookup(1, target)) == Overlap(target, 0)
    ensures Step(Overlap(target, 0), Register(0)) == Overlap(target, 1)
    ensures Step(Overlap(target, 1), Register(1)) == Overlap(target, 2)
  {
  }

  /** Two overlapping requests for one target get two jobs, and both run at once. */
  lemma TwoRequestsTwoJobs(target: string) returns (states: seq<State>, events: seq<Event>)
    ensures IsRun(states, events) && events == [Lookup(0, target), Lookup(1, target), Register(0), Register(1), DrainTick]
    ensures states[5].started == [Job(0, target), Job(1, target)] && states[5].runningJobs == 2 && states[5].awaiting == map[]
    ensures !OneJobPerTarget(states[5])
  {
    events := [Lookup(0, target), Lookup(1, target), Register(0), Register(1), DrainTick];
    OverlapSteps(target);
    var s1, s4 := Step(Start, Lookup(0, target)), Overlap(target, 2);
    DrainTwo(s4, Job(0, target), Job(1, target));
    assert s4.enqueued[0].target == s4.enqueued[1].target;
    var s5 := Step(s4, DrainTick);
    hide Step, Drained;
    states := [Start, s1, Overlap(target, 0), Overlap(target, 1), s4, s5];
    assert s5.enqueued[0].target == s5.enqueued[1].target;
  }

  /** When one of them completes, a third request does not find the other, which still runs. */
  lemma TwinIsMissed(target: string) returns (states: seq<State>, events: seq<Event>)
    ensures IsRun(states, events) && |events| == 7 && events[5..] == [Completed(0), Lookup(2, target)]
    ensures Unfinished(states[6], 1, target) && !Known(states, events, 6, target) && Enabled(states[7], Register(2))
  {
    var ran, done := TwoRequestsTwoJobs(target);
    InvHolds(ran, done, 5);
    var s6 := Step(ran[5], Completed(0));
    FinishKeepsInv(ran[5], 0);
    DrainKeepsInv(Finished(ran[5], 0));
    assert ran[5].started <= ran[5].enqueued;
    assert Finished(ran[5], 0).jobsByTarget == ran[5].jobsByTarget - {target};
    var s7 := Step(s6, Lookup(2, target));
    hide Step, Drained;
    states, events := ran + [s6, s7], done + [Completed(0), Lookup(2, target)];
    LookupKnows(states, events, 6, target);
  }

  // ----- the stateful form

  class FetchRoutes {
    var jobsByTarget: map<string, nat>
    var queuedJobs: seq<Job>
    var runningJobs: nat
    var awaiting: map<nat, string>
    ghost var enqueued: seq<Job>
    ghost var started: seq<Job>
    ghost var finished: set<nat>
    var nextId: nat

    ghost predicate Valid()
      reads this
    {
      Inv(Value()) && nextId == |enqueued|
    }

    ghost function Value(): State
      reads this
    {
      State(jobsByTarget, queuedJobs, runningJobs, awaiting, enqueued, started, finished)
    }

    constructor ()
      ensures Valid() && Value() == Start
    {
      jobsByTarget, queuedJobs, runningJobs, awaiting := map[], [], 0, map[];
      enqueued, started, finished, nextId := [], [], {}, 0;
    }

    /** The part of the fetch route before its awaits: a job that exists is joined. */
    method LookUp(request: nat, target: string) returns (existing: bool, id: nat)
      requires Valid() && request !in awaiting
      modifies this
      ensures Valid() && Value() == Step(old(Value()), Lookup(request, target))
      ensures existing <==> target in old(jobsByTarget)
      ensures awaiting == if existing then old(awaiting) else old(awaiting)[request := target]
      ensures existing ==> id < |enqueued| && enqueued[id].target == target && id !in finished
    {
      StepKeepsInv(Value(), Lookup(request, target));
      existing, id := target in jobsByTarget, 0;
      if existing { id := jobsByTarget[target]; } else { awaiting := awaiting[request := target]; }
    }

    /** The part after its awaits, when the binary is not cached: it does not look again. */
    method RegisterJob(request: nat) returns (job: Job)
      requires Valid() && request in awaiting
      modifies this
      ensures Valid() && Value() == Step(old(Value()), Register(request))
      ensures job == Job(old(nextId), old(awaiting[request]))
    {
      StepKeepsInv(Value(), Register(request));
      job := Job(nextId, awaiting[request]);
      awaiting := awaiting - {request};
      nextId := nextId + 1;
      jobsByTarget := jobsByTarget[job.target := job.id];
      queuedJobs := queuedJobs + [job];
      enqueued := enqueued + [job];
    }

    method DrainFetchQueue()
      requires Valid()
      modifies this
      ensures Valid() && Value() == Drained(old(Value()))
      ensures runningJobs == CONCURRENCY || queuedJobs == []
    {
      DrainKeepsInv(Value());
      while runningJobs < CONCURRENCY && queuedJobs != []
        invariant Drained(Value()) == Drained(old(Value())) && nextId == old(nextId) && enqueued == old(enqueued)
        decreases |queuedJobs|
      {
        var job := queuedJobs[0];
        queuedJobs := queuedJobs[1..];
        runningJobs := runningJobs + 1;
        started := started + [job];
      }
    }

    /** The `finally` of a running job. */
    method JobFinished(job: Job)
      requires Valid() && IsRunning(Value(), job.id) && job == started[job.id]
      modifies this
      ensures runningJobs == CONCURRENCY || queuedJobs == []
      ensures Valid() && old(Enabled(Value(), Completed(job.id))) && Value() == Step(old(Value()), Completed(job.id))
    {
      RunningJobHasSlot(Value(), job.id);
      FinishKeepsInv(Value(), job.id);
      hide Inv, Drained;
      runningJobs := runningJobs - 1;
      jobsByTarget := jobsByTarget - {job.target};
      finished := finished + {job.id};
      assert Value() == Finished(old(Value()), job.id);
      DrainFetchQueue();
    }
  }
}
