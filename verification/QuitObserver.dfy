/**
 `waitForHubQuit` (packages/hub/src/cli.ts): another process watches the record
 and the pid of the hub it asked to quit.

 The world may change between any two observations, so it is a function of the
 observation's number. `took(n)` is the time the n-th observation takes and
 `late(n)` how much longer than asked the n-th sleep takes.
 */
module QuitObserver {
  import opened Prelude
  import opened RuntimeRecord

  const POLL_MS: nat := 50

  datatype World = World(load: nat -> RecordFile, alive: nat -> bool, took: nat -> nat, late: nat -> nat)

  datatype Verdict = Confirmed | CannotRead | Replaced | NotConfirmed

  /** A record of a different modern hub. */
  predicate IsReplacement(load: RecordFile, target: string) {
    load.Present? && load.runtime.instanceId.Some? && load.runtime.instanceId.value != target
  }

  /** Record absent, pid dead, record absent, observed in this order from number `k` on. */
  ghost predicate SawQuit(w: World, k: nat) {
    w.load(k) == Absent && !w.alive(k + 1) && w.load(k + 2) == Absent
  }

  // ----- the course of the polling

  /** The failure that a record stands for, if any. */
  function Refusal(load: RecordFile, target: string): Option<Verdict> {
    if load == Unreadable then Some(CannotRead)
    else if IsReplacement(load, target) then Some(Replaced)
    else None
  }

  /** The number of the observation after the round that begins with number `k`. */
  function RoundEnd(w: World, k: nat): nat {
    if w.load(k) != Absent then k + 1 else if w.alive(k + 1) then k + 2 else k + 3
  }

  /** The number of the first observation of round `n`. */
  function RoundStart(w: World, n: nat): nat {
    if n == 0 then 0 else RoundEnd(w, RoundStart(w, n - 1))
  }

  /** What the round that begins with number `k` decides: the record first, then the pid,
      and the record again when the pid is dead. */
  function Decided(w: World, target: string, k: nat): Option<Verdict> {
    if w.load(k) != Absent then Refusal(w.load(k), target)
    else if w.alive(k + 1) then None
    else if w.load(k + 2) == Absent then Some(Confirmed)
    else Refusal(w.load(k + 2), target)
  }

  /** The time taken by the observations numbered from `first` to before `end`. */
  function Took(w: World, first: nat, end: nat): nat
    requires first <= end
    decreases end
  {
    if first == end then 0 else Took(w, first, end - 1) + w.took(end - 1)
  }

  /** The time taken by the first `sleeps` sleeps, overruns included. */
  function Slept(w: World, sleeps: nat): nat {
    if sleeps == 0 then 0 else Slept(w, sleeps - 1) + POLL_MS + w.late(sleeps - 1)
  }

  /** The time from the start to the end of round `rounds - 1`: all observations made and
      the sleeps between the rounds. */
  function Elapsed(w: World, rounds: nat): nat
    requires rounds > 0
  {
    Took(w, 0, RoundStart(w, rounds)) + Slept(w, rounds - 1)
  }

  /** Round `n` leaves the question open and ends before the timeout. */
  ghost predicate GoesOn(w: World, target: string, timeoutMs: nat, n: nat) {
    Decided(w, target, RoundStart(w, n)) == None && Elapsed(w, n + 1) < timeoutMs
  }

  ghost predicate AllGoOn(w: World, target: string, timeoutMs: nat, rounds: nat) {
    forall n :: 0 <= n < rounds ==> GoesOn(w, target, timeoutMs, n)
  }

  /** The watch takes `rounds` rounds and ends with `verdict`: every earlier round goes
      on, and the last one answers the question or ends too late. */
  ghost predicate Course(w: World, target: string, timeoutMs: nat, rounds: nat, verdict: Verdict) {
    && rounds > 0
    && AllGoOn(w, target, timeoutMs, rounds - 1)
    && match Decided(w, target, RoundStart(w, rounds - 1))
       case Some(answer) => verdict == answer
       case None => verdict == NotConfirmed && Elapsed(w, rounds) >= timeoutMs
  }

  // ----- the watch

  lemma {:induction false} TookAdds(w: World, first: nat, middle: nat, end: nat)
    requires first <= middle <= end
    ensures Took(w, first, end) == Took(w, first, middle) + Took(w, middle, end)
    decreases end
  {
    if middle < end { TookAdds(w, first, middle, end - 1); }
  }

  lemma {:induction false} ThreeObservations(w: World, k: nat)
    ensures Took(w, k, k + 1) == w.took(k)
    ensures Took(w, k, k + 2) == w.took(k) + w.took(k + 1)
    ensures Took(w, k, k + 3) == w.took(k) + w.took(k + 1) + w.took(k + 2)
  {
    assert Took(w, k, k) == 0;
  }

  lemma {:induction false} ConfirmsWhatItSaw(w: World, target: string, k: nat)
    ensures Decided(w, target, k) == Some(Confirmed) <==> SawQuit(w, k)
    ensures Decided(w, target, k) != Some(NotConfirmed)
  {
  }

  /** One round, from observation `k` on. */
  method ObserveRound(w: World, target: string, k: nat) returns (answer: Option<Verdict>, next: nat, took: nat)
    ensures k < next == RoundEnd(w, k) && answer == Decided(w, target, k) && took == Took(w, k, next)
  {
    ThreeObservations(w, k);
    var current := w.load(k);
    took, next := w.took(k), k + 1;
    if current == Unreadable { return Some(CannotRead), next, took; }
    if IsReplacement(current, target) { return Some(Replaced), next, took; }
    answer := None;
    if current == Absent {
      var alive := w.alive(next);
      took, next := took + w.took(next), next + 1;
      if !alive {
        current := w.load(next);
        took, next := took + w.took(next), next + 1;
        if current == Unreadable { return Some(CannotRead), next, took; }
        if IsReplacement(current, target) { return Some(Replaced), next, took; }
        if current == Absent { answer := Some(Confirmed); }
      }
    }
  }

  ghost predicate Ends(w: World, target: string, timeoutMs: nat, rounds: nat, verdict: Verdict) {
    && Course(w, target, timeoutMs, rounds, verdict)
    && (verdict == Confirmed <==> SawQuit(w, RoundStart(w, rounds - 1)))
    && (rounds > 1 ==> Elapsed(w, rounds) < timeoutMs + POLL_MS + w.late(rounds - 2) + LastTook(w, rounds))
  }

  /** The time that the last round takes. */
  function LastTook(w: World, rounds: nat): nat
    requires rounds > 0
  {
    Took(w, RoundStart(w, rounds - 1), RoundStart(w, rounds))
  }

  /** The watch overruns its timeout by at most one sleep and one round, and confirms
      exactly when its last round saw the hub gone. */
  lemma {:induction false} CourseIsTimely(w: World, target: string, timeoutMs: nat, rounds: nat, verdict: Verdict)
    requires Course(w, target, timeoutMs, rounds, verdict)
    ensures Ends(w, target, timeoutMs, rounds, verdict)
  {
    hide SawQuit, Decided, Took;
    ConfirmsWhatItSaw(w, target, RoundStart(w, rounds - 1));
    if rounds > 1 {
      assert GoesOn(w, target, timeoutMs, rounds - 2);
      TookAdds(w, 0, RoundStart(w, rounds - 1), RoundStart(w, rounds));
    }
  }

  /** What the last of `rounds` rounds means for the watch. */
  lemma {:induction false} RoundCounts(w: World, target: string, timeoutMs: nat, rounds: nat)
    requires rounds > 0 && AllGoOn(w, target, timeoutMs, rounds - 1)
    ensures var answer := Decided(w, target, RoundStart(w, rounds - 1));
            if answer.Some? then Ends(w, target, timeoutMs, rounds, answer.value)
            else if Elapsed(w, rounds) >= timeoutMs then Ends(w, target, timeoutMs, rounds, NotConfirmed)
            else AllGoOn(w, target, timeoutMs, rounds)
  {
    var answer := Decided(w, target, RoundStart(w, rounds - 1));
    hide Decided, Elapsed, RoundStart, Ends;
    if answer.Some? { CourseIsTimely(w, target, timeoutMs, rounds, answer.value); }
    else if Elapsed(w, rounds) >= timeoutMs { CourseIsTimely(w, target, timeoutMs, rounds, NotConfirmed); }
  }

  lemma {:induction false} EndsMeans(w: World, target: string, timeoutMs: nat, rounds: nat, verdict: Verdict)
    requires rounds > 0 && Ends(w, target, timeoutMs, rounds, verdict)
    ensures Course(w, target, timeoutMs, rounds, verdict)
    ensures verdict == Confirmed <==> SawQuit(w, RoundStart(w, rounds - 1))
    ensures rounds > 1 ==> Elapsed(w, rounds) < timeoutMs + POLL_MS + w.late(rounds - 2) + LastTook(w, rounds)
  {
  }

  lemma {:induction false} ClockAdds(w: World, rounds: nat)
    requires rounds > 0
    ensures RoundStart(w, rounds) == RoundEnd(w, RoundStart(w, rounds - 1))
    ensures Elapsed(w, rounds) == Took(w, 0, RoundStart(w, rounds)) + Slept(w, rounds - 1)
    ensures Slept(w, rounds) == Slept(w, rounds - 1) + POLL_MS + w.late(rounds - 1)
  {
  }

  /** `observations` and `elapsed` are the observations made and the time spent. */
  method WaitForHubQuit(w: World, target: string, timeoutMs: nat)
    returns (verdict: Verdict, rounds: nat, observations: nat, elapsed: nat)
    ensures Course(w, target, timeoutMs, rounds, verdict)
    ensures observations == RoundStart(w, rounds) && elapsed == Elapsed(w, rounds)
    ensures verdict == Confirmed <==> SawQuit(w, RoundStart(w, rounds - 1))
    ensures rounds > 1 ==> elapsed < timeoutMs + 50 + w.late(rounds - 2) + LastTook(w, rounds)
  {
    observations, elapsed, rounds := 0, 0, 0;
    assert Took(w, 0, observations) == 0 && Slept(w, 0) == 0 && RoundStart(w, 0) == 0 && AllGoOn(w, target, timeoutMs, 0);
    hide RoundEnd, Decided, Took, SawQuit, Refusal, GoesOn, AllGoOn, Course, LastTook, RoundStart, Slept, Elapsed, Ends;
    while true
      invariant observations == RoundStart(w, rounds)
      invariant elapsed == Took(w, 0, observations) + Slept(w, rounds)
      invariant AllGoOn(w, target, timeoutMs, rounds)
      decreases timeoutMs - elapsed
    {
      var answer, next, took := ObserveRound(w, target, observations);
      TookAdds(w, 0, observations, next);
      observations, elapsed, rounds := next, elapsed + took, rounds + 1;
      ClockAdds(w, rounds);
      RoundCounts(w, target, timeoutMs, rounds);
      if answer.Some? {
        verdict := answer.value;
        EndsMeans(w, target, timeoutMs, rounds, verdict);
        return;
      }
      if elapsed >= timeoutMs {
        verdict := NotConfirmed;
        EndsMeans(w, target, timeoutMs, rounds, verdict);
        return;
      }
      elapsed := elapsed + POLL_MS + w.late(rounds - 1);
    }
  }

  // ----- what a course means

  /** The world and the timeout leave one course. */
  lemma {:induction false} CourseIsUnique(w: World, target: string, timeoutMs: nat, rounds: nat, verdict: Verdict, rounds': nat, verdict': Verdict)
    requires Course(w, target, timeoutMs, rounds, verdict) && Course(w, target, timeoutMs, rounds', verdict')
    ensures rounds == rounds' && verdict == verdict'
  {
    hide RoundStart, Elapsed, Decided;
    assert rounds < rounds' ==> GoesOn(w, target, timeoutMs, rounds - 1);
    assert rounds' < rounds ==> GoesOn(w, target, timeoutMs, rounds' - 1);
  }

  /** The number of the last observation of the record in the round that begins with number
      `k`: its third one when record and pid are gone, else its first. */
  function LastRead(w: World, k: nat): nat {
    if w.load(k) == Absent && !w.alive(k + 1) then k + 2 else k
  }

  /** Legacy records and the target's own do not stand for another hub. */
  predicate MayBeTarget(load: RecordFile, target: string) {
    load.Present? && (load.runtime.instanceId == None || load.runtime.instanceId == Some(target))
  }

  /** The verdict, by what the record held when it was last read: another hub's instance,
      something unreadable, nothing while the pid is dead, or anything else and too late. */
  lemma {:induction false} VerdictIsWhatWasRead(w: World, target: string, timeoutMs: nat, rounds: nat, verdict: Verdict)
    requires Course(w, target, timeoutMs, rounds, verdict)
    ensures var k := RoundStart(w, rounds - 1);
            var last := w.load(LastRead(w, k));
            && (verdict == Replaced <==> last.Present? && last.runtime.instanceId != None && last.runtime.instanceId != Some(target))
            && (verdict == CannotRead <==> last == Unreadable)
            && (verdict == Confirmed <==> last == Absent && LastRead(w, k) == k + 2)
            && (verdict == NotConfirmed <==> MayBeTarget(last, target) || (last == Absent && w.alive(k + 1)))
            && (verdict == NotConfirmed ==> Elapsed(w, rounds) >= timeoutMs)
  {
    RoundAnswers(w, target, RoundStart(w, rounds - 1));
    hide RoundStart, Elapsed, Decided, LastRead, MayBeTarget, AllGoOn;
  }

  lemma {:induction false} RoundAnswers(w: World, target: string, k: nat)
    ensures var last := w.load(LastRead(w, k));
            && (Decided(w, target, k) == Some(Replaced) <==> last.Present? && last.runtime.instanceId != None && last.runtime.instanceId != Some(target))
            && (Decided(w, target, k) == Some(CannotRead) <==> last == Unreadable)
            && (Decided(w, target, k) == Some(Confirmed) <==> last == Absent && LastRead(w, k) == k + 2)
            && (Decided(w, target, k) == None <==> MayBeTarget(last, target) || (last == Absent && w.alive(k + 1)))
            && Decided(w, target, k) != Some(NotConfirmed)
  {
  }

  /** While the record may still be the target's own, or is gone before its pid, the watch goes on. */
  lemma {:induction false} OwnRecordIsPolled(w: World, target: string, timeoutMs: nat, rounds: nat, verdict: Verdict, n: nat)
    requires Course(w, target, timeoutMs, rounds, verdict) && n < rounds
    requires var first := w.load(RoundStart(w, n));
             MayBeTarget(first, target) || (first == Absent && w.alive(RoundStart(w, n) + 1))
    ensures n < rounds - 1 || (verdict == NotConfirmed && Elapsed(w, rounds) >= timeoutMs)
  {
    RoundAnswers(w, target, RoundStart(w, n));
    hide RoundStart, Elapsed, Decided, AllGoOn;
  }

  /** Observation `k` reads the record, in round `n`. */
  ghost predicate ReadsRecord(w: World, n: nat, k: nat) {
    k == RoundStart(w, n) || (k == RoundStart(w, n) + 2 && RoundStart(w, n + 1) == k + 1)
  }

  lemma {:induction false} RefusedOrHarmless(load: RecordFile, target: string)
    ensures Refusal(load, target) == None <==> load == Absent || MayBeTarget(load, target)
    ensures Refusal(load, target) in {None, Some(CannotRead), Some(Replaced)}
  {
  }

  lemma {:induction false} BadRecordDecides(w: World, target: string, timeoutMs: nat, rounds: nat, verdict: Verdict, n: nat, k: nat)
    requires Course(w, target, timeoutMs, rounds, verdict) && n < rounds && ReadsRecord(w, n, k)
    requires w.load(k) != Absent && !MayBeTarget(w.load(k), target)
    ensures verdict in {CannotRead, Replaced}
  {
    RefusedOrHarmless(w.load(k), target);
    assert Decided(w, target, RoundStart(w, n)) == Refusal(w.load(k), target);
    hide RoundStart, Elapsed, Decided;
    assert n < rounds - 1 ==> GoesOn(w, target, timeoutMs, n);
  }

  lemma {:induction false} LastReadDecides(w: World, target: string, k: nat)
    ensures Decided(w, target, k) in {Some(CannotRead), Some(Replaced)} ==>
      var last := RoundEnd(w, k) - 1;
      && last in {k, k + 2} && w.load(last) != Absent && !MayBeTarget(w.load(last), target)
      && Refusal(w.load(last), target) == Decided(w, target, k)
  {
  }

  lemma {:induction false} DecidedByRecord(w: World, target: string, timeoutMs: nat, rounds: nat, verdict: Verdict)
    requires Course(w, target, timeoutMs, rounds, verdict) && verdict in {CannotRead, Replaced}
    ensures rounds > 0
    ensures var k := RoundStart(w, rounds) - 1;
            && k >= 0 && ReadsRecord(w, rounds - 1, k) && w.load(k) != Absent && !MayBeTarget(w.load(k), target)
            && Refusal(w.load(k), target) == Some(verdict)
  {
    var k := RoundStart(w, rounds - 1);
    assert RoundStart(w, rounds) == RoundEnd(w, k);
    hide Elapsed, AllGoOn, RoundStart, RoundEnd, Refusal, IsReplacement, MayBeTarget, Decided;
    LastReadDecides(w, target, k);
  }

  /** The watch ends without a failure of the record exactly when no record that it read is
      unreadable or belongs to a replacement; otherwise the last one read names the failure. */
  lemma {:induction false} BadRecordFails(w: World, target: string, timeoutMs: nat, rounds: nat, verdict: Verdict)
    requires Course(w, target, timeoutMs, rounds, verdict)
    ensures verdict in {Confirmed, NotConfirmed} <==>
            forall n: nat, k: nat :: n < rounds && ReadsRecord(w, n, k) ==> w.load(k) == Absent || MayBeTarget(w.load(k), target)
    ensures verdict in {CannotRead, Replaced} ==> Refusal(w.load(RoundStart(w, rounds) - 1), target) == Some(verdict)
  {
    hide *;
    forall n: nat, k: nat | n < rounds && ReadsRecord(w, n, k) && w.load(k) != Absent && !MayBeTarget(w.load(k), target)
      ensures verdict in {CannotRead, Replaced}
    {
      BadRecordDecides(w, target, timeoutMs, rounds, verdict, n, k);
    }
    if verdict in {CannotRead, Replaced} { DecidedByRecord(w, target, timeoutMs, rounds, verdict); }
  }

  /** A hub that is gone is not missed: once every observation from `m` on finds the record
      absent and the pid dead, giving up means that the last round began before. */
  lemma {:induction false} GoneHubIsConfirmed(w: World, target: string, timeoutMs: nat, rounds: nat, verdict: Verdict, m: nat)
    requires Course(w, target, timeoutMs, rounds, verdict)
    requires forall k: nat :: m <= k ==> w.load(k) == Absent && !w.alive(k)
    ensures RoundStart(w, rounds - 1) >= m ==> verdict == Confirmed
    ensures verdict == NotConfirmed ==> RoundStart(w, rounds - 1) < m && Elapsed(w, rounds) >= timeoutMs
  {
    var k := RoundStart(w, rounds - 1);
    if k >= m { assert SawQuit(w, k); }
  }

  /** All sleeps but the last are over before the timeout, which bounds the rounds. */
  lemma {:induction false} RoundsAreBounded(w: World, target: string, timeoutMs: nat, rounds: nat, verdict: Verdict)
    requires Course(w, target, timeoutMs, rounds, verdict)
    ensures (rounds - 2) * 50 < timeoutMs
  {
    if rounds >= 2 {
      SleptAtLeast(w, rounds - 2);
      assert GoesOn(w, target, timeoutMs, rounds - 2);
    }
  }

  lemma {:induction false} SleptAtLeast(w: World, sleeps: nat)
    ensures Slept(w, sleeps) >= sleeps * POLL_MS
  {
    if sleeps > 0 { SleptAtLeast(w, sleeps - 1); }
  }
}
