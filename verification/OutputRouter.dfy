/**
 The daemon's single active connection and its output router
 (crates/lasterm-agent/src/daemon.rs). Connections are numbered from 1 in the
 order they are accepted; the number also stands for the connection's cancel
 token, which is what `clear_active_if_ours` compares.
 */
module OutputRouter {
  import opened Prelude
  import OutputBatching

  /** A frame by the batch it carries; its time stamp and encoding are not modelled. */
  type Frame = OutputBatching.Batch

  const MAX_FRAME_QUEUE: nat := 1000

  datatype Event =
    | Accept                  // a hub connects and displaces its predecessor
    | HandlerExit(conn: nat)  // a connection's handler ends, at whatever point
    | Output(frame: Frame)    // the router takes the next batch

  /** A frame given to the writer of a connection. */
  datatype Handover = Handover(conn: nat, frame: Frame)

  datatype State = State(accepted: nat, active: Option<nat>, cancelled: set<nat>, pending: seq<Frame>, handed: seq<Handover>)

  const Start := State(0, None, {}, [], [])

  function AllTo(conn: nat, frames: seq<Frame>): (r: seq<Handover>)
    ensures |r| == |frames| && forall i :: 0 <= i < |r| ==> r[i] == Handover(conn, frames[i])
  {
    seq(|frames|, i requires 0 <= i < |frames| => Handover(conn, frames[i]))
  }

  lemma AllToAppend(conn: nat, frames: seq<Frame>, frame: Frame)
    ensures AllTo(conn, frames + [frame]) == AllTo(conn, frames) + [Handover(conn, frame)]
  {
  }

  function Step(s: State, e: Event): State {
    match e
    case Accept =>
      s.(accepted := s.accepted + 1, active := Some(s.accepted + 1),
         cancelled := s.cancelled + if s.active.Some? then {s.active.value} else {})
    case HandlerExit(conn) => if s.active == Some(conn) then s.(active := None) else s
    case Output(frame) =>
      if s.active.Some? then
        s.(pending := [], handed := s.handed + AllTo(s.active.value, s.pending) + [Handover(s.active.value, frame)])
      else
        s.(pending := (if |s.pending| >= MAX_FRAME_QUEUE then s.pending[1..] else s.pending) + [frame])
  }

  function Run(events: seq<Event>): State {
    if events == [] then Start else Step(Run(events[..|events| - 1]), events[|events| - 1])
  }

  // ----- reference definitions on the events alone

  function Accepts(events: seq<Event>): nat {
    if events == [] then 0
    else Accepts(events[..|events| - 1]) + if events[|events| - 1].Accept? then 1 else 0
  }

  /** Handlers exist only for accepted connections. */
  ghost predicate Feasible(events: seq<Event>) {
    events != [] ==>
      var last := events[|events| - 1];
      && Feasible(events[..|events| - 1])
      && (last.HandlerExit? ==> 1 <= last.conn <= Accepts(events[..|events| - 1]))
  }

  /** The most recently accepted connection, until its own handler has exited. */
  function Current(events: seq<Event>): Option<nat> {
    var latest := Accepts(events);
    if latest > 0 && HandlerExit(latest) !in events then Some(latest) else None
  }

  /** Frames that arrived since one was last handed over, without any bound. */
  function Waiting(events: seq<Event>): seq<Frame> {
    if events == [] then []
    else
      var before, last := events[..|events| - 1], events[|events| - 1];
      if !last.Output? then Waiting(before)
      else if Current(before).Some? then []
      else Waiting(before) + [last.frame]
  }

  /** What should be handed over: each stretch without a connection keeps its newest 1000 frames. */
  function Delivered(events: seq<Event>): seq<Handover> {
    if events == [] then []
    else
      var before, last := events[..|events| - 1], events[|events| - 1];
      if !last.Output? || Current(before) == None then Delivered(before)
      else Delivered(before) + AllTo(Current(before).value, LastN(Waiting(before), 1000) + [last.frame])
  }

  function Frames(events: seq<Event>): seq<Frame> {
    if events == [] then []
    else Frames(events[..|events| - 1]) + if events[|events| - 1].Output? then [events[|events| - 1].frame] else []
  }

  function FramesOf(handed: seq<Handover>): (r: seq<Frame>)
    ensures |r| == |handed| && forall i :: 0 <= i < |r| ==> r[i] == handed[i].frame
  {
    seq(|handed|, i requires 0 <= i < |handed| => handed[i].frame)
  }

  // ----- the slot

  lemma {:induction false} ExitsAreOfAccepted(events: seq<Event>, conn: nat)
    requires Feasible(events) && HandlerExit(conn) in events
    ensures 1 <= conn <= Accepts(events)
  {
    var before := events[..|events| - 1];
    if HandlerExit(conn) in before {
      ExitsAreOfAccepted(before, conn);
    } else {
      assert events == before + [events[|events| - 1]];
    }
  }

  /** Late exits of displaced handlers never clear a newer connection. */
  lemma {:induction false} SlotIsLatestConnection(events: seq<Event>)
    requires Feasible(events)
    ensures Run(events).accepted == Accepts(events)
    ensures Run(events).active == Current(events)
  {
    if events != [] {
      var before, last := events[..|events| - 1], events[|events| - 1];
      assert events == before + [last];
      SlotIsLatestConnection(before);
      if last.Accept? && HandlerExit(Accepts(events)) in before {
        ExitsAreOfAccepted(before, Accepts(events));
      }
    }
  }

  /** Connection `c` was the current one when another was accepted. */
  ghost predicate Displaced(events: seq<Event>, c: nat) {
    exists k :: 0 <= k < |events| && events[k] == Accept && Current(events[..k]) == Some(c)
  }

  lemma DisplacedAppends(before: seq<Event>, last: Event, c: nat)
    ensures Displaced(before + [last], c) <==> Displaced(before, c) || (last.Accept? && Current(before) == Some(c))
  {
    var events := before + [last];
    assert forall k :: 0 <= k <= |before| ==> events[..k] == before[..k];
    assert before[..|before|] == before;
    if Displaced(before, c) {
      var k :| 0 <= k < |before| && before[k] == Accept && Current(before[..k]) == Some(c);
      assert events[k] == Accept;
    }
    if last.Accept? && Current(before) == Some(c) { assert events[|before|] == Accept; }
  }

  /** Exactly the displaced connections are cancelled. */
  lemma {:induction false} CancelledAreDisplaced(events: seq<Event>, c: nat)
    requires Feasible(events)
    ensures c in Run(events).cancelled <==> Displaced(events, c)
  {
    if events != [] {
      var before, last := events[..|events| - 1], events[|events| - 1];
      assert events == before + [last];
      CancelledAreDisplaced(before, c);
      SlotIsLatestConnection(before);
      DisplacedAppends(before, last, c);
    }
  }

  /** A connection whose handler still runs is the active one or has been told to end. */
  lemma {:induction false} OneLiveConnection(events: seq<Event>, c: nat)
    requires Feasible(events) && 1 <= c <= Accepts(events) && HandlerExit(c) !in events
    ensures Run(events).active == Some(c) || c in Run(events).cancelled
  {
    var before, last := events[..|events| - 1], events[|events| - 1];
    assert events == before + [last];
    SlotIsLatestConnection(events);
    if c <= Accepts(before) { OneLiveConnection(before, c); }
  }

  // ----- the router

  lemma LastNAppend(s: seq<Frame>, f: Frame, n: nat)
    requires n > 0
    ensures LastN(s + [f], n) == (if |LastN(s, n)| >= n then LastN(s, n)[1..] else LastN(s, n)) + [f]
  {
  }

  /** The bounded queue is exactly the newest 1000 of the unbounded one, and what
      is handed over is the reference delivery, each frame to the connection that
      was current when it left. */
  lemma {:induction false} RouterMeetsReference(events: seq<Event>)
    requires Feasible(events)
    ensures Run(events).pending == LastN(Waiting(events), 1000)
    ensures Run(events).handed == Delivered(events)
  {
    if events != [] {
      var before, last := events[..|events| - 1], events[|events| - 1];
      RouterMeetsReference(before);
      SlotIsLatestConnection(before);
      if last.Output? {
        if Current(before).Some? {
          AllToAppend(Current(before).value, LastN(Waiting(before), MAX_FRAME_QUEUE), last.frame);
        } else {
          LastNAppend(Waiting(before), last.frame, MAX_FRAME_QUEUE);
        }
      }
    }
  }

  lemma {:induction false} FramesAppend(events: seq<Event>, more: seq<Event>)
    ensures Frames(events + more) == Frames(events) + Frames(more)
  {
    if more == [] {
      assert events + more == events;
    } else {
      FramesAppend(events, more[..|more| - 1]);
      assert (events + more)[..|events + more| - 1] == events + more[..|more| - 1];
    }
  }

  /** No frame finds a connection during `stretch`, whatever connects and leaves in between. */
  ghost predicate Silent(events: seq<Event>, stretch: seq<Event>) {
    forall k :: 0 <= k < |stretch| && stretch[k].Output? ==> Current(events + stretch[..k]) == None
  }

  lemma {:induction false} StretchWaits(events: seq<Event>, stretch: seq<Event>)
    requires Silent(events, stretch)
    ensures Waiting(events + stretch) == Waiting(events) + Frames(stretch)
    ensures Delivered(events + stretch) == Delivered(events)
  {
    if stretch == [] {
      assert events + stretch == events;
    } else {
      var fewer, last := stretch[..|stretch| - 1], stretch[|stretch| - 1];
      forall k | 0 <= k < |fewer| && fewer[k].Output? ensures Current(events + fewer[..k]) == None {
        assert stretch[k] == fewer[k] && stretch[..k] == fewer[..k];
      }
      StretchWaits(events, fewer);
      assert (events + stretch)[..|events + stretch| - 1] == events + fewer;
    }
  }

  /** A frame that finds a connection takes the newest 1000 waiting frames with it. */
  lemma HandoverDelivers(events: seq<Event>, frame: Frame)
    requires Current(events).Some?
    ensures Waiting(events + [Output(frame)]) == []
    ensures Delivered(events + [Output(frame)]) ==
            Delivered(events) + AllTo(Current(events).value, LastN(Waiting(events), MAX_FRAME_QUEUE) + [frame])
  {
    assert (events + [Output(frame)])[..|events|] == events;
  }

  /** A stretch of n frames none of which finds a connection, then one that does: the
      oldest max(0, n - 1000) of the stretch are lost and the rest arrive in order. */
  lemma {:induction false} DisconnectedStretchLosesOldest(events: seq<Event>, stretch: seq<Event>, frame: Frame)
    requires Waiting(events) == [] && Silent(events, stretch) && Current(events + stretch).Some?
    ensures var later := events + stretch + [Output(frame)];
            && Waiting(later) == []
            && Delivered(later) == Delivered(events)
               + AllTo(Current(events + stretch).value, LastN(Frames(stretch), 1000) + [frame])
  {
    StretchWaits(events, stretch);
    assert [] + Frames(stretch) == Frames(stretch);
    HandoverDelivers(events + stretch, frame);
  }

  // ----- exactly which frames are lost

  /** Positions of the frames that at some moment were waiting behind 1000 newer ones. */
  function LostFrames(events: seq<Event>): set<nat> {
    if events == [] then {}
    else LostFrames(events[..|events| - 1]) + Overflow(|Frames(events)|, |Waiting(events)|)
  }

  function Minus(a: nat, b: nat): nat { if a < b then 0 else a - b }

  function Between(from: nat, to: nat): (r: set<nat>)
    ensures forall j: nat :: j in r <==> from <= j < to
  {
    if to <= from then {} else Between(from, to - 1) + {to - 1}
  }

  /** Of `frames` frames the last `waiting` wait: those behind 1000 newer ones. */
  function Overflow(frames: nat, waiting: nat): set<nat> {
    Between(Minus(frames, waiting), Minus(frames, MAX_FRAME_QUEUE))
  }

  /** Of the first `k` frames those that are not lost. */
  function KeepTo(frames: seq<Frame>, k: nat, lost: set<nat>): seq<Frame>
    requires k <= |frames|
  {
    if k == 0 then [] else KeepTo(frames, k - 1, lost) + if k - 1 in lost then [] else [frames[k - 1]]
  }

  function Keep(frames: seq<Frame>, lost: set<nat>): seq<Frame> {
    KeepTo(frames, |frames|, lost)
  }

  /** What is waiting are the last frames; the lost ones among them are those behind 1000 others. */
  ghost predicate WaitingOk(frames: seq<Frame>, waiting: seq<Frame>, lost: set<nat>) {
    && |waiting| <= |frames| && frames[|frames| - |waiting|..] == waiting
    && (forall j :: j in lost ==> j < |frames|)
    && (forall j: nat :: |frames| - |waiting| <= j < |frames| ==> (j in lost <==> j < |frames| - MAX_FRAME_QUEUE))
  }

  /** Later frames and their losses do not matter. */
  lemma {:induction false} KeepToAppends(frames: seq<Frame>, frame: Frame, k: nat, lost: set<nat>, more: set<nat>)
    requires k <= |frames| && forall j :: j in more ==> j in lost || j >= k
    ensures KeepTo(frames + [frame], k, lost + more) == KeepTo(frames, k, lost)
  {
    if k > 0 { KeepToAppends(frames, frame, k - 1, lost, more); }
  }

  /** Frames from `a` on: the lost ones come first, the others are kept. */
  lemma {:induction false} KeepTail(frames: seq<Frame>, a: nat, c: nat, k: nat, lost: set<nat>)
    requires a <= c <= |frames| && a <= k <= |frames|
    requires forall j: nat :: a <= j < |frames| ==> (j in lost <==> j < c)
    ensures KeepTo(frames, k, lost) == KeepTo(frames, a, lost) + if k <= c then [] else frames[c..k]
    decreases k
  {
    var first := KeepTo(frames, a, lost);
    if k == a {
      assert first + [] == first;
    } else {
      KeepTail(frames, a, c, k - 1, lost);
      if k > c {
        var kept := if k - 1 <= c then [] else frames[c..k - 1];
        assert frames[c..k] == kept + [frames[k - 1]];
        assert first + (kept + [frames[k - 1]]) == (first + kept) + [frames[k - 1]];
      }
    }
  }

  lemma KeepWaiting(frames: seq<Frame>, waiting: seq<Frame>, lost: set<nat>)
    requires WaitingOk(frames, waiting, lost)
    ensures Keep(frames, lost) == KeepTo(frames, |frames| - |waiting|, lost) + LastN(waiting, MAX_FRAME_QUEUE)
  {
    var a := |frames| - |waiting|;
    var c := if |waiting| <= MAX_FRAME_QUEUE then a else |frames| - MAX_FRAME_QUEUE;
    KeepTail(frames, a, c, |frames|, lost);
    assert (if |frames| <= c then [] else frames[c..|frames|]) == LastN(waiting, MAX_FRAME_QUEUE);
  }

  ghost predicate Accounted(events: seq<Event>) {
    var frames, waiting, lost := Frames(events), Waiting(events), LostFrames(events);
    WaitingOk(frames, waiting, lost) && FramesOf(Delivered(events)) == KeepTo(frames, |frames| - |waiting|, lost)
  }

  lemma FramesOfAppend(handed: seq<Handover>, conn: nat, frames: seq<Frame>)
    ensures FramesOf(handed + AllTo(conn, frames)) == FramesOf(handed) + frames
  {
  }

  lemma {:induction false} KeepsLast(frames: seq<Frame>, frame: Frame, lost: set<nat>)
    requires forall j :: j in lost ==> j < |frames|
    ensures KeepTo(frames + [frame], |frames| + 1, lost) == Keep(frames, lost) + [frame]
  {
    assert lost + {} == lost;
    KeepToAppends(frames, frame, |frames|, lost, {});
  }

  lemma {:induction false} HandoverKeeps(frames: seq<Frame>, waiting: seq<Frame>, lost: set<nat>, handed: seq<Handover>, conn: nat, frame: Frame)
    requires WaitingOk(frames, waiting, lost) && FramesOf(handed) == KeepTo(frames, |frames| - |waiting|, lost)
    ensures FramesOf(handed + AllTo(conn, LastN(waiting, MAX_FRAME_QUEUE) + [frame])) == KeepTo(frames + [frame], |frames| + 1, lost)
  {
    var kept, first := LastN(waiting, MAX_FRAME_QUEUE), KeepTo(frames, |frames| - |waiting|, lost);
    KeepWaiting(frames, waiting, lost);
    KeepsLast(frames, frame, lost);
    FramesOfAppend(handed, conn, kept + [frame]);
    hide *;
    assert first + (kept + [frame]) == (first + kept) + [frame];
  }

  lemma {:induction false} DeliveredStep(before: seq<Event>, frame: Frame)
    requires Accounted(before) && Current(before).Some?
    ensures Accounted(before + [Output(frame)])
  {
    var events := before + [Output(frame)];
    assert events[..|before|] == before;
    var frames, waiting, lost := Frames(before), Waiting(before), LostFrames(before);
    assert Frames(events) == frames + [frame] && LostFrames(events) == lost + {} == lost;
    HandoverDelivers(before, frame);
    hide Delivered, Waiting, Frames, LostFrames, Current, LastN, AllTo, FramesOf, KeepTo;
    HandoverKeeps(frames, waiting, lost, Delivered(before), Current(before).value, frame);
  }

  lemma {:induction false} WaitingStep(before: seq<Event>, frame: Frame)
    requires Accounted(before) && Current(before) == None
    ensures Accounted(before + [Output(frame)])
  {
    var events := before + [Output(frame)];
    assert events[..|before|] == before;
    var frames, waiting, lost := Frames(before), Waiting(before), LostFrames(before);
    var more := Overflow(|frames| + 1, |waiting| + 1);
    assert LostFrames(events) == lost + more;
    assert Frames(events) == frames + [frame] && Waiting(events) == waiting + [frame];
    assert Delivered(events) == Delivered(before);
    hide Delivered, Waiting, Frames, LostFrames, Current;
    KeepToAppends(frames, frame, |frames| - |waiting|, lost, more);
    OverflowKeepsWaiting(frames, waiting, frame, lost);
  }

  lemma OverflowKeepsWaiting(frames: seq<Frame>, waiting: seq<Frame>, frame: Frame, lost: set<nat>)
    requires WaitingOk(frames, waiting, lost)
    ensures WaitingOk(frames + [frame], waiting + [frame], lost + Overflow(|frames| + 1, |waiting| + 1))
  {
  }

  lemma QuietStep(before: seq<Event>, e: Event)
    requires Accounted(before) && !e.Output?
    ensures Accounted(before + [e])
  {
    var events := before + [e];
    assert events[..|before|] == before;
    var frames, waiting, lost := Frames(before), Waiting(before), LostFrames(before);
    assert Frames(events) == frames && Waiting(events) == waiting && Delivered(events) == Delivered(before);
    assert LostFrames(events) == lost + Overflow(|frames|, |waiting|) == lost;
  }

  lemma NothingYet()
    ensures Accounted([])
  {
    assert Frames([]) == [] && Waiting([]) == [] && LostFrames([]) == {} && Delivered([]) == [];
    hide Frames, Waiting, LostFrames, Delivered;
  }

  lemma {:induction false} AccountedHolds(events: seq<Event>)
    ensures Accounted(events)
  {
    if events == [] {
      NothingYet();
    } else {
      var before, last := events[..|events| - 1], events[|events| - 1];
      assert events == before + [last];
      hide Accounted, Current, Waiting, Delivered;
      AccountedHolds(before);
      if !last.Output? {
        QuietStep(before, last);
      } else if Current(before).Some? {
        DeliveredStep(before, last.frame);
      } else {
        WaitingStep(before, last.frame);
      }
    }
  }

  /** At every moment the frames handed over and the frames pending are, in order, all
      frames except exactly the lost ones. */
  lemma {:induction false} LossIsExact(events: seq<Event>)
    ensures FramesOf(Delivered(events)) + LastN(Waiting(events), 1000) == Keep(Frames(events), LostFrames(events))
  {
    hide Delivered, Waiting, Frames, LostFrames, Keep;
    AccountedHolds(events);
    KeepWaiting(Frames(events), Waiting(events), LostFrames(events));
  }

  lemma {:induction false} KeepAll(frames: seq<Frame>, k: nat)
    requires k <= |frames|
    ensures KeepTo(frames, k, {}) == frames[..k]
  {
    if k > 0 {
      KeepAll(frames, k - 1);
      assert frames[..k] == frames[..k - 1] + [frames[k - 1]];
    }
  }

  lemma {:induction false} WaitingIsShort(events: seq<Event>)
    ensures |Waiting(events)| <= |Frames(events)|
  {
    if events != [] { WaitingIsShort(events[..|events| - 1]); }
  }

  lemma OverflowIsLoss(frames: nat, waiting: nat)
    requires waiting <= frames
    ensures Overflow(frames, waiting) == {} <==> waiting <= MAX_FRAME_QUEUE
  {
    if waiting > MAX_FRAME_QUEUE { assert frames - waiting in Overflow(frames, waiting); }
  }

  lemma {:induction false} LossNeedsLongStretch(events: seq<Event>)
    ensures LostFrames(events) == {} <==> forall n :: 0 <= n <= |events| ==> |Waiting(events[..n])| <= MAX_FRAME_QUEUE
  {
    assert events[..|events|] == events;
    if events != [] {
      var before := events[..|events| - 1];
      LossNeedsLongStretch(before);
      WaitingIsShort(events);
      OverflowIsLoss(|Frames(events)|, |Waiting(events)|);
      assert LostFrames(events) == LostFrames(before) + Overflow(|Frames(events)|, |Waiting(events)|);
      hide LostFrames, Overflow, Waiting, Frames;
      assert forall n :: 0 <= n <= |before| ==> before[..n] == events[..n];
    }
  }

  /** Nothing is ever lost exactly when no stretch exceeds the bound; then what was
      handed over and what waits are all frames in order. */
  lemma {:induction false} NothingLostWithinBound(events: seq<Event>)
    ensures LostFrames(events) == {} <==> forall n :: 0 <= n <= |events| ==> |Waiting(events[..n])| <= 1000
    ensures LostFrames(events) == {} ==> FramesOf(Delivered(events)) + Waiting(events) == Frames(events)
  {
    hide LostFrames, Waiting, Frames, Delivered;
    LossNeedsLongStretch(events);
    LossIsExact(events);
    KeepAll(Frames(events), |Frames(events)|);
    assert events[..|events|] == events;
  }

  /** `a` is `b` with some elements left out. */
  ghost predicate SubSequence(a: seq<Frame>, b: seq<Frame>) {
    a == [] || (b != [] && (
      || (a[|a| - 1] == b[|b| - 1] && SubSequence(a[..|a| - 1], b[..|b| - 1]))
      || SubSequence(a, b[..|b| - 1])))
  }

  lemma SubSequenceAppends(a: seq<Frame>, b: seq<Frame>, f: Frame)
    requires SubSequence(a, b)
    ensures SubSequence(a, b + [f]) && SubSequence(a + [f], b + [f])
  {
    assert (b + [f])[..|b|] == b && (a + [f])[..|a|] == a;
  }

  lemma {:induction false} SubSequenceLast(a: seq<Frame>, b: seq<Frame>)
    requires SubSequence(a, b) && a != []
    ensures b != []
    ensures (a[|a| - 1] == b[|b| - 1] && SubSequence(a[..|a| - 1], b[..|b| - 1])) || SubSequence(a, b[..|b| - 1])
  {
  }

  lemma {:induction false} SubSequenceDrops(a: seq<Frame>, b: seq<Frame>, k: nat)
    requires SubSequence(a, b) && k < |a|
    ensures SubSequence(a[..k] + a[k + 1..], b)
    decreases |b|
  {
    SubSequenceLast(a, b);
    hide SubSequence;
    var less := a[..k] + a[k + 1..];
    var short, last := b[..|b| - 1], b[|b| - 1];
    assert b == short + [last];
    if a[|a| - 1] == last && SubSequence(a[..|a| - 1], short) {
      var init := a[..|a| - 1];
      if k == |a| - 1 {
        assert less == init;
        SubSequenceAppends(init, short, last);
      } else {
        SubSequenceDrops(init, short, k);
        SubSequenceAppends(init[..k] + init[k + 1..], short, last);
        assert less == init[..k] + init[k + 1..] + [last];
      }
    } else {
      SubSequenceDrops(a, short, k);
      SubSequenceAppends(less, short, last);
    }
  }

  function Kept(s: State): seq<Frame> {
    FramesOf(s.handed) + s.pending
  }

  lemma {:induction false} OutputKeepsOrder(s: State, frame: Frame, all: seq<Frame>)
    requires SubSequence(Kept(s), all)
    ensures SubSequence(Kept(Step(s, Output(frame))), all + [frame])
  {
    hide SubSequence;
    var t := Step(s, Output(frame));
    if s.active == None && |s.pending| >= MAX_FRAME_QUEUE {
      var fewer := FramesOf(s.handed) + s.pending[1..];
      assert Kept(s)[..|s.handed|] + Kept(s)[|s.handed| + 1..] == fewer;
      SubSequenceDrops(Kept(s), all, |s.handed|);
      assert Kept(t) == fewer + [frame];
      SubSequenceAppends(fewer, all, frame);
    } else {
      assert Kept(t) == Kept(s) + [frame];
      SubSequenceAppends(Kept(s), all, frame);
    }
  }

  /** On every run, frames leave in the order they came and none leaves twice. */
  lemma {:induction false} OrderIsKept(events: seq<Event>)
    ensures SubSequence(Kept(Run(events)), Frames(events))
  {
    if events != [] {
      var before, last := events[..|events| - 1], events[|events| - 1];
      OrderIsKept(before);
      if last.Output? {
        OutputKeepsOrder(Run(before), last.frame, Frames(before));
      } else {
        assert Frames(events) == Frames(before);
      }
    }
  }

  // ----- the stateful form

  class Daemon {
    var accepted: nat
    var active: Option<nat>
    var cancelled: set<nat>
    var pending: seq<Frame>
    var handed: seq<Handover>

    ghost function Value(): State
      reads this
    {
      State(accepted, active, cancelled, pending, handed)
    }

    constructor ()
      ensures Value() == Run([])
    {
      accepted, active, cancelled, pending, handed := 0, None, {}, [], [];
    }

    method AcceptConnection() returns (conn: nat)
      modifies this
      ensures Value() == Step(old(Value()), Accept) && conn == old(accepted) + 1
    {
      accepted := accepted + 1;
      conn := accepted;
      if active.Some? { cancelled := cancelled + {active.value}; }
      active := Some(conn);
    }

    method ClearActiveIfOurs(conn: nat)
      modifies this
      ensures Value() == Step(old(Value()), HandlerExit(conn))
    {
      if active.Some? && active.value == conn { active := None; }
    }

    method Route(frame: Frame)
      modifies this
      ensures Value() == Step(old(Value()), Output(frame))
    {
      if active.Some? {
        var conn, queue := active.value, pending;
        ghost var already := handed;
        pending := [];
        for i := 0 to |queue|
          invariant handed == already + AllTo(conn, queue[..i])
          invariant Value() == old(Value()).(pending := [], handed := handed)
        {
          AllToAppend(conn, queue[..i], queue[i]);
          assert queue[..i + 1] == queue[..i] + [queue[i]];
          handed := handed + [Handover(conn, queue[i])];
        }
        assert queue[..|queue|] == queue;
        handed := handed + [Handover(conn, frame)];
      } else {
        if |pending| >= MAX_FRAME_QUEUE { pending := pending[1..]; }
        pending := pending + [frame];
      }
    }
  }

  /** The daemon driven by a whole history. */
  method Drive(events: seq<Event>) returns (handed: seq<Handover>, pending: seq<Frame>)
    requires Feasible(events)
    ensures handed == Delivered(events) && pending == LastN(Waiting(events), 1000)
  {
    var daemon := new Daemon();
    for i := 0 to |events|
      invariant daemon.Value() == Run(events[..i])
    {
      match events[i] {
        case Accept => var _ := daemon.AcceptConnection();
        case HandlerExit(conn) => daemon.ClearActiveIfOurs(conn);
        case Output(frame) => daemon.Route(frame);
      }
      assert events[..i + 1][..i] == events[..i];
    }
    assert events[..|events|] == events;
    RouterMeetsReference(events);
    handed, pending := daemon.handed, daemon.pending;
  }
}
