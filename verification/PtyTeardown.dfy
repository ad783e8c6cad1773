/**
 The agent's terminal manager and its shutdown sweep (crates/lasterm-agent/src/pty.rs,
 teardown part of daemon.rs). What `kill_tree` and the confirmation task answer for a
 channel is given by a `World`.
 */
module PtyTeardown {
  import opened Prelude

  type Channel = string

  datatype Signal = Signalled | AlreadyExited | SignalFailed

  datatype Wait = ShellExited | WaitError | WaitTimeout | TaskFailed

  datatype World = World(signal: Channel -> Signal, wait: Channel -> Wait)

  datatype Reason = SignallingFailed | WaitFailed | TimedOut | ConfirmationTaskFailed

  datatype Unresolved = Unresolved(channel: Channel, pid: nat, reason: Reason)

  datatype Summary = Summary(confirmed: nat, unresolved: seq<Unresolved>)

  datatype Act = SignalAttempt(channel: Channel) | Awaited(channel: Channel)

  type Channels = map<Channel, nat>

  // ----- how a channel must be accounted for

  /** Why a channel is unresolved; None when its shell is confirmed gone. */
  function Verdict(w: World, c: Channel): Option<Reason> {
    match w.signal(c)
    case AlreadyExited => None
    case SignalFailed => Some(SignallingFailed)
    case Signalled =>
      match w.wait(c)
      case ShellExited => None
      case WaitError => Some(WaitFailed)
      case WaitTimeout => Some(TimedOut)
      case TaskFailed => Some(ConfirmationTaskFailed)
  }

  /** Every swept channel is confirmed or unresolved, once, for the right reason. */
  ghost predicate Accounted(channels: Channels, w: World, s: Summary) {
    && s.confirmed + |s.unresolved| == |channels|
    && (forall i, j :: 0 <= i < j < |s.unresolved| ==> s.unresolved[i].channel != s.unresolved[j].channel)
    && (forall u :: u in s.unresolved ==> u.channel in channels && u.pid == channels[u.channel] && Verdict(w, u.channel) == Some(u.reason))
    && (forall c :: c in channels && Verdict(w, c).Some? ==> Unresolved(c, channels[c], Verdict(w, c).value) in s.unresolved)
  }

  ghost predicate Distinct(order: seq<Channel>) {
    forall i, j :: 0 <= i < j < |order| ==> order[i] != order[j]
  }

  /** `order` lists exactly the given channels, each once. */
  ghost predicate Lists(order: seq<Channel>, channels: Channels) {
    Distinct(order) && forall c :: c in order <==> c in channels
  }

  /** All signal attempts come before the first wait; exactly the signalled channels are awaited. */
  ghost predicate SignalsThenWaits(log: seq<Act>, channels: Channels, w: World, cut: nat) {
    && cut == |channels| <= |log|
    && (forall i :: 0 <= i < cut ==> log[i].SignalAttempt?)
    && (forall i :: cut <= i < |log| ==> log[i].Awaited?)
    && (forall i, j :: 0 <= i < j < |log| ==> log[i] != log[j])
    && (forall c :: SignalAttempt(c) in log <==> c in channels)
    && (forall c :: Awaited(c) in log <==> c in channels && w.signal(c) == Signalled)
  }

  /** The shell had exited already, or was signalled and then seen to exit. */
  predicate ConfirmedGone(w: World, c: Channel) {
    w.signal(c) == AlreadyExited || (w.signal(c) == Signalled && w.wait(c) == ShellExited)
  }

  /** Why a channel stays unresolved, from what signalling and waiting answered. */
  lemma {:induction false} ReasonsAreTrue(channels: Channels, w: World, s: Summary)
    requires Accounted(channels, w, s)
    ensures forall c :: c in channels ==>
      (ConfirmedGone(w, c) <==> forall u :: u in s.unresolved ==> u.channel != c)
    ensures forall u :: u in s.unresolved ==>
      && (u.reason == SignallingFailed <==> w.signal(u.channel) == SignalFailed)
      && (u.reason == TimedOut <==> w.signal(u.channel) == Signalled && w.wait(u.channel) == WaitTimeout)
      && (u.reason == WaitFailed <==> w.signal(u.channel) == Signalled && w.wait(u.channel) == WaitError)
      && (u.reason == ConfirmationTaskFailed <==> w.signal(u.channel) == Signalled && w.wait(u.channel) == TaskFailed)
  {
    forall c | c in channels && !ConfirmedGone(w, c) ensures exists u :: u in s.unresolved && u.channel == c {
      assert Verdict(w, c).Some?;
      assert Unresolved(c, channels[c], Verdict(w, c).value) in s.unresolved;
    }
  }

  /** Exactly the channels whose signalling failed are left, with their pids. */
  ghost predicate LeftToSignal(before: Channels, after: Channels, w: World) {
    && (forall c :: c in after <==> c in before && w.signal(c) == SignalFailed)
    && (forall c :: c in after ==> after[c] == before[c])
  }

  function StillRegistered(channels: Channels, w: World): Channels {
    map c | c in channels && w.signal(c) == SignalFailed :: channels[c]
  }

  // ----- the two passes over a listing

  function Settled(order: seq<Channel>, w: World): seq<Channel> {
    if order == [] then []
    else Settled(order[..|order| - 1], w) + if w.signal(order[|order| - 1]) == Signalled then [] else [order[|order| - 1]]
  }

  function Waits(order: seq<Channel>, w: World): seq<Channel> {
    if order == [] then []
    else Waits(order[..|order| - 1], w) + if w.signal(order[|order| - 1]) == Signalled then [order[|order| - 1]] else []
  }

  /** `record_outcome` over a list of channels. */
  function Tally(s: Summary, list: seq<Channel>, w: World, pids: Channels): Summary
    requires forall c :: c in list ==> c in pids
  {
    if list == [] then s
    else
      var t, c := Tally(s, list[..|list| - 1], w, pids), list[|list| - 1];
      if Verdict(w, c) == None then t.(confirmed := t.confirmed + 1)
      else t.(unresolved := t.unresolved + [Unresolved(c, pids[c], Verdict(w, c).value)])
  }

  lemma {:induction false} PassesPartition(order: seq<Channel>, w: World)
    requires Distinct(order)
    ensures |Settled(order, w)| + |Waits(order, w)| == |order|
    ensures forall c :: c in Settled(order, w) <==> c in order && w.signal(c) != Signalled
    ensures forall c :: c in Waits(order, w) <==> c in order && w.signal(c) == Signalled
    ensures Distinct(Settled(order, w)) && Distinct(Waits(order, w))
  {
    if order != [] {
      var before, last := order[..|order| - 1], order[|order| - 1];
      PassesPartition(before, w);
      assert order == before + [last] && last !in before;
      DistinctExtends(Settled(before, w), last);
      DistinctExtends(Waits(before, w), last);
      hide Distinct;
    }
  }

  lemma DistinctExtends(order: seq<Channel>, c: Channel)
    requires Distinct(order)
    ensures c !in order ==> Distinct(order + [c])
  {
  }

  lemma DistinctConcat(a: seq<Channel>, b: seq<Channel>)
    requires Distinct(a) && Distinct(b) && forall c :: c in a ==> c !in b
    ensures Distinct(a + b)
  {
    var s := a + b;
    forall i, j | 0 <= i < j < |s| ensures s[i] != s[j] {
      if i < |a| <= j { assert a[i] in a && b[j - |a|] in b; }
    }
  }

  /** A tally of distinct channels accounts for exactly these. */
  lemma {:induction false} TallyAccounts(list: seq<Channel>, w: World, pids: Channels)
    requires Distinct(list) && forall c :: c in list ==> c in pids
    ensures var s := Tally(Summary(0, []), list, w, pids);
            && s.confirmed + |s.unresolved| == |list|
            && (forall i, j :: 0 <= i < j < |s.unresolved| ==> s.unresolved[i].channel != s.unresolved[j].channel)
            && (forall u :: u in s.unresolved <==> u.channel in list && u.pid == pids[u.channel] && Verdict(w, u.channel) == Some(u.reason))
  {
    if list != [] {
      var before, last := list[..|list| - 1], list[|list| - 1];
      TallyAccounts(before, w, pids);
      assert list == before + [last];
      var s := Tally(Summary(0, []), before, w, pids);
      forall i | 0 <= i < |s.unresolved| ensures s.unresolved[i].channel != last {
        assert s.unresolved[i] in s.unresolved;
      }
    }
  }

  lemma {:induction false} TallyAppends(a: seq<Channel>, b: seq<Channel>, w: World, pids: Channels)
    requires forall c :: c in a + b ==> c in pids
    ensures forall c :: c in a ==> c in pids
    ensures forall c :: c in b ==> c in pids
    ensures Tally(Tally(Summary(0, []), a, w, pids), b, w, pids) == Tally(Summary(0, []), a + b, w, pids)
  {
    assert forall c :: c in a ==> c in a + b;
    assert forall c :: c in b ==> c in a + b;
    if b == [] {
      assert a + b == a;
    } else {
      var before, last := b[..|b| - 1], b[|b| - 1];
      assert a + b == a + before + [last];
      assert (a + b)[..|a + b| - 1] == a + before;
      TallyAppends(a, before, w, pids);
    }
  }

  lemma {:induction false} ListingHasAllKeys(order: seq<Channel>, keys: set<Channel>)
    requires Distinct(order) && forall c :: c in order <==> c in keys
    ensures |order| == |keys|
  {
    if order != [] {
      var before, last := order[..|order| - 1], order[|order| - 1];
      assert order == before + [last];
      ListingHasAllKeys(before, keys - {last});
    } else {
      assert keys == {};
    }
  }

  lemma SweepCovers(order: seq<Channel>, w: World, channels: Channels)
    requires Lists(order, channels)
    ensures Lists(Settled(order, w) + Waits(order, w), channels)
    ensures |order| == |Settled(order, w) + Waits(order, w)| == |channels|
  {
    PassesPartition(order, w);
    DistinctConcat(Settled(order, w), Waits(order, w));
    ListingHasAllKeys(order, channels.Keys);
    var list := Settled(order, w) + Waits(order, w);
    assert forall c :: c in list <==> c in Settled(order, w) || c in Waits(order, w);
  }

  lemma ListingAccounts(list: seq<Channel>, w: World, channels: Channels)
    requires Lists(list, channels) && |list| == |channels|
    ensures Accounted(channels, w, Tally(Summary(0, []), list, w, channels))
  {
    TallyAccounts(list, w, channels);
  }

  /** Whatever order the map yields, both passes together account for every channel. */
  lemma SweepAccounts(order: seq<Channel>, w: World, channels: Channels)
    requires Lists(order, channels)
    ensures forall c :: c in Settled(order, w) + Waits(order, w) ==> c in channels
    ensures Accounted(channels, w, Tally(Summary(0, []), Settled(order, w) + Waits(order, w), w, channels))
  {
    SweepCovers(order, w, channels);
    ListingAccounts(Settled(order, w) + Waits(order, w), w, channels);
  }

  /** A successful agent exit means that every swept shell was confirmed gone, and conversely. */
  lemma ExitStatusIsExact(channels: Channels, w: World, s: Summary)
    requires Accounted(channels, w, s)
    ensures ExitStatus(s) == 0 <==> forall c :: c in channels ==> ConfirmedGone(w, c)
    ensures ExitStatus(s) == 0 ==> s.confirmed == |channels|
  {
    ReasonsAreTrue(channels, w, s);
    if s.unresolved != [] {
      var u := s.unresolved[0];
      assert u in s.unresolved;
    }
  }

  function ExitStatus(s: Summary): nat {
    if s.unresolved == [] then 0 else 1
  }

  // ----- the manager

  datatype Manager = Manager(channels: Channels, shuttingDown: bool)

  datatype SpawnResult = Spawned(id: Channel, pid: nat) | ShuttingDown | ChannelExists | SpawnFailed

  datatype Op =
    | SpawnOp(requested: Option<Channel>, generated: Channel, started: Option<nat>)
    | RemoveOp(channel: Channel)
    | BeginShutdownOp
    | DestroyAllOp(world: World)

  function SpawnAnswer(m: Manager, requested: Option<Channel>, generated: Channel, started: Option<nat>): SpawnResult {
    if m.shuttingDown then ShuttingDown
    else if requested.Some? && requested.value in m.channels then ChannelExists
    else if started == None then SpawnFailed
    else Spawned(if requested.Some? then requested.value else generated, started.value)
  }

  function Step(m: Manager, op: Op): Manager {
    match op
    case SpawnOp(requested, generated, started) =>
      var answer := SpawnAnswer(m, requested, generated, started);
      if answer.Spawned? then m.(channels := m.channels[answer.id := answer.pid]) else m
    case RemoveOp(c) => m.(channels := m.channels - {c})
    case BeginShutdownOp => m.(shuttingDown := true)
    case DestroyAllOp(w) => m.(channels := StillRegistered(m.channels, w))
  }

  function RunOps(m: Manager, ops: seq<Op>): Manager {
    if ops == [] then m else Step(RunOps(m, ops[..|ops| - 1]), ops[|ops| - 1])
  }

  /** Once shutdown has begun no operation, in any order, registers a terminal again:
      after the daemon's sweep only channels whose signalling failed can be left. */
  lemma {:induction false} NoSpawnAfterShutdown(m: Manager, ops: seq<Op>)
    requires m.shuttingDown
    ensures RunOps(m, ops).shuttingDown
    ensures forall c :: c in RunOps(m, ops).channels ==> c in m.channels && RunOps(m, ops).channels[c] == m.channels[c]
  {
    if ops != [] {
      NoSpawnAfterShutdown(m, ops[..|ops| - 1]);
    }
  }

  lemma {:induction false} RunOpsAppends(m: Manager, first: seq<Op>, next: seq<Op>)
    ensures RunOps(m, first + next) == RunOps(RunOps(m, first), next)
  {
    if next == [] {
      assert first + next == first;
    } else {
      RunOpsAppends(m, first, next[..|next| - 1]);
      assert (first + next)[..|first + next| - 1] == first + next[..|next| - 1];
    }
  }

  /** From `BeginShutdown` on, whatever the manager and the operations that follow: nothing
      is registered that was not registered then, and every spawn is refused. */
  lemma {:induction false} BeginShutdownRefuses(m: Manager, ops: seq<Op>)
    ensures var t := RunOps(m, [BeginShutdownOp] + ops);
            && (forall c :: c in t.channels ==> c in m.channels && t.channels[c] == m.channels[c])
            && (forall requested, generated, started :: SpawnAnswer(t, requested, generated, started) == ShuttingDown)
  {
    RunOpsAppends(m, [BeginShutdownOp], ops);
    var begun := RunOps(m, [BeginShutdownOp]);
    assert [BeginShutdownOp][..0] == [];
    assert begun == Step(RunOps(m, []), BeginShutdownOp);
    NoSpawnAfterShutdown(begun, ops);
  }

  /** Operation `j` spawns `c` with this pid: shutdown has not begun, the shell starts, and
      the id is the requested one, which is free, or else the generated one. */
  ghost predicate Registers(m: Manager, ops: seq<Op>, j: nat, c: Channel, pid: nat)
    requires j < |ops|
  {
    && !m.shuttingDown && BeginShutdownOp !in ops[..j]
    && ops[j].SpawnOp? && ops[j].started == Some(pid)
    && match ops[j].requested
       case Some(id) => id == c && c !in RunOps(m, ops[..j]).channels
       case None => ops[j].generated == c
  }

  /** A removal, or a sweep that could signal the channel or found it gone. */
  predicate Deregisters(op: Op, c: Channel) {
    op == RemoveOp(c) || (op.DestroyAllOp? && op.world.signal(c) != SignalFailed)
  }

  ghost predicate Spares(m: Manager, ops: seq<Op>, k: nat, c: Channel)
    requires k < |ops|
  {
    !Deregisters(ops[k], c) && forall pid :: !Registers(m, ops, k, c, pid)
  }

  ghost predicate Untouched(m: Manager, ops: seq<Op>, first: nat, c: Channel) {
    forall k :: first <= k < |ops| ==> Spares(m, ops, k, c)
  }

  /** What is registered, by the history alone. */
  ghost predicate HoldsByHistory(m: Manager, ops: seq<Op>, c: Channel, pid: nat) {
    || (exists j :: 0 <= j < |ops| && Registers(m, ops, j, c, pid) && Untouched(m, ops, j + 1, c))
    || (c in m.channels && m.channels[c] == pid && Untouched(m, ops, 0, c))
  }

  lemma {:induction false} FlagByHistory(m: Manager, ops: seq<Op>)
    ensures RunOps(m, ops).shuttingDown <==> m.shuttingDown || BeginShutdownOp in ops
  {
    if ops != [] {
      FlagByHistory(m, ops[..|ops| - 1]);
      assert ops == ops[..|ops| - 1] + [ops[|ops| - 1]];
    }
  }

  lemma {:induction false} RegistersEarlier(m: Manager, ops: seq<Op>, j: nat, c: Channel, pid: nat)
    requires j < |ops| - 1
    ensures Registers(m, ops[..|ops| - 1], j, c, pid) <==> Registers(m, ops, j, c, pid)
  {
    assert ops[..|ops| - 1][..j] == ops[..j];
  }

  lemma {:induction false} SparesEarlier(m: Manager, ops: seq<Op>, k: nat, c: Channel)
    requires k < |ops| - 1
    ensures Spares(m, ops[..|ops| - 1], k, c) <==> Spares(m, ops, k, c)
  {
    var before := ops[..|ops| - 1];
    assert before[k] == ops[k];
    forall pid: nat ensures Registers(m, before, k, c, pid) <==> Registers(m, ops, k, c, pid) {
      RegistersEarlier(m, ops, k, c, pid);
    }
    hide Registers, Deregisters;
  }

  lemma {:induction false} UntouchedEarlier(m: Manager, ops: seq<Op>, first: nat, c: Channel)
    requires first < |ops|
    ensures Untouched(m, ops, first, c) <==>
            Untouched(m, ops[..|ops| - 1], first, c) && Spares(m, ops, |ops| - 1, c)
  {
    var before := ops[..|ops| - 1];
    hide Spares;
    if Untouched(m, ops, first, c) {
      forall k | first <= k < |before| ensures Spares(m, before, k, c) { SparesEarlier(m, ops, k, c); }
    }
    if Untouched(m, before, first, c) && Spares(m, ops, |ops| - 1, c) {
      forall k | first <= k < |ops| ensures Spares(m, ops, k, c) {
        if k < |before| { SparesEarlier(m, ops, k, c); }
      }
    }
  }

  lemma {:induction false} HistoryStep(m: Manager, ops: seq<Op>, c: Channel, pid: nat)
    requires ops != []
    ensures HoldsByHistory(m, ops, c, pid) <==>
            || Registers(m, ops, |ops| - 1, c, pid)
            || (HoldsByHistory(m, ops[..|ops| - 1], c, pid) && Spares(m, ops, |ops| - 1, c))
  {
    var n := |ops| - 1;
    UntouchedEarlier(m, ops, 0, c);
    forall j | 0 <= j < n
      ensures Registers(m, ops[..n], j, c, pid) <==> Registers(m, ops, j, c, pid)
      ensures Untouched(m, ops, j + 1, c) <==> Untouched(m, ops[..n], j + 1, c) && Spares(m, ops, n, c)
    {
      RegistersEarlier(m, ops, j, c, pid);
      UntouchedEarlier(m, ops, j + 1, c);
    }
    assert Untouched(m, ops, n + 1, c);
    hide Registers, Untouched, Spares;
  }

  lemma {:induction false} StepByHistory(m: Manager, ops: seq<Op>, c: Channel, pid: nat)
    requires ops != [] && (RunOps(m, ops[..|ops| - 1]).shuttingDown <==> m.shuttingDown || BeginShutdownOp in ops[..|ops| - 1])
    ensures var before := RunOps(m, ops[..|ops| - 1]);
            var after := RunOps(m, ops);
            c in after.channels && after.channels[c] == pid <==>
            || Registers(m, ops, |ops| - 1, c, pid)
            || (c in before.channels && before.channels[c] == pid && Spares(m, ops, |ops| - 1, c))
  {
    var op := ops[|ops| - 1];
    if op.SpawnOp? && op.started.Some? {
      assert Spares(m, ops, |ops| - 1, c) <==> !Registers(m, ops, |ops| - 1, c, op.started.value);
    }
  }

  /** The registry after any operations: a channel is registered with a pid exactly when
      its last accepted spawn got this pid, or it was registered with it from the start,
      and no removal or sweep has taken it since. */
  lemma {:induction false} RegistryIsItsHistory(m: Manager, ops: seq<Op>, c: Channel, pid: nat)
    ensures c in RunOps(m, ops).channels && RunOps(m, ops).channels[c] == pid <==> HoldsByHistory(m, ops, c, pid)
  {
    if ops != [] {
      RegistryIsItsHistory(m, ops[..|ops| - 1], c, pid);
      FlagByHistory(m, ops[..|ops| - 1]);
      StepByHistory(m, ops, c, pid);
      HistoryStep(m, ops, c, pid);
    } else {
      assert Untouched(m, ops, 0, c);
    }
  }

  predicate MayDrop(op: Op, c: Channel) {
    op.DestroyAllOp? || op == RemoveOp(c) || (op.SpawnOp? && op.requested == None && op.generated == c)
  }

  /** A spawn never takes over a registered channel: whatever is requested, its entry
      stays until it is removed or swept, as long as generated ids are new. */
  lemma {:induction false} SpawnNeverReplaces(m: Manager, ops: seq<Op>, c: Channel)
    requires c in m.channels && forall i :: 0 <= i < |ops| ==> !MayDrop(ops[i], c)
    ensures c in RunOps(m, ops).channels && RunOps(m, ops).channels[c] == m.channels[c]
  {
    if ops != [] {
      SpawnNeverReplaces(m, ops[..|ops| - 1], c);
    }
  }

  // ----- the first pass

  datatype Sweep = Sweep(order: seq<Channel>, waits: seq<Channel>, summary: Summary, channels: Channels, ids: set<Channel>)

  /** One iteration: signal a channel, deregister it unless signalling failed, and
      either record the outcome or leave it to a wait. */
  function SweepOne(s: Sweep, id: Channel, w: World): Sweep
    requires id in s.channels
  {
    match w.signal(id)
    case Signalled => Sweep(s.order + [id], s.waits + [id], s.summary, s.channels - {id}, s.ids - {id})
    case AlreadyExited =>
      Sweep(s.order + [id], s.waits, s.summary.(confirmed := s.summary.confirmed + 1), s.channels - {id}, s.ids - {id})
    case SignalFailed =>
      Sweep(s.order + [id], s.waits,
            s.summary.(unresolved := s.summary.unresolved + [Unresolved(id, s.channels[id], SignallingFailed)]),
            s.channels, s.ids - {id})
  }

  ghost predicate ListsSoFar(s: Sweep, all: Channels) {
    && Distinct(s.order)
    && (forall c :: c in all <==> c in s.order || c in s.ids)
    && (forall c :: c in s.order ==> c !in s.ids)
  }

  ghost predicate CountedSoFar(s: Sweep, w: World, all: Channels) {
    && s.waits == Waits(s.order, w)
    && (forall c :: c in Settled(s.order, w) ==> c in all)
    && s.summary == Tally(Summary(0, []), Settled(s.order, w), w, all)
  }

  ghost predicate RegisteredSoFar(s: Sweep, w: World, all: Channels) {
    s.channels == map c | c in all && (c in s.ids || w.signal(c) == SignalFailed) :: all[c]
  }

  ghost predicate SweepOk(s: Sweep, w: World, all: Channels) {
    ListsSoFar(s, all) && CountedSoFar(s, w, all) && RegisteredSoFar(s, w, all)
  }

  lemma PassesAppend(order: seq<Channel>, c: Channel, w: World)
    ensures Settled(order + [c], w) == Settled(order, w) + if w.signal(c) == Signalled then [] else [c]
    ensures Waits(order + [c], w) == Waits(order, w) + if w.signal(c) == Signalled then [c] else []
  {
    assert (order + [c])[..|order|] == order;
  }

  lemma TallyOneMore(s: Summary, list: seq<Channel>, c: Channel, w: World, pids: Channels)
    requires c in pids && forall d :: d in list ==> d in pids
    ensures forall d :: d in list + [c] ==> d in pids
    ensures var t := Tally(s, list, w, pids);
            Tally(s, list + [c], w, pids) ==
            if Verdict(w, c) == None then t.(confirmed := t.confirmed + 1)
            else t.(unresolved := t.unresolved + [Unresolved(c, pids[c], Verdict(w, c).value)])
  {
    assert (list + [c])[..|list|] == list;
  }

  lemma ListOneMore(s: Sweep, id: Channel, w: World, all: Channels)
    requires ListsSoFar(s, all) && id in s.ids && id in s.channels
    ensures ListsSoFar(SweepOne(s, id, w), all)
  {
    assert SweepOne(s, id, w).order == s.order + [id];
  }

  lemma RegisteredOneMore(s: Sweep, id: Channel, w: World, all: Channels)
    requires id in s.ids && id in all && RegisteredSoFar(s, w, all)
    ensures id in s.channels && s.channels[id] == all[id]
    ensures RegisteredSoFar(SweepOne(s, id, w), w, all)
  {
  }

  lemma CountedOneMore(s: Sweep, id: Channel, w: World, all: Channels)
    requires CountedSoFar(s, w, all) && id in all && id in s.channels && s.channels[id] == all[id]
    ensures CountedSoFar(SweepOne(s, id, w), w, all)
  {
    hide Tally, Settled, Waits;
    PassesAppend(s.order, id, w);
    if w.signal(id) == Signalled {
      assert Settled(s.order + [id], w) == Settled(s.order, w);
    } else {
      TallyOneMore(Summary(0, []), Settled(s.order, w), id, w, all);
    }
  }

  lemma SweepOneKeepsOk(s: Sweep, id: Channel, w: World, all: Channels)
    requires SweepOk(s, w, all) && id in s.ids
    ensures id in s.channels && SweepOk(SweepOne(s, id, w), w, all)
    ensures SweepOne(s, id, w).ids == s.ids - {id} && SweepOne(s, id, w).order == s.order + [id]
  {
    assert id in all;
    RegisteredOneMore(s, id, w, all);
    ListOneMore(s, id, w, all);
    CountedOneMore(s, id, w, all);
  }

  // ----- the order of signals and waits

  function Attempts(order: seq<Channel>): (r: seq<Act>)
    ensures |r| == |order| && forall i :: 0 <= i < |r| ==> r[i] == SignalAttempt(order[i])
  {
    seq(|order|, i requires 0 <= i < |order| => SignalAttempt(order[i]))
  }

  function Awaits(waits: seq<Channel>): (r: seq<Act>)
    ensures |r| == |waits| && forall i :: 0 <= i < |r| ==> r[i] == Awaited(waits[i])
  {
    seq(|waits|, i requires 0 <= i < |waits| => Awaited(waits[i]))
  }

  lemma AttemptsAppend(order: seq<Channel>, c: Channel)
    ensures Attempts(order + [c]) == Attempts(order) + [SignalAttempt(c)]
  {
  }

  lemma LogContents(order: seq<Channel>, waits: seq<Channel>, c: Channel)
    ensures SignalAttempt(c) in Attempts(order) + Awaits(waits) <==> c in order
    ensures Awaited(c) in Attempts(order) + Awaits(waits) <==> c in waits
  {
    var log := Attempts(order) + Awaits(waits);
    if i :| 0 <= i < |order| && order[i] == c { assert log[i] == SignalAttempt(c); }
    if i :| 0 <= i < |waits| && waits[i] == c { assert log[|order| + i] == Awaited(c); }
  }

  lemma LogIsDistinct(order: seq<Channel>, waits: seq<Channel>)
    requires Distinct(order) && Distinct(waits)
    ensures var log := Attempts(order) + Awaits(waits); forall i, j :: 0 <= i < j < |log| ==> log[i] != log[j]
  {
    var log := Attempts(order) + Awaits(waits);
    forall i, j | 0 <= i < j < |log| ensures log[i] != log[j] {
      if j < |order| { assert order[i] != order[j]; }
      else if i >= |order| { assert waits[i - |order|] != waits[j - |order|]; }
    }
  }

  lemma LogIsOrdered(order: seq<Channel>, w: World, all: Channels)
    requires Lists(order, all)
    ensures SignalsThenWaits(Attempts(order) + Awaits(Waits(order, w)), all, w, |all|)
  {
    hide Waits, Settled, Distinct;
    PassesPartition(order, w);
    ListingHasAllKeys(order, all.Keys);
    LogIsDistinct(order, Waits(order, w));
    var log := Attempts(order) + Awaits(Waits(order, w));
    forall c ensures (SignalAttempt(c) in log <==> c in all) && (Awaited(c) in log <==> c in all && w.signal(c) == Signalled) {
      LogContents(order, Waits(order, w), c);
    }
  }

  /** First pass of the sweep: signal every channel, in whatever order the map yields them. */
  method SignalAll(all: Channels, w: World) returns (s: Sweep, log: seq<Act>)
    ensures Lists(s.order, all) && CountedSoFar(s, w, all) && s.channels == StillRegistered(all, w)
    ensures log == Attempts(s.order)
  {
    s, log := Sweep([], [], Summary(0, []), all, all.Keys), [];
    SweepStarts(w, all);
    while s.ids != {}
      invariant SweepOk(s, w, all)
      invariant log == Attempts(s.order)
      decreases s.ids
    {
      var id :| id in s.ids;
      SweepOneKeepsOk(s, id, w, all);
      AttemptsAppend(s.order, id);
      log := log + [SignalAttempt(id)];
      s := SweepOne(s, id, w);
    }
    FirstPassEnds(s, w, all);
  }

  /** Second pass of the sweep: await the confirmation of every signalled channel. */
  method AwaitAll(waits: seq<Channel>, w: World, pids: Channels, soFar: Summary) returns (summary: Summary, log: seq<Act>)
    requires forall c :: c in waits ==> c in pids && w.signal(c) == Signalled
    ensures summary == Tally(soFar, waits, w, pids) && log == Awaits(waits)
  {
    summary, log := soFar, [];
    for i := 0 to |waits|
      invariant forall c :: c in waits[..i] ==> c in pids
      invariant summary == Tally(soFar, waits[..i], w, pids) && log == Awaits(waits[..i])
    {
      var c := waits[i];
      assert waits[..i + 1] == waits[..i] + [c];
      TallyOneMore(soFar, waits[..i], c, w, pids);
      log := log + [Awaited(c)];
      match w.wait(c) {
        case ShellExited => summary := summary.(confirmed := summary.confirmed + 1);
        case WaitError => summary := summary.(unresolved := summary.unresolved + [Unresolved(c, pids[c], WaitFailed)]);
        case WaitTimeout => summary := summary.(unresolved := summary.unresolved + [Unresolved(c, pids[c], TimedOut)]);
        case TaskFailed => summary := summary.(unresolved := summary.unresolved + [Unresolved(c, pids[c], ConfirmationTaskFailed)]);
      }
    }
    assert waits[..|waits|] == waits;
  }

  lemma SweepStarts(w: World, all: Channels)
    ensures SweepOk(Sweep([], [], Summary(0, []), all, all.Keys), w, all)
  {
  }

  lemma FirstPassEnds(s: Sweep, w: World, all: Channels)
    requires SweepOk(s, w, all) && s.ids == {}
    ensures Lists(s.order, all) && s.channels == StillRegistered(all, w)
  {
  }

  lemma SweepEnds(order: seq<Channel>, w: World, all: Channels)
    requires Lists(order, all)
    ensures forall c :: c in Settled(order, w) ==> c in all
    ensures forall c :: c in Waits(order, w) ==> c in all && w.signal(c) == Signalled
    ensures Accounted(all, w, Tally(Tally(Summary(0, []), Settled(order, w), w, all), Waits(order, w), w, all))
  {
    SweepAccounts(order, w, all);
    TallyAppends(Settled(order, w), Waits(order, w), w, all);
    PassesPartition(order, w);
  }

  class PtyManager {
    var channels: Channels
    var shuttingDown: bool

    ghost function Value(): Manager
      reads this
    {
      Manager(channels, shuttingDown)
    }

    constructor ()
      ensures Value() == Manager(map[], false)
    {
      channels, shuttingDown := map[], false;
    }

    method BeginShutdown()
      modifies this
      ensures Value() == Step(old(Value()), BeginShutdownOp)
      ensures shuttingDown && channels == old(channels)
    {
      shuttingDown := true;
    }

    /** `started` is the pid of the new shell, or None when it cannot be started. */
    method Spawn(requested: Option<Channel>, generated: Channel, started: Option<nat>) returns (r: SpawnResult)
      modifies this
      ensures Value() == Step(old(Value()), SpawnOp(requested, generated, started))
      ensures r == SpawnAnswer(old(Value()), requested, generated, started)
      ensures r == ShuttingDown <==> old(shuttingDown)
      ensures r == ChannelExists <==> !old(shuttingDown) && requested.Some? && requested.value in old(channels)
      ensures r.Spawned? ==> started == Some(r.pid) && r.id == (if requested.Some? then requested.value else generated)
      ensures channels == if r.Spawned? then old(channels)[r.id := r.pid] else old(channels)
    {
      if shuttingDown { return ShuttingDown; }
      if requested.Some? && requested.value in channels { return ChannelExists; }
      var id := if requested.Some? then requested.value else generated;
      if started == None { return SpawnFailed; }
      channels := channels[id := started.value];
      r := Spawned(id, started.value);
    }

    method Remove(c: Channel)
      modifies this
      ensures Value() == Step(old(Value()), RemoveOp(c))
      ensures c !in channels && forall d :: d != c ==> (d in channels <==> d in old(channels)) && (d in channels ==> channels[d] == old(channels)[d])
    {
      channels := channels - {c};
    }

    /** The sweep. `log` shows that the first wait comes after the last signal. */
    method DestroyAll(w: World) returns (summary: Summary, log: seq<Act>)
      modifies this
      ensures Value() == Step(old(Value()), DestroyAllOp(w))
      ensures Accounted(old(channels), w, summary)
      ensures SignalsThenWaits(log, old(channels), w, |old(channels)|)
      ensures LeftToSignal(old(channels), channels, w) && shuttingDown == old(shuttingDown)
    {
      hide Lists, Accounted, SignalsThenWaits, Tally, Waits, Settled, Distinct;
      var all := channels;  // a wait keeps the pid of the channel it was started for
      var swept, signals := SignalAll(all, w);
      channels := swept.channels;
      SweepEnds(swept.order, w, all);
      LogIsOrdered(swept.order, w, all);
      var answers;
      summary, answers := AwaitAll(swept.waits, w, all, swept.summary);
      log := signals + answers;
    }

    /** The daemon's teardown: refuse further spawns, then sweep; the exit status is 0
        exactly when every terminal was confirmed gone. */
    method TearDown(w: World) returns (summary: Summary, status: nat)
      modifies this
      ensures Value() == RunOps(old(Value()), [BeginShutdownOp, DestroyAllOp(w)])
      ensures shuttingDown && LeftToSignal(old(channels), channels, w)
      ensures Accounted(old(channels), w, summary)
      ensures status == 0 <==> forall c :: c in old(channels) ==> ConfirmedGone(w, c)
    {
      BeginShutdown();
      var log;
      summary, log := DestroyAll(w);
      status := ExitStatus(summary);
      ExitStatusIsExact(old(channels), w, summary);
      assert [BeginShutdownOp, DestroyAllOp(w)][..1] == [BeginShutdownOp];
      assert RunOps(old(Value()), [BeginShutdownOp]) == Step(old(Value()), BeginShutdownOp);
    }
  }
}
