/**
 `lasterm-agent --stop` on Linux (crates/lasterm-agent/src/identity.rs).

 One stopper runs beside an arbitrary environment: processes are spawned, exec,
 exit and are reaped at any time, and a reaped pid may be reused at once. Every
 system call of the stopper is one step, so the environment can act between any
 two of them. An incarnation is an index into the kernel's list of all
 processes ever created; a pidfd and an open /proc directory both name an
 incarnation, while a pid names whichever incarnation currently holds it.
 */
module AgentStop {
  import opened Prelude

  const FORMAT_VERSION := 2

  datatype FileIdentity = FileIdentity(device: nat, inode: nat)

  datatype Image = Image(path: string, file: FileIdentity)

  datatype IdentityRecord = IdentityRecord(
    formatVersion: nat, pid: nat, creationTime: string,
    executable: string, executableFile: Option<FileIdentity>, socket: string)

  datatype Details = Details(creationTime: string, executable: string, file: Option<FileIdentity>)

  /** `LeaderExited`: the first thread has exited while others still run. The pidfd is not
      ready then, but the executable can no longer be read. */
  datatype Life = Running | LeaderExited | Zombie | Reaped

  /** `images` is every program the incarnation has executed, the current one last. */
  datatype Incarnation = Incarnation(pid: nat, creationTime: string, images: seq<Image>, life: Life)

  datatype RecordFile = Missing | Malformed | Unreadable | Valid(record: IdentityRecord)

  datatype Outcome = Stopped | StillRunningAtBound | NoRecord | RecordDoesNotMatch | IoError

  /** Incarnations behind the two descriptors, and how many images the first had when opened. */
  datatype Reference = Reference(pidfd: nat, procDir: nat, since: nat)

  /** Why `status` is being evaluated: before the signal, after it failed, or while waiting. */
  datatype Purpose = Validate | AfterFailedSignal | AwaitExit

  datatype Pc =
    | ReadRecord
    | OpenPidfd
    | OpenProcDir(pidfd: nat, since: nat)
    | Poll(ref: Reference, purpose: Purpose)
    | ReadStat(ref: Reference, purpose: Purpose)
    | ReadExeFile(ref: Reference, purpose: Purpose, creationTime: string)
    | ReadExeLink(ref: Reference, purpose: Purpose, creationTime: string, file: FileIdentity)
    | SendSignal(ref: Reference)
    | CheckDeadline(ref: Reference)
    | Done(outcome: Outcome, validated: Option<Reference>)

  datatype State = State(
    procs: seq<Incarnation>,
    canonical: map<string, string>,
    socket: string, waitBound: nat,
    now: nat, deadline: nat,
    record: Option<IdentityRecord>,
    pc: Pc,
    signals: seq<nat>)

  datatype Action =
    // environment
    | Spawn(pid: nat, creationTime: string, image: Image)
    | Exec(who: nat, image: Image)
    | LeaderExit(who: nat)
    | Exit(who: nat)
    | Reap(who: nat)
    | Tick
    // stopper
    | StepRead(contents: RecordFile)
    | StepOpen(found: Option<nat>)
    | StepStatus
    | StepSignal(delivered: bool)
    | StepDeadline
    | StepFail

  function Canonical(paths: map<string, string>, path: string): string {
    if path in paths then paths[path] else path
  }

  predicate DetailsMatch(record: IdentityRecord, live: Details, paths: map<string, string>) {
    && record.creationTime == live.creationTime
    && match (record.executableFile, live.file)
       case (Some(recorded), Some(current)) => recorded == current
       case _ => Canonical(paths, live.executable) == Canonical(paths, record.executable)
  }

  ghost predicate Holds(procs: seq<Incarnation>, who: nat, pid: nat) {
    who < |procs| && procs[who].pid == pid && procs[who].life != Reaped
  }

  ghost predicate ResolvesTo(procs: seq<Incarnation>, pid: nat, found: Option<nat>) {
    match found
    case Some(who) => Holds(procs, who, pid)
    case None => forall who: nat :: !Holds(procs, who, pid)
  }

  /** Some thread of the process runs. */
  ghost predicate Alive(s: State, who: nat) {
    who < |s.procs| && s.procs[who].life in {Running, LeaderExited}
  }

  /** The whole process has ended. */
  ghost predicate Ended(s: State, who: nat) {
    who < |s.procs| && s.procs[who].life in {Zombie, Reaped}
  }

  ghost predicate Enabled(s: State, a: Action) {
    match a
    case Spawn(pid, _, _) => forall who: nat :: !Holds(s.procs, who, pid)
    case Exec(who, _) => Alive(s, who)
    case LeaderExit(who) => who < |s.procs| && s.procs[who].life == Running
    case Exit(who) => Alive(s, who)
    case Reap(who) => who < |s.procs| && s.procs[who].life == Zombie
    case Tick => true
    case StepRead(_) => s.pc.ReadRecord?
    case StepOpen(found) =>
      && (s.pc.OpenPidfd? || s.pc.OpenProcDir?)
      && s.record.Some?
      && ResolvesTo(s.procs, s.record.value.pid, found)
    case StepStatus =>
      && (s.pc.Poll? || s.pc.ReadStat? || s.pc.ReadExeFile? || s.pc.ReadExeLink?)
      && s.record.Some?
      && s.pc.ref.pidfd < |s.procs| && s.pc.ref.procDir < |s.procs|
      && s.procs[s.pc.ref.procDir].images != []
    case StepSignal(delivered) =>
      // a signal cannot be delivered to a process that has been reaped
      && s.pc.SendSignal? && s.pc.ref.pidfd < |s.procs|
      && (delivered ==> s.procs[s.pc.ref.pidfd].life != Reaped)
    case StepDeadline => s.pc.CheckDeadline?
    case StepFail => !s.pc.ReadRecord? && !s.pc.SendSignal? && !s.pc.CheckDeadline? && !s.pc.Done?
  }

  function Gone(ref: Reference, purpose: Purpose): Pc {
    if purpose == Validate then Done(RecordDoesNotMatch, None) else Done(Stopped, Some(ref))
  }

  function Judged(ref: Reference, purpose: Purpose, matches: bool): Pc {
    if !matches then Done(RecordDoesNotMatch, if purpose == Validate then None else Some(ref))
    else match purpose
         case Validate => SendSignal(ref)
         case AfterFailedSignal => Done(IoError, Some(ref))
         case AwaitExit => CheckDeadline(ref)
  }

  function AfterRead(s: State, contents: RecordFile): State {
    match contents
    case Missing => s.(pc := Done(NoRecord, None))
    case Malformed => s.(pc := Done(RecordDoesNotMatch, None))
    case Unreadable => s.(pc := Done(IoError, None))
    case Valid(r) =>
      if r.socket != s.socket || r.formatVersion != FORMAT_VERSION
      then s.(pc := Done(RecordDoesNotMatch, None))
      else s.(record := Some(r), pc := OpenPidfd)
  }

  /** One system call of `ProcessReference::status`: poll, then the three reads through /proc. */
  function AfterStatus(s: State): State
    requires s.pc.Poll? || s.pc.ReadStat? || s.pc.ReadExeFile? || s.pc.ReadExeLink?
    requires s.record.Some?
    requires s.pc.ref.pidfd < |s.procs| && s.pc.ref.procDir < |s.procs|
    requires s.procs[s.pc.ref.procDir].images != []
  {
    var live := s.procs[s.pc.ref.procDir];
    var current := live.images[|live.images| - 1];
    var next := match s.pc
      case Poll(ref, why) =>
        if s.procs[ref.pidfd].life in {Zombie, Reaped} then Gone(ref, why) else ReadStat(ref, why)
      case ReadStat(ref, why) =>
        if live.life == Reaped then Gone(ref, why) else ReadExeFile(ref, why, live.creationTime)
      case ReadExeFile(ref, why, created) =>
        if live.life != Running then Gone(ref, why) else ReadExeLink(ref, why, created, current.file)
      case ReadExeLink(ref, why, created, file) =>
        if live.life != Running then Gone(ref, why)
        else Judged(ref, why, DetailsMatch(s.record.value, Details(created, current.path, Some(file)), s.canonical));
    s.(pc := next)
  }

  ghost function Apply(s: State, a: Action): State
    requires Enabled(s, a)
  {
    match a
    case Spawn(pid, created, image) =>
      s.(procs := s.procs + [Incarnation(pid, created, [image], Running)])
    case Exec(who, image) =>
      // by whichever thread: it becomes the first one
      s.(procs := s.procs[who := s.procs[who].(images := s.procs[who].images + [image], life := Running)])
    case LeaderExit(who) => s.(procs := s.procs[who := s.procs[who].(life := LeaderExited)])
    case Exit(who) => s.(procs := s.procs[who := s.procs[who].(life := Zombie)])
    case Reap(who) => s.(procs := s.procs[who := s.procs[who].(life := Reaped)])
    case Tick => s.(now := s.now + 1)
    case StepRead(contents) => AfterRead(s, contents)
    case StepOpen(None) => s.(pc := Done(RecordDoesNotMatch, None))
    case StepOpen(Some(who)) =>
      if s.pc.OpenProcDir?
      then s.(pc := Poll(Reference(s.pc.pidfd, who, s.pc.since), Validate))
      else s.(pc := OpenProcDir(who, |s.procs[who].images|))
    case StepStatus => AfterStatus(s)
    case StepSignal(delivered) =>
      if delivered
      then s.(pc := Poll(s.pc.ref, AwaitExit), signals := s.signals + [s.pc.ref.pidfd], deadline := s.now + s.waitBound)
      else s.(pc := Poll(s.pc.ref, AfterFailedSignal))
    case StepDeadline =>
      if s.now >= s.deadline then s.(pc := Done(StillRunningAtBound, Some(s.pc.ref)))
      else s.(pc := Poll(s.pc.ref, AwaitExit))
    case StepFail =>
      s.(pc := Done(IoError,
                    if s.pc.OpenPidfd? || s.pc.OpenProcDir? || s.pc.purpose == Validate then None
                    else Some(s.pc.ref)))
  }

  ghost predicate KernelOk(procs: seq<Incarnation>) {
    && (forall i :: 0 <= i < |procs| ==> procs[i].images != [])
    && (forall i, j :: 0 <= i < j < |procs| && procs[i].pid == procs[j].pid ==> procs[i].life == Reaped || procs[j].life == Reaped)
  }

  ghost predicate Init(s: State) {
    KernelOk(s.procs) && s.pc == ReadRecord && s.record == None && s.signals == []
  }

  ghost predicate IsRun(states: seq<State>, actions: seq<Action>) {
    && |states| == |actions| + 1
    && Init(states[0])
    && forall i :: 0 <= i < |actions| ==> Enabled(states[i], actions[i]) && states[i + 1] == Apply(states[i], actions[i])
  }

  // ----- what the record promises about an incarnation

  ghost predicate ImageMatches(record: IdentityRecord, image: Image, paths: map<string, string>) {
    match record.executableFile
    case Some(file) => file == image.file
    case None => Canonical(paths, image.path) == Canonical(paths, record.executable)
  }

  /** `who` holds the recorded pid, was born when the record says, and ran the
      recorded executable at some moment after its pidfd had been opened. */
  ghost predicate Described(s: State, who: nat, since: nat) {
    && s.record.Some? && who < |s.procs|
    && s.procs[who].pid == s.record.value.pid
    && s.procs[who].creationTime == s.record.value.creationTime
    && 1 <= since
    && exists n :: since - 1 <= n < |s.procs[who].images| && ImageMatches(s.record.value, s.procs[who].images[n], s.canonical)
  }

  // ----- the invariant

  ghost predicate Opened(s: State, ref: Reference) {
    && s.record.Some?
    && ref.pidfd < |s.procs| && ref.procDir < |s.procs|
    && s.procs[ref.pidfd].pid == s.record.value.pid
    && 1 <= ref.since <= |s.procs[ref.pidfd].images|
    && (s.procs[ref.pidfd].life != Reaped ==> ref.procDir == ref.pidfd)
  }

  ghost predicate Validated(s: State, ref: Reference) {
    Opened(s, ref) && ref.procDir == ref.pidfd && Described(s, ref.pidfd, ref.since)
  }

  ghost predicate InStatus(s: State, ref: Reference, purpose: Purpose) {
    && Opened(s, ref)
    && (purpose != Validate ==> Validated(s, ref))
    && (purpose == Validate ==> s.signals == [])
    && (purpose == AfterFailedSignal ==> s.signals == [])
    && (purpose == AwaitExit ==> s.signals == [ref.pidfd])
  }

  ghost predicate SawFile(s: State, ref: Reference, file: FileIdentity) {
    && ref.pidfd < |s.procs|
    && 1 <= ref.since && exists n :: ref.since - 1 <= n < |s.procs[ref.pidfd].images| && s.procs[ref.pidfd].images[n].file == file
  }

  ghost predicate PcOk(s: State) {
    match s.pc
    case ReadRecord => s.signals == []
    case OpenPidfd => s.record.Some? && s.signals == []
    case OpenProcDir(who, since) =>
      && s.record.Some? && s.signals == [] && who < |s.procs|
      && s.procs[who].pid == s.record.value.pid && 1 <= since <= |s.procs[who].images|
    case Poll(ref, why) => InStatus(s, ref, why)
    case ReadStat(ref, why) => InStatus(s, ref, why) && ref.procDir == ref.pidfd
    case ReadExeFile(ref, why, created) =>
      InStatus(s, ref, why) && ref.procDir == ref.pidfd && created == s.procs[ref.pidfd].creationTime
    case ReadExeLink(ref, why, created, file) =>
      InStatus(s, ref, why) && ref.procDir == ref.pidfd && created == s.procs[ref.pidfd].creationTime && SawFile(s, ref, file)
    case SendSignal(ref) => Validated(s, ref) && s.signals == []
    case CheckDeadline(ref) => Validated(s, ref) && s.signals == [ref.pidfd]
    case Done(outcome, None) => s.signals == [] && outcome != Stopped && outcome != StillRunningAtBound
    case Done(outcome, Some(ref)) =>
      && Validated(s, ref) && outcome != NoRecord
      && (s.signals == [] || s.signals == [ref.pidfd])
      && (outcome == StillRunningAtBound ==> s.signals == [ref.pidfd])
  }

  ghost predicate Inv(s: State) {
    KernelOk(s.procs) && PcOk(s)
  }

  /** Environment steps only move an incarnation forward in its own life. */
  ghost predicate Advances(before: seq<Incarnation>, after: seq<Incarnation>) {
    && |before| <= |after|
    && forall i {:trigger after[i]} :: 0 <= i < |before| ==>
      && after[i].pid == before[i].pid && after[i].creationTime == before[i].creationTime
      && before[i].images <= after[i].images
      && (before[i].life == Reaped ==> after[i].life == Reaped)
      && (before[i].life in {Zombie, Reaped} ==> after[i].life in {Zombie, Reaped})
  }

  lemma EnvironmentAdvances(s: State, a: Action)
    requires Enabled(s, a) && KernelOk(s.procs)
    ensures Advances(s.procs, Apply(s, a).procs) && KernelOk(Apply(s, a).procs)
  {
    if a.Spawn? {
      forall i: nat | i < |s.procs| && s.procs[i].pid == a.pid
        ensures s.procs[i].life == Reaped
      {
        assert !Holds(s.procs, i, a.pid);
      }
    }
  }

  lemma DescribedIsStable(s: State, t: State, who: nat, since: nat)
    requires Described(s, who, since) && Advances(s.procs, t.procs)
    requires t.record == s.record && t.canonical == s.canonical
    ensures Described(t, who, since)
  {
    var n :| since - 1 <= n < |s.procs[who].images| && ImageMatches(s.record.value, s.procs[who].images[n], s.canonical);
    assert t.procs[who].images[n] == s.procs[who].images[n];
  }

  lemma SawFileIsStable(s: State, t: State, ref: Reference, file: FileIdentity)
    requires SawFile(s, ref, file) && Advances(s.procs, t.procs)
    ensures SawFile(t, ref, file)
  {
    var n :| ref.since - 1 <= n < |s.procs[ref.pidfd].images| && s.procs[ref.pidfd].images[n].file == file;
    assert t.procs[ref.pidfd].images[n] == s.procs[ref.pidfd].images[n];
  }

  lemma EnvironmentKeepsPcOk(s: State, t: State)
    requires PcOk(s) && Advances(s.procs, t.procs)
    requires t == s.(procs := t.procs, now := t.now)
    ensures PcOk(t)
  {
    forall ref: Reference | Validated(s, ref) ensures Validated(t, ref) {
      DescribedIsStable(s, t, ref.pidfd, ref.since);
    }
    if s.pc.ReadExeLink? {
      SawFileIsStable(s, t, s.pc.ref, s.pc.file);
    }
  }

  lemma PidHolderIsUnique(procs: seq<Incarnation>, first: nat, second: nat, pid: nat)
    requires KernelOk(procs) && Holds(procs, first, pid) && Holds(procs, second, pid)
    ensures first == second
  {
  }

  /** The pid can only have moved to another incarnation if the first one is reaped. */
  lemma OpenStepKeepsPcOk(s: State, a: Action)
    requires Inv(s) && a.StepOpen? && Enabled(s, a)
    ensures PcOk(Apply(s, a))
  {
    if a.found.Some? && s.pc.OpenProcDir? && s.procs[s.pc.pidfd].life != Reaped {
      PidHolderIsUnique(s.procs, s.pc.pidfd, a.found.value, s.record.value.pid);
    }
  }

  /** Details read through a directory that belongs to the pidfd's incarnation describe it. */
  lemma MatchDescribes(s: State, ref: Reference, created: string, file: FileIdentity)
    requires Opened(s, ref) && ref.procDir == ref.pidfd
    requires s.procs[ref.pidfd].images != [] && created == s.procs[ref.pidfd].creationTime
    requires SawFile(s, ref, file)
    requires var live := s.procs[ref.pidfd];
             DetailsMatch(s.record.value, Details(created, live.images[|live.images| - 1].path, Some(file)), s.canonical)
    ensures Described(s, ref.pidfd, ref.since)
  {
    var images := s.procs[ref.pidfd].images;
    var n := |images| - 1;
    if s.record.value.executableFile.Some? {
      n :| ref.since - 1 <= n < |images| && images[n].file == file;
    }
    assert ImageMatches(s.record.value, images[n], s.canonical);
  }

  /** A live poll fixes the /proc directory to the pidfd's incarnation, so a
      match says something about the process that will be signalled. */
  lemma StatusStepKeepsPcOk(s: State)
    requires Inv(s) && Enabled(s, StepStatus)
    ensures PcOk(Apply(s, StepStatus))
  {
    var t := Apply(s, StepStatus);
    var ref := s.pc.ref;
    assert Validated(s, ref) ==> Validated(t, ref);
    if s.pc.ReadExeFile? {
      FileStepKeepsPcOk(s, t);
    } else if s.pc.ReadExeLink? {
      LinkStepKeepsPcOk(s, t);
    }
  }

  lemma FileStepKeepsPcOk(s: State, t: State)
    requires Inv(s) && s.pc.ReadExeFile? && Enabled(s, StepStatus) && t == AfterStatus(s)
    ensures PcOk(t)
  {
    var live := s.procs[s.pc.ref.procDir];
    assert Validated(s, s.pc.ref) ==> Validated(t, s.pc.ref);
    if live.life == Running {
      assert live.images[|live.images| - 1].file == t.pc.file;
      assert SawFile(t, s.pc.ref, t.pc.file);
    }
  }

  lemma LinkStepKeepsPcOk(s: State, t: State)
    requires Inv(s) && s.pc.ReadExeLink? && Enabled(s, StepStatus) && t == AfterStatus(s)
    ensures PcOk(t)
  {
    var live := s.procs[s.pc.ref.procDir];
    assert Validated(s, s.pc.ref) ==> Validated(t, s.pc.ref);
    if t.pc.SendSignal? || t.pc.CheckDeadline? {
      MatchDescribes(s, s.pc.ref, s.pc.creationTime, s.pc.file);
      assert Described(t, s.pc.ref.pidfd, s.pc.ref.since);
    }
  }

  lemma InvIsInductive(s: State, a: Action)
    requires Inv(s) && Enabled(s, a)
    ensures Inv(Apply(s, a))
  {
    hide KernelOk, Advances, AfterStatus, AfterRead;
    EnvironmentAdvances(s, a);
    var t := Apply(s, a);
    match a {
      case Spawn(_, _, _) => EnvironmentKeepsPcOk(s, t);
      case Exec(_, _) => EnvironmentKeepsPcOk(s, t);
      case LeaderExit(_) => EnvironmentKeepsPcOk(s, t);
      case Exit(_) => EnvironmentKeepsPcOk(s, t);
      case Reap(_) => EnvironmentKeepsPcOk(s, t);
      case Tick => EnvironmentKeepsPcOk(s, t);
      case StepOpen(_) => OpenStepKeepsPcOk(s, a);
      case StepStatus => StatusStepKeepsPcOk(s);
      case StepRead(_) => ReadStepKeepsPcOk(s, a);
      case StepSignal(_) => LastStepsKeepPcOk(s, a);
      case StepDeadline => LastStepsKeepPcOk(s, a);
      case StepFail => FailStepKeepsPcOk(s);
    }
  }

  lemma ReadStepKeepsPcOk(s: State, a: Action)
    requires Inv(s) && a.StepRead? && Enabled(s, a)
    ensures PcOk(Apply(s, a))
  {
  }

  lemma LastStepsKeepPcOk(s: State, a: Action)
    requires Inv(s) && (a.StepSignal? || a.StepDeadline?) && Enabled(s, a)
    ensures PcOk(Apply(s, a))
  {
    assert Described(Apply(s, a), s.pc.ref.pidfd, s.pc.ref.since);
  }

  lemma FailStepKeepsPcOk(s: State)
    requires Inv(s) && Enabled(s, StepFail)
    ensures PcOk(Apply(s, StepFail))
  {
    var t := Apply(s, StepFail);
    if t.pc.validated.Some? {
      assert Described(t, s.pc.ref.pidfd, s.pc.ref.since);
    }
  }

  lemma {:induction false} InvHolds(states: seq<State>, actions: seq<Action>, i: nat)
    requires IsRun(states, actions) && i < |states|
    ensures Inv(states[i])
  {
    if i > 0 {
      InvHolds(states, actions, i - 1);
      InvIsInductive(states[i - 1], actions[i - 1]);
    }
  }

  // ----- where the pidfd came from

  /** The pidfd in use and how many images its process had when it was opened. */
  function PidfdOf(pc: Pc): Option<(nat, nat)> {
    match pc
    case OpenProcDir(who, since) => Some((who, since))
    case Poll(ref, _) => Some((ref.pidfd, ref.since))
    case ReadStat(ref, _) => Some((ref.pidfd, ref.since))
    case ReadExeFile(ref, _, _) => Some((ref.pidfd, ref.since))
    case ReadExeLink(ref, _, _, _) => Some((ref.pidfd, ref.since))
    case SendSignal(ref) => Some((ref.pidfd, ref.since))
    case CheckDeadline(ref) => Some((ref.pidfd, ref.since))
    case Done(_, Some(ref)) => Some((ref.pidfd, ref.since))
    case _ => None
  }

  /** Step `j` of the run opened the pidfd of `who`. */
  ghost predicate OpensPidfd(states: seq<State>, actions: seq<Action>, j: nat, who: nat) {
    j < |actions| && j < |states| && actions[j] == StepOpen(Some(who)) && states[j].pc == OpenPidfd && who < |states[j].procs|
  }

  /** `who` is described by the record, its executable as it ran at or after the moment its pidfd was opened. */
  ghost predicate DescribedSinceOpen(states: seq<State>, actions: seq<Action>, i: nat, who: nat) {
    i < |states| && exists j ::
      && 0 <= j < i && OpensPidfd(states, actions, j, who)
      && Described(states[i], who, |states[j].procs[who].images|)
  }

  /** The pidfd of `who` was opened before moment `i`, when its process had `since` images. */
  ghost predicate OpenedBefore(states: seq<State>, actions: seq<Action>, i: nat, who: nat, since: nat) {
    exists j :: 0 <= j < i && OpensPidfd(states, actions, j, who) && since == |states[j].procs[who].images|
  }

  lemma {:induction false} PidfdStep(s: State, a: Action)
    requires Enabled(s, a)
    ensures PidfdOf(Apply(s, a).pc) in {None, PidfdOf(s.pc)} ||
            (s.pc == OpenPidfd && a.StepOpen? && a.found.Some? && a.found.value < |s.procs|
             && PidfdOf(Apply(s, a).pc) == Some((a.found.value, |s.procs[a.found.value].images|)))
  {
  }

  lemma {:induction false} PidfdWasOpened(states: seq<State>, actions: seq<Action>, i: nat)
    requires IsRun(states, actions) && i < |states| && PidfdOf(states[i].pc).Some?
    ensures var (who, since) := PidfdOf(states[i].pc).value; OpenedBefore(states, actions, i, who, since)
  {
    assert PidfdOf(states[0].pc) == None;
    if i > 0 {
      PidfdStep(states[i - 1], actions[i - 1]);
      hide Apply, Enabled, PidfdOf, Init;
      if PidfdOf(states[i].pc) == PidfdOf(states[i - 1].pc) {
        PidfdWasOpened(states, actions, i - 1);
        OpenedStays(states, actions, i - 1, PidfdOf(states[i].pc).value.0, PidfdOf(states[i].pc).value.1);
      } else {
        assert OpensPidfd(states, actions, i - 1, PidfdOf(states[i].pc).value.0);
      }
    }
  }

  lemma {:induction false} OpenedStays(states: seq<State>, actions: seq<Action>, i: nat, who: nat, since: nat)
    requires OpenedBefore(states, actions, i, who, since)
    ensures OpenedBefore(states, actions, i + 1, who, since)
  {
    hide OpensPidfd;
  }

  lemma {:induction false} DescribedFromOpen(states: seq<State>, actions: seq<Action>, i: nat, who: nat, since: nat)
    requires OpenedBefore(states, actions, i, who, since) && i < |states| && Described(states[i], who, since)
    ensures DescribedSinceOpen(states, actions, i, who)
  {
    hide Described;
  }

  // ----- main results

  /** Whatever the interleaving, at most one signal is sent, and it reaches an
      incarnation that the record describes since its pidfd was opened. */
  lemma SignalOnlyReachesRecordedIncarnation(states: seq<State>, actions: seq<Action>, i: nat)
    requires IsRun(states, actions) && i < |states|
    ensures |states[i].signals| <= 1
    ensures forall who :: who in states[i].signals ==> DescribedSinceOpen(states, actions, i, who)
  {
    InvHolds(states, actions, i);
    var s := states[i];
    if who: nat :| who in s.signals {
      hide Inv, Described, PidfdOf, DescribedSinceOpen;
      var since := SignalledIsDescribed(s, who);
      PidfdWasOpened(states, actions, i);
      DescribedFromOpen(states, actions, i, who, since);
    }
  }

  lemma SignalledIsDescribed(s: State, who: nat) returns (since: nat)
    requires Inv(s) && who in s.signals
    ensures |s.signals| == 1 && PidfdOf(s.pc) == Some((who, since)) && Described(s, who, since)
  {
    var ref := match s.pc
      case Poll(ref, _) => ref
      case ReadStat(ref, _) => ref
      case ReadExeFile(ref, _, _) => ref
      case ReadExeLink(ref, _, _, _) => ref
      case CheckDeadline(ref) => ref
      case Done(_, Some(ref)) => ref;
    since := ref.since;
  }

  ghost predicate DistinctBirths(procs: seq<Incarnation>) {
    forall i, j :: 0 <= i < j < |procs| ==> procs[i].pid != procs[j].pid || procs[i].creationTime != procs[j].creationTime
  }

  /** With creation times that tell incarnations of one pid apart, the signal can
      only reach the daemon that published the record. */
  lemma SignalOnlyReachesPublisher(states: seq<State>, actions: seq<Action>, i: nat, publisher: nat)
    requires IsRun(states, actions) && i < |states|
    requires DistinctBirths(states[i].procs)
    requires states[i].record.Some? && publisher < |states[i].procs|
    requires states[i].procs[publisher].pid == states[i].record.value.pid
    requires states[i].procs[publisher].creationTime == states[i].record.value.creationTime
    ensures forall who :: who in states[i].signals ==> who == publisher
  {
    SignalOnlyReachesRecordedIncarnation(states, actions, i);
    forall who | who in states[i].signals ensures who == publisher {
      assert DescribedSinceOpen(states, actions, i, who);
    }
  }

  lemma {:induction false} EndedStep(s: State, a: Action, who: nat)
    requires Enabled(s, a) && Ended(s, who)
    ensures Ended(Apply(s, a), who)
  {
  }

  /** An ended process never runs again. */
  lemma {:induction false} EndedStaysEnded(states: seq<State>, actions: seq<Action>, i: nat, j: nat, who: nat)
    requires IsRun(states, actions) && i <= j < |states| && Ended(states[i], who)
    ensures Ended(states[j], who)
    decreases j
  {
    hide Apply, Enabled, Init, Ended;
    if i < j {
      EndedStaysEnded(states, actions, i, j - 1, who);
      EndedStep(states[j - 1], actions[j - 1], who);
    }
  }

  /** Moment `k` is the first at which the stopper is done. */
  ghost predicate ReportedAt(states: seq<State>, k: nat) {
    0 < k < |states| && states[k].pc.Done? && !states[k - 1].pc.Done?
  }

  lemma {:induction false} ReportHasMoment(states: seq<State>, actions: seq<Action>, i: nat) returns (k: nat)
    requires IsRun(states, actions) && i < |states| && states[i].pc.Done?
    ensures k <= i && ReportedAt(states, k) && states[k].pc == states[i].pc
  {
    if states[i - 1].pc.Done? {
      k := ReportHasMoment(states, actions, i - 1);
      DoneStays(states[i - 1], actions[i - 1]);
    } else {
      k := i;
    }
  }

  lemma DoneStays(s: State, a: Action)
    requires Enabled(s, a) && s.pc.Done?
    ensures Apply(s, a).pc == s.pc && Apply(s, a).signals == s.signals
  {
  }

  /** The first thread of a process that still runs is gone. */
  ghost predicate LeaderGone(s: State, who: nat) {
    who < |s.procs| && s.procs[who].life == LeaderExited
  }

  /** Up to moment `k` the first thread of `who` has exited, and since then the process has
      neither ended nor executed another program. */
  ghost predicate LostLeader(states: seq<State>, actions: seq<Action>, k: nat, who: nat)
    requires k <= |actions| < |states|
  {
    exists j :: 0 <= j <= k && LosesLeader(states, actions, j, who)
      && forall m :: j <= m < k ==> !RestartsOrEnds(actions[m], who)
  }

  /** At moment `j` the first thread of `who` exits, or at the start it is found gone. */
  ghost predicate LosesLeader(states: seq<State>, actions: seq<Action>, j: nat, who: nat)
    requires j <= |actions| < |states|
  {
    if j == 0 then LeaderGone(states[0], who)
    else actions[j - 1] == LeaderExit(who)
  }

  ghost predicate RestartsOrEnds(a: Action, who: nat) {
    (a.Exec? || a.Exit?) && a.who == who
  }

  lemma {:induction false} LeaderStep(s: State, a: Action, who: nat)
    requires Enabled(s, a)
    ensures LeaderGone(Apply(s, a), who) <==> a == LeaderExit(who) || (LeaderGone(s, who) && !RestartsOrEnds(a, who))
  {
  }

  /** The history tells whether the first thread alone has exited. */
  lemma {:induction false} LeaderGoneIffLost(states: seq<State>, actions: seq<Action>, k: nat, who: nat)
    requires IsRun(states, actions) && k < |states|
    ensures LeaderGone(states[k], who) <==> LostLeader(states, actions, k, who)
  {
    hide Apply, Enabled, Init;
    if k == 0 {
      assert LosesLeader(states, actions, 0, who) <==> LeaderGone(states[0], who);
    } else {
      LeaderGoneIffLost(states, actions, k - 1, who);
      LeaderStep(states[k - 1], actions[k - 1], who);
      LostStep(states, actions, k, who);
    }
  }

  lemma {:induction false} LostStep(states: seq<State>, actions: seq<Action>, k: nat, who: nat)
    requires 0 < k <= |actions| < |states|
    ensures LostLeader(states, actions, k, who) <==>
            actions[k - 1] == LeaderExit(who) || (LostLeader(states, actions, k - 1, who) && !RestartsOrEnds(actions[k - 1], who))
  {
    hide RestartsOrEnds;
    assert LosesLeader(states, actions, k, who) <==> actions[k - 1] == LeaderExit(who);
    if LostLeader(states, actions, k - 1, who) && !RestartsOrEnds(actions[k - 1], who) {
      var j :| 0 <= j <= k - 1 && LosesLeader(states, actions, j, who) && forall m :: j <= m < k - 1 ==> !RestartsOrEnds(actions[m], who);
      assert LosesLeader(states, actions, j, who) && forall m :: j <= m < k ==> !RestartsOrEnds(actions[m], who);
    }
  }

  /** When `Stopped` is reported the first thread of the pidfd's process is gone, and the
      whole process when the poll or the read of its status gave the answer. */
  lemma StoppedFindsLeaderGone(s: State, a: Action)
    requires Inv(s) && Enabled(s, a) && !s.pc.Done? && Apply(s, a).pc.Done? && Apply(s, a).pc.outcome == Stopped
    ensures Apply(s, a).pc.validated.Some?
    ensures var who := Apply(s, a).pc.validated.value.pidfd;
            && who < |s.procs| && Apply(s, a).procs == s.procs && s.procs[who].life != Running
            && (s.pc.Poll? || s.pc.ReadStat? ==> Ended(s, who))
  {
  }

  /** `Stopped` names a described process whose first thread was gone at the moment of
      the report. The whole process had ended, for good, when the poll or the status gave
      the answer; in general it had ended unless its first thread had exited by itself
      before, and the process had neither ended nor executed a program since. */
  lemma {:induction false} StoppedIsTrue(states: seq<State>, actions: seq<Action>, i: nat) returns (k: nat, who: nat)
    requires IsRun(states, actions) && i < |states| && states[i].pc.Done? && states[i].pc.outcome == Stopped
    ensures k <= i && ReportedAt(states, k) && who < |states[k].procs| && DescribedSinceOpen(states, actions, i, who)
    ensures forall x :: x in states[i].signals ==> x == who
    ensures states[k].procs[who].life != Running
    ensures states[k - 1].pc.Poll? || states[k - 1].pc.ReadStat? ==> Ended(states[k], who)
    ensures Ended(states[k], who) <==> !LostLeader(states, actions, k, who)
    ensures Ended(states[k], who) ==> Ended(states[i], who)
  {
    hide Apply, Enabled, Init, Inv, PidfdOf, Described, DescribedSinceOpen;
    k := ReportHasMoment(states, actions, i);
    InvHolds(states, actions, k - 1);
    InvHolds(states, actions, i);
    StoppedFindsLeaderGone(states[k - 1], actions[k - 1]);
    DoneIsDescribed(states[i]);
    var ref := states[i].pc.validated.value;
    who := ref.pidfd;
    PidfdWasOpened(states, actions, i);
    DescribedFromOpen(states, actions, i, who, ref.since);
    LeaderGoneIffLost(states, actions, k, who);
    hide LostLeader;
    if Ended(states[k], who) { EndedStaysEnded(states, actions, k, i, who); }
  }

  lemma {:induction false} DoneIsDescribed(s: State)
    requires Inv(s) && s.pc.Done? && s.pc.validated.Some?
    ensures var ref := s.pc.validated.value;
            Described(s, ref.pidfd, ref.since) && PidfdOf(s.pc) == Some((ref.pidfd, ref.since))
            && forall x :: x in s.signals ==> x == ref.pidfd
  {
  }

  /** The other reports say as much about the signal as the caller may conclude. */
  lemma ReportedOutcomeIsTrue(states: seq<State>, actions: seq<Action>, i: nat)
    requires IsRun(states, actions) && i < |states| && states[i].pc.Done?
    ensures states[i].pc.outcome == StillRunningAtBound ==>
      exists who: nat :: DescribedSinceOpen(states, actions, i, who) && states[i].signals == [who]
    ensures states[i].pc.outcome == NoRecord ==> states[i].signals == []
  {
    InvHolds(states, actions, i);
    var s := states[i];
    if s.pc.validated.Some? {
      var ref := s.pc.validated.value;
      DoneIsDescribed(s);
      PidfdWasOpened(states, actions, i);
      DescribedFromOpen(states, actions, i, ref.pidfd, ref.since);
    }
  }

  // ----- why the stopper reports what it reports

  /** Before the signal, after it failed, or after it was delivered. */
  function PhaseOf(pc: Pc): Purpose {
    match pc
    case Poll(_, why) => why
    case ReadStat(_, why) => why
    case ReadExeFile(_, why, _) => why
    case ReadExeLink(_, why, _, _) => why
    case CheckDeadline(_) => AwaitExit
    case _ => Validate
  }

  /** The signal was sent at step `j`, with this result, and at no other step before `i`. */
  ghost predicate SignalledAt(actions: seq<Action>, i: nat, j: nat, delivered: bool) {
    j < i <= |actions| && actions[j] == StepSignal(delivered) && forall m :: 0 <= m < i && m != j ==> !actions[m].StepSignal?
  }

  ghost predicate NotSignalled(actions: seq<Action>, i: nat) {
    i <= |actions| && forall m :: 0 <= m < i ==> !actions[m].StepSignal?
  }

  lemma {:induction false} PhaseStep(s: State, a: Action)
    requires Enabled(s, a) && !Apply(s, a).pc.Done?
    ensures var t := Apply(s, a);
            && !s.pc.Done? && t.waitBound == s.waitBound
            && (a.StepSignal? ==> PhaseOf(s.pc) == Validate)
            && PhaseOf(t.pc) == (if a.StepSignal? then (if a.delivered then AwaitExit else AfterFailedSignal) else PhaseOf(s.pc))
            && t.deadline == (if a == StepSignal(true) then s.now + s.waitBound else s.deadline)
  {
  }

  /** The run so far, as the stopper's position knows it. */
  ghost predicate PhaseIsHistory(states: seq<State>, actions: seq<Action>, i: nat)
    requires i < |states|
  {
    match PhaseOf(states[i].pc)
    case Validate => NotSignalled(actions, i)
    case AfterFailedSignal => exists j: nat :: SignalledAt(actions, i, j, false)
    case AwaitExit => exists j: nat :: SignalledAt(actions, i, j, true) && j < |states| && states[i].deadline == states[j].now + states[j].waitBound
  }

  lemma {:induction false} PhaseHolds(states: seq<State>, actions: seq<Action>, i: nat)
    requires IsRun(states, actions) && i < |states| && !states[i].pc.Done?
    ensures PhaseIsHistory(states, actions, i)
  {
    if i > 0 {
      PhaseStep(states[i - 1], actions[i - 1]);
      hide Apply, Enabled, Init, PhaseOf, SignalledAt, NotSignalled;
      PhaseHolds(states, actions, i - 1);
      HistoryGrows(actions, i);
      var a := actions[i - 1];
      if a.StepSignal? {
        assert a == StepSignal(true) || a == StepSignal(false);
        assert SignalledAt(actions, i, i - 1, a.delivered);
      } else if PhaseOf(states[i].pc) == AfterFailedSignal {
        var j: nat :| SignalledAt(actions, i - 1, j, false);
        assert SignalledAt(actions, i, j, false);
      } else if PhaseOf(states[i].pc) == AwaitExit {
        var j: nat :| SignalledAt(actions, i - 1, j, true) && j < |states| && states[i - 1].deadline == states[j].now + states[j].waitBound;
        assert SignalledAt(actions, i, j, true);
      }
    }
  }

  lemma {:induction false} HistoryGrows(actions: seq<Action>, i: nat)
    requires 0 < i <= |actions|
    ensures !actions[i - 1].StepSignal? ==>
      && (NotSignalled(actions, i - 1) ==> NotSignalled(actions, i))
      && (forall j: nat, delivered :: SignalledAt(actions, i - 1, j, delivered) ==> SignalledAt(actions, i, j, delivered))
    ensures actions[i - 1].StepSignal? && NotSignalled(actions, i - 1) ==> SignalledAt(actions, i, i - 1, actions[i - 1].delivered)
  {
  }

  /** The wait bound has passed since the signal was delivered. */
  ghost predicate PastBound(states: seq<State>, actions: seq<Action>, i: nat) {
    exists j: nat :: SignalledAt(actions, i, j, true) && j < |states| && i < |states|
      && states[i].now >= states[j].now + states[j].waitBound
  }

  /** The system call finds the process gone: by poll, status, or executable. */
  ghost predicate FoundGone(s: State)
    requires Enabled(s, StepStatus)
  {
    var life := s.procs[s.pc.ref.procDir].life;
    || (s.pc.Poll? && s.procs[s.pc.ref.pidfd].life in {Zombie, Reaped})
    || (s.pc.ReadStat? && life == Reaped)
    || ((s.pc.ReadExeFile? || s.pc.ReadExeLink?) && life != Running)
  }

  /** The last read is done and what was read is what the record says: creation time, and
      the executable's file, or its path when no file is recorded. */
  ghost predicate FoundMatching(s: State)
    requires Enabled(s, StepStatus)
  {
    var images := s.procs[s.pc.ref.procDir].images;
    var record := s.record.value;
    && s.pc.ReadExeLink? && !FoundGone(s)
    && s.pc.creationTime == record.creationTime
    && (record.executableFile.Some? ==> record.executableFile.value == s.pc.file)
    && (record.executableFile == None ==> Canonical(s.canonical, images[|images| - 1].path) == Canonical(s.canonical, record.executable))
  }

  ghost predicate Reports(t: State, outcome: Outcome) {
    t.pc.Done? && t.pc.outcome == outcome
  }

  /** What each answer makes of the stop, by the phase alone. */
  ghost predicate StatusMeans(s: State, t: State)
    requires Enabled(s, StepStatus)
  {
    var phase := PhaseOf(s.pc);
    && (Reports(t, Stopped) <==> FoundGone(s) && phase != Validate)
    && (Reports(t, RecordDoesNotMatch) <==> (FoundGone(s) && phase == Validate) || (s.pc.ReadExeLink? && !FoundGone(s) && !FoundMatching(s)))
    && (Reports(t, IoError) <==> FoundMatching(s) && phase == AfterFailedSignal)
    && !Reports(t, NoRecord) && !Reports(t, StillRunningAtBound)
    && (t.pc.SendSignal? <==> FoundMatching(s) && phase == Validate)
    && (t.pc.CheckDeadline? <==> FoundMatching(s) && phase == AwaitExit)
    && !t.pc.Poll? && !t.pc.OpenPidfd?
  }

  lemma {:induction false} StatusStepMeans(s: State)
    requires Enabled(s, StepStatus)
    ensures StatusMeans(s, Apply(s, StepStatus)) && PidfdOf(Apply(s, StepStatus).pc) in {PidfdOf(s.pc), None}
  {
  }

  /** Why a status call ends the stop, or lets it go on, by the run. */
  lemma {:induction false} StatusIsExplained(states: seq<State>, actions: seq<Action>, i: nat)
    requires IsRun(states, actions) && i < |actions| && actions[i] == StepStatus
    ensures var s, t := states[i], states[i + 1];
            && (Reports(t, Stopped) <==> FoundGone(s) && !NotSignalled(actions, i))
            && (Reports(t, RecordDoesNotMatch) <==>
                  (FoundGone(s) && NotSignalled(actions, i)) || (s.pc.ReadExeLink? && !FoundGone(s) && !FoundMatching(s)))
            && (Reports(t, IoError) <==> FoundMatching(s) && exists j: nat :: SignalledAt(actions, i, j, false))
            && !Reports(t, NoRecord) && !Reports(t, StillRunningAtBound)
            && (t.pc.SendSignal? <==> FoundMatching(s) && NotSignalled(actions, i))
            && (t.pc.CheckDeadline? <==> FoundMatching(s) && exists j: nat :: SignalledAt(actions, i, j, true))
  {
    PhaseHolds(states, actions, i);
    StatusStepMeans(states[i]);
    hide Apply, FoundGone, FoundMatching, PidfdOf, PhaseOf, Enabled, Reports;
    PhasesExclude(actions, i);
  }

  lemma {:induction false} PhasesExclude(actions: seq<Action>, i: nat)
    ensures forall j: nat, delivered :: SignalledAt(actions, i, j, delivered) ==> !NotSignalled(actions, i)
    ensures forall j: nat, k: nat :: !(SignalledAt(actions, i, j, true) && SignalledAt(actions, i, k, false))
  {
  }

  /** At the deadline check the stop gives up exactly when the wait bound has passed since the
      signal was delivered; before that it polls the same process again. */
  lemma {:induction false} GivesUpAtBound(states: seq<State>, actions: seq<Action>, i: nat)
    requires IsRun(states, actions) && i < |actions| && actions[i] == StepDeadline
    ensures Reports(states[i + 1], StillRunningAtBound) <==> PastBound(states, actions, i)
    ensures !PastBound(states, actions, i) ==> states[i + 1].pc.Poll?
    ensures PidfdOf(states[i + 1].pc) == PidfdOf(states[i].pc)
  {
    PhaseHolds(states, actions, i);
    var j: nat :| SignalledAt(actions, i, j, true) && j < |states| && states[i].deadline == states[j].now + states[j].waitBound;
    forall k: nat | SignalledAt(actions, i, k, true) ensures k == j {}
  }

  /** Every other report: a missing, malformed or unreadable record, one for another socket
      or format, a pid nobody holds, or a failed call. */
  lemma {:induction false} OtherReports(states: seq<State>, actions: seq<Action>, i: nat)
    requires IsRun(states, actions) && i < |actions| && !states[i].pc.Done? && actions[i] != StepStatus
    ensures var a, t := actions[i], states[i + 1];
            && (Reports(t, NoRecord) <==> a == StepRead(Missing))
            && (Reports(t, IoError) <==> a in {StepRead(Unreadable), StepFail})
            && (Reports(t, RecordDoesNotMatch) <==>
                  || a in {StepRead(Malformed), StepOpen(None)}
                  || (a.StepRead? && a.contents.Valid? && (a.contents.record.socket != states[i].socket || a.contents.record.formatVersion != 2)))
            && !Reports(t, Stopped) && (Reports(t, StillRunningAtBound) ==> a == StepDeadline)
    ensures actions[i].StepSignal? ==> states[i + 1].pc.Poll? && states[i + 1].signals == states[i].signals + if actions[i].delivered then [states[i].pc.ref.pidfd] else []
    ensures (actions[i].StepRead? || actions[i].StepOpen?) && !states[i + 1].pc.Done? ==>
      states[i + 1].record == if actions[i].StepRead? then Some(actions[i].contents.record) else states[i].record
  {
  }

  lemma {:induction false} LateNeedsDeadline(s: State, a: Action)
    requires Enabled(s, a) && !s.pc.Done? && Reports(Apply(s, a), StillRunningAtBound)
    ensures a == StepDeadline
  {
  }

  /** `StillRunningAtBound` is reported only when the bound has passed since the delivery. */
  lemma {:induction false} StillRunningIsLate(states: seq<State>, actions: seq<Action>, i: nat)
    requires IsRun(states, actions) && i < |states| && Reports(states[i], StillRunningAtBound)
    ensures exists k: nat, j: nat ::
              && j < k < i && k < |actions| && actions[k] == StepDeadline && actions[j] == StepSignal(true)
              && states[k].now >= states[j].now + states[j].waitBound
  {
    var k := ReportHasMoment(states, actions, i);
    LateNeedsDeadline(states[k - 1], actions[k - 1]);
    GivesUpAtBound(states, actions, k - 1);
    hide Apply, Enabled;
    var j: nat :| SignalledAt(actions, k - 1, j, true) && j < |states| && states[k - 1].now >= states[j].now + states[j].waitBound;
    assert actions[k - 1] == StepDeadline && actions[j] == StepSignal(true);
  }

  // ----- the protocol does act

  ghost predicate Runs(s: State, who: nat) {
    who < |s.procs| && s.procs[who].life == Running
  }

  ghost predicate Leads(s: State, a: Action, t: State) {
    Enabled(s, a) && t == Apply(s, a)
  }

  lemma OpenSteps(s: State, record: IdentityRecord, daemon: nat)
    requires Init(s) && Runs(s, daemon) && record.pid == s.procs[daemon].pid
    requires record.formatVersion == FORMAT_VERSION && record.socket == s.socket
    ensures var n, known := |s.procs[daemon].images|, s.(record := Some(record), pc := OpenPidfd);
            && Leads(s, StepRead(Valid(record)), known)
            && Leads(known, StepOpen(Some(daemon)), known.(pc := OpenProcDir(daemon, n)))
            && Leads(known.(pc := OpenProcDir(daemon, n)), StepOpen(Some(daemon)), known.(pc := Poll(Reference(daemon, daemon, n), Validate)))
  {
    assert Holds(s.procs, daemon, record.pid);
  }

  lemma StatusSteps(s: State, record: IdentityRecord, daemon: nat, ref: Reference)
    requires s.record == Some(record) && Runs(s, daemon) && s.procs[daemon].images != []
    requires ref.pidfd == ref.procDir == daemon && record.creationTime == s.procs[daemon].creationTime
    requires ImageMatches(record, s.procs[daemon].images[|s.procs[daemon].images| - 1], s.canonical)
    ensures var created, file := record.creationTime, s.procs[daemon].images[|s.procs[daemon].images| - 1].file;
            && Leads(s.(pc := Poll(ref, Validate)), StepStatus, s.(pc := ReadStat(ref, Validate)))
            && Leads(s.(pc := ReadStat(ref, Validate)), StepStatus, s.(pc := ReadExeFile(ref, Validate, created)))
            && Leads(s.(pc := ReadExeFile(ref, Validate, created)), StepStatus, s.(pc := ReadExeLink(ref, Validate, created, file)))
            && Leads(s.(pc := ReadExeLink(ref, Validate, created, file)), StepStatus, s.(pc := SendSignal(ref)))
  {
  }

  lemma {:induction false} Extend(states: seq<State>, actions: seq<Action>, a: Action, t: State)
    requires IsRun(states, actions) && Leads(states[|actions|], a, t)
    ensures IsRun(states + [t], actions + [a]) && (states + [t])[|actions| + 1] == t && (states + [t])[0] == states[0]
  {
    hide Apply, Enabled, Init;
  }

  /** A live daemon that the record describes is validated. */
  lemma {:induction false} SignalRun(s: State, record: IdentityRecord, daemon: nat) returns (states: seq<State>, actions: seq<Action>)
    requires Init(s) && Runs(s, daemon)
    requires record.formatVersion == FORMAT_VERSION && record.socket == s.socket
    requires record.pid == s.procs[daemon].pid && record.creationTime == s.procs[daemon].creationTime
    requires ImageMatches(record, s.procs[daemon].images[|s.procs[daemon].images| - 1], s.canonical)
    ensures IsRun(states, actions) && states[0] == s
    ensures var ref := Reference(daemon, daemon, |s.procs[daemon].images|);
            states[|actions|] == s.(record := Some(record), pc := SendSignal(ref))
  {
    var images := s.procs[daemon].images;
    var ref, known := Reference(daemon, daemon, |images|), s.(record := Some(record), pc := OpenPidfd);
    OpenSteps(s, record, daemon);
    StatusSteps(known, record, daemon, ref);
    assert IsRun([s], []);
    hide Apply, Enabled, ImageMatches, Leads, Init, IsRun;
    var created, file := record.creationTime, images[|images| - 1].file;
    Extend([s], [], StepRead(Valid(record)), known);
    states, actions := [s, known], [StepRead(Valid(record))];
    assert [s] + [known] == states && [] + [StepRead(Valid(record))] == actions;
    states, actions := ExtendBy(states, actions, StepOpen(Some(daemon)), known.(pc := OpenProcDir(daemon, |images|)));
    states, actions := ExtendBy(states, actions, StepOpen(Some(daemon)), known.(pc := Poll(ref, Validate)));
    states, actions := ExtendBy(states, actions, StepStatus, known.(pc := ReadStat(ref, Validate)));
    states, actions := ExtendBy(states, actions, StepStatus, known.(pc := ReadExeFile(ref, Validate, created)));
    states, actions := ExtendBy(states, actions, StepStatus, known.(pc := ReadExeLink(ref, Validate, created, file)));
    states, actions := ExtendBy(states, actions, StepStatus, known.(pc := SendSignal(ref)));
  }

  lemma {:induction false} ExtendBy(soFar: seq<State>, taken: seq<Action>, a: Action, t: State)
    returns (states: seq<State>, actions: seq<Action>)
    requires IsRun(soFar, taken) && |soFar| == |taken| + 1 && Leads(soFar[|taken|], a, t)
    ensures IsRun(states, actions) && |states| == |actions| + 1
    ensures states[0] == soFar[0] && states[|actions|] == t
  {
    Extend(soFar, taken, a, t);
    states, actions := soFar + [t], taken + [a];
  }

  lemma StopSteps(s: State, daemon: nat, ref: Reference) returns (signalled: State, ended: State, done: State)
    requires s.pc == SendSignal(ref) && s.record.Some? && Runs(s, daemon) && s.procs[daemon].images != [] && s.signals == []
    requires ref.pidfd == ref.procDir == daemon
    ensures Leads(s, StepSignal(true), signalled) && Leads(signalled, Exit(daemon), ended) && Leads(ended, StepStatus, done)
    ensures done.pc.Done? && done.pc.outcome == Stopped && done.signals == [daemon]
  {
    signalled := Apply(s, StepSignal(true));
    ended := Apply(signalled, Exit(daemon));
    done := Apply(ended, StepStatus);
  }

  /** The safety results are not won by refusing to act: a live daemon that the
      record describes can be signalled and reported stopped. */
  lemma {:induction false} StopCanSucceed(s: State, record: IdentityRecord, daemon: nat) returns (states: seq<State>, actions: seq<Action>)
    requires Init(s) && Runs(s, daemon)
    requires record.formatVersion == FORMAT_VERSION && record.socket == s.socket
    requires record.pid == s.procs[daemon].pid && record.creationTime == s.procs[daemon].creationTime
    requires ImageMatches(record, s.procs[daemon].images[|s.procs[daemon].images| - 1], s.canonical)
    ensures IsRun(states, actions) && states[0] == s
    ensures states[|actions|].pc.Done? && states[|actions|].pc.outcome == Stopped
    ensures states[|actions|].signals == [daemon]
  {
    states, actions := SignalRun(s, record, daemon);
    var ref := Reference(daemon, daemon, |s.procs[daemon].images|);
    var signalled, ended, done := StopSteps(states[|actions|], daemon, ref);
    hide Apply, Enabled, ImageMatches, Leads;
    states, actions := ExtendBy(states, actions, StepSignal(true), signalled);
    states, actions := ExtendBy(states, actions, Exit(daemon), ended);
    states, actions := ExtendBy(states, actions, StepStatus, done);
  }

  lemma LeaderExitSteps(s: State, daemon: nat, ref: Reference)
    returns (signalled: State, left: State, polled: State, read: State, done: State)
    requires s.pc == SendSignal(ref) && s.record.Some? && Runs(s, daemon) && s.procs[daemon].images != [] && s.signals == []
    requires ref.pidfd == ref.procDir == daemon
    ensures Leads(s, StepSignal(true), signalled) && Leads(signalled, LeaderExit(daemon), left)
    ensures Leads(left, StepStatus, polled) && Leads(polled, StepStatus, read) && Leads(read, StepStatus, done)
    ensures done.pc.Done? && done.pc.outcome == Stopped && Alive(done, daemon)
  {
    signalled := Apply(s, StepSignal(true));
    left := Apply(signalled, LeaderExit(daemon));
    polled := Apply(left, StepStatus);
    read := Apply(polled, StepStatus);
    done := Apply(read, StepStatus);
  }

  /** `Stopped` can be reported while the daemon's other threads still run. */
  lemma {:induction false} StoppedCanBeEarly(s: State, record: IdentityRecord, daemon: nat) returns (states: seq<State>, actions: seq<Action>)
    requires Init(s) && Runs(s, daemon)
    requires record.formatVersion == FORMAT_VERSION && record.socket == s.socket
    requires record.pid == s.procs[daemon].pid && record.creationTime == s.procs[daemon].creationTime
    requires ImageMatches(record, s.procs[daemon].images[|s.procs[daemon].images| - 1], s.canonical)
    ensures IsRun(states, actions) && states[0] == s
    ensures states[|actions|].pc.Done? && states[|actions|].pc.outcome == Stopped && Alive(states[|actions|], daemon)
  {
    states, actions := SignalRun(s, record, daemon);
    var ref := Reference(daemon, daemon, |s.procs[daemon].images|);
    var signalled, left, polled, read, done := LeaderExitSteps(states[|actions|], daemon, ref);
    hide Apply, Enabled, ImageMatches, Leads, Alive;
    states, actions := ExtendBy(states, actions, StepSignal(true), signalled);
    states, actions := ExtendBy(states, actions, LeaderExit(daemon), left);
    states, actions := ExtendBy(states, actions, StepStatus, polled);
    states, actions := ExtendBy(states, actions, StepStatus, read);
    states, actions := ExtendBy(states, actions, StepStatus, done);
  }
}
