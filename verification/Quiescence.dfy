/** Quiescence of directory units: per-file debounce timers feed one timer per
    root. A timer that expires becomes a firing, a goroutine that still has to
    acquire the lock; every step below is one locked section or one expiry. */
module Quiescence {

  type Path = string

  /** A per-file timer; resetting it arms it again. */
  datatype FileTimer = FileTimer(path: Path, armed: bool)

  /** The goroutine of a file timer, or of a remove event: waiting for the lock, then
      on its way to schedule the root. */
  datatype FilePhase = FileWaiting | Deferred | FileDone
  datatype FileFiring = FileFiring(path: Path, phase: FilePhase)

  /** A per-root timer carries the generation it was created for. */
  datatype TimerState = Armed | Expired(firing: nat)
  datatype RootTimer = RootTimer(root: Path, gen: nat, state: TimerState)

  /** Waiting for the lock; committed to an event not sent yet; or over. */
  datatype RootPhase = Waiting | Committed | Over
  datatype RootFiring = RootFiring(root: Path, gen: nat, phase: RootPhase)

  datatype State = State(
    rootOf: map<Path, Path>,
    timers: map<Path, nat>, fileTimers: seq<FileTimer>, fileFirings: seq<FileFiring>,
    dirUnitTimers: map<Path, nat>, rootTimers: seq<RootTimer>, rootFirings: seq<RootFiring>,
    dirUnitGenerations: map<Path, nat>,
    events: seq<Path>,
    unhanded: set<Path>,   // members changed since they last scheduled their root
    uncovered: set<Path>)  // roots scheduled since their last committed event

  datatype Action =
    | Change(path: Path) | Remove(path: Path)
    | ExpireFile(i: nat) | FireFile(j: nat) | HandOff(j: nat)
    | ExpireRoot(i: nat) | FireRoot(j: nat) | Emit(j: nat)

  function Gen(s: State, root: Path): nat {
    if root in s.dirUnitGenerations then s.dirUnitGenerations[root] else 0
  }

  predicate Enabled(s: State, a: Action) {
    match a
    case Change(path) => path in s.rootOf
    case Remove(path) => path in s.rootOf
    case ExpireFile(i) => i < |s.fileTimers| && s.fileTimers[i].armed
    case FireFile(j) => j < |s.fileFirings| && s.fileFirings[j].phase == FileWaiting
    case HandOff(j) => j < |s.fileFirings| && s.fileFirings[j].phase == Deferred && s.fileFirings[j].path in s.rootOf
    case ExpireRoot(i) => i < |s.rootTimers| && s.rootTimers[i].state == Armed
    case FireRoot(j) => j < |s.rootFirings| && s.rootFirings[j].phase == Waiting
    case Emit(j) => j < |s.rootFirings| && s.rootFirings[j].phase == Committed
  }

  /** Restarts the root's timer: a timer that has not expired is reset; otherwise a
      new generation supersedes whatever is in flight. */
  function ScheduleRoot(s: State, root: Path): State {
    if CanReset(s, root)
    then s.(uncovered := s.uncovered + {root})
    else
      var gen := Gen(s, root) + 1;
      s.(dirUnitGenerations := s.dirUnitGenerations[root := gen],
         dirUnitTimers := s.dirUnitTimers[root := |s.rootTimers|],
         rootTimers := s.rootTimers + [RootTimer(root, gen, Armed)],
         uncovered := s.uncovered + {root})
  }

  function ScheduleFile(s: State, path: Path): State {
    if path in s.timers && s.timers[path] < |s.fileTimers|
    then s.(fileTimers := s.fileTimers[s.timers[path] := FileTimer(path, true)], unhanded := s.unhanded + {path})
    else
      s.(timers := s.timers[path := |s.fileTimers|],
         fileTimers := s.fileTimers + [FileTimer(path, true)],
         unhanded := s.unhanded + {path})
  }

  function RemoveFile(s: State, path: Path): State {
    var stopped :=
      if path in s.timers && s.timers[path] < |s.fileTimers|
      then s.fileTimers[s.timers[path] := FileTimer(path, false)] else s.fileTimers;
    s.(timers := s.timers - {path}, fileTimers := stopped,
       fileFirings := s.fileFirings + [FileFiring(path, Deferred)],
       unhanded := s.unhanded + {path})
  }

  function Step(s: State, a: Action): State
    requires Enabled(s, a)
  {
    match a
    case Change(path) => ScheduleFile(s, path)
    case Remove(path) => RemoveFile(s, path)
    case ExpireFile(i) =>
      var path := s.fileTimers[i].path;
      s.(fileTimers := s.fileTimers[i := FileTimer(path, false)],
         fileFirings := s.fileFirings + [FileFiring(path, FileWaiting)])
    case FireFile(j) =>
      var path := s.fileFirings[j].path;
      s.(timers := s.timers - {path}, fileFirings := s.fileFirings[j := FileFiring(path, Deferred)])
    case HandOff(j) =>
      var path := s.fileFirings[j].path;
      ScheduleRoot(s.(fileFirings := s.fileFirings[j := FileFiring(path, FileDone)], unhanded := s.unhanded - {path}),
                   s.rootOf[path])
    case ExpireRoot(i) =>
      var t := s.rootTimers[i];
      s.(rootTimers := s.rootTimers[i := t.(state := Expired(|s.rootFirings|))],
         rootFirings := s.rootFirings + [RootFiring(t.root, t.gen, Waiting)])
    case FireRoot(j) =>
      var f := s.rootFirings[j];
      if Gen(s, f.root) != f.gen then s.(rootFirings := s.rootFirings[j := f.(phase := Over)])
      else
        s.(dirUnitTimers := s.dirUnitTimers - {f.root},
           rootFirings := s.rootFirings[j := f.(phase := Committed)],
           uncovered := s.uncovered - {f.root})
    case Emit(j) =>
      var f := s.rootFirings[j];
      s.(rootFirings := s.rootFirings[j := f.(phase := Over)], events := s.events + [f.root])
  }

  // ---- The root layer ----

  /** An armed timer is the root's own, current, and has not fired. */
  ghost predicate TimerOk(s: State, i: nat)
    requires i < |s.rootTimers|
  {
    var t := s.rootTimers[i];
    && t.gen <= Gen(s, t.root)
    && (t.state == Armed ==> t.root in s.dirUnitTimers && s.dirUnitTimers[t.root] == i)
    && (t.state.Expired? ==>
          t.state.firing < |s.rootFirings|
          && s.rootFirings[t.state.firing].root == t.root && s.rootFirings[t.state.firing].gen == t.gen)
  }

  /** A firing knows its timer by root and generation. */
  ghost predicate FiringOk(s: State, j: nat)
    requires j < |s.rootFirings|
  {
    var f := s.rootFirings[j];
    && f.gen <= Gen(s, f.root)
    && (f.phase == Waiting && f.gen == Gen(s, f.root) ==>
          && f.root in s.dirUnitTimers && s.dirUnitTimers[f.root] < |s.rootTimers|
          && s.rootTimers[s.dirUnitTimers[f.root]].state == Expired(j))
  }

  /** A root with a timer has it armed, or waiting for the lock with the current generation. */
  ghost predicate RootOk(s: State, root: Path)
    requires root in s.dirUnitTimers
  {
    var i := s.dirUnitTimers[root];
    && i < |s.rootTimers| && s.rootTimers[i].root == root && s.rootTimers[i].gen == Gen(s, root)
    && (s.rootTimers[i].state.Expired? ==>
          && s.rootTimers[i].state.firing < |s.rootFirings|
          && s.rootFirings[s.rootTimers[i].state.firing] == RootFiring(root, Gen(s, root), Waiting))
  }

  ghost predicate RootsOk(s: State) {
    && s.uncovered == s.dirUnitTimers.Keys
    && (forall i :: 0 <= i < |s.rootTimers| ==> TimerOk(s, i))
    && (forall j :: 0 <= j < |s.rootFirings| ==> FiringOk(s, j))
    && (forall r :: r in s.dirUnitTimers ==> RootOk(s, r))
  }

  predicate CanReset(s: State, root: Path) {
    root in s.dirUnitTimers && s.dirUnitTimers[root] < |s.rootTimers| && s.rootTimers[s.dirUnitTimers[root]].state == Armed
  }

  lemma ScheduleKeepsRoots(s: State, root: Path)
    requires RootsOk(s)
    ensures RootsOk(ScheduleRoot(s, root))
  {
    if CanReset(s, root) {
      ResetKeepsRoots(s, root);
    } else {
      NewTimerKeepsRoots(s, root);
    }
  }

  lemma ResetKeepsRoots(s: State, root: Path)
    requires RootsOk(s) && CanReset(s, root)
    ensures RootsOk(ScheduleRoot(s, root))
  {
    var s' := ScheduleRoot(s, root);
    assert s'.uncovered == s.uncovered;
    SameRoots(s, s');
  }

  lemma NewTimerKeepsRoots(s: State, root: Path)
    requires RootsOk(s) && !CanReset(s, root)
    ensures RootsOk(ScheduleRoot(s, root))
  {
    hide TimerOk, FiringOk, RootOk;
    var s' := ScheduleRoot(s, root);
    forall i | 0 <= i < |s'.rootTimers|
      ensures TimerOk(s', i)
    {
      NewTimerKeepsTimer(s, root, i);
    }
    forall j | 0 <= j < |s'.rootFirings|
      ensures FiringOk(s', j)
    {
      NewTimerKeepsFiring(s, root, j);
    }
    forall r | r in s'.dirUnitTimers
      ensures RootOk(s', r)
    {
      NewTimerKeepsRoot(s, root, r);
    }
  }

  lemma NewTimerKeepsTimer(s: State, root: Path, i: nat)
    requires RootsOk(s) && !CanReset(s, root) && i <= |s.rootTimers|
    ensures TimerOk(ScheduleRoot(s, root), i)
  {
    hide FiringOk, RootOk;
    assert i < |s.rootTimers| ==> TimerOk(s, i);
  }

  lemma NewTimerKeepsFiring(s: State, root: Path, j: nat)
    requires RootsOk(s) && !CanReset(s, root) && j < |s.rootFirings|
    ensures FiringOk(ScheduleRoot(s, root), j)
  {
    hide TimerOk, RootOk;
    assert FiringOk(s, j);
  }

  lemma NewTimerKeepsRoot(s: State, root: Path, r: Path)
    requires RootsOk(s) && !CanReset(s, root) && r in ScheduleRoot(s, root).dirUnitTimers
    ensures RootOk(ScheduleRoot(s, root), r)
  {
    hide TimerOk, FiringOk;
    assert r != root ==> RootOk(s, r);
  }

  lemma ExpireKeepsRoots(s: State, i: nat)
    requires RootsOk(s) && Enabled(s, ExpireRoot(i))
    ensures RootsOk(Step(s, ExpireRoot(i)))
  {
    var s' := Step(s, ExpireRoot(i));
    assert TimerOk(s, i) && RootOk(s, s.rootTimers[i].root);
    forall k | 0 <= k < |s'.rootTimers|
      ensures TimerOk(s', k)
    {
      assert TimerOk(s, k);
    }
    forall j | 0 <= j < |s'.rootFirings|
      ensures FiringOk(s', j)
    {
      assert j < |s.rootFirings| ==> FiringOk(s, j);
    }
    forall r | r in s'.dirUnitTimers
      ensures RootOk(s', r)
    {
      assert RootOk(s, r);
    }
  }

  lemma FireKeepsRoots(s: State, j: nat)
    requires RootsOk(s) && Enabled(s, FireRoot(j))
    ensures RootsOk(Step(s, FireRoot(j)))
  {
    hide TimerOk, FiringOk, RootOk;
    var s' := Step(s, FireRoot(j));
    FiredUncovers(s, j);
    forall k | 0 <= k < |s'.rootTimers|
      ensures TimerOk(s', k)
    {
      FireKeepsTimer(s, j, k);
    }
    forall k | 0 <= k < |s'.rootFirings|
      ensures FiringOk(s', k)
    {
      FireKeepsFiring(s, j, k);
    }
    forall r | r in s'.dirUnitTimers
      ensures RootOk(s', r)
    {
      FireKeepsRoot(s, j, r);
    }
  }

  lemma FiredUncovers(s: State, j: nat)
    requires RootsOk(s) && Enabled(s, FireRoot(j))
    ensures Step(s, FireRoot(j)).uncovered == Step(s, FireRoot(j)).dirUnitTimers.Keys
  {
    hide TimerOk, FiringOk, RootOk;
  }

  lemma FireKeepsTimer(s: State, j: nat, k: nat)
    requires RootsOk(s) && Enabled(s, FireRoot(j)) && k < |s.rootTimers|
    ensures TimerOk(Step(s, FireRoot(j)), k)
  {
    hide RootOk;
    assert FiringOk(s, j) && TimerOk(s, k);
  }

  lemma FireKeepsFiring(s: State, j: nat, k: nat)
    requires RootsOk(s) && Enabled(s, FireRoot(j)) && k < |s.rootFirings|
    ensures FiringOk(Step(s, FireRoot(j)), k)
  {
    hide RootOk, TimerOk;
    assert FiringOk(s, j) && FiringOk(s, k);
  }

  lemma FireKeepsRoot(s: State, j: nat, r: Path)
    requires RootsOk(s) && Enabled(s, FireRoot(j)) && r in Step(s, FireRoot(j)).dirUnitTimers
    ensures RootOk(Step(s, FireRoot(j)), r)
  {
    hide TimerOk;
    assert FiringOk(s, j) && RootOk(s, r);
  }

  lemma EmitKeepsRoots(s: State, j: nat)
    requires RootsOk(s) && Enabled(s, Emit(j))
    ensures RootsOk(Step(s, Emit(j)))
  {
    var s' := Step(s, Emit(j));
    forall k | 0 <= k < |s'.rootTimers|
      ensures TimerOk(s', k)
    {
      assert TimerOk(s, k);
    }
    forall k | 0 <= k < |s'.rootFirings|
      ensures FiringOk(s', k)
    {
      assert FiringOk(s, k);
    }
    forall r | r in s'.dirUnitTimers
      ensures RootOk(s', r)
    {
      assert RootOk(s, r);
    }
  }

  // ---- The file layer ----

  predicate ArmedFor(s: State, i: nat, path: Path) {
    i < |s.fileTimers| && s.fileTimers[i] == FileTimer(path, true)
  }

  predicate OnItsWay(s: State, j: nat, path: Path) {
    j < |s.fileFirings| && s.fileFirings[j].path == path && s.fileFirings[j].phase != FileDone
  }

  /** Some timer or goroutine will still schedule the root on the member's behalf. */
  ghost predicate Carried(s: State, path: Path) {
    (exists i: nat :: ArmedFor(s, i, path)) || (exists j: nat :: OnItsWay(s, j, path))
  }

  ghost predicate FilesOk(s: State) {
    && MembersOk(s)
    && (forall p :: p in s.unhanded ==> Carried(s, p))
  }

  /** Timers are filed under their own path, and all paths are members. */
  ghost predicate MembersOk(s: State) {
    TimersFiled(s) && TimersMembers(s) && FiringsMembers(s)
  }

  ghost predicate TimersFiled(s: State) {
    forall p :: p in s.timers ==> s.timers[p] < |s.fileTimers| && s.fileTimers[s.timers[p]].path == p
  }

  ghost predicate TimersMembers(s: State) {
    forall i :: 0 <= i < |s.fileTimers| ==> s.fileTimers[i].path in s.rootOf
  }

  ghost predicate FiringsMembers(s: State) {
    forall j :: 0 <= j < |s.fileFirings| ==> s.fileFirings[j].path in s.rootOf
  }

  lemma StepKeepsMembers(s: State, a: Action)
    requires MembersOk(s) && Enabled(s, a)
    ensures MembersOk(Step(s, a))
  {
    hide TimersFiled, TimersMembers, FiringsMembers, Step;
    if a.HandOff? {
      HandOffKeepsMembers(s, a.j);
    } else {
      StepKeepsTimersFiled(s, a);
      StepKeepsTimersMembers(s, a);
      StepKeepsFiringsMembers(s, a);
    }
  }

  lemma StepKeepsTimersFiled(s: State, a: Action)
    requires TimersFiled(s) && Enabled(s, a) && !a.HandOff?
    ensures TimersFiled(Step(s, a))
  {
    hide ScheduleRoot;
  }

  lemma StepKeepsTimersMembers(s: State, a: Action)
    requires TimersMembers(s) && Enabled(s, a) && !a.HandOff?
    ensures TimersMembers(Step(s, a))
  {
    hide ScheduleRoot;
  }

  lemma StepKeepsFiringsMembers(s: State, a: Action)
    requires TimersMembers(s) && FiringsMembers(s) && Enabled(s, a) && !a.HandOff?
    ensures FiringsMembers(Step(s, a))
  {
    hide ScheduleRoot;
  }

  lemma HandOffKeepsMembers(s: State, j: nat)
    requires MembersOk(s) && Enabled(s, HandOff(j))
    ensures MembersOk(Step(s, HandOff(j)))
  {
    hide ScheduleRoot;
    var path := s.fileFirings[j].path;
    ScheduleIsLocal(s.(fileFirings := s.fileFirings[j := FileFiring(path, FileDone)], unhanded := s.unhanded - {path}),
                    s.rootOf[path]);
  }

  lemma StepKeepsFiles(s: State, a: Action)
    requires FilesOk(s) && Enabled(s, a)
    ensures FilesOk(Step(s, a))
  {
    StepKeepsMembers(s, a);
    hide Carried, ScheduleRoot, MembersOk, Step;
    var s' := Step(s, a);
    forall p | p in s'.unhanded
      ensures Carried(s', p)
    {
      StillCarried(s, a, p);
    }
  }

  lemma ScheduleIsLocal(s: State, root: Path)
    ensures
      var s' := ScheduleRoot(s, root);
      && s'.rootOf == s.rootOf && s'.timers == s.timers && s'.fileTimers == s.fileTimers
      && s'.fileFirings == s.fileFirings && s'.unhanded == s.unhanded
  {
  }

  lemma StillCarried(s: State, a: Action, p: Path)
    requires FilesOk(s) && Enabled(s, a) && p in Step(s, a).unhanded
    ensures Carried(Step(s, a), p)
  {
    hide Carried, ScheduleRoot, MembersOk;
    var s' := Step(s, a);
    match a
    case Change(path) => ChangeCarries(s, path, p);
    case Remove(path) => RemoveCarries(s, path, p);
    case ExpireFile(i) =>
      if p == s.fileTimers[i].path {
        CarriedByFiring(s', |s.fileFirings|, p);
      } else {
        CarriedOn(s, s', p);
      }
    case FireFile(j) =>
      if p == s.fileFirings[j].path {
        CarriedByFiring(s', j, p);
      } else {
        CarriedOn(s, s', p);
      }
    case HandOff(j) =>
      var path := s.fileFirings[j].path;
      ScheduleIsLocal(s.(fileFirings := s.fileFirings[j := FileFiring(path, FileDone)], unhanded := s.unhanded - {path}),
                      s.rootOf[path]);
      CarriedOn(s, s', p);
    case _ => CarriedOn(s, s', p);
  }

  lemma ChangeCarries(s: State, path: Path, p: Path)
    requires FilesOk(s) && path in s.rootOf && p in ScheduleFile(s, path).unhanded
    ensures Carried(ScheduleFile(s, path), p)
  {
    hide Carried;
    var s' := ScheduleFile(s, path);
    if p == path {
      CarriedByTimer(s', if p in s.timers then s.timers[p] else |s.fileTimers|, p);
    } else {
      CarriedOn(s, s', p);
    }
  }

  lemma RemoveCarries(s: State, path: Path, p: Path)
    requires FilesOk(s) && path in s.rootOf && p in RemoveFile(s, path).unhanded
    ensures Carried(RemoveFile(s, path), p)
  {
    hide Carried;
    var s' := RemoveFile(s, path);
    if p == path {
      CarriedByFiring(s', |s.fileFirings|, p);
    } else {
      CarriedOn(s, s', p);
    }
  }

  lemma CarriedByTimer(s: State, i: nat, p: Path)
    requires ArmedFor(s, i, p)
    ensures Carried(s, p)
  {
  }

  lemma CarriedByFiring(s: State, j: nat, p: Path)
    requires OnItsWay(s, j, p)
    ensures Carried(s, p)
  {
  }

  lemma CarriedOn(s: State, s': State, p: Path)
    requires Carried(s, p)
    requires forall i: nat :: ArmedFor(s, i, p) ==> ArmedFor(s', i, p)
    requires forall j: nat :: OnItsWay(s, j, p) ==> OnItsWay(s', j, p)
    ensures Carried(s', p)
  {
    if i: nat :| ArmedFor(s, i, p) {
      assert ArmedFor(s', i, p);
    } else {
      var j: nat :| OnItsWay(s, j, p);
      assert OnItsWay(s', j, p);
    }
  }

  // ---- Both layers ----

  ghost predicate Ok(s: State) {
    RootsOk(s) && FilesOk(s)
  }

  lemma StepKeepsOk(s: State, a: Action)
    requires Ok(s) && Enabled(s, a)
    ensures Ok(Step(s, a))
  {
    StepKeepsFiles(s, a);
    hide FilesOk, ScheduleRoot;
    match a
    case HandOff(j) =>
      var path := s.fileFirings[j].path;
      var s1 := s.(fileFirings := s.fileFirings[j := FileFiring(path, FileDone)], unhanded := s.unhanded - {path});
      SameRoots(s, s1);
      ScheduleKeepsRoots(s1, s.rootOf[path]);
    case ExpireRoot(i) => ExpireKeepsRoots(s, i);
    case FireRoot(j) => FireKeepsRoots(s, j);
    case Emit(j) => EmitKeepsRoots(s, j);
    case _ => SameRoots(s, Step(s, a));
  }

  lemma SameRoots(s: State, s': State)
    requires RootsOk(s)
    requires s'.dirUnitTimers == s.dirUnitTimers && s'.rootTimers == s.rootTimers && s'.rootFirings == s.rootFirings
    requires s'.dirUnitGenerations == s.dirUnitGenerations && s'.uncovered == s.uncovered
    ensures RootsOk(s')
  {
    forall i | 0 <= i < |s'.rootTimers|
      ensures TimerOk(s', i)
    {
      assert TimerOk(s, i);
    }
    forall j | 0 <= j < |s'.rootFirings|
      ensures FiringOk(s', j)
    {
      assert FiringOk(s, j);
    }
    forall r | r in s'.dirUnitTimers
      ensures RootOk(s', r)
    {
      assert RootOk(s, r);
    }
  }

  ghost predicate Runs(s: State, actions: seq<Action>, to: State)
    decreases |actions|
  {
    if actions == [] then s == to
    else Enabled(s, actions[0]) && Runs(Step(s, actions[0]), actions[1..], to)
  }

  lemma {:induction false} RunKeepsOk(s: State, actions: seq<Action>, to: State)
    requires Ok(s) && Runs(s, actions, to)
    ensures Ok(to)
    decreases |actions|
  {
    hide Ok, Step, Enabled;
    if actions != [] {
      StepKeepsOk(s, actions[0]);
      RunKeepsOk(Step(s, actions[0]), actions[1..], to);
    }
  }

  function Initial(rootOf: map<Path, Path>): State {
    State(rootOf, map[], [], [], map[], [], [], map[], [], {}, {})
  }

  // ---- What the design promises ----

  /** An armed timer, or a firing still waiting for the lock, of the current generation. */
  ghost predicate LiveTimer(s: State, root: Path, i: nat) {
    i < |s.rootTimers| && s.rootTimers[i] == RootTimer(root, Gen(s, root), Armed)
  }

  ghost predicate LiveFiring(s: State, root: Path, j: nat) {
    j < |s.rootFirings| && s.rootFirings[j] == RootFiring(root, Gen(s, root), Waiting)
  }

  /** At most one armed or in-flight timer carries a root's current generation. */
  lemma AtMostOneLive(rootOf: map<Path, Path>, actions: seq<Action>, s: State, root: Path, i: nat, j: nat)
    requires Runs(Initial(rootOf), actions, s)
    ensures LiveTimer(s, root, i) && LiveTimer(s, root, j) ==> i == j
    ensures LiveFiring(s, root, i) && LiveFiring(s, root, j) ==> i == j
    ensures !(LiveTimer(s, root, i) && LiveFiring(s, root, j))
  {
    hide Runs;
    RunKeepsOk(Initial(rootOf), actions, s);
    if i < |s.rootTimers| { assert TimerOk(s, i); }
    if j < |s.rootTimers| { assert TimerOk(s, j); }
    if i < |s.rootFirings| { assert FiringOk(s, i); }
    if j < |s.rootFirings| { assert FiringOk(s, j); }
  }

  /** A change that no committed event covers yet is still pending: with a timer or
      goroutine of its file, or with the root's one live timer. */
  lemma PendingIsLive(s: State, path: Path)
    requires Ok(s) && path in s.rootOf
    ensures path in s.unhanded ==> Carried(s, path)
    ensures s.rootOf[path] in s.uncovered ==>
      (exists i: nat :: LiveTimer(s, s.rootOf[path], i)) || (exists j: nat :: LiveFiring(s, s.rootOf[path], j))
  {
    var root := s.rootOf[path];
    if root in s.uncovered {
      assert RootOk(s, root);
      var t := s.rootTimers[s.dirUnitTimers[root]];
      if t.state == Armed {
        assert LiveTimer(s, root, s.dirUnitTimers[root]);
      } else {
        assert LiveFiring(s, root, t.state.firing);
      }
    }
  }

  predicate Owed(s: State, path: Path) {
    path in s.unhanded || (path in s.rootOf && s.rootOf[path] in s.uncovered)
  }

  /** No change is lost: it stays owed until its root commits to an event, and a
      commit only ever happens for a root that was scheduled since the last one. */
  lemma OwedUntilCommitted(s: State, a: Action, path: Path)
    requires Ok(s) && Enabled(s, a)
    ensures a == Change(path) || a == Remove(path) ==> Owed(Step(s, a), path)
    ensures Owed(s, path) && !Owed(Step(s, a), path) ==>
      && a.FireRoot? && path in s.rootOf && s.rootFirings[a.j].root == s.rootOf[path]
      && Step(s, a).rootFirings[a.j].phase == Committed
    ensures a.FireRoot? && Step(s, a).rootFirings[a.j].phase == Committed ==> s.rootFirings[a.j].root in s.uncovered
  {
    if a.FireRoot? { assert FiringOk(s, a.j); }
    if a.HandOff? && path in s.rootOf { assert path != s.fileFirings[a.j].path || s.rootOf[path] in Step(s, a).uncovered; }
    assert path in s.unhanded ==> Carried(s, path);
    CarriedIsMember(s, path);
  }

  lemma CarriedIsMember(s: State, path: Path)
    requires FilesOk(s)
    ensures path in s.unhanded ==> path in s.rootOf
  {
    if path in s.unhanded {
      if i: nat :| ArmedFor(s, i, path) {
        assert s.fileTimers[i].path in s.rootOf;
      } else {
        var j: nat :| OnItsWay(s, j, path);
        assert s.fileFirings[j].path in s.rootOf;
      }
    }
  }

  /** A removed file's timer is stopped where it stands; the other timers run on. */
  lemma RemoveStopsTimer(s: State, path: Path)
    requires Ok(s) && Enabled(s, Remove(path)) && path in s.timers
    ensures
      var s' := Step(s, Remove(path));
      && Stopped(s', s.timers[path], path) && path !in s'.timers
      && |s'.fileTimers| == |s.fileTimers|
      && (forall i: nat :: i < |s.fileTimers| && i != s.timers[path] ==> s'.fileTimers[i] == s.fileTimers[i])
  {
    hide RootsOk;
  }

  ghost predicate Stopped(s: State, i: nat, path: Path) {
    i < |s.fileTimers| && s.fileTimers[i] == FileTimer(path, false)
  }

  lemma StoppedStays(s: State, a: Action, i: nat, path: Path)
    requires MembersOk(s) && Stopped(s, i, path) && Enabled(s, a) && a != Change(path)
    ensures Stopped(Step(s, a), i, path) && a != ExpireFile(i)
  {
    hide TimersMembers, FiringsMembers;
  }

  /** Until the file changes again that timer never expires, however the run goes on. */
  lemma {:induction false} StoppedNeverExpires(s: State, actions: seq<Action>, to: State, i: nat, path: Path)
    requires MembersOk(s) && Stopped(s, i, path) && Runs(s, actions, to) && Change(path) !in actions
    ensures ExpireFile(i) !in actions && Stopped(to, i, path)
    decreases |actions|
  {
    hide Step, Enabled, MembersOk;
    if actions != [] {
      StoppedStays(s, actions[0], i, path);
      StepKeepsMembers(s, actions[0]);
      assert Change(path) !in actions[1..];
      StoppedNeverExpires(Step(s, actions[0]), actions[1..], to, i, path);
      assert actions == [actions[0]] + actions[1..];
    }
  }

  /** Superseded while it waited for the lock, or already over. */
  ghost predicate Stale(s: State, j: nat) {
    && j < |s.rootFirings|
    && (s.rootFirings[j].phase == Over
        || (s.rootFirings[j].phase == Waiting && s.rootFirings[j].gen < Gen(s, s.rootFirings[j].root)))
  }

  lemma StaleStays(s: State, a: Action, j: nat)
    requires Stale(s, j) && Enabled(s, a)
    ensures Stale(Step(s, a), j) && a != Emit(j)
  {
  }

  /** A firing that a reschedule has superseded never emits: whatever interleaving
      follows, it sends no event and is not about to send one. */
  lemma {:induction false} SupersededNeverEmits(s: State, actions: seq<Action>, to: State, j: nat)
    requires Stale(s, j) && Runs(s, actions, to)
    ensures Emit(j) !in actions
    ensures j < |to.rootFirings| && to.rootFirings[j].phase != Committed
    decreases |actions|
  {
    hide Step, Enabled;
    if actions != [] {
      StaleStays(s, actions[0], j);
      SupersededNeverEmits(Step(s, actions[0]), actions[1..], to, j);
      assert actions == [actions[0]] + actions[1..];
    }
  }

  /** Rescheduling a root while its firing waits for the lock is what supersedes it. */
  lemma RescheduleSupersedes(s: State, j: nat, k: nat)
    requires Ok(s) && Enabled(s, HandOff(k)) && Enabled(s, FireRoot(j))
    requires s.rootFirings[j].root == s.rootOf[s.fileFirings[k].path]
    ensures Stale(Step(s, HandOff(k)), j)
  {
    assert FiringOk(s, j);
  }

  // ---- One event for many changes ----

  predicate CommittedTo(f: RootFiring, root: Path) {
    f.root == root && f.phase == Committed
  }

  /** The firings that have committed to an event for the root and not sent it yet. */
  function Commits(fs: seq<RootFiring>, root: Path): nat {
    if fs == [] then 0
    else Commits(fs[..|fs| - 1], root) + (if CommittedTo(fs[|fs| - 1], root) then 1 else 0)
  }

  /** Events sent, events about to be, and the one that is due. */
  function Spent(s: State, root: Path): nat {
    multiset(s.events)[root] + Commits(s.rootFirings, root) + (if root in s.uncovered then 1 else 0)
  }

  lemma {:induction false} CommitsUpdate(fs: seq<RootFiring>, j: nat, f: RootFiring, root: Path)
    requires j < |fs|
    ensures Commits(fs[j := f], root) + (if CommittedTo(fs[j], root) then 1 else 0)
         == Commits(fs, root) + (if CommittedTo(f, root) then 1 else 0)
    decreases |fs|
  {
    var init := fs[..|fs| - 1];
    if j < |init| {
      CommitsUpdate(init, j, f, root);
      assert fs[j := f][..|fs| - 1] == init[j := f];
    } else {
      assert fs[j := f][..|fs| - 1] == init;
    }
  }

  /** The action schedules the root while nothing is due for it. */
  predicate OpensWindow(s: State, a: Action, root: Path) {
    a.HandOff? && Enabled(s, a) && s.rootOf[s.fileFirings[a.j].path] == root && root !in s.uncovered
  }

  lemma StepSpends(s: State, a: Action, root: Path)
    requires Ok(s) && Enabled(s, a)
    ensures Spent(Step(s, a), root) == Spent(s, root) + (if OpensWindow(s, a, root) then 1 else 0)
  {
    hide Ok, Commits;
    match a
    case ExpireRoot(i) =>
      var t := s.rootTimers[i];
      OneMoreFiring(s.rootFirings, RootFiring(t.root, t.gen, Waiting), root);
    case FireRoot(j) => FireSpendsNothing(s, j, root);
    case Emit(j) => EmitSpendsNothing(s, j, root);
    case _ =>
  }

  lemma FireSpendsNothing(s: State, j: nat, root: Path)
    requires Ok(s) && Enabled(s, FireRoot(j))
    ensures Spent(Step(s, FireRoot(j)), root) == Spent(s, root)
  {
    hide FilesOk, Commits, TimerOk, RootOk;
    assert FiringOk(s, j);
    CommitsUpdate(s.rootFirings, j, Step(s, FireRoot(j)).rootFirings[j], root);
  }

  lemma EmitSpendsNothing(s: State, j: nat, root: Path)
    requires Enabled(s, Emit(j))
    ensures Spent(Step(s, Emit(j)), root) == Spent(s, root)
  {
    hide Commits;
    CommitsUpdate(s.rootFirings, j, s.rootFirings[j].(phase := Over), root);
  }

  lemma OneMoreFiring(fs: seq<RootFiring>, f: RootFiring, root: Path)
    ensures Commits(fs + [f], root) == Commits(fs, root) + (if CommittedTo(f, root) then 1 else 0)
  {
    assert (fs + [f])[..|fs|] == fs;
  }

  /** How many quiescence windows a run opens for the root: schedules that find
      nothing due. Schedules inside an open window do not count. */
  ghost function Windows(s: State, actions: seq<Action>, root: Path): nat
    decreases |actions|
  {
    if actions == [] || !Enabled(s, actions[0]) then 0
    else (if OpensWindow(s, actions[0], root) then 1 else 0) + Windows(Step(s, actions[0]), actions[1..], root)
  }

  /** Coalescing is exact: over every run, each window opened for a root accounts for
      one event, be it sent, about to be sent, or still due; no reschedule and no
      superseded firing adds or loses one. */
  lemma {:induction false} OneEventPerWindow(s: State, actions: seq<Action>, to: State, root: Path)
    requires Ok(s) && Runs(s, actions, to)
    ensures Spent(to, root) == Spent(s, root) + Windows(s, actions, root)
    decreases |actions|
  {
    hide Ok, Step, Enabled, Spent, OpensWindow;
    if actions != [] {
      StepSpends(s, actions[0], root);
      StepKeepsOk(s, actions[0]);
      OneEventPerWindow(Step(s, actions[0]), actions[1..], to, root);
    }
  }

  // ---- Progress ----

  predicate Undisturbed(actions: seq<Action>) {
    forall a :: a in actions ==> !a.Change? && !a.Remove?
  }

  lemma {:induction false} RunsOn(s: State, first: seq<Action>, mid: State, second: seq<Action>, to: State)
    requires Runs(s, first, mid) && Runs(mid, second, to)
    ensures Runs(s, first + second, to)
    decreases |first|
  {
    hide Step, Enabled;
    if first == [] {
      assert first + second == second;
    } else {
      RunsOn(Step(s, first[0]), first[1..], mid, second, to);
      assert (first + second)[1..] == first[1..] + second;
    }
  }

  lemma RunsOne(s: State, a: Action)
    requires Enabled(s, a)
    ensures Runs(s, [a], Step(s, a))
  {
    assert Runs(Step(s, a), [a][1..], Step(s, a));
  }

  /** Left alone, an uncovered root emits its event. */
  lemma RootDrains(s: State, root: Path) returns (actions: seq<Action>, to: State)
    requires Ok(s) && root in s.uncovered
    ensures Runs(s, actions, to) && Undisturbed(actions)
    ensures to.events == s.events + [root] && to.uncovered == s.uncovered - {root}
    ensures to.unhanded == s.unhanded && to.rootOf == s.rootOf
  {
    hide Runs, Ok;
    var s1 := s;
    var j: nat;
    actions := [];
    j := WaitingOrArmed(s, root);
    if j == |s.rootFirings| {
      var i := s.dirUnitTimers[root];
      ArmedAt(s, root);
      s1 := Step(s, ExpireRoot(i));
      RunsOne(s, ExpireRoot(i));
      actions := [ExpireRoot(i)];
    } else {
      RunsNone(s);
    }
    var s2 := Step(s1, FireRoot(j));
    RunsOne(s1, FireRoot(j));
    RunsOn(s, actions, s1, [FireRoot(j)], s2);
    actions := actions + [FireRoot(j)];
    to := Step(s2, Emit(j));
    RunsOne(s2, Emit(j));
    RunsOn(s, actions, s2, [Emit(j)], to);
    actions := actions + [Emit(j)];
  }

  lemma RunsNone(s: State)
    ensures Runs(s, [], s)
  {
  }

  /** The firing that waits for the lock, or the next one if the timer is armed. */
  lemma WaitingOrArmed(s: State, root: Path) returns (j: nat)
    requires Ok(s) && root in s.uncovered
    ensures root in s.dirUnitTimers && j <= |s.rootFirings|
    ensures j < |s.rootFirings| ==> s.rootFirings[j] == RootFiring(root, Gen(s, root), Waiting)
    ensures j == |s.rootFirings| ==>
      s.dirUnitTimers[root] < |s.rootTimers| && s.rootTimers[s.dirUnitTimers[root]] == RootTimer(root, Gen(s, root), Armed)
  {
    assert RootOk(s, root);
    var t := s.rootTimers[s.dirUnitTimers[root]];
    j := if t.state == Armed then |s.rootFirings| else t.state.firing;
  }

  lemma ArmedAt(s: State, root: Path)
    requires root in s.dirUnitTimers && s.dirUnitTimers[root] < |s.rootTimers|
    requires s.rootTimers[s.dirUnitTimers[root]] == RootTimer(root, Gen(s, root), Armed)
    ensures
      var a := ExpireRoot(s.dirUnitTimers[root]);
      && Enabled(s, a)
      && |Step(s, a).rootFirings| == |s.rootFirings| + 1
      && Step(s, a).rootFirings[|s.rootFirings|] == RootFiring(root, Gen(s, root), Waiting)
  {
  }

  /** Left alone, every changed member ends in an event for its root. */
  lemma ChangeDrains(s: State, path: Path) returns (actions: seq<Action>, to: State)
    requires Ok(s) && path in s.unhanded
    ensures path in s.rootOf
    ensures Runs(s, actions, to) && Undisturbed(actions)
    ensures to.events == s.events + [s.rootOf[path]] && !Owed(to, path)
  {
    hide Runs, ScheduleRoot;
    CarriedIsMember(s, path);
    var s1, s2, j := s, s, 0;
    actions := [];
    RunsNone(s);
    assert Carried(s, path);
    if k: nat :| OnItsWay(s, k, path) {
      j := k;
    } else {
      var i: nat :| ArmedFor(s, i, path);
      j := |s.fileFirings|;
      StepKeepsOk(s, ExpireFile(i));
      RunsOne(s, ExpireFile(i));
      s1, actions := Step(s, ExpireFile(i)), [ExpireFile(i)];
    }
    s2 := s1;
    if s1.fileFirings[j].phase == FileWaiting {
      StepKeepsOk(s1, FireFile(j));
      RunsOne(s1, FireFile(j));
      s2 := Step(s1, FireFile(j));
      RunsOn(s, actions, s1, [FireFile(j)], s2);
      actions := actions + [FireFile(j)];
    }
    var rest;
    rest, to := HandedOffDrains(s2, path, j);
    RunsOn(s, actions, s2, rest, to);
    actions := actions + rest;
  }

  lemma HandedOffDrains(s: State, path: Path, j: nat) returns (actions: seq<Action>, to: State)
    requires Ok(s) && j < |s.fileFirings| && s.fileFirings[j] == FileFiring(path, Deferred) && path in s.rootOf
    ensures Runs(s, actions, to) && Undisturbed(actions)
    ensures to.events == s.events + [s.rootOf[path]] && !Owed(to, path)
  {
    hide Runs, Ok;
    StepKeepsOk(s, HandOff(j));
    RunsOne(s, HandOff(j));
    var s1 := Step(s, HandOff(j));
    var rest;
    rest, to := RootDrains(s1, s.rootOf[path]);
    RunsOn(s, [HandOff(j)], s1, rest, to);
    actions := [HandOff(j)] + rest;
  }

  // ---- Every undisturbed run ----

  function FileTimerWork(ts: seq<FileTimer>): nat {
    if ts == [] then 0 else FileTimerWork(ts[..|ts| - 1]) + (if ts[|ts| - 1].armed then 6 else 0)
  }

  function FileFiringWork(fs: seq<FileFiring>): nat {
    if fs == [] then 0
    else
      FileFiringWork(fs[..|fs| - 1])
      + (match fs[|fs| - 1].phase case FileWaiting => 5 case Deferred => 4 case FileDone => 0)
  }

  function RootTimerWork(ts: seq<RootTimer>): nat {
    if ts == [] then 0 else RootTimerWork(ts[..|ts| - 1]) + (if ts[|ts| - 1].state == Armed then 3 else 0)
  }

  function RootFiringWork(fs: seq<RootFiring>): nat {
    if fs == [] then 0
    else
      RootFiringWork(fs[..|fs| - 1])
      + (match fs[|fs| - 1].phase case Waiting => 2 case Committed => 1 case Over => 0)
  }

  /** The most steps the timers and goroutines there are can still take. */
  function Work(s: State): nat {
    FileTimerWork(s.fileTimers) + FileFiringWork(s.fileFirings) + RootTimerWork(s.rootTimers) + RootFiringWork(s.rootFirings)
  }

  lemma {:induction false} FileTimerUpdate(ts: seq<FileTimer>, i: nat, t: FileTimer)
    requires i < |ts|
    ensures FileTimerWork(ts[i := t]) + (if ts[i].armed then 6 else 0) == FileTimerWork(ts) + (if t.armed then 6 else 0)
    decreases |ts|
  {
    var init := ts[..|ts| - 1];
    if i < |init| {
      FileTimerUpdate(init, i, t);
      assert ts[i := t][..|ts| - 1] == init[i := t];
    } else {
      assert ts[i := t][..|ts| - 1] == init;
    }
  }

  function FilePhaseWork(p: FilePhase): nat {
    match p case FileWaiting => 5 case Deferred => 4 case FileDone => 0
  }

  lemma {:induction false} FileFiringUpdate(fs: seq<FileFiring>, j: nat, f: FileFiring)
    requires j < |fs|
    ensures FileFiringWork(fs[j := f]) + FilePhaseWork(fs[j].phase) == FileFiringWork(fs) + FilePhaseWork(f.phase)
    decreases |fs|
  {
    var init := fs[..|fs| - 1];
    if j < |init| {
      FileFiringUpdate(init, j, f);
      assert fs[j := f][..|fs| - 1] == init[j := f];
    } else {
      assert fs[j := f][..|fs| - 1] == init;
    }
  }

  lemma {:induction false} RootTimerUpdate(ts: seq<RootTimer>, i: nat, t: RootTimer)
    requires i < |ts|
    ensures RootTimerWork(ts[i := t]) + (if ts[i].state == Armed then 3 else 0)
         == RootTimerWork(ts) + (if t.state == Armed then 3 else 0)
    decreases |ts|
  {
    var init := ts[..|ts| - 1];
    if i < |init| {
      RootTimerUpdate(init, i, t);
      assert ts[i := t][..|ts| - 1] == init[i := t];
    } else {
      assert ts[i := t][..|ts| - 1] == init;
    }
  }

  function RootPhaseWork(p: RootPhase): nat {
    match p case Waiting => 2 case Committed => 1 case Over => 0
  }

  lemma {:induction false} RootFiringUpdate(fs: seq<RootFiring>, j: nat, f: RootFiring)
    requires j < |fs|
    ensures RootFiringWork(fs[j := f]) + RootPhaseWork(fs[j].phase) == RootFiringWork(fs) + RootPhaseWork(f.phase)
    decreases |fs|
  {
    var init := fs[..|fs| - 1];
    if j < |init| {
      RootFiringUpdate(init, j, f);
      assert fs[j := f][..|fs| - 1] == init[j := f];
    } else {
      assert fs[j := f][..|fs| - 1] == init;
    }
  }

  lemma WorkAppends(s: State, f: FileFiring, t: RootTimer, g: RootFiring)
    ensures FileFiringWork(s.fileFirings + [f]) == FileFiringWork(s.fileFirings) + FilePhaseWork(f.phase)
    ensures RootTimerWork(s.rootTimers + [t]) == RootTimerWork(s.rootTimers) + (if t.state == Armed then 3 else 0)
    ensures RootFiringWork(s.rootFirings + [g]) == RootFiringWork(s.rootFirings) + RootPhaseWork(g.phase)
  {
    assert (s.fileFirings + [f])[..|s.fileFirings|] == s.fileFirings;
    assert (s.rootTimers + [t])[..|s.rootTimers|] == s.rootTimers;
    assert (s.rootFirings + [g])[..|s.rootFirings|] == s.rootFirings;
  }

  lemma StepWorks(s: State, a: Action)
    requires Enabled(s, a) && !a.Change? && !a.Remove?
    ensures Work(Step(s, a)) < Work(s)
  {
    hide FileTimerWork, FileFiringWork, RootTimerWork, RootFiringWork;
    match a
    case ExpireFile(i) =>
      var path := s.fileTimers[i].path;
      FileTimerUpdate(s.fileTimers, i, FileTimer(path, false));
      WorkAppends(s, FileFiring(path, FileWaiting), RootTimer(path, 0, Armed), RootFiring(path, 0, Waiting));
    case FireFile(j) => FileFiringUpdate(s.fileFirings, j, FileFiring(s.fileFirings[j].path, Deferred));
    case HandOff(j) => HandOffWorks(s, j);
    case ExpireRoot(i) =>
      var t := s.rootTimers[i];
      RootTimerUpdate(s.rootTimers, i, t.(state := Expired(|s.rootFirings|)));
      WorkAppends(s, FileFiring(t.root, FileWaiting), t, RootFiring(t.root, t.gen, Waiting));
    case FireRoot(j) => RootFiringUpdate(s.rootFirings, j, Step(s, a).rootFirings[j]);
    case Emit(j) => RootFiringUpdate(s.rootFirings, j, s.rootFirings[j].(phase := Over));
  }

  lemma HandOffWorks(s: State, j: nat)
    requires Enabled(s, HandOff(j))
    ensures Work(Step(s, HandOff(j))) < Work(s)
  {
    hide FileTimerWork, FileFiringWork, RootTimerWork, RootFiringWork;
    var path := s.fileFirings[j].path;
    var root := s.rootOf[path];
    FileFiringUpdate(s.fileFirings, j, FileFiring(path, FileDone));
    WorkAppends(s, FileFiring(path, FileDone), RootTimer(root, Gen(s, root) + 1, Armed), RootFiring(root, 0, Waiting));
  }

  /** No undisturbed run is longer than the work there is. */
  lemma {:induction false} UndisturbedRunsEnd(s: State, actions: seq<Action>, to: State)
    requires Runs(s, actions, to) && Undisturbed(actions)
    ensures |actions| + Work(to) <= Work(s)
    decreases |actions|
  {
    hide Step, Enabled, Work;
    if actions != [] {
      assert actions[0] in actions;
      StepWorks(s, actions[0]);
      UndisturbedRunsEnd(Step(s, actions[0]), actions[1..], to);
    }
  }

  /** Nothing is left to happen but further changes. */
  ghost predicate AtRest(s: State) {
    forall a: Action :: Enabled(s, a) ==> a.Change? || a.Remove?
  }

  /** At rest nothing is owed, and nothing is about to be sent. */
  lemma RestIsQuiet(s: State, root: Path)
    requires Ok(s) && AtRest(s)
    ensures s.unhanded == {} && s.uncovered == {}
    ensures Spent(s, root) == multiset(s.events)[root]
  {
    forall path | path in s.unhanded
      ensures false
    {
      CarriedIsMember(s, path);
      if i: nat :| ArmedFor(s, i, path) {
        assert Enabled(s, ExpireFile(i));
      } else {
        var j: nat :| OnItsWay(s, j, path);
        assert Enabled(s, if s.fileFirings[j].phase == Deferred then HandOff(j) else FireFile(j));
      }
    }
    forall r | r in s.uncovered
      ensures false
    {
      assert RootOk(s, r);
      var t := s.rootTimers[s.dirUnitTimers[r]];
      assert Enabled(s, if t.state == Armed then ExpireRoot(s.dirUnitTimers[r]) else FireRoot(t.state.firing));
    }
    forall j: nat | j < |s.rootFirings|
      ensures s.rootFirings[j].phase != Committed
    {
      assert !Enabled(s, Emit(j));
    }
    NoneCommitted(s.rootFirings, root);
  }

  lemma {:induction false} NoneCommitted(fs: seq<RootFiring>, root: Path)
    requires forall j: nat :: j < |fs| ==> fs[j].phase != Committed
    ensures Commits(fs, root) == 0
    decreases |fs|
  {
    if fs != [] { NoneCommitted(fs[..|fs| - 1], root); }
  }

  /** Owed to `path`, or one event beyond `base` is already accounted for. */
  ghost predicate Secured(s: State, path: Path, root: Path, base: nat) {
    && multiset(s.events)[root] >= base
    && (path in s.unhanded || Spent(s, root) > base)
  }

  lemma StepKeepsSecured(s: State, a: Action, path: Path, root: Path, base: nat)
    requires Ok(s) && Enabled(s, a) && Secured(s, path, root, base)
    requires path in s.rootOf && s.rootOf[path] == root
    ensures Secured(Step(s, a), path, root, base) && Step(s, a).rootOf == s.rootOf
  {
    hide Ok, Commits, Step, Enabled;
    StepSpends(s, a, root);
    EventsGrow(s, a, root);
    if path in s.unhanded && path !in Step(s, a).unhanded {
      HandedOffIsDue(s, a, path);
    }
  }

  lemma EventsGrow(s: State, a: Action, root: Path)
    requires Enabled(s, a)
    ensures multiset(Step(s, a).events)[root] >= multiset(s.events)[root]
    ensures Step(s, a).rootOf == s.rootOf
  {
  }

  /** A member only stops waiting by making its root due. */
  lemma HandedOffIsDue(s: State, a: Action, path: Path)
    requires Enabled(s, a) && path in s.unhanded && path !in Step(s, a).unhanded && path in s.rootOf
    ensures s.rootOf[path] in Step(s, a).uncovered
  {
  }

  lemma {:induction false} RunKeepsSecured(s: State, actions: seq<Action>, to: State, path: Path, root: Path, base: nat)
    requires Ok(s) && Runs(s, actions, to) && Secured(s, path, root, base)
    requires path in s.rootOf && s.rootOf[path] == root
    ensures Secured(to, path, root, base)
    decreases |actions|
  {
    hide Ok, Step, Enabled, Secured;
    if actions != [] {
      StepKeepsSecured(s, actions[0], path, root, base);
      StepKeepsOk(s, actions[0]);
      RunKeepsSecured(Step(s, actions[0]), actions[1..], to, path, root, base);
    }
  }

  /** Whatever order things happen in: once at rest again, every change that was owed
      has been followed by an event for its root, nothing is owed any more, and the
      events sent are exactly those of the windows opened. */
  lemma EveryChangeIsDelivered(s: State, actions: seq<Action>, to: State, path: Path)
    requires Ok(s) && Runs(s, actions, to) && AtRest(to)
    requires path in s.rootOf
    ensures to.unhanded == {} && to.uncovered == {}
    ensures Owed(s, path) ==> multiset(to.events)[s.rootOf[path]] > multiset(s.events)[s.rootOf[path]]
    ensures multiset(to.events)[s.rootOf[path]] == Spent(s, s.rootOf[path]) + Windows(s, actions, s.rootOf[path])
  {
    hide Ok, Runs, AtRest;
    var root := s.rootOf[path];
    RunKeepsOk(s, actions, to);
    RestIsQuiet(to, root);
    OneEventPerWindow(s, actions, to, root);
    if Owed(s, path) {
      RunKeepsSecured(s, actions, to, path, root, multiset(s.events)[root]);
    }
  }
}
