/** What the daemon remembers of a file, told from the history of a run alone: the
    last name it was parsed under and the last failure reported for it. None of the
    functions of the history looks at the daemon's state. */
module SaveHistory {
  import opened Common
  import opened SaveSync

  // ---- Reading a history ----

  function Last(h: seq<Action>): Action
    requires h != []
  {
    h[|h| - 1]
  }

  function Before(h: seq<Action>): seq<Action>
    requires h != []
  {
    h[..|h| - 1]
  }

  /** How often a game's plugin has changed. */
  function Changes(h: seq<Action>, game: string): nat {
    if h == [] then 0
    else if Last(h) == ChangePlugin(game) then Changes(Before(h), game) + 1
    else Changes(Before(h), game)
  }

  /** What a parse was started on, and after how many changes of its game's plugin. */
  datatype Origin = Origin(game: string, path: string, changes: nat)

  function OriginOf(h: seq<Action>, t: nat): Origin {
    if h == [] then Origin("", "", 0)
    else
      match Last(h)
      case Start(u, game, path) => if u == t then Origin(game, path, Changes(Before(h), game)) else OriginOf(Before(h), t)
      case _ => OriginOf(Before(h), t)
  }

  /** No change of the plugin since the parse started. */
  predicate UpToDate(h: seq<Action>, t: nat) {
    var o := OriginOf(h, t);
    Changes(h, o.game) == o.changes
  }

  /** What the plugin returned for the parse. */
  function ParsedBy(h: seq<Action>, t: nat): Parse {
    if h == [] then Parse("", map[])
    else
      match Last(h)
      case Succeed(u, parse) => if u == t then parse else ParsedBy(Before(h), t)
      case _ => ParsedBy(Before(h), t)
  }

  function FailureOf(h: seq<Action>, t: nat): Failure {
    if h == [] then Failure("", "", 0, "")
    else
      match Last(h)
      case Fail(u, failure) => if u == t then failure else FailureOf(Before(h), t)
      case _ => FailureOf(Before(h), t)
  }

  /** The last non-empty name a file was parsed under since it was last evicted. */
  function LastName(h: seq<Action>, path: string): Option<string> {
    if h == [] then None
    else
      match Last(h)
      case Identify(t) =>
        if OriginOf(h, t).path == path && ParsedBy(h, t).saveName != "" then Some(ParsedBy(h, t).saveName)
        else LastName(Before(h), path)
      case Evict(gone) => if path in gone then None else LastName(Before(h), path)
      case _ => LastName(Before(h), path)
  }

  /** The name a parse goes by: its own, or else the file's last one at the time. */
  function NameOf(h: seq<Action>, t: nat): string {
    if h == [] then ""
    else if Last(h) == Identify(t) then
      if ParsedBy(h, t).saveName != "" then ParsedBy(h, t).saveName
      else
        match LastName(Before(h), OriginOf(h, t).path)
        case Some(name) => name
        case None => "Unknown Player"
    else NameOf(Before(h), t)
  }

  /** The last failure delivered and recorded for a file since it last parsed, was
      evicted or removed, or the failing game's plugin changed. */
  function LastReported(h: seq<Action>, path: string): Option<Failure> {
    if h == [] then None
    else
      var earlier := LastReported(Before(h), path);
      match Last(h)
      case StoreFailure(t) =>
        if OriginOf(h, t).path == path && UpToDate(h, t) then Some(FailureOf(h, t)) else earlier
      case Succeed(t, _) => if OriginOf(h, t).path == path && UpToDate(h, t) then None else earlier
      case ChangePlugin(game) => if earlier.Some? && earlier.value.game == game then None else earlier
      case Evict(gone) => if path in gone then None else earlier
      case RemoveFile(p) => if p == path then None else earlier
      case _ => earlier
  }

  // ---- The state follows the history ----

  predicate Settled(phase: Phase) {
    phase.Identified? || phase.Current? || phase.Filtered? || phase.Ready? || phase.Sent?
  }

  predicate Failed(phase: Phase) {
    phase.Failing? || phase.NewFailure? || phase.FailureReady? || phase.FailureOut?
  }

  predicate ThreadTraced(h: seq<Action>, t: nat, th: Thread) {
    && Origin(th.game, th.path, th.gen) == OriginOf(h, t)
    && (th.phase.Succeeded? ==> th.phase.parse == ParsedBy(h, t))
    && (Settled(th.phase) ==> th.phase.parse == ParsedBy(h, t).(saveName := NameOf(h, t)))
    && (Failed(th.phase) ==> th.phase.failure == FailureOf(h, t) && th.phase.failure.game == th.game)
  }

  predicate NameTraced(h: seq<Action>, d: State, path: string) {
    LastName(h, path) == if path in d.names then Some(d.names[path]) else None
  }

  predicate FailureTraced(h: seq<Action>, d: State, path: string) {
    LastReported(h, path) == if path in d.failures then Some(d.failures[path].failure) else None
  }

  ghost predicate Traced(h: seq<Action>, s: System) {
    && (forall game: string :: Generation(s.daemon, game) == Changes(h, game))
    && (forall t :: t in s.threads ==> ThreadTraced(h, t, s.threads[t]))
    && (forall path: string :: NameTraced(h, s.daemon, path))
    && (forall path: string :: FailureTraced(h, s.daemon, path))
  }

  lemma Grown(h: seq<Action>, a: Action)
    ensures h + [a] != [] && Last(h + [a]) == a && Before(h + [a]) == h
  {
  }

  /** The parse an action moves on, if it is about one. */
  predicate Moves(a: Action, t: nat) {
    !a.ChangePlugin? && !a.Evict? && !a.RemoveFile? && a.t == t
  }

  lemma OthersKept(h: seq<Action>, s: System, a: Action, t: nat)
    requires Traced(h, s) && Enabled(s, a) && t in Step(s, a).threads && !Moves(a, t)
    ensures ThreadTraced(h + [a], t, Step(s, a).threads[t])
  {
    hide Hashes, Changed, Delivered, PreviousHashes, Held, LastReported, LastName, FailureTraced, NameTraced, ResolvedName, Named,
      ParseSucceeded, FailureSent, Pushed, AlreadyReported;
    Grown(h, a);
    assert Step(s, a).threads[t] == s.threads[t];
    hide Step, Enabled;
    assert ThreadTraced(h, t, s.threads[t]);
  }

  lemma StepKeepsThreads(h: seq<Action>, s: System, a: Action, t: nat)
    requires Traced(h, s) && Enabled(s, a) && t in Step(s, a).threads
    ensures ThreadTraced(h + [a], t, Step(s, a).threads[t])
  {
    if Moves(a, t) {
      if a.Identify? {
        IdentifyTraced(h, s, t);
      } else {
        MovedKept(h, s, a, t);
      }
    } else {
      OthersKept(h, s, a, t);
    }
  }

  lemma MovedKept(h: seq<Action>, s: System, a: Action, t: nat)
    requires Traced(h, s) && Enabled(s, a) && t in Step(s, a).threads && Moves(a, t) && !a.Identify?
    ensures ThreadTraced(h + [a], t, Step(s, a).threads[t])
  {
    hide Hashes, Changed, Delivered, PreviousHashes, Held, LastReported, LastName, FailureTraced, NameTraced, ResolvedName, Named,
      ParseSucceeded, FailureSent, Pushed, AlreadyReported;
    Grown(h, a);
    if t in s.threads {
      assert ThreadTraced(h, t, s.threads[t]);
    }
  }

  lemma IdentifyTraced(h: seq<Action>, s: System, t: nat)
    requires Traced(h, s) && Enabled(s, Identify(t))
    ensures ThreadTraced(h + [Identify(t)], t, Step(s, Identify(t)).threads[t])
  {
    hide LastReported, FailureTraced;
    Grown(h, Identify(t));
    assert ThreadTraced(h, t, s.threads[t]);
    assert NameTraced(h, s.daemon, s.threads[t].path);
  }

  lemma StepKeepsChanges(h: seq<Action>, s: System, a: Action, game: string)
    requires Traced(h, s) && Enabled(s, a)
    ensures Generation(Step(s, a).daemon, game) == Changes(h + [a], game)
  {
    hide Hashes, Changed, Delivered, PreviousHashes, Held, ThreadTraced, NameTraced, FailureTraced;
    Grown(h, a);
  }

  lemma StepKeepsNames(h: seq<Action>, s: System, a: Action, path: string)
    requires Traced(h, s) && Enabled(s, a)
    ensures NameTraced(h + [a], Step(s, a).daemon, path)
  {
    hide Hashes, Changed, Delivered, PreviousHashes, Held, LastReported, FailureTraced;
    Grown(h, a);
    assert NameTraced(h, s.daemon, path);
    if a.Identify? {
      assert ThreadTraced(h, a.t, s.threads[a.t]);
    }
  }

  lemma StepKeepsFailures(h: seq<Action>, s: System, a: Action, path: string)
    requires Traced(h, s) && Enabled(s, a)
    ensures FailureTraced(h + [a], Step(s, a).daemon, path)
  {
    hide Hashes, Changed, Delivered, PreviousHashes, Held, LastName, NameTraced, NameOf;
    Grown(h, a);
    assert FailureTraced(h, s.daemon, path);
    if a.StoreFailure? || a.Succeed? {
      assert ThreadTraced(h, a.t, s.threads[a.t]);
    }
  }

  lemma StepKeepsTraced(h: seq<Action>, s: System, a: Action)
    requires Traced(h, s) && Enabled(s, a)
    ensures Traced(h + [a], Step(s, a))
  {
    hide Step, Enabled, ThreadTraced, NameTraced, FailureTraced, Changes, Generation;
    forall t | t in Step(s, a).threads
      ensures ThreadTraced(h + [a], t, Step(s, a).threads[t])
    {
      StepKeepsThreads(h, s, a, t);
    }
    forall game: string
      ensures Generation(Step(s, a).daemon, game) == Changes(h + [a], game)
    {
      StepKeepsChanges(h, s, a, game);
    }
    forall path: string
      ensures NameTraced(h + [a], Step(s, a).daemon, path) && FailureTraced(h + [a], Step(s, a).daemon, path)
    {
      StepKeepsNames(h, s, a, path);
      StepKeepsFailures(h, s, a, path);
    }
  }

  lemma {:induction false} RunKeepsTraced(h: seq<Action>, s: System, actions: seq<Action>, to: System)
    requires Traced(h, s) && Runs(s, actions, to)
    ensures Traced(h + actions, to)
    decreases |actions|
  {
    hide Step, Enabled, Traced;
    if actions == [] {
      assert h + actions == h;
    } else {
      StepKeepsTraced(h, s, actions[0]);
      RunKeepsTraced(h + [actions[0]], Step(s, actions[0]), actions[1..], to);
      assert h + [actions[0]] + actions[1..] == h + actions;
    }
  }

  lemma TracedFromStart(actions: seq<Action>, to: System)
    requires Runs(STARTED, actions, to)
    ensures Traced(actions, to)
  {
    hide Runs;
    assert Traced([], STARTED);
    RunKeepsTraced([], STARTED, actions, to);
    assert [] + actions == actions;
  }

  // ---- What runs remember ----

  /** Resolving a parse's identity: its own name, or the last one its file was parsed
      under since it was evicted, or "Unknown Player" if there was none. Nothing else
      that happens in between, a plugin change above all, resets it. */
  lemma NameRemembered(actions: seq<Action>, s: System, t: nat)
    requires Runs(STARTED, actions, s) && Enabled(s, Identify(t))
    ensures
      var path := OriginOf(actions, t).path;
      var given := ParsedBy(actions, t).saveName;
      var phase := Step(s, Identify(t)).threads[t].phase;
      && phase.Identified? && phase.parse.sections == ParsedBy(actions, t).sections
      && (given != "" ==> phase.parse.saveName == given)
      && (given == "" && LastName(actions, path).Some? ==> phase.parse.saveName == LastName(actions, path).value)
      && (given == "" && LastName(actions, path).None? ==> phase.parse.saveName == "Unknown Player")
  {
    hide Runs, FailureTraced;
    TracedFromStart(actions, s);
    assert ThreadTraced(actions, t, s.threads[t]);
    assert NameTraced(actions, s.daemon, s.threads[t].path);
  }

  /** However parses interleave, a push reaches the receiver under the name its parse
      goes by, and the receiver keeps of it exactly the sections that parse has. */
  lemma PushedUnderName(actions: seq<Action>, s: System, t: nat)
    requires Runs(STARTED, actions, s) && Enabled(s, Deliver(t))
    ensures
      var id := (OriginOf(actions, t).game, NameOf(actions, t));
      var receiver := Step(s, Deliver(t)).receiver;
      && id in receiver && receiver[id].Keys <= ParsedBy(actions, t).sections.Keys
      && (forall other :: other != id ==> (other in receiver <==> other in s.receiver))
      && (forall other :: other != id && other in receiver ==> receiver[other] == s.receiver[other])
  {
    hide Runs, FailureTraced, NameTraced, Changed, Held;
    TracedFromStart(actions, s);
    assert ThreadTraced(actions, t, s.threads[t]);
  }

  lemma {:induction false} DisciplinedRuns(s: System, actions: seq<Action>, to: System, owner: map<Identity, string>, strict: bool)
    requires DisciplinedRun(s, actions, to, owner, strict)
    ensures Runs(s, actions, to)
    decreases |actions|
  {
    hide Step, Enabled, Disciplined;
    if actions != [] {
      DisciplinedRuns(Step(s, actions[0]), actions[1..], to, owner, strict);
    }
  }

  /** A file parsed again without a name: the push carries its last name, and once
      delivered the receiver's save of that name holds the second parse. */
  lemma NamelessParsePushed(actions: seq<Action>, s: System, owner: map<Identity, string>, strict: bool,
                            game: string, path: string, sections: Sections)
    requires DisciplinedRun(STARTED, actions, s, owner, strict) && s.threads == map[]
    requires strict ==> AllMarshal(sections)
    requires LastName(actions, path).Some? && Owns(owner, game, LastName(actions, path).value, path)
    ensures
      var name := LastName(actions, path).value;
      var push := ParseOutcome(s.daemon, game, path, Parse("", sections), true).1;
      && (push.Some? ==> push.value.saveName == name && push.value.names == sections.Keys)
      && Holds(sections, Held(Received(s.receiver, game, push), (game, name)))
  {
    hide DisciplinedRun, Synced, Runs, Holds, Received, Hashes, Changed, Delivered, Held, PreviousHashes, FailureTraced;
    DisciplinedRuns(STARTED, actions, s, owner, strict);
    TracedFromStart(actions, s);
    assert NameTraced(actions, s.daemon, path);
    StartedSynced(owner, strict);
    RunKeepsSynced(STARTED, actions, s, owner, strict);
    assert s == Alone(s.daemon, s.receiver);
    ParseKeepsAgreement(s.daemon, s.receiver, game, path, Parse("", sections), true, owner, strict);
  }

  lemma StartedSynced(owner: map<Identity, string>, strict: bool)
    ensures Synced(STARTED, owner, strict)
  {
  }

  /** A failure is suppressed exactly when it is the one last reported for its file
      with no success, eviction, removal or plugin change since: a different failure,
      or the same one after a success, is reported. */
  lemma FailureRepeated(actions: seq<Action>, s: System, t: nat)
    requires Runs(STARTED, actions, s) && Enabled(s, Compare(t))
    ensures
      var repeated := LastReported(actions, OriginOf(actions, t).path) == Some(FailureOf(actions, t));
      var s' := Step(s, Compare(t));
      && (repeated ==> t !in s'.threads)
      && (!repeated ==> t in s'.threads && s'.threads[t].phase == NewFailure(FailureOf(actions, t)))
  {
    hide Runs, NameTraced, NameOf;
    TracedFromStart(actions, s);
    assert ThreadTraced(actions, t, s.threads[t]);
    assert FailureTraced(actions, s.daemon, s.threads[t].path);
  }

  /** The same of a failed parse that nothing disturbs. */
  lemma FailureReported(actions: seq<Action>, s: System, path: string, failure: Failure, delivered: bool)
    requires Runs(STARTED, actions, s)
    ensures
      var gen := Changes(actions, failure.game);
      var reported := FailureOutcome(s.daemon, path, gen, failure, delivered).1;
      reported <==> (delivered && LastReported(actions, path) != Some(failure))
    ensures
      var gen := Changes(actions, failure.game);
      var d := FailureOutcome(s.daemon, path, gen, failure, delivered).0;
      delivered ==> path in d.failures && d.failures[path].failure == failure
  {
    hide Runs, NameTraced, NameOf;
    TracedFromStart(actions, s);
    assert FailureTraced(actions, s.daemon, path);
  }
}
