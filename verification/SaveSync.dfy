/** The save-sync protocol between the daemon and the receiver of its pushes, at
    the granularity of the daemon's lock: parses run concurrently with plugin
    changes and evictions, and every step below is one locked section, one send,
    or purely local work. */
module SaveSync {
  import opened Common

  // ---- What is pushed ----

  /** A hash that no two different sections share. */
  datatype Digest = Sha256(name: string, payload: string)

  /** A section in protocol form; `marshals` says whether it can be encoded for hashing. */
  datatype Section = Section(payload: string, marshals: bool)

  type Sections = map<string, Section>

  datatype Parse = Parse(saveName: string, sections: Sections)

  type Identity = (string, string) // game, save name

  function Hashes(sections: Sections): map<string, Digest> {
    map n | n in sections && sections[n].marshals :: Sha256(n, sections[n].payload)
  }

  /** The sections to push, given the hashes of the last push. */
  function Changed(prev: map<string, Digest>, sections: Sections): map<string, string> {
    map n | n in sections && sections[n].marshals && !(n in prev && prev[n] == Sha256(n, sections[n].payload)) ::
      sections[n].payload
  }

  /** The receiver overwrites what was pushed and keeps only the names listed. */
  function Delivered(held: map<string, string>, changed: map<string, string>, names: set<string>): map<string, string> {
    map n | n in names && (n in changed || n in held) :: if n in changed then changed[n] else held[n]
  }

  // ---- The daemon's state ----

  /** `born` records the generation the writing parse started at. */
  datatype Cached = Cached(game: string, saveName: string, hashes: map<string, Digest>, born: nat)

  datatype Failure = Failure(game: string, content: string, errorType: int, message: string)

  datatype Reported = Reported(failure: Failure, born: nat)

  datatype State = State(generations: map<string, nat>, cache: map<string, Cached>,
                         names: map<string, string>, failures: map<string, Reported>)

  const UNKNOWN_SAVE_NAME := "Unknown Player"

  function Generation(s: State, game: string): nat {
    if game in s.generations then s.generations[game] else 0
  }

  /** A changed plugin: a new generation, and nothing left of the old one. */
  function PluginChanged(s: State, game: string): State {
    s.(generations := s.generations[game := Generation(s, game) + 1],
       cache := map p | p in s.cache && s.cache[p].game != game :: s.cache[p],
       failures := map p | p in s.failures && s.failures[p].failure.game != game :: s.failures[p])
  }

  function Evicted(s: State, gone: set<string>): State {
    s.(cache := s.cache - gone, names := s.names - gone, failures := s.failures - gone)
  }

  function FileRemoved(s: State, path: string): State {
    s.(failures := s.failures - {path})
  }

  function ParseSucceeded(s: State, game: string, path: string, gen: nat): State {
    if Generation(s, game) == gen then s.(failures := s.failures - {path}) else s
  }

  /** An empty save name means the one last seen in this file, if there was one. */
  function ResolvedName(s: State, path: string, saveName: string): string {
    if saveName != "" then saveName else if path in s.names then s.names[path] else UNKNOWN_SAVE_NAME
  }

  function Named(s: State, path: string, saveName: string): State {
    if saveName != "" then s.(names := s.names[path := saveName]) else s
  }

  function PreviousHashes(s: State, game: string, path: string, saveName: string): map<string, Digest> {
    if path in s.cache && s.cache[path].game == game && s.cache[path].saveName == saveName
    then s.cache[path].hashes else map[]
  }

  function Pushed(s: State, game: string, path: string, gen: nat, saveName: string, hashes: map<string, Digest>): State {
    if Generation(s, game) == gen
    then s.(cache := s.cache[path := Cached(game, saveName, hashes, gen)]) else s
  }

  predicate AlreadyReported(s: State, path: string, failure: Failure) {
    path in s.failures && s.failures[path].failure == failure
  }

  function FailureSent(s: State, path: string, gen: nat, failure: Failure): State {
    if Generation(s, failure.game) == gen
    then s.(failures := s.failures[path := Reported(failure, gen)]) else s
  }

  // ---- Threads ----

  /** How far a parse has come. */
  datatype Phase =
    | Running
    | Succeeded(parse: Parse)
    | Identified(parse: Parse)                    // the save name is resolved
    | Current(parse: Parse)                       // the generation was still the same
    | Filtered(parse: Parse, changed: map<string, string>)
    | Ready(parse: Parse, changed: map<string, string>)
    | Sent(parse: Parse)
    | Failing(failure: Failure)
    | NewFailure(failure: Failure)
    | FailureReady(failure: Failure)
    | FailureOut(failure: Failure)

  datatype Thread = Thread(game: string, path: string, gen: nat, phase: Phase)

  datatype System = System(daemon: State, receiver: map<Identity, map<string, string>>, threads: map<nat, Thread>)

  function Held(receiver: map<Identity, map<string, string>>, id: Identity): map<string, string> {
    if id in receiver then receiver[id] else map[]
  }

  datatype Action =
    | Start(t: nat, game: string, path: string)
    | Succeed(t: nat, parse: Parse)
    | Identify(t: nat)
    | CheckGeneration(t: nat)
    | Filter(t: nat)
    | Recheck(t: nat)
    | Deliver(t: nat)
    | Store(t: nat)
    | Fail(t: nat, failure: Failure)
    | Compare(t: nat)
    | RecheckFailure(t: nat)
    | DeliverFailure(t: nat)
    | StoreFailure(t: nat)
    | Abandon(t: nat)                             // an unreadable file, or a send that failed
    | ChangePlugin(game: string)
    | Evict(gone: set<string>)
    | RemoveFile(path: string)

  predicate InPhase(s: System, t: nat, p: Phase -> bool) {
    t in s.threads && p(s.threads[t].phase)
  }

  predicate Enabled(s: System, a: Action) {
    match a
    case Start(t, _, _) => t !in s.threads
    case Succeed(t, _) => InPhase(s, t, (p: Phase) => p.Running?)
    case Identify(t) => InPhase(s, t, (p: Phase) => p.Succeeded?)
    case CheckGeneration(t) => InPhase(s, t, (p: Phase) => p.Identified?)
    case Filter(t) => InPhase(s, t, (p: Phase) => p.Current?)
    case Recheck(t) => InPhase(s, t, (p: Phase) => p.Filtered?)
    case Deliver(t) => InPhase(s, t, (p: Phase) => p.Ready?)
    case Store(t) => InPhase(s, t, (p: Phase) => p.Sent?)
    case Fail(t, failure) => InPhase(s, t, (p: Phase) => p.Running?) && s.threads[t].game == failure.game
    case Compare(t) => InPhase(s, t, (p: Phase) => p.Failing?)
    case RecheckFailure(t) => InPhase(s, t, (p: Phase) => p.NewFailure?)
    case DeliverFailure(t) => InPhase(s, t, (p: Phase) => p.FailureReady?)
    case StoreFailure(t) => InPhase(s, t, (p: Phase) => p.FailureOut?)
    case Abandon(t) => InPhase(s, t, (p: Phase) => !p.Sent? && !p.FailureOut?)
    case ChangePlugin(_) => true
    case Evict(_) => true
    case RemoveFile(_) => true
  }

  function Advance(s: System, t: nat, phase: Phase): System
    requires t in s.threads
  {
    s.(threads := s.threads[t := s.threads[t].(phase := phase)])
  }

  function Finish(s: System, t: nat): System {
    s.(threads := s.threads - {t})
  }

  /** Goes on if the thread's generation is still current, and stops otherwise. */
  function IfCurrent(s: System, t: nat, phase: Phase): System
    requires t in s.threads
  {
    if Generation(s.daemon, s.threads[t].game) == s.threads[t].gen then Advance(s, t, phase) else Finish(s, t)
  }

  function Step(s: System, a: Action): System
    requires Enabled(s, a)
  {
    var d := s.daemon;
    match a
    case Start(t, game, path) => s.(threads := s.threads[t := Thread(game, path, Generation(d, game), Running)])
    case Succeed(t, parse) =>
      var th := s.threads[t];
      Advance(s.(daemon := ParseSucceeded(d, th.game, th.path, th.gen)), t, Succeeded(parse))
    case Identify(t) =>
      var th := s.threads[t];
      var name := ResolvedName(d, th.path, th.phase.parse.saveName);
      Advance(s.(daemon := Named(d, th.path, th.phase.parse.saveName)), t, Identified(th.phase.parse.(saveName := name)))
    case CheckGeneration(t) => IfCurrent(s, t, Current(s.threads[t].phase.parse))
    case Filter(t) =>
      var th := s.threads[t];
      var changed := Changed(PreviousHashes(d, th.game, th.path, th.phase.parse.saveName), th.phase.parse.sections);
      if changed == map[] then Finish(s, t) else Advance(s, t, Filtered(th.phase.parse, changed))
    case Recheck(t) => IfCurrent(s, t, Ready(s.threads[t].phase.parse, s.threads[t].phase.changed))
    case Deliver(t) =>
      var th := s.threads[t];
      var id := (th.game, th.phase.parse.saveName);
      var held := Delivered(Held(s.receiver, id), th.phase.changed, th.phase.parse.sections.Keys);
      Advance(s.(receiver := s.receiver[id := held]), t, Sent(th.phase.parse))
    case Store(t) =>
      var th := s.threads[t];
      var parse := th.phase.parse;
      Finish(s.(daemon := Pushed(d, th.game, th.path, th.gen, parse.saveName, Hashes(parse.sections))), t)
    case Fail(t, failure) => IfCurrent(s, t, Failing(failure))
    case Compare(t) =>
      var th := s.threads[t];
      if AlreadyReported(d, th.path, th.phase.failure) then Finish(s, t) else Advance(s, t, NewFailure(th.phase.failure))
    case RecheckFailure(t) => IfCurrent(s, t, FailureReady(s.threads[t].phase.failure))
    case DeliverFailure(t) => Advance(s, t, FailureOut(s.threads[t].phase.failure))
    case StoreFailure(t) =>
      var th := s.threads[t];
      Finish(s.(daemon := FailureSent(d, th.path, th.gen, th.phase.failure)), t)
    case Abandon(t) => Finish(s, t)
    case ChangePlugin(game) => s.(daemon := PluginChanged(d, game))
    case Evict(gone) => s.(daemon := Evicted(d, gone))
    case RemoveFile(path) => s.(daemon := FileRemoved(d, path))
  }

  // ---- Generations: any interleaving at all ----

  /** Every remembered push and failure was written by a parse that started at its
      game's current generation. */
  ghost predicate Fresh(d: State) {
    && (forall p :: p in d.cache ==> d.cache[p].born == Generation(d, d.cache[p].game))
    && (forall p :: p in d.failures ==> d.failures[p].born == Generation(d, d.failures[p].failure.game))
  }

  lemma StepKeepsFresh(s: System, a: Action)
    requires Enabled(s, a) && Fresh(s.daemon)
    ensures Fresh(Step(s, a).daemon)
  {
    hide Changed, Hashes, Delivered, Held, PreviousHashes, ResolvedName;
  }

  /** Where a run of enabled actions leads. */
  ghost predicate Runs(s: System, actions: seq<Action>, to: System)
    decreases |actions|
  {
    if actions == [] then s == to
    else Enabled(s, actions[0]) && Runs(Step(s, actions[0]), actions[1..], to)
  }

  /** Under any interleaving of parses with plugin changes, nothing stale survives. */
  lemma {:induction false} NothingStaleRemembered(s: System, actions: seq<Action>, to: System)
    requires Fresh(s.daemon) && Runs(s, actions, to)
    ensures Fresh(to.daemon)
    decreases |actions|
  {
    hide Step, Enabled, Fresh;
    if actions != [] {
      StepKeepsFresh(s, actions[0]);
      NothingStaleRemembered(Step(s, actions[0]), actions[1..], to);
    }
  }

  // ---- Agreement with the receiver ----

  /** What the cached hashes say of the receiver's copy; exactly, when `strict`. */
  ghost predicate Covers(strict: bool, hashes: map<string, Digest>, held: map<string, string>) {
    && (forall n :: n in hashes ==> n in held && hashes[n] == Sha256(n, held[n]))
    && (strict ==> forall n :: n in held ==> n in hashes)
  }

  /** The receiver has every section of the parse that could be hashed. */
  ghost predicate Holds(sections: Sections, held: map<string, string>) {
    forall n :: n in sections && sections[n].marshals ==> n in held && held[n] == sections[n].payload
  }

  predicate AllMarshal(sections: Sections) {
    forall n :: n in sections ==> sections[n].marshals
  }

  /** Once `changed` is delivered, the receiver will have every section. */
  ghost predicate Completes(sections: Sections, changed: map<string, string>, held: map<string, string>) {
    && (forall n :: n in changed ==> n in sections && sections[n].marshals && changed[n] == sections[n].payload)
    && (forall n :: n in sections && sections[n].marshals && n !in changed ==> n in held && held[n] == sections[n].payload)
  }

  predicate Owns(owner: map<Identity, string>, game: string, saveName: string, path: string) {
    (game, saveName) in owner && owner[(game, saveName)] == path
  }

  /** One identity has one file, and no two parses of a file overlap. */
  ghost predicate Disciplined(s: System, a: Action, owner: map<Identity, string>, strict: bool) {
    && (a.Start? ==> forall t :: t in s.threads ==> s.threads[t].path != a.path)
    && (a.Succeed? ==> strict ==> AllMarshal(a.parse.sections))
    && (a.Identify? && Enabled(s, a) ==>
          var th := s.threads[a.t];
          Owns(owner, th.game, ResolvedName(s.daemon, th.path, th.phase.parse.saveName), th.path))
  }

  ghost predicate ThreadOk(th: Thread, receiver: map<Identity, map<string, string>>, owner: map<Identity, string>, strict: bool) {
    && (th.phase.Succeeded? ==> strict ==> AllMarshal(th.phase.parse.sections))
    && (th.phase.Identified? || th.phase.Current? || th.phase.Filtered? || th.phase.Ready? || th.phase.Sent? ==>
          && Owns(owner, th.game, th.phase.parse.saveName, th.path)
          && (strict ==> AllMarshal(th.phase.parse.sections)))
    && (th.phase.Filtered? || th.phase.Ready? ==>
          Completes(th.phase.parse.sections, th.phase.changed, Held(receiver, (th.game, th.phase.parse.saveName))))
    && (th.phase.Sent? ==>
          Covers(strict, Hashes(th.phase.parse.sections), Held(receiver, (th.game, th.phase.parse.saveName))))
  }

  /** The thread has pushed this entry's save but not yet recorded it. */
  predicate Replacing(th: Thread, path: string, c: Cached) {
    th.path == path && th.phase.Sent? && th.game == c.game && th.phase.parse.saveName == c.saveName
  }

  /** The entry matches the receiver, unless a push of the same save is being recorded. */
  ghost predicate EntryOk(s: System, path: string, owner: map<Identity, string>, strict: bool)
    requires path in s.daemon.cache
  {
    var c := s.daemon.cache[path];
    && Owns(owner, c.game, c.saveName, path)
    && ((forall t :: t in s.threads ==> !Replacing(s.threads[t], path, c)) ==>
          Covers(strict, c.hashes, Held(s.receiver, (c.game, c.saveName))))
  }

  /** A file's entry under the parsing game is from the generation the parse started at. */
  ghost predicate SameBirth(s: System, th: Thread) {
    th.path in s.daemon.cache && s.daemon.cache[th.path].game == th.game ==> s.daemon.cache[th.path].born == th.gen
  }

  ghost predicate Synced(s: System, owner: map<Identity, string>, strict: bool) {
    && Fresh(s.daemon)
    && (forall t1, t2 :: t1 in s.threads && t2 in s.threads && t1 != t2 ==> s.threads[t1].path != s.threads[t2].path)
    && (forall t :: t in s.threads ==> ThreadOk(s.threads[t], s.receiver, owner, strict) && SameBirth(s, s.threads[t]))
    && (forall p :: p in s.daemon.cache ==> EntryOk(s, p, owner, strict))
  }

  lemma FilterCompletes(prev: map<string, Digest>, sections: Sections, held: map<string, string>)
    requires forall n :: n in prev ==> n in held && prev[n] == Sha256(n, held[n])
    ensures Completes(sections, Changed(prev, sections), held)
    ensures Changed(prev, sections) == map[] ==> Holds(sections, held)
  {
    var changed := Changed(prev, sections);
    forall n | n in sections && sections[n].marshals && n !in changed
      ensures n in held && held[n] == sections[n].payload
    {
      assert n in prev && prev[n] == Sha256(n, sections[n].payload);
    }
    if changed == map[] {
      forall n | n in sections && sections[n].marshals
        ensures n in held && held[n] == sections[n].payload
      {
        assert n !in changed;
      }
    }
  }

  lemma DeliveryHolds(sections: Sections, changed: map<string, string>, held: map<string, string>)
    requires Completes(sections, changed, held)
    ensures Holds(sections, Delivered(held, changed, sections.Keys))
    ensures Covers(AllMarshal(sections), Hashes(sections), Delivered(held, changed, sections.Keys))
  {
  }

  /** After any delivered push, and after any push skipped because nothing changed,
      the receiver holds every section of that parse. */
  lemma ReceiverHoldsParse(s: System, a: Action, owner: map<Identity, string>, strict: bool)
    requires Synced(s, owner, strict) && Enabled(s, a)
    requires a.Deliver? || (a.Filter? && a.t !in Step(s, a).threads)
    ensures
      var th := s.threads[a.t];
      Holds(th.phase.parse.sections, Held(Step(s, a).receiver, (th.game, th.phase.parse.saveName)))
  {
    var th := s.threads[a.t];
    var held := Held(s.receiver, (th.game, th.phase.parse.saveName));
    assert ThreadOk(th, s.receiver, owner, strict);
    if a.Deliver? {
      DeliveryHolds(th.phase.parse.sections, th.phase.changed, held);
    } else {
      PreviousCovered(s, a.t, owner, strict);
      FilterCompletes(PreviousHashes(s.daemon, th.game, th.path, th.phase.parse.saveName), th.phase.parse.sections, held);
    }
  }

  /** The hashes a parse compares with are those of what the receiver holds. */
  lemma PreviousCovered(s: System, t: nat, owner: map<Identity, string>, strict: bool)
    requires Synced(s, owner, strict) && t in s.threads && s.threads[t].phase.Current?
    ensures
      var th := s.threads[t];
      var prev := PreviousHashes(s.daemon, th.game, th.path, th.phase.parse.saveName);
      var held := Held(s.receiver, (th.game, th.phase.parse.saveName));
      forall n :: n in prev ==> n in held && prev[n] == Sha256(n, held[n])
  {
    var th := s.threads[t];
    if th.path in s.daemon.cache {
      assert EntryOk(s, th.path, owner, strict);
      var c := s.daemon.cache[th.path];
      forall u | u in s.threads
        ensures !Replacing(s.threads[u], th.path, c)
      {
        assert u != t ==> s.threads[u].path != th.path;
      }
    }
  }

  // ---- Every step keeps the agreement ----

  /** A step that leaves cache and receiver alone and changes or ends one thread
      that is not between its send and its store. */
  ghost predicate Quiet(s: System, s': System, t: nat) {
    && s'.daemon.cache == s.daemon.cache && s'.receiver == s.receiver
    && (forall u :: u != t ==> (u in s'.threads <==> u in s.threads))
    && (forall u :: u != t && u in s.threads ==> s'.threads[u] == s.threads[u])
    && (t in s.threads ==> !s.threads[t].phase.Sent?)
    && (t in s'.threads ==> !s'.threads[t].phase.Sent?)
  }

  lemma QuietKeepsSynced(s: System, s': System, t: nat, owner: map<Identity, string>, strict: bool)
    requires Synced(s, owner, strict) && Fresh(s'.daemon) && Quiet(s, s', t)
    requires t in s'.threads ==>
      && ThreadOk(s'.threads[t], s'.receiver, owner, strict) && SameBirth(s', s'.threads[t])
      && forall u :: u in s.threads && u != t ==> s.threads[u].path != s'.threads[t].path
    ensures Synced(s', owner, strict)
  {
    hide ThreadOk, Covers, Fresh, Held;
    forall p | p in s'.daemon.cache
      ensures EntryOk(s', p, owner, strict)
    {
      assert EntryOk(s, p, owner, strict);
      var c := s.daemon.cache[p];
      if forall u :: u in s'.threads ==> !Replacing(s'.threads[u], p, c) {
        forall u | u in s.threads
          ensures !Replacing(s.threads[u], p, c)
        {
          assert u != t ==> s'.threads[u] == s.threads[u];
        }
      }
    }
    forall u | u in s'.threads
      ensures ThreadOk(s'.threads[u], s'.receiver, owner, strict) && SameBirth(s', s'.threads[u])
    {
      assert u != t ==> ThreadOk(s.threads[u], s.receiver, owner, strict) && SameBirth(s, s.threads[u]);
    }
  }

  /** Dropping entries, or moving a game to its next generation, disturbs no thread. */
  lemma ShrinkKeepsSynced(s: System, s': System, owner: map<Identity, string>, strict: bool)
    requires Synced(s, owner, strict) && Fresh(s'.daemon)
    requires s'.threads == s.threads && s'.receiver == s.receiver
    requires forall p :: p in s'.daemon.cache ==> p in s.daemon.cache && s'.daemon.cache[p] == s.daemon.cache[p]
    ensures Synced(s', owner, strict)
  {
    hide ThreadOk, Covers, Fresh, Held;
    forall p | p in s'.daemon.cache
      ensures EntryOk(s', p, owner, strict)
    {
      assert EntryOk(s, p, owner, strict);
    }
    forall u | u in s'.threads
      ensures ThreadOk(s'.threads[u], s'.receiver, owner, strict) && SameBirth(s', s'.threads[u])
    {
      assert ThreadOk(s.threads[u], s.receiver, owner, strict) && SameBirth(s, s.threads[u]);
    }
  }

  lemma DeliverKeepsSynced(s: System, t: nat, owner: map<Identity, string>, strict: bool)
    requires Synced(s, owner, strict) && Enabled(s, Deliver(t))
    ensures Synced(Step(s, Deliver(t)), owner, strict)
  {
    hide Fresh, Covers, Completes, Delivered, Hashes;
    var th, s' := s.threads[t], Step(s, Deliver(t));
    var id := (th.game, th.phase.parse.saveName);
    assert ThreadOk(th, s.receiver, owner, strict) && SameBirth(s, th);
    DeliveryHolds(th.phase.parse.sections, th.phase.changed, Held(s.receiver, id));
    if !strict {
      CoversLoosely(AllMarshal(th.phase.parse.sections), Hashes(th.phase.parse.sections), Held(s'.receiver, id));
    }
    forall u | u in s'.threads
      ensures ThreadOk(s'.threads[u], s'.receiver, owner, strict) && SameBirth(s', s'.threads[u])
    {
      if u != t {
        assert ThreadOk(s.threads[u], s.receiver, owner, strict) && SameBirth(s, s.threads[u]);
        OtherIdentity(s, t, u, owner, strict, id);
      }
    }
    forall p | p in s'.daemon.cache
      ensures EntryOk(s', p, owner, strict)
    {
      DeliverKeepsEntry(s, t, p, owner, strict);
    }
  }

  lemma CoversLoosely(strict: bool, hashes: map<string, Digest>, held: map<string, string>)
    requires Covers(strict, hashes, held)
    ensures Covers(false, hashes, held)
  {
  }

  /** No other thread is about the save that was just delivered. */
  lemma OtherIdentity(s: System, t: nat, u: nat, owner: map<Identity, string>, strict: bool, id: Identity)
    requires Synced(s, owner, strict) && t in s.threads && u in s.threads && u != t
    requires Owns(owner, id.0, id.1, s.threads[t].path)
    ensures
      var phase := s.threads[u].phase;
      phase.Identified? || phase.Current? || phase.Filtered? || phase.Ready? || phase.Sent? ==>
        (s.threads[u].game, phase.parse.saveName) != id
  {
    hide Fresh, Covers, Completes;
    assert ThreadOk(s.threads[u], s.receiver, owner, strict);
    assert s.threads[u].path != s.threads[t].path;
  }

  lemma DeliverKeepsEntry(s: System, t: nat, p: string, owner: map<Identity, string>, strict: bool)
    requires Synced(s, owner, strict) && Enabled(s, Deliver(t)) && p in s.daemon.cache
    ensures EntryOk(Step(s, Deliver(t)), p, owner, strict)
  {
    hide Fresh, Covers, Completes, Delivered, Hashes;
    var th, s' := s.threads[t], Step(s, Deliver(t));
    var c, id := s.daemon.cache[p], (th.game, th.phase.parse.saveName);
    assert EntryOk(s, p, owner, strict);
    assert ThreadOk(th, s.receiver, owner, strict);
    if forall u :: u in s'.threads ==> !Replacing(s'.threads[u], p, c) {
      assert !Replacing(s'.threads[t], p, c);
      assert (c.game, c.saveName) != id;
      forall u | u in s.threads
        ensures !Replacing(s.threads[u], p, c)
      {
        assert u != t ==> s'.threads[u] == s.threads[u];
      }
    }
  }

  lemma StoreKeepsSynced(s: System, t: nat, owner: map<Identity, string>, strict: bool)
    requires Synced(s, owner, strict) && Enabled(s, Store(t)) && Fresh(Step(s, Store(t)).daemon)
    ensures Synced(Step(s, Store(t)), owner, strict)
  {
    hide Covers, Completes, Hashes, Fresh;
    var th, s' := s.threads[t], Step(s, Store(t));
    assert ThreadOk(th, s.receiver, owner, strict) && SameBirth(s, th);
    forall u | u in s'.threads
      ensures ThreadOk(s'.threads[u], s'.receiver, owner, strict) && SameBirth(s', s'.threads[u])
    {
      assert ThreadOk(s.threads[u], s.receiver, owner, strict) && SameBirth(s, s.threads[u]);
      assert s.threads[u].path != th.path;
    }
    forall p | p in s'.daemon.cache
      ensures EntryOk(s', p, owner, strict)
    {
      StoreKeepsEntry(s, t, p, owner, strict);
    }
  }

  lemma StoreKeepsEntry(s: System, t: nat, p: string, owner: map<Identity, string>, strict: bool)
    requires Synced(s, owner, strict) && Enabled(s, Store(t)) && p in Step(s, Store(t)).daemon.cache
    ensures EntryOk(Step(s, Store(t)), p, owner, strict)
  {
    hide Covers, Completes, Hashes;
    var th, s' := s.threads[t], Step(s, Store(t));
    assert ThreadOk(th, s.receiver, owner, strict) && SameBirth(s, th);
    if Generation(s.daemon, th.game) != th.gen || p != th.path {
      assert EntryOk(s, p, owner, strict);
      var c := s.daemon.cache[p];
      // A superseded push has no entry of its game left to replace.
      assert !Replacing(th, p, c);
      if forall u :: u in s'.threads ==> !Replacing(s'.threads[u], p, c) {
        forall u | u in s.threads
          ensures !Replacing(s.threads[u], p, c)
        {
          assert u != t ==> s'.threads[u] == s.threads[u];
        }
      }
    }
  }

  predicate Local(a: Action) {
    !a.Deliver? && !a.Store? && !a.ChangePlugin? && !a.Evict? && !a.RemoveFile?
  }

  lemma LocalIsQuiet(s: System, a: Action)
    requires Enabled(s, a) && Local(a)
    ensures Quiet(s, Step(s, a), a.t)
    ensures a.t in Step(s, a).threads && a.t in s.threads ==>
      && Step(s, a).threads[a.t].path == s.threads[a.t].path
      && Step(s, a).threads[a.t].game == s.threads[a.t].game && Step(s, a).threads[a.t].gen == s.threads[a.t].gen
  {
    hide Hashes, Changed, Delivered, PreviousHashes, Held;
  }

  lemma LocalThreadOk(s: System, a: Action, owner: map<Identity, string>, strict: bool)
    requires Synced(s, owner, strict) && Enabled(s, a) && Disciplined(s, a, owner, strict) && Local(a)
    ensures a.t in Step(s, a).threads ==> ThreadOk(Step(s, a).threads[a.t], Step(s, a).receiver, owner, strict)
  {
    hide Covers, Holds, Hashes, Changed, Delivered, Fresh, Completes, PreviousHashes, Held, EntryOk, SameBirth;
    if a.t in s.threads {
      assert ThreadOk(s.threads[a.t], s.receiver, owner, strict);
    }
    if a.Filter? {
      FilteredThreadOk(s, a.t, owner, strict);
    }
  }

  /** The thread an action moves on, if it neither sends nor stores. */
  lemma LocalKeepsSynced(s: System, a: Action, owner: map<Identity, string>, strict: bool)
    requires Synced(s, owner, strict) && Enabled(s, a) && Disciplined(s, a, owner, strict) && Local(a)
    ensures Synced(Step(s, a), owner, strict)
  {
    StepKeepsFresh(s, a);
    LocalIsQuiet(s, a);
    LocalThreadOk(s, a, owner, strict);
    if a.t in s.threads {
      assert SameBirth(s, s.threads[a.t]);
      assert a.t in Step(s, a).threads ==> SameBirth(Step(s, a), Step(s, a).threads[a.t]);
    } else {
      assert a.Start?;
      StartIsFresh(s, a);
      StartPath(s, a);
    }
    hide Step, ThreadOk, EntryOk, Fresh, SameBirth;
    QuietKeepsSynced(s, Step(s, a), a.t, owner, strict);
  }

  lemma StartPath(s: System, a: Action)
    requires a.Start? && Enabled(s, a)
    ensures a.t in Step(s, a).threads && Step(s, a).threads[a.t].path == a.path
  {
  }

  lemma StartIsFresh(s: System, a: Action)
    requires a.Start? && Enabled(s, a) && Fresh(s.daemon)
    ensures SameBirth(Step(s, a), Step(s, a).threads[a.t])
  {
  }

  lemma FilteredThreadOk(s: System, t: nat, owner: map<Identity, string>, strict: bool)
    requires Synced(s, owner, strict) && Enabled(s, Filter(t))
    ensures
      var s' := Step(s, Filter(t));
      t in s'.threads ==> ThreadOk(s'.threads[t], s'.receiver, owner, strict)
  {
    hide Covers, Holds, Hashes, Delivered, Fresh, Completes;
    var th := s.threads[t];
    assert ThreadOk(th, s.receiver, owner, strict);
    PreviousCovered(s, t, owner, strict);
    FilterCompletes(PreviousHashes(s.daemon, th.game, th.path, th.phase.parse.saveName), th.phase.parse.sections,
                    Held(s.receiver, (th.game, th.phase.parse.saveName)));
  }

  lemma StepKeepsSynced(s: System, a: Action, owner: map<Identity, string>, strict: bool)
    requires Synced(s, owner, strict) && Enabled(s, a) && Disciplined(s, a, owner, strict)
    ensures Synced(Step(s, a), owner, strict)
  {
    StepKeepsFresh(s, a);
    hide Fresh, ThreadOk, SameBirth, EntryOk, Disciplined;
    match a
    case Deliver(t) => DeliverKeepsSynced(s, t, owner, strict);
    case Store(t) => StoreKeepsSynced(s, t, owner, strict);
    case ChangePlugin(_) => ShrinkKeepsSynced(s, Step(s, a), owner, strict);
    case Evict(_) => ShrinkKeepsSynced(s, Step(s, a), owner, strict);
    case RemoveFile(_) => ShrinkKeepsSynced(s, Step(s, a), owner, strict);
    case _ => LocalKeepsSynced(s, a, owner, strict);
  }

  /** A run in which every action keeps to the discipline. */
  ghost predicate DisciplinedRun(s: System, actions: seq<Action>, to: System, owner: map<Identity, string>, strict: bool)
    decreases |actions|
  {
    if actions == [] then s == to
    else
      && Enabled(s, actions[0]) && Disciplined(s, actions[0], owner, strict)
      && DisciplinedRun(Step(s, actions[0]), actions[1..], to, owner, strict)
  }

  /** Over every disciplined run the cache keeps agreeing with the receiver. */
  lemma {:induction false} RunKeepsSynced(s: System, actions: seq<Action>, to: System, owner: map<Identity, string>, strict: bool)
    requires Synced(s, owner, strict) && DisciplinedRun(s, actions, to, owner, strict)
    ensures Synced(to, owner, strict)
    decreases |actions|
  {
    hide Step, Enabled, Synced, Disciplined;
    if actions != [] {
      StepKeepsSynced(s, actions[0], owner, strict);
      RunKeepsSynced(Step(s, actions[0]), actions[1..], to, owner, strict);
    }
  }

  const STARTED := System(State(map[], map[], map[], map[]), map[], map[])

  /** With no push half recorded, every entry is exactly what the receiver holds
      for its save when all sections can be encoded, and never more than that. */
  lemma CacheAgrees(actions: seq<Action>, to: System, owner: map<Identity, string>, strict: bool, path: string)
    requires DisciplinedRun(STARTED, actions, to, owner, strict)
    requires path in to.daemon.cache
    requires forall t :: t in to.threads ==> !Replacing(to.threads[t], path, to.daemon.cache[path])
    ensures
      var c := to.daemon.cache[path];
      Covers(strict, c.hashes, Held(to.receiver, (c.game, c.saveName)))
  {
    hide Step, Enabled, Disciplined;
    RunKeepsSynced(STARTED, actions, to, owner, strict);
    assert EntryOk(to, path, owner, strict);
  }

  /** When some section cannot be encoded, the recorded hashes are still the
      receiver's exactly if it holds no old copy of such a section. */
  lemma ExactUnlessStuck(sections: Sections, changed: map<string, string>, held: map<string, string>)
    requires Completes(sections, changed, held)
    ensures Covers(true, Hashes(sections), Delivered(held, changed, sections.Keys))
      <==> forall n :: n in sections && !sections[n].marshals ==> n !in held
  {
    var after := Delivered(held, changed, sections.Keys);
    DeliveryHolds(sections, changed, held);
    if Covers(true, Hashes(sections), after) {
      forall n | n in sections && !sections[n].marshals
        ensures n !in held
      {
        assert n !in Hashes(sections);
        assert n !in after;
      }
    }
  }

  // ---- Why the discipline is needed ----

  lemma {:induction false} RunsOn(s: System, first: seq<Action>, mid: System, second: seq<Action>, to: System)
    requires Runs(s, first, mid) && Runs(mid, second, to)
    ensures Runs(s, first + second, to)
    decreases |first|
  {
    hide Step, Enabled;
    if first == [] {
      assert first + second == second;
    } else {
      RunsOn(Step(s, first[0]), first[1..], mid, second, to);
      assert (first + second)[1..] == first[1..] + second;
    }
  }

  lemma RunsMore(s: System, actions: seq<Action>, mid: System, a: Action)
    requires Runs(s, actions, mid) && Enabled(mid, a)
    ensures Runs(s, actions + [a], Step(mid, a))
  {
    hide Step, Enabled;
    assert Runs(Step(mid, a), [a][1..], Step(mid, a));
    RunsOn(s, actions, mid, [a], Step(mid, a));
  }

  /** From any state a new parse can come to the point of sending, if it names its save
      and has something to push. */
  lemma BecomesReady(s: System, t: nat, game: string, path: string, parse: Parse) returns (actions: seq<Action>, to: System)
    requires t !in s.threads && parse.saveName != ""
    requires Changed(PreviousHashes(s.daemon, game, path, parse.saveName), parse.sections) != map[]
    ensures Runs(s, actions, to)
    ensures
      var gen := Generation(s.daemon, game);
      var changed := Changed(PreviousHashes(s.daemon, game, path, parse.saveName), parse.sections);
      && to.daemon == Named(ParseSucceeded(s.daemon, game, path, gen), path, parse.saveName)
      && to.receiver == s.receiver
      && to.threads == s.threads[t := Thread(game, path, gen, Ready(parse, changed))]
  {
    hide Runs, Changed, PreviousHashes, Named, ParseSucceeded;
    var gen := Generation(s.daemon, game);
    var changed := Changed(PreviousHashes(s.daemon, game, path, parse.saveName), parse.sections);
    SameGenerations(s.daemon, game, path, gen, parse.saveName);
    var d := Named(ParseSucceeded(s.daemon, game, path, gen), path, parse.saveName);
    RunsNothing(s);
    RunsMore(s, [], s, Start(t, game, path));
    var s1 := Step(s, Start(t, game, path));
    RunsMore(s, [] + [Start(t, game, path)], s1, Succeed(t, parse));
    var s2 := Step(s1, Succeed(t, parse));
    actions := [] + [Start(t, game, path)] + [Succeed(t, parse)];
    RunsMore(s, actions, s2, Identify(t));
    actions, to := actions + [Identify(t)], Step(s2, Identify(t));
    to, actions := IdentifiedBecomesReady(s, actions, to, t, d, parse, changed);
  }

  lemma IdentifiedBecomesReady(s: System, before: seq<Action>, mid: System, t: nat, d: State, parse: Parse, changed: map<string, string>)
    returns (to: System, actions: seq<Action>)
    requires Runs(s, before, mid) && t in mid.threads && mid.threads[t].phase == Identified(parse) && mid.daemon == d
    requires Generation(d, mid.threads[t].game) == mid.threads[t].gen
    requires changed == Changed(PreviousHashes(d, mid.threads[t].game, mid.threads[t].path, parse.saveName), parse.sections) != map[]
    ensures Runs(s, actions, to)
    ensures to == mid.(threads := mid.threads[t := mid.threads[t].(phase := Ready(parse, changed))])
  {
    hide Runs, Changed, PreviousHashes;
    RunsMore(s, before, mid, CheckGeneration(t));
    var s1 := Step(mid, CheckGeneration(t));
    actions := before + [CheckGeneration(t)];
    RunsMore(s, actions, s1, Filter(t));
    var s2 := Step(s1, Filter(t));
    actions := actions + [Filter(t)];
    RunsMore(s, actions, s2, Recheck(t));
    to := Step(s2, Recheck(t));
    actions := actions + [Recheck(t)];
  }

  lemma RunsNothing(s: System)
    ensures Runs(s, [], s)
  {
  }

  /** Neither success nor a name touches generations or the push cache. */
  lemma SameGenerations(d: State, game: string, path: string, gen: nat, saveName: string)
    ensures
      var d' := Named(ParseSucceeded(d, game, path, gen), path, saveName);
      && d'.generations == d.generations && d'.cache == d.cache
      && PreviousHashes(d', game, path, saveName) == PreviousHashes(d, game, path, saveName)
      && ParseSucceeded(d, game, path, gen).generations == d.generations
  {
  }

  /** Two parses of one file, both about to send to the same save. */
  ghost predicate Overlapping(s: System, t: nat, u: nat) {
    && t != u && t in s.threads && u in s.threads
    && s.threads[t].phase.Ready? && s.threads[u].phase.Ready?
    && var a, b := s.threads[t], s.threads[u];
       && a.game == b.game && a.path == b.path && a.phase.parse.saveName == b.phase.parse.saveName
       && Generation(s.daemon, a.game) == a.gen == b.gen
       && Completes(a.phase.parse.sections, a.phase.changed, Held(s.receiver, (a.game, a.phase.parse.saveName)))
  }

  /** Delivering `parse` after the sections of another left each of those in place. */
  ghost predicate LeavesInPlace(sections: Sections, parse: Parse, changed: map<string, string>) {
    forall n :: n in sections && sections[n].marshals ==>
      n in parse.sections && (n in changed ==> changed[n] == sections[n].payload)
  }

  function OppositeOrder(t: nat, u: nat): seq<Action> {
    [Deliver(t), Deliver(u), Store(u), Store(t)]
  }

  /** Recorded in the opposite order to their delivery, overlapping pushes leave a cache
      entry that the receiver does not cover, exactly unless the later delivery
      neither dropped nor changed a section of the earlier one. */
  lemma OverlapDisagrees(s: System, t: nat, u: nat) returns (to: System)
    requires Overlapping(s, t, u)
    ensures Runs(s, OppositeOrder(t, u), to)
    ensures to.threads == s.threads - {t, u}
    ensures
      var a, b := s.threads[t], s.threads[u];
      && a.path in to.daemon.cache && to.daemon.cache[a.path].game == a.game
      && to.daemon.cache[a.path].saveName == a.phase.parse.saveName
      && (Covers(false, to.daemon.cache[a.path].hashes, Held(to.receiver, (a.game, a.phase.parse.saveName)))
          <==> LeavesInPlace(a.phase.parse.sections, b.phase.parse, b.phase.changed))
  {
    hide Runs, Completes, Covers, LeavesInPlace, Delivered, Hashes, Changed, PreviousHashes;
    var a, b := s.threads[t], s.threads[u];
    RunsNothing(s);
    RunsMore(s, [], s, Deliver(t));
    var s1 := Step(s, Deliver(t));
    RunsMore(s, [] + [Deliver(t)], s1, Deliver(u));
    var s2 := Step(s1, Deliver(u));
    RunsMore(s, [] + [Deliver(t)] + [Deliver(u)], s2, Store(u));
    var s3 := Step(s2, Store(u));
    RunsMore(s, [] + [Deliver(t)] + [Deliver(u)] + [Store(u)], s3, Store(t));
    to := Step(s3, Store(t));
    assert [] + [Deliver(t)] + [Deliver(u)] + [Store(u)] + [Store(t)] == OppositeOrder(t, u);
    assert to.threads == s.threads - {t, u};
    LaterDeliveryCovers(a.phase.parse.sections, a.phase.changed, Held(s.receiver, (a.game, a.phase.parse.saveName)),
                        b.phase.parse, b.phase.changed);
  }

  lemma LaterDeliveryCovers(sections: Sections, changed: map<string, string>, held: map<string, string>,
                            later: Parse, laterChanged: map<string, string>)
    requires Completes(sections, changed, held)
    ensures
      var after := Delivered(Delivered(held, changed, sections.Keys), laterChanged, later.sections.Keys);
      Covers(false, Hashes(sections), after) <==> LeavesInPlace(sections, later, laterChanged)
  {
    var first := Delivered(held, changed, sections.Keys);
    var after := Delivered(first, laterChanged, later.sections.Keys);
    DeliveryHolds(sections, changed, held);
    forall n | n in sections && sections[n].marshals
      ensures (n in after && after[n] == sections[n].payload)
        <==> n in later.sections && (n in laterChanged ==> laterChanged[n] == sections[n].payload)
      ensures n in Hashes(sections) && Hashes(sections)[n] == Sha256(n, sections[n].payload)
    {
      assert n in first && first[n] == sections[n].payload;
    }
  }

  function OneSection(saveName: string, n: string, payload: string): Parse {
    Parse(saveName, map[n := Section(payload, true)])
  }

  /** It does happen: two overlapping parses that see different content end with the
      cache vouching for what the receiver lost. */
  lemma OverlapHappens(game: string, path: string, saveName: string, n: string, v: string, w: string)
    returns (actions: seq<Action>, to: System)
    requires saveName != "" && v != w
    ensures Runs(STARTED, actions, to) && to.threads == map[]
    ensures path in to.daemon.cache
    ensures
      var c := to.daemon.cache[path];
      !Covers(false, c.hashes, Held(to.receiver, (c.game, c.saveName)))
  {
    hide Runs, Step, Enabled, Covers, Hashes;
    var p, q := OneSection(saveName, n, v), OneSection(saveName, n, w);
    FreshChanges(STARTED.daemon, game, path, p, n);
    var a1, s1 := BecomesReady(STARTED, 0, game, path, p);
    SameGenerations(STARTED.daemon, game, path, 0, saveName);
    FreshChanges(s1.daemon, game, path, q, n);
    var a2, s2 := BecomesReady(s1, 1, game, path, q);
    SameGenerations(s1.daemon, game, path, 0, saveName);
    RunsOn(STARTED, a1, s1, a2, s2);
    to := OverlapDisagrees(s2, 0, 1);
    RunsOn(STARTED, a1 + a2, s2, OppositeOrder(0, 1), to);
    actions := a1 + a2 + OppositeOrder(0, 1);
  }

  /** Without an entry every section is to be pushed. */
  lemma FreshChanges(d: State, game: string, path: string, parse: Parse, n: string)
    requires path !in d.cache && n in parse.sections && parse.sections[n].marshals
    ensures
      var changed := Changed(PreviousHashes(d, game, path, parse.saveName), parse.sections);
      && n in changed && changed[n] == parse.sections[n].payload
      && (forall held: map<string, string> :: Completes(parse.sections, changed, held))
  {
  }

  /** Two files parsed to one identity: delivering one leaves the other's entry covered
      exactly unless it drops or changes one of its sections. */
  lemma SharedIdentityDisagrees(s: System, t: nat, path: string)
    requires InPhase(s, t, (p: Phase) => p.Ready?) && path in s.daemon.cache && s.threads[t].path != path
    requires
      var th, c := s.threads[t], s.daemon.cache[path];
      && c.game == th.game && c.saveName == th.phase.parse.saveName
      && Covers(false, c.hashes, Held(s.receiver, (c.game, c.saveName)))
    ensures
      var s' := Step(s, Deliver(t));
      var th, c := s.threads[t], s.daemon.cache[path];
      && s'.daemon.cache == s.daemon.cache
      && (Covers(false, c.hashes, Held(s'.receiver, (c.game, c.saveName)))
          <==> forall n :: n in c.hashes ==>
                 n in th.phase.parse.sections && (n in th.phase.changed ==> c.hashes[n] == Sha256(n, th.phase.changed[n])))
  {
    var th, c := s.threads[t], s.daemon.cache[path];
    var held := Held(s.receiver, (c.game, c.saveName));
    var held' := Held(Step(s, Deliver(t)).receiver, (c.game, c.saveName));
    forall n | n in c.hashes
      ensures (n in held' && c.hashes[n] == Sha256(n, held'[n]))
        <==> n in th.phase.parse.sections && (n in th.phase.changed ==> c.hashes[n] == Sha256(n, th.phase.changed[n]))
    {
      assert n in held && c.hashes[n] == Sha256(n, held[n]);
    }
  }

  /** That happens too: two files, parsed one after the other to the same save. */
  lemma SharedIdentityHappens(game: string, path: string, other: string, saveName: string, n: string, v: string, w: string)
    returns (actions: seq<Action>, to: System)
    requires saveName != "" && v != w && path != other
    ensures Runs(STARTED, actions, to) && to.threads == map[]
    ensures path in to.daemon.cache
    ensures
      var c := to.daemon.cache[path];
      !Covers(false, c.hashes, Held(to.receiver, (c.game, c.saveName)))
  {
    hide Runs, Covers, Hashes, Changed, PreviousHashes, Delivered;
    var p, q := OneSection(saveName, n, v), OneSection(saveName, n, w);
    var s1;
    actions, s1 := PushesAlone(STARTED, game, path, p, n);
    var rest;
    rest, to := PushesAlone(s1, game, other, q, n);
    RunsOn(STARTED, actions, s1, rest, to);
    actions := actions + rest;
    OneSectionHeld(saveName, n, v);
    OneSectionHeld(saveName, n, w);
    LostSection(n, v, w);
  }

  /** A first push of a file, with nothing else going on. */
  lemma PushesAlone(s: System, game: string, path: string, parse: Parse, n: string) returns (actions: seq<Action>, to: System)
    requires s.threads == map[] && parse.saveName != "" && path !in s.daemon.cache
    requires n in parse.sections && parse.sections[n].marshals
    ensures Runs(s, actions, to) && to.threads == map[]
    ensures
      var changed := Changed(map[], parse.sections);
      var id := (game, parse.saveName);
      && to.receiver == s.receiver[id := Delivered(Held(s.receiver, id), changed, parse.sections.Keys)]
      && to.daemon.cache == s.daemon.cache[path := Cached(game, parse.saveName, Hashes(parse.sections), Generation(s.daemon, game))]
  {
    hide Runs, Changed, Delivered, Hashes;
    AllChanged(s.daemon, game, path, parse, n);
    var s1;
    actions, s1 := BecomesReady(s, 0, game, path, parse);
    SameGenerations(s.daemon, game, path, Generation(s.daemon, game), parse.saveName);
    RunsMore(s, actions, s1, Deliver(0));
    var s2 := Step(s1, Deliver(0));
    actions := actions + [Deliver(0)];
    RunsMore(s, actions, s2, Store(0));
    to := Step(s2, Store(0));
    actions := actions + [Store(0)];
  }

  lemma AllChanged(d: State, game: string, path: string, parse: Parse, n: string)
    requires path !in d.cache && n in parse.sections && parse.sections[n].marshals
    ensures Changed(PreviousHashes(d, game, path, parse.saveName), parse.sections) == Changed(map[], parse.sections)
    ensures Changed(map[], parse.sections) != map[]
  {
    assert n in Changed(map[], parse.sections);
  }

  lemma OneSectionHeld(saveName: string, n: string, v: string)
    ensures Hashes(OneSection(saveName, n, v).sections) == map[n := Sha256(n, v)]
    ensures forall held: map<string, string> ::
              Delivered(held, Changed(map[], OneSection(saveName, n, v).sections), OneSection(saveName, n, v).sections.Keys) == map[n := v]
  {
  }

  lemma LostSection(n: string, v: string, w: string)
    requires v != w
    ensures !Covers(false, map[n := Sha256(n, v)], map[n := w])
  {
    assert n in map[n := Sha256(n, v)];
  }

  // ---- One parse after another ----

  /** What a push did: the new state, and what was delivered if anything was. */
  datatype Push = Push(saveName: string, changed: map<string, string>, names: set<string>)

  function PushOutcome(s: State, game: string, path: string, gen: nat, parse: Parse, delivered: bool): (State, Option<Push>) {
    var changed := Changed(PreviousHashes(s, game, path, parse.saveName), parse.sections);
    if Generation(s, game) != gen || changed == map[] || !delivered then (s, None)
    else
      (Pushed(s, game, path, gen, parse.saveName, Hashes(parse.sections)),
       Some(Push(parse.saveName, changed, parse.sections.Keys)))
  }

  /** A whole parse that succeeded, undisturbed. */
  function ParseOutcome(s: State, game: string, path: string, parse: Parse, delivered: bool): (State, Option<Push>) {
    var gen := Generation(s, game);
    var s1 := ParseSucceeded(s, game, path, gen);
    var name := ResolvedName(s1, path, parse.saveName);
    PushOutcome(Named(s1, path, parse.saveName), game, path, gen, parse.(saveName := name), delivered)
  }

  function Received(receiver: map<Identity, map<string, string>>, game: string, push: Option<Push>)
    : map<Identity, map<string, string>>
  {
    match push
    case None => receiver
    case Some(p) => receiver[(game, p.saveName) := Delivered(Held(receiver, (game, p.saveName)), p.changed, p.names)]
  }

  function Alone(s: State, receiver: map<Identity, map<string, string>>): System {
    System(s, receiver, map[])
  }

  function ThreadAt(s: State, receiver: map<Identity, map<string, string>>, th: Thread): System {
    System(s, receiver, map[0 := th])
  }

  /** An undisturbed parse keeps the cache and the receiver in agreement and, unless
      its push fails, leaves every section it could encode with the receiver. */
  lemma ParseKeepsAgreement(s: State, receiver: map<Identity, map<string, string>>, game: string, path: string,
                            parse: Parse, delivered: bool, owner: map<Identity, string>, strict: bool)
    requires Synced(Alone(s, receiver), owner, strict)
    requires strict ==> AllMarshal(parse.sections)
    requires Owns(owner, game, ResolvedName(s, path, parse.saveName), path)
    ensures
      var (s', push) := ParseOutcome(s, game, path, parse, delivered);
      && Synced(Alone(s', Received(receiver, game, push)), owner, strict)
      && (delivered ==>
            Holds(parse.sections, Held(Received(receiver, game, push), (game, ResolvedName(s, path, parse.saveName)))))
  {
    hide Synced, Hashes, Changed, Delivered, Holds, PreviousHashes, Held, Step, Enabled, Disciplined, Received, PushOutcome;
    var gen := Generation(s, game);
    var s1 := ParseSucceeded(s, game, path, gen);
    BeginParse(s, receiver, game, path, parse, owner, strict);
    IdentifyParse(s1, receiver, game, path, gen, parse, owner, strict);
    FinishPush(Named(s1, path, parse.saveName), receiver, game, path, gen,
               parse.(saveName := ResolvedName(s1, path, parse.saveName)), delivered, owner, strict);
  }

  lemma BeginParse(s: State, receiver: map<Identity, map<string, string>>, game: string, path: string, parse: Parse,
                   owner: map<Identity, string>, strict: bool)
    requires Synced(Alone(s, receiver), owner, strict)
    requires strict ==> AllMarshal(parse.sections)
    ensures
      var gen := Generation(s, game);
      var s1 := ParseSucceeded(s, game, path, gen);
      && Synced(ThreadAt(s1, receiver, Thread(game, path, gen, Succeeded(parse))), owner, strict)
  {
    hide Synced, Hashes, Changed, Delivered, PreviousHashes, Held;
    var gen := Generation(s, game);
    var y0, y1 := Alone(s, receiver), ThreadAt(s, receiver, Thread(game, path, gen, Running));
    assert Step(y0, Start(0, game, path)) == y1;
    StepKeepsSynced(y0, Start(0, game, path), owner, strict);
    var y2 := ThreadAt(ParseSucceeded(s, game, path, gen), receiver, Thread(game, path, gen, Succeeded(parse)));
    assert Step(y1, Succeed(0, parse)) == y2;
    StepKeepsSynced(y1, Succeed(0, parse), owner, strict);
  }

  lemma IdentifyParse(s: State, receiver: map<Identity, map<string, string>>, game: string, path: string, gen: nat,
                      parse: Parse, owner: map<Identity, string>, strict: bool)
    requires Synced(ThreadAt(s, receiver, Thread(game, path, gen, Succeeded(parse))), owner, strict)
    requires Generation(s, game) == gen && Owns(owner, game, ResolvedName(s, path, parse.saveName), path)
    ensures
      var named := parse.(saveName := ResolvedName(s, path, parse.saveName));
      Synced(ThreadAt(Named(s, path, parse.saveName), receiver, Thread(game, path, gen, Current(named))), owner, strict)
  {
    hide Synced, Hashes, Changed, Delivered, PreviousHashes, Held;
    var named := parse.(saveName := ResolvedName(s, path, parse.saveName));
    var y2 := ThreadAt(s, receiver, Thread(game, path, gen, Succeeded(parse)));
    var y3 := ThreadAt(Named(s, path, parse.saveName), receiver, Thread(game, path, gen, Identified(named)));
    assert Step(y2, Identify(0)) == y3;
    StepKeepsSynced(y2, Identify(0), owner, strict);
    var y4 := ThreadAt(Named(s, path, parse.saveName), receiver, Thread(game, path, gen, Current(named)));
    assert Step(y3, CheckGeneration(0)) == y4;
    StepKeepsSynced(y3, CheckGeneration(0), owner, strict);
  }

  lemma FinishPush(s: State, receiver: map<Identity, map<string, string>>, game: string, path: string, gen: nat,
                   parse: Parse, delivered: bool, owner: map<Identity, string>, strict: bool)
    requires Synced(ThreadAt(s, receiver, Thread(game, path, gen, Current(parse))), owner, strict)
    requires Generation(s, game) == gen
    ensures
      var (s', push) := PushOutcome(s, game, path, gen, parse, delivered);
      && Synced(Alone(s', Received(receiver, game, push)), owner, strict)
      && (delivered ==> Holds(parse.sections, Held(Received(receiver, game, push), (game, parse.saveName))))
  {
    hide Synced, Hashes, Changed, Delivered, Holds, PreviousHashes, Held;
    var changed := Changed(PreviousHashes(s, game, path, parse.saveName), parse.sections);
    var y4 := ThreadAt(s, receiver, Thread(game, path, gen, Current(parse)));
    StepKeepsSynced(y4, Filter(0), owner, strict);
    if changed == map[] {
      assert Step(y4, Filter(0)) == Alone(s, receiver);
      ReceiverHoldsParse(y4, Filter(0), owner, strict);
    } else {
      assert Step(y4, Filter(0)) == ThreadAt(s, receiver, Thread(game, path, gen, Filtered(parse, changed)));
      SendFiltered(s, receiver, game, path, gen, parse, changed, delivered, owner, strict);
    }
  }

  lemma SendFiltered(s: State, receiver: map<Identity, map<string, string>>, game: string, path: string, gen: nat,
                     parse: Parse, changed: map<string, string>, delivered: bool, owner: map<Identity, string>, strict: bool)
    requires Synced(ThreadAt(s, receiver, Thread(game, path, gen, Filtered(parse, changed))), owner, strict)
    requires Generation(s, game) == gen
    ensures !delivered ==> Synced(Alone(s, receiver), owner, strict)
    ensures delivered ==>
      var s' := Pushed(s, game, path, gen, parse.saveName, Hashes(parse.sections));
      var after := Received(receiver, game, Some(Push(parse.saveName, changed, parse.sections.Keys)));
      Synced(Alone(s', after), owner, strict) && Holds(parse.sections, Held(after, (game, parse.saveName)))
  {
    hide Synced, Hashes, Changed, Delivered, Holds, PreviousHashes, Held, Received;
    var y5 := ThreadAt(s, receiver, Thread(game, path, gen, Filtered(parse, changed)));
    if !delivered {
      assert Step(y5, Abandon(0)) == Alone(s, receiver);
      StepKeepsSynced(y5, Abandon(0), owner, strict);
    } else {
      assert Step(y5, Recheck(0)) == ThreadAt(s, receiver, Thread(game, path, gen, Ready(parse, changed)));
      StepKeepsSynced(y5, Recheck(0), owner, strict);
      DeliverAndStore(s, receiver, game, path, gen, parse, changed, owner, strict);
    }
  }

  lemma DeliverAndStore(s: State, receiver: map<Identity, map<string, string>>, game: string, path: string, gen: nat,
                        parse: Parse, changed: map<string, string>, owner: map<Identity, string>, strict: bool)
    requires Synced(ThreadAt(s, receiver, Thread(game, path, gen, Ready(parse, changed))), owner, strict)
    requires Generation(s, game) == gen
    ensures
      var s' := Pushed(s, game, path, gen, parse.saveName, Hashes(parse.sections));
      var after := Received(receiver, game, Some(Push(parse.saveName, changed, parse.sections.Keys)));
      Synced(Alone(s', after), owner, strict) && Holds(parse.sections, Held(after, (game, parse.saveName)))
  {
    hide Synced, Hashes, Changed, Delivered, Holds, PreviousHashes, Held;
    var after := Received(receiver, game, Some(Push(parse.saveName, changed, parse.sections.Keys)));
    var y6 := ThreadAt(s, receiver, Thread(game, path, gen, Ready(parse, changed)));
    var y7 := ThreadAt(s, after, Thread(game, path, gen, Sent(parse)));
    assert Step(y6, Deliver(0)) == y7;
    StepKeepsSynced(y6, Deliver(0), owner, strict);
    ReceiverHoldsParse(y6, Deliver(0), owner, strict);
    assert Step(y7, Store(0)) == Alone(Pushed(s, game, path, gen, parse.saveName, Hashes(parse.sections)), after);
    StepKeepsSynced(y7, Store(0), owner, strict);
  }

  /** A parse that failed: the failure is reported once per generation and content. */
  function FailureOutcome(s: State, path: string, gen: nat, failure: Failure, delivered: bool): (State, bool) {
    if Generation(s, failure.game) != gen || AlreadyReported(s, path, failure) || !delivered then (s, false)
    else (FailureSent(s, path, gen, failure), true)
  }
}
