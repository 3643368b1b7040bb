/** The watcher over its maps of timers. The runtime's timers and the goroutines
    they start are lists, addressed by position. */
module Watchers {
  import opened Common
  import opened Quiescence

  datatype FileOp = FileCreate | FileModify | FileRemove

  datatype FileEvent = FileEvent(path: Path, op: FileOp, data: Option<seq<nat>>)

  /** A content hash no two different contents share. */
  datatype ContentHash = Sha256Of(data: seq<nat>)

  class FSWatcher {
    var hashes: map<Path, ContentHash>
    var pending: map<Path, FileOp>
    var timers: map<Path, nat>
    var fileTimers: seq<FileTimer>
    var fileFirings: seq<FileFiring>
    var dirUnitRootOf: map<Path, Path> // by member, as its parent directory decides
    var dirUnitTimers: map<Path, nat>
    var rootTimers: seq<RootTimer>
    var rootFirings: seq<RootFiring>
    var dirUnitGenerations: map<Path, nat>
    var events: seq<Path>
    ghost var unhanded: set<Path>
    ghost var uncovered: set<Path>

    ghost function View(): State
      reads this
    {
      State(dirUnitRootOf, timers, fileTimers, fileFirings, dirUnitTimers, rootTimers, rootFirings,
            dirUnitGenerations, events, unhanded, uncovered)
    }

    ghost predicate Valid()
      reads this
    {
      Ok(View())
    }

    constructor (rootOf: map<Path, Path>)
      ensures Valid() && View() == Initial(rootOf) && hashes == map[] && pending == map[]
    {
      hashes, pending, timers, fileTimers, fileFirings := map[], map[], map[], [], [];
      dirUnitRootOf, dirUnitTimers, rootTimers, rootFirings := rootOf, map[], [], [];
      dirUnitGenerations, events, unhanded, uncovered := map[], [], {}, {};
    }

    /** (Re)starts the file's debounce timer, remembering the first op of the window. */
    method ScheduleFileDebounce(path: Path, op: FileOp)
      requires Valid() && path in dirUnitRootOf
      modifies `pending, `timers, `fileTimers, `unhanded
      ensures Valid() && View() == Step(old(View()), Change(path))
      ensures pending == if path in old(pending) then old(pending) else old(pending)[path := op]
    {
      StepKeepsOk(View(), Change(path));
      KnownTimer(View(), path);
      hide Ok, ScheduleFile;
      if path !in pending {
        pending := pending[path := op];
      }
      RestartFileTimer(path);
    }

    method RestartFileTimer(path: Path)
      requires path in timers ==> timers[path] < |fileTimers|
      modifies `timers, `fileTimers, `unhanded
      ensures View() == ScheduleFile(old(View()), path)
    {
      if path in timers {
        fileTimers := fileTimers[timers[path] := FileTimer(path, true)];
      } else {
        timers := timers[path := |fileTimers|];
        fileTimers := fileTimers + [FileTimer(path, true)];
      }
      unhanded := unhanded + {path};
    }

    /** The first half of a file's firing; for a member, its root is scheduled next. */
    method FireDebounced(j: nat)
      requires Valid() && Enabled(View(), FireFile(j))
      modifies `pending, `timers, `fileFirings
      ensures Valid() && View() == Step(old(View()), FireFile(j))
    {
      StepKeepsOk(View(), FireFile(j));
      hide Ok;
      var path := fileFirings[j].path;
      timers := timers - {path};
      pending := pending - {path};
      fileFirings := fileFirings[j := FileFiring(path, Deferred)];
    }

    /** A member's change is deferred through its root's quiescence window. */
    method EmitChange(j: nat)
      requires Valid() && Enabled(View(), HandOff(j))
      modifies `fileFirings, `unhanded, `dirUnitTimers, `rootTimers, `dirUnitGenerations, `uncovered
      ensures Valid() && View() == Step(old(View()), HandOff(j))
    {
      StepKeepsOk(View(), HandOff(j));
      hide Ok, ScheduleRoot;
      var path := fileFirings[j].path;
      fileFirings := fileFirings[j := FileFiring(path, FileDone)];
      unhanded := unhanded - {path};
      ScheduleDirectoryUnitEvent(dirUnitRootOf[path]);
    }

    method HandleRemove(path: Path)
      requires Valid() && path in dirUnitRootOf
      modifies this
      ensures Valid()
      ensures
        var removed := Step(old(View()), Remove(path));
        Enabled(removed, HandOff(|old(fileFirings)|)) && View() == Step(removed, HandOff(|old(fileFirings)|))
      ensures path !in hashes
    {
      StepKeepsOk(View(), Remove(path));
      KnownTimer(View(), path);
      RemovedFires(View(), path);
      hide Ok, ScheduleRoot, RemoveFile;
      hashes := hashes - {path};
      StopFileTimer(path);
      EmitChange(|fileFirings| - 1);
    }

    /** The locked half of a removal; the goroutine goes on to the root. */
    method StopFileTimer(path: Path)
      requires path in timers ==> timers[path] < |fileTimers|
      modifies `pending, `timers, `fileTimers, `fileFirings, `unhanded
      ensures View() == RemoveFile(old(View()), path) && |fileFirings| == |old(fileFirings)| + 1
    {
      if path in timers {
        fileTimers := fileTimers[timers[path] := FileTimer(path, false)];
        timers := timers - {path};
        pending := pending - {path};
      }
      fileFirings := fileFirings + [FileFiring(path, Deferred)];
      unhanded := unhanded + {path};
    }

    /** Resets the root's timer, or supersedes it when it has already expired. */
    method ScheduleDirectoryUnitEvent(root: Path)
      modifies `dirUnitTimers, `rootTimers, `dirUnitGenerations, `uncovered
      ensures View() == ScheduleRoot(old(View()), root)
    {
      uncovered := uncovered + {root};
      if root in dirUnitTimers && dirUnitTimers[root] < |rootTimers| {
        var stopped := rootTimers[dirUnitTimers[root]].state == Armed;
        if stopped {
          return;
        }
      }
      var gen := (if root in dirUnitGenerations then dirUnitGenerations[root] else 0) + 1;
      dirUnitGenerations := dirUnitGenerations[root := gen];
      dirUnitTimers := dirUnitTimers[root := |rootTimers|];
      rootTimers := rootTimers + [RootTimer(root, gen, Armed)];
    }

    /** The locked half of a root's firing: commit, unless superseded. */
    method FireDirectoryUnitEvent(j: nat) returns (committed: bool)
      requires Valid() && Enabled(View(), FireRoot(j))
      modifies `dirUnitTimers, `rootFirings, `uncovered
      ensures Valid() && View() == Step(old(View()), FireRoot(j))
      ensures committed <==> rootFirings[j].phase == Committed
    {
      StepKeepsOk(View(), FireRoot(j));
      hide Ok;
      var f := rootFirings[j];
      var gen := if f.root in dirUnitGenerations then dirUnitGenerations[f.root] else 0;
      if gen != f.gen {
        rootFirings := rootFirings[j := f.(phase := Over)];
        return false;
      }
      dirUnitTimers := dirUnitTimers - {f.root};
      uncovered := uncovered - {f.root};
      rootFirings := rootFirings[j := f.(phase := Committed)];
      committed := true;
    }

    /** The other half: the event itself, sent after the lock is released. */
    method SendDirectoryUnitEvent(j: nat)
      requires Valid() && Enabled(View(), Emit(j))
      modifies `rootFirings, `events
      ensures Valid() && View() == Step(old(View()), Emit(j))
    {
      StepKeepsOk(View(), Emit(j));
      hide Ok;
      var f := rootFirings[j];
      rootFirings := rootFirings[j := f.(phase := Over)];
      events := events + [f.root];
    }

    /** The first locked section of a firing outside every directory unit: the window's
        operation, and the hash of what was last emitted. */
    method BeginFiring(path: Path) returns (op: FileOp, prevHash: Option<ContentHash>)
      requires path !in dirUnitRootOf
      modifies `timers, `pending
      ensures timers == old(timers) - {path} && pending == old(pending) - {path}
      ensures op == if path in old(pending) then old(pending)[path] else FileCreate // the zero value
      ensures prevHash == LastHash(hashes, path)
    {
      op := if path in pending then pending[path] else FileCreate;
      timers := timers - {path};
      pending := pending - {path};
      prevHash := if path in hashes then Some(hashes[path]) else None;
    }

    /** The rest of it, after the file was read without the lock. */
    method EndFiring(path: Path, op: FileOp, prevHash: Option<ContentHash>, content: Option<seq<nat>>)
      returns (event: Option<FileEvent>)
      modifies `hashes
      ensures (hashes, event) == Ended(old(hashes), path, op, prevHash, content)
    {
      if content.None? {
        return None;
      }
      var newHash := Sha256Of(content.value);
      if prevHash == Some(newHash) {
        return None;
      }
      hashes := hashes[path := newHash];
      event := Some(FileEvent(path, op, content));
    }

    /** The whole firing undisturbed: an event only when the content is readable and
        differs from the last one emitted. */
    method FireDebouncedFile(path: Path, content: Option<seq<nat>>) returns (event: Option<FileEvent>)
      requires path !in dirUnitRootOf
      modifies `timers, `pending, `hashes
      ensures path !in pending && path !in timers
      ensures event.Some? <==> content.Some? && !(path in old(hashes) && old(hashes)[path] == Sha256Of(content.value))
      ensures event.Some? ==>
        && hashes == old(hashes)[path := Sha256Of(content.value)]
        && event.value == FileEvent(path, if path in old(pending) then old(pending)[path] else FileCreate, content)
      ensures event.None? ==> hashes == old(hashes)
    {
      var op, prevHash := BeginFiring(path);
      event := EndFiring(path, op, prevHash, content);
    }
  }

  function LastHash(hashes: map<Path, ContentHash>, path: Path): Option<ContentHash> {
    if path in hashes then Some(hashes[path]) else None
  }

  /** How a firing ends, given the hash it saw at its beginning. */
  function Ended(hashes: map<Path, ContentHash>, path: Path, op: FileOp, prevHash: Option<ContentHash>, content: Option<seq<nat>>)
    : (map<Path, ContentHash>, Option<FileEvent>)
  {
    if content.None? || prevHash == Some(Sha256Of(content.value)) then (hashes, None)
    else (hashes[path := Sha256Of(content.value)], Some(FileEvent(path, op, content)))
  }

  /** Two firings of one file that end one after the other: the second repeats the
      first one's content exactly when it began before the first one ended and what
      it saw was not that content already. */
  lemma RepeatsExactly(hashes: map<Path, ContentHash>, path: Path, op1: FileOp, op2: FileOp,
                       seen1: Option<ContentHash>, seen2: Option<ContentHash>, content: seq<nat>)
    requires Ended(hashes, path, op1, seen1, Some(content)).1.Some?
    requires seen2 == LastHash(hashes, path) || seen2 == LastHash(Ended(hashes, path, op1, seen1, Some(content)).0, path)
    ensures
      var after := Ended(hashes, path, op1, seen1, Some(content)).0;
      Ended(after, path, op2, seen2, Some(content)).1.Some?
      <==> seen2 == LastHash(hashes, path) != LastHash(after, path)
  {
    assert LastHash(Ended(hashes, path, op1, seen1, Some(content)).0, path) == Some(Sha256Of(content));
  }

  lemma RemovedFires(s: State, path: Path)
    requires path in s.rootOf
    ensures Enabled(Step(s, Remove(path)), HandOff(|s.fileFirings|))
  {
  }

  lemma KnownTimer(s: State, path: Path)
    requires Ok(s)
    ensures path in s.timers ==> s.timers[path] < |s.fileTimers|
  {
  }
}
