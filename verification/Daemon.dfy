/** The daemon's parse-and-push path over its caches, with nothing interleaved.
    Results of the plugin and of sends are parameters. */
module Daemons {
  import opened Common
  import opened Sorting
  import opened SaveSync
  import opened DirectoryUnits

  /** A section as the plugin returned it; `convertible` when its data is a JSON
      object that fits the protocol's value type. */
  datatype SourceSection = SourceSection(convertible: bool, section: Section)

  datatype GameState = GameState(saveName: string, sections: map<string, SourceSection>)

  datatype ProtoSection = ProtoSection(name: string, section: Section)

  /** What running the plugin came to. */
  datatype RunResult = Vanished | Unreadable | Ran(state: GameState) | RunFailed(failure: Failure)

  function Convertible(source: map<string, SourceSection>): Sections {
    map n | n in source && source[n].convertible :: source[n].section
  }

  function ToParse(state: GameState): Parse {
    Parse(state.saveName, Convertible(state.sections))
  }

  /** A list of sections as a map; names do not repeat. */
  function AsMap(list: seq<ProtoSection>): Sections {
    if list == [] then map[]
    else
      var last := list[|list| - 1];
      AsMap(list[..|list| - 1])[last.name := last.section]
  }

  function Payloads(sections: Sections): map<string, string> {
    map n | n in sections :: sections[n].payload
  }

  /** In ascending order of name, each name once. */
  ghost predicate Ordered(list: seq<ProtoSection>) {
    forall i, j | 0 <= i < j < |list| :: StringLess(list[i].name, list[j].name)
  }

  lemma AsMapAppend(list: seq<ProtoSection>, x: ProtoSection)
    ensures AsMap(list + [x]) == AsMap(list)[x.name := x.section]
  {
    assert (list + [x])[..|list|] == list;
  }

  /** Names not in a list are not in its map. */
  lemma {:induction false} AsMapLacks(list: seq<ProtoSection>, n: string)
    requires forall i :: 0 <= i < |list| ==> list[i].name != n
    ensures n !in AsMap(list)
  {
    if list != [] {
      AsMapLacks(list[..|list| - 1], n);
    }
  }

  lemma NotYet(sections: seq<ProtoSection>, i: nat)
    requires Ordered(sections) && i < |sections|
    ensures sections[i].name !in AsMap(sections[..i])
    ensures AsMap(sections[..i + 1]) == AsMap(sections[..i])[sections[i].name := sections[i].section]
  {
    hide StringLess, AsMap;
    StringOrder();
    forall j | 0 <= j < i
      ensures sections[..i][j].name != sections[i].name
    {
      assert StringLess(sections[j].name, sections[i].name);
    }
    AsMapLacks(sections[..i], sections[i].name);
    assert sections[..i + 1] == sections[..i] + [sections[i]];
    AsMapAppend(sections[..i], sections[i]);
  }

  lemma OneMoreSection(prev: map<string, Digest>, m: Sections, n: string, x: Section)
    requires n !in m
    ensures Hashes(m[n := x]) == if x.marshals then Hashes(m)[n := Sha256(n, x.payload)] else Hashes(m)
    ensures Changed(prev, m[n := x])
      == if x.marshals && !(n in prev && prev[n] == Sha256(n, x.payload)) then Changed(prev, m)[n := x.payload] else Changed(prev, m)
  {
  }

  /** The convertible sections under the given names, in order. */
  function Listed(source: map<string, SourceSection>, names: seq<string>): seq<ProtoSection>
    requires forall n :: n in names ==> n in source
  {
    if names == [] then []
    else
      var last := names[|names| - 1];
      Listed(source, names[..|names| - 1])
      + (if source[last].convertible then [ProtoSection(last, source[last].section)] else [])
  }

  function Picked(source: map<string, SourceSection>, names: seq<string>): Sections {
    map n | n in source && source[n].convertible && n in names :: source[n].section
  }

  lemma PickedAppend(source: map<string, SourceSection>, init: seq<string>, last: string)
    requires last in source
    ensures Picked(source, init + [last])
      == if source[last].convertible then Picked(source, init)[last := source[last].section] else Picked(source, init)
  {
  }

  lemma OrderedAppend(list: seq<ProtoSection>, init: seq<string>, x: ProtoSection)
    requires Ordered(list) && forall k :: 0 <= k < |list| ==> list[k].name in init
    requires forall n :: n in init ==> StringLess(n, x.name)
    ensures Ordered(list + [x])
    ensures forall k :: 0 <= k < |list| + 1 ==> (list + [x])[k].name in init + [x.name]
  {
    hide StringLess;
  }

  lemma {:induction false} ListedIs(source: map<string, SourceSection>, names: seq<string>)
    requires StrictlySorted(StringLess, names) && forall n :: n in names ==> n in source
    ensures Ordered(Listed(source, names))
    ensures forall k :: 0 <= k < |Listed(source, names)| ==> Listed(source, names)[k].name in names
    ensures AsMap(Listed(source, names)) == Picked(source, names)
    decreases |names|
  {
    hide StringLess, Picked, Ordered, AsMap;
    if names == [] {
      NothingListed(source);
    } else {
      var init, last := names[..|names| - 1], names[|names| - 1];
      ListedIs(source, init);
      var before := Listed(source, init);
      assert names == init + [last];
      PickedAppend(source, init, last);
      if source[last].convertible {
        AsMapAppend(before, ProtoSection(last, source[last].section));
        OrderedAppend(before, init, ProtoSection(last, source[last].section));
      } else {
        assert before + [] == before;
      }
    }
  }

  lemma NothingListed(source: map<string, SourceSection>)
    ensures Ordered([]) && AsMap([]) == Picked(source, [])
  {
  }

  lemma AllPicked(source: map<string, SourceSection>, names: seq<string>)
    requires forall n :: n in names <==> n in source
    ensures Picked(source, names) == Convertible(source)
  {
  }

  method ProtoSections(source: map<string, SourceSection>) returns (list: seq<ProtoSection>)
    ensures AsMap(list) == Convertible(source) && Ordered(list)
  {
    hide StringLess, AsMap, Ordered, Picked, Convertible;
    var names := SortedKeys(source.Keys);
    list := [];
    for i := 0 to |names|
      invariant list == Listed(source, names[..i])
    {
      assert names[..i + 1][..i] == names[..i];
      if source[names[i]].convertible {
        list := list + [ProtoSection(names[i], source[names[i]].section)];
      }
    }
    assert names[..|names|] == names;
    ListedIs(source, names);
    AllPicked(source, names);
  }

  class Daemon {
    var pluginGenerations: map<string, nat>
    var lastPushedSectionHashes: map<string, Cached>
    var lastKnownSaveNames: map<string, string>
    var parseFailures: map<string, Reported>
    var watchedDirs: map<string, string>
    var dirUnitSnapshotHashes: map<string, Aggregate>
    ghost var snapshots: map<string, Snapshot> // what each aggregate was taken of

    ghost function View(): State
      reads this
    {
      State(pluginGenerations, lastPushedSectionHashes, lastKnownSaveNames, parseFailures)
    }

    /** Every stored aggregate is that of the last snapshot dispatched. */
    ghost predicate Valid()
      reads `snapshots, `dirUnitSnapshotHashes
    {
      && snapshots.Keys == dirUnitSnapshotHashes.Keys
      && forall d :: d in snapshots ==> ShortNames(snapshots[d]) && IsAggregate(snapshots[d], dirUnitSnapshotHashes[d])
    }

    constructor ()
      ensures Valid() && View() == STARTED.daemon
    {
      pluginGenerations, lastPushedSectionHashes, lastKnownSaveNames, parseFailures := map[], map[], map[], map[];
      watchedDirs, dirUnitSnapshotHashes, snapshots := map[], map[], map[];
    }

    method CurrentGeneration(gameID: string) returns (gen: nat)
      ensures gen == Generation(View(), gameID)
    {
      gen := if gameID in pluginGenerations then pluginGenerations[gameID] else 0;
    }

    /** Invalidates everything derived from a changed plugin. */
    method ChangePlugin(gameID: string)
      requires Valid()
      modifies this
      ensures Valid() && View() == PluginChanged(old(View()), gameID)
      ensures watchedDirs == old(watchedDirs)
      ensures forall d :: d in snapshots <==>
                d in old(snapshots) && !(d in watchedDirs && watchedDirs[d] == gameID)
      ensures forall d :: d in snapshots ==> snapshots[d] == old(snapshots)[d]
    {
      var gen := CurrentGeneration(gameID);
      pluginGenerations := pluginGenerations[gameID := gen + 1];
      ForgetPushes(gameID);
      ForgetFailures(gameID);
      ForgetSnapshots(gameID);
    }

    method ForgetPushes(gameID: string)
      modifies `lastPushedSectionHashes
      ensures lastPushedSectionHashes == map p | p in old(lastPushedSectionHashes) && old(lastPushedSectionHashes)[p].game != gameID ::
        old(lastPushedSectionHashes)[p]
    {
      var paths := lastPushedSectionHashes.Keys;
      while paths != {}
        invariant paths <= lastPushedSectionHashes.Keys
        invariant lastPushedSectionHashes == map p | p in old(lastPushedSectionHashes) &&
          (p in paths || old(lastPushedSectionHashes)[p].game != gameID) :: old(lastPushedSectionHashes)[p]
        decreases paths
      {
        var path :| path in paths;
        paths := paths - {path};
        if lastPushedSectionHashes[path].game == gameID {
          lastPushedSectionHashes := lastPushedSectionHashes - {path};
        }
      }
    }

    method ForgetFailures(gameID: string)
      modifies `parseFailures
      ensures parseFailures == map p | p in old(parseFailures) && old(parseFailures)[p].failure.game != gameID :: old(parseFailures)[p]
    {
      var paths := parseFailures.Keys;
      while paths != {}
        invariant paths <= parseFailures.Keys
        invariant parseFailures == map p | p in old(parseFailures) &&
          (p in paths || old(parseFailures)[p].failure.game != gameID) :: old(parseFailures)[p]
        decreases paths
      {
        var path :| path in paths;
        paths := paths - {path};
        if parseFailures[path].failure.game == gameID {
          parseFailures := parseFailures - {path};
        }
      }
    }

    method ForgetSnapshots(gameID: string)
      requires Valid()
      modifies `dirUnitSnapshotHashes, `snapshots
      ensures Valid()
      ensures forall d :: d in snapshots <==>
                d in old(snapshots) && !(d in watchedDirs && watchedDirs[d] == gameID)
      ensures forall d :: d in snapshots ==> snapshots[d] == old(snapshots)[d]
    {
      var dirs := watchedDirs.Keys;
      while dirs != {}
        invariant Valid() && dirs <= watchedDirs.Keys
        invariant forall d :: d in snapshots <==>
                    d in old(snapshots) && !(d in watchedDirs && d !in dirs && watchedDirs[d] == gameID)
        invariant forall d :: d in snapshots ==> snapshots[d] == old(snapshots)[d]
        decreases dirs
      {
        var dir :| dir in dirs;
        dirs := dirs - {dir};
        if watchedDirs[dir] == gameID {
          dirUnitSnapshotHashes := dirUnitSnapshotHashes - {dir};
          snapshots := snapshots - {dir};
        }
      }
    }

    /** Hashes each section and keeps those that differ from the last push of this
        file under the same save identity. */
    method FilterChangedSections(gameID: string, filePath: string, saveName: string, sections: seq<ProtoSection>)
      returns (changed: seq<ProtoSection>, newHashes: map<string, Digest>)
      requires Ordered(sections)
      ensures newHashes == Hashes(AsMap(sections))
      ensures Payloads(AsMap(changed)) == Changed(PreviousHashes(View(), gameID, filePath, saveName), AsMap(sections))
      ensures changed == [] <==> Changed(PreviousHashes(View(), gameID, filePath, saveName), AsMap(sections)) == map[]
    {
      hide StringLess, AsMap, Hashes, Changed, Payloads;
      var prevHashes: map<string, Digest> := map[];
      if filePath in lastPushedSectionHashes {
        var cached := lastPushedSectionHashes[filePath];
        if cached.game == gameID && cached.saveName == saveName {
          prevHashes := cached.hashes;
        }
      }
      newHashes, changed := map[], [];
      NothingChanged(prevHashes);
      assert sections[..0] == [];
      for i := 0 to |sections|
        invariant newHashes == Hashes(AsMap(sections[..i]))
        invariant Payloads(AsMap(changed)) == Changed(prevHashes, AsMap(sections[..i]))
        invariant changed == [] <==> Changed(prevHashes, AsMap(sections[..i])) == map[]
      {
        var s := sections[i];
        NotYet(sections, i);
        OneMoreSection(prevHashes, AsMap(sections[..i]), s.name, s.section);
        if s.section.marshals {
          var h := Sha256(s.name, s.section.payload);
          newHashes := newHashes[s.name := h];
          if s.name !in prevHashes || prevHashes[s.name] != h {
            OneMorePayload(changed, s);
            changed := changed + [s];
          }
        }
      }
      assert sections[..|sections|] == sections;
    }

    /** Delivers the push and, if it went out and the plugin is still the same,
        remembers what was pushed. */
    method SendState(gameID: string, filePath: string, saveName: string, changed: seq<ProtoSection>,
                     sections: seq<ProtoSection>, newHashes: map<string, Digest>, gen: nat, delivered: bool)
      returns (push: Option<Push>)
      modifies `lastPushedSectionHashes
      ensures push == if Generation(old(View()), gameID) == gen && delivered
                      then Some(Push(saveName, Payloads(AsMap(changed)), AsMap(sections).Keys)) else None
      ensures View() == if push.Some? then Pushed(old(View()), gameID, filePath, gen, saveName, newHashes) else old(View())
    {
      var current := CurrentGeneration(gameID);
      if current != gen || !delivered {
        return None;
      }
      push := Some(Push(saveName, Payloads(AsMap(changed)), AsMap(sections).Keys));
      lastPushedSectionHashes := lastPushedSectionHashes[filePath := Cached(gameID, saveName, newHashes, gen)];
    }

    method PushState(gameID: string, filePath: string, state: GameState, gen: nat, delivered: bool)
      returns (push: Option<Push>)
      modifies `lastPushedSectionHashes
      ensures (View(), push) == PushOutcome(old(View()), gameID, filePath, gen, ToParse(state), delivered)
    {
      hide Hashes, Changed, PreviousHashes, AsMap, Payloads, Ordered, Convertible;
      var current := CurrentGeneration(gameID);
      if current != gen {
        return None;
      }
      var sections := ProtoSections(state.sections);
      var changed, newHashes := FilterChangedSections(gameID, filePath, state.saveName, sections);
      if changed == [] {
        return None;
      }
      push := SendState(gameID, filePath, state.saveName, changed, sections, newHashes, gen, delivered);
    }

    method ResolveIdentity(filePath: string, saveName: string) returns (name: string)
      modifies `lastKnownSaveNames
      ensures name == ResolvedName(old(View()), filePath, saveName)
      ensures View() == Named(old(View()), filePath, saveName)
    {
      if saveName != "" {
        lastKnownSaveNames := lastKnownSaveNames[filePath := saveName];
        return saveName;
      }
      if filePath in lastKnownSaveNames {
        name := lastKnownSaveNames[filePath];
      } else {
        name := UNKNOWN_SAVE_NAME;
      }
    }

    /** Reports a failure, unless the very same one was already delivered. */
    method HandleParseFailure(filePath: string, failure: Failure, gen: nat, delivered: bool) returns (reported: bool)
      modifies `parseFailures
      ensures (View(), reported) == FailureOutcome(old(View()), filePath, gen, failure, delivered)
    {
      var current := CurrentGeneration(failure.game);
      if current != gen {
        return false;
      }
      if filePath in parseFailures && parseFailures[filePath].failure == failure {
        return false;
      }
      if !delivered {
        return false;
      }
      parseFailures := parseFailures[filePath := Reported(failure, gen)];
      reported := true;
    }

    method ParseAndPush(gameID: string, filePath: string, run: RunResult, delivered: bool) returns (push: Option<Push>)
      requires run.RunFailed? ==> run.failure.game == gameID
      modifies `lastPushedSectionHashes, `lastKnownSaveNames, `parseFailures
      ensures run.Vanished? || run.Unreadable? ==> View() == old(View()) && push == None
      ensures run.RunFailed? ==>
        push == None &&
        View() == FailureOutcome(old(View()), filePath, Generation(old(View()), gameID), run.failure, delivered).0
      ensures run.Ran? ==> (View(), push) == ParseOutcome(old(View()), gameID, filePath, ToParse(run.state), delivered)
    {
      hide PushOutcome, Convertible;
      push := None;
      var gen := CurrentGeneration(gameID);
      match run {
        case Vanished =>
        case Unreadable =>
        case RunFailed(failure) =>
          var _ := HandleParseFailure(filePath, failure, gen, delivered);
        case Ran(state) =>
          parseFailures := parseFailures - {filePath};
          var name := ResolveIdentity(filePath, state.saveName);
          push := PushState(gameID, filePath, state.(saveName := name), gen, delivered);
      }
    }

    /** Parses a directory unit unless its snapshot is the one last dispatched. */
    method DispatchDirectoryUnit(gameID: string, dir: string, members: Snapshot, run: RunResult, delivered: bool)
      returns (dispatched: bool, push: Option<Push>)
      requires Valid() && ShortNames(members)
      requires run.RunFailed? ==> run.failure.game == gameID
      modifies this
      ensures Valid() && snapshots == old(snapshots)[dir := members]
      ensures dispatched <==> !(dir in old(snapshots) && old(snapshots)[dir] == members)
      ensures !dispatched ==> View() == old(View()) && push == None
      ensures dispatched && run.Ran? ==>
        (View(), push) == ParseOutcome(old(View()), gameID, dir, ToParse(run.state), delivered)
    {
      hide IsAggregate, ParseOutcome, FailureOutcome;
      push := None;
      var agg := AggregateHash(members);
      if dir in dirUnitSnapshotHashes {
        AggregateTellsApart(snapshots[dir], dirUnitSnapshotHashes[dir], members, agg);
        if dirUnitSnapshotHashes[dir] == agg {
          return false, None;
        }
      }
      dirUnitSnapshotHashes := dirUnitSnapshotHashes[dir := agg];
      snapshots := snapshots[dir := members];
      dispatched := true;
      push := ParseAndPush(gameID, dir, run, delivered);
    }

    /** Forgets everything about files in directories no longer watched. */
    method EvictUnwatchedPathCaches(dirs: seq<string>)
      requires Valid()
      modifies this
      ensures Valid()
      ensures View() == Evicted(old(View()), GonePaths(old(View()), dirs))
      ensures pluginGenerations == old(pluginGenerations) && watchedDirs == old(watchedDirs)
      ensures snapshots == Outside(old(snapshots), dirs)
    {
      hide Outside, GonePaths, Valid, PathInDirectories;
      EvictedParts(View(), dirs);
      lastPushedSectionHashes := DropInside(lastPushedSectionHashes, dirs);
      lastKnownSaveNames := DropInside(lastKnownSaveNames, dirs);
      parseFailures := DropInside(parseFailures, dirs);
      EvictSnapshots(dirs);
    }

    method EvictSnapshots(dirs: seq<string>)
      requires Valid()
      modifies `dirUnitSnapshotHashes, `snapshots
      ensures Valid() && snapshots == Outside(old(snapshots), dirs)
    {
      hide Outside, PathInDirectories, IsAggregate, ShortNames;
      OutsideKeys(dirUnitSnapshotHashes, dirs);
      OutsideKeys(snapshots, dirs);
      dirUnitSnapshotHashes := DropInside(dirUnitSnapshotHashes, dirs);
      snapshots := Outside(snapshots, dirs);
    }
  }

  // ---- Eviction ----

  /** The entries for paths in none of the directories. */
  function Outside<V>(m: map<string, V>, dirs: seq<string>): map<string, V> {
    map p | p in m && !PathInDirectories(p, dirs) :: m[p]
  }

  ghost function GonePaths(s: State, dirs: seq<string>): set<string> {
    set p | p in s.cache.Keys + s.names.Keys + s.failures.Keys && PathInDirectories(p, dirs)
  }

  lemma OutsideIsMinus<V>(m: map<string, V>, dirs: seq<string>, gone: set<string>)
    requires forall p :: p in m ==> (PathInDirectories(p, dirs) <==> p in gone)
    ensures Outside(m, dirs) == m - gone
  {
    hide PathInDirectories;
  }

  lemma EvictedParts(s: State, dirs: seq<string>)
    ensures Evicted(s, GonePaths(s, dirs))
      == State(s.generations, Outside(s.cache, dirs), Outside(s.names, dirs), Outside(s.failures, dirs))
  {
    hide PathInDirectories, Outside;
    var gone := GonePaths(s, dirs);
    OutsideIsMinus(s.cache, dirs, gone);
    OutsideIsMinus(s.names, dirs, gone);
    OutsideIsMinus(s.failures, dirs, gone);
  }

  lemma OutsideKeys<V>(m: map<string, V>, dirs: seq<string>)
    ensures forall p :: p in Outside(m, dirs) <==> p in m && !PathInDirectories(p, dirs)
    ensures forall p :: p in Outside(m, dirs) ==> Outside(m, dirs)[p] == m[p]
  {
  }

  method DropInside<V>(m: map<string, V>, dirs: seq<string>) returns (r: map<string, V>)
    ensures r == Outside(m, dirs)
  {
    hide PathInDirectories;
    r := m;
    var todo := m.Keys;
    while todo != {}
      invariant todo <= r.Keys
      invariant r == map p | p in m && (p in todo || !PathInDirectories(p, dirs)) :: m[p]
      decreases todo
    {
      var path :| path in todo;
      todo := todo - {path};
      if PathInDirectories(path, dirs) {
        r := r - {path};
      }
    }
  }

  lemma NothingChanged(prev: map<string, Digest>)
    ensures Hashes(AsMap([])) == map[] && Changed(prev, AsMap([])) == map[] && Payloads(AsMap([])) == map[]
  {
  }

  lemma OneMorePayload(list: seq<ProtoSection>, x: ProtoSection)
    ensures Payloads(AsMap(list + [x])) == Payloads(AsMap(list))[x.name := x.section.payload]
    ensures Payloads(AsMap(list + [x])) != map[]
  {
    AsMapAppend(list, x);
    assert x.name in Payloads(AsMap(list + [x]));
  }

  /** One of the directories, or inside one, whichever way slashes lean. */
  predicate PathInDirectories(path: string, dirs: seq<string>) {
    exists d :: d in dirs && (path == d || d + "/" <= path || d + "\\" <= path)
  }
}
