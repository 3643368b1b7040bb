/** Plugin updates and anti-rollback over a cache whose writes are all-or-nothing.
    Downloads, loads and disk failures are parameters. */
module PluginManagers {
  import opened Common
  import opened Versions

  datatype PluginInfo = PluginInfo(version: string, sha256: string, minDaemonVersion: string)

  type Manifest = map<string, PluginInfo>

  /** Downloaded or cached bytes: their hash in hex, and whether the signature holds. */
  datatype Artifact = Artifact(hash: string, signed: bool)

  /** One game's cache directory. */
  datatype Entry = Entry(artifact: Artifact, version: string, sha256: string)

  /** What the outside world does during one call for one game. */
  datatype Env = Env(download: Option<Artifact>, loads: bool, writes: bool, updates: bool, evicts: bool)

  predicate Space(c: char) {
    c == ' ' || '\t' <= c <= '\r'
  }

  function TrimLeft(s: string): string {
    if s != [] && Space(s[0]) then TrimLeft(s[1..]) else s
  }

  function TrimRight(s: string): string {
    if s != [] && Space(s[|s| - 1]) then TrimRight(s[..|s| - 1]) else s
  }

  function Trim(s: string): string {
    TrimRight(TrimLeft(s))
  }

  predicate Verified(a: Artifact, expected: string) {
    a.signed && a.hash == expected
  }

  predicate HasVersion(e: Option<Entry>, version: string) {
    e.Some? && e.value.version == version
  }

  /** The recorded hash is the one the manifest asks for. */
  predicate SameArtifact(e: Option<Entry>, info: PluginInfo) {
    e.Some? && e.value.sha256 != "" && e.value.sha256 == info.sha256
  }

  ghost predicate IsRollback(e: Option<Entry>, info: PluginInfo) {
    e.Some? && !SameArtifact(e, info) && Newer(e.value.version, info.version)
  }

  /** Either the call is over with this cache entry, or it goes on with it. */
  datatype Progress = Done(e: Option<Entry>) | On(e: Option<Entry>)

  /** Loading from the cache: bytes that fail verification are evicted. */
  function FromCache(e: Entry, info: PluginInfo, env: Env): Progress {
    if Verified(e.artifact, info.sha256) then Done(Some(e))
    else if env.evicts then On(None)
    else Done(Some(e))
  }

  function CheckVersion(e: Option<Entry>, info: PluginInfo, env: Env): Progress {
    if HasVersion(e, info.version) then FromCache(e.value, info, env) else On(e)
  }

  function Retagged(e: Entry, info: PluginInfo): Entry {
    e.(version := Trim(info.version), sha256 := Trim(info.sha256))
  }

  function Retag(e: Option<Entry>, info: PluginInfo, env: Env): Progress {
    if SameArtifact(e, info) && env.updates then FromCache(Retagged(e.value, info), info, env) else On(e)
  }

  function Downloaded(e: Option<Entry>, info: PluginInfo, env: Env): Option<Entry> {
    match env.download
    case None => e
    case Some(a) =>
      if Verified(a, info.sha256) && env.writes then Some(Entry(a, Trim(info.version), a.hash)) else e
  }

  ghost function Install(e: Option<Entry>, info: PluginInfo, env: Env): Option<Entry> {
    if IsRollback(e, info) then e else Downloaded(e, info, env)
  }

  /** The cache entry after EnsurePlugin found the game in the manifest. */
  ghost function Ensured(e: Option<Entry>, info: PluginInfo, env: Env): Option<Entry> {
    match CheckVersion(e, info, env)
    case Done(e1) => e1
    case On(e1) =>
      match Retag(e1, info, env)
      case Done(e2) => e2
      case On(e2) => Install(e2, info, env)
  }

  /** The cache entry after an update check of one game in the manifest. */
  ghost function Updated(e: Option<Entry>, info: PluginInfo, env: Env): Option<Entry> {
    if HasVersion(e, info.version) || e.None? then e
    else if SameArtifact(e, info) && env.updates then Some(Retagged(e.value, info))
    else Install(e, info, env)
  }

  // ---- What the calls come to ----

  /** A download arrives and verifies against the manifest. */
  predicate Arrives(info: PluginInfo, env: Env) {
    env.download.Some? && Verified(env.download.value, info.sha256)
  }

  /** The cached copy is tried: it carries the manifest's version, or its hash and can be re-tagged. */
  predicate Consulted(e: Option<Entry>, info: PluginInfo, env: Env) {
    e.Some? && (e.value.version == info.version || (SameArtifact(e, info) && env.updates))
  }

  /** Verified bytes are there to be loaded: those of a consulted cache, or else those
      of a download, unless a bad copy cannot be evicted or an older version is refused. */
  ghost predicate Serves(e: Option<Entry>, info: PluginInfo, env: Env) {
    if Consulted(e, info, env) then Verified(e.value.artifact, info.sha256) || (env.evicts && Arrives(info, env))
    else !IsRollback(e, info) && Arrives(info, env)
  }

  /** What EnsurePlugin leaves cached, case by case. */
  lemma EnsuredLaw(e: Option<Entry>, info: PluginInfo, env: Env)
    ensures
      var after := Ensured(e, info, env);
      var installed := if Arrives(info, env) && env.writes
                       then Some(Entry(env.download.value, Trim(info.version), info.sha256)) else None;
      && (!Consulted(e, info, env) && e.Some? && !SameArtifact(e, info) && Newer(e.value.version, info.version) ==> after == e)
      && (!Consulted(e, info, env) && !IsRollback(e, info) ==> after == if installed.Some? then installed else e)
      && (Consulted(e, info, env) && env.evicts && !Verified(e.value.artifact, info.sha256) ==> after == installed)
      && (Consulted(e, info, env) && (!env.evicts || Verified(e.value.artifact, info.sha256)) ==>
            after.Some? && after.value.artifact == e.value.artifact
            && (e.value.version == info.version ==> after == e)
            && (e.value.version != info.version ==> after.value.version == Trim(info.version) && after.value.sha256 == Trim(info.sha256)))
  {
    hide Trim, Newer;
  }

  /** What an update check leaves cached, case by case. */
  lemma UpdatedLaw(e: Option<Entry>, info: PluginInfo, env: Env)
    ensures
      var after := Updated(e, info, env);
      && (e.None? || e.value.version == info.version ==> after == e)
      && (e.Some? && e.value.version != info.version && SameArtifact(e, info) && env.updates ==>
            after == Some(Entry(e.value.artifact, Trim(info.version), Trim(info.sha256))))
      && (e.Some? && e.value.version != info.version && !SameArtifact(e, info) && Newer(e.value.version, info.version) ==> after == e)
      && (e.Some? && e.value.version != info.version && !IsRollback(e, info) && !(SameArtifact(e, info) && env.updates) ==>
            after == if Arrives(info, env) && env.writes then Some(Entry(env.download.value, Trim(info.version), info.sha256)) else e)
  {
    hide Trim, Newer;
  }

  // ---- Anti-rollback ----

  /** The recorded artifact changed, and to one whose manifest version is older. */
  ghost predicate RolledBack(before: Option<Entry>, after: Option<Entry>, info: PluginInfo) {
    && before.Some? && after.Some? && after.value.sha256 != before.value.sha256
    && Newer(before.value.version, info.version)
  }

  /** Hashes carry no surrounding white space. */
  predicate TrimmedHash(info: PluginInfo) {
    Trim(info.sha256) == info.sha256
  }

  /** Neither operation replaces an artifact by an older one, and whatever replaces it
      was verified against the manifest. */
  lemma NeverRollsBack(e: Option<Entry>, info: PluginInfo, env: Env)
    requires TrimmedHash(info)
    ensures !RolledBack(e, Ensured(e, info, env), info)
    ensures !RolledBack(e, Updated(e, info, env), info)
    ensures
      var after := Ensured(e, info, env);
      e.Some? && after.Some? && after.value.sha256 != e.value.sha256 ==>
        after.value == Entry(Artifact(info.sha256, true), Trim(info.version), info.sha256)
  {
    hide Trim, Newer;
    NeverNewerThanItself(info.version);
  }

  /** Such a re-tag gives up the anchor: an artifact older than the one first recorded
      is accepted once the recorded version is at most its own. */
  lemma RetagForgetsAnchor(e: Entry, retag: PluginInfo, older: PluginInfo, env: Env, later: Env)
    requires SameArtifact(Some(e), retag) && TrimmedHash(retag) && e.version != retag.version && env.updates
    requires Newer(e.version, older.version) && !Newer(Trim(retag.version), older.version)
    requires Trim(retag.version) != older.version && older.sha256 != retag.sha256
    requires later.download == Some(Artifact(older.sha256, true)) && later.writes
    ensures
      var e1 := Updated(Some(e), retag, env);
      var e2 := Updated(e1, older, later);
      && !RolledBack(Some(e), e1, retag) && !RolledBack(e1, e2, older)
      && e2.Some? && e2.value.sha256 == older.sha256 != e.sha256 && e2.value.version == Trim(older.version)
  {
    hide Trim, Newer;
  }

  // ---- Runs ----

  /** One call concerning one listed game: an EnsurePlugin or an update check. */
  datatype Call = Call(update: bool, info: PluginInfo, env: Env)

  ghost function After(e: Option<Entry>, c: Call): Option<Entry> {
    if c.update then Updated(e, c.info, c.env) else Ensured(e, c.info, c.env)
  }

  /** Manifest entries carry no white space around version and hash. */
  predicate Trimmed(c: Call) {
    TrimmedHash(c.info) && Trim(c.info.version) == c.info.version
  }

  /** A download would arrive, verify, and be written. */
  predicate Downloads(c: Call) {
    c.env.download.Some? && Verified(c.env.download.value, c.info.sha256) && c.env.writes
  }

  /** The call offers the recorded artifact under an older version. */
  ghost predicate DowngradingRetag(e: Option<Entry>, c: Call) {
    SameArtifact(e, c.info) && Newer(e.value.version, c.info.version)
  }

  /** And gets it recorded. */
  ghost predicate Lowers(e: Option<Entry>, c: Call) {
    DowngradingRetag(e, c) && (c.env.updates || Downloads(c))
  }

  /** The recorded version goes down in a call exactly when the very same artifact is
      offered under an older version and the cache can be written. */
  lemma VersionDropsOnlyByRetag(e: Option<Entry>, c: Call)
    requires Trimmed(c) && e.Some? && After(e, c).Some?
    ensures Newer(e.value.version, After(e, c).value.version) <==> Lowers(e, c)
  {
    hide Trim, Newer;
    NeverNewerThanItself(e.value.version);
    NeverNewerThanItself(c.info.version);
  }

  /** The cached bytes do not verify, they are evicted, and no download replaces them.
      An update check never gets there. */
  predicate Loses(e: Entry, c: Call) {
    && !c.update && c.env.evicts && !Downloads(c)
    && !Verified(e.artifact, c.info.sha256)
    && (HasVersion(Some(e), c.info.version) || (SameArtifact(Some(e), c.info) && c.env.updates))
  }

  /** A call makes the game uncached exactly in that case, and installs an uncached game
      exactly when EnsurePlugin downloads it, whatever its version. */
  lemma CachedOrNot(e: Option<Entry>, c: Call)
    ensures e.Some? ==> (After(e, c).None? <==> Loses(e.value, c))
    ensures e.None? ==> (After(e, c).Some? <==> !c.update && Downloads(c))
    ensures e.None? && After(e, c).Some? ==> After(e, c).value == Entry(c.env.download.value, Trim(c.info.version), c.info.sha256)
  {
    hide Trim, Newer;
  }

  /** An upgrade: a cached plugin of another version and hash, not newer than the
      manifest's, is replaced by the download, whichever call finds it. */
  lemma Upgrades(e: Entry, c: Call)
    requires e.version != c.info.version && e.sha256 != c.info.sha256 && !Newer(e.version, c.info.version) && Downloads(c)
    ensures After(Some(e), c) == Some(Entry(c.env.download.value, Trim(c.info.version), c.info.sha256))
  {
    hide Trim, Newer;
  }

  /** An eviction gives up the anchor as well: the next call installs an artifact older
      than the evicted one, unopposed. */
  lemma EvictionForgetsAnchor(e: Entry, c: Call, older: Call)
    requires Loses(e, c) && !older.update && Downloads(older)
    requires Newer(e.version, older.info.version) && older.info.sha256 != e.sha256
    ensures
      var e1 := After(Some(e), c);
      var e2 := After(e1, older);
      && e1.None? && e2.Some?
      && e2.value.sha256 == older.info.sha256 != e.sha256 && e2.value.version == Trim(older.info.version)
  {
    hide Trim, Newer;
    CachedOrNot(Some(e), c);
    CachedOrNot(None, older);
  }

  /** The entries before, between and after the calls of a run. */
  ghost predicate Run(entries: seq<Option<Entry>>, calls: seq<Call>) {
    && |entries| == |calls| + 1
    && forall k :: 0 <= k < |calls| ==> Trimmed(calls[k]) && entries[k + 1] == After(entries[k], calls[k])
  }

  /** What was last recorded up to point `k`, whether or not it is still cached. */
  function LastRecorded(entries: seq<Option<Entry>>, k: nat): Option<Entry>
    requires k < |entries|
  {
    if entries[k].Some? || k == 0 then entries[k] else LastRecorded(entries, k - 1)
  }

  /** An EnsurePlugin for a game that is not cached downloads a different artifact of an
      older version than was last recorded. */
  ghost predicate ReinstallsOlder(last: Entry, e: Option<Entry>, c: Call) {
    && e.None? && !c.update && Downloads(c)
    && c.info.sha256 != last.sha256 && Newer(last.version, c.info.version)
  }

  /** Compared with whatever was last recorded, evicted or not, a call of a run rolls
      back exactly when it reinstalls an older artifact after an eviction. While the
      plugin is cached, no call does. */
  lemma RunNeverRollsBack(entries: seq<Option<Entry>>, calls: seq<Call>, k: nat)
    requires Run(entries, calls) && k < |calls| && LastRecorded(entries, k).Some?
    ensures RolledBack(LastRecorded(entries, k), entries[k + 1], calls[k].info)
      <==> ReinstallsOlder(LastRecorded(entries, k).value, entries[k], calls[k])
    ensures entries[k].Some? ==> !RolledBack(entries[k], entries[k + 1], calls[k].info)
  {
    hide Ensured, Updated, Trim, Newer;
    NeverRollsBack(entries[k], calls[k].info, calls[k].env);
    CachedOrNot(entries[k], calls[k]);
  }

  /** Call `k` leaves a version recorded that is older than the last one. */
  ghost predicate Regresses(entries: seq<Option<Entry>>, calls: seq<Call>, k: nat)
    requires k < |calls| && |entries| == |calls| + 1
  {
    (Lowers(entries[k], calls[k]) && !Loses(entries[k].value, calls[k]))
    || (entries[k].None? && !calls[k].update && Downloads(calls[k])
        && LastRecorded(entries, k).Some? && Newer(LastRecorded(entries, k).value.version, calls[k].info.version))
  }

  /** The last recorded version goes down at a call exactly when the call re-tags the
      cached artifact downwards, or reinstalls an evicted plugin at an older version. */
  lemma OneCallKeepsVersion(entries: seq<Option<Entry>>, calls: seq<Call>, k: nat)
    requires Run(entries, calls) && k < |calls| && LastRecorded(entries, k).Some?
    ensures LastRecorded(entries, k + 1).Some?
    ensures Newer(LastRecorded(entries, k).value.version, LastRecorded(entries, k + 1).value.version)
      <==> Regresses(entries, calls, k)
  {
    hide Newer, Trim, After;
    var last := LastRecorded(entries, k);
    NeverNewerThanItself(last.value.version);
    CachedOrNot(entries[k], calls[k]);
    if entries[k].Some? && entries[k + 1].Some? {
      VersionDropsOnlyByRetag(entries[k], calls[k]);
    }
  }

  /** So over any stretch of a run without such a call, evictions included, the last
      recorded version never becomes older than it was at any earlier point. */
  lemma {:induction false} RunKeepsVersion(entries: seq<Option<Entry>>, calls: seq<Call>, j: nat, k: nat)
    requires Run(entries, calls) && j <= k <= |calls| && LastRecorded(entries, j).Some?
    requires forall i: nat :: j <= i < k ==> !Regresses(entries, calls, i)
    ensures LastRecorded(entries, k).Some?
    ensures !Newer(LastRecorded(entries, j).value.version, LastRecorded(entries, k).value.version)
    decreases k - j
  {
    hide Newer, Trim, After, LastRecorded;
    if j == k {
      NeverNewerThanItself(LastRecorded(entries, j).value.version);
    } else {
      RunKeepsVersion(entries, calls, j, k - 1);
      assert !Regresses(entries, calls, k - 1);
      OneCallKeepsVersion(entries, calls, k - 1);
      NotNewerTransitive(LastRecorded(entries, j).value.version, LastRecorded(entries, k - 1).value.version,
                         LastRecorded(entries, k).value.version);
    }
  }

  lemma NotNewerTransitive(a: string, b: string, c: string)
    requires !Newer(a, b) && !Newer(b, c)
    ensures !Newer(a, c)
  {
    if Newer(a, c) {
      ExceedsSplits(Versions.Parse(a), Versions.Parse(b), Versions.Parse(c));
    }
  }

  // ---- The manifest ----

  /** The manifest in use and the one it was filtered from. */
  datatype Known = Known(manifest: Option<Manifest>, raw: Manifest)

  ghost function Fetched(fetched: Manifest, daemonVersion: string): Known {
    Known(Some(Supported(fetched, daemonVersion)), fetched)
  }

  /** What is known once a game was looked up: fetched for want of any manifest, and
      again if the game is not listed. */
  ghost function Refreshed(known: Known, gameID: string, fetches: seq<Option<Manifest>>, daemonVersion: string): Known
    requires |fetches| == 2
  {
    var first := if known.manifest.None? && fetches[0].Some? then Fetched(fetches[0].value, daemonVersion) else known;
    if first.manifest.Some? && gameID !in first.manifest.value && fetches[1].Some?
    then Fetched(fetches[1].value, daemonVersion) else first
  }

  /** A game already listed needs no fetch; one that is not is looked for in what the
      last fetch brought, and a manifest that cannot be fetched changes nothing. */
  lemma WhichManifest(known: Known, gameID: string, fetches: seq<Option<Manifest>>, daemonVersion: string)
    requires |fetches| == 2
    ensures
      var after := Refreshed(known, gameID, fetches, daemonVersion);
      && (known.manifest.Some? && gameID in known.manifest.value ==> after == known)
      && (known.manifest.Some? && gameID !in known.manifest.value && fetches[1].None? ==> after == known)
      && (known.manifest.Some? && gameID !in known.manifest.value && fetches[1].Some? ==> after.raw == fetches[1].value)
      && (known.manifest.None? && fetches[0].None? ==> after == known)
      && (known.manifest.None? && fetches[0].Some? ==>
            after.raw == if gameID in Supported(fetches[0].value, daemonVersion) || fetches[1].None?
                         then fetches[0].value else fetches[1].value)
      && (after != known ==> after.manifest == Some(Supported(after.raw, daemonVersion)))
  {
    hide Supported;
  }

  /** The filter keeps an entry as it is, unless it asks for a newer daemon than one
      whose version can be compared. */
  lemma SupportedExactly(manifest: Manifest, daemonVersion: string, g: string)
    ensures g in Supported(manifest, daemonVersion)
      <==> (g in manifest
            && (manifest[g].minDaemonVersion == "" || !Newer(manifest[g].minDaemonVersion, daemonVersion)
                || daemonVersion == "" || (forall part :: part in Split(daemonVersion) ==> Atoi(part).None?)))
    ensures g in Supported(manifest, daemonVersion) ==> Supported(manifest, daemonVersion)[g] == manifest[g]
  {
    hide Newer, Split, Atoi;
  }

  /** An update check reports a game whose new artifact it downloaded, wrote and loaded. */
  ghost predicate Reports(e: Option<Entry>, info: PluginInfo, env: Env) {
    && e.Some? && e.value.version != info.version && !IsRollback(e, info) && !(SameArtifact(e, info) && env.updates)
    && Arrives(info, env) && env.writes && env.loads
  }

  // ---- The manager ----

  class Manager {
    var manifest: Option<Manifest>
    var rawManifest: Manifest
    var cache: map<string, Entry>
    const daemonVersion: string

    constructor (daemonVersion: string, cache: map<string, Entry>)
      ensures this.daemonVersion == daemonVersion && this.cache == cache && manifest == None
    {
      this.daemonVersion, this.cache := daemonVersion, cache;
      manifest, rawManifest := None, map[];
    }

    function Cached(gameID: string): Option<Entry>
      reads this
    {
      if gameID in cache then Some(cache[gameID]) else None
    }

    /** Writes one game's directory, or removes it. */
    method SetEntry(gameID: string, e: Option<Entry>)
      modifies `cache
      ensures cache == WithEntry(old(cache), gameID, e)
    {
      match e
      case None => cache := cache - {gameID};
      case Some(entry) => cache := cache[gameID := entry];
    }

    method Refuses(gameID: string, info: PluginInfo) returns (rollback: bool)
      ensures rollback == IsRollback(Cached(gameID), info)
    {
      if gameID !in cache || SameArtifact(Some(cache[gameID]), info) {
        return false;
      }
      rollback := IsNewer(cache[gameID].version, info.version);
    }

    method DownloadAndLoad(gameID: string, info: PluginInfo, env: Env) returns (ok: bool)
      modifies `cache
      ensures cache == WithEntry(old(cache), gameID, Downloaded(old(Cached(gameID)), info, env))
      ensures ok <==> env.download.Some? && Verified(env.download.value, info.sha256) && env.loads
    {
      if env.download.None? || !Verified(env.download.value, info.sha256) {
        SameEntry(cache, gameID);
        return false;
      }
      if env.writes {
        SetEntry(gameID, Some(Entry(env.download.value, Trim(info.version), env.download.value.hash)));
      } else {
        SameEntry(cache, gameID);
      }
      ok := env.loads;
    }

    /** Loads the cached plugin; one that fails verification is evicted, so that the
        caller goes on to a fresh download. */
    method LoadFromCache(gameID: string, info: PluginInfo, env: Env) returns (handled: bool, ok: bool)
      requires gameID in cache
      modifies `cache
      ensures cache == WithEntry(old(cache), gameID, FromCache(old(cache)[gameID], info, env).e)
      ensures handled <==> FromCache(old(cache)[gameID], info, env).Done?
      ensures ok <==> Verified(old(cache)[gameID].artifact, info.sha256) && env.loads
    {
      SameEntry(cache, gameID);
      if Verified(cache[gameID].artifact, info.sha256) {
        return true, env.loads;
      }
      if env.evicts {
        SetEntry(gameID, None);
        return false, false;
      }
      return true, false;
    }

    method EnsureListed(gameID: string, info: PluginInfo, env: Env) returns (ok: bool)
      modifies `cache
      ensures cache == WithEntry(old(cache), gameID, Ensured(old(Cached(gameID)), info, env))
      ensures ok <==> env.loads && Serves(old(Cached(gameID)), info, env)
    {
      hide Trim, Newer, Verified, Downloaded;
      SameEntry(cache, gameID);
      ghost var before := cache;
      if HasVersion(Cached(gameID), info.version) {
        var handled;
        handled, ok := LoadFromCache(gameID, info, env);
        if handled {
          return;
        }
      }
      ghost var e1 := Cached(gameID);
      if SameArtifact(Cached(gameID), info) && env.updates {
        SetEntry(gameID, Some(Retagged(cache[gameID], info)));
        var handled;
        handled, ok := LoadFromCache(gameID, info, env);
        if handled {
          return;
        }
      }
      var rollback := Refuses(gameID, info);
      if rollback {
        return false;
      }
      ok := DownloadAndLoad(gameID, info, env);
    }

    /** Keeps the fetched manifest, without the plugins this daemon is too old for. */
    method SetManifest(fetched: Manifest)
      modifies `manifest, `rawManifest
      ensures rawManifest == fetched && manifest == Some(Supported(fetched, daemonVersion))
    {
      rawManifest := fetched;
      var numeric := HasNumericComponent(daemonVersion);
      if daemonVersion == "" || !numeric {
        manifest := Some(fetched);
        return;
      }
      var filtered: Manifest := map[];
      var todo := fetched.Keys;
      while todo != {}
        invariant todo <= fetched.Keys && rawManifest == fetched
        invariant filtered == Runnable(fetched, todo, daemonVersion)
        decreases todo
      {
        var g :| g in todo;
        todo := todo - {g};
        var needsNewer := false;
        if fetched[g].minDaemonVersion != "" {
          needsNewer := IsNewer(fetched[g].minDaemonVersion, daemonVersion);
        }
        if !needsNewer {
          filtered := filtered[g := fetched[g]];
        }
      }
      manifest := Some(filtered);
    }

    /** The game's manifest entry, fetching again when it is not known yet. */
    method ResolveManifestEntry(gameID: string, fetches: seq<Option<Manifest>>) returns (info: Option<PluginInfo>, ok: bool)
      requires |fetches| == 2
      modifies `manifest, `rawManifest
      ensures Known(manifest, rawManifest) == Refreshed(old(Known(manifest, rawManifest)), gameID, fetches, daemonVersion)
      ensures ok <==> manifest.Some? && (gameID in manifest.value || fetches[1].Some?)
      ensures info == if manifest.Some? && gameID in manifest.value then Some(manifest.value[gameID]) else None
    {
      hide Supported;
      if manifest.None? {
        if fetches[0].None? {
          return None, false;
        }
        SetManifest(fetches[0].value);
      }
      if gameID in manifest.value {
        return Some(manifest.value[gameID]), true;
      }
      if fetches[1].None? {
        return None, false;
      }
      SetManifest(fetches[1].value);
      if gameID in manifest.value {
        return Some(manifest.value[gameID]), true;
      }
      return None, true;
    }

    /** A game the manifest does not list, not even for newer daemons: its cached
        plugin is loaded if it still verifies against the hash it was cached with. */
    method LoadUnlisted(gameID: string, env: Env) returns (ok: bool)
      ensures ok <==> gameID in cache && Verified(cache[gameID].artifact, cache[gameID].sha256) && env.loads
    {
      if gameID !in cache || !Verified(cache[gameID].artifact, cache[gameID].sha256) {
        return false;
      }
      ok := env.loads;
    }

    /** Makes sure the game's plugin is loaded: from the local directory, the cache, or
        a fresh download. */
    method EnsurePlugin(gameID: string, hasLocal: bool, fetches: seq<Option<Manifest>>, env: Env) returns (ok: bool)
      requires |fetches| == 2
      modifies `manifest, `rawManifest, `cache
      ensures Known(manifest, rawManifest)
           == if hasLocal then old(Known(manifest, rawManifest))
              else Refreshed(old(Known(manifest, rawManifest)), gameID, fetches, daemonVersion)
      ensures !hasLocal && manifest.Some? && gameID in manifest.value ==>
        && cache == WithEntry(old(cache), gameID, Ensured(old(Cached(gameID)), manifest.value[gameID], env))
        && (ok <==> env.loads && Serves(old(Cached(gameID)), manifest.value[gameID], env))
      ensures hasLocal || manifest.None? || gameID !in manifest.value ==> cache == old(cache)
      ensures hasLocal ==> ok == env.loads
      ensures !hasLocal && (manifest.None? || (gameID !in manifest.value && (fetches[1].None? || gameID in rawManifest))) ==> !ok
      ensures !hasLocal && manifest.Some? && gameID !in manifest.value && fetches[1].Some? && gameID !in rawManifest ==>
        (ok <==> gameID in cache && Verified(cache[gameID].artifact, cache[gameID].sha256) && env.loads)
    {
      hide Ensured, Serves, Refreshed, Verified;
      if hasLocal {
        return env.loads;
      }
      var info, resolved := ResolveManifestEntry(gameID, fetches);
      if !resolved {
        return false;
      }
      if info.Some? {
        ok := EnsureListed(gameID, info.value, env);
      } else if gameID in rawManifest {
        ok := false;
      } else {
        ok := LoadUnlisted(gameID, env);
      }
    }

    method UpdateOne(gameID: string, info: PluginInfo, env: Env) returns (updated: bool)
      modifies `cache
      ensures cache == WithEntry(old(cache), gameID, Updated(old(Cached(gameID)), info, env))
      ensures updated <==> Reports(old(Cached(gameID)), info, env)
    {
      hide Trim, Newer, Verified, Downloaded;
      SameEntry(cache, gameID);
      if gameID !in cache || HasVersion(Cached(gameID), info.version) {
        return false;
      }
      if SameArtifact(Cached(gameID), info) && env.updates {
        SetEntry(gameID, Some(Retagged(cache[gameID], info)));
        return false;
      }
      var rollback := Refuses(gameID, info);
      if rollback {
        return false;
      }
      var loaded := DownloadAndLoad(gameID, info, env);
      updated := loaded && env.writes;
    }

    /** Checks every listed game that is not handled locally, and names those updated. */
    method CheckRemotePlugins(fetched: Option<Manifest>, skip: set<string>, envs: string -> Env) returns (updated: set<string>)
      modifies `manifest, `rawManifest, `cache
      ensures fetched.None? ==> cache == old(cache) && updated == {} && Known(manifest, rawManifest) == old(Known(manifest, rawManifest))
      ensures fetched.Some? ==>
        && manifest == Some(Supported(fetched.value, daemonVersion)) && rawManifest == fetched.value
        && (forall g :: Cached(g)
                 == if g in manifest.value && g !in skip then Updated(old(Cached(g)), manifest.value[g], envs(g))
                    else old(Cached(g)))
        && (forall g :: g in updated <==>
                 g in manifest.value && g !in skip && Reports(old(Cached(g)), manifest.value[g], envs(g)))
    {
      hide Updated, Supported, Reports;
      updated := {};
      if fetched.None? {
        return;
      }
      SetManifest(fetched.value);
      var listed := manifest.value;
      var todo := listed.Keys;
      while todo != {}
        invariant todo <= listed.Keys && manifest == Some(listed) && rawManifest == fetched.value
        invariant forall g :: Cached(g)
                   == if g in listed && g !in todo && g !in skip then Updated(old(Cached(g)), listed[g], envs(g))
                      else old(Cached(g))
        invariant forall g :: g in updated <==>
                   g in listed && g !in todo && g !in skip && Reports(old(Cached(g)), listed[g], envs(g))
        decreases todo
      {
        var g :| g in todo;
        todo := todo - {g};
        if g !in skip {
          var changed := UpdateOne(g, listed[g], envs(g));
          if changed {
            updated := updated + {g};
          }
        }
      }
    }
  }

  function WithEntry(cache: map<string, Entry>, gameID: string, e: Option<Entry>): map<string, Entry> {
    match e
    case None => cache - {gameID}
    case Some(entry) => cache[gameID := entry]
  }

  lemma SameEntry(cache: map<string, Entry>, gameID: string)
    ensures WithEntry(cache, gameID, if gameID in cache then Some(cache[gameID]) else None) == cache
  {
  }

  // ---- The minimum daemon version ----

  ghost predicate NeedsNewer(info: PluginInfo, daemonVersion: string) {
    info.minDaemonVersion != "" && Newer(info.minDaemonVersion, daemonVersion)
  }

  predicate SomeNumeric(parts: seq<string>) {
    exists i :: 0 <= i < |parts| && Atoi(parts[i]).Some?
  }

  method HasNumericComponent(v: string) returns (r: bool)
    ensures r == SomeNumeric(Split(v))
  {
    hide Split, Atoi;
    var parts := Split(v);
    for i := 0 to |parts|
      invariant forall j :: 0 <= j < i ==> Atoi(parts[j]).None?
    {
      if Atoi(parts[i]).Some? {
        return true;
      }
    }
    return false;
  }

  /** A daemon version that cannot be compared filters nothing out. */
  ghost function Supported(manifest: Manifest, daemonVersion: string): Manifest {
    if daemonVersion == "" || !SomeNumeric(Split(daemonVersion)) then manifest
    else Runnable(manifest, {}, daemonVersion)
  }

  /** The games not set aside that this daemon is new enough for. */
  ghost function Runnable(manifest: Manifest, aside: set<string>, daemonVersion: string): Manifest {
    map g | g in manifest && g !in aside && !NeedsNewer(manifest[g], daemonVersion) :: manifest[g]
  }
}
