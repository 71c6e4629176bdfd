/**
 * A discovered plugin (DiscoveredPlugin): the fields read from `plugin.json`, their validation
 * and defaulting (`verifyIntegrity`), its load status and its single class loader.
 */
module Descriptor {
  import opened Wrappers
  import opened Names
  import Loaders

  /** The load status of a discovered plugin; only `LoadSuccess` is a good one. */
  datatype LoadStatus =
    | LoadSuccess
    | MissingDependencies
    | InvalidName
    | NoEntrypoint
    | FailedToSetupClassloader
    | LoadFailed

  /** `LoadStatus.name()`: the constant's name, used as a sentinel field value. */
  function StatusName(s: LoadStatus): string
  {
    match s
    case LoadSuccess => "LOAD_SUCCESS"
    case MissingDependencies => "MISSING_DEPENDENCIES"
    case InvalidName => "INVALID_NAME"
    case NoEntrypoint => "NO_ENTRYPOINT"
    case FailedToSetupClassloader => "FAILED_TO_SETUP_CLASSLOADER"
    case LoadFailed => "LOAD_FAILED"
  }

  datatype Repository = Repository(name: string, url: string)

  /** `ExternalDependencies`; a new one has no repositories and no artifacts. */
  datatype ExternalDependencies = ExternalDependencies(repositories: seq<Repository>, artifacts: seq<string>)

  /** The `meta` JSON object, an opaque bag the core never consults. */
  type Meta = map<string, string>

  /** The validated fields of a discovered plugin; `None` is a field Gson left null. */
  datatype Manifest = Manifest(
    name: Option<string>,
    entrypoint: Option<string>,
    version: Option<string>,
    authors: Option<seq<string>>,
    dependencies: Option<seq<string>>,
    externalDependencies: Option<ExternalDependencies>,
    meta: Option<Meta>,
    loadStatus: LoadStatus)

  /** `verifyIntegrity` passes every check: non-null name matching the pattern, non-null entrypoint. */
  predicate PassesChecks(m: Manifest)
  {
    m.name.Some? && MatchesNameRegex(m.name.value) && m.entrypoint.Some?
  }

  /** The effect of `verifyIntegrity` on the fields: the first failing check wins, else defaults. */
  function Verify(m: Manifest): (r: Manifest)
    // a null name: the name becomes the sentinel, nothing else changes
    ensures m.name.None? ==> r == m.(name := Some("INVALID_NAME"), loadStatus := InvalidName)
    // a name outside `[A-Za-z][_A-Za-z0-9]+`: the same
    ensures m.name.Some? && !ValidName(m.name.value) ==> r == m.(name := Some("INVALID_NAME"), loadStatus := InvalidName)
    // a valid name without an entrypoint: the entrypoint becomes the sentinel
    ensures m.name.Some? && ValidName(m.name.value) && m.entrypoint.None? ==>
              r == m.(entrypoint := Some("NO_ENTRYPOINT"), loadStatus := NoEntrypoint)
    // all checks pass: name, entrypoint and status kept, only null fields defaulted
    ensures m.name.Some? && ValidName(m.name.value) && m.entrypoint.Some? ==>
              && r.name == m.name && r.entrypoint == m.entrypoint && r.loadStatus == m.loadStatus
              && r.version == Some(if m.version.Some? then m.version.value else "Unspecified")
              && r.authors == Some(if m.authors.Some? then m.authors.value else [])
              && r.dependencies == Some(if m.dependencies.Some? then m.dependencies.value else [])
              && r.externalDependencies == Some(if m.externalDependencies.Some? then m.externalDependencies.value
                                                else ExternalDependencies([], []))
              && r.meta == Some(if m.meta.Some? then m.meta.value else map[])
    // the status is only ever set to a failure, never reset to success
    ensures r.loadStatus == m.loadStatus || r.loadStatus == InvalidName || r.loadStatus == NoEntrypoint
    ensures r.loadStatus == LoadSuccess ==> m.loadStatus == LoadSuccess
  {
    if m.name.None? then
      m.(name := Some(StatusName(InvalidName)), loadStatus := InvalidName)
    else if !MatchesNameRegex(m.name.value) then
      MatchesNameRegexIff(m.name.value);
      m.(name := Some(StatusName(InvalidName)), loadStatus := InvalidName)
    else if m.entrypoint.None? then
      MatchesNameRegexIff(m.name.value);
      m.(entrypoint := Some(StatusName(NoEntrypoint)), loadStatus := NoEntrypoint)
    else
      MatchesNameRegexIff(m.name.value);
      m.(version := if m.version.None? then Some("Unspecified") else m.version,
         authors := if m.authors.None? then Some([]) else m.authors,
         dependencies := if m.dependencies.None? then Some([]) else m.dependencies,
         externalDependencies := if m.externalDependencies.None? then Some(ExternalDependencies([], []))
                                 else m.externalDependencies,
         meta := if m.meta.None? then Some(map[]) else m.meta)
  }

  /** After a pass, a second `verifyIntegrity` changes nothing. */
  lemma VerifyIdempotentOnPass(m: Manifest)
    requires PassesChecks(m)
    ensures Verify(Verify(m)) == Verify(m)
  {
    MatchesNameRegexIff(m.name.value);
  }

  /**
   * The sentinel `"INVALID_NAME"` matches the name pattern itself, so verifying a rejected
   * descriptor a second time goes on to the entrypoint check and the defaults (its status stays
   * `InvalidName`).
   */
  lemma SecondVerifyAfterNullName(m: Manifest)
    requires m.name.None? && m.entrypoint.Some? && m.version.None?
    ensures Verify(m).loadStatus == InvalidName && Verify(m).version.None?
    ensures Verify(Verify(m)).loadStatus == InvalidName
    ensures Verify(Verify(m)).version == Some("Unspecified")
  {
    var s := StatusName(InvalidName);
    SentinelNameMatches();
    var once := m.(name := Some(s), loadStatus := InvalidName);
    assert Verify(m) == once;
    assert PassesChecks(once);
  }

  /** The sentinel name `"INVALID_NAME"` is itself a valid name. */
  lemma SentinelNameMatches()
    ensures ValidName(StatusName(InvalidName)) && MatchesNameRegex(StatusName(InvalidName))
  {
    SentinelNameValid(StatusName(InvalidName));
    MatchesNameRegexIff(StatusName(InvalidName));
  }

  lemma SentinelNameValid(s: string)
    requires s == "INVALID_NAME"
    ensures ValidName(s)
  {
    forall i | 1 <= i < |s| ensures IsNameChar(s[i]) {
      assert s[i] == '_' || 'A' <= s[i] <= 'Z';
    }
  }

  /** A discovered plugin as Gson and discovery leave it. */
  class DiscoveredPlugin {
    var name: Option<string>
    var entrypoint: Option<string>
    var version: Option<string>
    var authors: Option<seq<string>>
    var dependencies: Option<seq<string>>
    var externalDependencies: Option<ExternalDependencies>
    var meta: Option<Meta>
    /** All code locations of this plugin. */
    var files: seq<Loaders.Url>
    var loadStatus: LoadStatus
    /** The loader that powers this plugin, an index into the process's loader table. */
    var classLoader: Option<nat>

    /** The fields `verifyIntegrity` reads and writes. */
    function Fields(): (m: Manifest)
      reads this
      ensures m.name == name && m.entrypoint == entrypoint && m.loadStatus == loadStatus
    {
      Manifest(name, entrypoint, version, authors, dependencies, externalDependencies, meta, loadStatus)
    }

    /** Deserialisation: the JSON fields as parsed, no files, status `LoadSuccess`, no loader. */
    constructor (parsed: Manifest)
      ensures Fields() == parsed.(loadStatus := LoadSuccess)
      ensures files == [] && classLoader.None?
    {
      name := parsed.name;
      entrypoint := parsed.entrypoint;
      version := parsed.version;
      authors := parsed.authors;
      dependencies := parsed.dependencies;
      externalDependencies := parsed.externalDependencies;
      meta := parsed.meta;
      files := [];
      loadStatus := LoadSuccess;
      classLoader := None;
    }

    /** `verifyIntegrity`: rewrites the fields in place as `Verify` describes. */
    method VerifyIntegrity()
      modifies this
      ensures Fields() == Verify(old(Fields()))
      ensures files == old(files) && classLoader == old(classLoader)
    {
      ghost var m := Fields();
      if name.None? {
        loadStatus := InvalidName;
        name := Some(StatusName(loadStatus));
        assert Fields() == m.(name := Some("INVALID_NAME"), loadStatus := InvalidName);
        return;
      }
      if !MatchesNameRegex(name.value) {
        MatchesNameRegexIff(name.value);
        loadStatus := InvalidName;
        name := Some(StatusName(loadStatus));
        assert Fields() == m.(name := Some("INVALID_NAME"), loadStatus := InvalidName);
        return;
      }
      MatchesNameRegexIff(name.value);
      if entrypoint.None? {
        loadStatus := NoEntrypoint;
        entrypoint := Some(StatusName(loadStatus));
        assert Fields() == m.(entrypoint := Some("NO_ENTRYPOINT"), loadStatus := NoEntrypoint);
        return;
      }
      version := if version.None? then Some("Unspecified") else version;
      authors := if authors.None? then Some([]) else authors;
      dependencies := if dependencies.None? then Some([]) else dependencies;
      externalDependencies := if externalDependencies.None? then Some(ExternalDependencies([], []))
                              else externalDependencies;
      meta := if meta.None? then Some(map[]) else meta;
      assert Fields() == m.(version := version, authors := authors, dependencies := dependencies,
                            externalDependencies := externalDependencies, meta := meta);
    }

    /**
     * `createClassLoader`: fails if a loader exists; otherwise builds one from a snapshot of
     * `files`. `own` is what those files define.
     */
    method CreateClassLoader(loaders: Loaders.LoaderTable, own: Loaders.Archive) returns (r: Outcome)
      requires loaders.Valid()
      modifies this, loaders
      ensures loaders.Valid()
      ensures old(classLoader).Some? ==>
                r == Fail(IllegalState) && classLoader == old(classLoader) && unchanged(loaders)
      ensures old(classLoader).None? ==>
                && r == Pass
                && classLoader == Some(|old(loaders.table)|)
                && loaders.table == old(loaders.table) +
                     [Loaders.LoaderRec("Pl_" + (if name.Some? then name.value else "null"),
                                        old(files), old(loaders.host), own, [], None, None)]
                && loaders.registry == old(loaders.registry) + [|old(loaders.table)|]
      ensures Fields() == old(Fields()) && files == old(files)
      ensures loaders.host == old(loaders.host) && loaders.globalChildren == old(loaders.globalChildren)
    {
      if classLoader.Some? {
        return Fail(IllegalState);
      }
      var urls := files;
      var id := loaders.NewLoader(if name.Some? then name.value else "null", urls, own);
      classLoader := Some(id);
      r := Pass;
    }
  }
}
