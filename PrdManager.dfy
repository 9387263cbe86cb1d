/**
 * PRD lookup of src/prd/manager.ts: the status of a PRD, the merged
 * listing of the project-local and the global PRD directories, the choice
 * between them, and the error mapping of `getPrd`.
 *
 * The file system enters as values: an `Env` holds the working directory,
 * the home directory and the set of paths that exist (`access` succeeds);
 * a `PrdsDir` holds the listing of a PRD directory (`None` when `readdir`
 * fails) and, by entry name, what each `prd.json` that is read and
 * parses to a truthy value holds. Paths are the parts joined with `/`.
 */
module PrdManager {
  import opened Wrappers
  import opened Text

  datatype Task = Task(id: string, category: string, description: string, steps: seq<string>, passes: bool)

  datatype PrdJson = PrdJson(prdName: string, tasks: seq<Task>)

  datatype PrdStatusType = Pending | InProgress | Completed

  datatype Location = Local | Global

  datatype PrdStatus = PrdStatus(
    name: string, description: string, status: PrdStatusType,
    tasksTotal: nat, tasksCompleted: nat, location: Location)

  // ---------------------------------------------------------------------------
  // computeStatus
  // ---------------------------------------------------------------------------

  /** `tasks.filter((t) => t.passes).length` */
  function CountPassing(tasks: seq<Task>): (r: nat)
    ensures r <= |tasks|
    ensures r == 0 <==> forall i :: 0 <= i < |tasks| ==> !tasks[i].passes
    ensures r == |tasks| <==> forall i :: 0 <= i < |tasks| ==> tasks[i].passes
    decreases |tasks|
  {
    if tasks == [] then 0
    else (if tasks[0].passes then 1 else 0) + CountPassing(tasks[1..])
  }

  /** Counting passing tasks distributes over concatenation: it is a count, one per passing task. */
  lemma {:induction false} CountPassingAppend(a: seq<Task>, b: seq<Task>)
    ensures CountPassing(a + b) == CountPassing(a) + CountPassing(b)
    decreases |a|
  {
    if a != [] {
      CountPassingAppend(a[1..], b);
      assert (a + b)[1..] == a[1..] + b;
    } else {
      assert a + b == b;
    }
  }

  /**
   * `computeStatus(prd)`: pending while no task passes (an empty task list
   * included), completed once every task of a non-empty list passes, in
   * progress otherwise.
   */
  function ComputeStatus(prd: PrdJson): (r: PrdStatusType)
    ensures r == Pending <==> forall i :: 0 <= i < |prd.tasks| ==> !prd.tasks[i].passes
    ensures r == Completed <==> |prd.tasks| > 0 && forall i :: 0 <= i < |prd.tasks| ==> prd.tasks[i].passes
    ensures r == InProgress <==>
      (exists i :: 0 <= i < |prd.tasks| && prd.tasks[i].passes)
      && (exists i :: 0 <= i < |prd.tasks| && !prd.tasks[i].passes)
  {
    var completed := CountPassing(prd.tasks);
    if completed == 0 then Pending
    else if completed == |prd.tasks| then Completed
    else InProgress
  }

  /** The entry `listPrds` pushes for a PRD. */
  function StatusOf(prd: PrdJson, location: Location): (r: PrdStatus)
    ensures r.name == prd.prdName && r.location == location
    ensures r.tasksTotal == |prd.tasks| && r.tasksCompleted == CountPassing(prd.tasks) <= r.tasksTotal
    ensures r.description == if prd.tasks == [] then "" else prd.tasks[0].description
    ensures r.status == Pending <==> r.tasksCompleted == 0
    ensures r.status == Completed <==> 0 < r.tasksCompleted == r.tasksTotal
  {
    PrdStatus(
      prd.prdName,
      if |prd.tasks| > 0 then prd.tasks[0].description else "",
      ComputeStatus(prd),
      |prd.tasks|,
      CountPassing(prd.tasks),
      location)
  }

  // ---------------------------------------------------------------------------
  // listPrds
  // ---------------------------------------------------------------------------

  /**
   * What `getPrdFromDir` hands back for an entry whose `prd.json` is read
   * and parsed: a value of the PRD shape, or a truthy value without it
   * (`{}`, `"x"`), on which `computeStatus` throws a `TypeError`. An entry
   * missing from the map is one whose read or parse failed, or that parsed
   * to a falsy value (`null`, `false`, `0`, `""`): `getPrdFromDir` gives
   * `null` or that value and `if (!prd)` skips the entry.
   */
  datatype Parsed = IsPrd(prd: PrdJson) | NotPrd

  datatype PrdsDir = PrdsDir(listing: Option<seq<string>>, parsed: map<string, Parsed>)

  /** `readPrdEntries(dir)`: an unreadable directory lists nothing. */
  function Entries(dir: PrdsDir): seq<string> {
    dir.listing.GetOr([])
  }

  /** The entries whose `prd.json` holds a PRD, with that PRD. */
  function ValidPrds(parsed: map<string, Parsed>): (r: map<string, PrdJson>)
    ensures forall e :: e in r <==> e in parsed && parsed[e].IsPrd?
    ensures forall e :: e in r ==> r[e] == parsed[e].prd
  {
    map e | e in parsed && parsed[e].IsPrd? :: parsed[e].prd
  }

  /** The rejection of `listPrds`: `computeStatus` read `tasks` of a value that is not a PRD. */
  datatype ListError = TypeError

  /** Some entry the loop reaches (listed, not skipped) parses to a value that is not a PRD. */
  predicate Throws(entries: seq<string>, parsed: map<string, Parsed>, skip: set<string>) {
    exists i :: 0 <= i < |entries| && entries[i] !in skip && entries[i] in parsed && parsed[entries[i]] == NotPrd
  }

  /** The entries, in listing order, that are not skipped and hold a valid PRD. */
  function Kept(entries: seq<string>, prds: map<string, PrdJson>, skip: set<string>): (r: seq<string>)
    ensures |r| <= |entries|
    decreases |entries|
  {
    if entries == [] then []
    else
      var e := Last(entries);
      Kept(AllButLast(entries), prds, skip) + (if e !in skip && e in prds then [e] else [])
  }

  /** An entry is kept iff it is listed, not skipped, and holds a valid PRD. */
  lemma {:induction false} KeptMembers(entries: seq<string>, prds: map<string, PrdJson>, skip: set<string>)
    ensures forall e :: e in Kept(entries, prds, skip) <==> e in entries && e !in skip && e in prds
    decreases |entries|
  {
    if entries != [] {
      KeptMembers(AllButLast(entries), prds, skip);
      assert entries == AllButLast(entries) + [Last(entries)];
    }
  }

  /** The results one loop of `listPrds` pushes. */
  function Statuses(entries: seq<string>, prds: map<string, PrdJson>, skip: set<string>, location: Location): (r: seq<PrdStatus>)
    ensures forall k :: 0 <= k < |r| ==> r[k].location == location
    decreases |entries|
  {
    if entries == [] then []
    else
      var e := Last(entries);
      Statuses(AllButLast(entries), prds, skip, location)
        + (if e !in skip && e in prds then [StatusOf(prds[e], location)] else [])
  }

  /** Each result is the status of the kept entry at the same position. */
  lemma {:induction false} StatusesOfKept(entries: seq<string>, prds: map<string, PrdJson>, skip: set<string>, location: Location)
    ensures var r := Statuses(entries, prds, skip, location);
      var kept := Kept(entries, prds, skip);
      |r| == |kept| &&
      forall k :: 0 <= k < |r| ==> kept[k] in prds && r[k] == StatusOf(prds[kept[k]], location)
    decreases |entries|
  {
    if entries != [] {
      StatusesOfKept(AllButLast(entries), prds, skip, location);
    }
  }

  /** One more entry: what each loop of `listPrds` does with it. */
  lemma StatusesSnoc(entries: seq<string>, e: string, prds: map<string, PrdJson>, skip: set<string>, location: Location)
    ensures Statuses(entries + [e], prds, skip, location)
      == Statuses(entries, prds, skip, location) + (if e !in skip && e in prds then [StatusOf(prds[e], location)] else [])
  {
    assert AllButLast(entries + [e]) == entries;
  }

  /** The local entries with a valid PRD: the names they shadow. */
  function ValidNames(entries: seq<string>, prds: map<string, PrdJson>): set<string> {
    set e | e in entries && e in prds
  }

  /** The names the global loop skips. */
  function Shadowed(local: PrdsDir): set<string> {
    ValidNames(Entries(local), ValidPrds(local.parsed))
  }

  /** What `listPrds` resolves to when no reached entry throws. */
  function Listed(local: PrdsDir, global: PrdsDir): seq<PrdStatus> {
    Statuses(Entries(local), ValidPrds(local.parsed), {}, Local)
      + Statuses(Entries(global), ValidPrds(global.parsed), Shadowed(local), Global)
  }

  /**
   * How `listPrds` settles: it rejects when a local entry, or a global entry
   * that no valid local PRD shadows, parses to a value that is not a PRD.
   */
  function ListOutcome(local: PrdsDir, global: PrdsDir): Result<seq<PrdStatus>, ListError> {
    if Throws(Entries(local), local.parsed, {}) || Throws(Entries(global), global.parsed, Shadowed(local)) then Err(TypeError)
    else Ok(Listed(local, global))
  }

  /** A prefix with one more entry reaches what the prefix reached, and that entry if it is not skipped. */
  lemma ThrowsSnoc(entries: seq<string>, e: string, parsed: map<string, Parsed>, skip: set<string>)
    ensures Throws(entries + [e], parsed, skip) <==>
      Throws(entries, parsed, skip) || (e !in skip && e in parsed && parsed[e] == NotPrd)
  {
    var all := entries + [e];
    forall i | 0 <= i < |entries| ensures all[i] == entries[i] {}
    assert all[|entries|] == e;
  }

  /**
   * The first loop of `listPrds`: the valid local PRDs and their names, or
   * the `TypeError` of the first entry that is not a PRD.
   */
  method CollectLocal(entries: seq<string>, parsed: map<string, Parsed>)
    returns (r: Result<(seq<PrdStatus>, set<string>), ListError>)
    ensures r.Err? <==> Throws(entries, parsed, {})
    ensures r.Ok? ==>
      r.value.0 == Statuses(entries, ValidPrds(parsed), {}, Local) && r.value.1 == ValidNames(entries, ValidPrds(parsed))
  {
    var prds := ValidPrds(parsed);
    var results: seq<PrdStatus> := [];
    var seenNames: set<string> := {};
    var i := 0;
    while i < |entries|
      invariant 0 <= i <= |entries|
      invariant !Throws(entries[..i], parsed, {})
      invariant results == Statuses(entries[..i], prds, {}, Local)
      invariant seenNames == ValidNames(entries[..i], prds)
    {
      var entry := entries[i];
      if entry in parsed && parsed[entry] == NotPrd {
        assert entries[i] !in {};
        return Err(TypeError);
      }
      StatusesSnoc(entries[..i], entry, prds, {}, Local);
      ThrowsSnoc(entries[..i], entry, parsed, {});
      assert entries[..i + 1] == entries[..i] + [entry];
      if entry in parsed {
        seenNames := seenNames + {entry};
        results := results + [StatusOf(parsed[entry].prd, Local)];
      }
      i := i + 1;
    }
    assert entries[..i] == entries;
    return Ok((results, seenNames));
  }

  /**
   * The second loop of `listPrds`: after `localResults`, the valid global
   * PRDs not already seen, or the `TypeError` of the first unseen entry
   * that is not a PRD.
   */
  method CollectGlobal(entries: seq<string>, parsed: map<string, Parsed>, seenNames: set<string>, localResults: seq<PrdStatus>)
    returns (r: Result<seq<PrdStatus>, ListError>)
    ensures r.Err? <==> Throws(entries, parsed, seenNames)
    ensures r.Ok? ==> r.value == localResults + Statuses(entries, ValidPrds(parsed), seenNames, Global)
  {
    var prds := ValidPrds(parsed);
    var results := localResults;
    var j := 0;
    while j < |entries|
      invariant 0 <= j <= |entries|
      invariant !Throws(entries[..j], parsed, seenNames)
      invariant results == localResults + Statuses(entries[..j], prds, seenNames, Global)
    {
      var entry := entries[j];
      if entry !in seenNames && entry in parsed && parsed[entry] == NotPrd {
        return Err(TypeError);
      }
      StatusesSnoc(entries[..j], entry, prds, seenNames, Global);
      ThrowsSnoc(entries[..j], entry, parsed, seenNames);
      assert entries[..j + 1] == entries[..j] + [entry];
      if entry !in seenNames && entry in parsed {
        results := results + [StatusOf(parsed[entry].prd, Global)];
      }
      j := j + 1;
    }
    assert entries[..j] == entries;
    return Ok(results);
  }

  /** `listPrds()` */
  method ListPrds(local: PrdsDir, global: PrdsDir) returns (r: Result<seq<PrdStatus>, ListError>)
    ensures r == ListOutcome(local, global)
  {
    var collected := CollectLocal(Entries(local), local.parsed);
    if collected.Err? {
      return Err(TypeError);
    }
    var (localResults, seenNames) := collected.value;
    var merged := CollectGlobal(Entries(global), global.parsed, seenNames, localResults);
    if merged.Err? {
      return Err(TypeError);
    }
    return Ok(merged.value);
  }

  /** Every local result comes before every global one. */
  lemma ListedLocalFirst(local: PrdsDir, global: PrdsDir)
    ensures var r := Listed(local, global);
      forall i, j :: 0 <= i < j < |r| && r[j].location == Local ==> r[i].location == Local
  {
    var l := Statuses(Entries(local), ValidPrds(local.parsed), {}, Local);
    var g := Statuses(Entries(global), ValidPrds(global.parsed), Shadowed(local), Global);
    assert forall k :: |l| <= k < |l + g| ==> (l + g)[k] == g[k - |l|];
  }

  /**
   * A global entry yields a result iff it holds a valid PRD and no local
   * entry of the same name did; an invalid local entry does not shadow.
   */
  lemma ListedShadowing(local: PrdsDir, global: PrdsDir, e: string)
    ensures e in Kept(Entries(global), ValidPrds(global.parsed), Shadowed(local))
      <==> (e in Entries(global) && e in global.parsed && global.parsed[e].IsPrd?
        && !(e in Entries(local) && e in local.parsed && local.parsed[e].IsPrd?))
  {
    KeptMembers(Entries(global), ValidPrds(global.parsed), Shadowed(local));
  }

  /**
   * A shadowed global entry is never parsed: the listing settles as if its
   * `prd.json` were missing, even when it holds a value that is not a PRD.
   */
  lemma ShadowedEntryIgnored(local: PrdsDir, global: PrdsDir, e: string)
    requires e in Shadowed(local)
    ensures ListOutcome(local, global) == ListOutcome(local, global.(parsed := global.parsed - {e}))
  {
    var entries := Entries(global);
    var trimmed := global.(parsed := global.parsed - {e});
    var skip := Shadowed(local);
    assert ValidPrds(trimmed.parsed) == ValidPrds(global.parsed) - {e};
    StatusesWithoutSkipped(entries, ValidPrds(global.parsed), skip, e);
    assert Throws(entries, global.parsed, skip) <==> Throws(entries, trimmed.parsed, skip) by {
      forall i | 0 <= i < |entries| && entries[i] !in skip
        ensures (entries[i] in global.parsed && global.parsed[entries[i]] == NotPrd)
          == (entries[i] in trimmed.parsed && trimmed.parsed[entries[i]] == NotPrd)
      {
        assert entries[i] != e;
      }
    }
  }

  /** Dropping the PRD of a skipped name does not change a loop's results. */
  lemma {:induction false} StatusesWithoutSkipped(entries: seq<string>, prds: map<string, PrdJson>, skip: set<string>, e: string)
    requires e in skip
    ensures Statuses(entries, prds, skip, Global) == Statuses(entries, prds - {e}, skip, Global)
    decreases |entries|
  {
    if entries != [] {
      StatusesWithoutSkipped(AllButLast(entries), prds, skip, e);
    }
  }

  /** An unshadowed global entry that is not a PRD rejects the whole listing. */
  lemma UnshadowedNotPrdRejects(local: PrdsDir, global: PrdsDir, e: string)
    requires e in Entries(global) && e in global.parsed && global.parsed[e] == NotPrd
    requires e !in Shadowed(local)
    ensures ListOutcome(local, global) == Err(TypeError)
  {
    var i :| 0 <= i < |Entries(global)| && Entries(global)[i] == e;
    assert Throws(Entries(global), global.parsed, Shadowed(local));
  }

  /** Unreadable directories contribute no entries. */
  lemma ListedUnreadable(local: PrdsDir, global: PrdsDir)
    requires local.listing.None?
    ensures ListOutcome(local, global).Err? <==> Throws(Entries(global), global.parsed, {})
    ensures ListOutcome(local, global).Ok? ==>
      ListOutcome(local, global).value == Statuses(Entries(global), ValidPrds(global.parsed), {}, Global)
  {
    assert Shadowed(local) == {};
    assert !Throws(Entries(local), local.parsed, {});
    assert Statuses(Entries(local), ValidPrds(local.parsed), {}, Local) == [];
  }

  // ---------------------------------------------------------------------------
  // Directories
  // ---------------------------------------------------------------------------

  /** The working directory, the home directory, and the paths `access` finds. */
  datatype Env = Env(cwd: string, home: string, existing: set<string>)

  datatype PrdDirMode = Read | Write

  function LocalPrdDir(env: Env, name: string): string {
    PathJoin([env.cwd, ".ralph", "prd", name])
  }

  function GlobalPrdDir(env: Env, name: string): string {
    PathJoin([env.home, ".ralph", "prd", name])
  }

  /** `isProjectInitialized()`: `.ralph` exists in the working directory. */
  predicate ProjectInitialized(env: Env) {
    PathJoin([env.cwd, ".ralph"]) in env.existing
  }

  /**
   * `getPrdDir(name, mode)`: write mode picks the local directory when the
   * project is initialised; read mode when the local PRD directory exists;
   * the global directory otherwise.
   */
  function GetPrdDir(env: Env, name: string, mode: PrdDirMode): (r: string)
    ensures r == LocalPrdDir(env, name) || r == GlobalPrdDir(env, name)
    ensures mode == Write && ProjectInitialized(env) ==> r == LocalPrdDir(env, name)
    ensures mode == Read && LocalPrdDir(env, name) in env.existing ==> r == LocalPrdDir(env, name)
    ensures r != LocalPrdDir(env, name) ==>
      r == GlobalPrdDir(env, name) && (if mode == Write then !ProjectInitialized(env) else LocalPrdDir(env, name) !in env.existing)
  {
    if mode == Write then
      if ProjectInitialized(env) then LocalPrdDir(env, name) else GlobalPrdDir(env, name)
    else if LocalPrdDir(env, name) in env.existing then LocalPrdDir(env, name)
    else GlobalPrdDir(env, name)
  }

  /** `prdExists(name, location)`; `None` checks both locations. */
  function PrdExists(env: Env, name: string, location: Option<Location>): (r: bool)
    ensures location == Some(Local) ==> (r <==> LocalPrdDir(env, name) in env.existing)
    ensures location == Some(Global) ==> (r <==> GlobalPrdDir(env, name) in env.existing)
    ensures location == None ==>
      (r <==> LocalPrdDir(env, name) in env.existing || GlobalPrdDir(env, name) in env.existing)
  {
    match location
      case Some(Local) => LocalPrdDir(env, name) in env.existing
      case Some(Global) => GlobalPrdDir(env, name) in env.existing
      case None => LocalPrdDir(env, name) in env.existing || GlobalPrdDir(env, name) in env.existing
  }

  /** When a PRD exists anywhere, read mode resolves to a directory that exists, the local one first. */
  lemma ReadDirExists(env: Env, name: string)
    requires PrdExists(env, name, None)
    ensures GetPrdDir(env, name, Read) in env.existing
    ensures PrdExists(env, name, Some(Local)) ==> GetPrdDir(env, name, Read) == LocalPrdDir(env, name)
  {
  }

  // ---------------------------------------------------------------------------
  // getPrd
  // ---------------------------------------------------------------------------

  /** The outcome of `readFile`: the content, or an error with its `code` (`None` when it has none). */
  datatype ReadOutcome = Content(text: string) | ReadFailed(code: Option<string>)

  /** A rejection of `getPrd`: a new error with a message, or the read error passed on. */
  datatype GetPrdError = Message(text: string) | Rethrown(code: Option<string>)

  /** `getPrd(name)`, given what reading its `prd.json` gives and `JSON.parse`. */
  function GetPrd(env: Env, name: string, read: ReadOutcome, parse: string -> Option<PrdJson>): (r: Result<PrdJson, GetPrdError>)
    ensures r.Ok? <==> read.Content? && parse(read.text).Some?
    ensures r.Ok? ==> r.value == parse(read.text).value
    ensures read == ReadFailed(Some("EACCES")) ==>
      r == Err(Message("Permission denied: " + PathJoin([GetPrdDir(env, name, Read), "prd.json"])))
    ensures read == ReadFailed(Some("ENOENT")) ==> r == Err(Message("PRD not found: " + name))
    ensures read.ReadFailed? && read.code != Some("EACCES") && read.code != Some("ENOENT") ==>
      r == Err(Rethrown(read.code))
    ensures read.Content? && parse(read.text).None? ==>
      r == Err(Message("Invalid JSON in PRD file: " + PathJoin([GetPrdDir(env, name, Read), "prd.json"])))
  {
    var prdPath := PathJoin([GetPrdDir(env, name, Read), "prd.json"]);
    match read
      case ReadFailed(code) =>
        if code == Some("EACCES") then Err(Message("Permission denied: " + prdPath))
        else if code == Some("ENOENT") then Err(Message("PRD not found: " + name))
        else Err(Rethrown(code))
      case Content(text) =>
        match parse(text)
          case Some(prd) => Ok(prd)
          case None => Err(Message("Invalid JSON in PRD file: " + prdPath))
  }
}
