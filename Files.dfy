/**
 * The prompt assembly of src/utils/files.ts: `readContextFiles` renders
 * each context file under a `# File:` heading, and `buildPrompt` appends
 * them to the task after a `---` rule.
 *
 * The file system is a map from absolute paths to contents; a path missing
 * from it is a failed read, which rejects the whole call with that path.
 */
module Files {
  import opened Wrappers
  import opened Text

  /** `resolve(cwd, path)` for paths that need no normalisation. */
  function Resolve(cwd: string, path: string): (r: string)
    ensures path != [] && path[0] == '/' ==> r == path
  {
    if path == [] then cwd
    else if path[0] == '/' then path
    else PathJoin([cwd, path])
  }

  /** One rendered context file: the path as given, then its content. */
  function Section(path: string, content: string): (r: string)
    ensures IsPrefix("# File: " + path + "\n", r) && IsSuffix(content, r)
  {
    "# File: " + path + "\n" + content
  }

  /** Every path resolves to a readable file. */
  predicate AllReadable(cwd: string, paths: seq<string>, files: map<string, string>) {
    forall i :: 0 <= i < |paths| ==> Resolve(cwd, paths[i]) in files
  }

  /** The rendered files, in the order given. */
  function Sections(cwd: string, paths: seq<string>, files: map<string, string>): (r: seq<string>)
    requires AllReadable(cwd, paths, files)
    ensures |r| == |paths|
  {
    seq(|paths|, i requires 0 <= i < |paths| => Section(paths[i], files[Resolve(cwd, paths[i])]))
  }

  /** The text `readContextFiles` resolves to: the sections separated by a blank line. */
  function ContextText(cwd: string, paths: seq<string>, files: map<string, string>): string
    requires AllReadable(cwd, paths, files)
  {
    Join(Sections(cwd, paths, files), "\n\n")
  }

  /**
   * `readContextFiles(paths)`: the context text, or the first path whose
   * read fails.
   */
  method ReadContextFiles(cwd: string, paths: seq<string>, files: map<string, string>) returns (r: Result<string, string>)
    ensures r.Ok? <==> AllReadable(cwd, paths, files)
    ensures r.Ok? ==> r.value == ContextText(cwd, paths, files)
    ensures r.Err? ==>
      exists k :: 0 <= k < |paths| && r.error == paths[k] && Resolve(cwd, paths[k]) !in files && AllReadable(cwd, paths[..k], files)
  {
    var contents: seq<string> := [];
    var i := 0;
    while i < |paths|
      invariant 0 <= i <= |paths|
      invariant AllReadable(cwd, paths[..i], files)
      invariant contents == Sections(cwd, paths[..i], files)
    {
      var absolutePath := Resolve(cwd, paths[i]);
      if absolutePath !in files {
        return Err(paths[i]);
      }
      contents := contents + [Section(paths[i], files[absolutePath])];
      i := i + 1;
      assert paths[..i] == paths[..i - 1] + [paths[i - 1]];
    }
    assert paths[..i] == paths;
    return Ok(Join(contents, "\n\n"));
  }

  /** Every context file, if any are given, is readable. */
  predicate ContextReadable(cwd: string, contextFiles: Option<seq<string>>, files: map<string, string>) {
    contextFiles.None? || AllReadable(cwd, contextFiles.value, files)
  }

  /**
   * The prompt `buildPrompt` resolves to: the task alone without context
   * files; otherwise the task, a `---` rule between blank lines, and the
   * context text.
   */
  function PromptText(task: string, contextFiles: Option<seq<string>>, cwd: string, files: map<string, string>): string
    requires ContextReadable(cwd, contextFiles, files)
  {
    if contextFiles.None? || contextFiles.value == [] then task
    else task + "\n\n---\n\n" + ContextText(cwd, contextFiles.value, files)
  }

  /** `buildPrompt(task, contextFiles)`; a failed read rejects with the path that failed. */
  method BuildPrompt(task: string, contextFiles: Option<seq<string>>, cwd: string, files: map<string, string>)
    returns (r: Result<string, string>)
    ensures r.Ok? <==> ContextReadable(cwd, contextFiles, files)
    ensures r.Ok? ==> r.value == PromptText(task, contextFiles, cwd, files)
    ensures r.Err? ==> exists k :: 0 <= k < |contextFiles.value| && r.error == contextFiles.value[k]
  {
    if contextFiles.None? || |contextFiles.value| == 0 {
      return Ok(task);
    }
    var contextContent := ReadContextFiles(cwd, contextFiles.value, files);
    if contextContent.Err? {
      return Err(contextContent.error);
    }
    return Ok(task + "\n\n---\n\n" + contextContent.value);
  }

  /** Without context files the prompt is the task, unchanged; with them, the task is its prefix. */
  lemma PromptKeepsTask(task: string, contextFiles: Option<seq<string>>, cwd: string, files: map<string, string>)
    requires ContextReadable(cwd, contextFiles, files)
    ensures contextFiles.None? || contextFiles == Some([]) ==> PromptText(task, contextFiles, cwd, files) == task
    ensures IsPrefix(task, PromptText(task, contextFiles, cwd, files))
  {
  }

  /** No context files render to the empty text. */
  lemma ContextEmpty(cwd: string, files: map<string, string>)
    ensures ContextText(cwd, [], files) == ""
  {
  }

  /** Each further file adds a blank line and its section at the end. */
  lemma ContextSnoc(cwd: string, paths: seq<string>, path: string, files: map<string, string>)
    requires AllReadable(cwd, paths, files) && Resolve(cwd, path) in files
    requires paths != []
    ensures AllReadable(cwd, paths + [path], files)
    ensures ContextText(cwd, paths + [path], files)
      == ContextText(cwd, paths, files) + "\n\n" + Section(path, files[Resolve(cwd, path)])
  {
    assert forall i :: 0 <= i < |paths| ==> (paths + [path])[i] == paths[i];
    var all := Sections(cwd, paths + [path], files);
    JoinLast(all, "\n\n");
    assert AllButLast(all) == Sections(cwd, paths, files);
  }

  /** A single file renders to its heading and its content. */
  lemma ContextSingle(cwd: string, path: string, files: map<string, string>)
    requires Resolve(cwd, path) in files
    ensures ContextText(cwd, [path], files) == "# File: " + path + "\n" + files[Resolve(cwd, path)]
  {
    assert AllReadable(cwd, [path], files);
    assert Sections(cwd, [path], files) == [Section(path, files[Resolve(cwd, path)])];
  }

  /** The heading shows the path as given, while the content is that of the file it resolves to. */
  lemma HeadingKeepsGivenPath(cwd: string, paths: seq<string>, files: map<string, string>, k: nat)
    requires AllReadable(cwd, paths, files) && k < |paths|
    ensures IsPrefix("# File: " + paths[k] + "\n", Sections(cwd, paths, files)[k])
    ensures IsSuffix(files[Resolve(cwd, paths[k])], Sections(cwd, paths, files)[k])
  {
  }
}
