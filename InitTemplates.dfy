/**
 * The content rewriters of src/init/templates.ts, which turn the user's
 * `prd` skill and `complete-next-task` command into their ralph variants.
 *
 * Every regular expression there is a literal text without metacharacters
 * (the escaped `.`, `/`, `(` and `)` stand for themselves) and every
 * replacement is free of `$`, so a global `replace` is `Text.ReplaceAll`.
 * The one exception is the skill-name rewrite: not global, and anchored
 * with `^` in multiline mode, so it rewrites only the first occurrence
 * that starts a line.
 */
module InitTemplates {
  import opened Text

  // ---------------------------------------------------------------------------
  // The first occurrence at the start of a line
  // ---------------------------------------------------------------------------

  /** The characters after which `^` matches in multiline mode. */
  predicate IsLineTerminator(c: char) {
    c == '\n' || c == '\r' || c == '\U{2028}' || c == '\U{2029}'
  }

  /** Index `i` of `s` starts a line. */
  predicate LineStart(s: string, i: int)
    requires 0 <= i <= |s|
  {
    i == 0 || IsLineTerminator(s[i - 1])
  }

  /** `pat` occurs in `s` at index `j`, and `j` starts a line. */
  predicate LineStartMatch(pat: string, s: string, j: int) {
    OccursAt(pat, s, j) && LineStart(s, j)
  }

  /** `s.replace(/^pat/m, rep)` searching from index `i` on. */
  function ReplaceFirstLineStartFrom(s: string, i: nat, pat: string, rep: string): string
    requires i <= |s| && pat != []
    decreases |s| - i
  {
    if i + |pat| > |s| then s
    else if LineStart(s, i) && s[i..i + |pat|] == pat then s[..i] + rep + s[i + |pat|..]
    else ReplaceFirstLineStartFrom(s, i + 1, pat, rep)
  }

  function ReplaceFirstLineStart(s: string, pat: string, rep: string): string
    requires pat != []
  {
    ReplaceFirstLineStartFrom(s, 0, pat, rep)
  }

  /** Only the first line-start occurrence is rewritten; the text around it is kept. */
  lemma {:induction false} ReplaceFirstLineStartAt(s: string, i: nat, pat: string, rep: string, j: nat)
    requires pat != [] && i <= j && LineStartMatch(pat, s, j)
    requires forall k :: i <= k < j ==> !LineStartMatch(pat, s, k)
    ensures ReplaceFirstLineStartFrom(s, i, pat, rep) == s[..j] + rep + s[j + |pat|..]
    decreases j - i
  {
    if i < j {
      assert !LineStartMatch(pat, s, i);
      ReplaceFirstLineStartAt(s, i + 1, pat, rep, j);
    }
  }

  /** Without a line-start occurrence, the text is returned as it is. */
  lemma {:induction false} ReplaceFirstLineStartNone(s: string, i: nat, pat: string, rep: string)
    requires pat != [] && i <= |s|
    requires forall k :: i <= k ==> !LineStartMatch(pat, s, k)
    ensures ReplaceFirstLineStartFrom(s, i, pat, rep) == s
    decreases |s| - i
  {
    if i + |pat| <= |s| {
      assert !LineStartMatch(pat, s, i);
      ReplaceFirstLineStartNone(s, i + 1, pat, rep);
    }
  }

  // ---------------------------------------------------------------------------
  // transformSkillContent
  // ---------------------------------------------------------------------------

  const NameLine: string := "---\nname: prd\n"
  const RalphNameLine: string := "---\nname: ralph-prd\n"
  const FeatureStem: string := "prd-<feature-name>.md"
  const FeatureFile: string := "`" + FeatureStem + "`"
  const RalphFeatureFile: string := "`.ralph/prd/<feature-name>/prd.md`"
  const NamedFile: string := "`prd-<name>.md`"
  const RalphNamedFile: string := "`.ralph/prd/<name>/prd.md`"
  const GeneratePrefix: string := "Generate markdown PRD to "
  const GenerateSuffix: string := " in project root"
  const GenerateLine: string := GeneratePrefix + FeatureFile + GenerateSuffix
  const RalphGenerateLine: string := "Generate markdown PRD to `.ralph/prd/<feature-name>/prd.md`"
  const SavePrefix: string := "Save to "
  const SaveSuffix: string := " (project root):"
  const SaveLine: string := SavePrefix + FeatureFile + SaveSuffix
  const RalphSaveLine: string := "Save to `.ralph/prd/<feature-name>/prd.md`:"
  const SavedMessage: string := "PRD saved to prd-<name>.md"
  const RalphSavedMessage: string := "PRD saved to .ralph/prd/<name>/prd.md"

  /** The skill after the name rewrite and the two backticked file-name rewrites. */
  function SkillPaths(content: string): string {
    var named := ReplaceFirstLineStart(content, NameLine, RalphNameLine);
    var feature := ReplaceAll(named, FeatureFile, RalphFeatureFile);
    ReplaceAll(feature, NamedFile, RalphNamedFile)
  }

  /** `transformSkillContent(content)`: no unrewritten `PRD saved to prd-<name>.md` is left. */
  function TransformSkillContent(content: string): (r: string)
    ensures !Occurs(SavedMessage, r)
  {
    var generate := ReplaceAll(SkillPaths(content), GenerateLine, RalphGenerateLine);
    var save := ReplaceAll(generate, SaveLine, RalphSaveLine);
    SavedMessageNeverFormed();
    NoOccurrenceAfterReplaceAll(save, SavedMessage, RalphSavedMessage, SavedMessage);
    ReplaceAll(save, SavedMessage, RalphSavedMessage)
  }

  // ---------------------------------------------------------------------------
  // transformCommandContent
  // ---------------------------------------------------------------------------

  const CommandName: string := "/complete-next-task"
  const RalphCommandName: string := "/ralph-complete-next-task"
  const StateDirSlash: string := ".claude/state/"
  const PrdDirSlash: string := ".ralph/prd/"
  const StateDir: string := ".claude/state"
  const PrdDir: string := ".ralph/prd"
  const FindState: string := "find_claude_state"
  const FindRalphState: string := "find_ralph_state"
  const StateDirToken: string := "<state-dir>"
  const RalphDirToken: string := "<ralph-dir>"

  /** The command after the name and the two state-directory rewrites. */
  function CommandDirs(content: string): string {
    var named := ReplaceAll(content, CommandName, RalphCommandName);
    var slashed := ReplaceAll(named, StateDirSlash, PrdDirSlash);
    ReplaceAll(slashed, StateDir, PrdDir)
  }

  /** `transformCommandContent(content)`: no `.claude/state` is left. */
  function TransformCommandContent(content: string): (r: string)
    ensures !Occurs(StateDir, r)
  {
    var slashed := ReplaceAll(ReplaceAll(content, CommandName, RalphCommandName), StateDirSlash, PrdDirSlash);
    var find := ReplaceAll(CommandDirs(content), FindState, FindRalphState);
    StateDirNeverFormed();
    NoOccurrenceAfterReplaceAll(slashed, StateDir, PrdDir, StateDir);
    NoOccurrenceAfterReplaceAll(CommandDirs(content), FindState, FindRalphState, StateDir);
    NoOccurrenceAfterReplaceAll(find, StateDirToken, RalphDirToken, StateDir);
    ReplaceAll(find, StateDirToken, RalphDirToken)
  }

  // ---------------------------------------------------------------------------
  // Alignment of patterns and replacements
  // ---------------------------------------------------------------------------

  /**
   * Replacing `q` by `r` cannot create an occurrence of `p`: no suffix of
   * `r` and no proper suffix of `p` lines up with the other.
   */
  ghost predicate NeverFormed(q: string, r: string, p: string) {
    q != [] && p != []
    && (forall i :: 0 <= i < |r| ==> !Comparable(r[i..], p))
    && (forall i :: 1 <= i < |p| ==> !Comparable(p[i..], r))
  }

  /** `c` does not occur in `s` from index `lo` on. */
  predicate NoChar(s: string, c: char, lo: nat) {
    forall i :: lo <= i < |s| ==> s[i] != c
  }

  /** Suffixes of `x` from `lo` on cannot line up with `y` when they never hold `y`'s first character. */
  lemma Unaligned(x: string, y: string, lo: nat)
    requires y != [] && NoChar(x, y[0], lo)
    ensures forall i :: lo <= i < |x| ==> !Comparable(x[i..], y)
  {
    forall i | lo <= i < |x| ensures !Comparable(x[i..], y) {
      assert x[i..][0] == x[i];
    }
  }

  /**
   * In `a`, a backticked `m` and `b`, a backtick is either of the two
   * quoting `m`; when the characters after both differ from `r`'s second,
   * no proper suffix lines up with `r`, a text starting with a backtick.
   */
  lemma QuotedUnaligned(a: string, m: string, b: string, r: string)
    requires |r| >= 2 && r[0] == '`'
    requires NoChar(a, '`', 0) && NoChar(m, '`', 0) && NoChar(b, '`', 0)
    requires m != [] && m[0] != r[1] && b != [] && b[0] != r[1]
    ensures var p := a + ("`" + m + "`") + b;
      forall i :: 1 <= i < |p| ==> !Comparable(p[i..], r)
  {
    var p := a + ("`" + m + "`") + b;
    forall i | 1 <= i < |p| ensures !Comparable(p[i..], r) {
      assert p[i..][0] == p[i];
      if i < |a| {
        assert p[i] == a[i];
      } else if i == |a| {
        assert p[i + 1] == m[0];
        assert p[i..][1] == p[i + 1];
      } else if i <= |a| + |m| {
        assert p[i] == m[i - |a| - 1];
      } else if i == |a| + |m| + 1 {
        assert p[i + 1] == b[0];
        assert p[i..][1] == p[i + 1];
      } else {
        assert p[i] == b[i - |a| - |m| - 2];
      }
    }
  }

  /** The two backticked path rewrites never form a pattern that is a backticked name between other text. */
  lemma PathRewritesKeepAbsent(s: string, p: string, a: string, m: string, b: string)
    requires p == a + ("`" + m + "`") + b && a != []
    requires NoChar(RalphFeatureFile, p[0], 0) && NoChar(RalphNamedFile, p[0], 0)
    requires NoChar(a, '`', 0) && NoChar(m, '`', 0) && NoChar(b, '`', 0)
    requires m != [] && m[0] != '.' && b != [] && b[0] != '.'
    requires !Occurs(p, s) || Occurs(FeatureFile, p)
    ensures !Occurs(p, ReplaceAll(ReplaceAll(s, FeatureFile, RalphFeatureFile), NamedFile, RalphNamedFile))
  {
    Unaligned(RalphFeatureFile, p, 0);
    Unaligned(RalphNamedFile, p, 0);
    QuotedUnaligned(a, m, b, RalphFeatureFile);
    QuotedUnaligned(a, m, b, RalphNamedFile);
    NoOccurrenceAfterReplaceAll(s, FeatureFile, RalphFeatureFile, p);
    NoOccurrenceAfterReplaceAll(ReplaceAll(s, FeatureFile, RalphFeatureFile), NamedFile, RalphNamedFile, p);
  }

  /** `p` occurs in `a + p + b`. */
  lemma OccursInMiddle(p: string, a: string, b: string)
    ensures Occurs(p, a + p + b)
  {
    assert OccursAt(p, a + p + b, |a|);
  }

  // ---------------------------------------------------------------------------
  // Properties
  // ---------------------------------------------------------------------------

  /**
   * The `Generate markdown PRD …` and `Save to …` rewrites never match: the
   * backticked file name inside their patterns was rewritten just before.
   * The skill transform is the two file-name rewrites and the saved-message
   * rewrite alone.
   */
  lemma SkillDeadRewrites(content: string)
    ensures TransformSkillContent(content) == ReplaceAll(SkillPaths(content), SavedMessage, RalphSavedMessage)
  {
    var named := ReplaceFirstLineStart(content, NameLine, RalphNameLine);
    QuotedPartsFacts();
    GenerateFacts();
    OccursInMiddle(FeatureFile, GeneratePrefix, GenerateSuffix);
    PathRewritesKeepAbsent(named, GenerateLine, GeneratePrefix, FeatureStem, GenerateSuffix);
    ReplaceAllAbsent(SkillPaths(content), GenerateLine, RalphGenerateLine);
    SaveFacts();
    OccursInMiddle(FeatureFile, SavePrefix, SaveSuffix);
    PathRewritesKeepAbsent(named, SaveLine, SavePrefix, FeatureStem, SaveSuffix);
    ReplaceAllAbsent(SkillPaths(content), SaveLine, RalphSaveLine);
  }

  lemma QuotedPartsFacts()
    ensures NoChar(FeatureStem, '`', 0) && FeatureStem != [] && FeatureStem[0] == 'p'
  {
  }

  lemma GenerateFacts()
    ensures GeneratePrefix != [] && GenerateLine[0] == 'G'
    ensures NoChar(GeneratePrefix, '`', 0) && NoChar(GenerateSuffix, '`', 0) && GenerateSuffix != [] && GenerateSuffix[0] == ' '
    ensures NoChar(RalphFeatureFile, 'G', 0) && NoChar(RalphNamedFile, 'G', 0)
  {
  }

  lemma SaveFacts()
    ensures SavePrefix != [] && SaveLine[0] == 'S'
    ensures NoChar(SavePrefix, '`', 0) && NoChar(SaveSuffix, '`', 0) && SaveSuffix != [] && SaveSuffix[0] == ' '
    ensures NoChar(RalphFeatureFile, 'S', 0) && NoChar(RalphNamedFile, 'S', 0)
  {
  }

  /** The first line-start `---\nname: prd\n` becomes `---\nname: ralph-prd\n`; the text around it is kept. */
  lemma SkillNameRewrite(content: string, j: nat)
    requires LineStartMatch(NameLine, content, j)
    requires forall k :: 0 <= k < j ==> !LineStartMatch(NameLine, content, k)
    ensures ReplaceFirstLineStart(content, NameLine, RalphNameLine)
      == content[..j] + RalphNameLine + content[j + |NameLine|..]
  {
    ReplaceFirstLineStartAt(content, 0, NameLine, RalphNameLine, j);
  }

  lemma SavedMessageNeverFormed()
    ensures NeverFormed(SavedMessage, RalphSavedMessage, SavedMessage) && Occurs(SavedMessage, SavedMessage)
  {
    SavedMessageFacts();
    Unaligned(RalphSavedMessage, SavedMessage, 1);
    Unaligned(SavedMessage, RalphSavedMessage, 1);
    assert OccursAt(SavedMessage, SavedMessage, 0);
  }

  lemma SavedMessageFacts()
    ensures SavedMessage[0] == RalphSavedMessage[0] == 'P'
    ensures NoChar(RalphSavedMessage, 'P', 1) && NoChar(SavedMessage, 'P', 1)
    ensures !Comparable(RalphSavedMessage, SavedMessage)
  {
    assert RalphSavedMessage[13] != SavedMessage[13];
  }

  /** A skill holding none of the patterns is returned unchanged. */
  lemma SkillUnchanged(content: string)
    requires forall k :: !LineStartMatch(NameLine, content, k)
    requires !Occurs(FeatureFile, content) && !Occurs(NamedFile, content) && !Occurs(SavedMessage, content)
    ensures TransformSkillContent(content) == content
  {
    ReplaceFirstLineStartNone(content, 0, NameLine, RalphNameLine);
    ReplaceAllAbsent(content, FeatureFile, RalphFeatureFile);
    ReplaceAllAbsent(content, NamedFile, RalphNamedFile);
    SkillDeadRewrites(content);
    ReplaceAllAbsent(content, SavedMessage, RalphSavedMessage);
  }

  lemma StateDirNeverFormed()
    ensures NeverFormed(StateDir, PrdDir, StateDir) && Occurs(StateDir, StateDir)
    ensures NeverFormed(FindState, FindRalphState, StateDir)
    ensures NeverFormed(StateDirToken, RalphDirToken, StateDir)
  {
    StateDirFacts();
    Unaligned(PrdDir, StateDir, 1);
    Unaligned(StateDir, PrdDir, 1);
    assert OccursAt(StateDir, StateDir, 0);
    Unaligned(FindRalphState, StateDir, 0);
    Unaligned(StateDir, FindRalphState, 1);
    Unaligned(RalphDirToken, StateDir, 0);
    Unaligned(StateDir, RalphDirToken, 1);
  }

  lemma StateDirFacts()
    ensures StateDir[0] == PrdDir[0] == '.' && FindRalphState[0] == 'f' && RalphDirToken[0] == '<'
    ensures NoChar(PrdDir, '.', 1) && NoChar(StateDir, '.', 1) && !Comparable(PrdDir, StateDir)
    ensures NoChar(FindRalphState, '.', 0) && NoChar(StateDir, 'f', 1)
    ensures NoChar(RalphDirToken, '.', 0) && NoChar(StateDir, '<', 1)
  {
    assert PrdDir[1] != StateDir[1];
  }

  /** A command holding none of the patterns is returned unchanged. */
  lemma CommandUnchanged(content: string)
    requires !Occurs(CommandName, content) && !Occurs(StateDirSlash, content) && !Occurs(StateDir, content)
    requires !Occurs(FindState, content) && !Occurs(StateDirToken, content)
    ensures TransformCommandContent(content) == content
  {
    ReplaceAllAbsent(content, CommandName, RalphCommandName);
    ReplaceAllAbsent(content, StateDirSlash, PrdDirSlash);
    ReplaceAllAbsent(content, StateDir, PrdDir);
    ReplaceAllAbsent(content, FindState, FindRalphState);
    ReplaceAllAbsent(content, StateDirToken, RalphDirToken);
  }
}
