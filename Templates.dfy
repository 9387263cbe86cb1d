/**
 * The user prompt templates of src/templates/templates.ts: `substituteVars`,
 * which fills `$KEY` placeholders, and the copy loop of `ensureTemplates`.
 *
 * A `Record<string, string>` is the sequence of its entries in
 * `Object.entries` order. The file system enters as the outcome of `mkdir`
 * and the listing of the bundled directory (`None` when `readdir` fails);
 * whether each `copyFile` succeeds is chosen arbitrarily.
 */
module Templates {
  import opened Wrappers
  import opened Text

  // ---------------------------------------------------------------------------
  // substituteVars
  // ---------------------------------------------------------------------------

  /** The placeholder of a variable: its key after a `$`. */
  function Placeholder(key: string): (r: string)
    ensures |r| == |key| + 1 && r[0] == '$' && r[1..] == key
  {
    "$" + key
  }

  /**
   * `substituteVars` with each value inserted literally: for every entry in
   * order, every occurrence of its placeholder in the text so far is
   * replaced by its value.
   */
  function Substituted(template: string, vars: seq<(string, string)>): (r: string)
    ensures '$' !in template ==> r == template
    decreases |vars|
  {
    if vars == [] then template
    else
      var (key, value) := Last(vars);
      var text := Substituted(template, AllButLast(vars));
      if '$' in template then ReplaceAll(text, Placeholder(key), value)
      else
        // the text so far is still the template, which holds no placeholder
        PlaceholderNeedsDollar(template, key);
        ReplaceAllAbsent(template, Placeholder(key), value);
        ReplaceAll(text, Placeholder(key), value)
  }

  /** Text without a `$` holds no placeholder. */
  lemma PlaceholderNeedsDollar(text: string, key: string)
    requires '$' !in text
    ensures !Occurs(Placeholder(key), text)
  {
    forall j ensures !OccursAt(Placeholder(key), text, j) {
      if 0 <= j < |text| {
        assert text[j] in text;
      }
    }
  }

  /** `substituteVars(template, vars)` */
  method SubstituteVars(template: string, vars: seq<(string, string)>) returns (result: string)
    ensures result == Substituted(template, vars)
  {
    result := template;
    var i := 0;
    while i < |vars|
      invariant 0 <= i <= |vars|
      invariant result == Substituted(template, vars[..i])
    {
      var (key, value) := vars[i];
      assert AllButLast(vars[..i + 1]) == vars[..i];
      result := ReplaceAll(result, Placeholder(key), value);
      i := i + 1;
    }
    assert vars[..i] == vars;
  }

  /** Substitution is sequential: the later entries work on the text the earlier ones produced. */
  lemma {:induction false} SubstitutedAppend(template: string, first: seq<(string, string)>, second: seq<(string, string)>)
    ensures Substituted(template, first + second) == Substituted(Substituted(template, first), second)
    decreases |second|
  {
    if second == [] {
      assert first + second == first;
    } else {
      assert AllButLast(first + second) == first + AllButLast(second);
      assert Last(first + second) == Last(second);
      SubstitutedAppend(template, first, AllButLast(second));
    }
  }

  /** A key whose placeholder does not occur leaves the text unchanged. */
  lemma SubstitutedAbsentKey(text: string, key: string, value: string)
    requires !Occurs(Placeholder(key), text)
    ensures Substituted(text, [(key, value)]) == text
  {
    ReplaceAllAbsent(text, Placeholder(key), value);
  }

  /** Matching is by literal substring: `$A` also rewrites the start of `$AB`. */
  lemma PlaceholderPrefixRewritten()
    ensures Substituted("$AB", [("A", "x")]) == "xB"
  {
    assert "$AB"[..2] == "$A" && "$AB"[2..] == "B";
    assert ReplaceAll("B", "$A", "x") == "B";
  }

  /** A value that itself holds a later placeholder is rewritten by that later entry. */
  lemma InsertedTextSubstitutedAgain()
    ensures Substituted("$A", [("A", "$B"), ("B", "x")]) == "x"
  {
    assert AllButLast([("A", "$B"), ("B", "x")]) == [("A", "$B")];
  }

  // ---------------------------------------------------------------------------
  // substituteVars as written: JavaScript's replacement patterns
  // ---------------------------------------------------------------------------

  /**
   * The text `String.prototype.replaceAll` inserts for one match when the
   * replacement is a string: `$$` is one `$`, `$&` the match, `` $` `` the
   * text before it and `$'` the text after it; any other `$` is literal
   * (a string pattern has no capture groups).
   */
  function Expand(rep: string, matched: string, before: string, after: string): (r: string)
    ensures '$' !in rep ==> r == rep
    decreases |rep|
  {
    if rep == [] then []
    else if rep[0] == '$' && |rep| >= 2 && rep[1] == '$' then "$" + Expand(rep[2..], matched, before, after)
    else if rep[0] == '$' && |rep| >= 2 && rep[1] == '&' then matched + Expand(rep[2..], matched, before, after)
    else if rep[0] == '$' && |rep| >= 2 && rep[1] == '`' then before + Expand(rep[2..], matched, before, after)
    else if rep[0] == '$' && |rep| >= 2 && rep[1] == '\'' then after + Expand(rep[2..], matched, before, after)
    else
      assert forall c :: c in rep[1..] ==> c in rep;
      assert rep == [rep[0]] + rep[1..];
      [rep[0]] + Expand(rep[1..], matched, before, after)
  }

  /** `s.replaceAll(pat, rep)` from index `i` on, matches found left to right without overlap. */
  function JsReplaceAllFrom(s: string, i: nat, pat: string, rep: string): string
    requires pat != [] && i <= |s|
    decreases |s| - i
  {
    if i + |pat| > |s| then s[i..]
    else if s[i..i + |pat|] == pat then
      Expand(rep, pat, s[..i], s[i + |pat|..]) + JsReplaceAllFrom(s, i + |pat|, pat, rep)
    else [s[i]] + JsReplaceAllFrom(s, i + 1, pat, rep)
  }

  /**
   * `substituteVars` exactly as written, with the replacement patterns
   * expanded; when no value holds a `$` it is the literal substitution.
   */
  function SubstitutedAsWritten(template: string, vars: seq<(string, string)>): (r: string)
    ensures (forall k :: 0 <= k < |vars| ==> '$' !in vars[k].1) ==> r == Substituted(template, vars)
    decreases |vars|
  {
    if vars == [] then template
    else
      var (key, value) := Last(vars);
      var text := SubstitutedAsWritten(template, AllButLast(vars));
      if '$' in value then JsReplaceAllFrom(text, 0, Placeholder(key), value)
      else
        // `value` is inserted literally
        JsReplaceAllLiteral(text, 0, Placeholder(key), value);
        assert text[0..] == text;
        assert forall k :: 0 <= k < |AllButLast(vars)| ==> AllButLast(vars)[k] == vars[k];
        JsReplaceAllFrom(text, 0, Placeholder(key), value)
  }

  /** Without `$` in the replacement, JavaScript's `replaceAll` is the literal one. */
  lemma {:induction false} JsReplaceAllLiteral(s: string, i: nat, pat: string, rep: string)
    requires pat != [] && i <= |s| && '$' !in rep
    ensures JsReplaceAllFrom(s, i, pat, rep) == ReplaceAll(s[i..], pat, rep)
    decreases |s| - i
  {
    var t := s[i..];
    if i + |pat| <= |s| {
      assert t[..|pat|] == s[i..i + |pat|];
      if s[i..i + |pat|] == pat {
        JsReplaceAllLiteral(s, i + |pat|, pat, rep);
        assert t[|pat|..] == s[i + |pat|..];
      } else {
        JsReplaceAllLiteral(s, i + 1, pat, rep);
        assert t[1..] == s[i + 1..];
      }
    }
  }

  /** A value `$$` comes out as a single `$` in the code as written, where the literal value is `$$`. */
  lemma DollarPatternExpanded()
    ensures SubstitutedAsWritten("$X", [("X", "$$")]) == "$"
    ensures Substituted("$X", [("X", "$$")]) == "$$"
  {
    assert Expand("$$", "$X", [], []) == "$";
  }

  // ---------------------------------------------------------------------------
  // ensureTemplates
  // ---------------------------------------------------------------------------

  /** The entries that end in `.md`, in listing order. */
  function MarkdownFiles(files: seq<string>): (r: seq<string>)
    ensures |r| <= |files|
    ensures forall f :: f in r <==> f in files && EndsWith(f, ".md")
    decreases |files|
  {
    if files == [] then []
    else MarkdownFiles(AllButLast(files)) + (if EndsWith(Last(files), ".md") then [Last(files)] else [])
  }

  /** Why `ensureTemplates` rejects: only the creation of the user directory can make it throw. */
  datatype EnsureError = MkdirFailed

  /**
   * `ensureTemplates()`: creates the user template directory, then copies
   * every bundled `.md` file into it. Returns the files a copy was attempted
   * for and those whose copy succeeded; an unreadable bundle directory
   * returns early, and a failed copy is ignored.
   */
  method EnsureTemplates(mkdirOk: bool, listing: Option<seq<string>>)
    returns (r: Result<(seq<string>, seq<string>), EnsureError>)
    ensures !mkdirOk ==> r == Err(MkdirFailed)
    ensures mkdirOk && listing.None? ==> r == Ok(([], []))
    ensures mkdirOk && listing.Some? ==> r.Ok? && r.value.0 == MarkdownFiles(listing.value)
    ensures r.Ok? ==> forall f :: f in r.value.1 ==> f in r.value.0
  {
    if !mkdirOk {
      return Err(MkdirFailed);
    }
    if listing.None? {
      return Ok(([], []));
    }
    var files := listing.value;
    var attempted: seq<string> := [];
    var copied: seq<string> := [];
    var i := 0;
    while i < |files|
      invariant 0 <= i <= |files|
      invariant attempted == MarkdownFiles(files[..i])
      invariant forall f :: f in copied ==> f in attempted
    {
      assert AllButLast(files[..i + 1]) == files[..i];
      if EndsWith(files[i], ".md") {
        attempted := attempted + [files[i]];
        var copyOk: bool := *;
        if copyOk {
          copied := copied + [files[i]];
        }
      }
      i := i + 1;
    }
    assert files[..i] == files;
    return Ok((attempted, copied));
  }

  /** The listing of the bundled-files test: two of its three entries are copied. */
  lemma TwoMarkdownOfThree()
    ensures MarkdownFiles(["template1.md", "template2.md", "readme.txt"]) == ["template1.md", "template2.md"]
  {
    var files := ["template1.md", "template2.md", "readme.txt"];
    assert AllButLast(files) == ["template1.md", "template2.md"];
    assert AllButLast(AllButLast(files)) == ["template1.md"];
    assert AllButLast(AllButLast(AllButLast(files))) == [];
  }
}
