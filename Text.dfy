/**
 * The JavaScript string primitives the core relies on, on `seq<char>`:
 * `split` and `join`, literal `replaceAll`, `trim`, `padEnd`/`padStart`,
 * `slice(0, n)` and the decimal rendering of integers in template strings.
 */
module Text {

  // ---------------------------------------------------------------------------
  // Prefixes and occurrences
  // ---------------------------------------------------------------------------

  predicate IsPrefix(p: string, s: string) {
    |p| <= |s| && s[..|p|] == p
  }

  predicate IsSuffix(p: string, s: string) {
    |p| <= |s| && s[|s| - |p|..] == p
  }

  /** One of the two strings is a prefix of the other. */
  predicate Comparable(a: string, b: string) {
    IsPrefix(a, b) || IsPrefix(b, a)
  }

  /** `p` occurs in `s` starting at index `j`. */
  predicate OccursAt(p: string, s: string, j: int) {
    0 <= j && j + |p| <= |s| && s[j..j + |p|] == p
  }

  /** `s.includes(p)` */
  ghost predicate Occurs(p: string, s: string) {
    exists j :: OccursAt(p, s, j)
  }

  /** `s.endsWith(p)` */
  predicate EndsWith(s: string, p: string) {
    IsSuffix(p, s)
  }

  /** `s.slice(0, n)`: at most the first `n` characters. */
  function Take(s: string, n: nat): (r: string)
    ensures IsPrefix(r, s)
    ensures |r| == if |s| <= n then |s| else n
  {
    if |s| <= n then s else s[..n]
  }

  // ---------------------------------------------------------------------------
  // Concatenating per-element results
  // ---------------------------------------------------------------------------

  /** The concatenation of `f(x)` over `xs`, in order. */
  function Flatten<A, B>(f: A -> seq<B>, xs: seq<A>): seq<B>
    decreases |xs|
  {
    if xs == [] then [] else Flatten(f, xs[..|xs| - 1]) + f(xs[|xs| - 1])
  }

  /** Concatenation regroups freely. */
  lemma AppendAssoc<T>(a: seq<T>, b: seq<T>, c: seq<T>)
    ensures a + (b + c) == a + b + c
  {
  }

  /** One more element adds its own results at the end. */
  lemma FlattenSnoc<A, B>(f: A -> seq<B>, xs: seq<A>, x: A)
    ensures Flatten(f, xs + [x]) == Flatten(f, xs) + f(x)
  {
    assert (xs + [x])[..|xs|] == xs;
  }

  /** Flattening consecutive groups concatenates their results. */
  lemma {:induction false} FlattenAppend<A, B>(f: A -> seq<B>, a: seq<A>, b: seq<A>)
    ensures Flatten(f, a + b) == Flatten(f, a) + Flatten(f, b)
    decreases |b|
  {
    if b == [] {
      assert a + b == a;
    } else {
      var b' := b[..|b| - 1];
      FlattenAppend(f, a, b');
      var ab := a + b;
      assert ab[..|ab| - 1] == a + b' && ab[|ab| - 1] == b[|b| - 1];
    }
  }

  /** `xs.map(f)` */
  function Map<A, B>(f: A -> B, xs: seq<A>): seq<B>
    decreases |xs|
  {
    if xs == [] then [] else Map(f, xs[..|xs| - 1]) + [f(xs[|xs| - 1])]
  }

  /** One more element adds its image at the end. */
  lemma MapSnoc<A, B>(f: A -> B, xs: seq<A>, x: A)
    ensures Map(f, xs + [x]) == Map(f, xs) + [f(x)]
  {
    assert (xs + [x])[..|xs|] == xs;
  }

  /** A prefix one element longer. */
  lemma PrefixSnoc<T>(xs: seq<T>, i: nat)
    requires i < |xs|
    ensures xs[..i + 1] == xs[..i] + [xs[i]]
  {
  }

  /** The image of a prefix one element longer. */
  lemma MapPrefixSnoc<A, B>(f: A -> B, xs: seq<A>, i: nat)
    requires i < |xs|
    ensures Map(f, xs[..i + 1]) == Map(f, xs[..i]) + [f(xs[i])]
  {
    assert xs[..i + 1][..i] == xs[..i];
  }

  /** The image has one element per element, each the image of the one at the same index. */
  lemma {:induction false} MapAt<A, B>(f: A -> B, xs: seq<A>)
    ensures |Map(f, xs)| == |xs|
    ensures forall k :: 0 <= k < |xs| ==> Map(f, xs)[k] == f(xs[k])
    decreases |xs|
  {
    if xs != [] {
      MapAt(f, xs[..|xs| - 1]);
    }
  }

  // ---------------------------------------------------------------------------
  // split and join
  // ---------------------------------------------------------------------------

  /** `s.split(sep)` for a one-character separator: never empty, pieces free of `sep`. */
  function Split(s: string, sep: char): (r: seq<string>)
    ensures |r| >= 1
    decreases |s|
  {
    if s == [] then [[]]
    else
      var rest := Split(s[1..], sep);
      if s[0] == sep then [[]] + rest
      else [[s[0]] + rest[0]] + rest[1..]
  }

  /** No piece of a split holds the separator. */
  lemma {:induction false} SplitPiecesFree(s: string, sep: char)
    ensures forall i :: 0 <= i < |Split(s, sep)| ==> sep !in Split(s, sep)[i]
    decreases |s|
  {
    if s != [] {
      SplitPiecesFree(s[1..], sep);
      var rest := Split(s[1..], sep);
      if s[0] != sep {
        assert forall c :: c in [s[0]] + rest[0] ==> c == s[0] || c in rest[0];
      }
    }
  }

  /** `parts.join(sep)`; the empty array joins to the empty string. */
  function Join(parts: seq<string>, sep: string): string
    decreases |parts|
  {
    if |parts| == 0 then []
    else if |parts| == 1 then parts[0]
    else parts[0] + sep + Join(parts[1..], sep)
  }

  /** Joining the pieces of a split restores the original string. */
  lemma {:induction false} JoinSplit(s: string, sep: char)
    ensures Join(Split(s, sep), [sep]) == s
    decreases |s|
  {
    if s != [] {
      JoinSplit(s[1..], sep);
      var rest := Split(s[1..], sep);
      if s[0] != sep {
        var r := Split(s, sep);
        assert r == [[s[0]] + rest[0]] + rest[1..];
        if |rest| == 1 {
          assert Join(r, [sep]) == [s[0]] + rest[0];
        } else {
          assert Join(rest, [sep]) == rest[0] + [sep] + Join(rest[1..], [sep]);
          assert r[1..] == rest[1..];
        }
      }
    }
  }

  /** Splitting a join of separator-free pieces gives the pieces back. */
  lemma {:induction false} SplitJoin(parts: seq<string>, sep: char)
    requires |parts| >= 1
    requires forall i :: 0 <= i < |parts| ==> sep !in parts[i]
    ensures Split(Join(parts, [sep]), sep) == parts
    decreases |parts|, |parts[0]|
  {
    if |parts| == 1 {
      SplitNoSep(parts[0], sep);
    } else if parts[0] == [] {
      SplitJoin(parts[1..], sep);
      assert Join(parts, [sep]) == [sep] + Join(parts[1..], [sep]);
      assert ([sep] + Join(parts[1..], [sep]))[1..] == Join(parts[1..], [sep]);
      assert parts == [[]] + parts[1..];
    } else {
      var head := parts[0];
      var shorter := [head[1..]] + parts[1..];
      assert forall i :: 0 <= i < |shorter| ==> sep !in shorter[i] by {
        forall i | 0 <= i < |shorter| ensures sep !in shorter[i] {
          if i == 0 {
            assert forall c :: c in head[1..] ==> c in head;
          } else {
            assert shorter[i] == parts[i];
          }
        }
      }
      SplitJoin(shorter, sep);
      var joined := Join(parts, [sep]);
      assert joined == head + [sep] + Join(parts[1..], [sep]);
      assert Join(shorter, [sep]) == head[1..] + [sep] + Join(parts[1..], [sep]);
      assert joined[0] == head[0] && joined[0] != sep;
      assert joined[1..] == Join(shorter, [sep]);
      SplitCons(joined[0], joined[1..], sep);
      assert joined == [joined[0]] + joined[1..];
      assert head == [head[0]] + head[1..];
      assert shorter[1..] == parts[1..];
      assert parts == [parts[0]] + parts[1..];
    }
  }

  /** A string without the separator splits into itself. */
  lemma {:induction false} SplitNoSep(s: string, sep: char)
    requires sep !in s
    ensures Split(s, sep) == [s]
    decreases |s|
  {
    if s != [] {
      assert forall c :: c in s[1..] ==> c in s;
      SplitNoSep(s[1..], sep);
      assert s == [s[0]] + s[1..];
    }
  }

  function Last<T>(xs: seq<T>): T
    requires |xs| >= 1
  {
    xs[|xs| - 1]
  }

  function AllButLast<T>(xs: seq<T>): seq<T>
    requires |xs| >= 1
  {
    xs[..|xs| - 1]
  }

  /** Splitting a string that starts with the character `c`. */
  lemma SplitCons(c: char, s: string, sep: char)
    ensures Split([c] + s, sep) ==
      if c == sep then [[]] + Split(s, sep) else [[c] + Split(s, sep)[0]] + Split(s, sep)[1..]
  {
    assert ([c] + s)[1..] == s;
  }

  /**
   * Splitting a concatenation: the complete pieces of `x` followed by the
   * split of `x`'s unterminated tail extended by `y`.
   */
  lemma {:induction false} SplitAppend(x: string, y: string, sep: char)
    ensures Split(x + y, sep) == AllButLast(Split(x, sep)) + Split(Last(Split(x, sep)) + y, sep)
    decreases |x|
  {
    if x == [] {
      assert x + y == y;
    } else {
      var c, x' := x[0], x[1..];
      assert x == [c] + x';
      assert x + y == [c] + (x' + y);
      SplitAppend(x', y, sep);
      SplitCons(c, x' + y, sep);
      SplitCons(c, x', sep);
      var sx := Split(x', sep);
      var sxy := Split(x' + y, sep);
      if c == sep {
        SepStep(sx, sxy, Split(Last(sx) + y, sep));
      } else {
        if |sx| == 1 {
          assert ([c] + sx[0]) + y == [c] + (sx[0] + y);
          SplitCons(c, sx[0] + y, sep);
        } else {
          CharStep(c, sx, sxy, Split(Last(sx) + y, sep));
        }
      }
    }
  }
  /** The list step of `SplitAppend` when `x` starts with the separator. */
  lemma SepStep(sx: seq<string>, sxy: seq<string>, tail: seq<string>)
    requires |sx| >= 1
    requires sxy == AllButLast(sx) + tail
    ensures [[]] + sxy == AllButLast([[]] + sx) + tail
  {
    assert AllButLast([[]] + sx) == [[]] + AllButLast(sx);
  }
  /** The list step of `SplitAppend` when `x` starts with another character. */
  lemma CharStep(c: char, sx: seq<string>, sxy: seq<string>, tail: seq<string>)
    requires |sx| >= 2
    requires sxy == AllButLast(sx) + tail
    ensures [[c] + sxy[0]] + sxy[1..] == AllButLast([[c] + sx[0]] + sx[1..]) + tail
  {
    var a := AllButLast(sx);
    assert (a + tail)[0] == a[0] && (a + tail)[1..] == a[1..] + tail;
    assert AllButLast([[c] + sx[0]] + sx[1..]) == [[c] + a[0]] + a[1..];
  }

  /**
   * The last piece of a split is the text after the last separator, or the
   * whole string when it holds no separator.
   */
  lemma {:induction false} SplitLastIsTail(s: string, sep: char)
    ensures IsSuffix(Last(Split(s, sep)), s)
    ensures sep !in Last(Split(s, sep))
    ensures |Last(Split(s, sep))| == |s| || s[|s| - |Last(Split(s, sep))| - 1] == sep
    ensures |Last(Split(s, sep))| == |s| <==> sep !in s
  {
    var r := Split(s, sep);
    JoinSplit(s, sep);
    SplitPiecesFree(s, sep);
    if |r| == 1 {
      assert Join(r, [sep]) == r[0];
    } else {
      JoinLast(r, [sep]);
      assert sep in s by {
        assert s[|s| - |Last(r)| - 1] == sep;
      }
    }
  }

  /** A join of two or more pieces ends with the separator and the last piece. */
  lemma {:induction false} JoinLast(parts: seq<string>, sep: string)
    requires |parts| >= 2
    ensures Join(parts, sep) == Join(AllButLast(parts), sep) + sep + Last(parts)
    decreases |parts|
  {
    if |parts| > 2 {
      JoinLast(parts[1..], sep);
      assert AllButLast(parts)[1..] == AllButLast(parts[1..]);
    }
  }

  /** A join of a head and a non-empty rest is the head, the separator and the joined rest. */
  lemma JoinCons(head: string, rest: seq<string>, sep: string)
    requires |rest| >= 1
    ensures Join([head] + rest, sep) == head + sep + Join(rest, sep)
  {
    assert ([head] + rest)[1..] == rest;
  }

  /** Four parts joined: each separator sits between two neighbours. */
  lemma JoinFour(a: string, b: string, c: string, d: string, sep: string)
    ensures Join([a, b, c, d], sep) == a + sep + b + sep + c + sep + d
  {
    JoinCons(c, [d], sep);
    assert [c] + [d] == [c, d];
    JoinCons(b, [c, d], sep);
    assert [b] + [c, d] == [b, c, d];
    JoinCons(a, [b, c, d], sep);
    assert [a] + [b, c, d] == [a, b, c, d];
  }

  // ---------------------------------------------------------------------------
  // replaceAll with a literal pattern
  // ---------------------------------------------------------------------------

  /**
   * `s.replaceAll(pat, rep)` (equally `s.replace(/pat/g, rep)` for a pattern
   * without metacharacters) when `rep` holds no `$`: matches are found left
   * to right and do not overlap.
   */
  function ReplaceAll(s: string, pat: string, rep: string): string
    requires pat != []
    decreases |s|
  {
    if |s| < |pat| then s
    else if s[..|pat|] == pat then rep + ReplaceAll(s[|pat|..], pat, rep)
    else [s[0]] + ReplaceAll(s[1..], pat, rep)
  }

  /** Without an occurrence of the pattern, replaceAll returns its input. */
  lemma {:induction false} ReplaceAllAbsent(s: string, pat: string, rep: string)
    requires pat != []
    requires !Occurs(pat, s)
    ensures ReplaceAll(s, pat, rep) == s
    decreases |s|
  {
    if |s| >= |pat| {
      assert !OccursAt(pat, s, 0);
      assert !Occurs(pat, s[1..]) by {
        forall j | 0 <= j && j + |pat| <= |s| - 1 ensures !OccursAt(pat, s[1..], j) {
          assert !OccursAt(pat, s, j + 1);
          assert s[1..][j..j + |pat|] == s[j + 1..j + 1 + |pat|];
        }
      }
      ReplaceAllAbsent(s[1..], pat, rep);
    }
  }

  /**
   * If the output of a replaceAll starts with `x`, and no replacement text can
   * line up with any position of `x`, then the input starts with `x` too and
   * no match of the pattern begins inside it.
   */
  lemma {:induction false} ReplacedPrefix(w: string, q: string, r: string, x: string)
    requires q != []
    requires forall i :: 0 <= i < |x| ==> !Comparable(x[i..], r)
    requires IsPrefix(x, ReplaceAll(w, q, r))
    ensures IsPrefix(x, w)
    ensures forall i :: 0 <= i < |x| ==> !OccursAt(q, w, i)
    decreases |w|
  {
    if x != [] && |w| >= |q| {
      var out := ReplaceAll(w, q, r);
      if w[..|q|] == q {
        NoPrefixOfAppend(x, r, ReplaceAll(w[|q|..], q, r));
        assert false;
      }
      var tail := ReplaceAll(w[1..], q, r);
      assert out == [w[0]] + tail;
      var x' := x[1..];
      forall i | 0 <= i < |x'| ensures !Comparable(x'[i..], r) {
        assert x'[i..] == x[i + 1..];
      }
      PrefixOfCons(x, w[0], tail);
      ReplacedPrefix(w[1..], q, r, x');
      assert w == [w[0]] + w[1..];
      PrefixCons(x, w[0], w[1..]);
      forall i | 0 <= i < |x| ensures !OccursAt(q, w, i) {
        if i > 0 {
          OccursAtTail(q, w, i);
        }
      }
    }
  }

  /** An occurrence at a positive index of `w` is one in `w[1..]`. */
  lemma OccursAtTail(p: string, w: string, i: int)
    requires i > 0
    ensures OccursAt(p, w, i) <==> w != [] && OccursAt(p, w[1..], i - 1)
  {
    if OccursAt(p, w, i) {
      assert w[1..][i - 1..i - 1 + |p|] == w[i..i + |p|];
    }
    if w != [] && OccursAt(p, w[1..], i - 1) {
      assert w[1..][i - 1..i - 1 + |p|] == w[i..i + |p|];
    }
  }

  /** A non-empty prefix of `[c] + t` is `c` followed by a prefix of `t`. */
  lemma PrefixOfCons(x: string, c: char, t: string)
    requires x != [] && IsPrefix(x, [c] + t)
    ensures x[0] == c && IsPrefix(x[1..], t)
  {
    assert ([c] + t)[1..|x|] == t[..|x| - 1];
  }

  /** `c` followed by a prefix of `t` is a prefix of `[c] + t`. */
  lemma PrefixCons(x: string, c: char, t: string)
    requires x != [] && x[0] == c && IsPrefix(x[1..], t)
    ensures IsPrefix(x, [c] + t)
  {
    assert x == [c] + x[1..];
  }

  /** A non-empty `x` that nowhere lines up with `r` is no prefix of `r + t`. */
  lemma NoPrefixOfAppend(x: string, r: string, t: string)
    requires x != []
    requires forall i :: 0 <= i < |x| ==> !Comparable(x[i..], r)
    ensures !IsPrefix(x, r + t)
  {
    assert x[0..] == x;
    if IsPrefix(x, r + t) {
      PrefixOfAppend(x, r, t);
    }
  }

  /** A prefix of `r + t` is comparable with `r`. */
  lemma PrefixOfAppend(x: string, r: string, t: string)
    requires IsPrefix(x, r + t)
    ensures Comparable(x, r)
  {
    if |x| <= |r| {
      assert (r + t)[..|x|] == r[..|x|];
    } else {
      assert (r + t)[..|x|][..|r|] == r;
    }
  }

  /**
   * replaceAll never leaves an occurrence of `p` behind when (a) no tail of the
   * replacement text lines up with `p`, (b) the replacement text cannot line
   * up with any later position of `p`, and (c) either `p` did not occur in the
   * input or `p` itself contains the pattern being replaced.
   */
  lemma {:induction false} NoOccurrenceAfterReplaceAll(s: string, q: string, r: string, p: string)
    requires q != [] && p != []
    requires forall i :: 0 <= i < |r| ==> !Comparable(r[i..], p)
    requires forall i :: 1 <= i < |p| ==> !Comparable(p[i..], r)
    requires !Occurs(p, s) || Occurs(q, p)
    ensures !Occurs(p, ReplaceAll(s, q, r))
    decreases |s|
  {
    if |s| < |q| {
      if Occurs(q, p) {
        var k :| OccursAt(q, p, k);
        assert |p| > |s|;
      }
    } else if s[..|q|] == q {
      var t := s[|q|..];
      OccursInSuffix(p, s, |q|);
      NoOccurrenceAfterReplaceAll(t, q, r, p);
      NoOccurrenceAcrossReplacement(r, ReplaceAll(t, q, r), p);
    } else {
      var t := s[1..];
      OccursInSuffix(p, s, 1);
      NoOccurrenceAfterReplaceAll(t, q, r, p);
      NoOccurrenceAtHead(s, q, r, p);
      NoOccurrenceAfterChar(s[0], ReplaceAll(t, q, r), p);
    }
  }

  /** An occurrence in a suffix of `s` is an occurrence in `s`. */
  lemma OccursInSuffix(p: string, s: string, n: nat)
    requires n <= |s|
    ensures Occurs(p, s[n..]) ==> Occurs(p, s)
  {
    if Occurs(p, s[n..]) {
      var j :| OccursAt(p, s[n..], j);
      assert s[n..][j..j + |p|] == s[n + j..n + j + |p|];
      assert OccursAt(p, s, n + j);
    }
  }

  /** Occurrences past a prefix `u` are the occurrences in the rest. */
  lemma OccursAtShift(p: string, u: string, t: string, j: int)
    requires j >= |u|
    ensures OccursAt(p, u + t, j) <==> OccursAt(p, t, j - |u|)
  {
    if j + |p| <= |u + t| {
      assert (u + t)[j..j + |p|] == t[j - |u|..j - |u| + |p|];
    }
  }

  /** An occurrence of `p` starting inside `r` makes that tail of `r` line up with `p`. */
  lemma OccurrenceLinesUp(r: string, tail: string, p: string, j: nat)
    requires j < |r| && OccursAt(p, r + tail, j)
    ensures Comparable(r[j..], p)
  {
    if j + |p| <= |r| {
      assert r[j..][..|p|] == (r + tail)[j..j + |p|];
    } else {
      assert (r + tail)[j..j + |p|][..|r| - j] == r[j..];
    }
  }

  /** Inserting a replacement text that lines up nowhere with `p` creates no occurrence. */
  lemma NoOccurrenceAcrossReplacement(r: string, tail: string, p: string)
    requires forall i :: 0 <= i < |r| ==> !Comparable(r[i..], p)
    requires !Occurs(p, tail)
    ensures !Occurs(p, r + tail)
  {
    forall j | OccursAt(p, r + tail, j) ensures false {
      if j < |r| {
        OccurrenceLinesUp(r, tail, p, j);
      } else {
        OccursAtShift(p, r, tail, j);
      }
    }
  }

  /** With no occurrence at 0 nor in `tail`, `[c] + tail` holds no occurrence. */
  lemma NoOccurrenceAfterChar(c: char, tail: string, p: string)
    requires !Occurs(p, tail)
    requires !OccursAt(p, [c] + tail, 0)
    ensures !Occurs(p, [c] + tail)
  {
    forall j | OccursAt(p, [c] + tail, j) ensures false {
      if j > 0 {
        OccursAtTail(p, [c] + tail, j);
      }
    }
  }

  /** An occurrence inside a prefix of `s` is an occurrence in `s`. */
  lemma OccursThroughPrefix(p: string, s: string, q: string, k: int)
    requires IsPrefix(p, s) && OccursAt(q, p, k)
    ensures OccursAt(q, s, k)
  {
    assert s[k..k + |q|] == p[k..k + |q|];
  }

  /**
   * When the input does not start with the pattern, the output cannot start
   * with `p` unless the input did and no match began inside that copy of `p`.
   */
  lemma NoOccurrenceAtHead(s: string, q: string, r: string, p: string)
    requires q != [] && p != [] && |s| >= |q| && s[..|q|] != q
    requires forall i :: 1 <= i < |p| ==> !Comparable(p[i..], r)
    requires !Occurs(p, s) || Occurs(q, p)
    ensures !OccursAt(p, [s[0]] + ReplaceAll(s[1..], q, r), 0)
  {
    var t := s[1..];
    var tail := ReplaceAll(t, q, r);
    if OccursAt(p, [s[0]] + tail, 0) {
      var x := p[1..];
      forall i | 0 <= i < |x| ensures !Comparable(x[i..], r) {
        assert x[i..] == p[i + 1..];
      }
      PrefixOfCons(p, s[0], tail);
      ReplacedPrefix(t, q, r, x);
      assert s == [s[0]] + t;
      PrefixCons(p, s[0], t);
      assert OccursAt(p, s, 0);
      var k :| OccursAt(q, p, k);
      OccursThroughPrefix(p, s, q, k);
      if k > 0 {
        OccursAtTail(q, s, k);
      }
    }
  }

  // ---------------------------------------------------------------------------
  // trim (fixed whitespace table) and padding
  // ---------------------------------------------------------------------------

  /** The WhiteSpace and LineTerminator code points that `String.prototype.trim` removes. */
  predicate IsSpace(c: char) {
    c == ' ' || c == '\t' || c == '\n' || c == '\r' || c == '\U{000B}' || c == '\U{000C}'
    || c == '\U{00A0}' || c == '\U{FEFF}' || c == '\U{1680}' || ('\U{2000}' <= c <= '\U{200A}')
    || c == '\U{2028}' || c == '\U{2029}' || c == '\U{202F}' || c == '\U{205F}' || c == '\U{3000}'
  }

  predicate AllSpace(s: string) {
    forall i :: 0 <= i < |s| ==> IsSpace(s[i])
  }

  /** `s.trimStart()` */
  function TrimStart(s: string): string
    decreases |s|
  {
    if s != [] && IsSpace(s[0]) then TrimStart(s[1..]) else s
  }

  /** `s.trimEnd()` */
  function TrimEnd(s: string): string
    decreases |s|
  {
    if s != [] && IsSpace(s[|s| - 1]) then TrimEnd(s[..|s| - 1]) else s
  }

  /** `s.trim()` */
  function Trim(s: string): string {
    TrimEnd(TrimStart(s))
  }

  /** trimStart drops exactly the leading whitespace. */
  lemma {:induction false} TrimStartSpec(s: string)
    ensures IsSuffix(TrimStart(s), s)
    ensures TrimStart(s) == [] || !IsSpace(TrimStart(s)[0])
    ensures AllSpace(s[..|s| - |TrimStart(s)|])
    decreases |s|
  {
    if s != [] && IsSpace(s[0]) {
      TrimStartSpec(s[1..]);
      var r := TrimStart(s[1..]);
      assert s[|s| - |r|..] == s[1..][|s| - 1 - |r|..];
      assert forall i :: 0 <= i < |s| - |r| ==> s[..|s| - |r|][i] == s[i];
      assert forall i :: 1 <= i < |s| - |r| ==> s[i] == s[1..][..|s| - 1 - |r|][i - 1];
    }
  }

  /** trimEnd drops exactly the trailing whitespace. */
  lemma {:induction false} TrimEndSpec(s: string)
    ensures IsPrefix(TrimEnd(s), s)
    ensures TrimEnd(s) == [] || !IsSpace(TrimEnd(s)[|TrimEnd(s)| - 1])
    ensures AllSpace(s[|TrimEnd(s)|..])
    decreases |s|
  {
    if s != [] && IsSpace(s[|s| - 1]) {
      var s' := s[..|s| - 1];
      TrimEndSpec(s');
      var r := TrimEnd(s');
      assert s[..|r|] == s'[..|r|];
      assert forall k :: 0 <= k < |s| - 1 - |r| ==> s[|r|..][k] == s'[|r|..][k];
    }
  }

  /** `s.trim()` is empty exactly when `s` is whitespace only. */
  lemma TrimEmptyIffBlank(s: string)
    ensures Trim(s) == [] <==> AllSpace(s)
  {
    TrimStartSpec(s);
    var a := TrimStart(s);
    TrimEndSpec(a);
    if Trim(s) == [] {
      assert AllSpace(a[0..]);
      assert s == s[..|s| - |a|] + a;
      forall i | 0 <= i < |s| ensures IsSpace(s[i]) {
        assert s[i] == s[..|s| - |a|][i];
      }
    } else {
      var t := Trim(s);
      assert t == a[..|t|];
      assert !IsSpace(a[|t| - 1]);
      assert !IsSpace(s[|s| - |a| + |t| - 1]);
    }
  }

  function Spaces(n: nat): (r: string)
    ensures |r| == n
    ensures forall i :: 0 <= i < n ==> r[i] == ' '
  {
    if n == 0 then [] else [' '] + Spaces(n - 1)
  }

  /** `s.padEnd(width)` */
  function PadEnd(s: string, width: nat): (r: string)
    ensures |r| == if |s| >= width then |s| else width
    ensures IsPrefix(s, r)
    ensures forall i :: |s| <= i < |r| ==> r[i] == ' '
  {
    if |s| >= width then s else s + Spaces(width - |s|)
  }

  /** `s.padStart(width)` */
  function PadStart(s: string, width: nat): (r: string)
    ensures |r| == if |s| >= width then |s| else width
    ensures IsSuffix(s, r)
    ensures forall i :: 0 <= i < |r| - |s| ==> r[i] == ' '
  {
    if |s| >= width then s else Spaces(width - |s|) + s
  }

  // ---------------------------------------------------------------------------
  // Decimal rendering of integers in template strings
  // ---------------------------------------------------------------------------

  function DigitChar(d: nat): char
    requires d < 10
  {
    "0123456789"[d]
  }

  /** `${n}` for a non-negative integer. */
  function NatToString(n: nat): (r: string)
    ensures |r| >= 1
    ensures forall i :: 0 <= i < |r| ==> '0' <= r[i] <= '9'
    decreases n
  {
    if n < 10 then [DigitChar(n)] else NatToString(n / 10) + [DigitChar(n % 10)]
  }

  /** `${i}` for any integer. */
  function IntToString(i: int): string {
    if i < 0 then "-" + NatToString(-i) else NatToString(i)
  }

  /** A piece made of newline-free parts has no newline. */
  lemma NoNewlineIn(a: string, b: string)
    requires '\n' !in a && '\n' !in b
    ensures '\n' !in a + b
  {
    assert forall c :: c in a + b ==> c in a || c in b;
  }

  /** The decimal rendering of an integer has no newline. */
  lemma IntToStringNoNewline(i: int)
    ensures '\n' !in IntToString(i)
  {
    var digits := NatToString(if i < 0 then -i else i);
    assert forall k :: 0 <= k < |digits| ==> '0' <= digits[k] <= '9';
    if i < 0 {
      NoNewlineIn("-", digits);
    }
  }

  /** `path.join` of parts that need no normalisation: the parts separated by `/`. */
  function PathJoin(parts: seq<string>): string {
    Join(parts, "/")
  }
}
