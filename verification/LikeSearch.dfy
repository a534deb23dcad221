/**
  Search by name: the escaping of the user's term, the LIKE predicate (section 8.5 of
  ISO/IEC 9075-2) with `\` as escape character, and its case-insensitive form.
 */
module LikeSearch {

  const ESCAPE: char := '\\'

  predicate Special(c: char) {
    c == ESCAPE || c == '%' || c == '_'
  }

  /** `str.replace` for a pattern of one character. */
  function Replace(s: string, c: char, replacement: string): string {
    if s == "" then "" else (if s[0] == c then replacement else [s[0]]) + Replace(s[1..], c, replacement)
  }

  /** The three chained replacements, the escape character first. */
  function EscapeLike(term: string): string {
    Replace(Replace(Replace(term, ESCAPE, [ESCAPE, ESCAPE]), '%', [ESCAPE, '%']), '_', [ESCAPE, '_'])
  }

  /** One pass: every special character gets an escape before it. */
  function EscapeEach(term: string): string {
    if term == "" then "" else (if Special(term[0]) then [ESCAPE, term[0]] else [term[0]]) + EscapeEach(term[1..])
  }

  function Pattern(term: string): string {
    "%" + EscapeLike(term) + "%"
  }

  /** Whether `s` is LIKE `pattern`; a trailing escape matches nothing. */
  predicate Like(pattern: string, s: string)
    decreases |pattern| + |s|
  {
    if pattern == "" then s == ""
    else if pattern[0] == ESCAPE then
      |pattern| > 1 && s != "" && s[0] == pattern[1] && Like(pattern[2..], s[1..])
    else if pattern[0] == '%' then Like(pattern[1..], s) || (s != "" && Like(pattern, s[1..]))
    else s != "" && (pattern[0] == '_' || s[0] == pattern[0]) && Like(pattern[1..], s[1..])
  }

  function FoldAll(fold: char -> char, s: string): (r: string)
    ensures |r| == |s|
  {
    seq(|s|, i requires 0 <= i < |s| => fold(s[i]))
  }

  /** ILIKE compares folded text. */
  predicate ILike(fold: char -> char, pattern: string, s: string) {
    Like(FoldAll(fold, pattern), FoldAll(fold, s))
  }

  /** A case folding that neither changes a special character nor makes one. */
  ghost predicate LeavesSpecials(fold: char -> char) {
    forall c :: if Special(c) then fold(c) == c else !Special(fold(c))
  }

  ghost predicate Contains(s: string, t: string) {
    exists i :: 0 <= i <= |s| && t <= s[i..]
  }

  // ------------------------------------------------------------------- escaping

  lemma {:induction false} ReplaceAppend(a: string, b: string, c: char, replacement: string)
    ensures Replace(a + b, c, replacement) == Replace(a, c, replacement) + Replace(b, c, replacement)
  {
    if a == "" {
      assert a + b == b;
    } else {
      assert (a + b)[1..] == a[1..] + b;
      ReplaceAppend(a[1..], b, c, replacement);
    }
  }

  lemma ReplaceOne(c: char, d: char, replacement: string)
    ensures Replace([d], c, replacement) == if d == c then replacement else [d]
  {
    assert [d][1..] == "";
  }

  lemma ReplaceTwo(d: char, e: char, c: char, replacement: string)
    ensures Replace([d, e], c, replacement) == (if d == c then replacement else [d]) + (if e == c then replacement else [e])
  {
    assert [d, e] == [d] + [e];
    ReplaceAppend([d], [e], c, replacement);
    ReplaceOne(c, d, replacement);
    ReplaceOne(c, e, replacement);
  }

  /** One character through the chain: what an earlier replacement wrote is not escaped again. */
  lemma EscapeOne(d: char)
    ensures EscapeLike([d]) == if Special(d) then [ESCAPE, d] else [d]
  {
    ReplaceOne(ESCAPE, d, [ESCAPE, ESCAPE]);
    ReplaceOne('%', d, [ESCAPE, '%']);
    ReplaceOne('_', d, [ESCAPE, '_']);
    ReplaceTwo(ESCAPE, ESCAPE, '%', [ESCAPE, '%']);
    ReplaceTwo(ESCAPE, d, '_', [ESCAPE, '_']);
  }

  lemma EscapeAppend(a: string, b: string)
    ensures EscapeLike(a + b) == EscapeLike(a) + EscapeLike(b)
  {
    ReplaceAppend(a, b, ESCAPE, [ESCAPE, ESCAPE]);
    var a1, b1 := Replace(a, ESCAPE, [ESCAPE, ESCAPE]), Replace(b, ESCAPE, [ESCAPE, ESCAPE]);
    ReplaceAppend(a1, b1, '%', [ESCAPE, '%']);
    ReplaceAppend(Replace(a1, '%', [ESCAPE, '%']), Replace(b1, '%', [ESCAPE, '%']), '_', [ESCAPE, '_']);
  }

  /** The three chained replacements are one escape per special character. */
  lemma {:induction false} ChainIsOnePass(term: string)
    ensures EscapeLike(term) == EscapeEach(term)
  {
    if term != "" {
      assert term == [term[0]] + term[1..];
      EscapeAppend([term[0]], term[1..]);
      EscapeOne(term[0]);
      ChainIsOnePass(term[1..]);
    }
  }

  // ------------------------------------------------------------------- matching

  /** `%` in front: the rest matches some suffix. */
  lemma {:induction false} LeadingPercent(rest: string, s: string)
    ensures Like("%" + rest, s) <==> exists i :: 0 <= i <= |s| && Like(rest, s[i..])
    decreases |s|
  {
    assert ("%" + rest)[1..] == rest;
    assert s[0..] == s;
    if s != "" {
      LeadingPercent(rest, s[1..]);
      assert forall i :: 0 <= i < |s| ==> s[1..][i..] == s[i + 1..];
      if Like("%" + rest, s[1..]) {
        var i :| 0 <= i <= |s[1..]| && Like(rest, s[1..][i..]);
        assert Like(rest, s[i + 1..]);
      }
      if i :| 0 < i <= |s| && Like(rest, s[i..]) {
        assert Like(rest, s[1..][i - 1..]);
      }
    }
  }

  lemma {:induction false} LonePercent(s: string)
    ensures Like("%", s)
  {
    if s == "" {
      assert "%"[1..] == "";
    } else {
      LonePercent(s[1..]);
    }
  }

  /** An escaped term followed by `%` matches exactly the strings that start with the term. */
  lemma {:induction false} EscapedPrefix(term: string, s: string)
    ensures Like(EscapeEach(term) + "%", s) <==> term <= s
  {
    if term == "" {
      LonePercent(s);
      assert EscapeEach(term) + "%" == "%";
    } else {
      var c := term[0];
      var rest := EscapeEach(term[1..]) + "%";
      var p := EscapeEach(term) + "%";
      if s != "" {
        EscapedPrefix(term[1..], s[1..]);
        assert term <= s <==> c == s[0] && term[1..] <= s[1..];
      }
      if Special(c) {
        assert p == [ESCAPE, c] + rest;
        assert p[2..] == rest;
      } else {
        assert p == [c] + rest;
        assert p[1..] == rest;
      }
    }
  }

  lemma {:induction false} FoldEscape(fold: char -> char, term: string)
    requires LeavesSpecials(fold)
    ensures FoldAll(fold, EscapeEach(term)) == EscapeEach(FoldAll(fold, term))
  {
    if term != "" {
      FoldEscape(fold, term[1..]);
      assert FoldAll(fold, term)[1..] == FoldAll(fold, term[1..]);
    }
  }

  /**
    A search matches literally: a name is found exactly when the term, specials and all, occurs
    in it up to case.
   */
  lemma SearchMatchesLiterally(fold: char -> char, term: string, name: string)
    requires LeavesSpecials(fold)
    ensures ILike(fold, Pattern(term), name) <==> Contains(FoldAll(fold, name), FoldAll(fold, term))
  {
    var t, s := FoldAll(fold, term), FoldAll(fold, name);
    ChainIsOnePass(term);
    FoldEscape(fold, term);
    assert fold('%') == '%';
    assert FoldAll(fold, Pattern(term)) == "%" + (EscapeEach(t) + "%");
    LeadingPercent(EscapeEach(t) + "%", s);
    forall i | 0 <= i <= |s|
      ensures Like(EscapeEach(t) + "%", s[i..]) <==> t <= s[i..]
    {
      EscapedPrefix(t, s[i..]);
    }
  }

  function AsciiLower(c: char): char {
    if 'A' <= c <= 'Z' then (c as int + 32) as char else c
  }

  /** ASCII lower-casing is such a folding. */
  lemma AsciiLowerLeavesSpecials()
    ensures LeavesSpecials(AsciiLower)
  {
  }

  /** Escaping loses nothing: different terms are searched with different patterns. */
  lemma PatternsDiffer(a: string, b: string)
    requires Pattern(a) == Pattern(b)
    ensures a == b
  {
    ChainIsOnePass(a);
    ChainIsOnePass(b);
    var ea, eb := EscapeEach(a) + "%", EscapeEach(b) + "%";
    assert ea == Pattern(a)[1..] && eb == Pattern(b)[1..];
    EscapedPrefix(a, a);
    EscapedPrefix(b, a);
    EscapedPrefix(b, b);
    EscapedPrefix(a, b);
  }
}
