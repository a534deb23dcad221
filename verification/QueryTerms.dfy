/** How a comma-separated query parameter becomes filter terms. Case and blanks are those of ASCII. */
module QueryTerms {
  import opened CatalogTables
  import LikeSearch

  predicate Space(c: char) {
    c == ' ' || '\t' <= c <= '\r' || '\U{1c}' <= c <= '\U{1f}'
  }

  /** The parts between commas; there is always at least one. */
  function Split(raw: string): (parts: seq<string>)
    ensures parts != []
  {
    if raw == "" then [""]
    else
      var rest := Split(raw[1..]);
      if raw[0] == ',' then [""] + rest else [[raw[0]] + rest[0]] + rest[1..]
  }

  function StripLeft(s: string): string {
    if s != "" && Space(s[0]) then StripLeft(s[1..]) else s
  }

  function StripRight(s: string): string {
    if s != "" && Space(s[|s| - 1]) then StripRight(s[..|s| - 1]) else s
  }

  function Strip(s: string): string {
    StripRight(StripLeft(s))
  }

  /** The parts that are not blank, stripped and lower-cased. */
  function Terms(parts: seq<string>): seq<string> {
    if parts == [] then []
    else (if Strip(parts[0]) != "" then [Lower(Strip(parts[0]))] else []) + Terms(parts[1..])
  }

  /** Each term where it occurs first. */
  function Distinct(terms: seq<string>): seq<string> {
    if terms == [] then []
    else
      var before, last := Distinct(terms[..|terms| - 1]), terms[|terms| - 1];
      if last in before then before else before + [last]
  }

  function SplitCsv(raw: string): seq<string> {
    Distinct(Terms(Split(raw)))
  }

  /** What a term looks like: not empty, no comma, no blank at either end, nothing in upper case. */
  predicate IsTerm(t: string) {
    t != "" && ',' !in t && !Space(t[0]) && !Space(t[|t| - 1]) && Lower(t) == t
  }

  ghost predicate NoRepeats(terms: seq<string>) {
    forall i, j :: 0 <= i < j < |terms| ==> terms[i] != terms[j]
  }

  // ------------------------------------------------------------------- pieces

  lemma {:induction false} SplitHasNoComma(raw: string)
    ensures forall part :: part in Split(raw) ==> ',' !in part
  {
    if raw != "" {
      SplitHasNoComma(raw[1..]);
      var rest := Split(raw[1..]);
      assert rest[0] in rest;
      assert forall part :: part in rest[1..] ==> part in rest;
    }
  }

  /** A comma after a part without one ends the part. */
  lemma {:induction false} SplitAtComma(part: string, rest: string)
    requires ',' !in part
    ensures Split(part) == [part]
    ensures Split(part + "," + rest) == [part] + Split(rest)
  {
    if part == "" {
      assert part + "," + rest == "," + rest && ("," + rest)[1..] == rest;
    } else {
      assert part[0] in part && forall c :: c in part[1..] ==> c in part;
      SplitAtComma(part[1..], rest);
      var whole := part + "," + rest;
      assert part[0] != ',' && [part[0]] + part[1..] == part;
      assert whole[0] == part[0] && whole[1..] == part[1..] + "," + rest;
      assert ([part[1..]] + Split(rest))[1..] == Split(rest);
    }
  }

  lemma {:induction false} StripLeftIsSuffix(s: string)
    ensures forall c :: c in StripLeft(s) ==> c in s
    ensures StripLeft(s) != "" ==> !Space(StripLeft(s)[0]) && StripLeft(s)[|StripLeft(s)| - 1] == s[|s| - 1]
  {
    if s != "" && Space(s[0]) {
      StripLeftIsSuffix(s[1..]);
    }
  }

  lemma {:induction false} StripRightIsPrefix(s: string)
    ensures forall c :: c in StripRight(s) ==> c in s
    ensures StripRight(s) != "" ==> !Space(StripRight(s)[|StripRight(s)| - 1]) && StripRight(s)[0] == s[0]
  {
    if s != "" && Space(s[|s| - 1]) {
      StripRightIsPrefix(s[..|s| - 1]);
    }
  }

  lemma StripIsTrimmed(s: string)
    ensures forall c :: c in Strip(s) ==> c in s
    ensures Strip(s) != "" ==> !Space(Strip(s)[0]) && !Space(Strip(s)[|Strip(s)| - 1])
  {
    StripLeftIsSuffix(s);
    StripRightIsPrefix(StripLeft(s));
  }

  lemma LowerKeepsKind(c: char)
    ensures var d := LikeSearch.AsciiLower(c);
            (d == ',' <==> c == ',') && (Space(d) <==> Space(c)) && LikeSearch.AsciiLower(d) == d
  {
    if 'A' <= c <= 'Z' {
      assert 97 <= LikeSearch.AsciiLower(c) as int <= 122;
    }
  }

  lemma LowerKeepsShape(s: string)
    ensures |Lower(s)| == |s| && Lower(Lower(s)) == Lower(s)
    ensures ',' in Lower(s) <==> ',' in s
    ensures forall i :: 0 <= i < |s| ==> (Space(Lower(s)[i]) <==> Space(s[i]))
  {
    forall i | 0 <= i < |s|
      ensures Lower(s)[i] == ',' <==> s[i] == ','
      ensures Space(Lower(s)[i]) <==> Space(s[i])
      ensures LikeSearch.AsciiLower(Lower(s)[i]) == Lower(s)[i]
    {
      LowerKeepsKind(s[i]);
    }
  }

  lemma StrippedPartIsTerm(part: string)
    requires ',' !in part && Strip(part) != ""
    ensures IsTerm(Lower(Strip(part)))
  {
    StripIsTrimmed(part);
    LowerKeepsShape(Strip(part));
  }

  lemma {:induction false} TermsAreTerms(parts: seq<string>)
    requires forall part :: part in parts ==> ',' !in part
    ensures forall t :: t in Terms(parts) ==> IsTerm(t)
  {
    if parts != [] {
      assert parts[0] in parts && forall part :: part in parts[1..] ==> part in parts;
      TermsAreTerms(parts[1..]);
      if Strip(parts[0]) != "" {
        StrippedPartIsTerm(parts[0]);
      }
    }
  }

  lemma {:induction false} DistinctKeepsMembers(terms: seq<string>)
    ensures NoRepeats(Distinct(terms)) && forall t :: t in Distinct(terms) <==> t in terms
    ensures NoRepeats(terms) ==> Distinct(terms) == terms
  {
    if terms != [] {
      var n := |terms| - 1;
      assert terms == terms[..n] + [terms[n]];
      DistinctKeepsMembers(terms[..n]);
    }
  }

  // ------------------------------------------------------------------- the whole

  /** Whatever was sent, the terms are clean and none is there twice. */
  lemma SplitCsvIsClean(raw: string)
    ensures NoRepeats(SplitCsv(raw))
    ensures forall t :: t in SplitCsv(raw) ==> IsTerm(t)
  {
    SplitHasNoComma(raw);
    TermsAreTerms(Split(raw));
    DistinctKeepsMembers(Terms(Split(raw)));
  }

  lemma TermIsOnePart(t: string)
    requires IsTerm(t)
    ensures Terms([t]) == [t] && Split(t) == [t]
  {
    SplitAtComma(t, "");
    assert Strip(t) == t;
  }

  /** A value comes through as itself exactly when it already is a term. */
  lemma SplitCsvFixes(t: string)
    ensures SplitCsv(t) == [t] <==> IsTerm(t)
    ensures t in SplitCsv(t) <==> IsTerm(t)
  {
    SplitCsvIsClean(t);
    if IsTerm(t) {
      TermIsOnePart(t);
      DistinctKeepsMembers([t]);
    }
    assert SplitCsv(t) == [t] ==> t in SplitCsv(t);
  }

  function Join(terms: seq<string>): string {
    if terms == [] then "" else if |terms| == 1 then terms[0] else terms[0] + "," + Join(terms[1..])
  }

  lemma {:induction false} TermsOfJoin(terms: seq<string>)
    requires forall t :: t in terms ==> IsTerm(t)
    ensures Terms(Split(Join(terms))) == terms
  {
    if terms == [] {
      assert Split("") == [""];
    } else {
      assert terms[0] in terms;
      TermIsOnePart(terms[0]);
      if |terms| > 1 {
        SplitAtComma(terms[0], Join(terms[1..]));
        TermsOfJoin(terms[1..]);
        var parts := Split(Join(terms));
        assert parts[0] == terms[0] && parts[1..] == Split(Join(terms[1..]));
        assert terms == [terms[0]] + terms[1..];
      }
    }
  }

  /** Sending the terms again gives the same terms: the normal form is stable. */
  lemma SplitCsvIsIdempotent(raw: string)
    ensures SplitCsv(Join(SplitCsv(raw))) == SplitCsv(raw)
  {
    SplitCsvIsClean(raw);
    TermsOfJoin(SplitCsv(raw));
    DistinctKeepsMembers(SplitCsv(raw));
  }

  // ------------------------------------------------------------------- a parameter of several terms

  /** What one more character in front makes of the parts. */
  function Prepend(c: char, parts: seq<string>): seq<string>
    requires parts != []
  {
    if c == ',' then [""] + parts else [[c] + parts[0]] + parts[1..]
  }

  lemma SplitFirst(c: char, rest: string)
    ensures Split([c] + rest) == Prepend(c, Split(rest))
  {
    assert ([c] + rest)[1..] == rest;
  }

  lemma PrependToConcat(c: char, a: seq<string>, b: seq<string>)
    requires a != []
    ensures Prepend(c, a + b) == Prepend(c, a) + b
  {
  }

  lemma {:induction false} SplitAtEachComma(a: string, b: string)
    ensures Split(a + "," + b) == Split(a) + Split(b)
  {
    if a == "" {
      assert a + "," + b == "," + b;
      SplitFirst(',', b);
    } else {
      var c, rest := a[0], a[1..];
      var whole := rest + "," + b;
      SplitAtEachComma(rest, b);
      SplitFirst(c, whole);
      SplitFirst(c, rest);
      PrependToConcat(c, Split(rest), Split(b));
      assert a + "," + b == [c] + whole && a == [c] + rest;
    }
  }

  lemma {:induction false} TermsOfConcat(a: seq<string>, b: seq<string>)
    ensures Terms(a + b) == Terms(a) + Terms(b)
  {
    if a == [] {
      assert a + b == b;
    } else {
      assert (a + b)[0] == a[0] && (a + b)[1..] == a[1..] + b;
      TermsOfConcat(a[1..], b);
    }
  }

  /** The terms that are not among `seen`. */
  function Others(terms: seq<string>, seen: seq<string>): seq<string> {
    if terms == [] then []
    else
      var last := terms[|terms| - 1];
      Others(terms[..|terms| - 1], seen) + if last in seen then [] else [last]
  }

  lemma {:induction false} OthersMembers(terms: seq<string>, seen: seq<string>, t: string)
    ensures t in Others(terms, seen) <==> t in terms && t !in seen
  {
    if terms != [] {
      OthersMembers(terms[..|terms| - 1], seen, t);
      assert terms == terms[..|terms| - 1] + [terms[|terms| - 1]];
    }
  }

  lemma DistinctSnoc(terms: seq<string>, last: string)
    ensures Distinct(terms + [last]) == if last in terms then Distinct(terms) else Distinct(terms) + [last]
  {
    assert (terms + [last])[..|terms|] == terms;
    DistinctKeepsMembers(terms);
  }

  lemma OthersSnoc(terms: seq<string>, last: string, seen: seq<string>)
    ensures Others(terms + [last], seen) == if last in seen then Others(terms, seen) else Others(terms, seen) + [last]
  {
    assert (terms + [last])[..|terms|] == terms;
  }

  /** One term more on both sides. */
  lemma DistinctGrows(a: seq<string>, before: seq<string>, last: string)
    requires Distinct(a + before) == Distinct(a) + Others(Distinct(before), Distinct(a))
    ensures Distinct(a + before + [last]) == Distinct(a) + Others(Distinct(before + [last]), Distinct(a))
  {
    DistinctSnoc(a + before, last);
    DistinctSnoc(before, last);
    DistinctKeepsMembers(a);
    if last !in before {
      OthersSnoc(Distinct(before), last, Distinct(a));
      if last !in a {
        assert last !in a + before;
        Regroup(Distinct(a), Others(Distinct(before), Distinct(a)), last);
      }
    }
  }

  lemma Regroup(a: seq<string>, b: seq<string>, last: string)
    ensures a + b + [last] == a + (b + [last])
  {
  }

  lemma {:induction false} DistinctOfConcat(a: seq<string>, b: seq<string>)
    ensures Distinct(a + b) == Distinct(a) + Others(Distinct(b), Distinct(a))
  {
    if b == [] {
      NothingMore(a);
    } else {
      var before, last := b[..|b| - 1], b[|b| - 1];
      DistinctOfConcat(a, before);
      DistinctGrows(a, before, last);
      Regroup(a, before, last);
      assert before + [last] == b;
    }
  }

  lemma NothingMore(a: seq<string>)
    ensures Distinct(a + []) == Distinct(a) + Others(Distinct([]), Distinct(a))
  {
    assert a + [] == a;
  }

  /** After a comma the terms of the second half follow those of the first, less what was already said. */
  lemma SplitCsvAtComma(a: string, b: string)
    ensures SplitCsv(a + "," + b) == SplitCsv(a) + Others(SplitCsv(b), SplitCsv(a))
    ensures forall t :: t in SplitCsv(a + "," + b) <==> t in SplitCsv(a) || t in SplitCsv(b)
  {
    SplitAtEachComma(a, b);
    TermsOfConcat(Split(a), Split(b));
    DistinctOfConcat(Terms(Split(a)), Terms(Split(b)));
    forall t
      ensures t in Others(SplitCsv(b), SplitCsv(a)) <==> t in SplitCsv(b) && t !in SplitCsv(a)
    {
      OthersMembers(SplitCsv(b), SplitCsv(a), t);
    }
  }

  predicate Blank(s: string) {
    forall c :: c in s ==> Space(c)
  }

  lemma {:induction false} StripLeftOf(left: string, s: string)
    requires Blank(left) && (s != "" ==> !Space(s[0]))
    ensures StripLeft(left + s) == s
  {
    if left == "" {
      assert left + s == s;
    } else {
      assert left[0] in left && forall c :: c in left[1..] ==> c in left;
      assert (left + s)[1..] == left[1..] + s;
      StripLeftOf(left[1..], s);
    }
  }

  lemma {:induction false} StripRightOf(s: string, right: string)
    requires Blank(right) && (s != "" ==> !Space(s[|s| - 1]))
    ensures StripRight(s + right) == s
  {
    if right == "" {
      assert s + right == s;
    } else {
      var n := |right| - 1;
      assert right[n] in right && forall c :: c in right[..n] ==> c in right;
      assert (s + right)[..|s + right| - 1] == s + right[..n];
      StripRightOf(s, right[..n]);
    }
  }

  /** Blanks around a term and its case do not matter, and blanks alone are no term. */
  lemma SplitCsvOfPart(left: string, term: string, right: string)
    requires Blank(left) && Blank(right) && ',' !in term
    requires term != "" ==> !Space(term[0]) && !Space(term[|term| - 1])
    ensures SplitCsv(left + term + right) == if term == "" then [] else [Lower(term)]
  {
    var part := left + term + right;
    BlankHasNoComma(left);
    BlankHasNoComma(right);
    SplitAtComma(part, "");
    StripOf(left, term, right);
    LowerKeepsShape(term);
    var terms := if term == "" then [] else [Lower(term)];
    assert Terms([part]) == terms by {
      assert [part][1..] == [];
    }
    DistinctKeepsMembers(terms);
  }

  lemma StripOf(left: string, term: string, right: string)
    requires Blank(left) && Blank(right)
    requires term != "" ==> !Space(term[0]) && !Space(term[|term| - 1])
    ensures Strip(left + term + right) == term
  {
    if term == "" {
      assert left + term + right == left + right + "" && Blank(left + right);
      StripLeftOf(left + right, "");
    } else {
      assert left + term + right == left + (term + right);
      StripLeftOf(left, term + right);
      StripRightOf(term, right);
    }
  }

  lemma BlankHasNoComma(s: string)
    requires Blank(s)
    ensures ',' !in s
  {
    assert !Space(',');
  }
}
