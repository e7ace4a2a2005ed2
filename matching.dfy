/**
 * The keyword rule that decides whether a required document counts as
 * uploaded.  The label is lower-cased and split on runs of white space, `/`,
 * `(` and `)`; the document counts as uploaded when some lower-cased file
 * name contains some keyword longer than two characters.  The same rule is
 * written out three times in the source (document checklist, WhatsApp
 * message, PDF summary); it is defined once here.
 */
module Matching {
  import opened Strings

  /** The characters of the class `[\s\/\(\)]`. */
  predicate IsSeparator(c: char) {
    IsWhitespace(c) || c == '/' || c == '(' || c == ')'
  }

  /** The first position at or after `i` that holds a separator, or `|s|`. */
  function TokenEnd(s: string, i: nat): (r: nat)
    requires i <= |s|
    ensures i <= r <= |s|
    ensures forall t :: i <= t < r ==> !IsSeparator(s[t])
    ensures r == |s| || IsSeparator(s[r])
    decreases |s| - i
  {
    if i == |s| || IsSeparator(s[i]) then i else TokenEnd(s, i + 1)
  }

  /** The first position at or after `i` that holds no separator, or `|s|`. */
  function SeparatorsEnd(s: string, i: nat): (r: nat)
    requires i <= |s|
    ensures i <= r <= |s|
    ensures forall t :: i <= t < r ==> IsSeparator(s[t])
    ensures r == |s| || !IsSeparator(s[r])
    decreases |s| - i
  {
    if i == |s| || !IsSeparator(s[i]) then i else SeparatorsEnd(s, i + 1)
  }

  /** The pieces of `s[i..]`, where `i` starts a piece. */
  function SplitFrom(s: string, i: nat): (r: seq<string>)
    requires i <= |s|
    ensures |r| >= 1
    decreases |s| - i
  {
    var j := TokenEnd(s, i);
    if j == |s| then [s[i..j]] else [s[i..j]] + SplitFrom(s, SeparatorsEnd(s, j))
  }

  /** `s.split(/[\s\/\(\)]+/)`: the pieces between maximal separator runs,
      with an empty first piece when `s` starts with a separator and an empty
      last piece when it ends with one. */
  function Split(s: string): (r: seq<string>)
    ensures |r| >= 1
  {
    SplitFrom(s, 0)
  }

  /** No separator in `s[i..j]`. */
  predicate NoSeparatorIn(s: string, i: int, j: int)
    requires 0 <= i <= j <= |s|
  {
    forall t :: i <= t < j ==> !IsSeparator(s[t])
  }

  /** `s[i..j]` is a non-empty maximal run of non-separators. */
  predicate IsRun(s: string, i: int, j: int) {
    && 0 <= i < j <= |s|
    && NoSeparatorIn(s, i, j)
    && (i == 0 || IsSeparator(s[i - 1]))
    && (j == |s| || IsSeparator(s[j]))
  }

  /** `piece` is the maximal run of `s` that starts at `a`. */
  predicate PieceAt(s: string, a: int, piece: string) {
    IsRun(s, a, a + |piece|) && s[a..a + |piece|] == piece
  }

  /** Every non-empty piece is a maximal run of the input. */
  lemma {:induction false} SplitFromSound(s: string, i: nat, k: nat, piece: string) returns (a: nat)
    requires i <= |s| && (i == 0 || IsSeparator(s[i - 1]))
    requires k < |SplitFrom(s, i)| && piece == SplitFrom(s, i)[k] && piece != []
    ensures i <= a && PieceAt(s, a, piece)
    decreases |s| - i
  {
    if k == 0 {
      FirstPieceIsRun(s, i, piece);
      a := i;
    } else {
      var n := SplitStep(s, i, k);
      a := SplitFromSound(s, n, k - 1, piece);
    }
  }

  /** A non-empty first piece is a maximal run. */
  lemma FirstPieceIsRun(s: string, i: nat, piece: string)
    requires i <= |s| && (i == 0 || IsSeparator(s[i - 1]))
    requires piece == SplitFrom(s, i)[0] && piece != []
    ensures PieceAt(s, i, piece)
  {
    var j := TokenEnd(s, i);
    assert piece == s[i..j] && i + |piece| == j;
  }

  /** Past the first piece, the pieces continue after the separator run that follows it. */
  lemma SplitStep(s: string, i: nat, k: nat) returns (n: nat)
    requires i <= |s| && 0 < k < |SplitFrom(s, i)|
    ensures i < n <= |s| && IsSeparator(s[n - 1])
    ensures k - 1 < |SplitFrom(s, n)| && SplitFrom(s, i)[k] == SplitFrom(s, n)[k - 1]
  {
    var j := TokenEnd(s, i);
    n := SeparatorsEnd(s, j);
    assert s[n - 1] == s[j..n][n - 1 - j];
  }

  /** Every maximal run at or after a piece start is a piece. */
  lemma {:induction false} SplitFromComplete(s: string, i: nat, a: int, b: int)
    requires i <= a && IsRun(s, a, b)
    ensures s[a..b] in SplitFrom(s, i)
    decreases |s| - i
  {
    var j := TokenEnd(s, i);
    if a == i {
      assert SplitFrom(s, i)[0] == s[a..b];
    } else {
      assert IsSeparator(s[a - 1]);
      assert j <= a - 1;
      var n := SeparatorsEnd(s, j);
      assert !IsSeparator(s[a]);
      assert n <= a;
      SplitFromComplete(s, n, a, b);
    }
  }

  lemma SplitSound(s: string, k: nat) returns (a: nat)
    requires k < |Split(s)| && Split(s)[k] != []
    ensures IsRun(s, a, a + |Split(s)[k]|) && s[a..a + |Split(s)[k]|] == Split(s)[k]
  {
    a := SplitFromSound(s, 0, k, Split(s)[k]);
  }

  lemma SplitComplete(s: string, a: int, b: int)
    requires IsRun(s, a, b)
    ensures s[a..b] in Split(s)
  {
    SplitFromComplete(s, 0, a, b);
  }

  /** `fileName.includes(keyword) && keyword.length > 2` for some keyword of the label `doc`. */
  predicate NameMatches(doc: string, name: string) {
    var keywords := Split(LowerStr(doc));
    exists k :: 0 <= k < |keywords| && |keywords[k]| > 2 && Contains(LowerStr(name), keywords[k])
  }

  /** `isDocumentUploaded(doc)`: some uploaded file name matches the label `doc`. */
  predicate IsDocumentUploaded(doc: string, names: seq<string>) {
    exists f :: 0 <= f < |names| && NameMatches(doc, names[f])
  }

  /** The rule stated without the split: some maximal run of the lower-cased
      label, longer than two characters, occurs in the lower-cased name. */
  ghost predicate MatchesByRuns(doc: string, name: string) {
    var l := LowerStr(doc);
    exists i, j :: 0 <= i < j <= |l| && IsRun(l, i, j) && j - i > 2 && Contains(LowerStr(name), l[i..j])
  }

  /** The split-based rule and the run-based statement agree on every label and name. */
  lemma NameMatchesIff(doc: string, name: string)
    ensures NameMatches(doc, name) <==> MatchesByRuns(doc, name)
  {
    if NameMatches(doc, name) {
      KeywordIsRun(doc, name);
    }
    if MatchesByRuns(doc, name) {
      RunIsKeyword(doc, name);
    }
  }

  /** A matching keyword is a maximal run of the lower-cased label. */
  lemma KeywordIsRun(doc: string, name: string)
    requires NameMatches(doc, name)
    ensures MatchesByRuns(doc, name)
  {
    var l := LowerStr(doc);
    var keywords := Split(l);
    var k :| 0 <= k < |keywords| && |keywords[k]| > 2 && Contains(LowerStr(name), keywords[k]);
    var i := SplitSound(l, k);
    assert IsRun(l, i, i + |keywords[k]|);
  }

  /** A matching maximal run of the lower-cased label is one of its keywords. */
  lemma RunIsKeyword(doc: string, name: string)
    requires MatchesByRuns(doc, name)
    ensures NameMatches(doc, name)
  {
    var l := LowerStr(doc);
    var keywords := Split(l);
    var i, j :| 0 <= i < j <= |l| && IsRun(l, i, j) && j - i > 2 && Contains(LowerStr(name), l[i..j]);
    SplitComplete(l, i, j);
    var k :| 0 <= k < |keywords| && keywords[k] == l[i..j];
    assert |keywords[k]| > 2;
  }

  /** Every keyword is a piece of the label, so a label of at most two
      characters never matches anything. */
  lemma ShortLabelNeverMatches(doc: string, names: seq<string>)
    requires |doc| <= 2
    ensures !IsDocumentUploaded(doc, names)
  {
    if IsDocumentUploaded(doc, names) {
      var f :| 0 <= f < |names| && NameMatches(doc, names[f]);
      NameMatchesIff(doc, names[f]);
    }
  }

  /** Uploading more files never makes a satisfied requirement unsatisfied. */
  lemma UploadedMonotone(doc: string, names: seq<string>, more: seq<string>)
    requires IsDocumentUploaded(doc, names)
    ensures IsDocumentUploaded(doc, names + more) && IsDocumentUploaded(doc, more + names)
  {
    var f :| 0 <= f < |names| && NameMatches(doc, names[f]);
    assert (names + more)[f] == names[f];
    assert (more + names)[|more| + f] == names[f];
  }

  /** A label matches a set of names exactly when it matches one of them alone. */
  lemma UploadedIffSomeName(doc: string, names: seq<string>)
    ensures IsDocumentUploaded(doc, names) <==> exists f :: 0 <= f < |names| && IsDocumentUploaded(doc, [names[f]])
  {
    if IsDocumentUploaded(doc, names) {
      var f :| 0 <= f < |names| && NameMatches(doc, names[f]);
      assert [names[f]][0] == names[f];
    }
    if exists f :: 0 <= f < |names| && IsDocumentUploaded(doc, [names[f]]) {
      var f :| 0 <= f < |names| && IsDocumentUploaded(doc, [names[f]]);
      assert NameMatches(doc, [names[f]][0]);
    }
  }

  /** A long enough run of the label found in the name is a match. */
  lemma RunMatches(doc: string, name: string, i: int, j: int)
    requires IsRun(LowerStr(doc), i, j) && j - i > 2
    requires Contains(LowerStr(name), LowerStr(doc)[i..j])
    ensures NameMatches(doc, name)
  {
    NameMatchesIff(doc, name);
  }

  lemma SingleName(doc: string, name: string)
    requires NameMatches(doc, name)
    ensures IsDocumentUploaded(doc, [name])
  {
    assert [name][0] == name;
  }

  /** "Valid Passport" is satisfied by a scan named "my_passport_scan.pdf". */
  lemma PassportExample(doc: string, name: string)
    requires doc == "Valid Passport" && name == "my_passport_scan.pdf"
    ensures IsDocumentUploaded(doc, [name])
  {
    PassportRun(doc);
    PassportInName(name);
    RunMatches(doc, name, 6, 14);
    SingleName(doc, name);
  }

  lemma PassportRun(doc: string)
    requires doc == "Valid Passport"
    ensures IsRun(LowerStr(doc), 6, 14) && LowerStr(doc)[6..14] == "passport"
  {
    LowerValidPassport(doc);
    PassportRunIn(LowerStr(doc));
  }

  lemma LowerValidPassport(doc: string)
    requires doc == "Valid Passport"
    ensures LowerStr(doc) == "valid passport"
  {
    var l := LowerStr(doc);
    assert l[0] == 'v' && l[6] == 'p';
    assert forall k :: 0 <= k < 14 && k != 0 && k != 6 ==> l[k] == doc[k];
  }

  lemma PassportRunIn(l: string)
    requires l == "valid passport"
    ensures IsRun(l, 6, 14) && l[6..14] == "passport"
  {
    assert l[5] == ' ';
    forall t | 6 <= t < 14 ensures !IsSeparator(l[t]) {
      assert 'a' <= l[t] <= 'z';
    }
  }

  lemma PassportInName(name: string)
    requires name == "my_passport_scan.pdf"
    ensures Contains(LowerStr(name), "passport")
  {
    var n := LowerStr(name);
    assert n == name;
    assert n[3..11] == "passport";
    ContainsAt(n, "passport", 3);
  }

  /** A photograph does not satisfy "Valid Passport": neither keyword,
      "valid" nor "passport", occurs in "photo.jpg". */
  lemma PhotoIsNoPassport(doc: string, name: string)
    requires doc == "Valid Passport" && name == "photo.jpg"
    ensures !IsDocumentUploaded(doc, [name])
  {
    LowerValidPassport(doc);
    NoRunInPhoto(LowerStr(doc), LowerStr(name));
    NameMatchesIff(doc, name);
    assert [name][0] == name;
  }

  /** No word of "valid passport" occurs in "photo.jpg". */
  lemma NoRunInPhoto(l: string, n: string)
    requires l == "valid passport" && n == "photo.jpg"
    ensures forall i, j :: 0 <= i < j <= |l| && IsRun(l, i, j) ==> !Contains(n, l[i..j])
  {
    forall i, j | 0 <= i < j <= |l| && IsRun(l, i, j)
      ensures !Contains(n, l[i..j])
    {
      ValidPassportRuns(l, i, j);
      if i == 0 {
        AbsentCharNotContained(n, l[i..j], 0);
      } else {
        AbsentCharNotContained(n, l[i..j], 2);
      }
    }
  }

  /** The maximal runs of "valid passport" are its two words. */
  lemma ValidPassportRuns(l: string, i: int, j: int)
    requires l == "valid passport" && IsRun(l, i, j)
    ensures (i == 0 && j == 5) || (i == 6 && j == 14)
  {
    assert IsSeparator(l[5]);
    assert forall t :: 0 <= t < 14 && t != 5 ==> 'a' <= l[t] <= 'z';
  }

  /** A text lacking one of the characters of `w` does not contain `w`. */
  lemma AbsentCharNotContained(s: string, w: string, k: int)
    requires 0 <= k < |w| && forall t :: 0 <= t < |s| ==> s[t] != w[k]
    ensures !Contains(s, w)
  {
    if Contains(s, w) {
      var p := ContainsWitness(s, w);
    }
  }
}
