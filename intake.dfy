/**
 * The intake form: the per-field validation rules (required, e-mail, UK
 * phone number, UK postcode, required checkbox), the whole-form check that
 * gates submission, the evidence checklist for the chosen route, and what a
 * valid submission does to the store and the other managers.  The regular
 * expressions of the source are written out as character-level predicates.
 */
module Intake {
  import opened Wrappers
  import opened Strings
  import opened Seqs
  import Json
  import Catalog
  import Storage
  import Records
  import Deadlines
  import Documents

  /** A form control as `validateField` sees it: its id, its `type`, whether it
      carries `required`, its value and (for a checkbox) whether it is ticked. */
  datatype Field = Field(id: string, kind: string, required: bool, value: string, checked: bool)

  /** `[^\s@]`. */
  predicate PlainChar(c: char) {
    !IsWhitespace(c) && c != '@'
  }

  predicate Plain(s: string) {
    forall k :: 0 <= k < |s| ==> PlainChar(s[k])
  }

  /** A `.` that is neither the first nor the last character. */
  predicate DotInside(d: string) {
    exists k :: 0 < k < |d| - 1 && d[k] == '.'
  }

  /** The `@` at `i` splits `s` as the e-mail pattern asks. */
  predicate EmailSplitAt(s: string, i: int) {
    0 < i < |s| && s[i] == '@' && Plain(s[..i]) && Plain(s[i + 1..]) && DotInside(s[i + 1..])
  }

  /** `/^[^\s@]+@[^\s@]+\.[^\s@]+$/.test(s)`. */
  predicate EmailMatches(s: string) {
    exists i | 0 < i < |s| :: EmailSplitAt(s, i)
  }

  /** `s` is `a@b.c`, the three parts non-empty and free of white space and `@`. */
  predicate EmailParts(s: string, a: string, b: string, c: string) {
    && a != [] && b != [] && c != []
    && Plain(a) && Plain(b) && Plain(c)
    && s == a + "@" + b + "." + c
  }

  /** The pattern read as a decomposition: a local part, `@`, a host, `.`, a
      last label. */
  ghost predicate EmailShape(s: string) {
    exists a: string, b: string, c: string :: EmailParts(s, a, b, c)
  }

  lemma PlainConcat(x: string, y: string)
    requires Plain(x) && Plain(y)
    ensures Plain(x + y)
  {
    forall k | 0 <= k < |x + y| ensures PlainChar((x + y)[k]) {
      if k < |x| { assert (x + y)[k] == x[k]; } else { assert (x + y)[k] == y[k - |x|]; }
    }
  }

  lemma PlainSlice(x: string, i: int, j: int)
    requires Plain(x) && 0 <= i <= j <= |x|
    ensures Plain(x[i..j])
  {
    forall k | 0 <= k < j - i ensures PlainChar(x[i..j][k]) {
      assert x[i..j][k] == x[i + k];
    }
  }

  /** The character test and the decomposition accept the same addresses. */
  lemma EmailMatchesIff(s: string)
    ensures EmailMatches(s) <==> EmailShape(s)
  {
    if EmailMatches(s) {
      EmailMatchesShape(s);
    }
    if EmailShape(s) {
      var a: string, b: string, c: string :| EmailParts(s, a, b, c);
      ShapeMatches(s, a, b, c);
    }
  }

  lemma EmailMatchesShape(s: string)
    requires EmailMatches(s)
    ensures EmailShape(s)
  {
    var i :| 0 < i < |s| && EmailSplitAt(s, i);
    var a, d := s[..i], s[i + 1..];
    assert s == a + ("@" + d) by {
      assert s[i..] == "@" + d;
      assert s == a + s[i..];
    }
    var k :| 0 < k < |d| - 1 && d[k] == '.';
    var b, c := d[..k], d[k + 1..];
    DotSplit(d, k);
    Associate(s, a, b, c);
    assert EmailParts(s, a, b, c);
  }

  lemma DotSplit(d: string, k: int)
    requires Plain(d) && 0 < k < |d| - 1 && d[k] == '.'
    ensures Plain(d[..k]) && Plain(d[k + 1..]) && d == d[..k] + ("." + d[k + 1..])
  {
    PlainSlice(d, 0, k);
    PlainSlice(d, k + 1, |d|);
    assert d[k..] == "." + d[k + 1..];
    assert d == d[..k] + d[k..];
  }

  lemma Associate(s: string, a: string, b: string, c: string)
    requires s == a + ("@" + (b + ("." + c)))
    ensures s == a + "@" + b + "." + c
  {
  }

  lemma ShapeMatches(s: string, a: string, b: string, c: string)
    requires EmailParts(s, a, b, c)
    ensures EmailMatches(s)
  {
    var i := |a|;
    var d := b + "." + c;
    assert s == a + "@" + d;
    assert s[..i] == a && s[i] == '@' && s[i + 1..] == d;
    PlainConcat(b, ".");
    PlainConcat(b + ".", c);
    assert d[|b|] == '.';
    assert EmailSplitAt(s, i);
  }

  /** An accepted address has no white space and exactly one `@`, after a
      non-empty local part. */
  lemma EmailOneAt(s: string) returns (i: nat)
    requires EmailMatches(s)
    ensures 0 < i < |s| && s[i] == '@'
    ensures forall j :: 0 <= j < |s| && s[j] == '@' ==> j == i
    ensures NoWhitespace(s)
  {
    i :| 0 < i < |s| && s[i] == '@' && Plain(s[..i]) && Plain(s[i + 1..]) && DotInside(s[i + 1..]);
    forall j | 0 <= j < |s| && j != i ensures PlainChar(s[j]) {
      if j < i { assert s[j] == s[..i][j]; } else { assert s[j] == s[i + 1..][j - i - 1]; }
    }
  }

  /** `[0-9\s]`. */
  predicate DigitOrSpace(c: char) {
    IsDigit(c) || IsWhitespace(c)
  }

  /** `[0-9\s]{9,13}` matching the whole of `r`. */
  predicate PhoneBody(r: string) {
    9 <= |r| <= 13 && forall k :: 0 <= k < |r| ==> DigitOrSpace(r[k])
  }

  /** `/^(\+44\s?|0)[0-9\s]{9,13}$/.test(t)`. */
  predicate PhoneMatches(t: string) {
    || (|t| >= 3 && t[..3] == "+44" && (PhoneBody(t[3..]) || (|t| >= 4 && IsWhitespace(t[3]) && PhoneBody(t[4..]))))
    || (|t| >= 1 && t[0] == '0' && PhoneBody(t[1..]))
  }

  /** With the white space removed first, the phone rule is: `+44` or `0`
      followed by 9 to 13 digits. */
  lemma PhoneRule(value: string)
    ensures var t := RemoveWhitespace(value);
      PhoneMatches(t) <==>
        || (12 <= |t| <= 16 && t[..3] == "+44" && AllDigits(t[3..]))
        || (10 <= |t| <= 14 && t[0] == '0' && AllDigits(t[1..]))
  {
    var t := RemoveWhitespace(value);
    if |t| >= 3 {
      assert forall k :: 0 <= k < |t| - 3 ==> t[3..][k] == t[k + 3];
    }
    if |t| >= 1 {
      assert forall k :: 0 <= k < |t| - 1 ==> t[1..][k] == t[k + 1];
    }
  }

  predicate AllWhitespace(s: string) {
    forall k :: 0 <= k < |s| ==> IsWhitespace(s[k])
  }

  /** The postcode pattern with the optional parts fixed: `a` letters, `b`
      digits, `c` letters, `w` white-space characters, then digit, letter, letter. */
  predicate PostcodeSplit(t: string, a: int, b: int, c: int, w: int)
    requires 1 <= a <= 2 && 1 <= b <= 2 && 0 <= c <= 1 && 0 <= w <= 1
  {
    && |t| == a + b + c + w + 3
    && AllLetters(t[..a]) && AllDigits(t[a..a + b]) && AllLetters(t[a + b..a + b + c])
    && AllWhitespace(t[a + b + c..a + b + c + w])
    && IsDigit(t[|t| - 3]) && IsLetter(t[|t| - 2]) && IsLetter(t[|t| - 1])
  }

  /** `/^[A-Z]{1,2}[0-9]{1,2}[A-Z]?\s?[0-9][A-Z]{2}$/i.test(t)`. */
  predicate PostcodeMatches(t: string) {
    exists a, b, c, w | 1 <= a <= 2 && 1 <= b <= 2 && 0 <= c <= 1 && 0 <= w <= 1 :: PostcodeSplit(t, a, b, c, w)
  }

  /** An accepted postcode starts with a letter and ends with digit, letter,
      letter; without white space it is 5 to 8 characters long. */
  lemma PostcodeShape(t: string)
    requires PostcodeMatches(t)
    ensures 5 <= |t| <= 9 && IsLetter(t[0])
    ensures IsDigit(t[|t| - 3]) && IsLetter(t[|t| - 2]) && IsLetter(t[|t| - 1])
    ensures NoWhitespace(t) ==> |t| <= 8
  {
    var a, b, c, w :| 1 <= a <= 2 && 1 <= b <= 2 && 0 <= c <= 1 && 0 <= w <= 1 && PostcodeSplit(t, a, b, c, w);
    assert t[0] == t[..a][0];
    if w == 1 {
      assert t[a + b + c] == t[a + b + c..a + b + c + w][0];
    }
  }

  /** The first position from `i` up to `e` whose character fails `p`, or `e`. */
  function RunEnd(t: string, i: nat, e: nat, p: char -> bool): (r: nat)
    requires i <= e <= |t|
    ensures i <= r <= e
    ensures forall k :: i <= k < r ==> p(t[k])
    ensures r == e || !p(t[r])
    decreases e - i
  {
    if i == e || !p(t[i]) then i else RunEnd(t, i + 1, e, p)
  }

  /** `t[..e]` is an outward code, read left to right: one or two letters,
      then one or two digits, then at most one more letter. */
  predicate OutwardCode(t: string, e: nat)
    requires e <= |t|
  {
    var a := RunEnd(t, 0, e, IsLetter);
    var b := RunEnd(t, a, e, IsDigit);
    1 <= a <= 2 && 1 <= b - a <= 2 && e - b <= 1 && (b < e ==> IsLetter(t[b]))
  }

  /** The postcode read without backtracking: the inward code (digit,
      letter, letter) at the end, an optional white-space character before
      it, and an outward code before that. */
  predicate PostcodeScan(t: string) {
    && |t| >= 3 && IsDigit(t[|t| - 3]) && IsLetter(t[|t| - 2]) && IsLetter(t[|t| - 1])
    && var e := |t| - 3;
       if e > 0 && IsWhitespace(t[e - 1]) then OutwardCode(t, e - 1) else OutwardCode(t, e)
  }

  /** The postcode pattern accepts exactly the texts the scan accepts. */
  lemma PostcodeMatchesIff(t: string)
    ensures PostcodeMatches(t) <==> PostcodeScan(t)
  {
    if PostcodeMatches(t) {
      var a, b, c, w :| 1 <= a <= 2 && 1 <= b <= 2 && 0 <= c <= 1 && 0 <= w <= 1 && PostcodeSplit(t, a, b, c, w);
      PostcodeSplitScans(t, a, b, c, w);
    }
    if PostcodeScan(t) {
      ScanMatches(t);
    }
  }

  /** A text the scan accepts matches the pattern. */
  lemma ScanMatches(t: string)
    requires PostcodeScan(t)
    ensures PostcodeMatches(t)
  {
    var w := if |t| > 3 && IsWhitespace(t[|t| - 4]) then 1 else 0;
    var e := |t| - 3 - w;
    var a := RunEnd(t, 0, e, IsLetter);
    var b := RunEnd(t, a, e, IsDigit);
    ScanSplits(t, a, b - a, e - b, w);
  }

  /** A text matching the pattern with the optional parts fixed is accepted by the scan. */
  lemma PostcodeSplitScans(t: string, a: int, b: int, c: int, w: int)
    requires 1 <= a <= 2 && 1 <= b <= 2 && 0 <= c <= 1 && 0 <= w <= 1 && PostcodeSplit(t, a, b, c, w)
    ensures PostcodeScan(t)
  {
    var e := a + b + c;
    forall k | 0 <= k < a ensures IsLetter(t[k]) { assert t[..a][k] == t[k]; }
    forall k | a <= k < a + b ensures IsDigit(t[k]) { assert t[a..a + b][k - a] == t[k]; }
    if c == 1 { assert t[a + b..a + b + c][0] == t[a + b]; }
    if w == 1 { assert t[e..e + w][0] == t[e]; }
    OutwardScans(t, a, b, c, w);
  }

  /** The same, stated position by position. */
  lemma OutwardScans(t: string, a: int, b: int, c: int, w: int)
    requires 1 <= a <= 2 && 1 <= b <= 2 && 0 <= c <= 1 && 0 <= w <= 1 && |t| == a + b + c + w + 3
    requires forall k :: 0 <= k < a ==> IsLetter(t[k])
    requires forall k :: a <= k < a + b ==> IsDigit(t[k])
    requires c == 1 ==> IsLetter(t[a + b])
    requires w == 1 ==> IsWhitespace(t[a + b + c])
    requires IsDigit(t[|t| - 3]) && IsLetter(t[|t| - 2]) && IsLetter(t[|t| - 1])
    ensures PostcodeScan(t)
  {
    var e := a + b + c;
    OutwardCodeAt(t, a, b, e);
    if w == 0 {
      LetterOrDigitIsNoWhitespace(t[e - 1]);
      assert !(|t| - 3 > 0 && IsWhitespace(t[|t| - 4]));
    } else {
      assert |t| - 3 > 0 && IsWhitespace(t[|t| - 4]);
    }
  }

  /** Letters and digits are not white space. */
  lemma LetterOrDigitIsNoWhitespace(ch: char)
    requires IsLetter(ch) || IsDigit(ch)
    ensures !IsWhitespace(ch)
  {
  }

  /** One or two letters, one or two digits and at most one letter make an outward code. */
  lemma OutwardCodeAt(t: string, a: int, b: int, e: int)
    requires 1 <= a <= 2 && 1 <= b <= 2 && a + b <= e <= a + b + 1 && e <= |t|
    requires forall k :: 0 <= k < a ==> IsLetter(t[k])
    requires forall k :: a <= k < a + b ==> IsDigit(t[k])
    requires a + b < e ==> IsLetter(t[a + b])
    ensures OutwardCode(t, e)
  {
    var ra, rb := RunEnd(t, 0, e, IsLetter), RunEnd(t, a, e, IsDigit);
    if ra < a || rb < a + b {
      assert false;
    }
    assert IsDigit(t[a]) && (a + b < e ==> IsLetter(t[a + b]));
  }

  /** The scan's reading of a text fixes the optional parts of the pattern. */
  lemma ScanSplits(t: string, a: int, b: int, c: int, w: int)
    requires 0 <= w <= 1 && |t| >= 3 + w && IsDigit(t[|t| - 3]) && IsLetter(t[|t| - 2]) && IsLetter(t[|t| - 1])
    requires w == 1 ==> IsWhitespace(t[|t| - 4])
    requires a == RunEnd(t, 0, |t| - 3 - w, IsLetter) && a + b == RunEnd(t, a, |t| - 3 - w, IsDigit)
    requires c == |t| - 3 - w - a - b && OutwardCode(t, |t| - 3 - w)
    ensures PostcodeMatches(t)
  {
    SplitAt(t, a, b, c, w);
  }

  /** The pattern with the optional parts fixed, checked position by position. */
  lemma SplitAt(t: string, a: int, b: int, c: int, w: int)
    requires 1 <= a <= 2 && 1 <= b <= 2 && 0 <= c <= 1 && 0 <= w <= 1 && |t| == a + b + c + w + 3
    requires forall k :: 0 <= k < a ==> IsLetter(t[k])
    requires forall k :: a <= k < a + b ==> IsDigit(t[k])
    requires c == 1 ==> IsLetter(t[a + b])
    requires w == 1 ==> IsWhitespace(t[a + b + c])
    requires IsDigit(t[|t| - 3]) && IsLetter(t[|t| - 2]) && IsLetter(t[|t| - 1])
    ensures PostcodeSplit(t, a, b, c, w)
  {
    var e := a + b + c;
    assert AllLetters(t[..a]) by { forall k | 0 <= k < a ensures IsLetter(t[..a][k]) { assert t[..a][k] == t[k]; } }
    var digits := t[a..a + b];
    assert AllDigits(digits) by {
      forall k | 0 <= k < b ensures IsDigit(digits[k]) { assert digits[k] == t[a + k]; }
    }
    if c == 1 {
      assert t[a + b..e][0] == t[a + b];
    }
    if w == 1 {
      assert t[e..e + w][0] == t[e];
    }
  }

  /** "SW1A 1AA", as the rule sees it after white space is removed. */
  lemma PostcodeExample()
    ensures PostcodeMatches("SW1A1AA")
  {
    var t := "SW1A1AA";
    assert t[..2] == "SW" && t[2..3] == "1" && t[3..4] == "A" && t[4..4] == "";
    assert PostcodeSplit(t, 2, 1, 1, 0);
  }

  /** The validation rules, in the order `validateField` applies them. */
  datatype Rule = Required | Email | Phone | Postcode | Checkbox

  /** Whether rule `r` applies to the field and fails. */
  predicate Fails(f: Field, r: Rule) {
    var v := Trim(f.value);
    match r
    case Required => f.required && v == ""
    case Email => f.kind == "email" && v != "" && !EmailMatches(v)
    case Phone => f.id == "clientPhone" && v != "" && !PhoneMatches(RemoveWhitespace(v))
    case Postcode => f.id == "clientPostcode" && v != "" && !PostcodeMatches(RemoveWhitespace(v))
    case Checkbox => f.kind == "checkbox" && f.required && !f.checked
  }

  function Message(r: Rule): (m: string)
    ensures m != ""
  {
    match r
    case Required => "This field is required"
    case Email => "Please enter a valid email address"
    case Phone => "Please enter a valid UK phone number (e.g., +44 7700 900000)"
    case Postcode => "Please enter a valid UK postcode (e.g., SW1A 1AA)"
    case Checkbox => "You must accept this to continue"
  }

  /** The rules in the order `validateField` applies them. */
  const Rules: seq<Rule> := [Required, Email, Phone, Postcode, Checkbox]

  /** The failing rules of field `f`. */
  function FailsOf(f: Field): Rule -> bool {
    (r: Rule) => Fails(f, r)
  }

  /** No rule of `rules` fails. */
  predicate PassesAll(rules: seq<Rule>, fails: Rule -> bool) {
    rules == [] || (PassesAll(rules[..|rules| - 1], fails) && !fails(rules[|rules| - 1]))
  }

  /** The message left after applying `rules` in order: each failing rule
      overwrites the message of the ones before it. */
  function MessageAfter(rules: seq<Rule>, fails: Rule -> bool): string {
    if rules == [] then ""
    else if fails(rules[|rules| - 1]) then Message(rules[|rules| - 1])
    else MessageAfter(rules[..|rules| - 1], fails)
  }

  /** Applying one more rule. */
  lemma RuleStep(rules: seq<Rule>, r: Rule, fails: Rule -> bool)
    ensures PassesAll(rules + [r], fails) <==> PassesAll(rules, fails) && !fails(r)
    ensures MessageAfter(rules + [r], fails) == if fails(r) then Message(r) else MessageAfter(rules, fails)
  {
    assert (rules + [r])[..|rules|] == rules;
  }

  /** `PassesAll` holds exactly when no rule of the sequence fails. */
  lemma {:induction false} PassesAllIff(rules: seq<Rule>, fails: Rule -> bool)
    ensures PassesAll(rules, fails) <==> forall k :: 0 <= k < |rules| ==> !fails(rules[k])
  {
    if rules != [] {
      var init := rules[..|rules| - 1];
      PassesAllIff(init, fails);
      assert forall k :: 0 <= k < |init| ==> rules[k] == init[k];
    }
  }

  /** The message is empty exactly when no rule failed. */
  lemma {:induction false} MessageEmptyIff(rules: seq<Rule>, fails: Rule -> bool)
    ensures MessageAfter(rules, fails) == "" <==> PassesAll(rules, fails)
  {
    if rules != [] {
      MessageEmptyIff(rules[..|rules| - 1], fails);
    }
  }

  /** A non-empty message is that of a failing rule after which no rule failed. */
  lemma {:induction false} MessageIsLastFailure(rules: seq<Rule>, fails: Rule -> bool) returns (k: nat)
    requires MessageAfter(rules, fails) != ""
    ensures k < |rules| && fails(rules[k]) && MessageAfter(rules, fails) == Message(rules[k])
    ensures forall k' :: k < k' < |rules| ==> !fails(rules[k'])
  {
    var last := |rules| - 1;
    if fails(rules[last]) {
      k := last;
    } else {
      var init := rules[..last];
      k := MessageIsLastFailure(init, fails);
      assert forall k' :: 0 <= k' < |init| ==> rules[k'] == init[k'];
    }
  }

  /** No rule fails. */
  predicate FieldValid(f: Field) {
    PassesAll(Rules, FailsOf(f))
  }

  /** The message shown for the field. */
  function LastFailureMessage(f: Field): string {
    MessageAfter(Rules, FailsOf(f))
  }

  /** The field is valid exactly when no rule fails, and then exactly when the
      message is empty. */
  lemma FieldValidIff(f: Field)
    ensures FieldValid(f) <==> forall r: Rule :: !Fails(f, r)
    ensures FieldValid(f) <==> LastFailureMessage(f) == ""
  {
    PassesAllIff(Rules, FailsOf(f));
    MessageEmptyIff(Rules, FailsOf(f));
    if FieldValid(f) {
      forall r: Rule ensures !Fails(f, r) {
        var k := match r case Required => 0 case Email => 1 case Phone => 2 case Postcode => 3 case Checkbox => 4;
        assert Rules[k] == r;
      }
    }
  }

  /** A required field holding only white space fails. */
  lemma BlankRequiredFails(f: Field)
    requires f.required && forall i :: 0 <= i < |f.value| ==> IsWhitespace(f.value[i])
    ensures !FieldValid(f)
  {
    TrimEmptyIff(f.value);
    FieldValidIff(f);
    assert Fails(f, Required);
  }

  /** One rule of `validateField`: when it applies to the field and fails, it
      clears `isValid` and replaces the message; otherwise both stay. */
  method CheckRule(f: Field, value: string, r: Rule, isValid: bool, errorMessage: string)
    returns (isValid': bool, errorMessage': string)
    requires value == Trim(f.value)
    ensures isValid' <==> isValid && !Fails(f, r)
    ensures errorMessage' == if Fails(f, r) then Message(r) else errorMessage
  {
    isValid', errorMessage' := isValid, errorMessage;
    match r
    case Required =>
      if f.required && value == "" {
        isValid', errorMessage' := false, Message(Required);
      }
    case Email =>
      if f.kind == "email" && value != "" && !EmailMatches(value) {
        isValid', errorMessage' := false, Message(Email);
      }
    case Phone =>
      if f.id == "clientPhone" && value != "" && !PhoneMatches(RemoveWhitespace(value)) {
        isValid', errorMessage' := false, Message(Phone);
      }
    case Postcode =>
      if f.id == "clientPostcode" && value != "" && !PostcodeMatches(RemoveWhitespace(value)) {
        isValid', errorMessage' := false, Message(Postcode);
      }
    case Checkbox =>
      if f.kind == "checkbox" && f.required && !f.checked {
        isValid', errorMessage' := false, Message(Checkbox);
      }
  }

  /** `validateField(field)`: the rules run in order, each able only to clear
      `isValid`, so the field is valid when no rule fails and the message left
      is that of the last failing rule. */
  method ValidateField(f: Field) returns (isValid: bool, errorMessage: string)
    ensures isValid <==> FieldValid(f)
    ensures errorMessage == LastFailureMessage(f)
  {
    var value := Trim(f.value);
    ghost var applied: seq<Rule> := [];
    isValid, errorMessage := true, "";
    isValid, errorMessage := CheckRule(f, value, Required, isValid, errorMessage);
    RuleStep(applied, Required, FailsOf(f));
    applied := applied + [Required];
    isValid, errorMessage := CheckRule(f, value, Email, isValid, errorMessage);
    RuleStep(applied, Email, FailsOf(f));
    applied := applied + [Email];
    isValid, errorMessage := CheckRule(f, value, Phone, isValid, errorMessage);
    RuleStep(applied, Phone, FailsOf(f));
    applied := applied + [Phone];
    isValid, errorMessage := CheckRule(f, value, Postcode, isValid, errorMessage);
    RuleStep(applied, Postcode, FailsOf(f));
    applied := applied + [Postcode];
    isValid, errorMessage := CheckRule(f, value, Checkbox, isValid, errorMessage);
    RuleStep(applied, Checkbox, FailsOf(f));
    applied := applied + [Checkbox];
    assert applied == Rules;
  }

  predicate IsRequired(f: Field) {
    f.required
  }

  /** The required controls hold exactly the required fields. */
  lemma RequiredFieldsListed(fields: seq<Field>)
    ensures var req := Filter(fields, IsRequired);
      (forall j :: 0 <= j < |req| ==> FieldValid(req[j]))
      <==> (forall i :: 0 <= i < |fields| && fields[i].required ==> FieldValid(fields[i]))
  {
    var req := Filter(fields, IsRequired);
    if forall j :: 0 <= j < |req| ==> FieldValid(req[j]) {
      forall i | 0 <= i < |fields| && fields[i].required ensures FieldValid(fields[i]) {
        FilterKeepsMatches(fields, IsRequired, fields[i]);
        assert fields[i] in multiset(fields);
        assert fields[i] in req;
      }
    }
    if forall i :: 0 <= i < |fields| && fields[i].required ==> FieldValid(fields[i]) {
      forall j | 0 <= j < |req| ensures FieldValid(req[j]) {
        assert req[j] in multiset(fields);
      }
    }
  }

  /** After the first `i` required controls: one message per control, and
      `isValid` tells whether all of them passed. */
  predicate Reported(req: seq<Field>, i: int, isValid: bool, messages: seq<string>)
    requires 0 <= i <= |req|
  {
    && |messages| == i
    && (forall j :: 0 <= j < i ==> messages[j] == LastFailureMessage(req[j]))
    && (isValid <==> forall j :: 0 <= j < i ==> FieldValid(req[j]))
  }

  lemma ReportedStep(req: seq<Field>, i: int, isValid: bool, messages: seq<string>, ok: bool, message: string)
    requires 0 <= i < |req| && Reported(req, i, isValid, messages)
    requires (ok <==> FieldValid(req[i])) && message == LastFailureMessage(req[i])
    ensures Reported(req, i + 1, isValid && ok, messages + [message])
  {
  }

  /** `validateForm()`: validates every required control, without stopping at
      the first failure, and reports whether all passed; `messages` are the
      messages shown, one per required control. */
  method ValidateForm(fields: seq<Field>) returns (isValid: bool, messages: seq<string>)
    ensures isValid <==> forall i :: 0 <= i < |fields| && fields[i].required ==> FieldValid(fields[i])
    ensures var req := Filter(fields, IsRequired);
      |messages| == |req| && forall j :: 0 <= j < |req| ==> messages[j] == LastFailureMessage(req[j])
  {
    var req := Filter(fields, IsRequired);
    isValid := true;
    messages := [];
    var i := 0;
    while i < |req|
      invariant 0 <= i <= |req|
      invariant Reported(req, i, isValid, messages)
    {
      var ok, message := ValidateField(req[i]);
      ReportedStep(req, i, isValid, messages, ok, message);
      isValid := isValid && ok;
      messages := messages + [message];
      i := i + 1;
    }
    RequiredFieldsListed(fields);
  }

  /** What the checklist under the visa selector shows. */
  datatype Checklist = SelectHint | NoRequirementsHint | Items(docs: seq<string>)

  /** `updateEvidenceChecklist(visaType)`. */
  function EvidenceChecklist(visaType: string): (c: Checklist)
    ensures c.SelectHint? <==> visaType == ""
    ensures c.Items? <==> visaType in Catalog.Routes
    ensures c.Items? ==> c.docs == Catalog.VisaTypes[visaType] && c.docs != []
  {
    if visaType == "" then SelectHint
    else match Catalog.RequiredDocuments(visaType)
      case None => NoRequirementsHint
      case Some(docs) => Items(docs)
  }

  /** `data.visaType`, read as a property key (`undefined` becomes the key "undefined"). */
  function VisaTypeOf(data: Deadlines.Form): string {
    if "visaType" in data then data["visaType"] else "undefined"
  }

  /** The stores of a valid `handleSubmit()`: the form data, then the
      deadlines, then the checklist of the chosen route. */
  method SaveSubmission(data: Deadlines.Form, store: Storage.StorageManager,
                        deadlines: Deadlines.DeadlineManager, documents: Documents.DocumentManager,
                        today: int, formatDate: string -> string)
    requires deadlines.store == store && documents.store == store && deadlines.Valid()
    modifies store, deadlines, documents
    ensures deadlines.deadlines == Deadlines.FieldDeadlines(data, deadlines.fields, old(deadlines.nextId))
    ensures Storage.DeadlinesKey in store.memory && Storage.ClientDataKey in store.memory
    ensures store.memory[Storage.DeadlinesKey] == Records.EncodeDeadlines(deadlines.deadlines)
    ensures documents.requiredDocs == Catalog.RequiredDocuments(VisaTypeOf(data)).GetOr(old(documents.requiredDocs))
    ensures store.memory[Storage.ClientDataKey]
            == if Catalog.RequiredDocuments(VisaTypeOf(data)).Some?
               then Documents.WithRequiredDocs(Json.FromStrings(data), documents.requiredDocs)
               else Json.FromStrings(data)
    ensures store.memory - {Storage.ClientDataKey, Storage.DeadlinesKey}
            == old(store.memory) - {Storage.ClientDataKey, Storage.DeadlinesKey}
    ensures deadlines.Valid()
  {
    ghost var m0 := store.memory;
    var _ := store.SaveClientData(Json.FromStrings(data));
    ghost var m1 := store.memory;
    Storage.SaveKeepsOthers(m0, Storage.ClientDataKey, Json.FromStrings(data));
    var _, _ := deadlines.UpdateFromForm(data, today, formatDate);
    ghost var m2 := store.memory;
    Storage.SaveKeepsOthers(m1, Storage.DeadlinesKey, m2[Storage.DeadlinesKey]);
    assert Storage.LoadFrom(m2, Storage.ClientDataKey) == Json.FromStrings(data);
    documents.UpdateRequiredDocuments(VisaTypeOf(data));
    if Catalog.RequiredDocuments(VisaTypeOf(data)).Some? {
      Storage.SaveKeepsOthers(m2, Storage.ClientDataKey, store.memory[Storage.ClientDataKey]);
    }
  }

  /** `handleSubmit()`: an invalid form stops before anything is stored; a
      valid one is stored as `SaveSubmission` says. */
  method HandleSubmit(fields: seq<Field>, data: Deadlines.Form, store: Storage.StorageManager,
                      deadlines: Deadlines.DeadlineManager, documents: Documents.DocumentManager,
                      today: int, formatDate: string -> string)
    returns (saved: bool)
    requires deadlines.store == store && documents.store == store && deadlines.Valid()
    modifies store, deadlines, documents
    ensures saved <==> forall i :: 0 <= i < |fields| && fields[i].required ==> FieldValid(fields[i])
    ensures !saved ==> store.memory == old(store.memory) && unchanged(deadlines) && unchanged(documents)
    ensures saved ==>
      && deadlines.deadlines == Deadlines.FieldDeadlines(data, deadlines.fields, old(deadlines.nextId))
      && Storage.DeadlinesKey in store.memory
      && store.memory[Storage.DeadlinesKey] == Records.EncodeDeadlines(deadlines.deadlines)
      && documents.requiredDocs == Catalog.RequiredDocuments(VisaTypeOf(data)).GetOr(old(documents.requiredDocs))
      && Storage.ClientDataKey in store.memory
      && store.memory[Storage.ClientDataKey]
         == (if Catalog.RequiredDocuments(VisaTypeOf(data)).Some?
             then Documents.WithRequiredDocs(Json.FromStrings(data), documents.requiredDocs)
             else Json.FromStrings(data))
      && store.memory - {Storage.ClientDataKey, Storage.DeadlinesKey}
         == old(store.memory) - {Storage.ClientDataKey, Storage.DeadlinesKey}
  {
    var ok, _ := ValidateForm(fields);
    if !ok {
      return false;
    }
    SaveSubmission(data, store, deadlines, documents, today, formatDate);
    saved := true;
  }
}
