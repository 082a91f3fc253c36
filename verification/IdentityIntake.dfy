/**
 The "identity intake" interaction: a name, an email and a phone number, checked against the
 fields that were asked for and put into canonical form.
 */
module IdentityIntake {
  import opened Basics
  import opened Text

  datatype Field = Field(key: string, required: bool)
  datatype Values = Values(name: string, email: string, phone: string)
  datatype Problem = Required | BadEmail | BadPhone
  datatype FieldError = FieldError(field: string, problem: Problem)
  datatype Outcome = Accepted(values: Values) | Refused(errors: seq<FieldError>)

  function Get(values: Values, key: string): string {
    if key == "name" then values.name else if key == "email" then values.email else if key == "phone" then values.phone else ""
  }

  // ---------------------------------------------------------------- email

  /** The pieces of s between its dots. */
  function Split(s: string): (parts: seq<string>)
    ensures |parts| >= 1
  {
    if s == "" then [""]
    else
      var rest := Split(s[1..]);
      if s[0] == '.' then [""] + rest else [[s[0]] + rest[0]] + rest[1..]
  }

  /** Where the first '@' is, or the length. */
  function At(s: string): (i: nat)
    ensures i <= |s| && (i < |s| ==> s[i] == '@')
  {
    if s == "" || s[0] == '@' then 0 else 1 + At(s[1..])
  }

  predicate IsBlank(c: char) { c in {' ', '\t', '\r', '\n'} }

  predicate HasBlank(s: string) { exists i | 0 <= i < |s| :: IsBlank(s[i]) }

  predicate NonEmpty(parts: seq<string>) { forall i | 0 <= i < |parts| :: parts[i] != "" }

  /** What is used of lower-casing a character: doing it twice is doing it once, and it moves no dot, no '@' and no white space. */
  ghost predicate Folds(lower: char -> char) {
    forall c :: lower(lower(c)) == lower(c) && (lower(c) == '.' <==> c == '.') && (lower(c) == '@' <==> c == '@') &&
                (IsSpace(lower(c)) <==> IsSpace(c)) && (IsBlank(lower(c)) <==> IsBlank(c))
  }

  function LowerAll(lower: char -> char, s: string): string { seq(|s|, i requires 0 <= i < |s| => lower(s[i])) }

  lemma LowerAllTwice(lower: char -> char, s: string)
    requires Folds(lower)
    ensures LowerAll(lower, LowerAll(lower, s)) == LowerAll(lower, s)
  {}

  /** ASCII lower-casing is such a function. */
  lemma AsciiFolds()
    ensures Folds(LowerChar)
  {}

  /** The domain in lower case, if its dots leave no empty piece. */
  function NormalDomain(lower: char -> char, d: string): Option<string> {
    var parts := Split(LowerAll(lower, d));
    if |parts| < 2 || !NonEmpty(parts) then None else Some(LowerAll(lower, d))
  }

  function NormalAddress(lower: char -> char, s: string): Option<string> {
    var i := At(s);
    if HasBlank(s) || i == |s| || i == 0 || '@' in s[i + 1..] then None
    else
      var domain := NormalDomain(lower, s[i + 1..]);
      if domain.None? then None else Some(s[..i] + "@" + domain.value)
  }

  function NormalizeEmail(lower: char -> char, raw: string): Option<string> { NormalAddress(lower, Trim(raw)) }

  /** Has a dot, starts with none, and each is followed by something other than a dot. */
  predicate DomainShape(d: string) { '.' in d && d[0] != '.' && NoGap(d) }

  predicate NoGap(d: string) { forall i | 0 <= i < |d| && d[i] == '.' :: i + 1 < |d| && d[i + 1] != '.' }

  /** s is local@domain: one '@', something before it, a dotted domain after it, no blanks. */
  ghost predicate Parts(s: string, local: string, domain: string) {
    s == local + "@" + domain && local != "" && '@' !in local && '@' !in domain && DomainShape(domain) && !HasBlank(s)
  }

  ghost predicate EmailShape(s: string) { exists local, domain :: Parts(s, local, domain) }

  lemma NonEmptyCons(part: string, parts: seq<string>)
    ensures NonEmpty([part] + parts) <==> part != "" && NonEmpty(parts)
  {
    var all := [part] + parts;
    assert all[0] == part && forall i | 0 <= i < |parts| :: all[i + 1] == parts[i];
    if part != "" && NonEmpty(parts) {
      forall i | 0 <= i < |all| ensures all[i] != "" { if i > 0 { assert parts[i - 1] != ""; } }
    }
  }

  lemma {:induction false} SplitShape(s: string)
    ensures |Split(s)| >= 2 <==> '.' in s
    ensures Split(s)[0] != "" <==> s != "" && s[0] != '.'
    ensures NonEmpty(Split(s)[1..]) <==> NoGap(s)
  {
    if s != "" {
      var parts := Split(s[1..]);
      SplitShape(s[1..]);
      assert s == [s[0]] + s[1..];
      NoGapStep(s);
      if s[0] == '.' {
        assert Split(s)[1..] == parts;
        assert parts == [parts[0]] + parts[1..];
        NonEmptyCons(parts[0], parts[1..]);
      } else {
        assert Split(s)[1..] == parts[1..];
      }
    }
  }

  lemma NoGapStep(s: string)
    requires s != ""
    ensures NoGap(s) <==> NoGap(s[1..]) && (s[0] == '.' ==> |s| > 1 && s[1] != '.')
  {
    var rest := s[1..];
    assert forall i | 0 <= i < |rest| :: rest[i] == s[i + 1];
    if NoGap(rest) && (s[0] == '.' ==> |s| > 1 && s[1] != '.') {
      forall i | 0 <= i < |s| && s[i] == '.' ensures i + 1 < |s| && s[i + 1] != '.' {
        if i > 0 { assert rest[i - 1] == '.'; }
      }
    }
  }

  lemma SplitAllParts(s: string)
    ensures |Split(s)| >= 2 && NonEmpty(Split(s)) <==> DomainShape(s)
  {
    SplitShape(s);
    assert Split(s) == [Split(s)[0]] + Split(s)[1..];
    NonEmptyCons(Split(s)[0], Split(s)[1..]);
  }

  /** Lower case moves no dot, no '@' and no blank. */
  lemma LowerShape(lower: char -> char, d: string)
    requires Folds(lower)
    ensures DomainShape(LowerAll(lower, d)) <==> DomainShape(d)
    ensures '@' in LowerAll(lower, d) <==> '@' in d
    ensures HasBlank(LowerAll(lower, d)) <==> HasBlank(d)
  {
    var l := LowerAll(lower, d);
    assert forall i | 0 <= i < |d| :: (l[i] == '.' <==> d[i] == '.') && (l[i] == '@' <==> d[i] == '@') && (IsBlank(l[i]) <==> IsBlank(d[i]));
    if '.' in d { var i :| 0 <= i < |d| && d[i] == '.'; assert l[i] == '.'; }
    if '.' in l { var i :| 0 <= i < |l| && l[i] == '.'; assert d[i] == '.'; }
    if '@' in d { var i :| 0 <= i < |d| && d[i] == '@'; assert l[i] == '@'; }
  }

  lemma DomainExact(lower: char -> char, d: string)
    requires Folds(lower)
    ensures NormalDomain(lower, d) == if DomainShape(d) then Some(LowerAll(lower, d)) else None
  {
    LowerShape(lower, d);
    SplitAllParts(LowerAll(lower, d));
  }

  lemma {:induction false} FirstAt(s: string, i: nat)
    requires i < |s| && s[i] == '@' && '@' !in s[..i]
    ensures At(s) == i
  {
    if i > 0 {
      assert s[..i][0] == s[0] && s[..i][1..] == s[1..][..i - 1];
      FirstAt(s[1..], i - 1);
    }
  }

  lemma {:induction false} NoneBefore(s: string)
    ensures '@' !in s[..At(s)]
  {
    if s != "" && s[0] != '@' {
      NoneBefore(s[1..]);
      assert s[..At(s)] == [s[0]] + s[1..][..At(s[1..])];
    }
  }

  lemma Rejoin(s: string, i: nat)
    requires i < |s| && s[i] == '@'
    ensures s == s[..i] + "@" + s[i + 1..]
  {}

  lemma AddressHasParts(lower: char -> char, s: string)
    requires Folds(lower)
    requires NormalAddress(lower, s).Some?
    ensures Parts(s, s[..At(s)], s[At(s) + 1..])
  {
    var i := At(s);
    Rejoin(s, i);
    NoneBefore(s);
    DomainExact(lower, s[i + 1..]);
  }

  lemma AddressOfParts(lower: char -> char, s: string, local: string, domain: string)
    requires Folds(lower)
    requires Parts(s, local, domain)
    ensures NormalAddress(lower, s) == Some(local + "@" + LowerAll(lower, domain))
  {
    var i := |local|;
    assert s[..i] == local && s[i + 1..] == domain && s[i] == '@';
    FirstAt(s, i);
    DomainExact(lower, domain);
  }

  lemma AddressExact(lower: char -> char, s: string)
    requires Folds(lower)
    ensures NormalAddress(lower, s).Some? <==> EmailShape(s)
  {
    if NormalAddress(lower, s).Some? { AddressHasParts(lower, s); }
    if local, domain :| Parts(s, local, domain) { AddressOfParts(lower, s, local, domain); }
  }

  /** An address is accepted exactly when it has the shape; the local part is kept, the domain put in lower case. */
  lemma EmailExact(lower: char -> char, raw: string)
    requires Folds(lower)
    ensures NormalizeEmail(lower, raw).None? <==> !EmailShape(Trim(raw))
    ensures forall local, domain | Parts(Trim(raw), local, domain) :: NormalizeEmail(lower, raw) == Some(local + "@" + LowerAll(lower, domain))
  {
    AddressExact(lower, Trim(raw));
    forall local, domain | Parts(Trim(raw), local, domain) ensures NormalizeEmail(lower, raw) == Some(local + "@" + LowerAll(lower, domain)) {
      AddressOfParts(lower, Trim(raw), local, domain);
    }
  }

  lemma BlankParts(local: string, domain: string)
    ensures HasBlank(local + "@" + domain) <==> HasBlank(local) || HasBlank(domain)
  {
    var s, i := local + "@" + domain, |local|;
    assert forall k | 0 <= k < i :: s[k] == local[k];
    assert forall k | 0 <= k < |domain| :: s[i + 1 + k] == domain[k];
    if HasBlank(s) {
      var k :| 0 <= k < |s| && IsBlank(s[k]);
      if k > i { assert IsBlank(domain[k - i - 1]); }
    }
    if HasBlank(domain) {
      var k :| 0 <= k < |domain| && IsBlank(domain[k]);
      assert IsBlank(s[i + 1 + k]);
    }
  }

  lemma LowerParts(lower: char -> char, s: string, local: string, domain: string)
    requires Folds(lower)
    requires Parts(s, local, domain) && Trimmed(s)
    ensures Parts(local + "@" + LowerAll(lower, domain), local, LowerAll(lower, domain)) && Trimmed(local + "@" + LowerAll(lower, domain))
  {
    BlankParts(local, domain);
    BlankParts(local, LowerAll(lower, domain));
    LowerShape(lower, domain);
    var r := local + "@" + LowerAll(lower, domain);
    assert r[0] == s[0];
    assert r[|r| - 1] == lower(s[|s| - 1]);
  }

  /** A normalised address is its own normal form. */
  lemma AddressIsCanonical(lower: char -> char, s: string)
    requires Folds(lower)
    requires Trimmed(s) && NormalAddress(lower, s).Some?
    ensures var r := NormalAddress(lower, s).value; r != "" && Trimmed(r) && NormalAddress(lower, r) == Some(r)
  {
    AddressHasParts(lower, s);
    var local, domain := s[..At(s)], s[At(s) + 1..];
    AddressOfParts(lower, s, local, domain);
    LowerParts(lower, s, local, domain);
    AddressOfParts(lower, local + "@" + LowerAll(lower, domain), local, LowerAll(lower, domain));
    LowerAllTwice(lower, domain);
  }

  // ---------------------------------------------------------------- phone

  predicate IsDigit(c: char) { '0' <= c <= '9' }

  predicate AllDigits(s: string) { forall c | c in s :: IsDigit(c) }

  predicate Separator(c: char) { c in {' ', '-', '.', '(', ')'} }

  function Strip(s: string): string {
    if s == "" then ""
    else if Separator(s[|s| - 1]) then Strip(s[..|s| - 1])
    else Strip(s[..|s| - 1]) + [s[|s| - 1]]
  }

  /** Stripping goes character by character: separators go, everything else stays. */
  lemma {:induction false} StripExact(a: string, b: string, c: char)
    ensures Strip(a + b) == Strip(a) + Strip(b)
    ensures Strip([c]) == if c in " -.()" then "" else [c]
  {
    assert [c][..0] == "";
    if b == "" {
      assert a + b == a;
    } else {
      StripExact(a, b[..|b| - 1], c);
      assert (a + b)[..|a + b| - 1] == a + b[..|b| - 1];
    }
  }

  /** Section 6 of ITU-T E.164: a plus sign and 8 to 15 digits, the first not zero. */
  predicate E164(p: string) { 9 <= |p| <= 16 && p[0] == '+' && AllDigits(p[1..]) && p[1] != '0' }

  /** The same by character codes: every digit from 0 to 9 will do, but for a leading 0. */
  lemma E164Exactly(p: string)
    ensures E164(p) <==>
            && 9 <= |p| <= 16 && p[0] as int == 43 && 49 <= p[1] as int <= 57
            && forall i | 2 <= i < |p| :: 48 <= p[i] as int <= 57
  {
    if |p| >= 2 {
      assert forall c | c in p[1..] :: exists i :: 1 <= i < |p| && p[i] == c;
      assert forall i | 1 <= i < |p| :: p[i] in p[1..] by { forall i | 1 <= i < |p| ensures p[i] in p[1..] { assert p[1..][i - 1] == p[i]; } }
    }
  }

  /** How a number may be written once separators are gone: in full, or a North American one without its plus or its country code. */
  predicate Writes(t: string, p: string) {
    t == p || (|p| == 12 && p[1] == '1' && (t == p[1..] || t == p[2..]))
  }

  method NormalizePhone(raw: string) returns (r: Option<string>)
    ensures r.Some? ==> E164(r.value) && Writes(Strip(Trim(raw)), r.value)
    ensures r.None? ==> !exists p :: E164(p) && Writes(Strip(Trim(raw)), p)
    ensures r == PhoneOf(raw)
  {
    var trimmed := Trim(raw);
    var s := "";
    for i := 0 to |trimmed|
      invariant s == Strip(trimmed[..i])
    {
      assert trimmed[..i + 1][..i] == trimmed[..i];
      if !Separator(trimmed[i]) { s := s + [trimmed[i]]; }
    }
    assert trimmed[..|trimmed|] == trimmed;
    r := Numbered(s);
    NumberedExact(s);
  }

  /** The E.164 number that stripped text s stands for. */
  function Numbered(s: string): Option<string> {
    var plus := s != "" && s[0] == '+';
    var digits := if plus then s[1..] else s;
    if digits == "" || !AllDigits(digits) then None
    else if plus then (if 8 <= |digits| <= 15 && digits[0] != '0' then Some("+" + digits) else None)
    else if |digits| == 10 then Some("+1" + digits)
    else if |digits| == 11 && digits[0] == '1' then Some("+" + digits)
    else None
  }

  function PhoneOf(raw: string): Option<string> { Numbered(Strip(Trim(raw))) }

  /** A text is accepted exactly when it writes an E.164 number, and then comes out as that number. */
  lemma NumberedExact(s: string)
    ensures forall p :: Numbered(s) == Some(p) <==> E164(p) && Writes(s, p)
  {
    forall p ensures Numbered(s) == Some(p) <==> E164(p) && Writes(s, p) {
      if Numbered(s) == Some(p) { NumberedSound(s, p); }
      if E164(p) && Writes(s, p) { NumberedComplete(s, p); }
    }
  }

  lemma NumberedSound(s: string, p: string)
    requires Numbered(s) == Some(p)
    ensures E164(p) && Writes(s, p)
  {
    if s[0] == '+' {
      assert p == s;
    } else if |s| == 10 {
      assert p[2..] == s && p[1..] == "1" + s;
    } else {
      assert p[1..] == s;
    }
  }

  lemma NumberedComplete(s: string, p: string)
    requires E164(p) && Writes(s, p)
    ensures Numbered(s) == Some(p)
  {
    assert forall i | 1 <= i < |p| :: p[i] == p[1..][i - 1] && IsDigit(p[i]);
    if s == p {
      assert p == "+" + p[1..];
    } else if s == p[1..] {
      assert s[0] == p[1] && p == "+" + s;
    } else {
      assert AllDigits(s) && s[0] == p[2];
      assert p == "+1" + s;
    }
  }

  lemma {:induction false} StripClean(s: string)
    requires forall c | c in s :: !Separator(c)
    ensures Strip(s) == s
  {
    if s != "" {
      StripClean(s[..|s| - 1]);
      assert s == s[..|s| - 1] + [s[|s| - 1]];
    }
  }

  /** A number in E.164 form is its own normal form. */
  lemma PhoneIsCanonical(p: string)
    requires E164(p)
    ensures PhoneOf(p) == Some(p)
  {
    assert p[|p| - 1] in p[1..];
    assert forall c | c in p :: c == '+' || IsDigit(c) by {
      forall c | c in p ensures c == '+' || IsDigit(c) { assert p == [p[0]] + p[1..]; }
    }
    TrimCanonical(p);
    StripClean(p);
    NumberedExact(p);
  }

  // ---------------------------------------------------------------- the validator

  predicate Blank(s: string) { Trim(s) == "" }

  ghost predicate Reports(fields: seq<Field>, values: Values, e: FieldError) {
    match e.problem
    case Required => exists f | f in fields :: f.required && f.key == e.field && Blank(Get(values, f.key))
    case BadEmail => e.field == "email" && !Blank(values.email) && !EmailShape(Trim(values.email))
    case BadPhone => e.field == "phone" && !Blank(values.phone) && !exists p :: E164(p) && Writes(Strip(Trim(values.phone)), p)
  }

  predicate Accepts(lower: char -> char, fields: seq<Field>, values: Values) {
    && (forall f | f in fields && f.required :: !Blank(Get(values, f.key)))
    && (Blank(values.email) || NormalizeEmail(lower, Trim(values.email)).Some?)
    && (Blank(values.phone) || PhoneOf(Trim(values.phone)).Some?)
  }

  /** A required field is there when the value it names is not blank; no value goes by any other name. */
  lemma RequiredExactly(values: Values, key: string)
    ensures !Blank(Get(values, key)) <==>
            || (key == "name" && Trim(values.name) != "")
            || (key == "email" && Trim(values.email) != "")
            || (key == "phone" && Trim(values.phone) != "")
  {}

  function Canonical(lower: char -> char, fields: seq<Field>, values: Values): Values
    requires Accepts(lower, fields, values)
  {
    Values(Trim(values.name),
           if Blank(values.email) then "" else NormalizeEmail(lower, Trim(values.email)).value,
           if Blank(values.phone) then "" else PhoneOf(Trim(values.phone)).value)
  }

  lemma TrimTwice(s: string)
    ensures Trim(Trim(s)) == Trim(s)
  {
    TrimCanonical(s);
    TrimCanonical(Trim(s));
  }

  lemma EmailProblem(lower: char -> char, fields: seq<Field>, values: Values)
    requires Folds(lower)
    requires !Blank(values.email)
    ensures NormalizeEmail(lower, Trim(values.email)).None? <==> Reports(fields, values, FieldError("email", BadEmail))
  {
    TrimTwice(values.email);
    AddressExact(lower, Trim(values.email));
  }

  lemma PhoneProblem(fields: seq<Field>, values: Values)
    requires !Blank(values.phone)
    ensures PhoneOf(Trim(values.phone)).None? <==> Reports(fields, values, FieldError("phone", BadPhone))
  {
    TrimTwice(values.phone);
    NumberedExact(Strip(Trim(values.phone)));
    if PhoneOf(Trim(values.phone)).Some? {
      assert E164(PhoneOf(Trim(values.phone)).value) && Writes(Strip(Trim(values.phone)), PhoneOf(Trim(values.phone)).value);
    }
  }

  method RequiredErrors(fields: seq<Field>, values: Values) returns (errs: seq<FieldError>)
    ensures forall e :: e in errs <==> e.problem.Required? && Reports(fields, values, e)
  {
    errs := [];
    for i := 0 to |fields|
      invariant forall e :: e in errs <==> e.problem.Required? && exists k | 0 <= k < i :: fields[k].required && fields[k].key == e.field && Blank(Get(values, fields[k].key))
    {
      var f := fields[i];
      if f.required && Trim(Get(values, f.key)) == "" { errs := errs + [FieldError(f.key, Required)]; }
    }
  }

  method CheckEmail(lower: char -> char, raw: string) returns (ok: bool, email: string)
    ensures ok <==> Blank(raw) || NormalizeEmail(lower, Trim(raw)).Some?
    ensures ok ==> email == if Blank(raw) then "" else NormalizeEmail(lower, Trim(raw)).value
  {
    var trimmed := Trim(raw);
    if trimmed == "" { return true, ""; }
    var normalized := NormalizeEmail(lower, trimmed);
    if normalized.None? { return false, ""; }
    return true, normalized.value;
  }

  method CheckPhone(raw: string) returns (ok: bool, phone: string)
    ensures ok <==> Blank(raw) || PhoneOf(Trim(raw)).Some?
    ensures ok ==> phone == if Blank(raw) then "" else PhoneOf(Trim(raw)).value
  {
    var trimmed := Trim(raw);
    if trimmed == "" { return true, ""; }
    var normalized := NormalizePhone(trimmed);
    if normalized.None? { return false, ""; }
    return true, normalized.value;
  }

  /** Accepted exactly when nothing is wrong; otherwise every problem, and nothing else. */
  method ValidateIntake(lower: char -> char, fields: seq<Field>, values: Values) returns (r: Outcome)
    requires Folds(lower)
    ensures r.Accepted? <==> Accepts(lower, fields, values)
    ensures r.Accepted? ==> r.values == Canonical(lower, fields, values)
    ensures r.Refused? ==> r.errors != [] && forall e :: e in r.errors <==> Reports(fields, values, e)
  {
    var errs := RequiredErrors(fields, values);
    NoErrors(fields, values, errs);
    var emailOk, email := CheckEmail(lower, values.email);
    var phoneOk, phone := CheckPhone(values.phone);
    AllErrors(lower, fields, values, errs);
    if !emailOk { errs := errs + [FieldError("email", BadEmail)]; }
    if !phoneOk { errs := errs + [FieldError("phone", BadPhone)]; }
    if |errs| > 0 { return Refused(errs); }
    r := Accepted(Values(Trim(values.name), email, phone));
  }

  /** The errors are the missing fields, and a malformed email or phone. */
  lemma AllErrors(lower: char -> char, fields: seq<Field>, values: Values, missing: seq<FieldError>)
    requires Folds(lower)
    requires forall e :: e in missing <==> e.problem.Required? && Reports(fields, values, e)
    ensures forall e :: Reports(fields, values, e) <==>
                        || e in missing
                        || (e == FieldError("email", BadEmail) && !Blank(values.email) && NormalizeEmail(lower, Trim(values.email)).None?)
                        || (e == FieldError("phone", BadPhone) && !Blank(values.phone) && PhoneOf(Trim(values.phone)).None?)
  {
    if !Blank(values.email) { EmailProblem(lower, fields, values); }
    if !Blank(values.phone) { PhoneProblem(fields, values); }
    forall e: FieldError | e.problem.BadEmail? && Reports(fields, values, e) ensures e == FieldError("email", BadEmail) {}
    forall e: FieldError | e.problem.BadPhone? && Reports(fields, values, e) ensures e == FieldError("phone", BadPhone) {}
  }

  lemma NoErrors(fields: seq<Field>, values: Values, missing: seq<FieldError>)
    requires forall e :: e in missing <==> e.problem.Required? && Reports(fields, values, e)
    ensures missing == [] <==> forall f | f in fields && f.required :: !Blank(Get(values, f.key))
  {
    if f :| f in fields && f.required && Blank(Get(values, f.key)) {
      assert FieldError(f.key, Required) in missing;
    } else if missing != [] {
      assert missing[0] in missing;
    }
  }

  /** Each value is blank or its own normal form. */
  predicate InNormalForm(lower: char -> char, v: Values) {
    && Trim(v.name) == v.name
    && (if Blank(v.email) then v.email == "" else NormalizeEmail(lower, Trim(v.email)) == Some(v.email))
    && (if Blank(v.phone) then v.phone == "" else PhoneOf(Trim(v.phone)) == Some(v.phone))
  }

  predicate BlankAlike(v: Values, w: Values) {
    (Blank(v.name) <==> Blank(w.name)) && (Blank(v.email) <==> Blank(w.email)) && (Blank(v.phone) <==> Blank(w.phone))
  }

  lemma CanonicalIsNormal(lower: char -> char, fields: seq<Field>, values: Values)
    requires Folds(lower)
    requires Accepts(lower, fields, values)
    ensures InNormalForm(lower, Canonical(lower, fields, values)) && BlankAlike(Canonical(lower, fields, values), values)
  {
    TrimTwice(values.name);
    assert Blank("");
    if !Blank(values.email) { CanonicalEmail(lower, Trim(values.email)); }
    if !Blank(values.phone) { CanonicalPhone(Trim(values.phone)); }
  }

  lemma NormalIsAccepted(lower: char -> char, fields: seq<Field>, v: Values, w: Values)
    requires Folds(lower)
    requires Accepts(lower, fields, w) && BlankAlike(v, w) && InNormalForm(lower, v)
    ensures Accepts(lower, fields, v) && Canonical(lower, fields, v) == v
  {
    assert Blank("");
    forall f | f in fields && f.required ensures !Blank(Get(v, f.key)) { assert !Blank(Get(w, f.key)); }
  }

  /** An accepted result, submitted again, is accepted and comes out as it went in. */
  lemma AcceptedIsCanonical(lower: char -> char, fields: seq<Field>, values: Values)
    requires Folds(lower)
    requires Accepts(lower, fields, values)
    ensures Accepts(lower, fields, Canonical(lower, fields, values))
    ensures Canonical(lower, fields, Canonical(lower, fields, values)) == Canonical(lower, fields, values)
  {
    CanonicalIsNormal(lower, fields, values);
    NormalIsAccepted(lower, fields, Canonical(lower, fields, values), values);
  }

  /** An accepted phone number comes out in E.164 form. */
  lemma AcceptedPhone(lower: char -> char, fields: seq<Field>, values: Values)
    requires Folds(lower)
    requires Accepts(lower, fields, values) && !Blank(values.phone)
    ensures E164(Canonical(lower, fields, values).phone)
  {
    CanonicalPhone(Trim(values.phone));
  }

  lemma CanonicalEmail(lower: char -> char, s: string)
    requires Folds(lower)
    requires NormalizeEmail(lower, s).Some?
    ensures var e := NormalizeEmail(lower, s).value; !Blank(e) && Trim(e) == e && NormalizeEmail(lower, Trim(e)) == Some(e)
  {
    var e := NormalizeEmail(lower, s).value;
    TrimCanonical(s);
    AddressIsCanonical(lower, Trim(s));
    TrimCanonical(e);
  }

  lemma CanonicalPhone(s: string)
    requires PhoneOf(s).Some?
    ensures var p := PhoneOf(s).value; E164(p) && !Blank(p) && Trim(p) == p && PhoneOf(Trim(p)) == Some(p)
  {
    var p := PhoneOf(s).value;
    NumberedExact(Strip(Trim(s)));
    PhoneIsCanonical(p);
    assert p[|p| - 1] in p[1..];
    TrimCanonical(p);
  }
}
