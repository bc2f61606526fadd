/** The five field validators of the feedback form. Each trims its input,
    checks its rules in order and returns "" when the value is valid or the
    message of the first rule that fails. The three regular expressions are
    written out element by element: an optional element is a disjunction
    (take it or skip it) and a bounded repetition is a bounded `exists` over
    its length, so backtracking is the choice of a witness. */
module Validators {
  import opened JsText

  // Code units the patterns mention.
  const PLUS: CodeUnit := 0x2B    // '+'
  const LPAREN: CodeUnit := 0x28  // '('
  const RPAREN: CodeUnit := 0x29  // ')'
  const DASH: CodeUnit := 0x2D    // '-'
  const DOT: CodeUnit := 0x2E     // '.'
  const AT: CodeUnit := 0x40      // '@'

  predicate IsDigit(c: CodeUnit) { 0x30 <= c <= 0x39 }

  predicate IsAsciiLetter(c: CodeUnit) { 0x41 <= c <= 0x5A || 0x61 <= c <= 0x7A }

  // ---------------------------------------------------------------------
  // Messages (user-visible, part of the contract)

  const NameRequired := "Customer name is required"
  const NameTooShort := "Customer name must be at least 2 characters"
  const NameNotLetters := "Customer name should only contain letters and spaces"
  const CityRequired := "City is required"
  const CityTooShort := "City must be at least 2 characters"
  const ContactRequired := "Contact number is required"
  const ContactInvalid := "Please enter a valid contact number"
  const ContactTooShort := "Contact number must be at least 7 digits"
  const EmailRequired := "Email is required"
  const EmailInvalid := "Please enter a valid email address"
  const FeedbackRequired := "Feedback/Complaint is required"
  const FeedbackTooShort := "Feedback must be at least 10 characters"

  // ---------------------------------------------------------------------
  // /^[a-zA-Z\s]+$/

  predicate NameShape(t: JsString) {
    |t| >= 1 && forall i :: 0 <= i < |t| ==> IsAsciiLetter(t[i]) || IsWs(t[i])
  }

  // ---------------------------------------------------------------------
  // /^[\+]?[(]?[0-9]{1,4}[)]?[-\s\.]?[(]?[0-9]{1,4}[)]?[-\s\.]?[0-9]{1,9}$/
  // One predicate per element; each says "the rest of the pattern matches
  // t from position i to the end".

  predicate IsSeparator(c: CodeUnit) { c == DASH || IsWs(c) || c == DOT }

  /** t[i..i+k] is k digits. */
  predicate DigitRun(t: JsString, i: nat, k: nat) {
    i + k <= |t| && forall j :: i <= j < i + k ==> IsDigit(t[j])
  }

  predicate PhoneShape(t: JsString) { PhonePlus(t, 0) }

  // [\+]?
  predicate PhonePlus(t: JsString, i: nat) {
    (i < |t| && t[i] == PLUS && PhoneOpen1(t, i + 1)) || PhoneOpen1(t, i)
  }
  // [(]?
  predicate PhoneOpen1(t: JsString, i: nat) {
    (i < |t| && t[i] == LPAREN && PhoneGroup1(t, i + 1)) || PhoneGroup1(t, i)
  }
  // [0-9]{1,4}
  predicate PhoneGroup1(t: JsString, i: nat) {
    exists k :: 1 <= k <= 4 && DigitRun(t, i, k) && PhoneClose1(t, i + k)
  }
  // [)]?
  predicate PhoneClose1(t: JsString, i: nat) {
    (i < |t| && t[i] == RPAREN && PhoneSep1(t, i + 1)) || PhoneSep1(t, i)
  }
  // [-\s\.]?
  predicate PhoneSep1(t: JsString, i: nat) {
    (i < |t| && IsSeparator(t[i]) && PhoneOpen2(t, i + 1)) || PhoneOpen2(t, i)
  }
  // [(]?
  predicate PhoneOpen2(t: JsString, i: nat) {
    (i < |t| && t[i] == LPAREN && PhoneGroup2(t, i + 1)) || PhoneGroup2(t, i)
  }
  // [0-9]{1,4}
  predicate PhoneGroup2(t: JsString, i: nat) {
    exists k :: 1 <= k <= 4 && DigitRun(t, i, k) && PhoneClose2(t, i + k)
  }
  // [)]?
  predicate PhoneClose2(t: JsString, i: nat) {
    (i < |t| && t[i] == RPAREN && PhoneSep2(t, i + 1)) || PhoneSep2(t, i)
  }
  // [-\s\.]?
  predicate PhoneSep2(t: JsString, i: nat) {
    (i < |t| && IsSeparator(t[i]) && PhoneGroup3(t, i + 1)) || PhoneGroup3(t, i)
  }
  // [0-9]{1,9}$
  predicate PhoneGroup3(t: JsString, i: nat) {
    i < |t| && |t| - i <= 9 && DigitRun(t, i, |t| - i)
  }

  /** The class /[\s\-\(\)\+]/ that the digit-count rule deletes; '.' is not in it. */
  predicate IsStripped(c: CodeUnit) {
    IsWs(c) || c == DASH || c == LPAREN || c == RPAREN || c == PLUS
  }

  /** `t.replace(/[\s\-\(\)\+]/g, "")` */
  function StripPhone(t: JsString): (r: JsString)
    ensures |r| <= |t|
    ensures forall i :: 0 <= i < |r| ==> !IsStripped(r[i]) && r[i] in t
  {
    if t == [] then []
    else (if IsStripped(t[0]) then [] else [t[0]]) + StripPhone(t[1..])
  }

  /** Stripping deletes every code unit of the class and keeps every other
      one, as often as it occurs in t. */
  lemma {:induction false} StripPhoneKeepsOthers(t: JsString)
    ensures forall c :: multiset(StripPhone(t))[c] == if IsStripped(c) then 0 else multiset(t)[c]
  {
    if t != [] {
      StripPhoneKeepsOthers(t[1..]);
      assert t == [t[0]] + t[1..];
    }
  }

  // ---------------------------------------------------------------------
  // /^[^\s@]+@[^\s@]+\.[^\s@]+$/

  predicate IsEmailChar(c: CodeUnit) { !IsWs(c) && c != AT }

  /** t[i..j] is all [^\s@]. */
  predicate EmailRun(t: JsString, i: nat, j: nat) {
    i <= j <= |t| && forall k :: i <= k < j ==> IsEmailChar(t[k])
  }

  // ^[^\s@]+@
  predicate EmailShape(t: JsString) {
    exists a :: 1 <= a < |t| && EmailRun(t, 0, a) && t[a] == AT && EmailDomain(t, a + 1)
  }
  // [^\s@]+\.
  predicate EmailDomain(t: JsString, i: nat) {
    exists p :: i < p < |t| && EmailRun(t, i, p) && t[p] == DOT && EmailTld(t, p + 1)
  }
  // [^\s@]+$
  predicate EmailTld(t: JsString, i: nat) {
    i < |t| && EmailRun(t, i, |t|)
  }

  // ---------------------------------------------------------------------
  // The validators

  function ValidateCustomerName(name: JsString): (r: string)
    ensures r in {"", NameRequired, NameTooShort, NameNotLetters}
    ensures r == NameRequired <==> AllWs(name)
  {
    var t := Trim(name);
    if t == [] then NameRequired
    else if |t| < 2 then NameTooShort
    else if !NameShape(t) then NameNotLetters
    else ""
  }

  function ValidateCity(city: JsString): (r: string)
    ensures r in {"", CityRequired, CityTooShort}
    ensures r == CityRequired <==> AllWs(city)
  {
    var t := Trim(city);
    if t == [] then CityRequired
    else if |t| < 2 then CityTooShort
    else ""
  }

  function ValidateContactNumber(number: JsString): (r: string)
    ensures r in {"", ContactRequired, ContactInvalid, ContactTooShort}
    ensures r == ContactRequired <==> AllWs(number)
  {
    var t := Trim(number);
    if t == [] then ContactRequired
    else if !PhoneShape(t) then ContactInvalid
    else if |StripPhone(t)| < 7 then ContactTooShort
    else ""
  }

  function ValidateEmail(email: JsString): (r: string)
    ensures r in {"", EmailRequired, EmailInvalid}
    ensures r == EmailRequired <==> AllWs(email)
  {
    var t := Trim(email);
    if t == [] then EmailRequired
    else if !EmailShape(t) then EmailInvalid
    else ""
  }

  function ValidateFeedback(feedback: JsString): (r: string)
    ensures r in {"", FeedbackRequired, FeedbackTooShort}
    ensures r == FeedbackRequired <==> AllWs(feedback)
  {
    var t := Trim(feedback);
    if t == [] then FeedbackRequired
    else if |t| < 10 then FeedbackTooShort
    else ""
  }
}
