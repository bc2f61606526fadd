/** What the validators promise, proved about the definitions in Validators. */
module ValidatorProperties {
  import opened JsText
  import opened Validators

  // ---------------------------------------------------------------------
  // Customer name

  /** A name is accepted exactly when its trimmed value has at least two code
      units, all ASCII letters or whitespace; it then starts and ends with a
      letter. */
  lemma CustomerNameAccepted(s: JsString)
    ensures ValidateCustomerName(s) == "" <==>
      |Trim(s)| >= 2 && forall i :: 0 <= i < |Trim(s)| ==> IsAsciiLetter(Trim(s)[i]) || IsWs(Trim(s)[i])
    ensures ValidateCustomerName(s) == "" ==>
      IsAsciiLetter(Trim(s)[0]) && IsAsciiLetter(Trim(s)[|Trim(s)| - 1])
  {
  }

  /** A single non-blank code unit, letter or not, is too short. */
  lemma CustomerNameOneUnit(s: JsString)
    requires |Trim(s)| == 1
    ensures ValidateCustomerName(s) == NameTooShort
  {
  }

  /** Which rejection a non-blank name gets: the length rule is checked
      before the character rule, so "too short" means exactly one code unit
      and "letters and spaces" means two or more with a bad one among them. */
  lemma CustomerNameRejected(s: JsString)
    ensures ValidateCustomerName(s) == NameTooShort <==> |Trim(s)| == 1
    ensures ValidateCustomerName(s) == NameNotLetters <==> |Trim(s)| >= 2 && !NameShape(Trim(s))
  {
  }

  // ---------------------------------------------------------------------
  // City and feedback: emptiness, then length only

  lemma CityAccepted(s: JsString)
    ensures ValidateCity(s) == "" <==> |Trim(s)| >= 2
    ensures ValidateCity(s) == CityTooShort <==> |Trim(s)| == 1
  {
  }

  lemma FeedbackAccepted(s: JsString)
    ensures ValidateFeedback(s) == "" <==> |Trim(s)| >= 10
    ensures ValidateFeedback(s) == FeedbackTooShort <==> 1 <= |Trim(s)| <= 9
  {
  }

  // ---------------------------------------------------------------------
  // Contact number

  function CountDigits(s: JsString): (n: nat)
    ensures n <= |s|
  {
    if s == [] then 0 else (if IsDigit(s[0]) then 1 else 0) + CountDigits(s[1..])
  }

  function CountDots(s: JsString): (n: nat)
    ensures n <= |s|
  {
    if s == [] then 0 else (if s[0] == DOT then 1 else 0) + CountDots(s[1..])
  }

  /** Counting from position k: one code unit, then the rest. */
  lemma CountStep(s: JsString, k: nat)
    requires k < |s|
    ensures CountDigits(s[k..]) == (if IsDigit(s[k]) then 1 else 0) + CountDigits(s[k + 1..])
    ensures CountDots(s[k..]) == (if s[k] == DOT then 1 else 0) + CountDots(s[k + 1..])
  {
    assert s[k..][1..] == s[k + 1..];
  }

  /** The code units the phone pattern can match at all. */
  predicate IsPhoneChar(c: CodeUnit) {
    IsDigit(c) || IsSeparator(c) || c == PLUS || c == LPAREN || c == RPAREN
  }

  /** The suffix t[i..] is at most maxLen long, has at least minDigits digits
      and at most maxDots dots, and holds only phone characters. */
  ghost predicate Tail(t: JsString, i: nat, maxLen: nat, minDigits: nat, maxDots: nat) {
    && i <= |t| && |t| - i <= maxLen
    && CountDigits(t[i..]) >= minDigits && CountDots(t[i..]) <= maxDots
    && forall k :: i <= k < |t| ==> IsPhoneChar(t[k])
  }

  /** One non-digit code unit in front of a tail. */
  lemma TailStep(t: JsString, i: nat, len: nat, digits: nat, dots: nat)
    requires i < |t| && IsPhoneChar(t[i]) && !IsDigit(t[i])
    requires Tail(t, i + 1, len, digits, dots)
    ensures Tail(t, i, len + 1, digits, if t[i] == DOT then dots + 1 else dots)
  {
    assert t[i..][1..] == t[i + 1..];
  }

  /** A run of k digits in front of a tail. */
  lemma {:induction false} TailRun(t: JsString, i: nat, k: nat, len: nat, digits: nat, dots: nat)
    requires DigitRun(t, i, k)
    requires Tail(t, i + k, len, digits, dots)
    ensures Tail(t, i, len + k, digits + k, dots)
    decreases k
  {
    if k > 0 {
      TailRun(t, i + 1, k - 1, len, digits, dots);
      assert t[i..][1..] == t[i + 1..];
    }
  }

  lemma Group3Tail(t: JsString, i: nat)
    requires PhoneGroup3(t, i)
    ensures Tail(t, i, 9, 1, 0)
  {
    TailRun(t, i, |t| - i, 0, 0, 0);
  }

  lemma Sep2Tail(t: JsString, i: nat)
    requires PhoneSep2(t, i)
    ensures Tail(t, i, 10, 1, 1)
  {
    if i < |t| && IsSeparator(t[i]) && PhoneGroup3(t, i + 1) {
      Group3Tail(t, i + 1);
      TailStep(t, i, 9, 1, 0);
    } else {
      Group3Tail(t, i);
    }
  }

  lemma Close2Tail(t: JsString, i: nat)
    requires PhoneClose2(t, i)
    ensures Tail(t, i, 11, 1, 1)
  {
    if i < |t| && t[i] == RPAREN && PhoneSep2(t, i + 1) {
      Sep2Tail(t, i + 1);
      TailStep(t, i, 10, 1, 1);
    } else {
      Sep2Tail(t, i);
    }
  }

  lemma Group2Tail(t: JsString, i: nat)
    requires PhoneGroup2(t, i)
    ensures Tail(t, i, 15, 2, 1)
  {
    var k :| 1 <= k <= 4 && DigitRun(t, i, k) && PhoneClose2(t, i + k);
    Close2Tail(t, i + k);
    TailRun(t, i, k, 11, 1, 1);
  }

  lemma Open2Tail(t: JsString, i: nat)
    requires PhoneOpen2(t, i)
    ensures Tail(t, i, 16, 2, 1)
  {
    if i < |t| && t[i] == LPAREN && PhoneGroup2(t, i + 1) {
      Group2Tail(t, i + 1);
      TailStep(t, i, 15, 2, 1);
    } else {
      Group2Tail(t, i);
    }
  }

  lemma Sep1Tail(t: JsString, i: nat)
    requires PhoneSep1(t, i)
    ensures Tail(t, i, 17, 2, 2)
  {
    if i < |t| && IsSeparator(t[i]) && PhoneOpen2(t, i + 1) {
      Open2Tail(t, i + 1);
      TailStep(t, i, 16, 2, 1);
    } else {
      Open2Tail(t, i);
    }
  }

  lemma Close1Tail(t: JsString, i: nat)
    requires PhoneClose1(t, i)
    ensures Tail(t, i, 18, 2, 2)
  {
    if i < |t| && t[i] == RPAREN && PhoneSep1(t, i + 1) {
      Sep1Tail(t, i + 1);
      TailStep(t, i, 17, 2, 2);
    } else {
      Sep1Tail(t, i);
    }
  }

  lemma Group1Tail(t: JsString, i: nat)
    requires PhoneGroup1(t, i)
    ensures Tail(t, i, 22, 3, 2)
  {
    var k :| 1 <= k <= 4 && DigitRun(t, i, k) && PhoneClose1(t, i + k);
    Close1Tail(t, i + k);
    TailRun(t, i, k, 18, 2, 2);
  }

  lemma Open1Tail(t: JsString, i: nat)
    requires PhoneOpen1(t, i)
    ensures Tail(t, i, 23, 3, 2)
  {
    if i < |t| && t[i] == LPAREN && PhoneGroup1(t, i + 1) {
      Group1Tail(t, i + 1);
      TailStep(t, i, 22, 3, 2);
    } else {
      Group1Tail(t, i);
    }
  }

  /** What the phone pattern admits: at most 24 code units (1+1+4+1+1+1+4+1+1+9),
      at least three digits, at most two dots, and nothing but digits,
      separators, '+' and parentheses. */
  lemma PhoneShapeBounds(t: JsString)
    requires PhoneShape(t)
    ensures |t| <= 24 && CountDigits(t) >= 3 && CountDots(t) <= 2
    ensures forall k :: 0 <= k < |t| ==> IsPhoneChar(t[k])
  {
    if 0 < |t| && t[0] == PLUS && PhoneOpen1(t, 1) {
      Open1Tail(t, 1);
      TailStep(t, 0, 23, 3, 2);
    } else {
      Open1Tail(t, 0);
    }
    assert t[0..] == t;
  }

  /** On phone characters, stripping keeps exactly the digits and the dots. */
  lemma {:induction false} StripKeepsDigitsAndDots(s: JsString)
    requires forall k :: 0 <= k < |s| ==> IsPhoneChar(s[k])
    ensures |StripPhone(s)| == CountDigits(s) + CountDots(s)
  {
    if s != [] {
      StripKeepsDigitsAndDots(s[1..]);
    }
  }

  /** A contact number is accepted exactly when its trimmed value matches the
      pattern and has at least seven digits and dots together. Dots count, so
      an accepted number can have as few as five digits (at most two dots fit
      the pattern), and it is between 7 and 24 code units long. */
  lemma ContactNumberAccepted(s: JsString)
    ensures ValidateContactNumber(s) == "" <==>
      PhoneShape(Trim(s)) && CountDigits(Trim(s)) + CountDots(Trim(s)) >= 7
    ensures ValidateContactNumber(s) == "" ==>
      7 <= |Trim(s)| <= 24 && CountDigits(Trim(s)) >= 5
  {
    var t := Trim(s);
    if PhoneShape(t) {
      PhoneShapeBounds(t);
      StripKeepsDigitsAndDots(t);
    }
  }

  /** Which rejection a non-blank contact number gets: the pattern is checked
      before the count, so "valid contact number" means the trimmed value does
      not match, and "at least 7 digits" means it matches but has fewer than
      seven digits and dots together. */
  lemma ContactNumberRejected(s: JsString)
    ensures ValidateContactNumber(s) == ContactInvalid <==> !AllWs(s) && !PhoneShape(Trim(s))
    ensures ValidateContactNumber(s) == ContactTooShort <==>
      PhoneShape(Trim(s)) && CountDigits(Trim(s)) + CountDots(Trim(s)) < 7
  {
    var t := Trim(s);
    if PhoneShape(t) {
      PhoneShapeBounds(t);
      StripKeepsDigitsAndDots(t);
    }
  }

  // ---------------------------------------------------------------------
  // Email

  /** The email pattern, stated without the regular expression: no whitespace,
      exactly one '@', not in first position, and a '.' after it with at least
      one code unit on either side. */
  lemma EmailShapeIff(t: JsString)
    ensures EmailShape(t) <==>
      && (forall k :: 0 <= k < |t| ==> !IsWs(t[k]))
      && exists a, p :: 0 < a && a + 1 < p < |t| - 1 && t[a] == AT && t[p] == DOT
                        && forall k :: 0 <= k < |t| && t[k] == AT ==> k == a
  {
    if EmailShape(t) {
      var a :| 1 <= a < |t| && EmailRun(t, 0, a) && t[a] == AT && EmailDomain(t, a + 1);
      var p :| a + 1 < p < |t| && EmailRun(t, a + 1, p) && t[p] == DOT && EmailTld(t, p + 1);
      forall k | 0 <= k < |t| ensures !IsWs(t[k]) && (t[k] == AT ==> k == a) {
        if k < a { assert EmailRun(t, 0, a); }
        else if a < k < p { assert EmailRun(t, a + 1, p); }
        else if p < k { assert EmailRun(t, p + 1, |t|); }
      }
    }
    if (forall k :: 0 <= k < |t| ==> !IsWs(t[k]))
      && exists a, p :: 0 < a && a + 1 < p < |t| - 1 && t[a] == AT && t[p] == DOT
                        && forall k :: 0 <= k < |t| && t[k] == AT ==> k == a
    {
      var a, p :| 0 < a && a + 1 < p < |t| - 1 && t[a] == AT && t[p] == DOT
                  && forall k :: 0 <= k < |t| && t[k] == AT ==> k == a;
      assert EmailTld(t, p + 1);
      assert EmailRun(t, a + 1, p);
      assert EmailDomain(t, a + 1);
      assert EmailRun(t, 0, a);
    }
  }

  lemma EmailAccepted(s: JsString)
    ensures ValidateEmail(s) == "" <==> EmailShape(Trim(s))
    ensures ValidateEmail(s) == "" ==> forall k :: 0 <= k < |Trim(s)| ==> !IsWs(Trim(s)[k])
  {
    EmailShapeIff(Trim(s));
  }
}
