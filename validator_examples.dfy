/** The boundary cases of the validators, on concrete inputs. Inputs are
    written as code units; each constant's comment gives the text. */
module ValidatorExamples {
  import opened JsText
  import opened Validators
  import opened ValidatorProperties

  const Jo: JsString := [0x4A, 0x6F]                                     // "Jo"
  const J: JsString := [0x4A]                                            // "J"
  const John123: JsString := [0x4A, 0x6F, 0x68, 0x6E, 0x31, 0x32, 0x33]  // "John123"

  /** "Jo" is accepted. */
  lemma CustomerNameTwoLetters()
    ensures ValidateCustomerName(Jo) == ""
  {
    TrimOfTrimmed(Jo);
  }

  /** " Jo\t" (a blank before, a tab after) is accepted too. */
  lemma CustomerNamePadded()
    ensures ValidateCustomerName([0x20] + Jo + [0x09]) == ""
  {
    TrimIgnoresPadding([0x20], Jo, [0x09]);
    CustomerNameTwoLetters();
  }

  /** "J" is too short. */
  lemma CustomerNameOneLetter()
    ensures ValidateCustomerName(J) == NameTooShort
  {
    TrimOfTrimmed(J);
  }

  /** "John123" is long enough but has digits. */
  lemma CustomerNameWithDigits()
    ensures ValidateCustomerName(John123) == NameNotLetters
  {
    TrimOfTrimmed(John123);
    assert !IsAsciiLetter(John123[4]) && !IsWs(John123[4]);
  }

  /** A blank and a line feed are no name at all. */
  lemma CustomerNameBlank()
    ensures ValidateCustomerName([0x20, 0x0A]) == NameRequired
  {
    assert AllWs([0x20, 0x0A]);
  }

  const Dashed: JsString := [0x31, 0x32, 0x33, 0x2D, 0x34, 0x35, 0x36, 0x37]  // "123-4567"
  const FiveDigits: JsString := [0x31, 0x32, 0x33, 0x34, 0x35]               // "12345"
  const Dotted: JsString := [0x31, 0x2E, 0x32, 0x2E, 0x33, 0x34, 0x35]       // "1.2.345"
  const Lettered: JsString := [0x61, 0x62, 0x63, 0x31, 0x32, 0x33, 0x34]     // "abc1234"

  /** "123-4567": three digits, a dash, then one digit and three digits. */
  lemma DashedShape()
    ensures PhoneShape(Dashed)
  {
    var t := Dashed;
    assert PhoneGroup3(t, 5) && PhoneClose2(t, 5);
    assert DigitRun(t, 4, 1) && PhoneGroup2(t, 4);
    assert DigitRun(t, 0, 3) && PhoneSep1(t, 3) && PhoneGroup1(t, 0);
  }

  /** "123-4567" is accepted. */
  lemma ContactNumberDashed()
    ensures ValidateContactNumber(Dashed) == ""
  {
    TrimOfTrimmed(Dashed);
    DashedShape();
    assert CountDigits(Dashed) == 7;
    ContactNumberAccepted(Dashed);
  }

  /** "12345": groups of one, one and three digits. */
  lemma FiveDigitsShape()
    ensures PhoneShape(FiveDigits)
  {
    var t := FiveDigits;
    assert PhoneGroup3(t, 2) && PhoneClose2(t, 2);
    assert DigitRun(t, 1, 1) && PhoneGroup2(t, 1);
    assert DigitRun(t, 0, 1) && PhoneGroup1(t, 0);
  }

  /** "12345" matches the pattern but is too short. */
  lemma ContactNumberFiveDigits()
    ensures ValidateContactNumber(FiveDigits) == ContactTooShort
  {
    TrimOfTrimmed(FiveDigits);
    FiveDigitsShape();
    assert CountDigits(FiveDigits) == 5 && CountDots(FiveDigits) == 0;
    ContactNumberAccepted(FiveDigits);
  }

  /** "1.2.345": one digit, a dot, one digit, a dot, three digits. */
  lemma DottedShape()
    ensures PhoneShape(Dotted)
  {
    var t := Dotted;
    assert PhoneGroup3(t, 4) && PhoneSep2(t, 3);
    assert DigitRun(t, 2, 1) && PhoneGroup2(t, 2);
    assert DigitRun(t, 0, 1) && PhoneSep1(t, 1) && PhoneGroup1(t, 0);
  }

  /** "1.2.345" has five digits and two dots. */
  lemma DottedCounts()
    ensures CountDigits(Dotted) == 5 && CountDots(Dotted) == 2
  {
    assert Dotted[7..] == [] && Dotted[0..] == Dotted;
    CountStep(Dotted, 6);
    CountStep(Dotted, 5);
    CountStep(Dotted, 4);
    CountStep(Dotted, 3);
    CountStep(Dotted, 2);
    CountStep(Dotted, 1);
    CountStep(Dotted, 0);
  }

  /** "1.2.345" is accepted although it has only five digits, because the
      count behind "at least 7 digits" keeps the dots. */
  lemma ContactNumberDotsCount()
    ensures ValidateContactNumber(Dotted) == ""
    ensures CountDigits(Dotted) == 5
  {
    TrimOfTrimmed(Dotted);
    DottedShape();
    DottedCounts();
    ContactNumberAccepted(Dotted);
  }

  /** "abc1234" does not match the pattern: a letter is not a phone character. */
  lemma ContactNumberLetters()
    ensures ValidateContactNumber(Lettered) == ContactInvalid
  {
    TrimOfTrimmed(Lettered);
    assert !IsPhoneChar(Lettered[0]);
    if PhoneShape(Lettered) {
      PhoneShapeBounds(Lettered);
      assert false;
    }
  }

  const ABC: JsString := [0x61, 0x40, 0x62, 0x2E, 0x63]  // "a@b.c"
  const AB: JsString := [0x61, 0x40, 0x62]               // "a@b"
  const ADotC: JsString := [0x61, 0x40, 0x2E, 0x63]      // "a@.c"

  /** "a@b.c" is accepted. */
  lemma EmailMinimal()
    ensures ValidateEmail(ABC) == ""
  {
    TrimOfTrimmed(ABC);
    assert EmailTld(ABC, 4) && EmailRun(ABC, 2, 3) && EmailDomain(ABC, 2);
    assert EmailRun(ABC, 0, 1);
  }

  /** "a@b" has no dot after the '@'. */
  lemma EmailNoDot()
    ensures ValidateEmail(AB) == EmailInvalid
  {
    TrimOfTrimmed(AB);
    EmailShapeIff(AB);
  }

  /** "a@.c" has nothing between the '@' and the dot. */
  lemma EmailEmptyDomain()
    ensures ValidateEmail(ADotC) == EmailInvalid
  {
    TrimOfTrimmed(ADotC);
    EmailShapeIff(ADotC);
  }
}
