// Concrete suffixes and SKUs with the answer the rule gives for each
// (merchant codes "AA", "BR" and "LP", limit 50).  The test suite draws its
// suffixes at random from fixed alphabets; the literals here stand in for
// such draws.
module SkuExamples {
  import opened SuffixGrammar
  import opened SkuValidator
  import opened SkuProperties

  /** Suffixes the grammar rejects: empty, `_` and `=` (although the error
      message lists `=` among the allowed characters), a leading special
      character, space, dot or hyphen, a trailing hyphen, space or dot, a
      doubled hyphen, dot or space, and a character outside the class. */
  lemma RejectedSuffixes()
    ensures !Matches("") && !Matches("_") && !Matches("=")
    ensures !Matches("(a") && !Matches(" ab") && !Matches(".ab") && !Matches("-abc")
    ensures !Matches("abc-") && !Matches("ab ") && !Matches("abc.")
    ensures !Matches("ab--cd") && !Matches("ab..cd") && !Matches("ab  cd")
    ensures !Matches("a#b") && !Matches("a_b")
  {
    LeadingRejected("");
    LeadingRejected("_");
    LeadingRejected("=");
    LeadingRejected("(a");
    LeadingRejected(" ab");
    LeadingRejected(".ab");
    LeadingRejected("-abc");
    TrailingRejected("abc-");
    TrailingRejected("ab ");
    TrailingRejected("abc.");
    DoubledRejected("ab--cd", 2);
    DoubledRejected("ab..cd", 2);
    DoubledRejected("ab  cd", 2);
    ForbiddenCharRejected("a#b", 1);
    ForbiddenCharRejected("a_b", 1);
  }

  /** Suffixes with a single hyphen or a single dot inside are accepted:
      the shapes of `correct-sku` (Tests/SkuTest.php:32-36) and of the
      letter-dot-letter suffix of testFourthCorrectSkuFulfillment
      (Tests/SkuTest.php:119). */
  lemma AcceptedSuffixes()
    ensures Matches("abc-def") && Matches("abc.def")
  {
  }

  /** Single spaces inside, and letters and digits alone, are accepted
      (testCorrectSkuWithSpace, testCorrectSkuWithMultipleSpaces and
      testCorrectSku). */
  lemma AcceptedSpacesAndAlnum()
    ensures Matches("a b c") && Matches("ABC123")
  {
  }

  /** The allowed special characters are accepted after the first position
      (testCorrectSkuWithAllowedSpecialCharacters). */
  lemma AcceptedSpecialCharacters()
    ensures Matches("a( b") && Matches("x<y>/z*")
  {
  }

  /** `correct-sku`, the suffix of `AA_correct-sku` (Tests/SkuTest.php:32-36)
      and of `AA_F01_correct-sku` (Tests/SkuTest.php:51-55). */
  lemma CorrectSkuSuffix()
    ensures Matches("correct-sku")
  {
  }

  /** The suffixes of the fulfillment SKUs below, and `ok` before a line
      feed, which the `$` of the pattern admits. */
  lemma FulfillmentSuffixes()
    ensures Matches("F12a.b") && Matches("x-y") && Matches("ok\n")
  {
  }

  /** `AA_correct-sku` (testCorrectSku, Tests/SkuTest.php:32-36) passes as a
      standard SKU whose suffix is `correct-sku`. */
  lemma CorrectStandardSku()
    ensures Validate("AA_correct-sku", "AA", 50, false) == Ok(Classification(Standard, "correct-sku"))
  {
    CorrectSkuSuffix();
    assert "AA_correct-sku" == "AA" + "_" + "correct-sku";
    AcceptedSuffixValidates("AA", "correct-sku", 50, false);
  }

  /** The same suffix behind one fulfillment stage, as `AA_F01_correct-sku`
      in testCorrectSkuFulfillment (Tests/SkuTest.php:51-55), passes as a
      fulfillment SKU. */
  lemma CorrectFulfillmentSku()
    ensures Validate("AA_F12_correct-sku", "AA", 50, true) == Ok(Classification(Fulfillment, "correct-sku"))
  {
    CorrectSkuSuffix();
    AcceptedHasNoUnderscore("correct-sku");
    assert "AA_F12_correct-sku" == "AA" + "_" + "F12" + "_" + "correct-sku";
    FulfillmentChecksLastPart("AA", "F12", "correct-sku", 50);
  }

  /** Rejections: a foreign prefix (testWrongSkuPrefix, whose random prefix
      `BB_` stands in for), a doubled hyphen (`AA_wrong--sku` in
      testWrongSkuSuffixSequentialHyphen), a SKU over the limit
      (testWrongSkuExceedLengthLimit), and the bare prefix `AA_`. */
  lemma WrongSkus(isFulfillSku: bool)
    ensures Validate("BB_sku", "AA", 50, isFulfillSku) == Err(BadPrefix("AA_"))
    ensures Validate("AA_wrong--sku", "AA", 50, false) == Err(BadSuffix("wrong--sku"))
    ensures Validate("AA_" + seq(60, _ => 'x'), "AA", 50, isFulfillSku) == Err(TooLong(50))
    ensures Validate("AA_", "AA", 50, isFulfillSku) == Err(BadPrefix("AA_"))
  {
    assert "AA" + "_" == "AA_";
    assert "BB_sku"[0] != "AA_"[0];
    PrefixGate("BB_sku", "AA", 50, isFulfillSku);
    PrefixGate("AA_", "AA", 50, isFulfillSku);
    DoubledRejected("wrong--sku", 5);
    assert "AA_wrong--sku" == "AA" + "_" + "wrong--sku";
    StandardChecksRest("AA", "wrong--sku", 50);
    LengthGate("AA_" + seq(60, _ => 'x'), "AA", 50, isFulfillSku);
  }

  /** A fulfillment SKU with a single underscore: the classifier's answer
      changes only the reported kind. */
  lemma SingleUnderscoreSku(isFulfillSku: bool)
    ensures Validate("BR_F12a.b", "BR", 50, isFulfillSku) == Ok(Classification(KindOf(isFulfillSku), "F12a.b"))
  {
    FulfillmentSuffixes();
    assert "BR_F12a.b" == "BR" + "_" + "F12a.b";
    AcceptedSuffixValidates("BR", "F12a.b", 50, isFulfillSku);
  }

  /** Two stages, `F<n>_F<m>`, before the suffix: only the last part counts. */
  lemma TwoStageSku()
    ensures Validate("AA_F1_F2_x-y", "AA", 50, true) == Ok(Classification(Fulfillment, "x-y"))
  {
    FulfillmentSuffixes();
    AcceptedHasNoUnderscore("x-y");
    assert "AA_F1_F2_x-y" == "AA" + "_" + "F1_F2" + "_" + "x-y";
    FulfillmentChecksLastPart("AA", "F1_F2", "x-y", 50);
  }

  /** A stage and the merchant code again, `F<n>_LP`, before the suffix. */
  lemma StageAndCodeSku()
    ensures Validate("LP_F1_LP_x-y", "LP", 50, true) == Ok(Classification(Fulfillment, "x-y"))
  {
    FulfillmentSuffixes();
    AcceptedHasNoUnderscore("x-y");
    assert "LP_F1_LP_x-y" == "LP" + "_" + "F1_LP" + "_" + "x-y";
    FulfillmentChecksLastPart("LP", "F1_LP", "x-y", 50);
  }

  /** A SKU whose suffix is followed by one line feed passes, line feed
      included in the reported suffix. */
  lemma TrailingLineFeedSku()
    ensures Validate("AA_ok\n", "AA", 50, false) == Ok(Classification(Standard, "ok\n"))
  {
    FulfillmentSuffixes();
    assert "AA_ok\n" == "AA" + "_" + "ok\n";
    AcceptedSuffixValidates("AA", "ok\n", 50, false);
  }
}
