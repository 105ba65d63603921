// What the validation rule guarantees, stated over all inputs, and the
// concrete cases the rule's test suite exercises.
module SkuProperties {
  import opened SuffixGrammar
  import opened SkuValidator

  /** The prefix check, written with `substr` as the source does, accepts
      exactly the SKUs of which `code + "_"` is a proper prefix; a SKU that
      passes it is strictly longer than the prefix. */
  lemma PrefixOkIsProperPrefix(sku: string, merchantCode: string)
    ensures PrefixOk(sku, merchantCode) <==> Prefix(merchantCode) < sku
    ensures PrefixOk(sku, merchantCode) ==> |sku| > |merchantCode| + 1
  {
  }

  /** Length gate: a SKU longer than the maximum is rejected for its length
      whatever its prefix, suffix or classification, and the length error is
      raised for no other SKU; in particular a SKU of exactly the maximum
      length passes the gate. */
  lemma LengthGate(sku: string, merchantCode: string, maxLength: int, isFulfillSku: bool)
    ensures |sku| > maxLength ==> Validate(sku, merchantCode, maxLength, isFulfillSku) == Err(TooLong(maxLength))
    ensures (Validate(sku, merchantCode, maxLength, isFulfillSku).Err?
             && Validate(sku, merchantCode, maxLength, isFulfillSku).error.TooLong?)
            <==> |sku| > maxLength
  {
  }

  /** Prefix check: once the length gate is passed, the prefix error is
      raised exactly when the SKU does not start with `code + "_"` or is
      that string itself, and it names the expected prefix. */
  lemma PrefixGate(sku: string, merchantCode: string, maxLength: int, isFulfillSku: bool)
    requires |sku| <= maxLength
    ensures Validate(sku, merchantCode, maxLength, isFulfillSku) == Err(BadPrefix(merchantCode + "_"))
            <==> !(merchantCode + "_" <= sku) || sku == merchantCode + "_"
    ensures (Validate(sku, merchantCode, maxLength, isFulfillSku).Err?
             && Validate(sku, merchantCode, maxLength, isFulfillSku).error.BadPrefix?)
            <==> !(merchantCode + "_" < sku)
  {
  }

  /** Standard cut: the suffix of `code + "_" + s` is `s`, the SKU with its
      first |code| + 1 characters dropped. */
  lemma StandardSuffixIsRest(merchantCode: string, s: string)
    ensures StandardSuffix(merchantCode + "_" + s, merchantCode) == s
  {
  }

  /** In the standard branch `Validate(code + "_" + s)` checks exactly `s`:
      an empty `s` is a prefix error, any other `s` is accepted precisely when
      the grammar accepts it, and a rejection names `s`. */
  lemma StandardChecksRest(merchantCode: string, s: string, maxLength: int)
    requires |merchantCode| + 1 + |s| <= maxLength
    ensures Validate(merchantCode + "_" + s, merchantCode, maxLength, false)
            == if s == [] then Err(BadPrefix(merchantCode + "_"))
               else if Matches(s) then Ok(Classification(Standard, s))
               else Err(BadSuffix(s))
  {
  }

  /** Fulfillment cut: on a SKU that passed the prefix check the suffix is a
      proper tail of the SKU, holds no underscore, and is preceded in the SKU
      by an underscore, which the prefix guarantees to exist. */
  lemma FulfillmentSuffixShape(sku: string, merchantCode: string)
    requires PrefixOk(sku, merchantCode)
    ensures var r := FulfillmentSuffix(sku);
            && |r| < |sku|
            && sku[|sku| - |r|..] == r
            && sku[|sku| - |r| - 1] == '_'
            && '_' !in r
  {
    PrefixOkIsProperPrefix(sku, merchantCode);
    assert sku[|merchantCode|] == '_';
    var i := LastIndexOf(sku, '_').value;
    assert FulfillmentSuffix(sku) == sku[i + 1..];
  }

  /** Whatever stands between the prefix and the last underscore is never
      looked at: `code_F<n>_code_<s>` and `code_F<n>_F<m>_<s>` are judged by
      `s` alone, for any stage text at all. */
  lemma FulfillmentChecksLastPart(merchantCode: string, stages: string, s: string, maxLength: int)
    requires '_' !in s
    requires |merchantCode| + |stages| + |s| + 2 <= maxLength
    ensures Validate(merchantCode + "_" + stages + "_" + s, merchantCode, maxLength, true)
            == if Matches(s) then Ok(Classification(Fulfillment, s)) else Err(BadSuffix(s))
  {
    var sku := merchantCode + "_" + stages + "_" + s;
    var p := Prefix(merchantCode);
    assert sku == p + (stages + "_" + s);
    PrefixOkIsProperPrefix(sku, merchantCode);
    assert p < sku;
    LastUnderscoreBefore(merchantCode + "_" + stages, s);
  }

  /** When `s` has no underscore, the last underscore of `t + "_" + s` is the
      one just before `s`. */
  lemma LastUnderscoreBefore(t: string, s: string)
    requires '_' !in s
    ensures FulfillmentSuffix(t + "_" + s) == s
  {
    var sku := t + "_" + s;
    assert sku[|t|] == '_';
    assert sku[|t| + 1..] == s;
  }

  /** When no underscore follows the prefix the two cuts coincide, so the
      classifier's answer changes only the reported kind: both calls fail
      with the same error or both succeed with the same suffix. */
  lemma BranchesAgree(sku: string, merchantCode: string, maxLength: int)
    requires merchantCode + "_" <= sku
    requires '_' !in sku[|merchantCode| + 1..]
    ensures FulfillmentSuffix(sku) == StandardSuffix(sku, merchantCode)
    ensures var f := Validate(sku, merchantCode, maxLength, true);
            var n := Validate(sku, merchantCode, maxLength, false);
            && f.Ok? == n.Ok?
            && (f.Err? ==> f == n)
            && (f.Ok? ==> f.value.suffix == n.value.suffix)
  {
  }

  /** Every well-formed suffix behind the right prefix is accepted, under
      either classification, as long as the SKU fits the length limit. */
  lemma AcceptedSuffixValidates(merchantCode: string, s: string, maxLength: int, isFulfillSku: bool)
    requires Matches(s)
    requires |merchantCode| + 1 + |s| <= maxLength
    ensures Validate(merchantCode + "_" + s, merchantCode, maxLength, isFulfillSku)
            == Ok(Classification(KindOf(isFulfillSku), s))
  {
    AcceptedHasNoUnderscore(s);
    LeadingRejected([]);
    StandardChecksRest(merchantCode, s, maxLength);
    LastUnderscoreBefore(merchantCode, s);
  }

  /** A suffix error carries the computed suffix, never the whole SKU: the
      rejected text is a proper tail of the SKU, and the length and prefix
      checks had both passed. */
  lemma SuffixErrorCarriesSuffix(sku: string, merchantCode: string, maxLength: int, isFulfillSku: bool)
    requires Validate(sku, merchantCode, maxLength, isFulfillSku).Err?
    requires Validate(sku, merchantCode, maxLength, isFulfillSku).error.BadSuffix?
    ensures var t := Validate(sku, merchantCode, maxLength, isFulfillSku).error.suffix;
            && t == Suffix(sku, merchantCode, isFulfillSku)
            && !Matches(t)
            && |t| < |sku| && sku[|sku| - |t|..] == t
            && |sku| <= maxLength && merchantCode + "_" < sku
  {
  }

  /** An accepted SKU passed every check: it fits the limit, properly extends
      the prefix, and its reported suffix is a non-empty, underscore-free tail
      of it that the grammar accepts. */
  lemma AcceptedShape(sku: string, merchantCode: string, maxLength: int, isFulfillSku: bool)
    requires Validate(sku, merchantCode, maxLength, isFulfillSku).Ok?
    ensures var c := Validate(sku, merchantCode, maxLength, isFulfillSku).value;
            && |sku| <= maxLength
            && merchantCode + "_" < sku
            && c.kind == KindOf(isFulfillSku)
            && c.suffix == Suffix(sku, merchantCode, isFulfillSku)
            && Matches(c.suffix) && c.suffix != [] && '_' !in c.suffix
            && |c.suffix| < |sku| && sku[|sku| - |c.suffix|..] == c.suffix
  {
  }
}
