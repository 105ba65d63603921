// The SKU validation rule of the catalog's SKU attribute backend: a length
// gate, a check that the SKU starts with the merchant code and an underscore,
// the cut of the suffix (two ways, chosen by the fulfillment classifier) and
// the suffix grammar.  The first failing check decides the one error returned.
module SkuValidator {
  import SuffixGrammar

  datatype Option<T> = None | Some(value: T)

  datatype Result<T, E> = Ok(value: T) | Err(error: E)

  /** Which of the two suffix cuts was used: the answer of the external
      fulfillment classifier. */
  datatype SkuKind = Standard | Fulfillment

  /** What a SKU that passes all checks was found to be. */
  datatype Classification = Classification(kind: SkuKind, suffix: string)

  /** The three rejections, each carrying the value its message shows. */
  datatype ValidationError =
    | TooLong(max: int)
    | BadPrefix(expected: string)
    | BadSuffix(suffix: string)

  /** The literal every SKU of a merchant must start with. */
  function Prefix(merchantCode: string): (p: string)
    ensures |p| == |merchantCode| + 1 && p[..|merchantCode|] == merchantCode && p[|merchantCode|] == '_'
  {
    merchantCode + "_"
  }

  /** `substr($s, $n)` for a start at or past the end: everything from
      position `n` on, or the empty string. */
  function Drop(s: string, n: nat): (r: string)
    ensures n <= |s| ==> s == s[..n] + r
    ensures n > |s| ==> r == []
  {
    if n <= |s| then s[n..] else []
  }

  /** `substr($s, 0, $n)`: the first `n` characters, or all of a shorter `s`. */
  function Take(s: string, n: nat): (r: string)
    ensures r <= s && |r| == if n <= |s| then n else |s|
  {
    if n <= |s| then s[..n] else s
  }

  /** `strrpos($s, $c)`: the position of the last occurrence of `c`, if any. */
  function LastIndexOf(s: string, c: char): (r: Option<nat>)
    ensures r.None? <==> c !in s
    ensures r.Some? ==> r.value < |s| && s[r.value] == c && c !in s[r.value + 1..]
  {
    if s == [] then None
    else if s[|s| - 1] == c then Some(|s| - 1)
    else
      var r := LastIndexOf(s[..|s| - 1], c);
      assert s == s[..|s| - 1] + [s[|s| - 1]];
      r
  }

  /** The length gate: the SKU has at most `maxLength` characters. */
  predicate LengthOk(sku: string, maxLength: int) {
    |sku| <= maxLength
  }

  /** The prefix check as the source writes it: the first |code| + 1
      characters are `code + "_"`, and the SKU is not exactly that string. */
  predicate PrefixOk(sku: string, merchantCode: string) {
    Take(sku, |Prefix(merchantCode)|) == Prefix(merchantCode) && sku != Prefix(merchantCode)
  }

  /** Fulfillment cut: everything after the last underscore of the whole SKU.
      When there is none, `strrpos` yields false and `false + 1` is 1; the
      prefix check rules that case out before the cut is made. */
  function FulfillmentSuffix(sku: string): string {
    match LastIndexOf(sku, '_')
    case Some(i) => Drop(sku, i + 1)
    case None => Drop(sku, 1)
  }

  /** Standard cut: everything after the fixed-length prefix `code + "_"`. */
  function StandardSuffix(sku: string, merchantCode: string): string {
    Drop(sku, |Prefix(merchantCode)|)
  }

  /** The suffix the grammar is applied to, by the classifier's answer. */
  function Suffix(sku: string, merchantCode: string, isFulfillSku: bool): string {
    if isFulfillSku then FulfillmentSuffix(sku) else StandardSuffix(sku, merchantCode)
  }

  function KindOf(isFulfillSku: bool): SkuKind {
    if isFulfillSku then Fulfillment else Standard
  }

  /** The validation rule: length, then prefix, then suffix grammar, decided
      by the one-pass scanner, whose specification is the pattern `Matches`;
      the first failing check is the one error reported. */
  function Validate(sku: string, merchantCode: string, maxLength: int, isFulfillSku: bool)
    : Result<Classification, ValidationError>
  {
    if !LengthOk(sku, maxLength) then Err(TooLong(maxLength))
    else if !PrefixOk(sku, merchantCode) then Err(BadPrefix(Prefix(merchantCode)))
    else
      var suffix := Suffix(sku, merchantCode, isFulfillSku);
      if !SuffixGrammar.Scan(suffix) then Err(BadSuffix(suffix))
      else Ok(Classification(KindOf(isFulfillSku), suffix))
  }
}
