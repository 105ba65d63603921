# SKU validation rule

This project models the SKU validation rule of a multi-merchant product catalog.
The rule lives in the SKU attribute backend of the catalog (`Sku.php`). It decides whether a
product's stock-keeping identifier is acceptable for the merchant that owns it, and if
not, which error to report. It runs three checks in order, and the first one that fails
decides the result:

1. **Length gate.** The SKU may have at most `maxLength` characters.
2. **Prefix.** The SKU must start with the merchant code followed by `_`, and must be
   longer than that prefix.
3. **Suffix grammar.** A suffix is cut from the SKU and matched against a regular
   expression. There are two cuts, and an external classifier's answer picks one:
   - a fulfillment SKU is cut after the *last* `_` in the whole SKU;
   - any other SKU is cut after the fixed-length prefix.

The model is pure, like the source. It has three modules:

- `SuffixGrammar` (`suffix_grammar.dfy`) covers the grammar.
  - `Matches` reads the preg_match pattern as a predicate over a string.
  - `WellFormed` holds the grammar's rules: an alphanumeric first character; every
    character among letters, digits, `-`, `.`, `(`, `)`, `<`, `>`, `/`, `*` and space;
    no `--`, no `..` and no two whitespace characters in a row; and a last character
    that is not `-`, `.` or whitespace.
  - `Scan` is a one-pass scanner that looks only at each character and the one before
    it. It is proved to decide exactly `Matches`.
- `SkuValidator` (`sku_validator.dfy`) covers the rest of the rule.
  - The entities are the `Classification` and `ValidationError` datatypes.
  - The operations are the two suffix cuts (`FulfillmentSuffix`, `StandardSuffix`), the
    prefix check (`PrefixOk`), and `Validate`, which chains the three checks and runs `Scan` for the
    grammar.
  - `substr` is modelled by `Drop` and `Take`, and `strrpos` by `LastIndexOf`.
- `SkuProperties` (`sku_properties.dfy`) proves the rule's guarantees for all inputs.
  `SkuExamples` (`sku_examples.dfy`) pins down the concrete cases from the test suite.

Inputs the source takes from its framework are parameters here:

- the merchant code;
- the configured maximum length;
- the answer of the fulfillment classifier `isFulfillSku`.

Where the source's comments and its code disagree, the model follows the code:

- The comment above the cut says the fulfillment suffix is "the part after second _".
  The code cuts after the last `_`, and so does the model.
- The pattern is written as if anchored at both ends. Without the `D` modifier, PCRE's
  `$` also matches just before one final line feed. So `preg_match` accepts a
  well-formed suffix followed by `"\n"`. The source then returns only the parent
  validation's answer (Sku.php:68), so the line feed shows up only in the suffix
  error message (Sku.php:64) and, here, in `Classification.suffix`. `Matches` keeps
  this behaviour. `TrailingLineFeed`, `NoLineFeedMeansWellFormed`
  and `TrailingLineFeedSku` state it.
- The pair rule uses `\s\s`, so any two whitespace characters in a row are forbidden,
  not only two spaces. The character class admits only the space among whitespace, so
  in practice the two readings coincide.
- The error message lists `=` and `x` as allowed characters. `x` is a letter, so it is
  allowed. `=` is rejected by the pattern (`RejectedSuffixes`).

Characters are Unicode code points. The length gate counts characters, as the source's
string helper does. The prefix comparison, `strrpos` and the two `substr` cuts work on
bytes. For valid UTF-8 those cuts fall at the same places as code-point cuts: the
prefix is compared whole, and `_` is a single byte that never occurs inside a
multi-byte character. So the model treats every SKU as a sequence of characters.

## Model

| member | source | states |
|---|---|---|
| SuffixGrammar.Scan | Sku.php:52-62 | The one-pass scanner accepts a suffix exactly when preg_match with the SKU pattern does, trailing-line-feed rule included. |
| SuffixGrammar.ScanFromCorrect | Sku.php:53-62 | Scanning from position i decides three things at once: the class rule for every later character, the no-`--`/`..`/whitespace-pair rule for every later pair, and the last-character rule. |
| SuffixGrammar.AcceptedHasNoUnderscore | Sku.php:57-62 | No suffix the pattern accepts contains `_`. |
| SuffixGrammar.ForbiddenCharRejected | Sku.php:57-62 | A suffix containing any of `!@#$%^&_~+{}[]?` is rejected. |
| SuffixGrammar.LeadingRejected | Sku.php:53-62 | A suffix that is empty or starts with anything but `[A-Za-z0-9]` is rejected. This covers a leading special character, space, dot or hyphen. |
| SuffixGrammar.TrailingRejected | Sku.php:58-62 | A suffix ending with `-`, a space or `.` is rejected. |
| SuffixGrammar.DoubledRejected | Sku.php:54-62 | A suffix containing `--`, `..` or two spaces anywhere is rejected. |
| SuffixGrammar.TrailingLineFeed | Sku.php:62 | `t + "\n"` is accepted exactly when `t` satisfies the grammar. This is the `$` rule of PCRE without the D modifier. |
| SuffixGrammar.NoLineFeedMeansWellFormed | Sku.php:52-62 | For a suffix without a line feed, the pattern accepts exactly the grammar's rules. |
| SkuValidator.LastIndexOf | Sku.php:47 | `strrpos`: the result is None exactly when the character is absent. Otherwise it is an occurrence with no occurrence after it. |
| SkuProperties.PrefixOkIsProperPrefix | Sku.php:29-34 | The `substr` comparison plus the "not exactly the prefix" test passes exactly when `code + "_"` is a proper prefix of the SKU. A passing SKU is longer than the prefix. |
| SkuProperties.LengthGate | Sku.php:22-27 | A SKU longer than the maximum gets the length error, whatever else holds. The length error occurs for no other SKU. |
| SkuProperties.PrefixGate | Sku.php:29-34 | Within the length limit, the prefix error (carrying `code + "_"`) occurs exactly when the SKU does not start with `code + "_"` or equals it. |
| SkuProperties.StandardSuffixIsRest | Sku.php:49 | The standard cut of `code + "_" + s` is `s`. |
| SkuProperties.StandardChecksRest | Sku.php:29-66 | In the standard branch, `code + "_" + s` is judged by `s` alone. Empty `s` is a prefix error. Otherwise the SKU is accepted with suffix `s` iff the pattern accepts `s`, and rejected with `BadSuffix(s)` if not. |
| SkuProperties.FulfillmentSuffixShape | Sku.php:46-47 | After the prefix check, the fulfillment suffix is a proper tail of the SKU. It contains no `_`, and an `_` comes right before it. |
| SkuProperties.LastUnderscoreBefore | Sku.php:47 | If `s` has no `_`, the fulfillment cut of `t + "_" + s` is `s`. |
| SkuProperties.FulfillmentChecksLastPart | Sku.php:45-66 | In the fulfillment branch, `code + "_" + stages + "_" + s` is judged by `s` alone, whatever `stages` holds. |
| SkuProperties.BranchesAgree | Sku.php:45-50 | If no `_` follows the prefix, the two cuts coincide. Both classifications then fail with the same error, or both succeed with the same suffix. |
| SkuProperties.AcceptedSuffixValidates | Sku.php:22-66 | `code + "_" + s` is accepted under either classification, with suffix `s`, when the pattern accepts `s` and the SKU fits the limit. |
| SkuProperties.SuffixErrorCarriesSuffix | Sku.php:62-66 | A suffix error carries the computed suffix, which is a proper tail of the SKU and is rejected by the pattern. The length and prefix checks had passed. |
| SkuProperties.AcceptedShape | Sku.php:22-68 | An accepted SKU fits the limit and properly extends the prefix. Its reported suffix is the computed cut: a non-empty tail of the SKU, free of `_`, that the pattern accepts. |
| SkuExamples.RejectedSuffixes | Tests/SkuTest.php:180-472 | These suffixes are rejected: empty, `_`, `=`, leading `(`/space/`.`/`-`, trailing `-`/space/`.`, `--`, `..`, two spaces, `#`, `_`. |
| SkuExamples.AcceptedSuffixes | Sku.php:52-62 | `abc-def` and `abc.def` are accepted. The literals stand in for the randomised hyphen and dot suffixes of the test suite. |
| SkuExamples.AcceptedSpacesAndAlnum | Tests/SkuTest.php:134-164 | `a b c` and `ABC123` are accepted. |
| SkuExamples.AcceptedSpecialCharacters | Tests/SkuTest.php:166-178 | Allowed special characters after the first position are accepted. |
| SkuExamples.CorrectSkuSuffix | Tests/SkuTest.php:32-36 | `correct-sku` is accepted. |
| SkuExamples.FulfillmentSuffixes | Sku.php:52-62 | `F12a.b`, `x-y` and `ok` followed by a line feed are accepted. The last one is the `$` rule of line 62. |
| SkuExamples.CorrectStandardSku | Tests/SkuTest.php:32-49 | `AA_correct-sku` passes as a standard SKU with suffix `correct-sku`. |
| SkuExamples.CorrectFulfillmentSku | Tests/SkuTest.php:51-68 | `AA_F12_correct-sku` passes as a fulfillment SKU with suffix `correct-sku`. |
| SkuExamples.WrongSkus | Tests/SkuTest.php:351-498 | `BB_sku` and `AA_` give the prefix error; `BB_` stands in for the random prefix of special characters in testWrongSkuPrefix. `AA_wrong--sku` gives the suffix error carrying `wrong--sku`. 63 characters against a limit of 50 gives the length error. |
| SkuExamples.SingleUnderscoreSku | Tests/SkuTest.php:113-128 | `BR_F12a.b` passes with suffix `F12a.b`, whatever the classifier answers. |
| SkuExamples.TwoStageSku | Tests/SkuTest.php:74-86 | `AA_F1_F2_x-y` passes as a fulfillment SKU with suffix `x-y`. |
| SkuExamples.StageAndCodeSku | Tests/SkuTest.php:92-107 | `LP_F1_LP_x-y` passes as a fulfillment SKU with suffix `x-y`. |
| SkuExamples.TrailingLineFeedSku | Sku.php:62 | `AA_ok` followed by a line feed passes, and the reported suffix includes the line feed. |

## Left out

- Merchant-code fallback (Sku.php:17-20): when the product carries no code, the source looks up the owner's merchant record. The model takes the code as a parameter. PHP would also take this path for the code `"0"`.
- The fulfillment classifier `isFulfillSku` (Sku.php:45) is not part of this model. Its answer is a boolean parameter. For this reason the classification reports only which cut was used, not a count of fulfillment stages.
- The parent attribute validation (Sku.php:68), which enforces uniqueness against the product store, is left out. So is the duplicate-SKU test.
- Exceptions, message translation and message text are modelled as the `ValidationError` datatype. This covers the length message quoting the constant `SKU_MAX_LENGTH` instead of the configured value.
- Byte strings that are not valid UTF-8, and a missing SKU value, are not modelled. Only valid character strings are covered.
- PCRE's `\s` is taken as the ASCII whitespace set, as the pattern runs without the `u` modifier.
- Under PHP 7, `substr` returns false instead of `""` when the start is past the end. Either value is rejected by the pattern, so the model uses `""`.
