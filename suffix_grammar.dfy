// The grammar a SKU suffix must satisfy: the pattern that Sku.php hands to
// preg_match (an alphanumeric first character, three negative lookaheads, a
// character class repeated to the end, three negative lookbehinds), read as a
// predicate over a string, together with a one-pass scanner that decides the
// same language without lookarounds.
module SuffixGrammar {

  /** `[A-Za-z0-9]`: the class of the first character. */
  predicate IsAlnum(c: char) {
    ('A' <= c <= 'Z') || ('a' <= c <= 'z') || ('0' <= c <= '9')
  }

  // The class of every later character: letters, digits, hyphen, dot,
  // parentheses, angle brackets, slash, asterisk and space.
  predicate IsAllowed(c: char) {
    || IsAlnum(c)
    || c == '-' || c == '.' || c == '(' || c == ')' || c == '<' || c == '>'
    || c == '/' || c == '*' || c == ' '
  }

  /** PCRE's `\s` without Unicode properties: space, tab, line feed,
      vertical tab, form feed and carriage return. */
  predicate IsSpace(c: char) {
    c == ' ' || c == '\t' || c == '\n' || c == '\U{0B}' || c == '\U{0C}' || c == '\r'
  }

  /** Two adjacent characters forbidden by the lookaheads
      `(?!.*--)`, `(?!.*\.\.)` and `(?!.*\s\s)`. */
  predicate IsDoubled(a: char, b: char) {
    (a == '-' && b == '-') || (a == '.' && b == '.') || (IsSpace(a) && IsSpace(b))
  }

  /** A last character forbidden by the lookbehinds `(?<!-)`, `(?<!\s)`, `(?<!\.)`. */
  predicate IsBadLast(c: char) {
    c == '-' || IsSpace(c) || c == '.'
  }

  predicate AllAllowed(s: string) {
    forall i :: 0 <= i < |s| ==> IsAllowed(s[i])
  }

  predicate NoDoubles(s: string) {
    forall i :: 0 <= i < |s| - 1 ==> !IsDoubled(s[i], s[i + 1])
  }

  /** The pattern matched against all of `s`: a non-empty string whose first
      character is alphanumeric, whose characters all lie in the class, with no
      forbidden pair anywhere and no forbidden last character.  The lookaheads
      start after the first character, which being alphanumeric can begin no
      forbidden pair, so they cover the whole string. */
  predicate WellFormed(s: string) {
    && |s| > 0
    && IsAlnum(s[0])
    && AllAllowed(s)
    && NoDoubles(s)
    && !IsBadLast(s[|s| - 1])
  }

  /** What preg_match answers.  Without the D modifier `$` also matches just
      before a line feed that ends the subject, so a well-formed string
      followed by one "\n" is accepted too. */
  predicate Matches(s: string) {
    || WellFormed(s)
    || (|s| > 0 && s[|s| - 1] == '\n' && WellFormed(s[..|s| - 1]))
  }

  /** One left-to-right pass over `s` from position `i` on, looking at each
      character and the one before it. */
  function ScanFrom(s: string, i: nat): (ok: bool)
    requires 0 < i <= |s|
    decreases |s| - i
  {
    if i == |s| then !IsBadLast(s[i - 1])
    else IsAllowed(s[i]) && !IsDoubled(s[i - 1], s[i]) && ScanFrom(s, i + 1)
  }

  /** The linear scan: drop one final line feed (the `$` rule), then check the
      first character and scan the rest. */
  function Scan(s: string): (ok: bool)
    ensures ok <==> Matches(s)
  {
    var body := if |s| > 0 && s[|s| - 1] == '\n' then s[..|s| - 1] else s;
    if |body| == 0 then false
    else
      ScanFromCorrect(body, 1);
      IsAlnum(body[0]) && ScanFrom(body, 1)
  }

  /** The scan from position `i` decides exactly the class rule for the
      characters from `i` on, the pair rule for the pairs from `i - 1` on,
      and the last-character rule. */
  lemma {:induction false} ScanFromCorrect(s: string, i: nat)
    requires 0 < i <= |s|
    ensures ScanFrom(s, i) <==>
              && (forall j :: i <= j < |s| ==> IsAllowed(s[j]))
              && (forall j :: i - 1 <= j < |s| - 1 ==> !IsDoubled(s[j], s[j + 1]))
              && !IsBadLast(s[|s| - 1])
    decreases |s| - i
  {
    if i < |s| {
      ScanFromCorrect(s, i + 1);
    }
  }

  /** An accepted suffix never contains an underscore: `_` is outside the
      class, and the one extra character `$` admits is a line feed. */
  lemma {:induction false} AcceptedHasNoUnderscore(s: string)
    requires Matches(s)
    ensures '_' !in s
  {
  }

  /** A suffix holding any character of `!@#$%^&_~+{}[]?` is rejected. */
  lemma ForbiddenCharRejected(s: string, i: nat)
    requires i < |s| && s[i] in "!@#$%^&_~+{}[]?"
    ensures !Matches(s)
  {
    assert !IsAllowed(s[i]);
    if |s| > 0 && s[|s| - 1] == '\n' {
      assert i < |s| - 1;
      assert s[..|s| - 1][i] == s[i];
    }
  }

  /** A suffix whose first character is not alphanumeric is rejected: one that
      opens with `(`, `)`, `<`, `>`, `/`, `*`, a space, a dot or a hyphen, and
      the empty string. */
  lemma LeadingRejected(s: string)
    requires s == [] || !IsAlnum(s[0])
    ensures !Matches(s)
  {
  }

  /** A suffix that ends with a hyphen, a space or a dot is rejected. */
  lemma TrailingRejected(s: string)
    requires |s| > 0 && s[|s| - 1] in "- ."
    ensures !Matches(s)
  {
  }

  /** A suffix holding `--`, `..` or two spaces anywhere is rejected. */
  lemma {:induction false} DoubledRejected(s: string, i: nat)
    requires i + 1 < |s| && s[i] == s[i + 1] && s[i] in "-. "
    ensures !Matches(s)
  {
  }

  /** The `$` quirk: a string followed by one line feed is accepted exactly
      when the string itself is well-formed. */
  lemma TrailingLineFeed(t: string)
    ensures Matches(t + "\n") <==> WellFormed(t)
  {
  }

  /** Away from that quirk the answer is exactly the grammar. */
  lemma NoLineFeedMeansWellFormed(s: string)
    requires '\n' !in s
    ensures Matches(s) <==> WellFormed(s)
  {
  }
}
