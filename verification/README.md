# Css2Xpath in Dafny

A model of `RPBase\Css2Xpath\Parser`, the class that translates a CSS selector
into an XPath expression (src/RPBase/Css2Xpath/Parser.php), together with the
properties the translation keeps.

`Parser::parse` splits the selector at every comma and trims each piece. It then
scans each piece with a cursor (`offset`) into a list of rules, one rule per
simple selector. A rule holds:

- whether it is a direct child (`>`);
- an optional tag name;
- attribute filters (`#id`, `.class`, `[name op "value"]`);
- pseudo-selectors (`:first-child`, `:last-child`, `:nth-child(...)`, `:not(...)`).

Each rule list is rendered as `/*` followed by one step per rule. The pieces are
joined with `|`. Malformed input raises `MalformedCssExpressionException`. The
first call to `getXpath` caches its answer.

The project is organised as follows:

- **Css2Xpath** (parser.dfy): the class `Parser`, with the fields the source
  updates (`selector`, `length`, `offset`, the cached `xpath`) and its methods
  as `while` loops over `offset`. Each method is proved to compute what a
  function of the Scanner or Render module describes. A thrown exception is a
  `Malformed` result carrying the source's message. When the cursor of
  `extractRules` stops moving, the source loops forever; the model returns
  `Diverges` there.
- **Scanner** (scanner.dfy): the cursor scan as functions of the text and the
  offset: `findNextRule`, `extract`, the attribute block, the pseudo-selector,
  one turn of the loop of `extractRules`, and the whole loop.
- **Render**, **NthChild** and **Quoting** (render.dfy, nth.dfy, quotes.dfy):
  - `rules2Xpath`, `mkXpathAttributeSelector` and `mkXpathPseudoSelector`;
  - the `nth-child` pattern, with its capture groups computed by hand;
  - the `:not` prefix stripping;
  - the quoting of attribute tests.
- **Translation** (translation.dfy): what `parse` promises as a whole:
  - pieces translate independently and in order;
  - `a,b` is the union of `a` and `b`;
  - trimming does not matter;
  - rules render one after the other;
  - `:not(tag)` negates the tag test.
- **Printing**, **Tokens**, **ReadBack**, **Layout** and **RoundTrip**: a
  printer for rule lists, written independently of the scanner. They prove that
  `extractRules` reads the printed text of any printable rule list back into
  that very list (`RoundTrip.ScanPrinted`). Through `parse`, that text then
  translates as the rules render (`RoundTrip.TranslatePrinted`).
- **Failures** (failures.dfy): the failures and non-terminations of the scan,
  stated for every selector of the given shape.
- **Expectations** (expectations.dfy): the outputs that
  tests/RPBaseTest/Css2Xpath/ParserTest.php expects and the code gives, stated
  for every name and value of each tested shape.
- **Text**, **Rules** and **Outcomes**:
  - character classes;
  - PHP's `trim`, `explode` and `implode`;
  - integer printing;
  - the rule records;
  - the result type.

Some expectations in tests/RPBaseTest/Css2Xpath/ParserTest.php are not what the
code computes. The model follows the code:

- `[href*="url"]` (lines 50-53) is expected to give `contains(@href, "url")`.
  The matcher switch of `extractAttributeMatcher` has no `*=`, so the code fails
  with "Unrecognized matcher at offset 7: '*='" (`Failures.UnknownMatcher`).
- `[href^="/url"]` (lines 76-79): `/` is no value character, so the code takes
  it for the closing quote and fails at offset 9 on `u`
  (`Failures.QuoteSkipsCharacter`).
- `3n + 2` and `3n - 1` (lines 106-114): the space after `n` stops the pattern,
  so both render the test for `3n` alone (`NthChild.NthChildSpaced`).

## Model

| member | source | states |
|---|---|---|
| Css2Xpath.Parser.constructor | src/RPBase/Css2Xpath/Parser.php:60-63 | The parser keeps the full selector and has no XPath cached yet. |
| Css2Xpath.Parser.Parse | src/RPBase/Css2Xpath/Parser.php:70-74 | A fresh parser's `getXpath` is the translation `Translate` of the selector, failures included. |
| Css2Xpath.Parser.GetXpath | src/RPBase/Css2Xpath/Parser.php:80-87 | The first call answers the translation. Any later call answers the cached text without translating again; after a failure that text is `''`. Afterwards the cache always holds that text. |
| Css2Xpath.Parser.DoParse | src/RPBase/Css2Xpath/Parser.php:93-110 | The result is the translation of the full selector. The cache ends up holding its text, or `''` when a piece failed. |
| Css2Xpath.Parser.ParsePieces | src/RPBase/Css2Xpath/Parser.php:99-105 | The loop over the pieces gives every piece's translation in order, or the first piece's failure. The cache is untouched. |
| Css2Xpath.Parser.ParsePiece | src/RPBase/Css2Xpath/Parser.php:100-104 | One piece is trimmed, scanned from offset 0 and rendered, as `TranslatePiece` says. |
| Css2Xpath.Parser.ExtractRules | src/RPBase/Css2Xpath/Parser.php:118-172 | The loop gives the rule list of `ScanFrom`, starting after the leading combinator: every rule, or the failure, or `Diverges`. Selector, length and cache are unchanged. |
| Css2Xpath.Parser.ExtractToken | src/RPBase/Css2Xpath/Parser.php:126-167 | One turn of the loop is `ScanStep`. On success the cursor stands where the step says. |
| Css2Xpath.Parser.ExtractAttributeBlock | src/RPBase/Css2Xpath/Parser.php:144-162 | A `[...]` block gives the attribute and the offset after `]` that `ScanAttributeBlock` gives, or its error message. |
| Css2Xpath.Parser.ExtractAttributeOperator | src/RPBase/Css2Xpath/Parser.php:149-162 | From the operator on, the block is what `AttributeOperator` says: an unknown matcher fails, a known one goes on to the value. |
| Css2Xpath.Parser.ExtractAttributeClose | src/RPBase/Css2Xpath/Parser.php:151-160 | The optional quoted value and the closing `]` are what `AttributeValue` says. A missing `]` fails with the offset and the character found. |
| Css2Xpath.Parser.GetEmptyRule | src/RPBase/Css2Xpath/Parser.php:179-186 | The new rule is empty, and is a direct child exactly when `findNextRule` consumed a `>`. The cursor moves as `NextRule` says. |
| Css2Xpath.Parser.FindNextRule | src/RPBase/Css2Xpath/Parser.php:300-314 | The loop skips spaces and at most one `>`. It answers whether a `>` was skipped and leaves the cursor where `NextRule` says. |
| Css2Xpath.Parser.Extract | src/RPBase/Css2Xpath/Parser.php:247-258 | The cursor moves to the end of the longest run of the class (`RunEnd`), and the run is returned. |
| Css2Xpath.Parser.ExtractTagName | src/RPBase/Css2Xpath/Parser.php:236-239 | The longest run of letters at the cursor, with the cursor after it. |
| Css2Xpath.Parser.ExtractAttributeValue | src/RPBase/Css2Xpath/Parser.php:204-208 | One character is skipped, then the longest run of `[a-zA-Z0-9_-]` is returned, with the cursor after it. |
| Css2Xpath.Parser.ExtractAttributeMatcher | src/RPBase/Css2Xpath/Parser.php:215-229 | The run of operator characters is read. A run that spells a matcher gives that matcher; any other run fails with "Unrecognized matcher" at the offset after the run. |
| Css2Xpath.Parser.ExtractPseudoSelector | src/RPBase/Css2Xpath/Parser.php:265-293 | The pseudo-selector and the new cursor are those of `ScanPseudo`. |
| Css2Xpath.Parser.ExtractPseudoName | src/RPBase/Css2Xpath/Parser.php:269-274 | The name is the run of `[a-z-]` after `:`, and the cursor stands after it. |
| Css2Xpath.Parser.ExtractPseudoValue | src/RPBase/Css2Xpath/Parser.php:276-290 | The loop counts parentheses until they balance or the text ends (`ParenEnd`). The value is the text between, without the closing character. |
| Css2Xpath.Parser.GetChar | src/RPBase/Css2Xpath/Parser.php:194-197 | The character at the cursor plus the index, or `''` past the end. |
| Scanner.SkipCombinatorSpec | src/RPBase/Css2Xpath/Parser.php:304-309 | The skipped text is spaces and at most one `>`. The flag is set exactly when a `>` was skipped, and the skip stops at the first character it may not take. |
| Scanner.NextRuleSpec | src/RPBase/Css2Xpath/Parser.php:300-314 | `findNextRule` from an offset obeys the same laws. It moves exactly when the character there is a space or `>`. |
| Scanner.MatcherOfSpelling | src/RPBase/Css2Xpath/Parser.php:219-226 | The switch of `extractAttributeMatcher` maps a run to a matcher exactly when that matcher's symbol is the run (both directions). |
| Scanner.ScanAttributeBlock | src/RPBase/Css2Xpath/Parser.php:144-162 | An attribute block never diverges, and a block that succeeds ends just after a `]`. |
| Scanner.ParenEndSpec | src/RPBase/Css2Xpath/Parser.php:277-287 | The parenthesis loop stops at the first point where the depth reaches zero, or at the end of the text. The depth never goes negative before that. |
| Scanner.ScanPseudoBalanced | src/RPBase/Css2Xpath/Parser.php:276-290 | When the parentheses close, the value is the text strictly between `(` and its matching `)`, and it is balanced. |
| Scanner.ScanPseudoBounds | src/RPBase/Css2Xpath/Parser.php:265-293 | A pseudo-selector is no larger than the text it consumed, and its name is made of `[a-z-]`. |
| Scanner.ScanStep | src/RPBase/Css2Xpath/Parser.php:126-167 | A turn that succeeds moves the cursor forward. A turn that starts a new rule starts it without pseudo-selectors. |
| Scanner.ScanFrom | src/RPBase/Css2Xpath/Parser.php:124-169 | A successful loop pushes at least the rule in progress. |
| Scanner.ScanRules | src/RPBase/Css2Xpath/Parser.php:118-172 | A scanned piece always has at least one rule. |
| Scanner.ScanRulesSize | src/RPBase/Css2Xpath/Parser.php:118-172 | The pseudo-selector values of the rules together are no longer than the piece. This bounds the nested `:not` translations. |
| Scanner.ScanRulesClean | src/RPBase/Css2Xpath/Parser.php:118-172 | Every rule scanned has the following: letter tag names; letter (or `id`/`class`) attribute names; `[a-zA-Z0-9_-]` values; `[a-z-]` pseudo names. |
| Scanner.StrayCharacterDiverges | src/RPBase/Css2Xpath/Parser.php:164-166 | A character that starts no token and is no combinator stops the cursor, and the loop never ends. |
| Scanner.SimpleSelectorScans | src/RPBase/Css2Xpath/Parser.php:124-167 | Text made only of letters, `#`, `.`, `*`, spaces and `>` always scans successfully. |
| Text.RunLengthSpec | src/RPBase/Css2Xpath/Parser.php:249-252 | Every character of the run is in the class, and the character after it is not. |
| Text.RunLengthUnique | src/RPBase/Css2Xpath/Parser.php:249-252 | A run with those two properties is the one `extract` finds. |
| Text.Trim | src/RPBase/Css2Xpath/Parser.php:100 | `trim` gives a slice of the text with no whitespace at either end. Everything cut off at either end is whitespace. |
| Text.TrimIdempotent | src/RPBase/Css2Xpath/Parser.php:100 | Trimming twice is trimming once. |
| Text.JoinSplit | src/RPBase/Css2Xpath/Parser.php:97 | Joining the pieces of `explode` with the separator gives the text back. |
| Text.SplitJoin | src/RPBase/Css2Xpath/Parser.php:97 | `explode` of a join of separator-free pieces gives the pieces back. |
| Text.SplitLength | src/RPBase/Css2Xpath/Parser.php:97 | The pieces and their separators account for every character. |
| Text.NatToStringValue | src/RPBase/Css2Xpath/Parser.php:379 | The printed decimal of a number reads back as that number. |
| NthChild.NthMatchShaped | src/RPBase/Css2Xpath/Parser.php:375 | The groups of the `nth-child` pattern each hold what their sub-pattern can match, and together they are a prefix of the value. When nothing matches, the value does not start with a digit. |
| NthChild.GroupsShaped | src/RPBase/Css2Xpath/Parser.php:375-377 | The groups PHP reads are those of a match, or all empty. |
| NthChild.NonNumericXpath | src/RPBase/Css2Xpath/Parser.php:369-379 | A value that is not numeric renders the modulo test of the offset and factor of its groups. |
| NthChild.NthChildLinear | src/RPBase/Css2Xpath/Parser.php:375-379 | `an+b` and `an-b` with a one-digit `a` give factor `a` and offset `b` or `-b`. |
| NthChild.NthChildMultiple | src/RPBase/Css2Xpath/Parser.php:375-379 | `an` gives factor `a` and offset 0, as in `3n` (ParserTest.php lines 101-104). |
| NthChild.NthChildLongCoefficient | src/RPBase/Css2Xpath/Parser.php:375-377 | For a coefficient of several digits, the pattern keeps all but the last digit as an offset and only the last digit as the factor. |
| NthChild.NthChildSpaced | src/RPBase/Css2Xpath/Parser.php:375-379 | After `an `, nothing is read: `3n + 2` renders as `3n` does. |
| NthChild.NthChildUnmatched | src/RPBase/Css2Xpath/Parser.php:375-379 | A value starting with neither a digit nor a sign renders with offset 0 and an empty factor. |
| Render.StripNot | src/RPBase/Css2Xpath/Parser.php:383 | The `:not` replacement either leaves the text alone, or removes the rule prefix and one `]`. |
| Render.StripNotFilter | src/RPBase/Css2Xpath/Parser.php:383 | Given `/*/*[` or `/*/descendant::*[`, then a first filter without `]` or a line break, then `]`, the prefix and that `]` are removed and the rest is kept. |
| Render.StripNotOther | src/RPBase/Css2Xpath/Parser.php:383 | Text starting with neither prefix is unchanged. |
| Render.StripNotUnclosed | src/RPBase/Css2Xpath/Parser.php:383 | With no `]` after the prefix, nothing is replaced. |
| Render.PseudoXpath | src/RPBase/Css2Xpath/Parser.php:360-386 | An unknown pseudo name fails with "Unrecognized pseudo selector" naming it. Only `:not` can diverge, through its nested parse. |
| Render.TranslatePieces | src/RPBase/Css2Xpath/Parser.php:99-105 | A successful loop yields one XPath per piece. |
| Quoting.AttributeQuotes | src/RPBase/Css2Xpath/Parser.php:322-352 | For a scanned attribute, the rendered test holds exactly the `"` of its literals, counted per matcher. A value cannot end its literal early. |
| Translation.PiecesAppend | src/RPBase/Css2Xpath/Parser.php:99-105 | Translating two runs of pieces one after the other is translating their concatenation. |
| Translation.PiecesFail | src/RPBase/Css2Xpath/Parser.php:99-105 | Once a prefix of the pieces fails, the pieces after it do not matter. |
| Translation.TranslateUnion | src/RPBase/Css2Xpath/Parser.php:97-107 | `a,b` translates to the translations of `a` and `b` joined by a bar, or to the failure of `a`, or else to that of `b`. |
| Translation.TranslateSinglePiece | src/RPBase/Css2Xpath/Parser.php:97-107 | A selector without commas translates as its single piece. |
| Translation.TranslatePieceTrim | src/RPBase/Css2Xpath/Parser.php:100 | Surrounding whitespace does not change a piece's translation. |
| Translation.RuleStepsAppend | src/RPBase/Css2Xpath/Parser.php:399-415 | The steps of two rule lists are the steps of the first followed by those of the second, or the first failure. |
| Translation.RulesXpathSingle | src/RPBase/Css2Xpath/Parser.php:395-418 | One rule renders as `/*` and its own steps. |
| Translation.ScanTag | src/RPBase/Css2Xpath/Parser.php:138-139 | A bare tag name scans to one rule with that tag and no filters. |
| Translation.TranslateTag | src/RPBase/Css2Xpath/Parser.php:395-418 | A bare tag name translates to `/*/descendant::*[name() = "tag"]`. |
| Translation.NotTag | src/RPBase/Css2Xpath/Parser.php:381-383 | `:not(tag)` renders `not(name() = "tag")`, as the test at ParserTest.php lines 116-119 expects. |
| ReadBack.BlockScan | src/RPBase/Css2Xpath/Parser.php:144-162 | A printed `[name op "value"]` block reads back as exactly that attribute, ending after its `]`. |
| ReadBack.AttributeStep | src/RPBase/Css2Xpath/Parser.php:128-162 | A printed attribute filter is one turn that appends exactly that attribute. |
| ReadBack.PseudoScan | src/RPBase/Css2Xpath/Parser.php:265-293 | A printed `:name(value)` with a balanced value reads back as exactly that pseudo-selector. |
| ReadBack.TagStep | src/RPBase/Css2Xpath/Parser.php:138-139 | A printed tag name is one turn that sets exactly that tag. |
| Tokens.ReplayPiece | src/RPBase/Css2Xpath/Parser.php:128-169 | Replaying the tokens of a rule list as the loop handles them rebuilds the list: appended filters, set tags, pushed rules, and the last rule pushed at the end. |
| RoundTrip.TokenScan | src/RPBase/Css2Xpath/Parser.php:126-167 | Each printed token is one turn of the loop, which goes on right after the token with the token applied. |
| RoundTrip.PieceScan | src/RPBase/Css2Xpath/Parser.php:124-169 | After the leading combinator, the loop reads a printed rule list back into that list. |
| RoundTrip.ScanPrinted | src/RPBase/Css2Xpath/Parser.php:118-172 | `extractRules` on the printed text of any non-empty printable rule list gives that list back. |
| RoundTrip.PieceTrimmed | src/RPBase/Css2Xpath/Parser.php:100 | `trim` leaves a printed rule list unchanged. |
| RoundTrip.TranslatePrinted | src/RPBase/Css2Xpath/Parser.php:93-110 | `parse` of a printed rule list without commas is the rendering `rules2Xpath` of that list. |
| Scanner.NextRule | src/RPBase/Css2Xpath/Parser.php:300-314 | Definition of `findNextRule`: the flag and the offset after the skipped spaces and `>`. The result stays within the text; properties in `Scanner.NextRuleSpec` and `Scanner.SkipCombinatorSpec`. |
| Scanner.MatcherOf | src/RPBase/Css2Xpath/Parser.php:219-228 | Definition of the matcher switch; properties in `Scanner.MatcherOfSpelling`. |
| Scanner.AttributeOperator | src/RPBase/Css2Xpath/Parser.php:146-162 | Definition of the block from its operator on. It never diverges, and success ends after a `]`; properties in `ReadBack.BlockScan`, `Failures.UnclosedBlock`, `Failures.UnknownMatcher` and `Failures.QuoteSkipsCharacter`. |
| Scanner.AttributeValue | src/RPBase/Css2Xpath/Parser.php:151-162 | Definition of the optional quoted value and the closing `]`. It never diverges, and success ends after a `]`; properties in `ReadBack.BlockScan`, `Failures.UnclosedBlock` and `Failures.QuoteSkipsCharacter`. |
| Scanner.ScanPseudo | src/RPBase/Css2Xpath/Parser.php:265-293 | Definition of `extractPseudoSelector`. The cursor moves past `:` and stays within the text; properties in `Scanner.ScanPseudoBalanced` and `Scanner.ScanPseudoBounds`. |
| Text.RunLength | src/RPBase/Css2Xpath/Parser.php:247-258 | Definition of the run `extract` consumes. It stays within the text; properties in `Text.RunLengthSpec` and `Text.RunLengthUnique`. |
| Text.RunEnd | src/RPBase/Css2Xpath/Parser.php:247-258 | Definition of the cursor after `extract`. It lies between the start and the end of the text; properties in `Text.RunLengthSpec`. |
| Text.Split | src/RPBase/Css2Xpath/Parser.php:97 | Definition of `explode`. There is at least one piece and no piece holds the separator; properties in `Text.JoinSplit`, `Text.SplitJoin` and `Text.SplitLength`. |
| Text.Join | src/RPBase/Css2Xpath/Parser.php:107 | Definition of `implode`. The first piece starts the result; properties in `Text.JoinSplit` and `Text.SplitJoin`. |
| NthChild.Groups | src/RPBase/Css2Xpath/Parser.php:375 | Definition of the capture groups PHP reads; properties in `NthChild.NthMatchShaped` and `NthChild.GroupsShaped`. |
| NthChild.NthOffset | src/RPBase/Css2Xpath/Parser.php:376 | Definition of the offset of the `nth-child` test; properties in `NthChild.NthChildLinear`, `NthChild.NthChildMultiple` and `NthChild.NthChildUnmatched`. |
| NthChild.NthFactor | src/RPBase/Css2Xpath/Parser.php:377 | Definition of the factor of the `nth-child` test; properties in `NthChild.NthChildLinear`, `NthChild.NthChildMultiple` and `NthChild.NthChildLongCoefficient`. |
| NthChild.NthChildXpath | src/RPBase/Css2Xpath/Parser.php:368-379 | Definition of the `nth-child` test; properties in `NthChild.NonNumericXpath`, `NthChild.NthChildLinear`, `NthChild.NthChildSpaced` and `Expectations.TagNthChild`. |
| Render.AttributeXpath | src/RPBase/Css2Xpath/Parser.php:322-352 | Definition of `mkXpathAttributeSelector`; properties in `Quoting.AttributeQuotes` and `Expectations.AttributeWithValue`. |
| Render.RuleXpath | src/RPBase/Css2Xpath/Parser.php:399-415 | Definition of one rule's steps; properties in `Translation.RulesXpathSingle` and `Translation.RuleStepsAppend`. |
| Render.RuleSteps | src/RPBase/Css2Xpath/Parser.php:399-415 | Definition of the loop of `rules2Xpath`; properties in `Translation.RuleStepsAppend`. |
| Render.RulesXpath | src/RPBase/Css2Xpath/Parser.php:395-418 | Definition of `rules2Xpath`; properties in `Translation.RulesXpathSingle`, `Translation.TranslateTag` and `RoundTrip.TranslatePrinted`. |
| Render.TranslatePiece | src/RPBase/Css2Xpath/Parser.php:99-105 | Definition of one turn of the loop of `_parse`; properties in `Translation.TranslatePieceTrim` and `Translation.TranslateSinglePiece`. |
| Render.Translate | src/RPBase/Css2Xpath/Parser.php:93-110 | Definition of `_parse`; properties in `Translation.TranslateUnion` and `RoundTrip.TranslatePrinted`. |
| Expectations.AnyElement | src/RPBase/Css2Xpath/Parser.php:395-418 | `*` translates to `/*/descendant::*` (ParserTest.php lines 10-13). |
| Expectations.IdAlone | src/RPBase/Css2Xpath/Parser.php:93-110 | `#a` translates to `/*/descendant::*[@id="a"]` for every value `a` (ParserTest.php lines 20-23). |
| Expectations.ClassAlone | src/RPBase/Css2Xpath/Parser.php:93-110 | `.b` translates to `/*/descendant::*[contains(concat(" ", @class, " "), " b ")]` for every value `b` (ParserTest.php lines 25-28). |
| Expectations.TranslateBlock | src/RPBase/Css2Xpath/Parser.php:93-110 | A printed attribute block alone translates to one descendant step with its attribute test. |
| Expectations.AttributePresent | src/RPBase/Css2Xpath/Parser.php:93-110 | `[name]` translates to `/*/descendant::*[@name]` (ParserTest.php lines 30-33). |
| Expectations.AttributeWithValue | src/RPBase/Css2Xpath/Parser.php:93-110 | `[name<op>"v"]` translates to one descendant step with the test of that matcher, for every name, known operator and value (ParserTest.php lines 35-68, except `*=`). |
| Expectations.IdThenClass | src/RPBase/Css2Xpath/Parser.php:93-110 | `#a > .b` and `#a .b` translate to the id test, then a child or descendant step with the class test (ParserTest.php lines 121-129). |
| Expectations.IdThenAnyChild | src/RPBase/Css2Xpath/Parser.php:93-110 | `#a > *` translates to the id test followed by `/*` (ParserTest.php lines 131-134). |
| Expectations.TagNthChild | src/RPBase/Css2Xpath/Parser.php:368-372 | `t:nth-child(d)` for digits `d` translates to the tag test and `[position() = d]` (ParserTest.php lines 96-99). |
| Expectations.TagFirstChild | src/RPBase/Css2Xpath/Parser.php:362-363 | `t:first-child` translates to the tag test and `[position() = 1]` (ParserTest.php lines 86-89). |
| Expectations.TagLastChild | src/RPBase/Css2Xpath/Parser.php:365-366 | `t:last-child` translates to the tag test and `[position() = last()]` (ParserTest.php lines 91-94). |
| Expectations.TagClassStart | src/RPBase/Css2Xpath/Parser.php:93-110 | `t.c[n^="v"]` translates to the tag test, the class test and the `starts-with` test, in that order (ParserTest.php lines 81-84). |
| Expectations.DigitsBalanced | src/RPBase/Css2Xpath/Parser.php:276-290 | Digits hold no parentheses, so an `nth-child` value of digits is read to its `)`. |
| Failures.BlockFails | src/RPBase/Css2Xpath/Parser.php:144-158 | An attribute block at the start of a piece fails the whole scan with the block's message. |
| Failures.UnclosedBlock | src/RPBase/Css2Xpath/Parser.php:149-158 | `[name` followed by a character that is no letter, operator, quote, space, `>` or `]` fails with "']' expected" at that character. `[href+"url"]` gives offset 5 and `+` (ParserTest.php lines 70-74). |
| Failures.UnknownMatcher | src/RPBase/Css2Xpath/Parser.php:215-227 | A run of operator characters that spells no matcher fails with "Unrecognized matcher" at the offset after it. `[href*="url"]` fails at offset 7 on `*=`. |
| Failures.QuoteSkipsCharacter | src/RPBase/Css2Xpath/Parser.php:151-158 | A non-value character right after `"` is taken as the closing quote, and `]` is expected after it. `[href^="/url"]` fails at offset 9 on `u`. |
| Failures.TagThenStray | src/RPBase/Css2Xpath/Parser.php:164-166 | A tag name followed by a character that starts no token never finishes scanning. |
| Failures.DigitAfterTag | src/RPBase/Css2Xpath/Parser.php:164-166 | `h1` never finishes scanning: the digit stops the cursor. |
| Failures.SiblingCombinator | src/RPBase/Css2Xpath/Parser.php:164-166 | `a+b` never finishes scanning: `+` is not a combinator here. |

## Left out

- Regular expressions. The one-character patterns and the `nth-child` pattern are
  written out by hand; PHP's regex engine is not part of this model.
- NthChild.IsNumeric: accepts an optional sign followed by digits only. PHP's
  `is_numeric` also accepts leading whitespace, a decimal point (`.5`, `1.0`) and
  an exponent (`1e3`). Such values take the modulo branch here.
- NthChild.NthOffset: follows PHP 7 arithmetic, where an empty capture group
  counts as 0. It does not model integer overflow to floating point for very
  long digit runs, nor the stricter handling of non-numeric strings in later
  PHP versions.
- The exception class `MalformedCssExpressionException` is not part of this
  model. A throw is a `Malformed` result with the same message.
- Non-termination. Where `extractRules` loops forever (the cursor stops on a
  character that starts no token), the model returns `Diverges` instead.
- RoundTrip.TranslatePrinted: requires that the printed piece hold no comma.
  `_parse` splits the whole selector at every comma, even one inside a `:not(...)`
  value, so such a piece is not translated as one.
- Strings are modelled as sequences of characters standing for bytes; multi-byte
  encodings are not modelled.
- tests/bootstrap.php (class autoloading) is not part of this model.
- The `contains(@A, "V")` rendering that ParserTest.php line 52 expects for `*=`
  is not modelled, because `mkXpathAttributeSelector`
  (src/RPBase/Css2Xpath/Parser.php:322-352) has no such case.
