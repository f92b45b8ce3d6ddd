# wypal — a verified model of the cleaning pipeline, the word diff and the undo history

wypal is a browser tool that cleans text pasted from AI chat assistants. It
strips markdown and normalises typography, AI phrasing and layout. It shows a
word-level before/after diff and keeps an undo/redo history of cleaned outputs.
This project models the three parts of it that hold logic, in Dafny, and proves
what they guarantee:

- **The cleaning pipeline** (`js/formatting.js`).
  - `cleanText` runs up to nineteen rules, each behind a flag, in a fixed order.
    It then trims the text and returns the text, the change messages and the
    two lengths.
  - `suggestEmDash` picks the em-dash replacement used by the `auto` strategy.
  - The preset buttons and the reset button rewrite the options record.
- **The word diff** (`js/diff.js`).
  - `tokenize` cuts a text into runs of whitespace and of other characters.
  - `diffTokens` fills an LCS table backwards and walks it forwards, emitting
    `same`, `removed` and `added` ops.
  - `escapeHtml` escapes a token. `renderBefore` and `renderAfter` build the two
    HTML views, and `wipaDiff` ties these together.
- **The undo history** (`js/undo.js`).
  - The `stack` record holds `past`, `current` and `future`.
  - `pushSnapshot`, `undo` and `redo` change it.
  - The button states come from `setButtons`.

Files:

- `strings.dfy` (module `Strings`): the character classes of JavaScript regular
  expressions (`\s`, line terminators, `\w`). It also has greedy runs,
  character-class replacement, the decimal rendering of counts and
  `String.prototype.trim`.
- `patterns.dfy` (module `Patterns`): each regular expression of `cleanText` as
  an explicit matcher. The matchers follow the backtracking order of the
  JavaScript engine, including `^`/`$` with and without the `m` flag, `\b` and
  the italic look-behind. `Replace` is the global `String.prototype.replace`,
  together with the match count `(text.match(re) || []).length`.
- `cleaning.dfy` (module `Cleaning`):
  - Each rule's effect as a function (`Stage`). Every rule but the dashes
    rule is a counted rule: its effect (`Effect`) and the words of its message
    (`Wording`) are kept apart.
  - The pipeline as a left fold over the rule order (`Run`).
  - `cleanText` as a method that reassigns `text` and appends to `changes`
    block by block. Each block is proved against `Then`, its specification.
- `options.dfy` (module `Options`): the presets and the options record as a
  class. The preset loop runs over the record's keys and updates the record in
  place. Reset is the `Object.assign`.
- `diff.dfy` (module `Diff`):
  - the tokenizer;
  - the LCS recurrence and the walk it drives (`Lcs`, `Script`);
  - the imperative table fill and walk over an `array2`;
  - escaping, with its inverse;
  - the two renderers, and what a reader sees in them (`Visible`).
- `undo.dfy` (module `Undo`): the stack as a class whose methods are proved
  against functions on a `History` value.

Some of what the code does is easy to miss; the model does it too:

- **Unknown em-dash strategy.** A strategy other than `auto`, `hyphen`,
  `colon`, `period` and `remove` replaces every em dash by `, ` and puts the
  raw name in the change message (`Cleaning.DashText`, `Cleaning.DashesRule`).
- **The "before" view.** `renderBefore` emits the kept and removed tokens and
  also the added ones, unwrapped. `renderAfter` likewise also emits the
  removed ones. Both views therefore show the same text and differ only in
  what they highlight (`Diff.WipaDiff`).
- **The links rule** can never match, because its pattern puts `$$` after the
  `]`.
- **The parenthetical rule.** Its closing pattern fires only on a comma that
  is followed by nothing but whitespace up to the end of the text, and turns
  the comma and that whitespace into `)`. Its opening pattern has the same
  `$$` defect as the links rule and never matches.
- **The lists rule** takes both of its counts on the text it starts from.
- **The code rule** counts fences after inline code has been replaced.

## Model

| member | source | states |
|---|---|---|
| Strings.Trim | js/formatting.js:325 | the trimmed text neither starts nor ends with whitespace; it is a slice of the input with only whitespace cut off on either side; it is empty exactly when the input is all whitespace |
| Strings.SkipWs | js/formatting.js:325 | the scan past leading whitespace stops at the first other character, or at the end |
| Strings.BackWs | js/formatting.js:325 | the scan back over trailing whitespace stops just after the last other character, or at the lower bound |
| Strings.CountIn | js/formatting.js:244 | the count of a character class's matches is at most the length and is zero exactly when no character of the class occurs |
| Strings.ReplaceChars | js/formatting.js:245 | a global character-class replacement leaves no character of the class when the replacement has none; a one-character replacement maps position by position; with no match the text is unchanged |
| Strings.ReplaceCharsLength | js/formatting.js:245 | each match trades one character for the whole replacement, so the length changes by the replacement's extra length per match |
| Strings.ReplaceCharsAppend | js/formatting.js:245 | character-class replacement distributes over concatenation |
| Strings.Dec | js/formatting.js:201 | the count interpolated into a message is a non-empty string of digits without a leading zero |
| Strings.ParseDecOfDec | js/formatting.js:201 | the count in a message reads back as exactly the number of matches |
| Strings.FindFrom | js/formatting.js:199 | the lazy `.*?` stops at the first occurrence of the closing delimiter, and there is none when it finds none |
| Strings.SpanExact | js/formatting.js:318 | a greedy run ends exactly where the class stops |
| Patterns.MatchBold | js/formatting.js:199-200 | a match lies within the text and is exactly four characters (the two `**`) longer than its replacement |
| Patterns.MatchItalic | js/formatting.js:204-205 | a match lies within the text and is exactly two characters (the two `*`) longer than its replacement |
| Patterns.ItalicClose | js/formatting.js:204-205 | the closing `*` found is the first one with no whitespace before it and no `*` after it |
| Patterns.MatchHeader | js/formatting.js:209-210 | a match lies within the text and is at least two characters (a `#` and a whitespace) longer than its replacement |
| Patterns.MatchMark | js/formatting.js:214-216 | a match lies within the text and is at least two characters (the mark and a whitespace) longer than its replacement |
| Patterns.MatchNumber | js/formatting.js:215-216 | a match lies within the text and is at least three characters (a digit, the dot and a whitespace) longer than its replacement |
| Patterns.MatchLink | js/formatting.js:220-221 | a match lies within the text (none ever happens: see `Cleaning.LinksNeverMatch`) |
| Patterns.MatchInlineCode | js/formatting.js:225-226 | a match lies within the text and is exactly two characters (the backticks) longer than its replacement |
| Patterns.MatchCodeFence | js/formatting.js:227-228 | a match lies within the text and is exactly six characters (the two fences) longer than its replacement |
| Patterns.MatchTableRow | js/formatting.js:237-238 | a match lies within the text and is no shorter than its replacement |
| Patterns.CollapseHyphens | js/formatting.js:238 | collapsing runs of hyphens keeps every other character in order, leaves no two hyphens side by side, never lengthens the line and keeps whether it starts with a hyphen |
| Patterns.TableCells | js/formatting.js:238 | the rewritten table line has no `|` and no two adjacent hyphens; apart from hyphens it is the original with every `|` turned into a space; it is no longer than the original |
| Patterns.MatchPhrase | js/formatting.js:283 | a match lies within the text and is longer than its replacement by at least the letters of the phrase |
| Patterns.MatchWsCollapse | js/formatting.js:285 | a match lies within the text and is longer than its replacement |
| Patterns.TransitionTail | js/formatting.js:289 | `,?\s+` after a transition matches exactly when a whitespace, or a comma and a whitespace, follows; the match ends after the whole whitespace run that follows the optional comma |
| Patterns.TryTransitions | js/formatting.js:289 | the match is the first transition, in the order of the alternation, whose tail matches, and removes at least nine characters; there is none exactly when no alternative matches |
| Patterns.MatchTransition | js/formatting.js:289 | a match lies within the text and is at least nine characters longer than its replacement |
| Patterns.HedgeTail | js/formatting.js:295 | `\b[:,]?\s*` after a hedge matches exactly at a word end; the match ends after the whole whitespace run that follows the optional `:` or `,` |
| Patterns.TryHedges | js/formatting.js:295 | the match is the first hedge, in the order of the alternation, whose tail matches, and removes at least five characters; there is none exactly when no alternative matches |
| Patterns.MatchHedge | js/formatting.js:295 | a match lies within the text and is at least five characters longer than its replacement |
| Patterns.MatchParenOpen | js/formatting.js:302 | a match lies within the text (none ever happens: see `Cleaning.ParenOpenNeverMatches`) |
| Patterns.MatchParenClose | js/formatting.js:302 | a match lies within the text and is no shorter than its replacement |
| Patterns.MatchParenEither | js/formatting.js:301 | a match lies within the text and is no shorter than its replacement |
| Patterns.LastLineEnd | js/formatting.js:308-309 | the trailing `\s*` of a separator gives back to the last line end it took |
| Patterns.MatchSeparator | js/formatting.js:308-309 | a match lies within the text and is at least three characters (the marks) longer than its replacement |
| Patterns.MatchBreakRun | js/formatting.js:313-314 | a match lies within the text and is longer than its replacement |
| Patterns.MatchSpaceRun | js/formatting.js:318-319 | a match lies within the text and is longer than its replacement |
| Patterns.MatchTrailingBlank | js/formatting.js:320-321 | a match lies within the text and is longer than its replacement |
| Patterns.Match | js/formatting.js:198-323 | every match of every pattern takes at least one character and removes at least (for bold, italic and code exactly) the pattern's fixed characters |
| Patterns.Replace | js/formatting.js:199-200 | a global replace with no match leaves the text unchanged; each match shortens the text by at least the pattern's fixed characters (exactly, for bold, italic and code); for a markdown or separator pattern, the text outside the pattern's marker characters is the same before and after |
| Patterns.ReplaceKeepsRuns | js/formatting.js:312-323 | a `\n{3,}`, ` {2,}` or `[ \t]+$` replacement takes out and puts back only line feeds, spaces, or spaces and tabs: every other character is kept, in order |
| Patterns.MatchDrops | js/formatting.js:199-309 | a match of a markdown or separator pattern removes only that pattern's marker characters: outside them, the match and its replacement are the same |
| Cleaning.Rank | js/formatting.js:197-323 | every rule has its own place in the order `cleanText` runs them |
| Cleaning.Note | js/formatting.js:201 | a message is pushed exactly when the rule's count is non-zero, and it carries that count |
| Cleaning.Messages | js/formatting.js:194 | `changes` holds one message per report, in the same order |
| Cleaning.MessagesAppend | js/formatting.js:201 | appending to `changes` appends the new rule's messages after the earlier ones |
| Cleaning.SmartQuotesRule | js/formatting.js:243-247 | curly double and single quotes become straight quotes one for one, every other character stays; the count is the number of curly quotes |
| Cleaning.SmartQuotesLeaveNone | js/formatting.js:243-247 | no curly quote is left after the rule |
| Cleaning.EllipsisRule | js/formatting.js:248-252 | no `…` is left, each one adds two characters, and the count is the number of them; apart from `…` and `.`, every character of the input is kept, in order |
| Cleaning.BulletsRule | js/formatting.js:253-257 | each `•`, `◦`, `▪` becomes `-` at the same position, and the count is the number of them |
| Cleaning.DashText | js/formatting.js:264-268 | the replacement contains no dash, and it is `, ` exactly when the strategy is none of `hyphen`, `colon`, `period`, `remove` (so `comma` and unknown names included); it is made only of `-`, space, `,`, `:` and `.` |
| Cleaning.FlankedHereIff | js/formatting.js:332 | the greedy reading of `[A-Za-z0-9]\s*—\s*[A-Za-z0-9]` matches at a position exactly when some split of the whitespace does |
| Cleaning.FlankedAtIsGreedy | js/formatting.js:332 | any match of the flanked pattern is the one the greedy `\s*` finds |
| Cleaning.ColonDashHereIff | js/formatting.js:334 | the greedy reading of `[:;]\s*—` matches at a position exactly when some split does |
| Cleaning.FlankedFromIff | js/formatting.js:332 | the scan finds a flanked dash from a position on exactly when one exists there |
| Cleaning.WsGap | js/formatting.js:332 | a whitespace gap that ends at an em dash or an alphanumeric is exactly what the greedy `\s*` consumes |
| Cleaning.ColonDashFromIff | js/formatting.js:334 | the scan finds `:` or `;` before a dash exactly when one exists |
| Cleaning.SuggestEmDash | js/formatting.js:331-337 | the suggestion is always `comma` or `colon` |
| Cleaning.SuggestEmDashColon | js/formatting.js:331-337 | the suggestion is `colon` exactly when no em dash sits between two alphanumerics and some em dash follows `:` or `;` |
| Cleaning.DashesRule | js/formatting.js:258-279 | the counts are the em and en dashes of the input; `auto` uses the suggestion and any other strategy is used as given; no em or en dash is left; the length changes by the replacement's extra length per em dash; apart from dashes and the characters a replacement is made of (`-`, space, `,`, `:`, `.`), every character of the input is kept, in order |
| Cleaning.EmDashes | js/formatting.js:259-270 | the count is the number of em dashes; none is left; en dashes are neither added nor removed; the length grows by the replacement's extra length per dash; apart from em dashes and the replacement's own characters, every character is kept, in order |
| Cleaning.EnDashes | js/formatting.js:274-276 | the count is the number of en dashes; each becomes `-` and every other character stays in place |
| Cleaning.DashNotes | js/formatting.js:259-278 | one report per non-zero count, so at most two, all for the dashes rule and with positive counts |
| Cleaning.DashesMessages | js/formatting.js:259-278 | the messages are the em-dash message and then the en-dash message, each present exactly when its count is non-zero |
| Cleaning.ReplaceDashes | js/formatting.js:259-278 | the em-dash replacement followed by the en-dash replacement leaves exactly the dashes rule's text and messages |
| Cleaning.CountInReplaceOther | js/formatting.js:274 | replacing em dashes leaves the number of en dashes unchanged |
| Cleaning.PhrasePass | js/formatting.js:285 | a formulaic pattern that does not occur leaves the text alone, and a pass never lengthens it |
| Cleaning.Phrases | js/formatting.js:283-286 | the formulaic loop never lengthens the text and leaves it alone when it counts nothing |
| Cleaning.ParentheticalRule | js/formatting.js:300-304 | the count is 0 or 1, and it is 1 exactly when the text ends in a comma plus optional whitespace; the comma and whitespace then become `)`; otherwise the text is unchanged |
| Cleaning.ParenOpenNeverMatches | js/formatting.js:302 | the `$$\s{2,}` replacement never changes the text |
| Cleaning.ParenEitherIsClose | js/formatting.js:301 | the counting pattern counts exactly what the closing pattern replaces |
| Cleaning.ParenCloseSpec | js/formatting.js:302 | the closing pattern matches once when the text ends in a comma plus whitespace, and turns that into `)`; otherwise it matches nothing |
| Cleaning.TrimRightWsTail | js/formatting.js:302 | trailing whitespace after one character trims away |
| Cleaning.ParenCloseAtEnd | js/formatting.js:302 | a match of the closing pattern takes the rest of the text |
| Cleaning.ParenCloseWsTail | js/formatting.js:302 | a text of one non-comma character plus whitespace has nothing to close |
| Cleaning.ParenCloseInside | js/formatting.js:302 | a character before the real end does not change what the closing pattern does |
| Cleaning.TrimRightStep | js/formatting.js:302 | whether a text ends in a comma does not depend on an earlier character |
| Cleaning.BreakRunClears | js/formatting.js:313-314 | after `\n{3,}` → `\n\n` no run of three line feeds is left |
| Cleaning.BreakHitStep | js/formatting.js:314 | a collapsed run of line feeds followed by clean text is clean |
| Cleaning.BreakKeepStep | js/formatting.js:314 | a kept character before clean text does not start a run of three |
| Cleaning.SpaceRunClears | js/formatting.js:318-319 | after ` {2,}` → ` ` no two spaces are adjacent |
| Cleaning.SpaceHitStep | js/formatting.js:319 | a collapsed space before clean text makes no double space |
| Cleaning.SpaceKeepStep | js/formatting.js:319 | a kept character before clean text makes no double space |
| Cleaning.TrailingBlankClears | js/formatting.js:320-321 | after `[ \t]+$` → `` no line ends in a space or tab, and no double space is created |
| Cleaning.TrailNextKept | js/formatting.js:321 | inside a run of blanks that does not end its line, the next character is kept |
| Cleaning.TrailHitStep | js/formatting.js:321 | removing blanks in front of a line end keeps the output clean |
| Cleaning.TrailKeepStep | js/formatting.js:321 | a kept character before clean output keeps it clean |
| Cleaning.SpacingKeepsText | js/formatting.js:317-323 | the space-run pass followed by the trailing-blank pass keeps every character other than spaces and tabs, in order |
| Cleaning.SpacingRule | js/formatting.js:317-323 | after the spacing rule no two spaces are adjacent and no line ends in a blank; with a zero count the text is unchanged; apart from spaces and tabs, every character is kept, in order |
| Cleaning.BreaksRule | js/formatting.js:312-316 | after the breaks rule no run of three line feeds is left; each match shortens the text; with a zero count the text is unchanged; apart from line feeds, every character is kept, in order |
| Cleaning.RunAllOff | js/formatting.js:198-323 | with every flag off no rule changes the text or reports anything |
| Cleaning.RunReports | js/formatting.js:198-323 | the reports come only from enabled rules with non-zero counts, in execution order, at most one per rule except two for dashes |
| Cleaning.ReportsWiden | js/formatting.js:198-323 | a disabled rule adds no report |
| Cleaning.ReportsAppend | js/formatting.js:198-323 | the reports of an enabled rule come after those of every earlier rule |
| Cleaning.OrderIncreasing | js/formatting.js:198-323 | the rules run in the order of their rank |
| Cleaning.RunAppend | js/formatting.js:197-323 | running two groups of rules is running the first and then the second |
| Cleaning.RunThree | js/formatting.js:197-323 | a list of three rules runs its rules one after the other |
| Cleaning.RunFour | js/formatting.js:197-323 | a list of four rules runs its rules one after the other |
| Cleaning.OrderInGroups | js/formatting.js:197-323 | the whole order runs as the markdown, typography, AI-pattern and structural groups one after the other |
| Cleaning.Counted | js/formatting.js:198-323 | a counted rule leaves its own text and at most one report, for itself and with its count, which is positive |
| Cleaning.CountedMessages | js/formatting.js:198-323 | a counted rule adds its message exactly when its count is non-zero |
| Cleaning.BoldKeepsText | js/formatting.js:199-200 | the bold pass removes only asterisks, exactly four per match, and keeps every other character in order |
| Cleaning.ItalicKeepsText | js/formatting.js:204-205 | the italic pass removes only asterisks, exactly two per match, and keeps every other character in order |
| Cleaning.HeadersKeepText | js/formatting.js:209-210 | the header pass removes only `#` and whitespace, at least two characters per match, and keeps every other character in order |
| Cleaning.ListsKeepText | js/formatting.js:214-216 | the bullet and number passes remove only whitespace, `-`, `*`, `+`, digits and dots, and keep every other character in order |
| Cleaning.CodeKeepsText | js/formatting.js:225-228 | the two code passes remove only backticks, two per inline span and six per fence, and keep every other character in order |
| Cleaning.QuotesKeepText | js/formatting.js:232-233 | the blockquote pass removes only `>` and whitespace, and keeps every other character in order |
| Cleaning.TablesKeepText | js/formatting.js:237-238 | the table pass removes only pipes, spaces and hyphens, and keeps every other character in order |
| Cleaning.SeparatorsKeepText | js/formatting.js:308-309 | the separator pass removes only `-`, `_`, `*` and whitespace, at least three characters per match, and keeps every other character in order |
| Cleaning.Effect | js/formatting.js:198-323 | a counted rule that counts nothing leaves the text unchanged, so no change goes unreported |
| Cleaning.Wording | js/formatting.js:201-322 | every message sets its count apart from its words by a space or a parenthesis |
| Cleaning.Stage | js/formatting.js:198-323 | every rule reports only itself, with a non-zero count, at most once, except that dashes can report twice |
| Cleaning.Then | js/formatting.js:198-323 | a rule whose flag is off changes neither the text nor the reports |
| Cleaning.Run | js/formatting.js:197-323 | the rules run in order keep the reports already made, and every new report comes from a rule of the list whose flag is on, with a non-zero count |
| Cleaning.ThenCounted | js/formatting.js:198-323 | a counted rule changes the text only when its flag is set, and adds its message only when its flag is set and its count is non-zero |
| Cleaning.BoldStep | js/formatting.js:198-202 | the bold block leaves the text and messages of running the bold rule when its flag is on, and changes nothing when it is off |
| Cleaning.ItalicStep | js/formatting.js:203-207 | the italic block leaves exactly the text and messages the italic rule specifies when its flag is on, and changes nothing when it is off |
| Cleaning.HeadersStep | js/formatting.js:208-212 | the headers block leaves exactly what the headers rule specifies, gated by its flag |
| Cleaning.ListsStep | js/formatting.js:213-218 | the lists block leaves exactly what the lists rule specifies, with both counts taken first, gated by its flag |
| Cleaning.LinksStep | js/formatting.js:219-223 | the links block leaves exactly what the links rule specifies, gated by its flag |
| Cleaning.CodeStep | js/formatting.js:224-230 | the code block leaves exactly what the code rule specifies, gated by its flag |
| Cleaning.BlockquotesStep | js/formatting.js:231-235 | the blockquotes block leaves exactly what the blockquotes rule specifies, gated by its flag |
| Cleaning.TablesStep | js/formatting.js:236-240 | the tables block leaves exactly what the tables rule specifies, gated by its flag |
| Cleaning.SmartQuotesStep | js/formatting.js:243-247 | the smart-quotes block leaves exactly what the smart-quotes rule specifies, gated by its flag |
| Cleaning.EllipsisStep | js/formatting.js:248-252 | the ellipsis block leaves exactly what the ellipsis rule specifies, gated by its flag |
| Cleaning.BulletsStep | js/formatting.js:253-257 | the bullets block leaves exactly what the bullets rule specifies, gated by its flag |
| Cleaning.DashesStep | js/formatting.js:258-279 | the dashes block leaves exactly the text of the dashes rule, and one message for em dashes and one for en dashes when each count is non-zero, gated by its flag |
| Cleaning.FormulaicStep | js/formatting.js:282-287 | the formulaic block leaves exactly what the formulaic loop specifies, gated by its flag |
| Cleaning.TrimFormulaic | js/formatting.js:284-285 | the loop over the three phrase patterns computes the text and total count of the formulaic rule |
| Cleaning.TransitionsStep | js/formatting.js:288-293 | the transitions block leaves exactly what the transitions rule specifies, gated by its flag |
| Cleaning.HedgingStep | js/formatting.js:294-299 | the hedging block leaves exactly what the hedging rule specifies, gated by its flag |
| Cleaning.ParentheticalStep | js/formatting.js:300-304 | the parenthetical block leaves exactly what the parenthetical rule specifies, gated by its flag |
| Cleaning.SeparatorsStep | js/formatting.js:307-311 | the separators block leaves exactly what the separators rule specifies, gated by its flag |
| Cleaning.BreaksStep | js/formatting.js:312-316 | the breaks block leaves exactly what the breaks rule specifies, gated by its flag |
| Cleaning.SpacingStep | js/formatting.js:317-323 | the spacing block leaves exactly what the spacing rule specifies, gated by its flag |
| Cleaning.MarkdownRulesStep | js/formatting.js:197-240 | the markdown blocks together leave the text and messages of the markdown rules run in order |
| Cleaning.TypographyRulesStep | js/formatting.js:242-279 | the typography blocks together leave the text and messages of the typography rules run in order |
| Cleaning.PhraseRulesStep | js/formatting.js:281-304 | the AI-pattern blocks together leave the text and messages of those rules run in order |
| Cleaning.StructureRulesStep | js/formatting.js:306-323 | the structural blocks together leave the text and messages of those rules run in order |
| Cleaning.CleanText | js/formatting.js:192-329 | `beforeLen` is the input's length and `afterLen` the output's; the text is the trimmed result of the enabled rules in order and has no leading or trailing whitespace; `changes` are those rules' messages; with every flag off the result is the trimmed input and no change |
| Cleaning.CleanTextReports | js/formatting.js:198-323 | the change messages come from enabled rules with non-zero counts, in execution order, at most one per rule and at most two, adjacent, for dashes |
| Cleaning.SliceNoDoubleSpace | js/formatting.js:325 | a slice of a text without double spaces has none |
| Cleaning.SliceNoTrailingBlank | js/formatting.js:325 | a slice that does not end in whitespace keeps every blank followed by a non-line-end |
| Cleaning.TrimKeepsSpacing | js/formatting.js:325 | the final trim keeps the spacing rule's guarantees |
| Cleaning.CleanedSpacing | js/formatting.js:317-325 | with the spacing rule on, the returned text has no double space and no line ending in a blank |
| Cleaning.LinksNeverMatch | js/formatting.js:220-221 | the links pattern never matches, so the replacement changes nothing and the count is zero |
| Cleaning.LinksStageNoOp | js/formatting.js:219-223 | the links rule never changes the text and never reports |
| Options.Settings.constructor | js/formatting.js:45-56 | the page starts with every flag on, which is the `deep` preset, and strategy `auto` |
| Options.Settings.ApplyPreset | js/formatting.js:66-77 | an unknown preset changes nothing; a known one sets every flag of the record to whether the preset lists it, adds no flag, and leaves the strategy alone |
| Options.Settings.Reset | js/formatting.js:115-120 | reset copies the `deep` flags over the record and sets the strategy to `auto` |
| Options.WithPreset | js/formatting.js:70-73 | a preset keeps the set of option names, and sets each to whether the preset lists it as on, so an unlisted option is off |
| Options.PresetsShape | js/formatting.js:59-65 | there are five presets; each lists only options of the record and only to turn them on; `deep` and `nuclear` list all of them |
| Options.PresetEnables | js/formatting.js:70-73 | after a preset a rule runs exactly when the record has its flag and the preset lists it |
| Options.PresetIdempotent | js/formatting.js:70-73 | applying a preset twice is applying it once |
| Options.PresetForgetsValues | js/formatting.js:70-73 | what a preset leaves does not depend on the flags' earlier values |
| Options.ResetEnablesAll | js/formatting.js:116 | after a reset every rule runs, whatever the record held |
| Options.PresetFromStart | js/formatting.js:59-73 | from the starting record, a preset turns on exactly the rules it lists |
| Diff.ConcatAppend | js/diff.js:11 | joining tokens distributes over concatenation |
| Diff.FirstRun | js/diff.js:11 | the first token is a non-empty run of one kind, and the character after it is of the other kind |
| Diff.Tokenize | js/diff.js:9-12 | there are no more tokens than characters, and no tokens exactly when the text is empty; that the tokens join back and are maximal alternating runs is `Diff.TokenizeJoins` and `Diff.TokenizeRuns` |
| Diff.TokenizeJoins | js/diff.js:9-12 | the tokens joined in order give back the text |
| Diff.TokenizeRuns | js/diff.js:9-12 | every token is non-empty and all whitespace or whitespace-free; there are none exactly for the empty text; whitespace and other runs alternate, so every run is maximal |
| Diff.Lcs | js/diff.js:16-23 | a table entry is at most the length of either remaining side |
| Diff.LcsSteps | js/diff.js:16-23 | dropping a token from one side lowers a table entry by at most one and never raises it |
| Diff.ScriptReplays | js/diff.js:24-40 | the walk `Script` (the reference for the imperative walk) replays: its same and removed ops give back the first side, its same and added ops the second |
| Diff.ScriptCounts | js/diff.js:24-40 | the walk's same ops are as many as the table entry says |
| Diff.ScriptLength | js/diff.js:24-40 | the walk has one op per token of either side outside the common subsequence, plus one per same op: both lengths minus the table entry |
| Diff.LcsIsLongest | js/diff.js:16-23 | no alignment of the two sides keeps more tokens than the table says |
| Diff.ScriptOfSame | js/diff.js:27-29 | diffing a token list with itself gives one same op per token |
| Diff.FillTable | js/diff.js:16-23 | after the two backward loops every table entry is the LCS length of the two suffixes |
| Diff.FillRow | js/diff.js:19-21 | one pass of the inner loop fills row `i` with the LCS lengths of suffix `i` of `a` against every suffix of `b`, and leaves the rows below unchanged |
| Diff.Walk | js/diff.js:24-40 | the forward walk and the two draining loops emit exactly the alignment the recurrence defines, with the tie going to `removed` |
| Diff.DiffTokens | js/diff.js:15-41 | the ops replay both sides; the same ops are a longest common subsequence; the op count is both lengths minus its length |
| Diff.EscapeAppend | js/diff.js:43-48 | escaping distributes over concatenation |
| Diff.EscapeOne | js/diff.js:43-48 | escaping one character gives its entity, or the character itself |
| Diff.EscapeHtml | js/diff.js:43-48 | escaped text contains no `<` or `>`, so a token can never open or close a tag |
| Diff.EscapeCons | js/diff.js:43-48 | escaping works character by character from the front |
| Diff.EscapeHtmlPerChar | js/diff.js:43-48 | the three chained replacements, `&` first, escape each character exactly once |
| Diff.EscapePlain | js/diff.js:43-48 | a text without `&`, `<`, `>` is unchanged by escaping |
| Diff.UnescapeChar | js/diff.js:43-48 | the entity of each character decodes back to it |
| Diff.UnescapeEscaped | js/diff.js:43-48 | decoding per-character escaped text gives it back |
| Diff.UnescapeEscape | js/diff.js:43-48 | decoding the escaped text gives back the original, so no entity is escaped twice |
| Diff.AfterTagSkips | js/diff.js:53 | skipping a tag resumes right after its `>` |
| Diff.StripPlain | js/diff.js:53 | text without `<` passes through tag stripping |
| Diff.StripTag | js/diff.js:53 | a tag is dropped whole |
| Diff.StripWrap | js/diff.js:53 | a wrapping span shows only its body |
| Diff.BeforePieceShows | js/diff.js:51-55 | each op of the before view shows its escaped value |
| Diff.AfterPieceShows | js/diff.js:59-63 | each op of the after view shows its escaped value |
| Diff.BeforeShowsAll | js/diff.js:50-56 | the before view shows every op's value in order, the added ones included |
| Diff.AfterShowsAll | js/diff.js:58-64 | the after view shows every op's value in order, the removed ones included |
| Diff.WrapTags | js/diff.js:53 | a span around escaped text holds exactly two tags |
| Diff.BeforePieceTags | js/diff.js:51-55 | only a removed op gets tags in the before view, two of them |
| Diff.AfterPieceTags | js/diff.js:59-63 | only an added op gets tags in the after view, two of them |
| Diff.RenderBefore | js/diff.js:50-56 | the before view holds exactly two tags per removed op; that these are the span around each removed op is `Diff.BeforePieceTags` with `Diff.RenderBeforeAppend` |
| Diff.RenderBeforeAppend | js/diff.js:50-56 | the before view of two op lists in sequence is their two views concatenated, so the view is the ops' pieces in order |
| Diff.RenderAfter | js/diff.js:58-64 | the after view holds exactly two tags per added op; that these are the span around each added op is `Diff.AfterPieceTags` with `Diff.RenderAfterAppend` |
| Diff.RenderAfterAppend | js/diff.js:58-64 | the after view of two op lists in sequence is their two views concatenated, so the view is the ops' pieces in order |
| Diff.RenderUnchanged | js/diff.js:50-64 | ops that are all same render both views as the escaped text |
| Diff.DiffOfSame | js/diff.js:66-70 | diffing a text with itself renders both views as the escaped text, with nothing highlighted |
| Diff.ValuesOfSame | js/diff.js:27-29 | the values of the identity diff are the tokens |
| Diff.WipaDiff | js/diff.js:66-70 | both views render the one alignment of the two token lists; they show the same text; for equal inputs both are the escaped text |
| Undo.UndoStack.constructor | js/undo.js:17 | the history starts empty, with an empty current text |
| Undo.UndoStack.PushSnapshot | js/undo.js:34-40 | a snapshot equal to the current text changes nothing; otherwise it becomes current, the old current goes to `past` unless it was empty, and the redo list is dropped |
| Undo.UndoStack.Undo | js/undo.js:48-55 | with nothing to undo nothing changes; otherwise the last of `past` becomes current and the old current goes to the front of `future` |
| Undo.UndoStack.Redo | js/undo.js:57-64 | with nothing to redo nothing changes; otherwise the first of `future` becomes current and the old current goes to the end of `past` |
| Undo.UndoStack.Buttons | js/undo.js:19-24 | the buttons are enabled exactly when `past`, respectively `future`, is non-empty |
| Undo.Pushed | js/undo.js:34-40 | after a snapshot the text is current; the history is unchanged exactly when the snapshot equals the current text (line 35); either nothing changed or nothing is left to redo; nothing in `past` is lost and at most one text joins it |
| Undo.Undone | js/undo.js:48-55 | undo keeps all texts in their order and moves one from `past` to `future` when there is one |
| Undo.Redone | js/undo.js:57-64 | redo keeps all texts in their order and moves one from `future` to `past` when there is one |
| Undo.CanUndoIffChanges | js/undo.js:20 | undo is enabled exactly when undoing would change the history |
| Undo.CanRedoIffChanges | js/undo.js:21 | redo is enabled exactly when redoing would change the history |
| Undo.RedoUndoes | js/undo.js:48-64 | undo followed by redo restores the history exactly |
| Undo.UndoRedoes | js/undo.js:48-64 | redo followed by undo restores the history exactly |
| Undo.PushNew | js/undo.js:34-40 | a new snapshot becomes current with nothing to redo; a non-empty old current can be undone back to; an empty one is not kept |
| Undo.Walkthrough | js/undo.js:17-64 | from the start, snapshots a, b, c then two undos show b then a, a redo shows b, and a new snapshot leaves nothing to redo |

## Left out

- DOM and event wiring: element lookups, listeners, the panels, copy and download, rendering, `performance.now` timing and the debounce. These are user interface and timers.
- The writes to the em-dash suggestion element inside `cleanText`. They are a DOM side effect, and the suggestion they show is `Cleaning.SuggestEmDash`.
- `persistState`, the load-on-startup merge and `js/storage.js`. They only wrap local storage. A record loaded from storage may hold extra option names; the model allows any map of flags.
- `js/stats.js`, `js/files.js`, `js/share.js`, `js/theme.js`, `js/menu.js` and `js/formspree.js`. These are floating-point heuristics, file I/O, clipboard, theme storage, menus and network calls, and none of them is part of the cleaning, diff or history logic.
- `applyText` and the button updates of `setButtons` in `js/undo.js`, and the `DOMContentLoaded` initialisation of `current` from the output box. These are DOM updates; the button conditions themselves are `Undo.UndoStack.Buttons`.
- `src || ''` and `a || ''`: the model takes strings, so a missing input is not represented.
- Preset names inherited from `Object.prototype` (`toString`, `constructor`, …). A lookup of such a name is truthy and would turn every flag off. The buttons only carry the five preset names, and the model treats every other name as unknown.
- Cleaning.CleanText: `beforeLen` and `afterLen` count characters, while JavaScript counts UTF-16 code units. The two differ for characters outside the Basic Multilingual Plane. The rules themselves only look at characters inside it.
- Patterns.Match: its contract bounds every match (it takes at least one character and removes at least the pattern's fixed characters). What each pattern matches is stated by its matcher's definition and by the lemmas about the rules, not by this contract.
- Patterns.MatchBold: its contract only bounds the size of a match; where and what it matches is its definition, and what the rule then guarantees is stated by `Patterns.MatchDrops` and `Cleaning.BoldKeepsText`.
- Patterns.MatchItalic: its contract only bounds the size of a match; where and what it matches is its definition, and what the rule then guarantees is stated by `Patterns.MatchDrops` and `Cleaning.ItalicKeepsText`.
- Patterns.MatchHeader: its contract only bounds the size of a match; where and what it matches is its definition, and what the rule then guarantees is stated by `Patterns.MatchDrops` and `Cleaning.HeadersKeepText`.
- Patterns.MatchMark: its contract only bounds the size of a match; where and what it matches is its definition, and what the rule then guarantees is stated by `Patterns.MatchDrops` and `Cleaning.ListsKeepText`.
- Patterns.MatchNumber: its contract only bounds the size of a match; where and what it matches is its definition, and what the rule then guarantees is stated by `Patterns.MatchDrops` and `Cleaning.ListsKeepText`.
- Patterns.MatchLink: its contract only bounds the size of a match; where and what it matches is its definition, and what the rule then guarantees is stated by `Cleaning.LinksNeverMatch`.
- Patterns.MatchInlineCode: its contract only bounds the size of a match; where and what it matches is its definition, and what the rule then guarantees is stated by `Patterns.MatchDrops` and `Cleaning.CodeKeepsText`.
- Patterns.MatchCodeFence: its contract only bounds the size of a match; where and what it matches is its definition, and what the rule then guarantees is stated by `Patterns.MatchDrops` and `Cleaning.CodeKeepsText`.
- Patterns.MatchTableRow: its contract only bounds the size of a match; where and what it matches is its definition, and what the rule then guarantees is stated by `Patterns.TableCells` and `Cleaning.TablesKeepText`.
- Patterns.MatchPhrase: its contract only bounds the size of a match; where and what it matches is its definition, and what the rule then guarantees is stated by `Cleaning.PhrasePass`.
- Patterns.MatchWsCollapse: its contract only bounds the size of a match; where and what it matches is its definition, and what the rule then guarantees is stated by `Cleaning.PhrasePass`.
- Patterns.MatchTransition: its contract only bounds the size of a match; where and what it matches is its definition, and what the rule then guarantees is stated by `Patterns.TryTransitions`.
- Patterns.MatchHedge: its contract only bounds the size of a match; where and what it matches is its definition, and what the rule then guarantees is stated by `Patterns.TryHedges`.
- Patterns.MatchParenOpen: its contract only bounds the size of a match; where and what it matches is its definition, and what the rule then guarantees is stated by `Cleaning.ParenOpenNeverMatches`.
- Patterns.MatchParenClose: its contract only bounds the size of a match; where and what it matches is its definition, and what the rule then guarantees is stated by `Cleaning.ParenCloseSpec`.
- Patterns.MatchParenEither: its contract only bounds the size of a match; where and what it matches is its definition, and what the rule then guarantees is stated by `Cleaning.ParenEitherIsClose`.
- Patterns.MatchSeparator: its contract only bounds the size of a match; where and what it matches is its definition, and what the rule then guarantees is stated by `Patterns.MatchDrops` and `Cleaning.SeparatorsKeepText`.
- Patterns.MatchBreakRun: its contract only bounds the size of a match; where and what it matches is its definition, and what the rule then guarantees is stated by `Patterns.ReplaceKeepsRuns` and `Cleaning.BreakRunClears`.
- Patterns.MatchSpaceRun: its contract only bounds the size of a match; where and what it matches is its definition, and what the rule then guarantees is stated by `Patterns.ReplaceKeepsRuns` and `Cleaning.SpaceRunClears`.
- Patterns.MatchTrailingBlank: its contract only bounds the size of a match; where and what it matches is its definition, and what the rule then guarantees is stated by `Patterns.ReplaceKeepsRuns` and `Cleaning.TrailingBlankClears`.
- Patterns.Replace: the leftmost, non-overlapping global scan and the exact match count are its definition; its contract states the bounds and, for the markdown and separator patterns, which characters can be removed; for the line-feed, space and trailing-blank runs that is `Patterns.ReplaceKeepsRuns`.
- Cleaning.EllipsisRule: it states that only `…` and `.` characters differ, with the exact count and length, but not that each `…` becomes `...` at its own position; that is its definition through `Strings.ReplaceChars`, which `Strings.ReplaceCharsAppend` characterises.
- Cleaning.EmDashes: it states that only em dashes and the replacement's characters differ, with the exact count and length, but not that each em dash becomes the replacement at its own position; that is its definition through `Strings.ReplaceChars`.
- Cleaning.DashesRule: it states that only dashes and the characters a replacement is made of differ, with the exact counts and length, but not the position of each replacement; that is `Cleaning.EmDashes` and `Cleaning.EnDashes`.
- Cleaning.SpacingRule: it states that only spaces and tabs differ and that no double space or trailing blank is left, but not that each run of spaces becomes exactly one space in place; that is the definition of the two passes.
- Cleaning.BreaksRule: it states that only line feeds differ and that no run of three is left, but not that each run becomes exactly two line feeds in place; that is the definition of the pass.
- Patterns.CollapseHyphens: it does not state that each run of hyphens becomes exactly one hyphen in the place of the run; it states that the rest is kept in order and no two hyphens are left side by side.
- Patterns.TableCells: like `CollapseHyphens`, it does not state where the remaining hyphens stand.
- Cleaning.BoldKeepsText, Cleaning.ItalicKeepsText, Cleaning.CodeKeepsText, Cleaning.HeadersKeepText, Cleaning.ListsKeepText, Cleaning.QuotesKeepText, Cleaning.TablesKeepText, Cleaning.SeparatorsKeepText: they state which characters a pass can remove and that every other character is kept in order. That removed spans start a line, that bold and code markers come in pairs around the kept inner text, and that separators are runs of one mark, is the matchers' definition and not a proved property.
- Cleaning.Then: its contract covers a rule whose flag is off; what an enabled rule adds is `Cleaning.Stage`, `Cleaning.Run` and `Cleaning.RunReports`.
- Diff.Script has no contract of its own, because stating one on the function made the imperative walk too costly to verify; what it guarantees is `Diff.ScriptReplays`, `Diff.ScriptCounts` and `Diff.ScriptLength`.
- Options.Settings.Config and `Cleaning.Config`: flags are booleans and the strategy is a string. A record loaded from storage whose strategy is missing or not a string, or whose flags are truthy values other than `true`, is not represented.
- Idempotence of running the pipeline twice, disjointness of `past`/`future` from `current`, and treating an unknown strategy as `auto` are not modelled. The code does not promise them, and the last one does not hold (see `Cleaning.DashText`).
