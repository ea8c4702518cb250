# Bombieri Lead Scorer Pro — a verified model of the scoring core

Bombieri Lead Scorer Pro is a small React application that qualifies sales leads. A salesperson fills
in a questionnaire: two names, eight categorical answers chosen from fixed option tables, and a free-text
description of the need. The application then:

- turns the categorical answers into a weighted score on a 0–10 scale;
- translates the option codes into their human-readable labels;
- asks a remote service for recommendations;
- keeps a history of scored leads, newest first;
- exports that history as a CSV file.

This project models the deterministic part of that program in Dafny and proves what it promises:

| module | file | models |
|---|---|---|
| `Wrappers` | `Wrappers.dfy` | the `Option` type used for nullable state |
| `JsString` | `JsString.dfy` | the JavaScript semantics the program relies on: the white-space set of `String.prototype.trim` and `parseInt`, `trim`, and `parseInt(s, 10) \|\| 0` |
| `Types` | `Types.dfy` | the record shapes of `types.ts` and the empty form `initialLeadData` |
| `Constants` | `Constants.dfy` | the eight option tables, `WEIGHTED_CRITERIA`, `MAX_POSSIBLE_WEIGHTED_SCORE`; proofs that the tables are well formed and that 110 is their weighted maximum |
| `Scoring` | `Scoring.dfy` | the scoring loop of `handleScore`, as a method with a `for` loop proved against a specification function, and the properties of the score |
| `Labels` | `Labels.dfy` | the translation of codes into labels (`find(...)?.label \|\| 'N/A'`) |
| `Csv` | `Csv.dfy` | `escapeCsv`, the header and the rows of `handleExportToCSV`, and a reader for the CSV format against which the export is checked |
| `App` | `App.dfy` | the application state as a class, with `handleScore`, `handleClearHistory` and `handleReset`, and the invariant that every history entry was scored and translated from its own answers |
| `LeadForm` | `LeadForm.dfy` | the form's submit rule `isSubmitDisabled` and the form-state class with `handleChange`, `handleReset` and the `initialData` effect |

Scores are exact: `finalScore` is a Dafny `real`, so `weightedTotal / 110 * 10` has no rounding.
The recommendation service is represented by its outcome, a parameter of `HandleScore`: it either
returned a record or threw. The clock reading that stamps a history entry is a parameter too. So are
`toLocaleString` and `toFixed`, passed to the export as functions. The answer of `window.confirm` is a
boolean parameter.

## Model

| member | source | states |
|---|---|---|
| `Types.FieldOrderComplete` | types.ts:1-13 | a lead record has exactly eleven keys, listed once each in declaration order, with pairwise distinct property names |
| `Types.FieldNamesDistinct` | types.ts:1-13 | no two keys of the record share a property name |
| `Types.ScorableFieldsExact` | types.ts:15 | `ScorableLeadData` is the record minus `firstName`, `lastName` and `needDetails`: exactly eight distinct keys |
| `Types.WithGet` | components/LeadForm.tsx:78 | `{ ...prev, [name]: value }` changes the named key to `value` and keeps every other key |
| `Types.LeadDataExtensional` | types.ts:1-13 | two records that agree on every key are equal |
| `Types.InitialLeadDataShape` | types.ts:41-53 | the empty form holds `'0'` in every categorical key and `''` in every text key |
| `JsString.Trim` | components/LeadForm.tsx:91 | `s.trim()`: leading white space then trailing white space removed; what it removes and where it stops is stated by `TrimStartSpec` and `TrimEndSpec`, and emptiness by `TrimEmptyIffBlank` |
| `JsString.ParseIntOrZero` | App.tsx:52 | `parseInt(s, 10) \|\| 0`: leading white space skipped, one optional sign, then the longest digit run, 0 when there is none; its meaning is pinned by `ParseShow` (every rendered number reads back), `ParseNoLeadingDigitIsZero` and `LeadingDigitCountSpec` |
| `JsString.TrimStartSpec` | components/LeadForm.tsx:91 | dropping leading white space removes a run of white-space characters and stops at the first other character |
| `JsString.TrimEndSpec` | components/LeadForm.tsx:91 | dropping trailing white space removes a run of white-space characters and stops at the last other character |
| `JsString.TrimEmptyIffBlank` | components/LeadForm.tsx:91 | `s.trim()` is empty if and only if every character of `s` is white space |
| `JsString.LeadingDigitCountSpec` | App.tsx:52 | the digit run `parseInt` reads is the longest all-digit prefix |
| `JsString.DigitsValueShow` | App.tsx:52 | the digits of the decimal rendering of `n` are worth `n` |
| `JsString.LeadingDigitCountOfDigits` | App.tsx:52 | in an all-digit string, `parseInt` reads every character |
| `JsString.ParseShow` | App.tsx:52 | `parseInt` reads back the decimal rendering of every natural number |
| `JsString.ShowPositiveIsNotZero` | App.tsx:52 | no positive number renders as the sentinel `'0'` |
| `JsString.ParseNoLeadingDigitIsZero` | App.tsx:52 | a code with no decimal digit where `parseInt` starts reading (after leading white space and one optional sign), such as `''`, `'N/A'`, `'x9'` or `'- 1'`, reads as 0: `parseInt` gives NaN and `\|\| 0` replaces it, so scoring never fails |
| `JsString.ParseTen` | App.tsx:52 | the top code `'10'` reads as 10 |
| `JsString.ParseSentinelIsZero` | App.tsx:52 | the sentinel `'0'` reads as 0 |
| `Constants.Weight` | App.tsx:54 | `WEIGHTED_CRITERIA.includes(key) ? 2 : 1`; `WeightedCriteriaExact` proves it is 2 exactly for role, source and service interest and 1 for every other key |
| `Constants.MaxCode` | constants.ts:3-54 | the result is a code of the table and no code of the table exceeds it |
| `Constants.MinCode` | constants.ts:3-54 | the result is a code of the table and no code of the table is below it |
| `Constants.ScorableHasTable` | constants.ts:3-54 | every categorical key has a non-empty option table |
| `Constants.TableFromCodes` | constants.ts:3-54 | a table whose codes render a non-increasing list of positive numbers starting at 10 is well formed, and its codes read back as those numbers |
| `Constants.ShowOfCodes` | constants.ts:3-54 | the codes the tables use are the decimal renderings of 10, 8, 7, 6, 5, 4, 3 and 2 |
| `Constants.TablesWellFormed` | constants.ts:3-54 | every table starts at `'10'`, every code is a positive integer string other than `'0'`, codes never increase down the table, and the last code is the table's listed smallest |
| `Constants.RolOptionsWellFormed` | constants.ts:3-7 | the role table is well formed, with codes 10, 8, 2 |
| `Constants.IndustryOptionsWellFormed` | constants.ts:9-13 | the industry table is well formed, with codes 10, 6, 3 |
| `Constants.RevenueOptionsWellFormed` | constants.ts:15-20 | the revenue table is well formed, with codes 10, 7, 4, 2 |
| `Constants.EmployeesOptionsWellFormed` | constants.ts:22-27 | the employees table is well formed, with codes 10, 8, 5, 3 |
| `Constants.BudgetOptionsWellFormed` | constants.ts:29-33 | the budget table is well formed, with codes 10, 5, 2 |
| `Constants.ClarityOptionsWellFormed` | constants.ts:35-39 | the clarity table is well formed, with codes 10, 6, 2 |
| `Constants.SourceOptionsWellFormed` | constants.ts:41-45 | the source table is well formed, with codes 10, 6, 3 |
| `Constants.ServiceInterestOptionsWellFormed` | constants.ts:47-54 | the service-interest table is well formed, with codes 10, 10, 8, 7, 6, 4 |
| `Constants.WellFormedExtremes` | constants.ts:3-54 | in a well-formed table the largest code is 10 and the smallest is the last |
| `Constants.CodesUniqueExceptServiceInterest` | constants.ts:47-54 | codes are unique within every table, except that the service-interest table lists `'10'` twice, as its first two entries and nowhere else |
| `Constants.WeightedCriteriaExact` | constants.ts:56 | a key weighs 2 exactly when it is role, source or service interest, and 1 otherwise; all three are categorical |
| `Constants.MaxWeightedTotalIsTenTimesWeights` | constants.ts:3-57 | with every answer at its table maximum, the weighted total is ten times the sum of the weights |
| `Constants.MinWeightedTotalIsLowest` | constants.ts:3-54 | with every answer at its table minimum, the weighted total is the weighted sum of the listed smallest codes |
| `Constants.ScorableWeightSumsFront` | constants.ts:3-27 | role, industry, revenue and employees weigh 5 in total, and their weighted smallest codes sum to 12 |
| `Constants.ScorableWeightSums` | constants.ts:3-56 | the eight weights sum to 11, and the weighted smallest codes sum to 30 |
| `Constants.MaxPossibleIsConsistent` | constants.ts:57 | `MAX_POSSIBLE_WEIGHTED_SCORE` (110) is the weighted total when every answer is at its table maximum |
| `Constants.MinPossibleIsThirty` | constants.ts:3-57 | the weighted total when every answer is at its table minimum is 30 |
| `Scoring.Normalise` | App.tsx:58 | `weightedTotal / 110 * 10` in exact arithmetic; `NormaliseWithinScale` bounds it on [30, 110] and `AllTensScoreTen` and `LowestAnswersScoreMinimum` show both ends reached |
| `Scoring.Score` | App.tsx:46-59 | the score and breakdown of a record; `ScoreLead` proves the source's loop computes it, and `WeightedTotalClosedForm`, `WeightedSumPermutation`, `ScoreWithinScale` and `RaiseField` state its meaning |
| `Scoring.ScoreLead` | App.tsx:46-59 | the loop's result is the score of the record; its breakdown has exactly the eight categorical keys, each mapped to `parseInt(value, 10) \|\| 0` |
| `Scoring.WeightedSumSnoc` | App.tsx:55 | visiting one more key adds that key's weighted value to the running total |
| `Scoring.BreakdownSnoc` | App.tsx:50-53 | visiting one more key records it in the breakdown when it is scored, and leaves the breakdown unchanged when it is skipped |
| `Scoring.BreakdownKeys` | App.tsx:49-53 | the breakdown of a whole record has exactly the eight scorable keys; the names and `needDetails` never appear |
| `Scoring.WeightTable` | App.tsx:50-54 | the two names and `needDetails` are skipped; role, source and service interest weigh 2 and the other five weigh 1 |
| `Scoring.WeightedTotalPrefix` | App.tsx:49-56 | the first six keys visited contribute twice the role value plus the industry, revenue and employees values |
| `Scoring.WeightedTotalClosedForm` | App.tsx:49-56 | the loop's total is twice role, source and service interest plus the other five values |
| `Scoring.ScorableSumPrefix` | App.tsx:49-56 | the first four scorable keys contribute twice the role value plus the industry, revenue and employees values |
| `Scoring.ScorableSumClosedForm` | App.tsx:49-56 | summing over the eight scorable keys alone gives the same closed form |
| `Scoring.WeightedSumRemove` | App.tsx:55 | taking one key out of the visiting order takes its contribution out of the total |
| `Scoring.WeightedSumPermutation` | App.tsx:49-56 | the total does not depend on the order the keys are visited in |
| `Scoring.TextFieldsIrrelevant` | App.tsx:50 | two records that agree on the eight categorical keys get the same score and breakdown, whatever their names and need description |
| `Scoring.AllZeroScoresZero` | App.tsx:52-58 | a record whose categorical answers all read as 0 scores 0, with every breakdown entry 0 |
| `Scoring.InitialScoresZero` | types.ts:41-53 | the empty form scores 0 |
| `Scoring.AllTensScoreTen` | App.tsx:58 | every categorical answer at `'10'` gives a weighted total of 110 and a score of exactly 10 |
| `Scoring.WeightedSumWithinTables` | App.tsx:49-56 | over scorable keys with answers from their tables, the sum lies between the all-minimum and all-maximum totals |
| `Scoring.WeightedTotalWithinTables` | App.tsx:49-56 | answers drawn from the tables give a weighted total between 30 and 110 |
| `Scoring.NormaliseWithinScale` | App.tsx:58 | normalising a total between 30 and 110 lands between 30/110·10 and 10 |
| `Scoring.ScoreWithinScale` | App.tsx:58 | answers drawn from the tables score between 30/110·10 and 10, so always above 0 |
| `Scoring.LowestAnswersFromTables` | constants.ts:3-54 | the answers "2", "3", "2", "3", "2", "2", "3", "4" (each table's last option) are answers from the tables |
| `Scoring.LowestAnswersTotal` | App.tsx:49-56 | those answers give a weighted total of 30 |
| `Scoring.LowestAnswersScoreMinimum` | App.tsx:58 | the minimum is reached: a lead with those answers has answers from the tables and scores exactly 30/110·10 |
| `Scoring.RaiseField` | App.tsx:54-58 | raising key F from `'0'` to a code raises the score by weight(F) · value · 10 / 110 |
| `Scoring.WeightedCriteriaCountDouble` | App.tsx:54 | the same change moves the score twice as far on a weighted key as on an unweighted one |
| `Labels.Find` | App.tsx:67 | `find` returns nothing exactly when no option has the code, and otherwise the first option that has it |
| `Labels.LabelOf` | App.tsx:67 | the label is never empty, and it is `'N/A'` when no option has the code |
| `Labels.LabelOfFirstMatch` | App.tsx:67 | with non-trivial labels, the label of a code is the label of its first option, not `'N/A'` |
| `Labels.TablesLabelled` | constants.ts:3-54 | every option label is longer than `'N/A'` |
| `Labels.Translate` | App.tsx:64-76 | the readable copy of a record; `TranslateGet` (key by key: label lookup in the key's own table, text keys copied), `TranslateSelected` (an option translates to its own label) and `UnknownCodeIsNotAvailable` (a missing code gives `'N/A'`) state its meaning |
| `Labels.TranslateGet` | App.tsx:64-76 | each categorical key of the readable copy is the label looked up in its own table; the names and the need description are copied unchanged |
| `Labels.UnknownCodeIsNotAvailable` | App.tsx:67-75 | a code missing from the key's table translates to `'N/A'` |
| `Labels.TranslateInitial` | types.ts:41-53 | the empty form translates to blank names and `'N/A'` in every categorical key |
| `Labels.TranslateSelected` | App.tsx:67-75 | choosing the i-th option translates to that option's label, except for the second service-interest option |
| `Labels.ServiceInterestLabelsDistinct` | constants.ts:47-54 | the second service-interest label differs from every other label in its table |
| `Labels.SecondServiceInterestUnreachable` | constants.ts:48-49 | no code translates to "IA Operativa & Agentes Inteligentes"; code `'10'` translates to "Estrategia y Transformación" |
| `Csv.DoubleQuotes` | App.tsx:113 | doubling the quotes never shortens the text |
| `Csv.DoubleQuotesPlain` | App.tsx:113 | a text without double quotes is left unchanged |
| `Csv.EscapeCsv` | App.tsx:113 | the escaped text starts and ends with a double quote and is at least two characters longer |
| `Csv.JoinWith` | App.tsx:137-139 | `parts.join(sep)`; `ReadCellsJoin` and `ParseCsvLines` prove that joined cells and lines read back as their values, and `JoinSplitCell` shows the effect of an unquoted comma |
| `Csv.EncodesAllConcat` | App.tsx:115-137 | cells written side by side encode their values side by side |
| `Csv.ReadQuotedEscapedQuote` | App.tsx:113 | in a quoted cell, a doubled quote reads as one quote |
| `Csv.ReadQuotedOther` | App.tsx:113 | in a quoted cell, any other character reads as itself |
| `Csv.ReadQuotedDoubled` | App.tsx:113 | removing the outer quotes and undoubling the inner ones recovers the original text |
| `Csv.ReadBarePlain` | App.tsx:116 | a cell with no comma, quote or line break reads back as itself |
| `Csv.ReadCellEncoded` | App.tsx:113-136 | every written cell reads back as its value, whatever delimiter follows it |
| `Csv.ReadCellsJoin` | App.tsx:137 | a line of written cells joined by commas reads back as the list of their values |
| `Csv.ParseCsvLines` | App.tsx:139 | lines joined by line breaks read back as the table of their values |
| `Csv.Lines` | App.tsx:137-139 | there is one line per row |
| `Csv.EscapeAll` | App.tsx:118-136 | every escaped cell encodes its text |
| `Csv.ReadableCells` | App.tsx:118-128 | an entry has eleven answer cells |
| `Csv.RecommendationCells` | App.tsx:130-136 | an entry has seven recommendation cells |
| `Csv.RowAsWritten` | App.tsx:115-137 | a row, as the source builds it, has 21 cells, as many as there are headers |
| `Csv.Row` | App.tsx:115-137 | the corrected row has as many cells as there are headers |
| `Csv.RowValues` | App.tsx:115-137 | a row carries one value per header |
| `Csv.ExportTable` | App.tsx:105-139 | the export has the header line and one line per history entry |
| `Csv.ExportValues` | App.tsx:105-139 | the intended content has the header and one row of values per history entry |
| `Csv.ExportCsv` | App.tsx:99-140 | an empty history exports nothing; otherwise the text starts with the byte-order mark |
| `Csv.AnswerTitlesFrontArePlain` | App.tsx:106 | the first five answer titles need no quoting |
| `Csv.AnswerTitlesMiddleArePlain` | App.tsx:106-107 | the sixth to eighth answer titles need no quoting |
| `Csv.AnswerTitlesBackArePlain` | App.tsx:108 | the last three answer titles need no quoting |
| `Csv.AnswerTitlesArePlain` | App.tsx:106-108 | every answer title reads back as itself |
| `Csv.RecommendationTitlesFrontArePlain` | App.tsx:109 | the first four recommendation titles need no quoting |
| `Csv.RecommendationTitlesBackArePlain` | App.tsx:110 | the last three recommendation titles need no quoting |
| `Csv.RecommendationTitlesArePlain` | App.tsx:109-110 | every recommendation title reads back as itself |
| `Csv.HeadersArePlain` | App.tsx:105-111 | there are 21 headers, and the header line reads back as exactly those 21 titles |
| `Csv.RowEncodes` | App.tsx:115-137 | every cell of the corrected row reads back as its value |
| `Csv.ExportRoundTrip` | App.tsx:105-139 | the exported text (after the byte-order mark) reads back as the 21 headers followed by each entry's 21 values, in history order |
| `Csv.JoinSplitCell` | App.tsx:137 | a comma inside an unquoted cell gives the same joined line as two separate cells |
| `Csv.AsWrittenDateSplits` | App.tsx:117 | as written, a date containing a comma splits into two cells: the row reads back as 22 cells, shifted by one |
| `Csv.AsWrittenExample` | App.tsx:117 | an entry dated "19/10/2026, 10:30:00" is written as a line of 22 cells |
| `App.AllConsistentIff` | App.tsx:82-89 | the history is consistent exactly when each of its entries is |
| `App.NewEntry` | App.tsx:82-88 | the new entry carries the stamp, the submitted answers and the recommendation, with its own score and readable copy |
| `App.PrependConsistent` | App.tsx:89 | prepending a new entry keeps a consistent history consistent |
| `App.App.constructor` | App.tsx:14-19 | the application starts with the empty form, nothing scored, no error, not loading and an empty history |
| `App.App.HandleScore` | App.tsx:40-97 | the score is shown and the form record is untouched. On success: the recommendation is shown, there is no error, and exactly one new entry is prepended with the old entries kept in order. On failure: the fixed error message is set and the history is unchanged. Loading ends false either way, and history consistency is preserved |
| `App.App.Settle` | App.tsx:41-96 | the state updates of the handler, in the handler's order, for a given score and readable copy |
| `App.App.HandleClearHistory` | App.tsx:151-155 | a confirmed clear empties the history; otherwise nothing changes |
| `App.App.HandleReset` | App.tsx:157-163 | back to the empty form, with nothing scored, no error and not loading; the history is kept |
| `LeadForm.SkippedAreUnscored` | components/LeadForm.tsx:93 | the submit rule skips exactly the keys the scorer does not score |
| `LeadForm.SomeUnselected` | components/LeadForm.tsx:92-97 | the check holds exactly when some key that is not skipped still holds `'0'` |
| `LeadForm.IsSubmitDisabled` | components/LeadForm.tsx:91-97 | `isSubmitDisabled`; `SubmitEnabledIff` characterises it in both directions, and `InitialFormDisabled` and `NeedDetailsIrrelevant` follow |
| `LeadForm.SubmitEnabledIff` | components/LeadForm.tsx:91-97 | submit is enabled if and only if nothing is being scored, both names have a non-blank character, and no categorical answer is `'0'` |
| `LeadForm.InitialFormDisabled` | components/LeadForm.tsx:91-97 | the empty form can never be submitted |
| `LeadForm.NeedDetailsIrrelevant` | components/LeadForm.tsx:93 | the need description never affects whether the form can be submitted |
| `LeadForm.InitialFromSelects` | types.ts:41-53 | every categorical answer of the empty form is a value the selects can hold |
| `LeadForm.EnabledFormScoresInScale` | components/LeadForm.tsx:91-97 | a form filled from the selects that passes the submit rule scores between 30/110·10 and 10 |
| `LeadForm.LeadForm.constructor` | components/LeadForm.tsx:70 | the form starts from the record it is given |
| `LeadForm.LeadForm.ReceiveInitialData` | components/LeadForm.tsx:72-74 | a new `initialData` replaces the form's record |
| `LeadForm.LeadForm.HandleChange` | components/LeadForm.tsx:76-79 | the named key takes the new value and every other key is unchanged; a select code or `'0'` keeps the form within what the selects can hold |
| `LeadForm.LeadForm.HandleReset` | components/LeadForm.tsx:86-89 | the form returns to `initialData` |
| `LeadForm.LeadForm.SubmitDisabled` | components/LeadForm.tsx:91-97 | when submit is enabled, nothing is being scored and no categorical answer is `'0'` |

`Recommendations.priority` is the datatype `Types.Priority`, so it holds only `Alta`, `Media` or `Baja`
(types.ts:27).

## Left out

- The recommendation service (`services/geminiService.ts`) and the backend server (`backend/index.js`) are not part of this model. Their result is the `RecommendationOutcome` parameter of `App.App.HandleScore`: a returned record or a thrown error. The record is treated as given, although the service declares a string result.
- Loading and saving the history in `localStorage`, through `JSON.parse` and `JSON.stringify` (App.tsx:21-38), is I/O. The constructor starts from an empty history.
- The download itself (Blob, object URL, link click), `alert` and `window.confirm` are browser side effects. The export is modelled up to the CSV text, and the confirmation is a boolean parameter.
- `new Date().toISOString()` (App.tsx:83) is the clock: the stamp is a parameter `now`. `toLocaleString()` and `toFixed(1)` depend on the locale and on floating-point formatting: they are function parameters of the export.
- The dynamic `import('./constants')` (App.tsx:62) is module loading. The tables are read directly.
- Rendering (score display, history list, header) is left out, including the colour bands and the SVG arithmetic.
- The intermediate states of the asynchronous handler are not observable in the model: `App.App.HandleScore` states the state after the handler finishes. `App.App.Settle` performs the source's updates in order, including the loading flag raised and cleared.
- `Scoring.ScoreLead`: `finalScore` is an exact real, so it does not model IEEE-754 rounding of `weightedTotal / 110 * 10`.
- `JsString.ParseIntOrZero`: the precision loss of `parseInt` on integers above 2^53 is not modelled. The tables' codes are all at most 10.
- `Csv.EscapeCsv`: the `(str || '')` fallback for `null` and `undefined` is not modelled, because every cell is a string in the model. For the empty string the fallback has no effect.
- `Csv.ExportRoundTrip` requires the identifier and the rendered score to contain no comma, quote or line break. These cells are written unquoted. An ISO timestamp and `toFixed(1)` output satisfy this.
- `Csv.ExportCsv` writes the corrected row (`Csv.Row`); the source's row is `Csv.RowAsWritten` (see Findings).
- The handler that submits the form (`handleSubmit`, LeadForm.tsx:81-84) only passes the record on. Its effect is `App.App.HandleScore`.
- `LeadForm.LeadForm.HandleReset` models the form's own reset (LeadForm.tsx:87). The `onReset()` call at LeadForm.tsx:88 hands over to the application; its effect is `App.App.HandleReset`.

## Findings

| source | as written | input that shows it | evidently intended | confidence | as-written member | corrected member |
|---|---|---|---|---|---|---|
| App.tsx:117 | the date cell `new Date(lead.id).toLocaleString()` is written without `escapeCsv`, unlike every other text cell | an entry whose date renders as "19/10/2026, 10:30:00" (the comma most locales put in `toLocaleString`): the line has 22 cells under 21 headers, and every later column is shifted one to the right | the date escaped like the other text cells, so every row reads back as 21 cells in header order | not executed | `Csv.RowAsWritten`, `Csv.AsWrittenDateSplits`, `Csv.AsWrittenExample` | `Csv.Row`, `Csv.RowEncodes`, `Csv.ExportRoundTrip` |

Another observation is not a defect of the scoring, but it shows in the readable copy. The
service-interest table gives code `'10'` to two options (constants.ts:48-49). A first-match lookup
therefore never shows "IA Operativa & Agentes Inteligentes" (`Labels.SecondServiceInterestUnreachable`),
while both options score the same.
