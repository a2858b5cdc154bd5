# InsightAgent core in Dafny

InsightAgent reads a table of ad-performance rows, such as a spreadsheet export from an ad
platform, and turns it into insights. This project models the three agents at its core and the
schemas they share:

- **Column identification.** Each dataset header is normalised: stripped, lower-cased, runs of
  characters outside `[a-z0-9]` become one space, and runs of whitespace collapse. Headers are
  then mapped onto the sixteen canonical metrics (`campaign_name` … `status`) in four steps:
  - an explicit hint, taken verbatim or by relaxed matching;
  - a synonym match, exact or ignoring spaces;
  - a match against the normalised synonyms, again exact or ignoring spaces;
  - a prefix fallback on the first word of the canonical name.
- **Metric calculation.** Every record is copied through the column mapping. Numeric fields are
  coerced to floats, so `"2.5%"` reads as `2.5` and anything else unreadable becomes NaN. Three
  values are then derived:
  - `ctr`: the reported value, or clicks / impressions;
  - `atc_to_purchase`: purchases / adds to cart;
  - `ctr_delta`: the relative change of the 7-day CTR against the previous 7 days.

  Finally the `total_*` sums and the `avg_*` means are taken over the valid (finite) values only.
- **Rule-based insights.** Five built-in rules, after any extra rules, are checked against the
  metric summary in order. Each rule that applies contributes one insight:
  - a ROAS in the 1–2 band;
  - a healthy CTR with weak conversion;
  - high frequency;
  - a CTR drop of more than 10%;
  - spend above 50 with no purchases.

Python values are modelled by `Schemas.Value` (None, bool, int, float, str, and a list or object
that is empty or not), and Python
floats by `Schemas.Num`: finite reals plus `inf`, `-inf` and `nan`. Python's truthiness and
comparison rules are written out where the rules rely on them: NaN and `inf` are truthy, and
`inf > 50` holds. The `float()` string grammar is modelled by `FloatParsing`, and `str.strip`,
`str.lower` and `str.split()[0]` by `PyText`.

The stateful parts are imperative:
- the resolver's hint loop and automatic-matching loop (`ColumnIdentifier.IdentifyColumns`);
- the row-derivation loop and the sum/count aggregation (`Metrics.Calculate`, `Metrics.Aggregate`);
- the agent, a class holding its rule list (`InsightRules.RuleBasedInsightAgent`).

Each method is proved equal to a specification function (`Identify`, `DeriveRow`, `Aggregates`,
`Findings`). The properties the source promises are proved as lemmas about those functions.

Files:
- `wrappers.dfy`: Option / Result.
- `text.dfy`: Python string helpers.
- `schemas.dfy`: canonical columns, the column mapping, records, insights and requests.
- `float_parsing.dfy`: `float()` on strings.
- `column_identifier.dfy`, `metrics.dfy`, `insight_rules.dfy`: the three agents.

## Model

| member | source | states |
|---|---|---|
| Schemas.Ordinal | src/insight_agent/schemas.py:9-26 | each canonical metric has a position in the declaration order of the canonical table |
| Schemas.FromName | src/insight_agent/schemas.py:9-26 | a name maps to the canonical metric with that name, and to nothing when no canonical metric has it |
| Schemas.CanonicalTableShape | src/insight_agent/schemas.py:9-26 | the table has sixteen entries, positions agree with `Ordinal`, and names are unique |
| Schemas.MappingExtensional | src/insight_agent/schemas.py:29-47 | two column mappings that resolve every canonical metric alike are equal |
| Schemas.EmptyMapping | src/insight_agent/schemas.py:32-47 | every field defaults to None |
| Schemas.FromEntries | src/insight_agent/schemas.py:32-47 | building a mapping from a table aligned with the canonical order resolves each metric to its entry |
| Schemas.ResolveName | src/insight_agent/schemas.py:49-52 | `resolve` by a canonical name gives the field of that canonical metric |
| Schemas.Truthy | src/insight_agent/schemas.py:55 | Python truthiness of an optional header: present and not the empty string |
| Schemas.TruthyFields | src/insight_agent/schemas.py:54-55 | a metric is kept iff it is listed and its column is a non-empty string; declaration order is kept |
| Schemas.AvailableMetrics | src/insight_agent/schemas.py:54-55 | exactly the metrics with a non-empty column, in declaration order |
| Schemas.EmptyMappingHasNoMetrics | src/insight_agent/schemas.py:54-55 | the default mapping has no available metrics |
| Schemas.Get | src/insight_agent/schemas.py:63-64 | a record lookup gives the stored value, or None for a missing column |
| Schemas.ValidateSeverity | src/insight_agent/schemas.py:72 | severity defaults to "info" and is accepted exactly when it is one of the four literals |
| Schemas.SeverityRoundTrip | src/insight_agent/schemas.py:72 | the name of every severity validates back to that severity |
| Schemas.NewRequest | src/insight_agent/schemas.py:85-89 | a request is accepted iff it has at least one row, keeping data and hints; otherwise the validation message is the error |
| PyText.StripLeftFacts | src/insight_agent/agents/column_identifier.py:12 | left strip removes exactly a leading run of whitespace and leaves a suffix |
| PyText.StripRightFacts | src/insight_agent/agents/column_identifier.py:12 | right strip removes exactly a trailing run of whitespace and leaves a prefix |
| PyText.StripTrims | src/insight_agent/agents/column_identifier.py:12 | the stripped string neither starts nor ends with whitespace |
| PyText.StripUnchanged | src/insight_agent/agents/column_identifier.py:13 | stripping an already trimmed string changes nothing |
| PyText.Lower | src/insight_agent/agents/column_identifier.py:12 | lower-casing keeps the length and maps each character on its own |
| PyText.RemoveCharFacts | src/insight_agent/agents/metrics.py:143 | removing `%` leaves no `%`, never lengthens, and is the identity on strings without it |
| PyText.RemoveCharAppend | src/insight_agent/agents/metrics.py:143 | removing a character distributes over concatenation |
| PyText.TakeWordFacts | src/insight_agent/agents/column_identifier.py:82 | the first word is a whitespace-free prefix ended by whitespace or by the end of the string |
| PyText.FirstWordFacts | src/insight_agent/agents/column_identifier.py:82 | `split()[0]` fails iff the string is all whitespace; otherwise it is the first maximal run of non-whitespace |
| PyText.FirstWordOfWord | src/insight_agent/agents/column_identifier.py:82 | a non-empty string without whitespace is its own first word |
| PyText.TakeWordWhole | src/insight_agent/agents/column_identifier.py:82 | a string without whitespace is taken whole |
| FloatParsing.ParseFloat | src/insight_agent/agents/metrics.py:143 | `float()` on a string: surrounding whitespace stripped, an optional sign, then `inf`/`infinity`/`nan` in any case or `digits[.digits]`, `digits.` or `.digits` with an optional `e±digits`; None where Python raises ValueError |
| FloatParsing.IndexOf | src/insight_agent/agents/metrics.py:143 | finds the first occurrence of a character, or the length when there is none |
| FloatParsing.IndexOfExponent | src/insight_agent/agents/metrics.py:143 | finds the first exponent marker `e`/`E`, or the length |
| FloatParsing.ShowNat | src/insight_agent/agents/metrics.py:143 | the decimal rendering of a natural is a non-empty run of digits |
| FloatParsing.DigitsOfShowNat | src/insight_agent/agents/metrics.py:143 | reading the digits of the rendering gives the number back |
| FloatParsing.AllDigitsHasNoMarkers | src/insight_agent/agents/metrics.py:143 | a run of digits has no point, no exponent, no sign, no surrounding space, and is unchanged by lower-casing |
| FloatParsing.DigitsAreNotWords | src/insight_agent/agents/metrics.py:143 | digits never spell `inf`, `infinity` or `nan` |
| FloatParsing.DigitsHaveNoPoint | src/insight_agent/agents/metrics.py:143 | digits have no decimal point |
| FloatParsing.DigitsSignificand | src/insight_agent/agents/metrics.py:143 | digits form a significand without fraction, of their own value |
| FloatParsing.ParseDigits | src/insight_agent/agents/metrics.py:143 | an unsigned run of digits parses to the number it denotes |
| FloatParsing.ParseShowNat | src/insight_agent/agents/metrics.py:143 | `float(str(n)) == n` for every natural |
| ColumnIdentifier.DropRun | src/insight_agent/agents/column_identifier.py:12 | dropping a run never lengthens the string |
| ColumnIdentifier.DropSpaces | src/insight_agent/agents/column_identifier.py:13 | dropping spaces never lengthens the string |
| ColumnIdentifier.Normalize | src/insight_agent/agents/column_identifier.py:11-13 | `_normalize`: strip, lower-case, each run outside `[a-z0-9]` becomes one space, whitespace runs collapse, strip again |
| ColumnIdentifier.DropRunFacts | src/insight_agent/agents/column_identifier.py:12 | the remainder is a suffix that starts with a kept character or is empty |
| ColumnIdentifier.ReplaceRunsShape | src/insight_agent/agents/column_identifier.py:12 | after the first substitution only `[a-z0-9]` and single spaces remain, and a leading kept character stays first |
| ColumnIdentifier.NormalizeShape | src/insight_agent/agents/column_identifier.py:11-13 | a normal form has only `[a-z0-9]` and single inner spaces, with none at either end |
| ColumnIdentifier.CollapseUnchanged | src/insight_agent/agents/column_identifier.py:13 | collapsing whitespace leaves single-spaced text unchanged |
| ColumnIdentifier.StripKeepsShape | src/insight_agent/agents/column_identifier.py:13 | stripping single-spaced word text gives a normal form |
| ColumnIdentifier.SliceKeepsShape | src/insight_agent/agents/column_identifier.py:13 | every slice of single-spaced word text is single-spaced word text |
| ColumnIdentifier.NormalizeFixesNormalized | src/insight_agent/agents/column_identifier.py:11-13 | normalising a normal form changes nothing |
| ColumnIdentifier.ReplaceRunsUnchanged | src/insight_agent/agents/column_identifier.py:12 | the run substitution leaves single-spaced word text without a trailing space unchanged |
| ColumnIdentifier.NormalizeIdempotent | src/insight_agent/agents/column_identifier.py:11-13 | normalising twice is normalising once |
| ColumnIdentifier.FindBestMatch | src/insight_agent/agents/column_identifier.py:66-84 | `_find_best_match`: the first column equal to a normalised target, directly or with spaces removed (the targets are the normalised fallback candidates, or the key when there are none); else None when there are no columns; else IndexError when the key has no first word; else the first column starting with the normalised first word, or None |
| ColumnIdentifier.NormalizedColumns | src/insight_agent/agents/column_identifier.py:26 | one (header, normal form) pair per header, in order |
| ColumnIdentifier.FirstCandidateIndex | src/insight_agent/agents/column_identifier.py:46-52 | the first column whose normal form equals a candidate, directly or with spaces removed; none before it matches |
| ColumnIdentifier.FirstPrefixIndex | src/insight_agent/agents/column_identifier.py:81-83 | the first column whose normal form starts with the prefix; none before it does |
| ColumnIdentifier.FindBestMatchFacts | src/insight_agent/agents/column_identifier.py:66-84 | a best match is always a dataset header; the helper raises exactly when there are columns, no target matches, and the key has no first word |
| ColumnIdentifier.NormalizeAll | src/insight_agent/agents/column_identifier.py:72 | one normal form per label |
| ColumnIdentifier.Headers | src/insight_agent/agents/column_identifier.py:26 | one header per column, in order |
| ColumnIdentifier.HintFor | src/insight_agent/agents/column_identifier.py:31-39 | the hint loop's entry for one metric: None without a hint; the hinted header when it is verbatim a dataset header; else the relaxed match of the normalised hint when that is a non-empty header, else None; the relaxed match's IndexError is passed on |
| ColumnIdentifier.AutoFor | src/insight_agent/agents/column_identifier.py:42-61 | the automatic-matching entry for one metric: a non-empty entry is kept; else the first column matching a synonym or the name, directly or without spaces; else a non-empty best match over the normalised candidates with the prefix fallback; else the entry as it was |
| ColumnIdentifier.HintFails | src/insight_agent/agents/column_identifier.py:31-39 | the resolver raises iff some canonical metric's hint makes the relaxed match raise |
| ColumnIdentifier.NameIsOneWord | src/insight_agent/agents/column_identifier.py:82 | every canonical name is a single word, so the prefix fallback on it never raises |
| ColumnIdentifier.AutoForKeepsTruthy | src/insight_agent/agents/column_identifier.py:43-44 | automatic matching skips a metric that already has a non-empty column |
| ColumnIdentifier.FinalEntries | src/insight_agent/agents/column_identifier.py:28 | the table has one entry per canonical metric |
| ColumnIdentifier.Identify | src/insight_agent/agents/column_identifier.py:20-63 | the resolver fails iff some hint makes the relaxed match raise; otherwise each metric gets its hint entry refined by automatic matching |
| ColumnIdentifier.CanonicalNames | src/insight_agent/schemas.py:9-26 | one canonical name per metric |
| ColumnIdentifier.CanonicalSynonyms | src/insight_agent/schemas.py:9-26 | one synonym list per metric |
| ColumnIdentifier.IdentifyColumns | src/insight_agent/agents/column_identifier.py:20-63 | the two loops over the table compute exactly `Identify` |
| ColumnIdentifier.HintTableFacts | src/insight_agent/agents/column_identifier.py:31-39 | after `i` hints the loop has failed iff one of them failed; otherwise each visited entry holds its hint result and later ones are None |
| ColumnIdentifier.HintTableComplete | src/insight_agent/agents/column_identifier.py:31-39 | a hint loop that finishes met no failing hint and holds every metric's hint result |
| ColumnIdentifier.ApplyHints | src/insight_agent/agents/column_identifier.py:31-39 | the hint loop fails iff some hint fails, and otherwise fills each entry with its hint result |
| ColumnIdentifier.HintStep | src/insight_agent/agents/column_identifier.py:32-39 | one hint iteration: verbatim header, else a non-empty relaxed match, else None |
| ColumnIdentifier.AutoMatch | src/insight_agent/agents/column_identifier.py:42-61 | the automatic-matching loop gives each metric its `AutoFor` entry |
| ColumnIdentifier.FindCandidate | src/insight_agent/agents/column_identifier.py:46-52 | the candidate loop stops at the first matching column |
| ColumnIdentifier.AutoStep | src/insight_agent/agents/column_identifier.py:43-61 | one automatic-matching iteration: a non-empty entry is kept, else the synonym match, else a non-empty best match |
| ColumnIdentifier.FirstCandidateIndexIsFirst | src/insight_agent/agents/column_identifier.py:46-52 | any index with no earlier match and a match at it is the first-match index |
| ColumnIdentifier.HeadersOfNormalized | src/insight_agent/agents/column_identifier.py:26 | normalisation keeps the headers themselves, in order |
| ColumnIdentifier.HintForPicksHeader | src/insight_agent/agents/column_identifier.py:31-39 | a hint entry is always one of the dataset headers |
| ColumnIdentifier.AutoForPicksHeader | src/insight_agent/agents/column_identifier.py:42-61 | automatic matching only picks dataset headers |
| ColumnIdentifier.IdentifyPicksHeaders | src/insight_agent/agents/column_identifier.py:20-63 | every non-empty entry of the resolved mapping is one of the given headers |
| ColumnIdentifier.ForeignHintsIgnored | src/insight_agent/agents/column_identifier.py:25 | hints keyed by anything other than a canonical name have no effect |
| ColumnIdentifier.VerbatimHintWins | src/insight_agent/agents/column_identifier.py:32-33 | a non-empty hint naming a header verbatim fixes that metric's column |
| ColumnIdentifier.NormalizedFirstWord | src/insight_agent/agents/column_identifier.py:82 | a normal form has a first word iff it is non-empty |
| ColumnIdentifier.NormalizedFirstWordIsNormal | src/insight_agent/agents/column_identifier.py:82 | the first word of a normal form is itself normal |
| ColumnIdentifier.FirstWordIsWord | src/insight_agent/agents/column_identifier.py:82 | the first word of a normal form is a non-empty run of `[a-z0-9]` |
| ColumnIdentifier.WordIsNormalized | src/insight_agent/agents/column_identifier.py:11-13 | a run of `[a-z0-9]` is its own normal form |
| ColumnIdentifier.MatchesEmptyTarget | src/insight_agent/agents/column_identifier.py:77-80 | a normal form matches the empty target iff it is empty |
| ColumnIdentifier.HintErrorIff | src/insight_agent/agents/column_identifier.py:35-37 | a hint raises exactly when it names no header, normalises to nothing, and every header has a non-empty normal form |
| ColumnIdentifier.RelaxedHintMatch | src/insight_agent/agents/column_identifier.py:36-39 | a hint that names no header verbatim takes the first header equal to its normal form |
| ColumnIdentifier.RelaxedHintPrefix | src/insight_agent/agents/column_identifier.py:36-39 | with no equal header, a hint takes the first header starting with its first word |
| ColumnIdentifier.UnmatchedHintGivesNone | src/insight_agent/agents/column_identifier.py:36-39 | a hint that matches no header, verbatim or relaxed, leaves the entry None without raising |
| ColumnIdentifier.NoneHintIgnored | src/insight_agent/agents/column_identifier.py:31-39 | a hint whose step yields None gives the same outcome as resolving without that hint |
| ColumnIdentifier.UnmatchedHintIgnored | src/insight_agent/agents/column_identifier.py:36-39 | a hint that matches nothing gives the same outcome as resolving without that hint |
| ColumnIdentifier.EarliestCandidateEntry | src/insight_agent/agents/column_identifier.py:45-49 | with no hinted entry, automatic matching picks the first header whose normal form is a candidate |
| ColumnIdentifier.EarliestCandidateWins | src/insight_agent/agents/column_identifier.py:45-49 | an unhinted metric takes the first header whose normal form is one of its candidates |
| ColumnIdentifier.PrefixFallback | src/insight_agent/agents/column_identifier.py:55-61 | with no candidate match, an unhinted metric takes the first header starting with its normalised name |
| ColumnIdentifier.AutoForPrefix | src/insight_agent/agents/column_identifier.py:55-61 | automatic matching with no candidate match returns the first prefix match |
| ColumnIdentifier.PrefixAutoEntry | src/insight_agent/agents/column_identifier.py:42-61 | for an entry the hint loop left unset and with no candidate match, automatic matching yields the first header whose normal form starts with the normalised name |
| ColumnIdentifier.FirstPrefixIndexIsFirst | src/insight_agent/agents/column_identifier.py:81-83 | any index with no earlier prefix match and one at it is the first prefix index |
| ColumnIdentifier.NoMatchLeavesNone | src/insight_agent/agents/column_identifier.py:42-63 | an unhinted metric that no header matches stays None |
| ColumnIdentifier.NoMatchAutoEntry | src/insight_agent/agents/column_identifier.py:42-61 | for an entry the hint loop left unset, with no candidate, normalised candidate or prefix match, automatic matching leaves it None |
| ColumnIdentifier.NoMatchAutoFor | src/insight_agent/agents/column_identifier.py:42-61 | the generic form: no match of any of the three kinds over given normalised columns keeps an empty entry None |
| ColumnIdentifier.ReplaceRunsKeepsWord | src/insight_agent/agents/column_identifier.py:12 | the run substitution passes a leading word through |
| ColumnIdentifier.DropRunStopsAtWord | src/insight_agent/agents/column_identifier.py:12 | dropping a separator run stops at the next word |
| ColumnIdentifier.CollapseKeepsWord | src/insight_agent/agents/column_identifier.py:13 | collapsing whitespace passes a leading word through |
| ColumnIdentifier.ReplaceRunsLeadingWord | src/insight_agent/agents/column_identifier.py:12 | a word, a separator run and a kept character become the word, one space and that character |
| ColumnIdentifier.CollapseLeadingWord | src/insight_agent/agents/column_identifier.py:13 | collapsing keeps a leading word and its single space |
| ColumnIdentifier.StripKeepsLeadingWord | src/insight_agent/agents/column_identifier.py:12-13 | stripping keeps a prefix that starts and ends outside whitespace |
| ColumnIdentifier.NormalizeLeadingWord | src/insight_agent/agents/column_identifier.py:11-13 | a header of the form word, separators, word normalises to a form starting with the first word and one space |
| ColumnIdentifier.NotStatusCandidate | src/insight_agent/agents/column_identifier.py:46-52 | a normal form with a word after `status` matches no status candidate |
| ColumnIdentifier.StatusVocabulary | src/insight_agent/schemas.py:25 | the status candidates and their normal forms are both `status` |
| ColumnIdentifier.DecoratedStatusResolvesStatus | src/insight_agent/agents/column_identifier.py:55-61 | a lone header `Status` + separators + more words resolves `status` through the prefix fallback |
| ColumnIdentifier.StatusHeaderIsDecorated | tests/test_engine.py:24 | the sample status header has that decorated form |
| ColumnIdentifier.StatusHeaderResolvesStatus | tests/test_engine.py:24 | the sample header `Status (pause/fix/test/keep)` resolves `status` |
| ColumnIdentifier.CampaignHeaderNormalForm | tests/test_engine.py:9 | `Campaign name` normalises to `campaign name` |
| ColumnIdentifier.CampaignNameHeaderWins | tests/test_engine.py:49 | a first header `Campaign name` becomes the campaign name column, unless a hint overrides it |
| Metrics.CoercionAgreesWithValidity | src/insight_agent/agents/metrics.py:138-155 | a coerced value is valid iff finite; a non-string valid value coerces to its number, an invalid one to a non-finite float |
| Metrics.AsFloat | src/insight_agent/agents/metrics.py:152 | `float(value)`: booleans give 1.0 or 0.0, ints their value, floats themselves, strings their `float()` parse; None, lists and objects raise, modelled as None |
| Metrics.IsValidNumber | src/insight_agent/agents/metrics.py:148-155 | `_is_valid_number`: not None, convertible by `float`, and finite |
| Metrics.ToFloat | src/insight_agent/agents/metrics.py:138-146 | `_to_float`: booleans and numbers pass through `float`, strings are parsed once every `%` is removed, and anything else, or a string that does not parse, is NaN |
| Metrics.PercentStringKeepsFigure | src/insight_agent/agents/metrics.py:141-143 | `"<n>%"` coerces to `n` |
| Metrics.TrailingPercentDropped | src/insight_agent/agents/metrics.py:141-145 | a trailing `%` is ignored: the rest parses as `float()` would, or becomes NaN |
| Metrics.PercentSample | src/insight_agent/agents/metrics.py:141-143 | `"2.5%"` coerces to 2.5 |
| Metrics.ParseDecimalSample | src/insight_agent/agents/metrics.py:143 | `"2.5"` parses to 2.5 |
| Metrics.ComputeRatio | src/insight_agent/agents/metrics.py:68-73 | finite iff both operands are valid and the denominator is non-zero, and then exactly numerator / denominator; NaN otherwise |
| Metrics.ComputeCtr | src/insight_agent/agents/metrics.py:56-66 | a valid reported CTR is kept; otherwise the result is `ComputeRatio(clicks, impressions)`: finite iff both are valid and impressions are non-zero |
| Metrics.RelativeChange | src/insight_agent/agents/metrics.py:80-85 | finite iff both values are valid and the previous one is non-zero, and then exactly (current − previous) / previous; NaN otherwise |
| Metrics.ComputeCtrDelta | src/insight_agent/agents/metrics.py:75-85 | finite iff the current CTR (7-day, falling back to CTR) and the previous CTR are valid and the previous one is non-zero, and then exactly (current − previous) / previous |
| Metrics.Coerce | src/insight_agent/agents/metrics.py:43-46 | a cell of a numeric field is stored as `_to_float` of it, any other field's cell unchanged |
| Metrics.CopyFields | src/insight_agent/agents/metrics.py:37-46 | the metrics dict once the copy loop has visited the given metrics: each one with a header holds its coerced record cell |
| Metrics.AddDerived | src/insight_agent/agents/metrics.py:48-52 | stores `ctr`, then `atc_to_purchase`, then `ctr_delta`, each computed on the dict as updated so far |
| Metrics.DeriveRow | src/insight_agent/agents/metrics.py:36-53 | one record's metrics dict: the copied available metrics completed with the three derived values |
| Metrics.CopyFieldsContents | src/insight_agent/agents/metrics.py:38-46 | the copied row has exactly the listed mapped metrics, each holding its record value, coerced when numeric |
| Metrics.AddDerivedKeys | src/insight_agent/agents/metrics.py:48-52 | deriving adds `ctr`, `atc_to_purchase` and `ctr_delta` and leaves every other field alone |
| Metrics.CopiedReadsMapped | src/insight_agent/agents/metrics.py:38-46 | copying the available metrics keeps exactly the mapped fields, each reading its mapped record value |
| Metrics.DerivedRowKeys | src/insight_agent/agents/metrics.py:34-54 | a derived row has exactly the mapped metrics plus the three derived ones |
| Metrics.DerivedField | src/insight_agent/agents/metrics.py:38-46 | every field other than `ctr` reads the mapped, coerced record value |
| Metrics.DerivedCtr | src/insight_agent/agents/metrics.py:48 | the row's `ctr` is `ComputeCtr` of the copied fields |
| Metrics.DerivedAtcToPurchase | src/insight_agent/agents/metrics.py:49-51 | the row's `atc_to_purchase` is purchases / adds to cart, per `ComputeRatio` |
| Metrics.DerivedCtrDelta | src/insight_agent/agents/metrics.py:52 | the row's `ctr_delta` is the relative change of the 7-day CTR, or the derived CTR when that is invalid, against the previous CTR |
| Metrics.CopyRecord | src/insight_agent/agents/metrics.py:37-46 | the copy loop builds exactly `CopyFields` of the record over the available metrics |
| Metrics.CompleteRow | src/insight_agent/agents/metrics.py:48-52 | the three derived stores give exactly `AddDerived` of the copied row |
| Metrics.DeriveRowMetrics | src/insight_agent/agents/metrics.py:34-54 | the derivation loop gives one row per record, each `DeriveRow` of its record |
| Metrics.AggKeysAre | src/insight_agent/agents/metrics.py:91-116 | the aggregate keys are the six totals and the seven averages |
| Metrics.Aggregates | src/insight_agent/agents/metrics.py:87-121 | what `_aggregate` returns: for each summed metric with a valid value the total of its valid values, for each averaged one their mean; a metric with no valid value has no key |
| Metrics.ValidValues | src/insight_agent/agents/metrics.py:99-100 | the valid values of a metric are at most one per row |
| Metrics.ValidValueCounts | src/insight_agent/agents/metrics.py:99-101 | a row holding a valid value of a metric makes that metric's list of valid values non-empty, so its key is written |
| Metrics.AggregateListsDistinct | src/insight_agent/agents/metrics.py:91-111 | neither the summed nor the averaged metric list names a metric twice |
| Metrics.ValidValuesSnoc | src/insight_agent/agents/metrics.py:99-100 | appending a row appends its value exactly when it is valid |
| Metrics.AccumulateStep | src/insight_agent/agents/metrics.py:99-101 | one `sums.get(key, 0.0) + value` step keeps the running sum equal to the sum of the valid values seen |
| Metrics.AddIfValid | src/insight_agent/agents/metrics.py:99-101 | given the cell's numeric reading (present only for a valid value), that number is added to its total, starting from 0.0; an absent reading leaves the sums unchanged |
| Metrics.TotalsAccumulate | src/insight_agent/agents/metrics.py:91-101 | over distinct metrics the totals pass makes each listed total accurate for `rows + [row]` and touches no other key |
| Metrics.AccumulateTotals | src/insight_agent/agents/metrics.py:91-101 | the totals loop over one row keeps every total equal to the sum of valid values and leaves the averages alone |
| Metrics.CountStep | src/insight_agent/agents/metrics.py:112-116 | one count step keeps the count equal to the number of valid values seen |
| Metrics.AddAndCountIfValid | src/insight_agent/agents/metrics.py:112-116 | given the cell's numeric reading (present only for a valid value), that number is added to its average's sum and counted; an absent reading changes neither map |
| Metrics.AveragesAccumulate | src/insight_agent/agents/metrics.py:103-115 | over distinct metrics the averages pass makes each listed sum accurate for `rows + [row]` and touches no other key |
| Metrics.CountsCount | src/insight_agent/agents/metrics.py:103-116 | over distinct metrics the averages pass makes each listed count accurate for `rows + [row]` and touches no other key |
| Metrics.AccumulatedFrame | src/insight_agent/agents/metrics.py:101 | adding to one key leaves every other key's running total as it was |
| Metrics.CountedFrame | src/insight_agent/agents/metrics.py:116 | counting one key leaves every other key's count as it was |
| Metrics.AccumulateAverages | src/insight_agent/agents/metrics.py:103-116 | the averages loop over one row keeps sums and counts for every average key and leaves the totals alone |
| Metrics.AggregatesAt | src/insight_agent/agents/metrics.py:87-121 | a key is present iff it is an aggregate key with a valid value; a total is the sum and an average the mean |
| Metrics.DividedSumsAreAggregates | src/insight_agent/agents/metrics.py:118-121 | dividing the accumulated sums by their counts gives exactly `Aggregates` |
| Metrics.SummedAfterRow | src/insight_agent/agents/metrics.py:90-116 | the totals pass then the averages pass over `row` take an accurate sums/counts state for `rows` to one for `rows + [row]` |
| Metrics.AggregateRow | src/insight_agent/agents/metrics.py:90-116 | one outer iteration extends the sums and counts invariant from `rows` to `rows + [row]` |
| Metrics.DivideByCounts | src/insight_agent/agents/metrics.py:118-120 | each counted key is divided by its count; every other key is kept |
| Metrics.Aggregate | src/insight_agent/agents/metrics.py:87-121 | `_aggregate` computes exactly `Aggregates(rows)` |
| Metrics.ValidValuesNonEmpty | src/insight_agent/agents/metrics.py:99-116 | a metric has valid values iff some row holds a valid number for it |
| Metrics.AggregatePresentIff | src/insight_agent/agents/metrics.py:87-121 | `total_m` / `avg_m` is in the result iff some row has a valid `m` (no zero-filled keys) |
| Metrics.ValidValuesAppend | src/insight_agent/agents/metrics.py:90-116 | valid values of concatenated row lists concatenate |
| Metrics.SumAppend | src/insight_agent/agents/metrics.py:101 | sums add over concatenation |
| Metrics.TotalsAdd | src/insight_agent/agents/metrics.py:91-101 | the total of a metric over two row lists is the sum of their totals |
| Metrics.SumPermutation | src/insight_agent/agents/metrics.py:101-115 | summing the same values in another order gives the same total |
| Metrics.ValidValuesRemoveAt | src/insight_agent/agents/metrics.py:99-116 | taking one row out of the list takes exactly that row's valid value, if it has one, out of the collected values |
| Metrics.ValidValuesPermutation | src/insight_agent/agents/metrics.py:99-116 | reordering the rows only reorders the collected valid values of every metric |
| Metrics.AggregatesPermutation | src/insight_agent/agents/metrics.py:87-121 | reordering the rows leaves the set of `total_*` and `avg_*` keys and every value unchanged |
| Metrics.ValidValuesWithin | src/insight_agent/agents/metrics.py:112-115 | bounds on every valid row value carry over to the valid values |
| Metrics.SumBounds | src/insight_agent/agents/metrics.py:115 | a sum of n values within [lo, hi] lies within [n·lo, n·hi] |
| Metrics.MeanWithinBounds | src/insight_agent/agents/metrics.py:103-120 | an average lies between any bounds of the valid row values |
| Metrics.MeanOfBounded | src/insight_agent/agents/metrics.py:118-120 | the mean of values within [lo, hi] lies within [lo, hi] |
| Metrics.Calculate | src/insight_agent/agents/metrics.py:19-32 | the summary keeps the mapping, has one derived row per record, and its aggregates are `Aggregates` of those rows |
| InsightRules.ZeroIsFalsy | src/insight_agent/agents/insight_rules.py:117 | a value equal to zero is falsy, so `purchases == 0` adds nothing to `not purchases` |
| InsightRules.ScanForOffender | src/insight_agent/agents/insight_rules.py:113-119 | the early-return scan finds an offender iff some row has truthy spend above 50 with no purchases |
| InsightRules.RuleApplies | src/insight_agent/agents/insight_rules.py:32-34 | dispatching `applies` computes exactly the rule's condition |
| InsightRules.RegisteredRules | src/insight_agent/agents/insight_rules.py:143-152 | the extra rules come first, in order, and the five built-ins always end the list |
| InsightRules.RuleBasedInsightAgent.constructor | src/insight_agent/agents/insight_rules.py:143-152 | the agent holds exactly the registered rules |
| InsightRules.RuleBasedInsightAgent.Run | src/insight_agent/agents/insight_rules.py:154-160 | running the agent gives exactly `Findings` of its rules, in rule order |
| InsightRules.FindingsAppend | src/insight_agent/agents/insight_rules.py:157-159 | findings of concatenated rule lists concatenate |
| InsightRules.FindingsSound | src/insight_agent/agents/insight_rules.py:157-159 | at most one insight per rule, and every insight is built by a listed rule that applies |
| InsightRules.FindingsComplete | src/insight_agent/agents/insight_rules.py:157-159 | every listed rule that applies contributes its insight |
| InsightRules.BuiltinCodes | src/insight_agent/agents/insight_rules.py:28-139 | the built-in codes are distinct, and each built-in insight carries its rule's code |
| InsightRules.EvidenceNames | src/insight_agent/agents/insight_rules.py:33-105 | the aggregate keys the rules read are named `avg_roas`, `avg_ctr`, `avg_atc_to_purchase`, `avg_frequency`, `avg_ctr_delta` |
| InsightRules.ValueTruthy | src/insight_agent/agents/insight_rules.py:117 | Python truthiness of a cell: None, False, 0, 0.0, the empty string and an empty list or object are false; NaN and the infinities are true |
| InsightRules.Exceeds50 | src/insight_agent/agents/insight_rules.py:117 | `v > 50` on a cell: ints and finite floats compare by value, `inf` is above, NaN and booleans are not |
| InsightRules.EqualsZero | src/insight_agent/agents/insight_rules.py:117 | `v == 0` on a cell: False, 0 and 0.0 equal zero and nothing else does |
| InsightRules.Offends | src/insight_agent/agents/insight_rules.py:117 | a row offends when its spend is truthy and above 50 and its purchases are falsy or zero |
| InsightRules.OffenderOf | src/insight_agent/agents/insight_rules.py:123-128 | one offenders entry: spend and purchases defaulting to 0.0 when missing, campaign and ad name to None |
| InsightRules.OffendersOf | src/insight_agent/agents/insight_rules.py:122-131 | one offenders entry per offending row, in row order |
| InsightRules.Applies | src/insight_agent/agents/insight_rules.py:32-119 | `applies` of each rule: its threshold on the aggregates read with `.get`, the offender scan for the spend rule, and a custom rule's own test |
| InsightRules.BuildInsight | src/insight_agent/agents/insight_rules.py:36-139 | `build_insight` of each rule: its code, label and severity, the fixed action and rationale, and its evidence read with `.get(key, 0.0)` (the offenders list for the spend rule); a custom rule's own builder |
| InsightRules.Findings | src/insight_agent/agents/insight_rules.py:154-160 | the insights `__call__` returns: one per applying rule, in rule order |
| InsightRules.RoasRule | src/insight_agent/agents/insight_rules.py:28-45 | applies iff `avg_roas` is present and within [1, 2]; severity is opportunity, and a firing insight reports that mean as `avg_roas` |
| InsightRules.HealthyCtrRule | src/insight_agent/agents/insight_rules.py:48-68 | applies iff `avg_ctr` is present and ≥ 0.015 (truthiness then adds nothing), and `avg_atc_to_purchase` is absent or < 0.2; severity warning; the evidence is exactly `avg_ctr` and `avg_atc_to_purchase`, each the mean or 0.0 when absent |
| InsightRules.FrequencyRule | src/insight_agent/agents/insight_rules.py:71-87 | applies iff `avg_frequency` is present and ≥ 3.5; severity warning; a firing insight reports that mean as `avg_frequency` |
| InsightRules.CtrDropRule | src/insight_agent/agents/insight_rules.py:90-106 | applies iff `avg_ctr_delta` is present and < −0.1; severity critical; a firing insight reports that mean as `avg_ctr_delta` |
| InsightRules.OffendsOnFloats | src/insight_agent/agents/insight_rules.py:117 | on float or missing cells, a row offends iff spend is `inf` or a finite value above 50, and purchases are missing or 0.0 (NaN purchases are truthy) |
| InsightRules.OffendsOnCollectionPurchases | src/insight_agent/agents/insight_rules.py:117 | with float spend and a list or object under `purchases`, a row offends iff spend is `inf` or above 50 and the collection is empty |
| InsightRules.OffendersNonEmptyIff | src/insight_agent/agents/insight_rules.py:113-131 | the offender list is non-empty iff the rule's scan fires |
| InsightRules.OffendersAppend | src/insight_agent/agents/insight_rules.py:122-131 | offenders of concatenated row lists concatenate |
| InsightRules.OffendersSpendAbove50 | src/insight_agent/agents/insight_rules.py:130 | every listed offender has truthy spend above 50 |
| InsightRules.SpendRule | src/insight_agent/agents/insight_rules.py:109-139 | applies iff there is an offender; severity critical; the evidence is exactly the offender list |
| InsightRules.ExampleRowsFire | tests/test_engine.py:52-53 | for two rows with ROAS 1.5 / 0.9, CTR 2.5 / 2.0 and conversion 0.15 / 0.0, both `roas_1_2` and `ctr_healthy_low_conversion` apply |
| InsightRules.MeanOfTwo | src/insight_agent/agents/metrics.py:103-120 | the average over two valid rows is their mean |
| InsightRules.ValuesOfTwo | src/insight_agent/agents/metrics.py:99-100 | two valid rows give exactly their two values |
| InsightRules.DerivedCells | tests/test_engine.py:7-43 | a record with finite ROAS, CTR, purchases and non-zero adds to cart derives those ROAS and CTR and conversion purchases / adds, as the sample rows feed `ExampleRowsFire` |
| InsightRules.DerivedCtrCell | src/insight_agent/agents/metrics.py:48 | a finite mapped CTR is kept as the derived CTR |
| InsightRules.DerivedAtcCell | src/insight_agent/agents/metrics.py:49-51 | finite purchases and non-zero adds to cart give conversion purchases / adds |

## Left out

- Floating point is modelled with exact reals plus `inf`, `-inf` and NaN. IEEE rounding, overflow to `inf` (of large sums, and of parsed or converted values as below) and `-0.0` are not modelled. Because sums are exact, Metrics.AggregatesPermutation holds exactly; with IEEE sums two orders of the same rows can differ in the last bits.
- FloatParsing.ParseFloat covers signs, surrounding whitespace, `digits[.digits][e±digits]`, `inf`, `infinity` and `nan`. Underscore digit grouping and non-ASCII digits are not modelled.
- FloatParsing.ParseFloat: a literal beyond the double range, such as `1e400`, gives a finite real here. Python's `float()` gives ±inf for it, so `_is_valid_number` rejects it and `_to_float` returns ±inf.
- Metrics.AsFloat: an int beyond the double range, such as `10**400`, converts to a finite real here. Python's `float()` raises OverflowError for it, and neither `_is_valid_number` nor `_to_float` catches that. Metrics.ToFloat has the same gap.
- PyText.Lower lower-cases ASCII letters only; Python's Unicode case mapping is not modelled.
- PyText.IsSpace covers the ASCII characters `str.isspace` accepts; non-ASCII whitespace is not modelled.
- Schemas.ResolveName is modelled for canonical names only. Python's `getattr` returns any other attribute of the mapping (`resolve`, `available_metrics`, `model_dump`, ...), while the model gives None. The calculator passes only canonical names.
- ColumnIdentifier.Identify: the `IndexError` raised by `key.split()[0]` on a hint that normalises to nothing is modelled as an `Err` result.
- ColumnIdentifier.Identify processes the hints in canonical declaration order, not hint-dict order. Each hint writes only its own entry, so the outcome is the same.
- Column headers are a sequence. Python's dict dedups headers keeping the first position, which leaves every first-match search unchanged.
- Metrics.Aggregates is a map keyed by `AggKey` (`Total(m)` / `Avg(m)`), not by the strings `total_m` / `avg_m`. `AggName` gives the string and `EvidenceNames` ties the keys to the names the rules read. Dict insertion order is not modelled.
- Metrics.Calculate: the column mapping is passed in, not computed. The engine that chains identifier, calculator and rules (`engine.py`) is not part of this model, nor are `service.py`, `cli.py`, `config.py` or the LLM narrative in `llm.py`.
- InsightRules.Exceeds50 counts a string or other non-numeric spend cell as not above 50. Python would raise `TypeError` there; the calculator never stores such a value under `spend`.
- Insight action and rationale texts are constants copied as they are; nothing is proved about their wording.
- InsightRules.Rule models custom rules as a code, a label and two total functions of the summary. Rules that raise or depend on state are not modelled.
- InsightRules.RegisteredRules models `extra_rules or []` with an Option. An empty extra list behaves like None.
- The sample dataset of `tests/test_engine.py` is covered in pieces:
  - the campaign header (`CampaignNameHeaderWins`) and the status header (`StatusHeaderResolvesStatus`);
  - per-record derivation (`DerivedCells`) and the firing of both rules over the derived rows (`ExampleRowsFire`).

  Resolving all sixteen headers of that table in one proof, and the end-to-end call, are left out because the solver cost of unfolding normalisation over literal strings is too high.
- `InsightRequest.metadata`, `InsightResponse` and the request/response plumbing are not modelled.
