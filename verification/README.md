# Privacy-policy scorer, modelled in Dafny

This project models the keyword-heuristic scorer of a small privacy-policy
rating service (`analyze_with_ollama` in `main.py`) and the one decision of
its `/analyze` route that concerns the scorer: an empty `policy_text` is
refused.

The scorer lower-cases the policy text. It starts eight ratings at fixed
defaults: Data Collection 3, Data Usage 3, Data Sharing 3, Data Selling 2,
Opt-Out 2, Security 3, Deletion 3, Clarity 3. It then applies six
independent rules. Each rule overwrites one rating with a constant when any
keyword of its group occurs as a substring of the lower-cased text. The final
rating is the mean of the eight ratings, rounded to one decimal. The scorer
returns the eight ratings in a fixed order, each with a constant name and
explanation.

Modules:

- `Text` (`text.dfy`): ASCII lower- and upper-casing. `Occurs(w, h)` means
  `h == a + w + b` for some `a` and `b`; it is the meaning of Python's `w in h`.
  `Contains` decides `Occurs`, and `ContainsAny` is the inner `has`. The module
  also holds the facts the scorer needs: transitivity of occurrence, occurrence
  surviving lower-casing, and non-occurrence shown by a missing letter pair.
- `Rounding` (`rounding.dfy`): round-half-to-even division, characterised by
  `NearestEven`, and the final rating as a whole number of tenths.
- `Scorer` (`scorer.dfy`): the `Parameter` datatype and its defaults, names
  and explanations. The rule table `Rules` holds (keywords, target, override)
  triples. `Apply` folds the rules in source order, so a firing rule overwrites
  the running rating as the source's `if` statements do. `Score` builds the
  `Report`. The lemmas state the properties below.
- `Scenarios` (`scenarios.dfy`): three concrete texts and the reports they
  get, derived from the general lemmas.
- `Handler` (`handler.dfy`): `Analyze` returns `Result<Report, Error>`. The empty text
  gives the 400 error `"No policy text provided"`, and any other text gives
  `Score(text)`.

The final rating is kept in integer tenths. Python computes
`round(sum / 8, 1)`. Since `sum / 8` is a multiple of 1/8, a binary float
holds it exactly, and `round` rounds that exact value to the nearest tenth,
with ties going to the even tenth. So the tenths value is the integer nearest
to `10 * sum / 8`, ties to even. Two sums are ties: 22 gives 2.75, which
rounds to 2.8, and 26 gives 3.25, which rounds to 3.2.

One might expect "We do not sell your data. We use encryption and allow
deletion anytime." to raise Data Deletion to 4, for a final rating of 2.9. It
does not. The Deletion keywords are "delete", "erasure" and "remove", and
"deletion" does not contain "delete". So the text gets Data Deletion 3, a sum
of 22 and a final rating of 2.8. The model states this in
`Scenarios.NegatedSellingExample` and `Scenarios.NegatedSellingFinalRating`.

## Model

| member | source | states |
|---|---|---|
| Text.Lower | main.py:20 | `text.lower()` for ASCII letters: the same length, and each character mapped by `LowerChar`, which turns an ASCII capital into its lower-case letter and keeps every other character |
| Text.Contains | main.py:23 | `w in h` holds exactly when `h` splits as `a + w + b`; the empty word occurs everywhere |
| Text.ContainsAny | main.py:22-23 | `has(words)` is true exactly when some keyword of the group occurs in the text |
| Text.LowerIdempotent | main.py:20 | lower-cased text has no ASCII capitals, and lower-casing it again changes nothing |
| Text.LowerOfUpper | main.py:20 | upper-casing a text first does not change its lower-case form |
| Text.OccursTransitive | main.py:23 | a word that occurs in a part of a text occurs in the whole text |
| Text.OccursLower | main.py:20-23 | if `t` occurs in `t'`, then the ASCII `Lower(t)` occurs in `Lower(t')` |
| Text.NotOccursByPair | main.py:23 | a word cannot occur in a text where two of its neighbouring letters never stand side by side |
| Rounding.RoundHalfEven | main.py:60 | the result is within half a step of `n / d`, and is even when `n / d` lies exactly halfway |
| Rounding.NearestEvenUnique | main.py:60 | only one integer is nearest with ties to even, so the rounding is fully determined |
| Rounding.FinalTenths | main.py:60 | `round(sum / 8, 1)` in tenths is the nearest tenth to the mean, with ties to even |
| Rounding.FinalTenthsTable | main.py:60 | the value of `round(sum / 8, 1)` for every sum from 20 to 27; 22 gives 2.8 and 26 gives 3.2 |
| Scorer.Default | main.py:26-33 | every rating starts at 3, except Data Selling and Opt-Out, which start at 2 |
| Scorer.NameRoundTrip | main.py:62-104 | each dimension's `parameter` string names that dimension and no other: `NamedParameter` reads the dimension back from it |
| Scorer.NamedParameterInverse | main.py:62-104 | a string names a dimension exactly when it is that dimension's `parameter` string |
| Scorer.ReportTextIsFixed | main.py:62-108 | only the ratings depend on the policy text: any two reports carry the same eight names and explanations in the same order and the same final explanation |
| Scorer.Fires | main.py:22-23 | a rule fires exactly when one of its keywords occurs in the lower-cased text |
| Scorer.ApplyOutcome | main.py:35-47 | running the rules in order leaves the starting rating when no rule for the parameter fires, and otherwise the override of a firing rule for it |
| Scorer.ApplyLastFiring | main.py:35-47 | when several rules for one parameter fire, the last one in source order decides its rating |
| Scorer.RulesHaveDistinctTargets | main.py:35-47 | each rule governs its own parameter, Data Collection and Data Usage are governed by none, and every rule's override differs from its parameter's default |
| Scorer.RatingOfOutcome | main.py:26-47 | a rating is its default or the override of a firing rule for that parameter |
| Scorer.ApplyDistinct | main.py:35-47 | when no two rules share a target, applying the rules in order gives a parameter its rule's override if that rule fires and its starting value otherwise; a parameter no rule targets keeps its starting value |
| Scorer.RatingOfRule | main.py:26-47 | the rating a rule governs is that rule's override if the rule fires and the default otherwise |
| Scorer.RatingOfUntargeted | main.py:26-27 | Data Collection and Data Usage keep their defaults, because no rule targets them |
| Scorer.Score | main.py:50-108 | the report has exactly eight entries, in the fixed order, with constant names and explanations and a constant final explanation; the final rating is the mean of the eight reported ratings rounded to one decimal, ties to even |
| Scorer.RatingsFollowRules | main.py:26-47 | Collection and Usage are always 3. For each other rating, the value is its override when a keyword of its group occurs, and its default otherwise: Sharing 2/3, Selling 1/2, Security 4/3, Deletion 4/3, Opt-Out 4/2, Clarity 4/3 |
| Scorer.SumRatingsBounds | main.py:50-60 | `sum(all_ratings)`: with every rating in 1..4, the sum of `n` ratings lies between `n` and `4 * n` |
| Scorer.SumOfEight | main.py:50-60 | the sum of an eight-entry report is the eight ratings added up |
| Scorer.RatingRanges | main.py:26-47 | each rating lies between its default and its override |
| Scorer.RatingsBetweenOneAndFour | main.py:26-47 | every rating lies in {1, 2, 3, 4} |
| Scorer.RatingBounds | main.py:26-60 | every rating lies in 1..4, the sum lies in [20, 27], and the final rating lies in [2.5, 3.4] |
| Scorer.FinalRatingIsRoundedMean | main.py:60 | a tenths value satisfies the rounded-mean condition exactly when it is the reported final rating |
| Scorer.NoKeywordsGivesDefaults | main.py:26-60 | text without any of the eighteen keywords keeps every default; the sum is 22 and the final rating 2.8 |
| Scorer.SameLowerFormSameReport | main.py:20-23 | two texts with the same lower-case form get identical reports |
| Scorer.CaseInsensitive | main.py:20 | a text, its ASCII `Upper` form and its ASCII `Lower` form get identical reports |
| Scorer.FiresMonotone | main.py:22-23 | a rule that fires on a text fires on every text that contains it |
| Scorer.MoreTextFiresMoreRules | main.py:22-47 | for a text `t'` containing `t`, every rule that fires on `t` fires on `t'`; each rule-governed rating of `t'` equals that of `t` or is the rule's override; Collection and Usage are unchanged |
| Scorer.AppendingFiresMoreRules | main.py:22-47 | appending text never withdraws a rule; ratings move only to their rules' overrides |
| Scenarios.PlainTextExample | main.py:20-60 | "This is a policy document." keeps every default and gets a final rating of 2.8 |
| Scenarios.NegatedSellingExample | main.py:36-47 | "…do not sell…encryption…deletion…" gives Selling 1 and Security 4, and leaves Deletion at 3 |
| Scenarios.NegatedSellingFinalRating | main.py:50-60 | that text's ratings sum to 22, so its final rating is 2.8 |
| Scenarios.CaseExample | main.py:20-39 | "SELL my data" and "sell my data" get the same report, with Data Selling 1 |
| Handler.Analyze | main.py:117-120 | the result is the 400 "No policy text provided" error exactly when the text is empty; otherwise it is the scorer's report |
| Handler.HandleRequest | main.py:114-120 | a missing or empty `policy_text` field is refused with that error; any other text is scored |
| Handler.AcceptedTextGetsReport | main.py:117-122 | every non-empty text gets a report with eight entries in the fixed order and a final rating in [2.5, 3.4] |
| Handler.EmptyRequestsRefused | main.py:114-118 | the empty text, an empty JSON object and an explicitly empty field are all refused |

## Left out

- Flask plumbing is not modelled: app construction, CORS, the 16 MiB `MAX_CONTENT_LENGTH`, `request.get_json`, `jsonify`, routing and `app.run` (main.py:1-9, 112-127). It is framework glue with no scoring logic.
- Non-string JSON payloads are not modelled. The request body is a map from field names to strings, and the behaviour of `data.get` on other JSON values depends on library code that is not part of this model.
- Logging (main.py:5, 121) is not modelled. It is a side effect with no functional content.
- Text.Lower: maps only the ASCII letters A-Z and leaves every other character unchanged. Python's `str.lower` also applies the Unicode case mappings, which come from a library table, and it is context-sensitive for the Greek capital sigma. The scorer's decisions are still the same. A keyword is ASCII, so it can only match characters that lower-case to ASCII. Only two characters outside ASCII do: U+212A KELVIN SIGN, which lowers to "k", and U+0130, which lowers to "i" followed by U+0307. No keyword contains "k", and no keyword ends in "i", so neither can complete a match. The lemmas about `Lower` (`Text.OccursLower`, `Scorer.CaseInsensitive`) are stated for this ASCII mapping only.
- Text.Upper: maps only the ASCII letters a-z. Python's `str.upper` maps further characters into ASCII, for example "ß" to "SS" and the long s "ſ" to "S". So `Scorer.CaseInsensitive` does not carry over to Python's `upper`: "ſell".upper() is "SELL", which gets Data Selling 1, while "ſell" gets 2.
- Rounding.FinalTenths: the final rating is a whole number of tenths, not an IEEE double. The double the source returns is the one nearest to that many tenths.
- Handler.Analyze: says nothing about the scorer not being invoked for an empty text. A pure model has no notion of invocation, so the refusal is modelled as a result that does not depend on the scorer.
