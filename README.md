# firewise-agents: the deterministic core, in Dafny

This project models the parts of the firewise-agents backend whose results are
fixed by their inputs, and proves what they promise:

- **`calculate_debt_payoff`** (tools/debt_calc.py). A chain of guards picks one
  of five result shapes: already paid, invalid payment, zero interest,
  underwater, or closed-form amortisation. The closed form then derives the
  total paid, the total interest and the payoff date from the month count.
  Module `DebtCalc`, a pure model over exact reals.
- **`extract_json_from_response`** (agents/import_agent.py and its copy in
  agents/runway_agent.py). It recovers a JSON value from a model reply by
  trying three things in order: the whole text, the interior of the first
  fenced block, and the span from the first `{` to the last `}`.
  - Modules `TextScan` (the two regular-expression searches, written out as
    string functions) and `ImportAgent`.
  - `json.loads` is the function parameter `parse`.
- **The guards of `analyze_import`** (agents/import_agent.py). These are the
  refusal of empty or short text, the truncation to 15,000 characters, the
  validation of the reply into the schema of schemas/import_schema.py, the
  truncation warning with the 0.7 confidence cap, and the uniform
  zero-confidence failure result.
  - `AnalyzeImport` is a method, because the source reassigns
    `document_text` and updates the response in place.
  - The text extraction, the model call and the reading of the parsed
    dictionary's keys are parameters.
- **`format_request_for_agent`** (agents/runway_agent.py). It accumulates the
  per-type balances in a loop, computes the totals and the liquid assets
  (everything but real estate), and assembles the prompt sections with their
  fallbacks. Module `RunwayAgent`. The loop is the method
  `GroupBalancesByType`, proved against the function `BalancesByType`.
- **`get_inflation_rate`** (tools/inflation.py). A case-insensitive lookup in
  a four-entry table, with a generic answer for every other code. Module
  `Inflation`.

Design points:
- The closed-form month count `ceil(-log(1 - r*P/M) / log(1 + r))` is
  modelled by its exact meaning: the first month after which the amortised
  balance is no longer positive (`PayoffMonths`).
  - `PayoffMonthsIsCeilOfLogFormula` proves that this is the least `n` with
    `(1 + r)^n * (1 - r*P/M) >= 1`, which is the ceiling of the formula.
  - `LogArgumentInUnitInterval` proves that, in exact arithmetic, the
    source's "Unable to calculate" return cannot be reached once the earlier
    guards pass. In floating point it can be (see `DebtCalc.LogMonths` under
    "Left out").
- `round(x, k)` is round-half-even on exact reals. `math.ceil` is the exact
  ceiling.
- Python's fixed-point formatting (`:.0f`, `:.1f`) is the pair of function
  parameters `Formats`.
- The schema in schemas/import_schema.py only describes its fields: shares
  are the "number of shares or units held", the total value is shares times
  price, and the confidence is a "score 0-1". No validator checks a bound or
  that product. Deriving shares from total value and price, and being
  conservative, are instructions in the import prompt
  (agents/import_agent.py:66-72), not code. The model follows the code and
  states no such bounds.
- The truncation warning is the code's wording ("Document was truncated due
  to size. Some assets may be missing.").

## Model

| member | source | states |
|---|---|---|
| DebtCalc.CalculateDebtPayoff | tools/debt_calc.py:6-93 | A balance at or below 0 gives months 0, interest 0, year 2025, "already_paid". The other shapes occur exactly under their guards: payment at or below 0 gives `Failed` with -1; a rate at or below 0 gives the interest-free shape; a payment no larger than the first month's interest gives underwater; otherwise closed form. Months are -1 exactly on the error shapes. Every on-track result has at least one month, a month in [0, 12), and months = 12·(year − 2025) + month. Interest-free: interest 0, and months is the least number of payments covering the balance. Underwater: the interest is round(balance·rate/12, 2) and the shortfall round(balance·rate/12 − payment, 2), both at least 0. Closed form: months is the payoff month m, total paid = round(m·payment, 2), total interest = round(m·payment − balance, 2), years = round(m/12, 1), and both totals are at least 0. |
| DebtCalc.Classify | tools/debt_calc.py:26-64 | The guards in source order. Each outcome holds exactly when its condition holds and every earlier guard failed. |
| DebtCalc.InterestFreePayoff | tools/debt_calc.py:44-52 | Months is the least number of payments covering the balance: one fewer leaves part unpaid. Interest is 0, the status is on track, and the year/month split is that of months. |
| DebtCalc.Ceil | tools/debt_calc.py:45 | `math.ceil`: the least integer at or above its argument. |
| DebtCalc.UnderwaterPayoff | tools/debt_calc.py:55-64 | Status "underwater", the source's error text, months -1, the payment echoed back. The interest is round(balance·monthly rate, 2) and the shortfall round(balance·monthly rate − payment, 2), both non-negative. |
| DebtCalc.ClosedFormPayoff | tools/debt_calc.py:66-93 | An on-track closed-form result whose month count m is the exact payoff month. Total paid = round(m·payment, 2), total interest = round(m·payment − balance, 2), years = round(m/12, 1), and the totals are non-negative. |
| DebtCalc.LogMonths | tools/debt_calc.py:68-75 | In exact arithmetic the log step always yields the payoff month, so the error return at lines 71-75 is never taken. |
| DebtCalc.LogArgumentInUnitInterval | tools/debt_calc.py:69-75 | In exact arithmetic, once the guards pass, 0 < 1 − r·P/M < 1 and 1 + r is positive and not 1, so neither `math.log` nor the division fails. |
| DebtCalc.OnTrackTotals | tools/debt_calc.py:77-93 | For a month count m whose payments cover the balance: an on-track result with that count, total paid = round(m·payment, 2), total interest = round(m·payment − balance, 2), years = round(m/12, 1), both totals non-negative, month in [0, 12), and m = 12·(year − 2025) + month. |
| DebtCalc.ClosedFormTotals | tools/debt_calc.py:78-89 | The closed form reports the totals of its month count m, rounded to cents (total paid = round(m·payment, 2), interest = round(m·payment − balance, 2)), and those m payments cover the balance. |
| DebtCalc.PayoffMonths | tools/debt_calc.py:69-70 | The closed-form month count is at least 1. |
| DebtCalc.PayoffMonthsIsPaidOff | tools/debt_calc.py:69-70 | After that many payments the amortised balance is no longer positive; one payment fewer leaves it positive. |
| DebtCalc.PayoffMonthsIsLeast | tools/debt_calc.py:69-70 | Before the payoff month the balance is always positive. |
| DebtCalc.ReportedMonthIsFirstPaidOff | tools/debt_calc.py:66-70 | The month count `calculate_debt_payoff` reports in the closed-form branch is the first month with a non-positive balance. |
| DebtCalc.PaidOffIffPowerBound | tools/debt_calc.py:66-70 | The balance after n payments is non-positive exactly when (1 + r)^n · (1 − r·P/M) ≥ 1, i.e. n ≥ −log(1 − r·P/M)/log(1 + r). |
| DebtCalc.PayoffMonthsIsCeilOfLogFormula | tools/debt_calc.py:66-70 | The reported month count m satisfies the power bound and no smaller count does, so m is the least such n: the ceiling of the source's formula. |
| DebtCalc.PaymentsCoverPrincipal | tools/debt_calc.py:78-79 | months × payment ≥ balance, so the reported total interest is never negative. |
| DebtCalc.RoundHalfEven | tools/debt_calc.py:87-89 | The result is within half a unit of its argument, a tie goes to the even integer, and it is non-negative for a non-negative argument. |
| DebtCalc.RoundIsNearest | tools/debt_calc.py:87-89 | `round(x, places)` is within half a unit in the last place of x. |
| DebtCalc.ZeroBalanceZeroPaymentIsAlreadyPaid | tools/debt_calc.py:26-38 | A zero balance with a zero payment is "already paid" with 0 months, because the balance guard runs first. |
| DebtCalc.InterestFreeExample | tests/test_tools.py:109-119 | 10000 at 0% paid at 500 a month takes 20 months, with 0 interest, ending in year 2026, month 8. |
| DebtCalc.UnderwaterExample | tools/debt_calc.py:54-64 | 100000 at 20% paid at 100 a month is underwater with months -1, monthly interest 1666.67 and shortfall 1566.67. |
| Inflation.GetInflationRate | tools/inflation.py:5-58 | A code whose upper-case form is a table key returns that entry plus the known-code instruction. Any other code returns the country as given, range "2-4%" and the other instruction, with no target and no note. A target is present exactly for known codes. |
| Inflation.Upper | tools/inflation.py:47 | `country.upper()` for the characters that can upper-case into a table key: ASCII a–z and the long s become capitals in place, and every other character is kept. Python's length-changing mappings are not modelled (see "Left out"). |
| Inflation.UpperCasedCodeSameGuidance | tools/inflation.py:47-52 | Looking up the upper-cased spelling of a known code gives the same answer as the code itself. |
| Inflation.KnownLookupIgnoresCase | tools/inflation.py:47-52 | Two spellings with the same upper case that name a known entry give the same answer. |
| Inflation.UnitedStatesAnyCase | tools/inflation.py:20-52 | "us", "Us", "uS" and the default "US" all give the United States entry. |
| Inflation.UnknownCodeKeepsSpelling | tools/inflation.py:54-58 | "xyz" comes back as "xyz" (not upper-cased), with range "2-4%", no target and no note. |
| Inflation.EveryAnswerIsGuidance | tools/inflation.py:20-58 | Every answer has one of the two instructions and one of the table's three ranges. Every target is "2%". An unknown code keeps its spelling. |
| TextScan.IsSpaceIsPythonWhitespace | agents/import_agent.py:172 | The whitespace class used by `\s` and `str.strip` is exactly the 29 characters Python's `str.isspace` accepts, listed one by one. |
| TextScan.Join | agents/runway_agent.py:69 | `sep.join(parts)`: one part is returned as is, a non-empty list starts with its first part, and with a non-empty separator the result is empty exactly when there are no parts or one empty part. |
| TextScan.JoinSnoc | agents/runway_agent.py:69 | Joining one more part onto a non-empty list appends the separator and that part. |
| TextScan.Strip | agents/import_agent.py:215 | `str.strip`: the result is a contiguous stretch of the input, and everything cut from either end is whitespace. |
| TextScan.StripEndsNonSpace | agents/import_agent.py:215 | A non-empty stripped text starts and ends with a non-whitespace character. |
| TextScan.StripEmptyIffBlank | agents/import_agent.py:215 | The stripped text is empty exactly when every character is whitespace. |
| TextScan.FindFence | agents/import_agent.py:172 | The fence search matches the leftmost opening fence. It takes the optional `json` tag and the whole whitespace run after it, and ends the group at the nearest closing fence. It reports no match exactly when no fence pair fits the pattern. |
| TextScan.FenceInterior | agents/import_agent.py:172-175 | `group(1)` is exactly the text between the skipped tag/whitespace and the closing fence, and it contains no fence. |
| TextScan.FindBraceSpan | agents/import_agent.py:180 | The brace search runs from the first `{` to the last `}` after it. It reports no match exactly when no `}` follows any `{`. |
| TextScan.BraceSpan | agents/import_agent.py:180-183 | `group(0)` is that span, starting with `{` and ending with `}`. |
| ImportAgent.QuotedLength | agents/import_agent.py:187 | The length `text[:500]` keeps: the whole text when shorter, 500 otherwise. |
| ImportAgent.ParseError | agents/import_agent.py:187 | The error message is the prefix, the first 500 characters of the text (all of a shorter one), and "...". |
| ImportAgent.ExtractJsonFromResponse | agents/import_agent.py:163-187 | A text that parses is returned as is. Otherwise a parseable fence interior wins. Any success is the parse of the text, the fence interior or the brace span. It fails exactly when all three fail to parse, and then with the 500-character message. |
| ImportAgent.ExtractJsonIsFirstParsedCandidate | agents/import_agent.py:163-187 | The result is that of the first candidate (text, fence interior, brace span, in that order) that parses. It succeeds exactly when some candidate parses. |
| ImportAgent.FencedBlockInterior | agents/import_agent.py:172-175 | For a reply of prose, a ```` ```json ```` fence, a newline, a body and a closing fence (with no backtick in the prose or body), where the body is non-empty and does not start with whitespace, the text handed to `json.loads` is the body exactly. Leading whitespace would be eaten by the `\s*` before the group. |
| ImportAgent.ParseAssetType | schemas/import_schema.py:5 | Only the eight `AssetType` literals are accepted, each read back as itself. |
| ImportAgent.AssetTypeRoundTrip | schemas/import_schema.py:5 | Every literal is accepted. |
| ImportAgent.OptionalField | schemas/import_schema.py:12-17 | An `Optional[...] = None` field reads `None` exactly when it is absent or null, and the given value otherwise. |
| ImportAgent.DefaultedField | schemas/import_schema.py:14-18 | A field with a default reads the default when absent and the value when given, and fails exactly when null. |
| ImportAgent.ValidateAsset | schemas/import_schema.py:8-18 | `ExtractedAsset(**a)` succeeds exactly when name, a valid type and shares are given, and currency and confidence are not null. Absent currency reads "USD" and absent confidence 1.0. Optional fields read `None` for null or absent. |
| ImportAgent.ValidateAssetRoundTrip | schemas/import_schema.py:8-18 | Every asset written out with all its keys validates back to itself. |
| ImportAgent.ValidateAssets | agents/import_agent.py:251 | The comprehension succeeds exactly when every asset validates, and then returns the assets in order. Otherwise it fails with the error of the first invalid asset, every earlier asset being valid. |
| ImportAgent.Collect | agents/import_agent.py:251 | A list of results succeeds exactly when every element does, with the values in order. A failure is the error of the first failing element: every element before it succeeded. |
| ImportAgent.ValidateSourceInfo | agents/import_agent.py:252 | Each `SourceInfo` field is present exactly when given, and then holds the given value. |
| ImportAgent.BuildResponse | agents/import_agent.py:250-255 | Building succeeds exactly when no key is null and every asset validates. Absent keys read an empty asset list, an empty `SourceInfo`, no warnings and confidence 0.8. A null asset list fails with Python's "not iterable" `TypeError`, the first invalid asset fails with its error, and otherwise a null `source_info` fails with the `TypeError` of `SourceInfo(**None)`. |
| ImportAgent.BuildResponseRoundTrip | agents/import_agent.py:250-255 | Every response written out with all its keys builds back to itself. |
| ImportAgent.MissingConfidenceIsPointEight | agents/import_agent.py:254 | A reply with no keys builds an empty response with confidence 0.8. |
| ImportAgent.ReadReply | agents/import_agent.py:245-255 | Success means the call answered, the JSON was recovered and decoded, and the response is what `BuildResponse` gives for it. Conversely, a failed call gives its error, an unrecoverable reply gives the 500-character parse message, a failed decode gives its error, and a decoded reply gives `BuildResponse`'s result. |
| ImportAgent.AnalyzeImport | agents/import_agent.py:190-270 | An extraction error, or empty text, or stripped text under 50 characters: the failure result with one warning and no model call. Otherwise the model sees exactly the first 15000 characters, or all of a shorter text. Any later failure gives "Analysis failed: " plus the error. On success the validated reply is returned; when truncated, exactly one warning is appended and the confidence becomes min(parsed, 0.7), never raised. Every result without a model call has no assets, an empty `SourceInfo`, one warning and confidence 0. |
| ImportAgent.FailedAnalysis | agents/import_agent.py:208-221 | The failure result: no assets, an empty `SourceInfo`, exactly the given warning, and confidence 0. |
| ImportAgent.TooShortIsStrippedLength | agents/import_agent.py:215 | A text is refused exactly when its stripped length is under 50, and in particular whenever it is all whitespace. |
| ImportAgent.MinReal | agents/import_agent.py:259 | `min`: no larger than either argument, and equal to one of them. |
| RunwayAgent.GroupBalancesByType | agents/runway_agent.py:64-66 | After the loop the keys are exactly the distinct asset types, and each holds the sum of its assets' balances. |
| RunwayAgent.BucketsAddUpToTotal | agents/runway_agent.py:64-72 | The buckets, summed over any duplicate-free listing of the types, equal `total_assets`. |
| RunwayAgent.LiquidIsNonRealEstate | agents/runway_agent.py:74 | Total minus the real-estate bucket (0 when absent) is the sum over every asset that is not real estate. |
| RunwayAgent.InsertSorted | agents/runway_agent.py:69 | Inserting a new key keeps a list strictly sorted, adds exactly that key and lengthens it by one. |
| RunwayAgent.SortedTypes | agents/runway_agent.py:69 | The summary's keys are strictly ascending in Python's string order, and they are exactly the distinct types, each once. |
| RunwayAgent.SortedKeysUnique | agents/runway_agent.py:69 | Two strictly sorted lists with the same elements are equal, so the summary does not depend on the dictionary's order. |
| RunwayAgent.TotalBalance | agents/runway_agent.py:72 | `total_assets`: a single asset's total is its balance, and the total is non-negative when no balance is negative. |
| RunwayAgent.BucketEntry | agents/runway_agent.py:69 | One bucket's entry starts with its type followed by "=". |
| RunwayAgent.AssetsSummary | agents/runway_agent.py:69 | The summary is empty exactly when there are no buckets, and otherwise starts with the first sorted bucket's entry. |
| RunwayAgent.TotalDebts | agents/runway_agent.py:73 | `total_debts`: a single debt's total is its balance, and the total is non-negative when no balance is negative. |
| RunwayAgent.TotalDebtsAppend | agents/runway_agent.py:73 | The total of two lists joined is the sum of their totals. |
| RunwayAgent.DebtEntry | agents/runway_agent.py:78 | One debt's entry starts with its name followed by "=". |
| RunwayAgent.DebtEntries | agents/runway_agent.py:77-79 | One entry per debt, in the request's order. |
| RunwayAgent.HistoryEntry | agents/runway_agent.py:87 | One month's entry starts with the month's label followed by ": in=". |
| RunwayAgent.Render | agents/runway_agent.py:90-100 | The prompt starts with "Currency: " and the currency. It ends with the region line, the history section and the closing instruction, in that order. |
| RunwayAgent.DebtsSection | agents/runway_agent.py:77-80 | The section is "None" exactly when there are no debts. Otherwise it is the debts' entries in order, joined by ", ", starting with the first debt's entry. |
| RunwayAgent.RegionLine | agents/runway_agent.py:82 | "Region: <timezone>" for a non-empty timezone. The unknown-region line when it is missing or empty. |
| RunwayAgent.HistorySection | agents/runway_agent.py:85-88 | The section is empty exactly when there is no history. Otherwise it is the prefix and the months' entries in order, joined by "; ". |
| RunwayAgent.SummarizeAssets | agents/runway_agent.py:63-74 | The buckets are `BalancesByType`, and the sorted keys are exactly the distinct types. The total is the sum of balances, and the liquid total is the sum over non-real-estate assets. |
| RunwayAgent.FormatRequestForAgent | agents/runway_agent.py:59-100 | Every section of the prompt, as above: the buckets, the sorted types, the totals, the liquid total as the non-real-estate sum, the debts, the region and the history. The prompt is rendered from them. |
| RunwayAgent.ExtractJsonFromResponse | agents/runway_agent.py:103-127 | The runway copy fails only with the same 500-character message. |
| RunwayAgent.CopiesAgree | agents/runway_agent.py:103-127 | The two copies of `extract_json_from_response` agree on every reply and every parser. |

## Left out

- Floating point: every number is an exact real, so float rounding of the logarithms, of `balance / monthly_payment` and of the sums is not modelled.
- DebtCalc.ClosedFormPayoff: the logarithm step is modelled by its exact meaning (the first month the amortised balance is paid off), not by `math.log`. Where float `ceil` would land one month off, the model does not follow it.
- DebtCalc.Round: only its meaning (nearest, ties to even) is modelled, not the binary-float behaviour of Python's `round`.
- Inflation.Upper: models `str.upper` only for ASCII letters and the long s (U+017F), one character to one. Python also upper-cases other letters, some into two characters ('ß' into "SS"), so its result can be longer. No such mapping produces "US", "UK", "EU" or "JP", so the membership test agrees with Python's. An unknown code is returned as given, so `GetInflationRate` is unaffected.
- DebtCalc.LogMonths: in floating point the error return at tools/debt_calc.py:71-75 can be taken. With annual_rate 1e-17, balance 100 and payment 10, `1 + monthly_rate` rounds to 1.0, `math.log` returns 0.0, and the division raises `ZeroDivisionError`. The model uses exact reals, where this cannot happen.
- The document extractors (`extract_text_from_pdf`, `extract_text_from_csv`, `extract_text_from_excel`) and the base64 decode: `AnalyzeImport` takes their result, or their `ValueError` message, as a parameter.
- The model calls (`ChatOpenAI` and the prompt chains) are I/O: `llm` is a parameter of `AnalyzeImport`, and the runway prompt is only rendered.
- `json.loads` is the parameter `parse`. Reading the parsed dictionary's keys, including pydantic's type coercion, is the parameter `decode`.
- ImportAgent.BuildResponse: pydantic's exact error wording is not modelled, and neither is its choice among several simultaneous validation errors. Only whether validation fails, and with one of the errors, is stated.
- `calculate_runway` and the year-by-year runway rules exist only as prompt text for the model, so they are not modelled as code.
- The share-derivation and confidence-clamping rules in the import prompt are instructions to the model, not code.
- tools/stock_growth.py (a network fetch and float growth rates), the HTTP routes, main.py and config.py are not part of this model.
- Python's `:.0f` and `:.1f` formatting is the parameter `Formats`, not modelled digit by digit.
- Logging in `analyze_import` is not modelled.
