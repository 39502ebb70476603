# SPX/ES fair value: extraction and valuation

A Dafny model of the core of `spx_es_fair_value.py`. The program scrapes a
fair-value decomposition page, reads five market inputs from it (SPX price,
ES price, interest rate, expected dividends, days to expiry), computes the
theoretical fair price of the ES future and advises whether to short or buy it.

The model has four modules:

- `Wrappers` (`wrappers.dfy`): `Option` and `Result`.
- `CellText` (`cell_text.dfy`): the two cell-text normalisers. `SafeFloat` is
  `safe_float`: strip, blank gives 0.0, delete every `%`, parse, and give 0.0
  when the parse fails. `DaysToExpiry` is the stricter days rule: the stripped
  text must be non-empty and all digits, or the field is 0.
- `Extraction` (`extraction.dfy`): `fetch_fair_value_data`. The parsed page is a
  `seq<seq<seq<string>>>` (tables, rows, cell texts). `Extract` takes table 1
  and cell 1 of rows 1 to 5. A page of the wrong shape gives an error, never a
  partly filled record. A well-shaped page succeeds whatever text its cells
  hold, apart from two interpreter-level cases listed under "Left out": a
  digit string of more than 4300 digits, and a non-ASCII character that
  `isdigit()` accepts but `int()` rejects. `FetchFairValueData` adds the HTTP
  status check and builds the JSON-like response mapping.
- `Valuation` (`valuation.dfy`): `calculate_fair_value`. An error mapping is
  forwarded unchanged. Otherwise the inputs are read back from the mapping.
  The model computes `fair_value = interest_component - expected_dividends` and
  `fair_es = spx + fair_value`. The advice is "short ES" exactly when the ES
  price is above the unrounded fair price.

Three things stay opaque and are passed in as function parameters:

- Python's `float()` on strings: `parse: string -> Option<real>`.
- The fractional power `(1 + r) ** (d / 365)`: `pow: (real, real) -> real`.
- `round(x, 2)`: `round2: real -> real`.

The lemmas hold for every choice of these. Where a lemma needs a fact about
one of them, it takes that fact as a `requires`, for example `pow(x, 0.0) == 1.0`
or "`float("")` fails".

Two details of the code are easy to misread. The model follows the code:

- Only `%` is deleted before parsing. A thousands separator `,` reaches the
  parser unchanged (`CleanNumberKeepsOthers`), and Python's `float()` rejects
  a text such as `"5,000.00"`, so that field becomes 0.0.
- The advice has two outcomes, not three. Equality gives "buy ES"
  (`AdviceThreshold`, `ShortExactlyWhenAbove`).

## Model

| member | source | states |
|---|---|---|
| `CellText.TrimLeft` | spx_es_fair_value.py:25 | The result is a suffix of the text. Everything cut off is whitespace. The result is empty or starts with a non-space. |
| `CellText.TrimRight` | spx_es_fair_value.py:25 | The result is a prefix of the text. Everything cut off is whitespace. The result is empty or ends with a non-space. |
| `CellText.Strip` | spx_es_fair_value.py:25 | `str.strip()`: both ends of the result are non-space. The result is empty exactly when the text is all whitespace. |
| `CellText.StripIsSlice` | spx_es_fair_value.py:25 | The stripped text is a slice of the text, and everything outside the slice is whitespace. |
| `CellText.StripPadded` | spx_es_fair_value.py:25 | Surrounding whitespace is all that strip removes: `pre + t + post` strips to exactly `t`. |
| `CellText.RemoveAll` | spx_es_fair_value.py:25 | `replace(c, "")`: `c` no longer occurs. The multiset of characters is the input's with `c` taken out. |
| `CellText.RemoveAllAbsent` | spx_es_fair_value.py:25 | Deleting a character that does not occur leaves the text unchanged. |
| `CellText.RemoveAllOnly` | spx_es_fair_value.py:25 | Deleting the only character a text is made of leaves the empty string. |
| `CellText.RemoveAllConcat` | spx_es_fair_value.py:25 | Deletion distributes over concatenation, so the kept characters stay in order. |
| `CellText.CleanNumber` | spx_es_fair_value.py:25 | The text handed to `float()` has no `%`. Every other character of the stripped text is kept, with its count. |
| `CellText.CleanNumberKeepsOthers` | spx_es_fair_value.py:25 | A padded text without `%` reaches the parser as its core, unchanged. This includes `,`. |
| `CellText.CleanNumberPadded` | spx_es_fair_value.py:25 | A padded text is cleaned to its core with the `%` signs deleted. |
| `CellText.SafeFloat` | spx_es_fair_value.py:22-27 | Blank text gives 0.0. A cleaned text the parser rejects gives 0.0. Otherwise the result is the parse of the cleaned text. The function never fails. |
| `CellText.PercentOnlyIsZero` | spx_es_fair_value.py:24-27 | A cell holding only `%` signs, with any whitespace around them, gives 0.0 (for example `"%"`). |
| `CellText.DaysToExpiry` | spx_es_fair_value.py:33 | Stripped text that is not all digits, or is empty, gives 0. A non-empty digit string gives its decimal value. |
| `CellText.Decimal` | spx_es_fair_value.py:33 | The rendering of a natural is a non-empty digit string with no leading zero, or is "0". |
| `CellText.DecimalRoundTrip` | spx_es_fair_value.py:33 | Reading back the decimal rendering of any `n` gives `n`. |
| `CellText.LeadingNonZeroPositive` | spx_es_fair_value.py:33 | A digit string that does not start with `0` has a value of at least 1. |
| `CellText.CanonicalDigitsRoundTrip` | spx_es_fair_value.py:33 | A digit string with no leading zero is the rendering of its own value. |
| `CellText.LeadingZeroIgnored` | spx_es_fair_value.py:33 | A leading zero does not change the value, so `"007"` reads as 7. |
| `CellText.DaysToExpiryRoundTrip` | spx_es_fair_value.py:33 | Any `n`, rendered and padded with whitespace, is read back as `n`. |
| `CellText.DaysToExpiryRejectsNonDigit` | spx_es_fair_value.py:33 | One non-digit in the text between the padding makes the field 0, whether it is a sign, a point or an inner space. |
| `Extraction.Extract` | spx_es_fair_value.py:18-44 | The result is a success exactly when the page has a second table with at least six rows and rows 1 to 5 each have two cells. Every failure is the index error. On success, the fields come in order from cell 1 of rows 1 to 5, each normalised. The rate is divided by 100. |
| `Extraction.ExtractReadsOnlySelected` | spx_es_fair_value.py:19-33 | Two pages that agree on the five selected cells, or that both lack the shape, give the same outcome. |
| `Extraction.UnselectedCellIgnored` | spx_es_fair_value.py:29-33 | Rewriting any cell of table 1 other than cell 1 of rows 1 to 5 leaves the outcome unchanged. This includes every header-row cell. |
| `Extraction.OtherTableIgnored` | spx_es_fair_value.py:19 | Replacing any table other than the second leaves the outcome unchanged. |
| `Extraction.InterestRateDefault` | spx_es_fair_value.py:31 | A well-shaped page whose rate cell does not parse still succeeds, with an interest rate of 0.0. |
| `Extraction.BlankCellsGiveZeros` | spx_es_fair_value.py:22-33 | A well-shaped page whose five cells are blank gives all-zero inputs, not an error. |
| `Extraction.InputsResponseKeys` | spx_es_fair_value.py:35-41 | The success mapping has exactly the five input keys, and none of them is "error". |
| `Extraction.InputsResponseRoundTrip` | spx_es_fair_value.py:64-67 | Reading the inputs back from their mapping with `data[...]` gives the inputs. |
| `Extraction.FetchFairValueData` | spx_es_fair_value.py:7-44 | The result has key "error" exactly when the status is not 200 or the page lacks the shape. It carries the fetch message or the parse message, and "error" is then its only key. Otherwise its keys are the five inputs, and it decodes to the extracted record. |
| `Valuation.AdviceTextInjective` | spx_es_fair_value.py:78 | The short and buy messages differ. |
| `Valuation.AdviceThreshold` | spx_es_fair_value.py:78 | The advice is a threshold rule: short at one price means short at every higher price. At the fair price itself the advice is buy. |
| `Valuation.ExpiryDayFairValue` | spx_es_fair_value.py:69-72 | With 0 days to expiry (and `pow(x, 0) == 1`), the fair value is minus the dividends and the fair ES price is SPX minus the dividends. |
| `Valuation.NoCarryNoDividends` | spx_es_fair_value.py:69-72 | With zero rate and zero dividends (and `pow(1, e) == 1`), the fair value is 0 and the fair ES price equals SPX. |
| `Valuation.CalculateFairValue` | spx_es_fair_value.py:56-79 | An error mapping from the extraction is returned unchanged. The result has key "error" exactly when the extraction failed. Otherwise its keys are exactly `spx_price`, `fair_value`, `fair_es_price` and `arbitrage_advice`. The two prices are the rounded fair value and the rounded `spx + fair_value`. The advice compares the ES price with the unrounded fair ES price. |
| `Valuation.AdviceIgnoresRounding` | spx_es_fair_value.py:72-78 | The advice does not depend on the rounding function. |
| `Valuation.ShortExactlyWhenAbove` | spx_es_fair_value.py:72-78 | The advice is "short ES" exactly when the scraped ES price is strictly above the unrounded fair ES price. |
| `CellText.IsSpace` | spx_es_fair_value.py:25 | The whitespace set of `str.strip()` on ASCII: tab to carriage return, 0x1C-0x1F and space. |
| `CellText.IsDigits` | spx_es_fair_value.py:33 | `str.isdigit()` on ASCII: the text is non-empty and every character is `'0'` to `'9'`. |
| `CellText.DigitsValue` | spx_es_fair_value.py:33 | `int()` on a digit string: the decimal value, most significant digit first. |
| `Extraction.WellShaped` | spx_es_fair_value.py:19-33 | The shape the indexing needs: a second table with at least six rows, where rows 1 to 5 each have at least two cells. |
| `Extraction.Nth` | spx_es_fair_value.py:19 | Python list indexing: the element when the index is in range, otherwise the index error. |
| `Extraction.SecondCell` | spx_es_fair_value.py:29-33 | `rows[i].find_all("td")[1]`: succeeds exactly when row `i` exists and has two cells, and then gives cell 1. Any miss is the index error. |
| `Extraction.ErrorMessage` | spx_es_fair_value.py:14 | The message of each error: "無法取得資料" for a failed fetch, and "解析數據時發生錯誤: " followed by the index error's text for a missing table, row or cell (line 44). |
| `Extraction.ErrorResponse` | spx_es_fair_value.py:44 | The error dict: the single key "error" holding the message (also line 14). |
| `Extraction.InputsResponse` | spx_es_fair_value.py:35-41 | The success dict: the five fields under their source key names, with `days_to_expiry` an integer. |
| `Extraction.DecodeInputs` | spx_es_fair_value.py:64-67 | The `data[...]` reads of the valuation: the five fields when all keys are present with the right kinds of value. |
| `Valuation.InterestComponent` | spx_es_fair_value.py:69 | `spx_price * ((1 + interest_rate) ** (days_to_expiry / 365) - 1)`, with the power given as `pow`. |
| `Valuation.FairValue` | spx_es_fair_value.py:70-71 | The unrounded fair value: the interest component minus the expected dividends. |
| `Valuation.FairEsPrice` | spx_es_fair_value.py:72 | The unrounded fair ES price: SPX plus the fair value. |
| `Valuation.AdviceFor` | spx_es_fair_value.py:78 | Short when the ES price is strictly above the fair ES price, buy otherwise. |
| `Valuation.AdviceText` | spx_es_fair_value.py:78 | The two advice messages, "做空 ES" (short) and "買入 ES" (buy). |
| `Valuation.ValuationResponse` | spx_es_fair_value.py:74-79 | The success dict: `spx_price`, the rounded fair value, the rounded `spx_price + fair_value`, and the advice computed against that sum before rounding. |

## Left out

- The network fetch (lines 9-11): it is I/O. The status code and the parsed page are inputs. Only the non-200 check is modelled.
- BeautifulSoup parsing, `find_all` and `.text` (lines 16, 19-20): this is library code. The page is given already reduced to tables, rows and data-cell texts. Matching nested `<table>`/`<tr>` elements recursively is not modelled.
- The FastAPI app object and the routes `/`, `/fetch-data` and `/calculate-fair-value` (lines 1, 5, 47-54): they only dispatch to the modelled functions.
- Python's `float()` grammar: `inf`, `nan`, exponents, underscores and binary rounding. It is the `parse` parameter. The model says nothing about which strings it accepts beyond what a lemma requires.
- Floating-point arithmetic: the power and `round(..., 2)` are the parameters `pow` and `round2`, and all other arithmetic is exact over `real`. `calculate_fair_value` has no `try`, and the model does not capture two uncaught errors of the power at line 69:
  - A negative base with a fractional exponent gives a complex number, which `round` rejects. An example is a rate cell of "-150%" with a day count that is not a multiple of 365.
  - A power that overflows raises `OverflowError`. An example is a rate cell of "1e300" with 730 days, which evaluates `(1 + 1e298) ** 2.0`.
- Unicode behaviour of `str.strip()` and `str.isdigit()`: only the ASCII whitespace characters and `'0'`..`'9'` are modelled. A non-ASCII character that `isdigit` accepts but `int()` rejects would fall into the `except` at line 43. That path is not modelled.
- The text of the parse error is fixed to the Python `IndexError` text "list index out of range". Any missing table, row or cell raises that same error.
- Extraction.Extract: does not model the integer-string length limit of Python 3.11 and later (and of the 3.7-3.10 security releases). There, `int()` at line 33 raises `ValueError` for a digit string of more than 4300 digits, and the `except` at line 43 turns it into an error mapping. The model gives `Success` with the digit string's value instead, and so does `CellText.DaysToExpiry`.
- The order of the keys in the response dicts at lines 35-41 and 74-79: responses are maps, so the order in which FastAPI serialises the keys is not modelled. No code in the source depends on it.
- A divisor for the dividends, a manual-input endpoint and a three-way "no mispricing" advice: none of them is in this source file.
