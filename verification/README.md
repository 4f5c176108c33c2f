# Transaction extractor and bank-statement post-processing, in Dafny

This project models the pure logic of two small Python tools and proves what
that logic guarantees.

- **The transaction-log extractor** (`extract_transactions`). It finds every
  entry of the form `TXN:<TYPE> | AMT:<AMOUNT> | ID:<ALPHANUMERIC>` in a log
  with one regular expression and `re.findall`. It then turns each match into
  a `(type, amount, id)` triple, deleting the commas of the amount before
  `float` reads it.
  - Module `Extractor` writes the regular expression two ways: as a relation
    (`Shape`) and as a deterministic greedy matcher (`MatchAt`). Lemmas prove
    the two agree, with the ID always as long as possible.
  - `FindAll` is the left-to-right, non-overlapping scan. `Convert` is the
    loop that skips entries whose amount does not convert.
  - The five test cases of the source's own test function are lemmas.
- **The bank-statement post-processing.** This covers the helpers in
  `bank_parser/utils.py` (module `Utils`) and the non-I/O body of
  `process_bank_statement` (module `Process`).
  - `Utils` holds the helpers: account-number masking, amount normalisation,
    balance reconciliation and the quality report.
  - `Process` holds the test-mode fixture and the pipeline. The pipeline
    masks the account number, normalises the summary figures, validates the
    balances, and builds the result from the processed fields, the insights
    and the quality report.
  - Decoded JSON is the `Json.Value` datatype. A Python exception is an
    `Option` that is `None`, and a `try`/`except` is a branch on it.

Supporting modules:

- `Wrappers`: `Option`, and dropping the `None`s from a sequence.
- `Chars`: ASCII character classes, `strip`, deleting characters, and
  `p in t` on strings.
- `Decimal`: decimal numerals and the part of `float(str)` the code relies on.
- `Json`: the value datatype, plus truthiness, `dict.get`, `in`,
  `isinstance(v, (int, float))` and `float(v)`.

Amounts are exact `real`s. Integers are unbounded.

## Model

| member | source | states |
|---|---|---|
| Extractor.MatchSound | TransactionExtractor/extract_transactions.py:60-67 | What the greedy matcher returns at a position is a match of the regular expression there, with an ID that cannot be extended. |
| Extractor.MatchComplete | TransactionExtractor/extract_transactions.py:60-67 | Wherever the regular expression matches in any way, the greedy matcher finds a match with the same group boundaries and an ID at least as long. This is the match Python's backtracking engine returns. |
| Extractor.MatchAtIff | TransactionExtractor/extract_transactions.py:60-67 | The matcher succeeds at a position exactly when some match of the pattern starts there. |
| Extractor.ExactMatch | TransactionExtractor/extract_transactions.py:60-67 | A match of the pattern whose ID is followed by a non-alphanumeric (or the end) is exactly what the matcher returns. |
| Extractor.FindAll | TransactionExtractor/extract_transactions.py:69 | `findall`'s matches come in text order, do not overlap, and each is the match found at its own start. |
| Extractor.FindAllMissesNothing | TransactionExtractor/extract_transactions.py:69 | Every position where the pattern matches lies inside a reported match: only matches overlapping an earlier one are dropped. |
| Extractor.FindAllBound | TransactionExtractor/extract_transactions.py:69 | No more matches are reported than there are positions where the pattern matches. |
| Extractor.FindAllSound | TransactionExtractor/extract_transactions.py:60-69 | Every reported match is a match of the regular expression with a maximal ID. |
| Extractor.FindAllSkips | TransactionExtractor/extract_transactions.py:69 | Positions where nothing matches do not change what the scan reports. |
| Extractor.ScanGap | TransactionExtractor/extract_transactions.py:69 | Text containing no `T` holds no match, so the scan passes over it and reports the same matches as from its end. |
| Extractor.ScanMatch | TransactionExtractor/extract_transactions.py:69 | Where a match starts, the scan reports it and resumes right after its end. |
| Extractor.FoundInContext | TransactionExtractor/extract_transactions.py:60-69 | An entry the pattern matches whole is found where it stands in a longer log, whatever precedes it, when what follows it cannot extend its ID. |
| Extractor.MatchesStartWithLabel | TransactionExtractor/extract_transactions.py:62 | Every match begins with the upper-case label `TXN:`. |
| Extractor.MatchesNeedLabels | TransactionExtractor/extract_transactions.py:62-69 | There are never more match positions than `TXN:` labels. |
| Extractor.Matches | TransactionExtractor/extract_transactions.py:69 | The scan's matches are matches of the pattern, and there are no more of them than `TXN:` labels in the log. |
| Extractor.ShapeGroups | TransactionExtractor/extract_transactions.py:62-64 | In a match, the type group is a non-empty run of `A`-`Z`, the amount group is digits and commas optionally followed by a point and digits, and the ID group is a non-empty run of ASCII letters and digits. |
| Extractor.AmountOfParts | TransactionExtractor/extract_transactions.py:75 | `float` of the amount with its commas deleted is the integer part's digits read in base ten plus the fraction. It fails exactly when the integer part has no digit and there is no fraction. |
| Extractor.ToTransactionOfMatch | TransactionExtractor/extract_transactions.py:72-80 | The loop body drops a match exactly when its integer part is all commas with no fraction. Otherwise the entry's amount is the value of its digits, and the entry is well formed. |
| Extractor.EntryOfGroups | TransactionExtractor/extract_transactions.py:72-80 | The same as `ToTransactionOfMatch`, stated on the three group texts. |
| Extractor.ConvertAppend | TransactionExtractor/extract_transactions.py:72-80 | The loop keeps the order of the matches: converting two runs of matches one after the other equals converting them together. |
| Extractor.ConvertAll | TransactionExtractor/extract_transactions.py:72-80 | When every match converts, the loop keeps all of them, in order, each as its own entry. |
| Extractor.ConvertWellFormed | TransactionExtractor/extract_transactions.py:72-80 | Converting matches of the pattern yields only well-formed entries. |
| Extractor.ConvertsInContext | TransactionExtractor/extract_transactions.py:72-80 | An entry converts in a longer log exactly as it does on its own. |
| Extractor.EntryInLog | TransactionExtractor/extract_transactions.py:72-80 | An entry placed in a longer log converts to the transaction its type, amount digits, fraction and ID describe. |
| Extractor.ExtractTransactions | TransactionExtractor/extract_transactions.py:40-82 | Every returned entry has a non-empty upper-case type, a non-negative amount and a non-empty alphanumeric ID. There are at most as many entries as `TXN:` labels. |
| Extractor.NoLabelNoTransactions | TransactionExtractor/extract_transactions.py:69-82 | A log without a `TXN:` label yields no entries. |
| Extractor.ExampleOneEntry | TransactionExtractor/extract_transactions.py:21-28 | `TXN:CREDIT \| AMT:1,250.50 \| ID:AB123` yields `("CREDIT", 1250.50, "AB123")`. |
| Extractor.ExampleBasicLog | TransactionExtractor/extract_transactions.py:141-146 | The indented two-line log yields the credit of 1250.50 and then the debit of 500, in order. |
| Extractor.ExampleMessySpacing | TransactionExtractor/extract_transactions.py:151-152 | Two entries on one line, the first without spaces around its bars, yield `("DEBIT", 1000.0, "XYZ42")` and `("CREDIT", 200.75, "LMN55")`. |
| Extractor.ExampleNoColons | TransactionExtractor/extract_transactions.py:156 | `TXN CREDIT AMT 123 ID 999` yields nothing. |
| Extractor.ExampleMixedCase | TransactionExtractor/extract_transactions.py:159 | `Txn:Credit \| Amt:50 \| Id:abc999` yields nothing: labels are case-sensitive. |
| Extractor.ExampleMixedEntries | TransactionExtractor/extract_transactions.py:162-169 | The `INVALID LINE` is passed over, and the three entries around it are read in order with their grouped amounts. |
| Chars.Digits | bank_parser/utils.py:245 | The digit list of a string is no longer than the string and holds only digits. |
| Chars.DigitsAppend | bank_parser/utils.py:245 | The digit list distributes over concatenation, so it keeps every digit in its original order. |
| Chars.Strip | bank_parser/utils.py:253 | `strip()` leaves no whitespace at either end. |
| Chars.StripCutsSpace | bank_parser/utils.py:253 | The result of `strip()` is the text that follows the leading whitespace, and everything cut off before or after it is whitespace. |
| Chars.StripIdempotent | bank_parser/utils.py:253 | Stripping twice is stripping once. |
| Chars.RemoveAppend | bank_parser/utils.py:253 | Deleting characters distributes over concatenation. |
| Decimal.FloatOfString | bank_parser/utils.py:254 | `float(s)` succeeds exactly when the stripped string scans as a decimal numeral. |
| Decimal.ScanRender | bank_parser/utils.py:254 | Every valid numeral is recognised as itself, so the accepted strings are exactly the renderings of valid numerals. |
| Decimal.FloatOfRender | bank_parser/utils.py:254 | A rendered numeral reads back as its own value. |
| Decimal.FloatOfPlain | TransactionExtractor/extract_transactions.py:75 | An unsigned plain decimal reads as its digits' value plus its fraction, and only the empty string fails. |
| Decimal.FracValue | TransactionExtractor/extract_transactions.py:75 | The digits after a point are worth at least 0 and less than 1. |
| Utils.Mask | bank_parser/utils.py:244-246 | The mask is `****`, followed by four digits exactly when the input has at least four. Masking is total. |
| Utils.MaskShowsLastDigits | bank_parser/utils.py:245-246 | The digits a mask shows are the final digits of its input, in their original order. |
| Utils.MaskOfTail | bank_parser/utils.py:245-246 | Only the last four digits matter: what precedes a tail with four or more digits does not change the mask. |
| Utils.MaskIdempotent | bank_parser/utils.py:244-246 | Masking a mask changes nothing. |
| Utils.MaskNumber | bank_parser/utils.py:244-246 | Masking by value type: a string is masked by its digits; a list masks exactly when all its elements are strings; a dictionary with fewer than four all-digit keys gives `****`; a number, a boolean or `None` raises. |
| Utils.MaskOfCharParts | bank_parser/utils.py:245-246 | Masking a string equals masking the sequence of its one-character strings. |
| Utils.MaskOfCharList | bank_parser/utils.py:245-246 | A list of one-character strings is masked as the string they spell. |
| Utils.MaskOfLastParts | bank_parser/utils.py:245-246 | List elements are joined whole: four all-digit elements at the end make up the mask, whatever their lengths. |
| Utils.NormalizeAmount | bank_parser/utils.py:249-256 | Numbers become floats of the same value (exactly; see `## Left out`), and booleans become 1.0 and 0.0. `None`, lists and dictionaries yield `None`. |
| Utils.NormalizeNumeral | bank_parser/utils.py:252-254 | A string whose cleaned form is a decimal numeral normalises to that numeral's value. |
| Utils.NormalizeSound | bank_parser/utils.py:252-256 | A string that normalises to `x` is, once cleaned, a decimal numeral whose value is `x`. |
| Utils.NormalizeEmpty | bank_parser/utils.py:255-256 | The empty string and a lone currency sign yield `None` and raise nothing. |
| Utils.IgnoredAnywhere | bank_parser/utils.py:253 | Commas and the rupee, dollar and euro signs are ignored wherever they stand. |
| Utils.NormalizeCurrency | bank_parser/utils.py:253 | A leading currency sign does not change the result. |
| Utils.Total | bank_parser/utils.py:263-264 | A missing, `None`, zero or otherwise falsy total reads as 0. A truthy one is the stored value. |
| Utils.ValidateBalances | bank_parser/utils.py:259-271 | Validation fails exactly when the summary is not a mapping or a total cannot be converted. Otherwise it writes the summary back and keeps every other key. The only change it can make is adding the mismatch flag as true: always when the balances are off, never when they reconcile. |
| Utils.ValidateChecks | bank_parser/utils.py:266-269 | With numeric balances and totals, the flag is set exactly when the closing balance is more than 5.0 away from opening + credits - debits. |
| Utils.ValidateSkips | bank_parser/utils.py:266-271 | Unless both balances are numbers, nothing is checked and the summary is only written back. |
| Utils.AbsentTotalIsZero | bank_parser/utils.py:263-264 | A missing, `None` and zero total give the same verdict. |
| Utils.SameReading | bank_parser/utils.py:260-268 | Validation reads only the opening and closing balances and the two totals (a falsy total as 0): two summaries that agree on those get the same verdict, whatever other keys they hold. |
| Utils.ToleranceBoundary | bank_parser/utils.py:268 | A difference of exactly 5.0 is tolerated, one of 5.5 is flagged, and a `None` total counts as 0. |
| Utils.ComputeQuality | bank_parser/utils.py:274-282 | The report has exactly four keys. OCR confidence is always `None`, duplicates are never claimed, model extraction is always recorded, and there is at most one warning. |
| Utils.QualityWarningsCases | bank_parser/utils.py:276-281 | Each of the three warning outcomes happens exactly under its cause: a non-mapping `fields`, falsy transactions, or neither. |
| Utils.QualityWithoutTransactions | bank_parser/utils.py:277-279 | Fields without transactions are reported as having none. |
| Utils.QualityOfTransactions | bank_parser/utils.py:277-279 | A list of transactions silences the warning exactly when it is not empty. |
| Json.Contains | bank_parser/process_bank_statement.py:62 | `key in v` is key membership for a dictionary and element membership for a list. It raises exactly for a number, a boolean or `None`. |
| Json.ContainsText | bank_parser/process_bank_statement.py:62 | A string contains any key written into it, and no key longer than itself. |
| Json.ToFloat | bank_parser/utils.py:267-268 | `float(v)` converts numbers and booleans, and raises for `None`, lists and dictionaries. |
| Process.TestModeFixture | bank_parser/process_bank_statement.py:46-51 | In test mode the result is the fixture, whatever the path and the other inputs. Its quality report has no warnings and claims no duplicates. |
| Process.MockReconciles | bank_parser/process_bank_statement.py:26-30 | The fixture's balances reconcile (15000 + 9000 - 6650 = 17350), so validation leaves its fields as they are. |
| Process.MockIsFixedPoint | bank_parser/process_bank_statement.py:15-47 | Post-processing the fixture's fields changes nothing. |
| Process.Normalized | bank_parser/process_bank_statement.py:68 | A normalised figure is a float or `None`, and always a float for a number. |
| Process.NormalizedIdempotent | bank_parser/process_bank_statement.py:68 | Normalising a normalised figure again changes nothing. |
| Process.NormalizeKeys | bank_parser/process_bank_statement.py:66-68 | The loop keeps the summary's keys. Listed keys that are present are normalised, and every other entry is untouched. |
| Process.AccountStep | bank_parser/process_bank_statement.py:61-63 | The masking statement succeeds exactly when its membership test and the masking do not raise. It changes at most `account_info`. |
| Process.PostProcess | bank_parser/process_bank_statement.py:60-76 | The block removes no key and changes nothing but `account_info` and `summary`. |
| Process.MaskedWhenPresent | bank_parser/process_bank_statement.py:62-70 | A present account number is masked into `masked_account_number`, the raw number stays, and the result survives the rest of the block. |
| Process.UnmaskedWhenAbsent | bank_parser/process_bank_statement.py:62 | Without `account_number` the account information is left as it is. |
| Process.AccountStepRaises | bank_parser/process_bank_statement.py:60-76 | When the masking statement raises, the whole block is abandoned and nothing changes. |
| Process.AccountNotAMapping | bank_parser/process_bank_statement.py:61-62 | Account information that is a non-empty string or list without `account_number` passes the masking statement untouched. |
| Process.ShortTextAccountInfo | bank_parser/process_bank_statement.py:61-73 | Account information given as short text does not stop the block. The summary is still normalised, and the text is written back unchanged. |
| Process.SummaryNormalized | bank_parser/process_bank_statement.py:65-70 | Only the five balance figures are normalised, and only those present. Nothing is added except possibly the mismatch flag, and other entries keep their values. |
| Process.ValidatedAfterNormalizing | bank_parser/process_bank_statement.py:65-73 | Validation sees the normalised summary. The flag ends up true exactly when it already was, or when the normalised balances do not reconcile. |
| Process.SummaryStepValidates | bank_parser/process_bank_statement.py:65-73 | The same, for the statements after the masking. |
| Process.NormalizedTotalsConvert | bank_parser/process_bank_statement.py:68-73 | After normalisation every total converts, so validation of a mapping summary never raises. |
| Process.SummaryLoopRaises | bank_parser/process_bank_statement.py:65-76 | A non-mapping summary that the loop cannot search or index ends the block after the masking statement, whose write stays. |
| Process.TextSummaryWritten | bank_parser/process_bank_statement.py:65-73 | A text summary naming no balance key passes the loop. Both writes happen before validation raises, so missing account information becomes an empty mapping. |
| Process.ShortTextPassesLoop | bank_parser/process_bank_statement.py:66-67 | A text shorter than every balance key names none of them. |
| Process.EmptyFieldsProcessed | bank_parser/process_bank_statement.py:60-73 | Empty fields come out with an empty summary and empty account information. |
| Process.Processed | bank_parser/process_bank_statement.py:57-76 | Fields that are not a mapping are kept as they are. A mapping keeps all its keys. |
| Process.Report | bank_parser/process_bank_statement.py:79-85 | The result has exactly the keys `fields`, `insights` and `quality`. `quality` is computed from the processed fields. |
| Process.ProcessBankStatement | bank_parser/process_bank_statement.py:49-85 | Test mode returns the fixture. Otherwise the result has exactly three keys: the processed fields of the extraction and their quality report. |
| Process.MissingFields | bank_parser/process_bank_statement.py:57-83 | An extraction that is not a mapping, or has no `fields`, is processed as empty fields, and the report warns that no transactions were extracted. |
| Process.FieldsNotAMapping | bank_parser/process_bank_statement.py:57-83 | Fields that are present but not a mapping pass through untouched, and the report warns about the structure. |
| Process.InsightsOfResult | bank_parser/process_bank_statement.py:79-80 | `insights` is the insights result's `insights` entry, or `[]` when that result is not a mapping or has no such entry. |

## Left out

- Decimal.FloatOfString: accepts only an optional sign, digits and an optional point with digits. It rejects exponents (`1e3`), `inf`, `nan` and underscores between digits, all of which Python's `float` accepts.
- Utils.NormalizeAmount: inherits that grammar, so a summary figure such as `"1e3"` or `"inf"` normalises to `None` in the model and to a float in Python.
- Utils.NormalizeAmount: `float(v)` of an integer is taken as the exact value. Python rounds integers above 2^53 to the nearest float and raises `OverflowError` for integers of 2^1024 or more. That raise, at bank_parser/utils.py:250-251, comes before the `try`, so the exception reaches the `except` at bank_parser/process_bank_statement.py:75-76 and the post-processing block is abandoned with the summary partly normalised. Process.NormalizeKeys, Process.SummaryNormalized, Process.ValidatedAfterNormalizing, Process.SummaryStepValidates and Process.NormalizedTotalsConvert inherit this: they take every integer figure to normalise to itself.
- Chars.IsDigit, Chars.IsSpace: only ASCII is modelled. Python's `\d`, `\s`, `str.isdigit`, `str.isspace` and `str.strip` also accept non-ASCII digits and whitespace; the extractor pattern, masking and normalisation are stated for ASCII only.
- Extractor.ExtractTransactions: amounts are exact decimals, not binary floats. Python rounds `float(amount)`, and an amount with hundreds of digits becomes `inf`.
- Utils.ValidateBalances: compares exact reals. Python's binary floats can round a difference near the 5.0 tolerance across the boundary. `float` of a huge integer raises `OverflowError`, and such a total or balance would end the block there.
- Json.Value: dictionaries are unordered maps. Python keeps insertion order, which shows in the order of the output's keys.
- Utils.MaskNumber: an account number that is a dictionary with four or more all-digit keys is modelled as raising, so the masking statement, and with it the whole post-processing block, is abandoned. Python masks it with the last four such keys in insertion order and continues. The model keeps no key order to say which four.
- Extractor.ExtractTransactions: the `TypeError` raised for a non-string log (TransactionExtractor/extract_transactions.py:56-57) is not modelled. The log is a `string` by type.
- TransactionExtractor/extract_transactions.py:187-372 repeats lines 1-186 of the same file word for word; it is modelled once.
- The extractor's command line and file reading (`main`, `_read_file`, the `--test` runner) are I/O. Its test cases are the `Example` lemmas.
- Process.ProcessBankStatement: the model extraction (`gemini_extract_json_from_file`) and the insights request (`gemini_insights_from_fields`) are network calls. Their results are the parameters `extracted` and `insights`. The insights request's argument, the processed fields, is not modelled.
- OCR and PDF text reading, the Gemini REST helpers, the environment-variable check at import, prompt reading and the command-line entry point of the pipeline are I/O and are not part of this model.
