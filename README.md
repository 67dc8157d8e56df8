# email_extract in Dafny

This project models the core of `email_extract`, a freight-forwarding email extractor. It covers both halves of that core.

The extraction pipeline:

- builds the port lookup and the port reference listing;
- fills the prompt template;
- calls a completion service with retries, falling back to a second model;
- picks the JSON text out of the reply;
- repairs the decoded dictionary (canonical port names, null consistency, the email id);
- builds a validated `ShipmentExtraction` through the schema's defaults and validators;
- turns every failure into the placeholder record, so a batch yields one record per email in input order.

The evaluation engine:

- joins ground truth and output on their ids;
- compares every evaluated field with the type-dependent comparator;
- counts correct fields per field and overall, with accuracies in percent.

The modules follow the source files:

| module | source |
|---|---|
| `Schemas` | `schemas.py` |
| `Prompts` | `prompts.py` |
| `Extract` | `extract.py` |
| `Evaluate` | `evaluate.py` |

Three more modules are shared:

- `Json`: the decoded JSON scalars.
- `Builtins`: the Python built-ins the code relies on (case mapping for ASCII letters only):
  - `str.strip`, `str.lower` and `str.upper`;
  - string ordering;
  - `str.join`;
  - `round(x, 2)` with round-half-even on exact values.
- `Sequences`: the de-duplication that gives a `dict` its key order.

How the stateful parts are modelled:

- `EmailExtractor` and `ExtractionEvaluator` are classes.
  - Their loops (`_build_port_lookup`, `_call_llm_with_retry`, `extract_batch`, `evaluate_field`, `evaluate_all`, the dictionary comprehensions) are methods.
  - Each method is proved against a specification function written without loops.
  - The properties themselves are lemmas about those functions.
- The in-place edit of the decoded dictionary is a method on a `JsonDict` object.
- What lies outside the program becomes a parameter of the extractor:
  - the completion service;
  - `json.loads`;
  - the clock.
- The service is a function from (model, prompt) to the outcomes of its three attempts.
- The decoder is a function from text to an optional dictionary.
- Every `time.sleep` is recorded as a `Sleep` event in a trace that the methods return.

Where the code and the documented behaviour differ, the model follows the code:

- **Fallback model.** It is asked only when the primary model returns no reply after its three attempts. A reply that holds no JSON, or whose dictionary fails validation, ends in the placeholder without trying the fallback (`extract.py:188-249`).
- **Raw JSON span.** Without a fenced block, the JSON text runs from the first `{` to the last `}` of the reply (greedy `\{.*\}`), not to the end of the first balanced object (`extract.py:75`).
- **Booleans in the comparator.** The numeric test comes before the boolean test, and a `bool` is an `int`, so the boolean branch is never reached. `true` matches `1` (`evaluate.py:77-82`).
- **Negative quantities.** Rounding runs before the sign check, so `-0.004` is accepted and stored as `0.0`. Only values below `-0.005` are refused (`schemas.py:55-67`).
- **Incoterm.** Any string is accepted and upper-cased. There is no check against an incoterm vocabulary (`schemas.py:69-74`).
- **Port names.** A non-null code that is not in the lookup keeps the name the model gave. A missing code counts as null, so its name is set to null (`extract.py:151-161`).

## Model

| member | source | states |
|---|---|---|
| Builtins.Round2 | schemas.py:55-60 | `round(x, 2)` has two decimals and lies within 0.005 of `x` |
| Builtins.Round2Fixes | schemas.py:55-60 | a value with two decimals is left alone, so rounding twice is rounding once |
| Builtins.Round2Negative | schemas.py:55-67 | a rounded value is negative exactly when the input is below -0.005 |
| Builtins.UpperNormalizes | schemas.py:69-74 | upper-casing leaves no lower-case letter, and `upper` is idempotent |
| Builtins.StripLeft | evaluate.py:73-74 | `lstrip` removes exactly the leading whitespace |
| Builtins.StripRight | evaluate.py:73-74 | `rstrip` removes exactly the trailing whitespace |
| Builtins.FobExample | evaluate.py:73-74 | "FOB" and "fob" have the same trimmed lower-case form |
| Builtins.JoinContainsPart | prompts.py:200 | every part occurs in `sep.join(parts)` |
| Builtins.LessTransitive | prompts.py:194 | string ordering is transitive |
| Builtins.LessTotal | prompts.py:194 | two different strings are ordered one way or the other |
| Builtins.LessAsymmetric | prompts.py:194 | string ordering is asymmetric |
| Sequences.Dedup | evaluate.py:34-35 | dict key order holds each inserted key exactly once, and no other |
| Sequences.DedupIsSubsequence | prompts.py:183-190 | dict keys are a subsequence of the inserted keys |
| Sequences.DedupFirstOrder | prompts.py:183-190 | of two dict keys, the one inserted first comes first, so the keys are the distinct inserted keys in first-insertion order |
| Schemas.Construct | schemas.py:15-74 | construction succeeds exactly when the id is a string, the optional strings are strings or null, the quantities are null or numbers not below -0.005, and `is_dangerous` is a boolean when present; the record then holds each value, with quantities rounded, the incoterm upper-cased and the defaults for missing keys, and satisfies the validators |
| Schemas.QuantityAccepted | schemas.py:55-67 | a quantity passes the two validators exactly when it is null or a number not below -0.005, and what is kept is the rounded, non-negative number |
| Schemas.ConstructToDict | schemas.py:55-74 | a validated record written out as a dictionary constructs back to itself |
| Schemas.FieldDefaults | schemas.py:17-53 | given only an id, every optional field is `None` and `is_dangerous` is `False` |
| Schemas.RoundingExample | test_setup.py:116-124 | 123.456789 is stored as 123.46 and 7.891234 as 7.89 |
| Schemas.NegativeAfterRounding | schemas.py:55-67 | -0.004 is accepted as 0.0; -0.01 is refused |
| Schemas.IncotermUppercased | schemas.py:69-74 | any incoterm string is accepted and stored upper-cased |
| Prompts.FormatPromptContains | prompts.py:168-174 | every placeholder's value occurs in the formatted prompt |
| Prompts.GroupedSpec | prompts.py:183-190 | the grouping has one entry per input code, listing that code's distinct names in first-seen order |
| Prompts.GroupPorts | prompts.py:183-190 | the grouping loop builds that grouping and the first-seen order of its codes |
| Prompts.SortCodes | prompts.py:194 | sorting is a permutation of the codes |
| Prompts.SortAscending | prompts.py:194 | distinct codes come out strictly ascending |
| Prompts.FormatLines | prompts.py:193-198 | the formatting loop yields one line per listed code, in order |
| Prompts.GetPortReferenceText | prompts.py:177-200 | the listing is the lines of the smallest codes joined by newlines |
| Prompts.ListedCodesSpec | prompts.py:194 | the listed codes are distinct input codes in ascending order; there are `max_ports` of them, or all when fewer, and a negative `max_ports` leaves out that many of the largest; every code left out sorts after every listed one |
| Prompts.ReferenceLinesSpec | prompts.py:195-198 | line `i` is `- code: names`, with the distinct names of the `i`-th listed code joined by commas; the one-name branch agrees |
| Prompts.EmptyListing | prompts.py:177-200 | no ports give an empty listing |
| Prompts.EveryCodeListed | prompts.py:177-200 | with at most `max_ports` distinct codes, every input code occurs in the listing |
| Prompts.HongKongListed | test_setup.py:145-151 | "HKHKG" occurs in the listing of the two test ports |
| Extract.FirstIndex | extract.py:47-57 | the first reference entry carrying a code |
| Extract.FindFence | extract.py:70 | the fenced-block search finds the leftmost start and, there, the shortest group; when it finds nothing, no position matches |
| Extract.FencedJson | extract.py:70-72 | group 1 of the fenced-block match starts with `{` and ends with `}` |
| Extract.RawJson | extract.py:75-77 | the raw match exists exactly when some `{` precedes some `}`, and it runs from the first `{` to the last `}` |
| Extract.ExtractJsonFromResponse | extract.py:59-84 | the fenced block is decoded when present, and only it; otherwise the raw span; `None` when neither matches |
| Extract.Repaired | extract.py:139-166 | a known code sets the canonical name; a null or missing code nulls the name; other names are kept; the id is the email's; no other key changes |
| Extract.RepairIdempotent | extract.py:139-166 | repairing twice is repairing once |
| Extract.RepairExample | extract.py:151-152 | code HKHKG with name "HK" gets the name "Hong Kong" |
| Extract.RepairFixedPoint | extract.py:139-166 | a dictionary whose names already agree with its codes, and which carries the id, is left unchanged |
| Extract.RepairRecordFixedPoint | extract.py:139-166 | repairing the dictionary of a consistent record changes nothing |
| Extract.Placeholder | extract.py:196-210 | the placeholder is what the schema's defaults give for the id alone |
| Extract.RetryAttempts | extract.py:99-137 | at most three attempts; the first success ends the request with its text; `None` only after three failures |
| Extract.RetryTraceShape | extract.py:99-135 | attempts and pauses alternate, starting and ending with an attempt, and every pause lasts 1 s or between 2 s and 30 s |
| Extract.RateLimitDelayStep | extract.py:97-127 | `min(delay * 2, 30)` from 2 walks through the capped doubling `min(2 * 2^k, 30)` |
| Extract.RetryTraceOfPrefix | extract.py:99-135 | a request is its failed attempts, each with its pause, then one last attempt |
| Extract.BatchPauses | extract.py:268-275 | when no email's trace holds a 0.5 s pause, `n` emails pause `n - 1` times |
| Extract.EmailExtractor.constructor | extract.py:31-45 | the extractor holds the listing of the references (at most 30 codes) and their lookup |
| Extract.EmailExtractor.BuildPortLookup | extract.py:47-57 | the lookup has exactly the reference codes, each mapped to the name of its first entry |
| Extract.EmailExtractor.CallLlmWithRetry | extract.py:86-137 | returns the first successful attempt's text, or `None`, with the schedule of attempts and pauses |
| Extract.EmailExtractor.ValidateAndFix | extract.py:139-166 | the dictionary is repaired in place and the same object is returned |
| Extract.EmailExtractor.FinishedRecord | extract.py:168-249 | whatever the reply, the record carries the email's id, its port names agree with its codes, and it passes the validators |
| Extract.EmailExtractor.ExtractSingleEmail | extract.py:168-249 | returns the record of the email, primary model first and the fallback on no reply, with the email's id, consistent port names and validated fields |
| Extract.EmailExtractor.ExtractionAt | extract.py:268-281 | the `i`-th record of a batch is the record of the `i`-th email |
| Extract.EmailExtractor.ExtractionIds | extract.py:268-281 | every record of a batch carries its email's id |
| Extract.EmailExtractor.ExtractBatch | extract.py:251-281 | one record per email, in input order, each with its email's id; the trace is each email's trace, with a pause between emails |
| Extract.EmailExtractor.FallbackOnlyAfterPrimaryFails | extract.py:188-194 | the fallback model is asked exactly when the primary model gives no reply |
| Extract.EmailExtractor.BadReplyIsFinal | extract.py:212-249 | a reply without JSON, or one refused by validation, gives the placeholder, and the fallback is not asked |
| Extract.EmailExtractor.NoReplyGivesPlaceholder | extract.py:196-210 | with no reply from either model the email gets the placeholder after six attempts and four pauses |
| Extract.EmailExtractor.BatchPausesOf | extract.py:268-275 | a batch of `n` emails pauses 0.5 s exactly `n - 1` times |
| Extract.EmailExtractor.EmailTraceHasNoPause | extract.py:123-135 | no retry pause lasts 0.5 s |
| Evaluate.CompareValues | evaluate.py:54-85 | null equals null only; strings match on their trimmed lower-case forms; numbers (booleans included) match on their values rounded to two decimals; a string never matches a non-string |
| Evaluate.CompareIsKeyEquality | evaluate.py:54-85 | two values compare equal exactly when their comparison keys are equal, whatever the field |
| Evaluate.CompareSymmetric | evaluate.py:54-85 | the comparator is symmetric |
| Evaluate.CompareReflexive | evaluate.py:54-85 | every value matches itself |
| Evaluate.CompareTransitive | evaluate.py:54-85 | the comparator is transitive |
| Evaluate.NumberExamples | evaluate.py:77-82 | 500.0 matches 500.004; 5.0 does not match 5.01; `true` matches `1`; `true` does not match `false` |
| Evaluate.StringNeverMatchesNumber | evaluate.py:73-85 | a string never matches a number |
| Evaluate.Lookup | evaluate.py:34-35 | the lookup has one entry per id of the list, each under its own id |
| Evaluate.LookupLastWins | evaluate.py:34-35 | when an id occurs several times, the last item carrying it wins |
| Evaluate.Mismatches | evaluate.py:101-117 | the incorrect ids are exactly the scored ids the output is wrong about, each once |
| Evaluate.CorrectCount | evaluate.py:101-119 | correct plus incorrect is the number of ids scored |
| Evaluate.MismatchesInOrder | evaluate.py:101-117 | incorrect ids follow the order of the ground-truth ids |
| Evaluate.OutputOnlyIdsIgnored | evaluate.py:101-117 | output items whose ids are not in the ground truth change no count |
| Evaluate.AllCorrect | evaluate.py:101-119 | an output right about every id has no mismatch and a full count |
| Evaluate.Accuracy | evaluate.py:134 | accuracy is `correct / total * 100`, 0 for no total, between 0 and 100, and 100 when all are correct |
| Evaluate.FieldScoresSpec | evaluate.py:132-141 | there is an entry for each evaluated field and no other, holding that field's own score |
| Evaluate.TotalCorrect | evaluate.py:143 | the overall correct count is at most the number of fields times the number of ids |
| Evaluate.EvaluatedFieldsDistinct | evaluate.py:10-20 | nine distinct evaluated fields |
| Evaluate.AgreementTotal | evaluate.py:128-147 | an output that agrees on every field and id scores every field |
| Evaluate.OverallScenario | evaluate.py:121-155 | the ground truth against itself scores 100%, with nine fields per distinct id |
| Evaluate.SingleEmailScenario | evaluate.py:121-155 | one email that agrees on every field scores 9 of 9, that is 100% |
| Evaluate.IncotermAndWeightScenario | evaluate.py:54-85 | "FOB" against "fob", 500.0 against 500.004 and missing fields on both sides all match |
| Evaluate.StringsCompareTrimmedLowerCase | evaluate.py:73-74 | strings with the same trimmed lower-case form match |
| Evaluate.IncotermAndWeightAccuracy | evaluate.py:121-155 | the incoterm-and-weight email scores 100% overall |
| Evaluate.ExtractionEvaluator.constructor | evaluate.py:22-35 | both lookups come from their lists, and the scored ids are the ground-truth ids in first-seen order |
| Evaluate.ExtractionEvaluator.BuildLookup | evaluate.py:34-35 | the comprehension loop builds the lookup and its key order |
| Evaluate.ExtractionEvaluator.EvaluateField | evaluate.py:87-119 | every ground-truth id is scored once; the total is the number of ids, the incorrect ids are the mismatches in order, and correct plus incorrect is the total |
| Evaluate.ExtractionEvaluator.ScoreFields | evaluate.py:128-155 | the loop records each field's score and sums correct counts and totals |
| Evaluate.ExtractionEvaluator.EvaluateAll | evaluate.py:121-155 | one entry per evaluated field, nine in all, each holding its score; the overall correct count is the sum, the overall total is nine times the ids, and the accuracy is between 0 and 100 |
| Evaluate.ExtractionEvaluator.MissingIdWrongEverywhere | evaluate.py:101-105 | a ground-truth id missing from the output is incorrect for every field |

## Left out

- The completion client: the Groq SDK, its messages, temperature and token cap are not modelled. An attempt is reduced to one of three outcomes: text, an error whose message mentions "rate_limit" or "429", or any other error.
- A reply whose content is `None`: it is not modelled; a successful attempt always carries text.
- The completion service: it is a fixed function of model and prompt, so the model does not capture a service that answers the same prompt differently on a later call.
- `json.loads`: it is a parameter that maps text to an optional dictionary. Both patterns select text that starts with `{`, so decoding gives an object or fails.
- Nested JSON values: only scalar values are modelled. The source compares nested values with `==`, and this comparison is not modelled.
- Extract.EmailExtractor.ExtractBatch: one record per email is proved only for replies whose values are scalars. A port code given as a JSON list or object makes `in self.port_lookup` raise `TypeError` (`extract.py:151`, `extract.py:154`). That exception is not a `ValidationError`, so it escapes `extract_single_email` and aborts the batch. The model cannot express such a reply.
- The regular-expression engine: the two patterns are modelled by what they match, not by a general matcher.
- `time.sleep`: it is recorded as a trace event; no time passes.
- `print` output: the progress lines, warnings and failure messages are left out.
- File loading and saving: `main`, `load_emails`, `load_port_references`, `save_extractions`, `print_report` and `print_detailed_errors` are left out. `_load_json` is left out too; the evaluator takes the two lists directly.
- The id-mismatch warnings in the evaluator's constructor are output only, and are left out.
- Prompt text: the prompt bodies and the evolution log are not modelled. A template is a sequence of text pieces and placeholder slots; `str.format` escapes (`{{`, `}}`) are not modelled.
- Floating point: numbers are exact reals, so IEEE-754 representation error in `round` and in the accuracy division is not modelled.
- Builtins.Lower: it maps ASCII letters only. Builtins.Upper: also ASCII only. Unicode case mapping is not modelled.
- Schemas.Construct: pydantic's lax coercions are not modelled. A numeric string for a float and `1` for a boolean are refused rather than converted. Only the strict types are modelled.
- PortReference validation in the extractor's constructor: it only re-checks the reference types, which the model's datatype already fixes.
- Evaluate.Record: ids in the evaluator are assumed to be strings and present; an item without an `id` key would raise in the source.
- Evaluate.ExtractionEvaluator.EvaluateAll: the report keeps the per-field entries and the `overall` entry apart. A field named `overall` would collide in the source's single dictionary; none of the nine fields has that name.
- Evaluate.Accuracy: for an empty total the source yields the integer `0`; the model yields `0.0`.
