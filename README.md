# MentalBot question/answer pipeline, modelled in Dafny

MentalBot is a small Streamlit app, `mental.py`. At start-up it reads a CSV file of
question/answer pairs. It cleans both columns and builds a flashcard dictionary
`qa_dict` (question → context). It runs a question-answering transformer on every row
to get a `predicted_answer`, and builds `chatbot_dict` (question → predicted answer).
A chatbot query is normalised and looked up by exact key; a miss gets a fixed
"Sorry, I don't know the answer to '…'" reply.

This project models that pipeline and proves what it guarantees:

- `normalizer.dfy` (module `Normalizer`): `clean_text` and `clean_user_input`.
  A table cell is `Text(s)` or `Missing` (pandas' NaN). `str.lower()` and `str.strip()`
  are written out for ASCII.
- `dicts.dfy` (module `Dicts`): a Python dict as a key list in insertion order plus a
  map. `FromPairs` is what `Series.to_dict()` returns. `BuildDict` is the insertion
  loop behind it. The lemmas give last-write-wins and first-occurrence key order.
- `index_builder.dfy` (module `IndexBuilder`): the body of `load_data`, as column
  passes (clean, clean, fill) followed by the dictionary build.
- `resolver.dfy` (module `Resolver`): `get_answer`, the `predicted_answer` column and
  `chatbot_dict`. The transformer pipeline is an opaque function
  `(Cell, string) -> Inference`, where `Raised` stands for an exception.
- `lookup.dfy` (module `Lookup`): `chatbot`.
- `mental_bot.dfy` (module `MentalBot`): the module-level start-up of the script as
  `Setup`, plus lemmas that follow a raw row or a raw query through the whole pipeline.
  It also has the one-row "Hello"/"Hi there" scenario.
- `wrappers.dfy` (module `Wrappers`): `Option`, for Python's `None`-or-value.

Behaviour worth noting, as the code has it:

- The sorry reply quotes the normalised query, not the raw one, because
  `user_input` is reassigned at mental.py:54.
- A failed inference is stored as `None`, and `chatbot` returns `[None]` for that key.
- The pipeline runs once per row rather than once per distinct key. Rows with the
  same cleaned question are all inferred, and the last one wins.
- There is no `MissingFieldError`: a row always has both fields here (see Left out).

## Model

| member | source | states |
|---|---|---|
| `Normalizer.TrimLeftSpec` | mental.py:12 | the left half of `strip()` keeps a suffix, removes only whitespace, and what it keeps does not start with whitespace |
| `Normalizer.TrimRightSpec` | mental.py:12 | the right half of `strip()` keeps a prefix, removes only whitespace, and what it keeps does not end with whitespace |
| `Normalizer.Lower` | mental.py:12 | definition of ASCII `str.lower()`: each character lower-cased in place, the length kept; `LowerNormal` and `StripLower` state its effect on case and whitespace |
| `Normalizer.Strip` | mental.py:50 | definition of `str.strip()` as `lstrip` followed by `rstrip`; `StripSpec` states what it removes |
| `Normalizer.StripSpec` | mental.py:50 | `strip()` keeps one contiguous part of the text, with only whitespace before and after it, and that part has no whitespace at either end |
| `Normalizer.CleanText` | mental.py:10-13 | definition of `clean_text`: a text cell is lower-cased and then stripped, a NaN cell is returned as it is; `CleanTextShape` and `CleanTextIdempotent` state its properties |
| `Normalizer.CleanUserInput` | mental.py:49-50 | definition of `clean_user_input`: stripped and then lower-cased; `CleanUserInputShape` and `CleanUserInputIdempotent` state its properties |
| `Normalizer.CleanTextShape` | mental.py:10-13 | a text cell becomes text with no outer whitespace and no upper-case letter, never longer; a non-text cell (NaN) is returned unchanged |
| `Normalizer.CleanUserInputShape` | mental.py:49-50 | the query has no outer whitespace and no upper-case letter, and is never longer |
| `Normalizer.StripLower` | mental.py:12 | lower-then-strip equals strip-then-lower |
| `Normalizer.CleanTextAgreesWithUserInput` | mental.py:12 | for every text, `clean_text` and `clean_user_input` give the same string |
| `Normalizer.NormalIsFixed` | mental.py:12 | text already without upper case and outer whitespace is left unchanged by lower-casing and stripping |
| `Normalizer.CleanTextIdempotent` | mental.py:10-13 | `clean_text` applied twice equals `clean_text` applied once |
| `Normalizer.CleanUserInputIdempotent` | mental.py:49-50 | `clean_user_input` applied twice equals `clean_user_input` applied once |
| `Normalizer.StripPadded` | mental.py:50 | whitespace added on either side does not change `strip()` |
| `Dicts.Insert` | mental.py:21 | definition of `d[k] = v`: a new key is appended to the key list, a present key keeps its place, and the key's value becomes `v`; `FromPairs` and its lemmas state what a run of inserts yields |
| `Dicts.FromPairs` | mental.py:21 | `to_dict()` lists each key once, and its keys are exactly the index values of the series |
| `Dicts.BuildDict` | mental.py:21 | the per-element insertion loop yields the dict `to_dict()` defines |
| `Dicts.FromPairsLastWins` | mental.py:21 | every key holds the value of its last occurrence |
| `Dicts.FromPairsKeyOrder` | mental.py:21 | the keys are ordered by each key's first occurrence |
| `Dicts.FromPairsKeysIgnoreValues` | mental.py:46 | two series with the same index give dicts with the same key list |
| `IndexBuilder.FillNa` | mental.py:18 | definition of `fillna(value)` on one cell: NaN becomes `value`, a text cell gives its text |
| `IndexBuilder.Prepare` | mental.py:16-18 | definition of one prepared row: the question cleaned, the answer cleaned and then filled with `""` as the context |
| `IndexBuilder.PrepareAll` | mental.py:16-18 | definition of the prepared table: `Prepare` of every CSV row, in order; `LoadData` is proved to compute it |
| `IndexBuilder.QaDict` | mental.py:21 | definition of `qa_dict` as `to_dict()` of the context column indexed by question; `QaDictKeys`, `QaDictLastRowWins` and `QaDictKeyOrder` state its properties |
| `IndexBuilder.CleanColumn` | mental.py:16-17 | `apply(clean_text)` gives a column of the same length holding the cleaned cell at every position |
| `IndexBuilder.FillNaColumn` | mental.py:18 | `fillna("")` turns every NaN into `""` and keeps every text |
| `IndexBuilder.LoadData` | mental.py:15-23 | the prepared table is every CSV row with its question cleaned and its context cleaned and filled; `qa_dict` is that table's `to_dict()` |
| `IndexBuilder.QaDictKeys` | mental.py:16-21 | a value is a key of `qa_dict` if and only if it is the cleaned question of some row |
| `IndexBuilder.QaDictLastRowWins` | mental.py:17-21 | the last row with a given cleaned question decides that key's value: its cleaned context, or `""` when the context is NaN |
| `IndexBuilder.QaDictKeyOrder` | mental.py:69 | the flashcard list `list(qa_dict.keys())` holds each cleaned question once, in order of first appearance |
| `Resolver.GetAnswer` | mental.py:34-40 | `None` exactly when the pipeline raises; otherwise the pipeline's answer |
| `Resolver.Predictions` | mental.py:43 | definition of the `predicted_answer` column: `get_answer` of each row's question and context; `PredictAnswers` is proved to compute it row by row |
| `Resolver.ChatbotDict` | mental.py:46 | definition of `chatbot_dict` as `to_dict()` of the predicted column indexed by question; `ChatbotDictKeys` and `ChatbotDictLastRowWins` state its properties |
| `Resolver.PredictAnswers` | mental.py:43 | on a non-empty table, the pipeline is called once per row, in row order, with that row's question and context, as recorded by the loop; each row gets its own call's result, `None` on an exception |
| `Resolver.FailureIsolation` | mental.py:34-43 | a pipeline that raises on one pair marks exactly the rows with that pair as `None`; every other row's prediction is unchanged |
| `Resolver.ChatbotDictKeys` | mental.py:46 | `chatbot_dict` has the same keys as `qa_dict`, in the same order |
| `Resolver.ChatbotDictLastRowWins` | mental.py:46 | each key of `chatbot_dict` holds the predicted answer of the last row with that key |
| `Lookup.SorryMessage` | mental.py:58 | definition of the miss reply, which quotes the query between single quotes |
| `Lookup.Chatbot` | mental.py:53-58 | the reply is always a one-element list; on a hit it is the stored value verbatim (possibly `None`); on a miss it is the sorry message quoting the normalised query |
| `Lookup.ChatbotSeesNormalisedQuery` | mental.py:54 | two queries with the same normalised form get the same reply |
| `Lookup.ChatbotIgnoresCase` | mental.py:53-56 | queries that differ only in letter case get the same reply |
| `Lookup.ChatbotIgnoresSurroundingSpace` | mental.py:53-56 | whitespace around a query does not change the reply |
| `Lookup.ChatbotOnNormalisedQuery` | mental.py:49-54 | normalising a query first does not change the reply |
| `MentalBot.BotDict` | mental.py:16-46 | definition of the `chatbot_dict` the start-up builds from the CSV rows and the pipeline; `Setup` is proved to compute it, and the `Ask…` lemmas state what queries get from it |
| `MentalBot.Setup` | mental.py:26-46 | the start-up builds the prepared table, `qa_dict`, one pipeline call per row (on a non-empty table), and `chatbot_dict` from the predicted answers |
| `MentalBot.AskRowQuestionHits` | mental.py:54-56 | typing the raw question of any text row always hits `chatbot_dict` and returns the value stored under that row's cleaned question |
| `MentalBot.AskRowQuestionAnswer` | mental.py:43-56 | for the last row with a given cleaned question, the reply to its raw question is that row's predicted answer, `None` if the pipeline raised |
| `MentalBot.AskUnknown` | mental.py:55-58 | a query whose normalised form is no row's cleaned question gets the sorry message quoting the normalised query |
| `MentalBot.HelloAnswered` | mental.py:53-56 | for the table "Hello"/"Hi there" and a pipeline that returns the context, the query "hello" gets `["hi there"]` |
| `MentalBot.ByeUnknown` | mental.py:57-58 | with the same table, the query "bye" gets `["Sorry, I don't know the answer to 'bye'"]` |
| `MentalBot.HelloFailed` | mental.py:36-56 | with a pipeline that always raises, " HELLO " gets `[None]`, not the context |

## Left out

- The Streamlit interface (mental.py:61-158): page layout, select box, flip-card HTML and CSS, button handling and the `capitalize()` display formatting. It is presentation only. The flashcard key order it shows is stated by `IndexBuilder.QaDictKeyOrder`.
- Reading the CSV file (mental.py:7) and its hard-coded path (mental.py:26). The file is I/O, so the model takes the rows as an input sequence of `RawRow`.
- A CSV whose columns do not end up named `question` and `context`. `rename` at mental.py:15 skips headers that are absent, so a file with neither `Question` nor `question` raises `KeyError` at mental.py:16, and a file with neither `Answer` nor `context` raises `KeyError` at mental.py:17. A file whose headers are already `question` and `context` passes unchanged. Here every row has both fields, so those failures are not modelled.
- Cells that pandas reads as numbers or other non-text, non-NaN values. A cell is text or NaN only.
- Several NaN questions. They all become the one key `Missing`. In pandas, NaN keys can stay distinct dict keys, because NaN is not equal to itself. No query can reach such a key either way.
- `fillna("", inplace=True)` on `data['context']` (mental.py:18). It is modelled as changing the column, which is what pandas does before copy-on-write.
- The tokenizer, the model and the pipeline construction (mental.py:29-31), and the span extraction itself (mental.py:36). They are a foreign ML library, so the model passes an opaque, possibly raising function. An exception from `result['answer']` (mental.py:37) is folded into `Raised` as well.
- The `print` in the exception handler (mental.py:39). It is a side effect only and does not change the returned value.
- Full Unicode `str.lower()` and `str.strip()`. Lower-casing covers `A`-`Z` only. Whitespace is Python's ASCII whitespace set (codes 9-13, 28-31 and 32).
- Timeouts, cancellation and parallel inference are not modelled; mental.py runs the rows one at a time in a single thread.
- Resolver.PredictAnswers: the once-per-row claim holds for a table with at least one row. For a table with no rows, `DataFrame.apply(..., axis=1)` at mental.py:43 may still call the lambda once on a NaN-filled probe row (pandas 2.x: `get_answer(nan, nan)`, whose result is discarded) or raise `KeyError` (older pandas). The model makes no call and yields an empty `predicted_answer` column and an empty `chatbot_dict`.
- MentalBot.Setup: for a table with no rows, the same pandas probe call of mental.py:43 is not modelled; the model makes no pipeline call.
