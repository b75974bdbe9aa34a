# Outlook email RAG assistant: a Dafny model of its core

The application fetches one day of Outlook mail from the Microsoft Graph API,
indexes it in a Chroma vector store kept per date, and answers questions about
it through a Groq-hosted language model. This project models the two parts of
that pipeline that hold logic of their own, and proves properties of them:

- **The per-date index lifecycle** (`build_retrieval_chain` in `rag_pipeline.py`).
  - An empty mail list gives no chain and touches no storage.
  - Otherwise `vector_store/<date>` is created.
  - If its `chroma.sqlite3` marker exists, the store is loaded. If not, one
    document per mail is normalised, split, embedded and persisted.
  - The disk is the class `VectorStore.StoreTree`. Its method `GetOrBuild` is
    proved against the pure function `GetOrBuildSpec`. The function `Run` folds
    a sequence of calls, so properties across calls can be stated.
- **The document normaliser.** Each mail is rendered as
  `Subject: …\nFrom: …\nReceived: …\n\nBody: …`, with the placeholders
  `No Subject` and `Unknown` for missing keys, and an empty body for a missing
  body preview (`Normalizer`). `ParseContent` is its inverse: it reads the four
  fields back.
- **The one-day query window** (`fetch_emails` in `email_utils.py`).
  - `datetime.strptime(date_str, "%Y-%m-%d")` is modelled with the grammar
    CPython actually accepts (`DateParse`).
  - Next-day arithmetic follows the proleptic Gregorian calendar and is checked
    against day numbers (`Calendar`).
  - The code builds a half-open OData filter, the `$select`/`$top` parameters
    and the bearer header.
  - On success the result is the `value` list; on any request failure it is `[]`
    (`EmailFetch`).

The HTTP request, the text splitter and the embedding model are inputs to the
model: function-typed parameters (`send`, `split`, `embed`) that the proofs
never look inside. The language model and the question-answering chain are
the plain record `QaChain`, which holds the settings the code passes to them.

Two behaviours of the code worth stating are modelled as the code has them:

- **Empty list with an existing store.** The empty-list check comes *before*
  the marker check. So an empty list returns no chain even when a store for the
  date already exists.
- **Failed request.** A failed request returns `[]`, the same value as a day
  without mail (`FailureLooksLikeEmptyDay`).

## Model

| member | source | states |
|---|---|---|
| `Normalizer.SenderAddress` | rag_pipeline.py:36 | the sender is `Unknown` when `from`, `from.emailAddress` or its `address` is missing, and the address otherwise |
| `Normalizer.FieldsOf` | rag_pipeline.py:35-38 | each field is the mail's value when present; otherwise `No Subject`, `Unknown`, `Unknown`, or the empty body |
| `Normalizer.Render` | rag_pipeline.py:34-39 | the document begins `Subject: <subject>` and a line break, and ends with `\n\nBody: <body>`; that the whole layout reads back into exactly the four fields is `RenderRoundTrip`, and the text for an empty mail is `EmptyMailPlaceholders` |
| `Normalizer.Normalize` | rag_pipeline.py:34-39 | the document starts with the `Subject: ` label and ends with `\n\nBody: ` followed by the body preview |
| `Normalizer.RenderRoundTrip` | rag_pipeline.py:34-39 | the layout Subject, From, Received, blank line, Body can be read back into exactly the four fields when the first three are single lines |
| `Normalizer.NormalizeRoundTrip` | rag_pipeline.py:33-40 | when subject, sender and received time are single lines, a mail's document yields back its subject, sender, received time and body, in that order |
| `Normalizer.NormalizeInjective` | rag_pipeline.py:34-39 | two such mails give the same document if and only if their rendered fields agree |
| `Normalizer.EmptyMailPlaceholders` | rag_pipeline.py:35-38 | a mail with no keys becomes `Subject: No Subject\nFrom: Unknown\nReceived: Unknown\n\nBody: ` |
| `Normalizer.MissingKeysReadBack` | rag_pipeline.py:35-38 | when subject, sender and received time are single lines, each missing key reads back from the document as its placeholder, and a missing body as the empty string |
| `VectorStore.PersistDir` | rag_pipeline.py:19 | a date that is not an absolute path is stored in `vector_store/<date>`; an absolute one replaces the root, as `os.path.join` does |
| `VectorStore.PersistDirInjective` | rag_pipeline.py:19 | two dates give the same store path string if and only if they are the same string |
| `VectorStore.Documents` | rag_pipeline.py:32-40 | one document per mail, in input order, each the normalised mail |
| `VectorStore.NormalizeAll` | rag_pipeline.py:32-40 | the append loop yields exactly one document per mail, in input order |
| `VectorStore.Embed` | rag_pipeline.py:45 | every chunk is stored once, in order, with the embedding of its text under `all-MiniLM-L6-v2` |
| `VectorStore.BuildIndex` | rag_pipeline.py:42-45 | the splitter is given size 1000, overlap 100 and one normalised document per mail, and the store holds each resulting chunk once, in order, with its embedding; how this store is used on the build path is `GetOrBuildSpec` |
| `VectorStore.MakeChain` | rag_pipeline.py:50-60 | the chain uses `llama-3.1-8b-instant`, temperature 0, the caller's API key, the `stuff` chain type and the given store as retriever |
| `VectorStore.GetOrBuildSpec` | rag_pipeline.py:14-46 | no chain if and only if the list is empty, and then the disk is unchanged; load if and only if the marker existed; otherwise the chain retrieves from the store built from these mails; the date's directory and store exist afterwards; every other directory's store is unchanged |
| `VectorStore.StoreTree.GetOrBuild` | rag_pipeline.py:11-62 | the outcome and the new disk are those of `GetOrBuildSpec` on the old disk, and a store always lies inside a created directory |
| `VectorStore.StepKeepsStores` | rag_pipeline.py:25-46 | no call removes or replaces a store that is already persisted |
| `VectorStore.StoresPersist` | rag_pipeline.py:25-46 | over any sequence of calls, a persisted store stays present and unchanged |
| `VectorStore.BuiltStaysPersisted` | rag_pipeline.py:45-46 | after a call that built, the marker for that date exists at the end of any later sequence of calls |
| `VectorStore.AtMostOneBuildPerDate` | rag_pipeline.py:25-46 | in any sequence of calls, two calls that both built were for different dates |
| `VectorStore.SecondCallLoads` | rag_pipeline.py:25-27 | a second non-empty call for the same date loads the store the first one left and changes nothing on disk |
| `VectorStore.EmptyDayThenBuild` | rag_pipeline.py:14-46 | an empty list leaves the date without a store, and a later non-empty call for that date builds one |
| `VectorStore.LoadIgnoresMails` | rag_pipeline.py:25-27 | when the marker exists, any two non-empty mail lists give the same chain and the same disk (an empty list still gives no chain) |
| `Calendar.DaysInMonth` | email_utils.py:13 | months have 28 to 31 days, and 29 exactly for February of a leap year |
| `Calendar.DaysBeforeMonthTable` | email_utils.py:13 | the days before each month agree with Python's `_DAYS_BEFORE_MONTH` table (0, 31, 59, 90, …, 334), plus one after February in a leap year, so every month has its own length |
| `Calendar.NextDay` | email_utils.py:13 | adding a day overflows only on 9999-12-31; otherwise the result is a valid date whose day number is one more |
| `Calendar.OrdinalInjective` | email_utils.py:13 | distinct valid dates have distinct day numbers |
| `Calendar.NextDayUnique` | email_utils.py:13 | a valid date is one day after `d` if and only if it is `NextDay(d)` |
| `Calendar.LeapDayRollover` | email_utils.py:13 | the day after 28 February is 29 February in leap years and 1 March otherwise |
| `Calendar.MonthEndRollover` | email_utils.py:13 | the last day of a month is followed by the first of the next month, or by 1 January of the next year |
| `Calendar.Pad2` | email_utils.py:12-13 | `%02d`: two digits whose value is the number |
| `Calendar.Pad4` | email_utils.py:12-13 | `%04d`: four digits whose value is the number |
| `Calendar.IsoDate` | email_utils.py:12-13 | `YYYY-MM-DD`: ten characters, digits around dashes at positions 4 and 7 |
| `Calendar.IsoMidnight` | email_utils.py:12-13 | `datetime.isoformat()` at midnight: the ten-character date followed by `T00:00:00`, nineteen characters in all |
| `DateParse.MatchMonth` | email_utils.py:11 | the `%m` group and the `-` after it read month 1 to 12 from one of its spellings (`MM`, or one digit below 10) and leave the text after the `-` |
| `DateParse.MatchDay` | email_utils.py:11 | the `%d` group reads day 1 to 31 from the characters it consumes, which are one of its spellings (`DD`, or one digit or a space and one digit below 10) |
| `DateParse.ParseDate` | email_utils.py:11 | an accepted string is 8 to 10 characters long, has `-` after the year and gives a valid date; which date, for every spelling, is stated by `ParseDateSpellings` |
| `DateParse.ParseIsoDate` | email_utils.py:11-12 | every valid date written `YYYY-MM-DD` parses back to itself |
| `DateParse.IsoDateOfParsed` | email_utils.py:11-12 | the parsed date re-rendered equals the input if and only if the input had ten characters and no space before the day |
| `DateParse.MatchMonthOfSpelling` | email_utils.py:11 | every spelling of a month followed by `-` is read as that month, leaving the rest |
| `DateParse.MatchDayOfSpelling` | email_utils.py:11 | every spelling of a day, standing alone, is read whole as that day |
| `DateParse.ParseDateSpellings` | email_utils.py:11 | a string parses to a date if and only if the date is valid and the string is four year digits, `-`, a month spelling, `-` and a day spelling |
| `DateParse.AcceptExamples` | email_utils.py:11 | `2024-02-29`, `2000-02-29` (a century divisible by 400 is leap), `2024-1-5` and `2024-01- 5` are accepted, the last two as 5 January 2024 |
| `DateParse.RejectExamples` | email_utils.py:11 | `2023-02-29`, `0000-01-01`, `2024-01-011`, `2024-13-01`, `2024/01/01` and the empty string are rejected, each for its own reason, and so are `2024-04-31` (April has 30 days) and `1900-02-29` (a century not divisible by 400 is not leap) |
| `EmailFetch.DayWindow` | email_utils.py:11-13 | a window exists if and only if the date parses and is not the last representable date; its end is the day after its start; otherwise the strptime error or the overflow is reported |
| `EmailFetch.StartOfDay` | email_utils.py:12 | twenty characters: the window's first date as `YYYY-MM-DD`, then `T00:00:00Z`; for an input already in that form the date is the input itself (`CanonicalFilter`, `EveryDateHasWindow`) |
| `EmailFetch.EndOfDay` | email_utils.py:13 | twenty characters: the date after the first, as `YYYY-MM-DD`, then `T00:00:00Z` (`CanonicalFilter`, `WindowIsOneDay`) |
| `EmailFetch.Filter` | email_utils.py:16 | 85 characters: `receivedDateTime ge `, the start, ` and receivedDateTime lt `, the end, so the day is half-open (`CanonicalFilter`) |
| `EmailFetch.QueryParams` | email_utils.py:15-19 | the parameters select `subject,bodyPreview,receivedDateTime,from` and cap the page at 100 |
| `EmailFetch.MessagesRequest` | email_utils.py:8-22 | a request to `https://graph.microsoft.com/v1.0/me/messages` with `Bearer <token>` authorisation, the window's filter, the four selected fields and a page size of 100; that this is the one request sent is `FetchEmails` |
| `EmailFetch.Extract` | email_utils.py:25-30 | a failed request gives `[]`; a response gives its `value` list, or `[]` without one |
| `EmailFetch.FetchEmails` | email_utils.py:6-30 | raises exactly when the window cannot be formed; otherwise sends the bearer-authorised request for that window and returns what `Extract` gives for its response |
| `EmailFetch.MalformedDateSendsNothing` | email_utils.py:11-24 | an unparseable date raises its strptime error and no request is sent |
| `EmailFetch.CanonicalFilter` | email_utils.py:12-16 | for input `YYYY-MM-DD` the start is the input followed by `T00:00:00Z`; the filter is `receivedDateTime ge <start> and receivedDateTime lt <next day>T00:00:00Z` |
| `EmailFetch.WindowIsOneDay` | email_utils.py:13-16 | the start is strictly before the end, and the end is exactly the date one day after the start |
| `EmailFetch.EveryDateHasWindow` | email_utils.py:11-13 | every valid date except 9999-12-31, written `YYYY-MM-DD`, gets a window that starts at its own midnight |
| `EmailFetch.FailureLooksLikeEmptyDay` | email_utils.py:25-30 | a failed request and a day with an empty `value` list return the same result, `[]` |

## Left out

- app.py (Streamlit widgets and session state) and config.py (environment loading) are not part of this model.
- The text splitter (`CharacterTextSplitter`, size 1000, overlap 100) is a parameter. Its algorithm is not modelled, and nothing is claimed about chunk counts or coverage.
- The embedding model, Chroma's storage format and similarity search, `ChatGroq` and `RetrievalQA` are also parameters or plain records. Answering a question (`qa_chain.run`) is not modelled.
- The HTTP request and its JSON decoding are a parameter `send` that returns either a failure or an object with an optional `value` list.
- A JSON body that is not an object raises in the source. A `value` that is a string or an object is returned as it is, and a `value` that is `null`, a number or a boolean raises `TypeError` at `len(emails)`. The model represents `value` only as absent or a list of mails.
- Mail values that are JSON `null` or not strings are not represented. Python would render them with `str()`; a `null` under `from` or under `emailAddress` raises `AttributeError` at `.get`, and so does a mail item that is not an object. The model has each key either absent or holding a string.
- DateParse.ParseDate: `\d` in CPython's pattern also matches non-ASCII decimal digits; the model accepts ASCII digits only.
- VectorStore.StoreTree.GetOrBuild: a build that fails part-way is not modelled; building always succeeds. The same goes for a marker present on a store that cannot be read.
- VectorStore.StoreTree.GetOrBuild: the store is keyed by the directory path as a string. Paths that name the same directory are not identified: a trailing slash (`2024-01-01/`), `.` or `..` components (`./2024-01-01`), repeated slashes or symbolic links.
- VectorStore.StoreTree.GetOrBuild: `os.makedirs` also creates missing parent directories (`vector_store` itself, or the parents of a date containing `/`); the model records only the date's own directory.
- VectorStore.StoreTree.GetOrBuild: exceptions from `HuggingFaceEmbeddings` (rag_pipeline.py line 22), `ChatGroq` and `RetrievalQA` (lines 50-60) are not modelled; in the source they escape after the directory is created and, on the build path, after the store is persisted.
- VectorStore.StoreTree.GetOrBuild: `os.makedirs` raising `OSError` (a file in the way of the directory, or no permission) is not modelled; creating the directory always succeeds.
- The Streamlit messages (`st.warning`, `st.success`, `st.error`) are left out as user-interface output.
- Concurrency: the source takes no locks and builds non-atomically, and calls are modelled one at a time.
