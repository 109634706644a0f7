# Gastronomic AI agent: verified model of the ETL and the query service

The system loads per-city restaurant listings from CSV files into one SQLite
table and answers natural-language questions about them through a
language-model SQL agent behind a small HTTP API. This project models the two
parts that carry logic and proves what they promise.

- **Ingestion** (`app/etl.py`). `clean_data` normalises one city's table to a
  fixed 11-column schema. It tags each row with the city, maps the price
  symbols to `Bajo`/`Medio`/`Alto`/`No especificado`, coerces the five
  numeric columns (a failed coercion becomes 0), synthesises absent columns
  and backfills null cuisines. `run_etl` derives a city label from each file
  stem, cleans every file in discovery order, concatenates the results and
  replaces the `restaurants` table. If there are no files, or if any step
  raises, nothing is written.
- **Query service** (`app/agent_logic.py`, `app/main.py`).
  `get_agent_response` gates on the API credential, calls the agent, extracts
  `"output"` (with a default) and maps any exception to an apology.
  `ask_agent` rejects an empty question with 400. An answer containing
  `"Error:"` or `"Lo siento,"` becomes a 500. Any other answer is returned.

Files:

- `wrappers.dfy`: `Option` and `Result`.
- `frames.dfy` (module `Frames`): a DataFrame as column names plus rows
  (maps from column name to cell). A cell is `Null`, `Str` or `Num(real)`.
  Also column read and column assignment.
- `etl.dfy` (module `Etl`): the constants of `clean_data`, and a row-wise
  reference definition (`CleanRow`, `CleanTable`) with its properties.
  `CleanData` is an imperative method that runs the steps column by column
  as the source does, with loops over the numeric and the relevant columns,
  and is proved equal to that reference. Also the city label, and
  `RunEtl` over a `Database` object whose `restaurants` table it replaces,
  with lemmas on row count, row order, city tags and re-running.
- `agent_logic.dfy` (module `AgentLogic`), `models.dfy` (module `Models`),
  `app.dfy` (module `App`, for `main.py`): the service as pure functions.
  The agent is a total function from the question to `Returned(dict)` or
  `Raised`, and the credential is a boolean.

Number parsing is a parameter `parse: string -> Option<real>` that stands for
`pd.to_numeric` on a text cell (`None` for text it turns into NaN). No
floating-point value appears.

## Behaviour worth knowing

- A present `name`, `address` or `url` column keeps its null cells as null
  (`Etl.TextColumnsPassThrough`). An absent one is filled with
  `'No disponible'`, with the exception described for `Etl.ProjectColumns`
  under "Left out".
- A null cell of a present `cuisine` column becomes `'No especificado'`. An
  absent `cuisine` column becomes `'No disponible'`, provided an earlier
  relevant column is present (`Etl.CuisineBackfill`; see `Etl.ProjectColumns`
  under "Left out" for the other case).
- A missing credential and a failing agent both give status 500, with
  different details (`App.FailureKindsShareStatus`).
- The question goes to the agent unchanged, as `{"input": question}`, with no
  added instruction (`app/agent_logic.py:26`).

## Model

| member | source | states |
|---|---|---|
| `Frames.SetColumn` | app/etl.py:16-22 | `df[c] = vals`: keeps well-formedness, overwrites an existing column in place or appends a new one at the end, and sets every row's cell |
| `Etl.PriceLabel` | app/etl.py:17-18 | the mapped price label is always one of the four canonical labels |
| `Etl.Coerce` | app/etl.py:22 | a coerced cell is always a number |
| `Etl.CleanRow` | app/etl.py:15-31 | an output row has exactly the 11 relevant columns, `city` equal to the argument, a canonical price label, numeric values in all five numeric columns, a non-null cuisine, and the type default for every other absent column |
| `Etl.CleanTable` | app/etl.py:15-31 | the cleaned table is well formed, has columns `RelevantCols` in schema order and as many rows as the input, and row i is the cleaned input row i |
| `Etl.PriceLevelMapping` | app/etl.py:17-18 | output `Bajo`/`Medio`/`Alto` exactly when the input was `€`/`€€ - €€€`/`€€€€`; `No especificado` exactly for every other or null input |
| `Etl.NumericCoercion` | app/etl.py:19-22 | a present numeric cell keeps its number, takes the parsed value of parsable text, and becomes 0 when null or unparsable |
| `Etl.CuisineBackfill` | app/etl.py:25-30 | an absent cuisine column gives `No disponible`; a null cuisine cell gives `No especificado`; any other cuisine is kept |
| `Etl.TextColumnsPassThrough` | app/etl.py:25-29 | a present `name`/`address`/`url` cell is copied unchanged (nulls included); an absent one gives `No disponible` |
| `Etl.PipelineMatchesCleanRow` | app/etl.py:16-30 | the column-wise steps (tag, map, coerce, project, backfill) applied to a row give the reference row |
| `Etl.CoerceNumericColumns` | app/etl.py:19-22 | the loop coerces exactly the numeric columns present and changes neither the columns nor the row count |
| `Etl.ProjectColumns` | app/etl.py:23-29 | the loop builds a well-formed frame with exactly the relevant columns in order, copying present columns and synthesising absent ones, one row per input row |
| `Etl.CleanData` | app/etl.py:15-31 | fails with a missing `price_level` error exactly when the input lacks that column, and otherwise returns the reference cleaned table |
| `Etl.ReplaceChar` | app/etl.py:48 | `replace('_', ' ')`: every `from` becomes `to`, every other character is kept, the length is unchanged, and no `from` is left |
| `Etl.Capitalize` | app/etl.py:48 | `capitalize()` on ASCII letters: same length, the first character upper-cased and every later one lower-cased |
| `Etl.CityLabel` | app/etl.py:48 | the label has the stem's length and no `_`; it equals the stem with `_` turned into a space, up to letter case; its first character is not lower case and no later one is upper case |
| `Etl.CityLabelUnique` | app/etl.py:48 | any string satisfying the label's contract is the label, so the contract fixes the result |
| `Etl.CityLabelExample` | app/etl.py:48 | `palma_de_mallorca` becomes `Palma de mallorca` |
| `Etl.CleanFile` | app/etl.py:48-51 | one file is cleaned without error exactly when it was read and has a `price_level` column |
| `Etl.CleanAll` | app/etl.py:44-52 | succeeds exactly when every file loads, with one cleaned table per file in file order; otherwise fails with the error of the first file that does not load |
| `Etl.FailurePersists` | app/etl.py:47-67 | once an exception is raised for one file, the whole run ends with that error |
| `Etl.ConcatRows` | app/etl.py:56 | the rows of each table in turn: a row is in the concatenation exactly when it is a row of one of the tables (order and count by `ConcatRowsAt` and `ConcatRowCount`) |
| `Etl.ConcatRowCount` | app/etl.py:56 | the concatenation has as many rows as the tables together |
| `Etl.ConcatRowsAt` | app/etl.py:56 | row i of table k sits at the offset given by the rows of the earlier tables plus i |
| `Etl.CleanAllRowCount` | app/etl.py:47-52 | the cleaned tables hold as many rows as the files |
| `Etl.EtlRun` | app/etl.py:39-62 | no files gives the no-files error; success happens exactly when files exist and all load, and the result has the 11 relevant columns |
| `Etl.EtlRowCount` | app/etl.py:56-64 | the written table has as many rows as all input files together |
| `Etl.EtlRowPlacement` | app/etl.py:47-62 | row i of file k is written, cleaned under file k's label, at the offset given by the rows of the earlier files plus i |
| `Etl.EtlCityTag` | app/etl.py:48-51 | every written row carries the city label of the file it came from |
| `Etl.RerunIsIdempotent` | app/etl.py:62 | a second run on the same files leaves the table as the first run left it, and a successful run's table does not depend on what the table held before |
| `Etl.Database.ReplaceTable` | app/etl.py:62 | `to_sql(..., if_exists='replace')` leaves exactly the new table |
| `Etl.CleanFiles` | app/etl.py:44-52 | the loop over the files computes `CleanAll` |
| `Etl.RunEtl` | app/etl.py:34-67 | the table is replaced by the concatenation when the run succeeds and is left untouched otherwise; the result gives the record count or the error |
| `AgentLogic.GetAgentResponse` | app/agent_logic.py:18-31 | the answer is one of the three fixed messages or the agent's own output, and without the credential it is the configuration message |
| `AgentLogic.MissingKeyNeverInvokesAgent` | app/agent_logic.py:22-23 | without the credential the answer is the configuration message for every agent, so the agent is never consulted |
| `AgentLogic.AnswerDependsOnlyOnOutcome` | app/agent_logic.py:25-27 | the answer depends on the agent only through its outcome on that question |
| `AgentLogic.AgentOutcomes` | app/agent_logic.py:25-31 | with the credential: `"output"` is returned unchanged, a missing one gives the default, and an exception gives the apology |
| `App.ReadRoot` | app/main.py:12-15 | the payload is always `{"status": "ok", "message": <welcome>}` |
| `App.AskAgent` | app/main.py:17-31 | 400 exactly for an empty question; for any other question, an error exactly when the agent's answer contains an error marker, that error always a 500 carrying the answer, and otherwise the answer itself |
| `App.EmptyQuestionNeverReachesAgent` | app/main.py:23-24 | an empty question gives 400 whatever the credential and whatever the agent |
| `App.MissingKeyIsServerError` | app/main.py:26-29 | a non-empty question without the credential gives 500 with the configuration message |
| `App.AgentFailureIsServerError` | app/main.py:26-29 | an agent that raises gives 500 with the apology |
| `App.NoOutputIsAnswered` | app/main.py:28-31 | the missing-`"output"` default contains neither marker, so it is returned as a successful answer |
| `App.OutputClassification` | app/main.py:26-31 | the agent's output is a 500 exactly when it contains `"Error:"` or `"Lo siento,"`, and is otherwise returned unchanged |
| `App.FailureKindsShareStatus` | app/main.py:28-29 | a missing credential and a failing agent both give 500, with different details |

## Left out

- CSV parsing (`pd.read_csv`) is left out. A file's contents are given already parsed, or as "read failed".
- The exact number syntax of `pd.to_numeric` is left out. It is the `parse` parameter.
- Filesystem discovery (`glob("*.csv")` and its order) and taking the stem of a path are left out. The files come in as a sequence of (stem, contents) pairs, in discovery order.
- The SQLite engine and `to_sql` I/O are left out. The database is one object holding the `restaurants` table. A write that fails half way is not modelled.
- Logging and `print` are left out. `RunEtl` returns the record count or the error that the run logs.
- `Etl.ProjectColumns`: builds `final_df` row by row, with one output row per input row. It does not model a pandas quirk. The first scalar assignment to the empty `final_df` makes a frame with no rows, and the first Series assignment after it re-indexes that frame, turning the earlier scalar columns into null. So every relevant column that is absent and comes before the first present one (in the order `name`, `address`, `cuisine`, `rating`) comes out null instead of its default. An absent `cuisine` in that position then becomes `'No especificado'`, and an absent `rating` stays null. The input table always has `price_level` when cleaning succeeds, so only those four columns can be affected.
- `Etl.CleanRow`: its clauses "numeric values in all five numeric columns" and "the type default for every other absent column" hold in the source only for columns that come after the first present relevant column (see `Etl.ProjectColumns`). An absent `rating` with `name`, `address` and `cuisine` absent too is null in the source.
- `Etl.CuisineBackfill`: its clause "an absent cuisine column gives `No disponible`" holds in the source only when `name` or `address` is present. Otherwise the source gives `No especificado` (see `Etl.ProjectColumns`).
- `Etl.TextColumnsPassThrough`: its clause "an absent one gives `No disponible`" holds in the source for `url` always, for `address` only when `name` is present, and never for `name`, which then comes out null (see `Etl.ProjectColumns`).
- `Etl.CleanData`: works on values. The in-place mutation of the caller's DataFrame is not modelled. `run_etl` never looks at that frame again.
- `Frames.WellFormed`: needs distinct column names. `read_csv` de-duplicates header names, so the source never produces duplicates.
- `Etl.EtlRun`: concatenates tables that all have the same 11 columns. `pd.concat` on tables with different columns is never reached, so it is not modelled.
- `Etl.Capitalize`: upper-cases and lower-cases only the ASCII letters `A`-`Z`/`a`-`z` and leaves every other character as it is. Python's `capitalize` maps every cased Unicode letter (`'ávila'` gives `'Ávila'`, while the model keeps `"ávila"`). It can also change the length (`'ßtadt'` gives `'Sstadt'`), so the clause `|r| == |s|` holds only for the modelled letters.
- `Etl.CityLabel`: upper- and lower-cases only the ASCII letters `A`-`Z`/`a`-`z`, as `Etl.Capitalize` does. Python's `capitalize` also changes the case of other Unicode letters and can change the length, so the label's "same length as the stem" clause holds only for the modelled letters.
- The LangChain/Gemini setup at import time and the agent's internals are left out. The agent is an opaque, total function from the question to a result dictionary or an exception. Concurrency around the shared agent is left out too.
- `AgentLogic.GetAgentResponse`: takes the `"output"` value to be a string.
- `load_dotenv` and the environment are reduced to one boolean: is the credential present.
- FastAPI routing, pydantic validation and `response_model` are left out. `app/models.py` becomes two plain datatypes.
- `app/test_agent.py` is not part of this model. It is an interactive loop around the same external agent.
