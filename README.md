# Retrieval-augmented text-to-SQL core, modelled in Dafny

This project models the deterministic core of a retrieval-augmented
text-to-SQL pipeline over PostgreSQL with pgvector:

- **Provider adapters** (`src/t2sql.py`).
  - `_client()` resolves the OpenAI API key.
  - `embed_texts` and `generate_sql` are both wrapped in the same tenacity
    retry policy: at most 3 attempts, exponential waits between 1 and 10 seconds.
  - `generate_sql` builds a two-message prompt and extracts the SQL from the
    model's reply.
- **Schema index** (`src/indexer.py`).
  - `build_schema_index` deletes every row of `schema_index`, then groups the
    catalog's columns into one payload per `schema.table`, embeds all payload
    texts in one call, and inserts the payloads zipped with the embeddings.
  - `retrieve_relevant_schema` embeds the question, takes the nearest `k` rows
    and renders them as `[identifier] content` lines.
- **Data-store adapter** (`src/db.py`).
  - `get_engine` resolves six connection settings: environment first, then
    Streamlit secrets, then a default. It formats them into a connection URL.
  - `run_sql` returns nothing for empty text or for a statement without rows.

Modules, one file each:

| file | module | contents |
|---|---|---|
| `host.dfy` | `Host` | `Option`, `Result`, the error kinds, the environment and the secret store |
| `text.dfy` | `Text` | the Python `str` operations the core uses: `strip`, `in`, `split`, `join`, `splitlines` |
| `retry.dfy` | `Retry` | the retry decorator as a loop over attempt outcomes, proved against a reference function |
| `t2sql.dfy` | `T2Sql` | `_client`, the prompt, SQL extraction, `embed_texts`, `generate_sql` |
| `indexer.dfy` | `Indexer` | the grouping loops, the `schema_index` table as a class, rebuild, ranking, rendering, retrieval |
| `db.dfy` | `Db` | `_get_secret`, setting resolution, the URL, `run_sql` |

### How the abstractions are modelled

- **Remote calls are oracles.**
  - The embedding and chat calls are functions from the request (API key,
    model, input) and the attempt number to a result or an error. A retried
    call can therefore behave differently on each attempt.
  - An oracle's answer depends only on the request and the attempt number.
    Two separate calls with the same request, such as two retrievals for one
    question, therefore get identical answers. Provider nondeterminism across
    separate calls is not modelled.
  - Executing SQL is a function from the statement to a cursor or an error.
  - The catalog query's answer, or its failure, is a parameter.
- **Distance.** The `<->` distance the store orders by is a function into `int`.
- **The environment and secrets.**
  - `os.environ` is a map.
  - `st.secrets` is either a loaded map or unavailable. "Unavailable" covers
    every exception: Streamlit not importable, or no secrets file.

### Behaviour worth noting

- **A missing credential is retried.** `_client()` runs inside the decorated
  functions (`src/t2sql.py:35-37`, `:43-45`). So a missing key or a missing
  `openai` package costs three attempts and surfaces as `RetryError`
  (`T2Sql.CredentialFailureExhaustsRetries`).
- **A failed rebuild leaves the index empty.** The delete is committed in its
  own transaction before the catalog read and the embedding call
  (`src/indexer.py:24-25`). A failed read or embedding therefore leaves the
  index empty (`Indexer.RebuildFailureEmpties`).
- **The count is the number of payloads.** The rebuild returns the number of
  payloads, not the number of rows inserted. When the provider returns fewer
  vectors than texts, `zip` inserts fewer rows than that count
  (`Indexer.RebuildInserts`).
- **Two credential policies.**
  - The API key takes the first *non-empty* value: a variable set to "" falls
    through to the secrets.
  - A connection setting takes the environment variable whenever it is *set*,
    even to "" (`Db.EmptySettingWins`).

## Model

| member | source | states |
|---|---|---|
| Text.Strip | src/t2sql.py:66-67 | `str.strip()`: the result is trimmed and is a slice of the input with only whitespace cut on either side |
| Text.StripTrimmed | src/t2sql.py:66-67 | stripping a trimmed string changes nothing |
| Text.Split | src/t2sql.py:61 | `split`: at least one part, no part contains the separator, joining the parts restores the text, two or more parts exactly when the separator occurs |
| Text.SplitJoin | src/indexer.py:65 | splitting a join at a one-character separator that no part contains gives the parts back |
| Text.JoinAvoids | src/t2sql.py:65 | joining with "\n" creates no fence |
| Text.SplitLinesAvoid | src/t2sql.py:65 | no line of a fence-free text contains a fence |
| Text.JoinSplitLines | src/t2sql.py:65 | "\n".join of the `splitlines()` of a text ending in one "\n" (and with no other kind of line break) gives the text without that last "\n" |
| Retry.Backoff | src/t2sql.py:35 | every wait lies in [1, 10] seconds |
| Retry.BackoffSchedule | src/t2sql.py:35 | the waits are 1, 2, 4, 8 and then 10 seconds |
| Retry.CallWithRetry | src/t2sql.py:35 | the decorator's attempt loop computes exactly the reference run `Retried` |
| Retry.RetryFromShape | src/t2sql.py:35 | from attempt n: attempts stay within n..3, one wait per retried attempt, success returns that attempt's result, failure only after attempt 3 with `RetryError` of its error |
| Retry.RetriedBounded | src/t2sql.py:35 | a call makes 1 to 3 attempts, waits between consecutive attempts only, each wait the backoff in [1, 10] |
| Retry.RetriedFirstSuccess | src/t2sql.py:43 | a call succeeds exactly when some attempt succeeds and then returns the first successful attempt's result unchanged |
| Retry.RetriedExhausted | src/t2sql.py:35 | three failures give `RetryError` of the third failure after waits of 1 and 2 seconds |
| Retry.RetriedThirdTime | src/t2sql.py:43 | failing twice and then succeeding returns the third result after waits of 1 and 2 seconds |
| T2Sql.FirstNonEmpty | src/t2sql.py:22-31 | a candidate that is non-empty and preceded only by absent or empty candidates, or None exactly when every candidate is absent or empty |
| T2Sql.FirstNonEmptyOfTwo | src/t2sql.py:22-31 | with two resolvers: the first if non-empty, else the second if non-empty, else None |
| T2Sql.Client | src/t2sql.py:19-32 | the reassignment of `api_key` through its fallbacks gives the reference key `ApiKey`: a missing package, then the first non-empty of environment and secret, else "not configured" |
| T2Sql.ApiKeyResolution | src/t2sql.py:22-31 | a non-empty environment value wins; else a non-empty secret; "not configured" exactly when both are absent or empty |
| T2Sql.UserPromptWithoutContext | src/t2sql.py:49-53 | a None and an empty context both show as "(none)"; the message's exact text in that case |
| T2Sql.UserPromptInjective | src/t2sql.py:49-53 | for equal user messages, the questions are equal exactly when the shown contexts are |
| T2Sql.ExtractWithoutFence | src/t2sql.py:57-67 | a reply without a fence is returned stripped; a None reply gives "" |
| T2Sql.FirstFenceAt | src/t2sql.py:60-61 | the first fence cuts the reply: the text before it is the first part |
| T2Sql.ExtractFirstBlock | src/t2sql.py:60-66 | only the untagged, stripped body between the first two fences is returned; prose around it is dropped |
| T2Sql.ExtractOpenBlock | src/t2sql.py:60-66 | with a single fence the body runs to the end of the reply |
| T2Sql.TaggedBodyStripped | src/t2sql.py:64 | a body beginning with the tag still begins with it after stripping |
| T2Sql.TaggedBodyUntag | src/t2sql.py:64-65 | a body whose first line is an "sql" tag loses exactly that line |
| T2Sql.ExtractTaggedBlock | src/t2sql.py:60-66 | a block opened by a tag such as "sql" or "SQL" yields its remaining lines, stripped |
| T2Sql.ExtractTaggedExample | src/t2sql.py:60-66 | "```sql\nSELECT 1\n```" gives "SELECT 1" |
| T2Sql.ExtractRawExample | src/t2sql.py:67 | "SELECT 1" without a fence is returned as is |
| T2Sql.ExtractProseExample | src/t2sql.py:60-66 | the fenced example with prose before and after still gives "SELECT 1" |
| T2Sql.ExtractSelectOneBlock | src/t2sql.py:60-66 | a "sql"-tagged block holding "SELECT 1" gives "SELECT 1" whatever prose without backticks precedes it and whatever follows |
| T2Sql.ExtractClean | src/t2sql.py:60-67 | the extracted SQL never contains a fence and has no surrounding whitespace |
| T2Sql.ExtractIdempotent | src/t2sql.py:60-67 | extracting from extracted SQL returns it unchanged |
| T2Sql.EmbedTexts | src/t2sql.py:35-40 | `embed_texts` is the retry policy run over attempts that each resolve the key and call the provider |
| T2Sql.EmbedTextsResult | src/t2sql.py:35-40 | a successful result is the provider's answer to the first successful attempt, for exactly the given texts and the configured model |
| T2Sql.GenerateSql | src/t2sql.py:43-67 | `generate_sql` is the retry policy run over attempts that each resolve the key, call the chat model at temperature 0 and extract the SQL |
| T2Sql.GenerateSqlResult | src/t2sql.py:43-67 | a successful result is extracted from the first successful reply (None read as ""), fence-free and stripped |
| T2Sql.CredentialFailureExhaustsRetries | src/t2sql.py:35-45 | a key that cannot be resolved makes both calls use all three attempts and raise `RetryError` after waits of 1 and 2 seconds |
| Indexer.GroupByTable | src/indexer.py:29-33 | the `setdefault`/`append` loop yields the table keys in first-appearance order and, for each, exactly its column entries in row order |
| Indexer.BuildPayloads | src/indexer.py:29-38 | the two loops produce the reference payloads |
| Indexer.ColumnsOfAbsent | src/indexer.py:32 | a key no row has collects no columns |
| Indexer.TableKeysDistinct | src/indexer.py:29-36 | each table key is listed once |
| Indexer.TableKeysMembers | src/indexer.py:29-33 | a key is listed exactly when some row has it |
| Indexer.TableKeysPrefix | src/indexer.py:29-36 | the keys of any first m rows come first and in the same order, so the order is that of first appearance |
| Indexer.ColumnsOfRows | src/indexer.py:31-33 | every row's `col:type` entry lands in its own table's list, and a table's list holds only its own rows' entries |
| Indexer.ColumnsOfNonEmpty | src/indexer.py:32-33 | every listed table has at least one column |
| Indexer.PayloadsShape | src/indexer.py:35-38 | one payload per key, in key order, of kind "table", whose content is "Table <key> with columns: " and the entries joined by ", " |
| Indexer.TableKeyCollision | src/indexer.py:31 | schema s with table t.u and schema s.t with table u share one key, so their columns are merged into one payload |
| Indexer.SchemaIndex.constructor | src/db.py:38-44 | an empty table whose id sequence starts at 1 |
| Indexer.SchemaIndex.DeleteAll | src/indexer.py:24-25 | every row goes; the id sequence does not restart |
| Indexer.SchemaIndex.Insert | src/indexer.py:44-49 | appends one row with the next id, keeping ids increasing |
| Indexer.BuildSchemaIndex | src/indexer.py:22-51 | after the rebuild the table holds exactly the reference rows and the result is exactly the reference result; ids run on from the old counter, one per inserted row, and no row from before the rebuild survives |
| Indexer.IdsSeparate | src/indexer.py:24-49 | rows whose ids are below the counter at the delete are disjoint from rows inserted afterwards |
| Indexer.RebuildInserts | src/indexer.py:40-51 | success returns the number of tables and inserts min(#payloads, #embeddings) rows in payload order, with consecutive new ids, each with its payload's kind, key, content and embedding |
| Indexer.RebuildFresh | src/indexer.py:24-49 | every row after a rebuild has an id from the rebuild's start on: no earlier row survives |
| Indexer.RebuildFailureEmpties | src/indexer.py:24-42 | a failed catalog read or embedding leaves the table empty |
| Indexer.RebuildEmbedsContents | src/indexer.py:40 | the one embedding call gets the payload contents in payload order |
| Indexer.InsertByDistancePermutes | src/indexer.py:56-63 | one ranking step keeps every row and adds the new one once |
| Indexer.InsertByDistanceAbove | src/indexer.py:56-63 | one ranking step keeps a common lower bound on distances |
| Indexer.InsertByDistanceSorted | src/indexer.py:56-63 | one ranking step keeps the rows in non-decreasing distance order |
| Indexer.RankedSortedPermutation | src/indexer.py:56-63 | the ranking is in non-decreasing distance and is a permutation of the index's rows |
| Indexer.NearestBounded | src/indexer.py:56-63 | `LIMIT k` keeps min(k, #rows) rows, still ordered, each a row of the index |
| Indexer.RenderEmpty | src/indexer.py:64-65 | no rows render as "" |
| Indexer.RenderLines | src/indexer.py:64-65 | with no newline in identifiers or contents, the rendered text splits at "\n" back into one "[identifier] content" line per row, in rank order |
| Indexer.RetrieveRelevantSchema | src/indexer.py:54-65 | leaves the index unchanged and returns exactly the reference retrieval outcome |
| Indexer.RetrievalRanked | src/indexer.py:55-65 | a success renders at most k rows of the index in non-decreasing distance from the question's first embedding |
| Indexer.RetrievalEmptyIndex | src/indexer.py:63-65 | on an empty index a success is "" |
| Indexer.RetrievalFailure | src/indexer.py:55-63 | retrieval fails exactly when the embedding fails, returns no vector, or k is negative; an embedding failure is passed on unchanged |
| Indexer.RebuildThenRetrieve | src/indexer.py:22-65 | a retrieval right after a successful rebuild ranks at most min(k, #tables) rows, all of them inserted by the rebuild |
| Db.GetSecret | src/db.py:24-29 | the secret's value when the store is loaded and holds the key, otherwise the default: it never raises |
| Db.SettingResolution | src/db.py:11-16 | a set environment variable wins even when it is ""; an unset one falls back to the secret, then to the default |
| Db.DefaultParams | src/db.py:11-16 | with nothing set and no secrets: localhost, 5432, postgres, "", postgres, prefer |
| Db.DefaultUrl | src/db.py:18 | the default URL is "postgresql+psycopg://postgres:@localhost:5432/postgres?sslmode=prefer" |
| Db.EmptySettingWins | src/db.py:11-16 | a setting set to "" stays "" even when a secret exists, whereas the API-key policy would take the secret |
| Db.CutAt | src/db.py:18 | a delimiter not in the first field cuts the text right after that field |
| Db.ParseEngineUrlRoundTrip | src/db.py:18 | the URL reads back to its six settings when no setting holds the delimiter that ends it |
| Db.EngineUrlInjective | src/db.py:18 | under the same conditions, different settings give different URLs |
| Db.EngineUrlAmbiguous | src/db.py:18 | without escaping, moving a ':' between user and password leaves the URL unchanged: two different settings, one URL |
| Db.RunSqlEmpty | src/db.py:50-52 | empty text gives None, whatever the data store would do: it is never executed |
| Db.RunSqlOutcomes | src/db.py:50-60 | for non-empty text: raises exactly when execution raises, None exactly for a statement without rows, otherwise the columns and rows unchanged |

## Left out

- `app.py` (the Streamlit UI) and `src/viz_lida.py` (LIDA charts and `exec` of generated code): display layers and foreign libraries.
- The OpenAI client and its HTTP calls: they are oracles. `resp.choices[0]` on an empty choice list is left to the oracle's error result.
- Real sleeping: only the wait values chosen are recorded.
- SQLAlchemy engine, connection and transaction management:
  - `create_engine` and `pool_pre_ping`;
  - the pgvector registration hooks (`src/db.py:63-69`) and `register_vector` in `run_sql`;
  - a failure of the insert transaction part-way through.
- `ensure_vector_schema` (`src/db.py:32-47`): DDL only. The
  `schema_index` layout it creates is what `Indexer.Document` and
  `Indexer.SchemaIndex` model.
- `VECTOR_DIM` (`src/indexer.py:23`): it is read but never used. `int()` of a malformed value raises before the delete; that failure is not modelled.
- The SQL text of `_fetch_schema_descriptions` (`src/indexer.py:10-19`): the system-schema filter and the schema/table/ordinal order are the data store's work. The model takes the rows it returns, in that order, as a parameter.
- Floating-point vectors and the L2 distance: vectors are opaque, and the distance is any function into `int`.
- Indexer.NearestBounded: the ivfflat index (`src/db.py:47`) makes the store's search approximate. The model ranks exactly, and rows at equal distance come in insertion order, where PostgreSQL leaves that order unspecified. The exact count min(k, #rows) holds for this exact ranking; the store's approximate search can return fewer or other rows, and there only the bound `LIMIT k` and the ordering carry over.
- The DataFrame itself, and its `head(200)` preview in the UI: a frame is modelled as the cursor's column names and rows.
- Db.RunSqlOutcomes: a DataFrame constructor failure other than "no rows to fetch" is not modelled; every cursor with rows yields a frame.
- Db.ParseEngineUrlRoundTrip: the reading of the URL is a reference parse, not SQLAlchemy's. SQLAlchemy's own URL parsing is not part of this model.
- Secret values that are not strings, and `_get_secret`'s default of None, which no call site uses.
- Concurrent rebuild and retrieval: the model is sequential.
