/** The schema index: `build_schema_index` groups the catalog's columns into
    one payload per table, embeds every payload's text in one batch and
    replaces the `schema_index` table's rows with them; `retrieve_relevant_schema`
    embeds the question and renders the nearest rows. The table is a
    `SchemaIndex` object holding its rows; the catalog the data store returns
    and the distance the data store orders by are parameters. */
module Indexer {

  import opened Host
  import opened Text
  import opened Retry
  import opened T2Sql

  /** One row of `information_schema.columns`, as `_fetch_schema_descriptions`
      selects it. */
  datatype CatalogRow = CatalogRow(schema: string, table: string, column: string, dataType: string)

  /** `f"{table_schema}.{table_name}"`. */
  function TableKey(r: CatalogRow): string {
    r.schema + "." + r.table
  }

  /** `f"{column_name}:{data_type}"`. */
  function ColumnEntry(r: CatalogRow): string {
    r.column + ":" + r.dataType
  }

  const TableKind: string := "table"
  const ContentPrefix: string := "Table "
  const ColumnsHeader: string := " with columns: "
  const ColumnSeparator: string := ", "

  datatype Payload = Payload(kind: string, identifier: string, content: string)

  /** A row of `schema_index`; `id` is the BIGSERIAL primary key. */
  datatype Document = Document(id: nat, kind: string, identifier: string, content: string, embedding: Vector)

  // ---------------------------------------------------------------- grouping: the reference definitions

  /** The distinct table keys of `rows`, in order of first appearance. */
  function TableKeys(rows: seq<CatalogRow>): seq<string>
    decreases |rows|
  {
    if |rows| == 0 then []
    else
      var keys := TableKeys(rows[..|rows| - 1]);
      var key := TableKey(rows[|rows| - 1]);
      if key in keys then keys else keys + [key]
  }

  /** The column entries of the rows of table `key`, in row order. */
  function ColumnsOf(rows: seq<CatalogRow>, key: string): seq<string>
    decreases |rows|
  {
    if |rows| == 0 then []
    else
      var cols := ColumnsOf(rows[..|rows| - 1], key);
      var r := rows[|rows| - 1];
      if TableKey(r) == key then cols + [ColumnEntry(r)] else cols
  }

  /** `f"Table {table_name} with columns: " + ", ".join(cols)`. */
  function Content(key: string, cols: seq<string>): string {
    ContentPrefix + key + ColumnsHeader + Join(ColumnSeparator, cols)
  }

  function TablePayload(rows: seq<CatalogRow>, key: string): Payload {
    Payload(TableKind, key, Content(key, ColumnsOf(rows, key)))
  }

  function PayloadsFor(rows: seq<CatalogRow>, keys: seq<string>): seq<Payload>
    decreases |keys|
  {
    if |keys| == 0 then []
    else PayloadsFor(rows, keys[..|keys| - 1]) + [TablePayload(rows, keys[|keys| - 1])]
  }

  /** The payloads `build_schema_index` embeds and inserts: one per table key. */
  function Payloads(rows: seq<CatalogRow>): seq<Payload> {
    PayloadsFor(rows, TableKeys(rows))
  }

  /** `[p["content"] for p in payloads]`. */
  function Contents(payloads: seq<Payload>): seq<string> {
    seq(|payloads|, i requires 0 <= i < |payloads| => payloads[i].content)
  }

  // ---------------------------------------------------------------- grouping: the loops

  /** The `by_table` loop: `setdefault(key, [])` then `append`. The dict's
      insertion order is kept as the sequence `keys`. */
  method GroupByTable(rows: seq<CatalogRow>) returns (keys: seq<string>, byTable: map<string, seq<string>>)
    ensures keys == TableKeys(rows)
    ensures forall key :: key in byTable <==> key in keys
    ensures forall key :: key in byTable ==> byTable[key] == ColumnsOf(rows, key)
  {
    keys := [];
    byTable := map[];
    for i := 0 to |rows|
      invariant keys == TableKeys(rows[..i])
      invariant forall key :: key in byTable <==> key in keys
      invariant forall key :: key in byTable ==> byTable[key] == ColumnsOf(rows[..i], key)
    {
      var r := rows[i];
      var key := TableKey(r);
      assert rows[..i + 1][..i] == rows[..i];
      if key !in byTable {
        ColumnsOfAbsent(rows[..i], key);
        byTable := byTable[key := []];
        keys := keys + [key];
      }
      byTable := byTable[key := byTable[key] + [ColumnEntry(r)]];
    }
    assert rows[..|rows|] == rows;
  }

  /** The two loops of `build_schema_index` that produce the payloads. */
  method BuildPayloads(rows: seq<CatalogRow>) returns (payloads: seq<Payload>)
    ensures payloads == Payloads(rows)
  {
    var keys, byTable := GroupByTable(rows);
    payloads := [];
    for j := 0 to |keys|
      invariant payloads == PayloadsFor(rows, keys[..j])
    {
      var name := keys[j];
      var cols := byTable[name];
      var content := ContentPrefix + name + ColumnsHeader + Join(ColumnSeparator, cols);
      assert keys[..j + 1][..j] == keys[..j];
      payloads := payloads + [Payload(TableKind, name, content)];
    }
    assert keys[..|keys|] == keys;
  }

  // ---------------------------------------------------------------- grouping: properties

  /** A key that no row has collects no columns. */
  lemma {:induction false} ColumnsOfAbsent(rows: seq<CatalogRow>, key: string)
    requires key !in TableKeys(rows)
    ensures ColumnsOf(rows, key) == []
    decreases |rows|
  {
    if |rows| > 0 {
      ColumnsOfAbsent(rows[..|rows| - 1], key);
    }
  }

  /** Every table key appears once. */
  lemma {:induction false} TableKeysDistinct(rows: seq<CatalogRow>)
    ensures forall i, j :: 0 <= i < j < |TableKeys(rows)| ==> TableKeys(rows)[i] != TableKeys(rows)[j]
    decreases |rows|
  {
    if |rows| > 0 {
      TableKeysDistinct(rows[..|rows| - 1]);
    }
  }

  /** A key is a table key exactly when some row has it. */
  lemma {:induction false} TableKeysMembers(rows: seq<CatalogRow>, key: string)
    ensures key in TableKeys(rows) <==> exists i :: 0 <= i < |rows| && TableKey(rows[i]) == key
    decreases |rows|
  {
    if |rows| > 0 {
      var init := rows[..|rows| - 1];
      TableKeysMembers(init, key);
      if exists i :: 0 <= i < |init| && TableKey(init[i]) == key {
        var i :| 0 <= i < |init| && TableKey(init[i]) == key;
        assert TableKey(rows[i]) == key;
      }
      if exists i :: 0 <= i < |rows| && TableKey(rows[i]) == key {
        var i :| 0 <= i < |rows| && TableKey(rows[i]) == key;
        if i < |init| {
          assert TableKey(init[i]) == key;
        }
      }
    }
  }

  /** The keys of the first `m` rows come first, in the same order: the keys
      are listed in order of first appearance. */
  lemma {:induction false} TableKeysPrefix(rows: seq<CatalogRow>, m: nat)
    requires m <= |rows|
    ensures TableKeys(rows[..m]) <= TableKeys(rows)
    decreases |rows| - m
  {
    if m < |rows| {
      TableKeysPrefix(rows, m + 1);
      var p := rows[..m + 1];
      assert p[..|p| - 1] == rows[..m];
    } else {
      assert rows[..m] == rows;
    }
  }

  /** Every row's column entry lands in its own table's column list, and a
      table's list holds only entries of that table's rows. */
  lemma {:induction false} ColumnsOfRows(rows: seq<CatalogRow>, key: string)
    ensures forall i :: 0 <= i < |rows| && TableKey(rows[i]) == key ==> ColumnEntry(rows[i]) in ColumnsOf(rows, key)
    ensures forall c :: c in ColumnsOf(rows, key) ==>
              exists i :: 0 <= i < |rows| && TableKey(rows[i]) == key && ColumnEntry(rows[i]) == c
    decreases |rows|
  {
    if |rows| > 0 {
      var init := rows[..|rows| - 1];
      ColumnsOfRows(init, key);
      assert forall i :: 0 <= i < |init| ==> rows[i] == init[i];
    }
  }

  /** A table key has at least one column. */
  lemma {:induction false} ColumnsOfNonEmpty(rows: seq<CatalogRow>, key: string)
    requires key in TableKeys(rows)
    ensures |ColumnsOf(rows, key)| >= 1
  {
    TableKeysMembers(rows, key);
    var i :| 0 <= i < |rows| && TableKey(rows[i]) == key;
    ColumnsOfRows(rows, key);
  }

  lemma {:induction false} PayloadsForShape(rows: seq<CatalogRow>, keys: seq<string>)
    ensures |PayloadsFor(rows, keys)| == |keys|
    ensures forall i :: 0 <= i < |keys| ==> PayloadsFor(rows, keys)[i] == TablePayload(rows, keys[i])
    decreases |keys|
  {
    if |keys| > 0 {
      PayloadsForShape(rows, keys[..|keys| - 1]);
    }
  }

  /** One payload per table key, in key order, of kind "table", whose
      content lists that table's columns. */
  lemma PayloadsShape(rows: seq<CatalogRow>)
    ensures |Payloads(rows)| == |TableKeys(rows)|
    ensures forall i :: 0 <= i < |Payloads(rows)| ==>
              Payloads(rows)[i].kind == TableKind &&
              Payloads(rows)[i].identifier == TableKeys(rows)[i] &&
              Payloads(rows)[i].content == Content(TableKeys(rows)[i], ColumnsOf(rows, TableKeys(rows)[i]))
  {
    PayloadsForShape(rows, TableKeys(rows));
  }

  /** Schema `s` with table `t.u` and schema `s.t` with table `u` share one
      key: the two tables' columns are merged into one payload. */
  lemma TableKeyCollision(s: string, t: string, u: string, r1: CatalogRow, r2: CatalogRow)
    requires r1.schema == s && r1.table == t + "." + u
    requires r2.schema == s + "." + t && r2.table == u
    ensures TableKeys([r1, r2]) == [s + "." + t + "." + u]
    ensures ColumnsOf([r1, r2], s + "." + t + "." + u) == [ColumnEntry(r1), ColumnEntry(r2)]
  {
    var key := s + "." + t + "." + u;
    assert TableKey(r1) == key && TableKey(r2) == key;
    assert [r1, r2][..1] == [r1];
    assert [r1][..0] == [];
    assert TableKeys([r1]) == [key];
    assert ColumnsOf([r1], key) == [ColumnEntry(r1)];
  }

  // ---------------------------------------------------------------- the index table

  /** The `schema_index` table: its rows in insertion order and the next
      value of the id sequence. */
  class SchemaIndex {
    var docs: seq<Document>
    var nextId: nat

    /** Ids are increasing in insertion order and below the next id. */
    ghost predicate Valid()
      reads this
    {
      (forall i :: 0 <= i < |docs| ==> docs[i].id < nextId) &&
      (forall i, j :: 0 <= i < j < |docs| ==> docs[i].id < docs[j].id)
    }

    /** A freshly created, empty table; BIGSERIAL starts at 1. */
    constructor()
      ensures Valid() && docs == [] && nextId == 1
    {
      docs := [];
      nextId := 1;
    }

    /** `DELETE FROM schema_index`: every row goes; the id sequence does not restart. */
    method DeleteAll()
      requires Valid()
      modifies this
      ensures Valid() && docs == [] && nextId == old(nextId)
    {
      docs := [];
    }

    /** `INSERT INTO schema_index(kind, identifier, content, embedding) ...`. */
    method Insert(p: Payload, e: Vector)
      requires Valid()
      modifies this
      ensures Valid()
      ensures docs == old(docs) + [Document(old(nextId), p.kind, p.identifier, p.content, e)]
      ensures nextId == old(nextId) + 1
    {
      docs := docs + [Document(nextId, p.kind, p.identifier, p.content, e)];
      nextId := nextId + 1;
    }
  }

  // ---------------------------------------------------------------- build_schema_index

  function Min(a: nat, b: nat): nat {
    if a < b then a else b
  }

  /** `zip(payloads, embeddings)` made into rows with ids from `firstId` on. */
  function Zipped(payloads: seq<Payload>, embs: seq<Vector>, firstId: nat): seq<Document> {
    seq(Min(|payloads|, |embs|), i requires 0 <= i < Min(|payloads|, |embs|) =>
      Document(firstId + i, payloads[i].kind, payloads[i].identifier, payloads[i].content, embs[i]))
  }

  /** The one `embed_texts` call of a rebuild, on the payloads' contents in order. */
  function RebuildEmbedding(rows: seq<CatalogRow>, cfg: ClientConfig, embed: EmbedOracle): RetryRun<seq<Vector>> {
    Retried(EmbedAttempts(cfg, Contents(Payloads(rows)), embed))
  }

  /** What `build_schema_index` returns or raises, given what the catalog
      query returned or raised. */
  function RebuildResult(catalog: Result<seq<CatalogRow>>, cfg: ClientConfig, embed: EmbedOracle): Result<nat> {
    match catalog
    case Err(e) => Err(e)
    case Ok(rows) =>
      match RebuildEmbedding(rows, cfg, embed).result
      case Err(e) => Err(e)
      case Ok(_) => Ok(|Payloads(rows)|)
  }

  /** The rows `schema_index` holds after `build_schema_index`. */
  function RebuiltDocs(catalog: Result<seq<CatalogRow>>, cfg: ClientConfig, embed: EmbedOracle, firstId: nat): seq<Document> {
    match catalog
    case Err(_) => []
    case Ok(rows) =>
      match RebuildEmbedding(rows, cfg, embed).result
      case Err(_) => []
      case Ok(embs) => Zipped(Payloads(rows), embs, firstId)
  }

  /** `build_schema_index(engine)`: the delete is committed first, then the
      catalog is read, the payloads built and embedded, and the zipped rows
      inserted in a second transaction. */
  method BuildSchemaIndex(index: SchemaIndex, catalog: Result<seq<CatalogRow>>, cfg: ClientConfig, embed: EmbedOracle)
    returns (r: Result<nat>)
    requires index.Valid()
    modifies index
    ensures index.Valid()
    ensures index.docs == RebuiltDocs(catalog, cfg, embed, old(index.nextId))
    ensures r == RebuildResult(catalog, cfg, embed)
    ensures index.nextId == old(index.nextId) + |index.docs|
    ensures forall d :: d in old(index.docs) ==> d !in index.docs
  {
    ghost var before := index.docs;
    index.DeleteAll();
    if catalog.Err? {
      return Err(catalog.error);
    }
    var rows := catalog.value;
    var payloads := BuildPayloads(rows);
    var run := EmbedTexts(cfg, Contents(payloads), embed);
    if run.result.Err? {
      return Err(run.result.error);
    }
    var embs := run.result.value;
    var firstId := index.nextId;
    var n := Min(|payloads|, |embs|);
    for i := 0 to n
      invariant index.Valid()
      invariant index.nextId == firstId + i
      invariant index.docs == Zipped(payloads, embs, firstId)[..i]
    {
      index.Insert(payloads[i], embs[i]);
    }
    assert Zipped(payloads, embs, firstId)[..n] == Zipped(payloads, embs, firstId);
    RebuildFresh(catalog, cfg, embed, firstId);
    IdsSeparate(before, index.docs, firstId);
    return Ok(|payloads|);
  }

  /** Rows whose ids lie below `n` and rows whose ids are at least `n` have
      no row in common. */
  lemma IdsSeparate(earlier: seq<Document>, later: seq<Document>, n: nat)
    requires forall i :: 0 <= i < |earlier| ==> earlier[i].id < n
    requires forall i :: 0 <= i < |later| ==> later[i].id >= n
    ensures forall d :: d in earlier ==> d !in later
  {
    forall d | d in earlier ensures d !in later {
      var i :| 0 <= i < |earlier| && earlier[i] == d;
      assert d.id < n;
    }
  }

  // ---------------------------------------------------------------- build_schema_index: properties

  /** A rebuild returns the number of table keys, whether or not every
      payload got an embedding; it inserts one row per payload that did,
      in payload order, and only rows with new ids. */
  lemma RebuildInserts(catalog: Result<seq<CatalogRow>>, cfg: ClientConfig, embed: EmbedOracle, firstId: nat)
    requires RebuildResult(catalog, cfg, embed).Ok?
    ensures var rows := catalog.value;
      var embs := RebuildEmbedding(rows, cfg, embed).result.value;
      var docs := RebuiltDocs(catalog, cfg, embed, firstId);
      RebuildResult(catalog, cfg, embed).value == |TableKeys(rows)| &&
      |docs| == Min(|TableKeys(rows)|, |embs|) &&
      forall i :: 0 <= i < |docs| ==>
        docs[i].id == firstId + i && docs[i].kind == TableKind &&
        docs[i].identifier == TableKeys(rows)[i] &&
        docs[i].content == Content(TableKeys(rows)[i], ColumnsOf(rows, TableKeys(rows)[i])) &&
        docs[i].embedding == embs[i]
  {
    PayloadsShape(catalog.value);
  }

  /** No row from before a rebuild survives it: every row afterwards has an
      id at least the sequence value the rebuild started from. */
  lemma RebuildFresh(catalog: Result<seq<CatalogRow>>, cfg: ClientConfig, embed: EmbedOracle, firstId: nat)
    ensures forall i :: 0 <= i < |RebuiltDocs(catalog, cfg, embed, firstId)| ==>
              RebuiltDocs(catalog, cfg, embed, firstId)[i].id >= firstId
  {
  }

  /** A failed catalog read or a failed embedding leaves the table empty,
      and a rebuild that leaves rows behind succeeded. */
  lemma RebuildFailureEmpties(catalog: Result<seq<CatalogRow>>, cfg: ClientConfig, embed: EmbedOracle, firstId: nat)
    ensures RebuildResult(catalog, cfg, embed).Err? ==> RebuiltDocs(catalog, cfg, embed, firstId) == []
    ensures RebuiltDocs(catalog, cfg, embed, firstId) != [] ==> RebuildResult(catalog, cfg, embed).Ok?
  {
  }

  /** The embedding call receives the payload contents in payload order. */
  lemma RebuildEmbedsContents(rows: seq<CatalogRow>)
    ensures |Contents(Payloads(rows))| == |TableKeys(rows)|
    ensures forall i :: 0 <= i < |TableKeys(rows)| ==>
              Contents(Payloads(rows))[i] == Content(TableKeys(rows)[i], ColumnsOf(rows, TableKeys(rows)[i]))
  {
    PayloadsShape(rows);
  }

  // ---------------------------------------------------------------- retrieve_relevant_schema

  /** The distance `embedding <-> :q` orders by, into an ordered type. */
  type Distance = (Vector, Vector) -> int

  function DistanceTo(d: Document, q: Vector, dist: Distance): int {
    dist(d.embedding, q)
  }

  predicate SortedBy(docs: seq<Document>, q: Vector, dist: Distance) {
    forall i, j :: 0 <= i < j < |docs| ==> DistanceTo(docs[i], q, dist) <= DistanceTo(docs[j], q, dist)
  }

  /** Puts `d` after every row at most as far as it is. */
  function InsertByDistance(d: Document, sorted: seq<Document>, q: Vector, dist: Distance): seq<Document>
    decreases |sorted|
  {
    if |sorted| == 0 then [d]
    else if DistanceTo(d, q, dist) < DistanceTo(sorted[0], q, dist) then [d] + sorted
    else [sorted[0]] + InsertByDistance(d, sorted[1..], q, dist)
  }

  /** `ORDER BY embedding <-> :q`, rows at equal distance in insertion order. */
  function Ranked(docs: seq<Document>, q: Vector, dist: Distance): seq<Document>
    decreases |docs|
  {
    if |docs| == 0 then []
    else InsertByDistance(docs[|docs| - 1], Ranked(docs[..|docs| - 1], q, dist), q, dist)
  }

  /** `... LIMIT :k` for a non-negative limit. */
  function Nearest(docs: seq<Document>, q: Vector, dist: Distance, k: nat): seq<Document> {
    var ranked := Ranked(docs, q, dist);
    ranked[..Min(k, |ranked|)]
  }

  /** `f"[{identifier}] {content}"`. */
  function RenderRow(d: Document): string {
    "[" + d.identifier + "] " + d.content
  }

  function RenderRows(rows: seq<Document>): seq<string> {
    seq(|rows|, i requires 0 <= i < |rows| => RenderRow(rows[i]))
  }

  /** `"\n".join(parts)`. */
  function Render(rows: seq<Document>): string {
    Join("\n", RenderRows(rows))
  }

  /** PostgreSQL rejects a negative LIMIT. */
  const NegativeLimit: Error := DatabaseError("LIMIT must not be negative")

  /** What `retrieve_relevant_schema(engine, query, k)` returns or raises on
      an index holding `docs`: `embed_texts([query])` first (an empty answer
      makes `[0]` raise), then the query; the rows rendered in rank order. */
  function Retrieval(docs: seq<Document>, cfg: ClientConfig, embed: EmbedOracle, dist: Distance,
                     query: string, k: int): Result<string>
  {
    match Retried(EmbedAttempts(cfg, [query], embed)).result
    case Err(e) => Err(e)
    case Ok(vecs) =>
      if |vecs| == 0 then Err(IndexError)
      else if k < 0 then Err(NegativeLimit)
      else Ok(Render(Nearest(docs, vecs[0], dist, k)))
  }

  /** `retrieve_relevant_schema(engine, query, k)`; the index is only read. */
  method RetrieveRelevantSchema(index: SchemaIndex, cfg: ClientConfig, embed: EmbedOracle, dist: Distance,
                                query: string, k: int) returns (r: Result<string>)
    ensures r == Retrieval(index.docs, cfg, embed, dist, query, k)
  {
    var run := EmbedTexts(cfg, [query], embed);
    if run.result.Err? {
      return Err(run.result.error);
    }
    var vecs := run.result.value;
    if |vecs| == 0 {
      return Err(IndexError);
    }
    var queryVec := vecs[0];
    if k < 0 {
      return Err(NegativeLimit);
    }
    var rows := Nearest(index.docs, queryVec, dist, k);
    var parts: seq<string> := [];
    for i := 0 to |rows|
      invariant parts == RenderRows(rows[..i])
    {
      parts := parts + ["[" + rows[i].identifier + "] " + rows[i].content];
    }
    assert rows[..|rows|] == rows;
    return Ok(Join("\n", parts));
  }

  // ---------------------------------------------------------------- retrieval: properties

  /** Inserting keeps the rows and adds `d` once. */
  lemma {:induction false} InsertByDistancePermutes(d: Document, sorted: seq<Document>, q: Vector, dist: Distance)
    ensures multiset(InsertByDistance(d, sorted, q, dist)) == multiset(sorted) + multiset{d}
    decreases |sorted|
  {
    if |sorted| > 0 {
      assert sorted == [sorted[0]] + sorted[1..];
      if DistanceTo(d, q, dist) >= DistanceTo(sorted[0], q, dist) {
        InsertByDistancePermutes(d, sorted[1..], q, dist);
      }
    }
  }

  /** A lower bound on the distances of the rows and of `d` bounds the result. */
  lemma {:induction false} InsertByDistanceAbove(d: Document, sorted: seq<Document>, q: Vector, dist: Distance, b: int)
    requires forall i :: 0 <= i < |sorted| ==> b <= DistanceTo(sorted[i], q, dist)
    requires b <= DistanceTo(d, q, dist)
    ensures forall i :: 0 <= i < |InsertByDistance(d, sorted, q, dist)| ==>
              b <= DistanceTo(InsertByDistance(d, sorted, q, dist)[i], q, dist)
    decreases |sorted|
  {
    if |sorted| > 0 && DistanceTo(d, q, dist) >= DistanceTo(sorted[0], q, dist) {
      InsertByDistanceAbove(d, sorted[1..], q, dist, b);
    }
  }

  /** Inserting into a ranking gives a ranking. */
  lemma {:induction false} InsertByDistanceSorted(d: Document, sorted: seq<Document>, q: Vector, dist: Distance)
    requires SortedBy(sorted, q, dist)
    ensures SortedBy(InsertByDistance(d, sorted, q, dist), q, dist)
    decreases |sorted|
  {
    if |sorted| > 0 && DistanceTo(d, q, dist) >= DistanceTo(sorted[0], q, dist) {
      var tail := sorted[1..];
      var rest := InsertByDistance(d, tail, q, dist);
      InsertByDistanceSorted(d, tail, q, dist);
      InsertByDistanceAbove(d, tail, q, dist, DistanceTo(sorted[0], q, dist));
      var r := [sorted[0]] + rest;
      assert forall i :: 1 <= i < |r| ==> r[i] == rest[i - 1];
    } else if |sorted| > 0 {
      var r := [d] + sorted;
      assert forall i :: 1 <= i < |r| ==> r[i] == sorted[i - 1];
    }
  }

  /** The ranking is ordered by distance and holds exactly the index's rows. */
  lemma {:induction false} RankedSortedPermutation(docs: seq<Document>, q: Vector, dist: Distance)
    ensures SortedBy(Ranked(docs, q, dist), q, dist)
    ensures multiset(Ranked(docs, q, dist)) == multiset(docs)
    decreases |docs|
  {
    if |docs| > 0 {
      var init := docs[..|docs| - 1];
      RankedSortedPermutation(init, q, dist);
      InsertByDistanceSorted(docs[|docs| - 1], Ranked(init, q, dist), q, dist);
      InsertByDistancePermutes(docs[|docs| - 1], Ranked(init, q, dist), q, dist);
      assert docs == init + [docs[|docs| - 1]];
    }
  }

  /** At most `k` rows come back, as many as the index holds up to `k`, in
      non-decreasing distance, each of them a row of the index. */
  lemma NearestBounded(docs: seq<Document>, q: Vector, dist: Distance, k: nat)
    ensures |Nearest(docs, q, dist, k)| == Min(k, |docs|)
    ensures SortedBy(Nearest(docs, q, dist, k), q, dist)
    ensures multiset(Nearest(docs, q, dist, k)) <= multiset(docs)
  {
    var ranked := Ranked(docs, q, dist);
    RankedSortedPermutation(docs, q, dist);
    assert |ranked| == |multiset(ranked)| == |docs|;
    var n := Min(k, |ranked|);
    assert ranked == ranked[..n] + ranked[n..];
    assert multiset(ranked) == multiset(ranked[..n]) + multiset(ranked[n..]);
  }

  /** Nothing rendered gives the empty string. */
  lemma RenderEmpty()
    ensures Render([]) == ""
  {
  }

  /** The rendered context splits back at "\n" into one `[identifier] content`
      line per row, in rank order, when no identifier or content holds a
      newline. */
  lemma RenderLines(rows: seq<Document>)
    requires |rows| >= 1
    requires forall i :: 0 <= i < |rows| ==> '\n' !in rows[i].identifier && '\n' !in rows[i].content
    ensures Split(Render(rows), "\n") == RenderRows(rows)
    ensures forall i :: 0 <= i < |rows| ==> Split(Render(rows), "\n")[i] == "[" + rows[i].identifier + "] " + rows[i].content
  {
    var parts := RenderRows(rows);
    forall i | 0 <= i < |parts| ensures '\n' !in parts[i] {
      assert parts[i] == "[" + rows[i].identifier + "] " + rows[i].content;
    }
    assert "\n" == ['\n'];
    SplitJoin('\n', parts);
  }

  /** A successful retrieval renders at most `k` rows of the index in
      non-decreasing distance from the question's embedding. */
  lemma RetrievalRanked(docs: seq<Document>, cfg: ClientConfig, embed: EmbedOracle, dist: Distance, query: string, k: int)
    requires Retrieval(docs, cfg, embed, dist, query, k).Ok?
    ensures var vecs := Retried(EmbedAttempts(cfg, [query], embed)).result.value;
      k >= 0 && |vecs| >= 1 &&
      var rows := Nearest(docs, vecs[0], dist, k);
      Retrieval(docs, cfg, embed, dist, query, k).value == Render(rows) &&
      |rows| <= k && SortedBy(rows, vecs[0], dist) && multiset(rows) <= multiset(docs)
  {
    var vecs := Retried(EmbedAttempts(cfg, [query], embed)).result.value;
    NearestBounded(docs, vecs[0], dist, k);
  }

  /** On an empty index a successful retrieval gives "". */
  lemma RetrievalEmptyIndex(cfg: ClientConfig, embed: EmbedOracle, dist: Distance, query: string, k: int)
    requires Retrieval([], cfg, embed, dist, query, k).Ok?
    ensures Retrieval([], cfg, embed, dist, query, k).value == ""
  {
  }

  /** Retrieval fails exactly when the embedding call fails, it returns no
      vector, or the limit is negative. */
  lemma RetrievalFailure(docs: seq<Document>, cfg: ClientConfig, embed: EmbedOracle, dist: Distance, query: string, k: int)
    ensures var run := Retried(EmbedAttempts(cfg, [query], embed));
      Retrieval(docs, cfg, embed, dist, query, k).Err? <==>
        (run.result.Err? || |run.result.value| == 0 || k < 0)
    ensures var run := Retried(EmbedAttempts(cfg, [query], embed));
      run.result.Err? ==> Retrieval(docs, cfg, embed, dist, query, k) == Err(run.result.error)
  {
  }

  /** A retrieval right after a successful rebuild ranks at most
      min(k, number of tables) rows, all of them rows the rebuild inserted. */
  lemma RebuildThenRetrieve(catalog: Result<seq<CatalogRow>>, cfg: ClientConfig, embed: EmbedOracle, firstId: nat,
                            dist: Distance, query: string, k: int)
    requires RebuildResult(catalog, cfg, embed).Ok?
    requires Retrieval(RebuiltDocs(catalog, cfg, embed, firstId), cfg, embed, dist, query, k).Ok?
    ensures var docs := RebuiltDocs(catalog, cfg, embed, firstId);
      var vecs := Retried(EmbedAttempts(cfg, [query], embed)).result.value;
      var rows := Nearest(docs, vecs[0], dist, k);
      |vecs| >= 1 && k >= 0 && |rows| <= Min(k, |TableKeys(catalog.value)|) &&
      multiset(rows) <= multiset(docs)
  {
    var docs := RebuiltDocs(catalog, cfg, embed, firstId);
    RebuildInserts(catalog, cfg, embed, firstId);
    RetrievalRanked(docs, cfg, embed, dist, query, k);
    var vecs := Retried(EmbedAttempts(cfg, [query], embed)).result.value;
    NearestBounded(docs, vecs[0], dist, k);
  }
}
