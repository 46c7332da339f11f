/**
 The incremental RAG indexer: one generation of documents per build, vectors reused from the
 mode's current generation, batches with a per-document fallback, and one pointer per mode.

 A vector is a function of model, dimension and one text. Any call of the provider may fail: which
 ones do is an arbitrary function of the call, and no two calls of a build are the same.
 */
module RagIndex {
  import opened Common
  import opened Rows

  /** The vector a provider gives one text. */
  datatype Vector = Vector(model: string, dimension: nat, text: string)

  /** The content hash, as an injective function of the content. */
  datatype DocumentHash = DocumentHash(content: string)

  datatype RowStatus = Pending | Embedded

  datatype RunStatus = Building | Active | Retired

  datatype Document = Document(documentId: string, content: string)

  datatype DocumentRow = DocumentRow(
    indexId: nat, documentId: string, content: string, contentHash: DocumentHash,
    embedding: Option<Vector>, model: Option<string>, dimension: Option<nat>, status: RowStatus)

  datatype IndexRun = IndexRun(
    mode: string, snapshotId: nat, model: string, dimension: nat, status: RunStatus, documentCount: nat, embeddedCount: nat)

  datatype Index = Index(runs: seq<IndexRun>, rows: seq<DocumentRow>, current: map<string, nat>)

  const NO_INDEX := Index([], [], map[])

  // ---- The reference: embedding every document from scratch ------------------------------

  function EmbeddedRow(id: nat, d: Document, model: string, dimension: nat): DocumentRow {
    DocumentRow(id, d.documentId, d.content, DocumentHash(d.content), Some(Vector(model, dimension, d.content)),
                Some(model), Some(dimension), Embedded)
  }

  function PendingRow(id: nat, d: Document): DocumentRow {
    DocumentRow(id, d.documentId, d.content, DocumentHash(d.content), None, None, None, Pending)
  }

  function FromScratch(id: nat, documents: seq<Document>, model: string, dimension: nat): (rows: seq<DocumentRow>)
    ensures |rows| == |documents|
  {
    seq(|documents|, i requires 0 <= i < |documents| => EmbeddedRow(id, documents[i], model, dimension))
  }

  predicate DistinctIds(documents: seq<Document>) {
    forall i, j :: 0 <= i < j < |documents| ==> documents[i].documentId != documents[j].documentId
  }

  // ---- Invariant -------------------------------------------------------------------------

  /** What one successful build was given. */
  datatype BuildInput = BuildInput(mode: string, snapshotId: nat, documents: seq<Document>, model: string, dimension: nat)

  function RowsOf(id: nat, b: BuildInput): seq<DocumentRow> { FromScratch(id, b.documents, b.model, b.dimension) }

  /** The rows that embedding every build's documents from scratch would leave. */
  function AllRows(builds: seq<BuildInput>): seq<DocumentRow> {
    if builds == [] then []
    else
      var n := |builds| - 1;
      AllRows(builds[..n]) + RowsOf(n, builds[n])
  }

  predicate RunMatches(run: IndexRun, b: BuildInput) {
    && run.mode == b.mode && run.snapshotId == b.snapshotId && run.model == b.model && run.dimension == b.dimension
    && run.documentCount == |b.documents| && run.embeddedCount == |b.documents|
    && run.status != Building && DistinctIds(b.documents)
  }

  /** A run is active exactly when its mode's pointer names it. */
  predicate PointedOnly(runs: seq<IndexRun>, current: map<string, nat>) {
    && (forall id :: 0 <= id < |runs| ==>
          (runs[id].status == Active <==> runs[id].mode in current && current[runs[id].mode] == id))
    && (forall mode :: mode in current ==> current[mode] < |runs| && runs[current[mode]].mode == mode)
  }

  ghost predicate IndexOk(x: Index, builds: seq<BuildInput>) {
    && x.rows == AllRows(builds)
    && |x.runs| == |builds| && (forall id :: 0 <= id < |builds| ==> RunMatches(x.runs[id], builds[id]))
    && PointedOnly(x.runs, x.current)
  }

  /** The mode's run that a new generation replaces, no longer active. */
  function Retire(runs: seq<IndexRun>, previous: Option<nat>): (r: seq<IndexRun>)
    ensures |r| == |runs|
  {
    if previous.Some? && previous.value < |runs| then runs[previous.value := runs[previous.value].(status := Retired)] else runs
  }

  function PreviousOf(x: Index, mode: string): Option<nat> { if mode in x.current then Some(x.current[mode]) else None }

  function ActiveRun(b: BuildInput): IndexRun {
    IndexRun(b.mode, b.snapshotId, b.model, b.dimension, Active, |b.documents|, |b.documents|)
  }

  /** The index after a build that embedded every document. */
  function Published(x: Index, b: BuildInput): Index {
    var id := |x.runs|;
    Index(Retire(x.runs, PreviousOf(x, b.mode)) + [ActiveRun(b)], x.rows + RowsOf(id, b), x.current[b.mode := id])
  }

  lemma PointedAfter(runs: seq<IndexRun>, current: map<string, nat>, b: BuildInput)
    requires PointedOnly(runs, current)
    ensures var previous := if b.mode in current then Some(current[b.mode]) else None;
            PointedOnly(Retire(runs, previous) + [ActiveRun(b)], current[b.mode := |runs|])
  {
  }

  /** Publishing a generation keeps the index consistent. */
  lemma PublishingKeepsIndex(x: Index, builds: seq<BuildInput>, b: BuildInput)
    requires IndexOk(x, builds) && DistinctIds(b.documents)
    ensures IndexOk(Published(x, b), builds + [b])
  {
    var more := builds + [b];
    assert more[..|more| - 1] == builds;
    PointedAfter(x.runs, x.current, b);
    forall id | 0 <= id < |more| ensures RunMatches(Published(x, b).runs[id], more[id]) {
      if id < |builds| { assert RunMatches(x.runs[id], builds[id]); }
    }
  }

  // ---- Calling the provider --------------------------------------------------------------

  function VectorsOf(texts: seq<string>, model: string, dimension: nat): (vs: seq<Vector>)
    ensures |vs| == |texts|
  {
    seq(|texts|, i requires 0 <= i < |texts| => Vector(model, dimension, texts[i]))
  }

  /** One call of the provider: its texts, the rows they belong to, batch or fallback, and which attempt it is. */
  datatype Call = Call(texts: seq<string>, rows: seq<nat>, fallback: bool, attempt: nat)

  /** The calls that fail. */
  type Failures = Call -> bool

  /** One call: it fails, or gives one vector per text. */
  method EmbedOnce(fails: Failures, call: Call, model: string, dimension: nat) returns (r: Option<seq<Vector>>)
    ensures r == if fails(call) then None else Some(VectorsOf(call.texts, model, dimension))
  {
    if fails(call) {
      r := None;
    } else {
      r := Some(VectorsOf(call.texts, model, dimension));
    }
  }

  const RETRIES := 3

  /** One of the first four calls with these texts is answered. */
  predicate Answered(fails: Failures, texts: seq<string>, rows: seq<nat>, fallback: bool) {
    exists attempt :: 0 <= attempt < 4 && !fails(Call(texts, rows, fallback, attempt))
  }

  /** The first call, then three more: unanswered exactly when all four fail. */
  lemma FourTries(fails: Failures, texts: seq<string>, rows: seq<nat>, fallback: bool)
    ensures !Answered(fails, texts, rows, fallback) <==>
              && fails(Call(texts, rows, fallback, 0)) && fails(Call(texts, rows, fallback, 1))
              && fails(Call(texts, rows, fallback, 2)) && fails(Call(texts, rows, fallback, 3))
  {
    if !Answered(fails, texts, rows, fallback) {
      assert forall attempt: nat :: attempt < 4 ==> fails(Call(texts, rows, fallback, attempt));
    }
  }

  /** `_embed_with_retry`: gives up only after the first call and three retries have all failed. */
  method EmbedWithRetry(fails: Failures, texts: seq<string>, rows: seq<nat>, fallback: bool, model: string, dimension: nat)
    returns (r: Option<seq<Vector>>, calls: nat)
    ensures r.Some? <==> Answered(fails, texts, rows, fallback)
    ensures r.Some? ==> r.value == VectorsOf(texts, model, dimension)
    ensures 1 <= calls <= 4 && (r.None? ==> calls == 4)
    ensures forall k :: 0 <= k < calls - 1 ==> fails(Call(texts, rows, fallback, k))
  {
    r, calls := None, 0;
    while calls < RETRIES + 1
      invariant calls <= RETRIES + 1 && r.None?
      invariant forall k :: 0 <= k < calls ==> fails(Call(texts, rows, fallback, k))
    {
      r := EmbedOnce(fails, Call(texts, rows, fallback, calls), model, dimension);
      calls := calls + 1;
      if r.Some? { return; }
    }
  }

  // ---- Reusing vectors -------------------------------------------------------------------

  datatype CacheKey = CacheKey(documentId: string, contentHash: DocumentHash)

  function KeyOf(r: DocumentRow): CacheKey { CacheKey(r.documentId, r.contentHash) }

  predicate InGeneration(r: DocumentRow, id: Option<nat>) { id == Some(r.indexId) && r.status == Embedded }

  /** Some row of the previous generation has this document id and content hash. */
  predicate Cached(rows: seq<DocumentRow>, previous: Option<nat>, key: CacheKey) {
    exists k :: 0 <= k < |rows| && InGeneration(rows[k], previous) && KeyOf(rows[k]) == key
  }

  method CollectReusable(rows: seq<DocumentRow>, previous: Option<nat>) returns (reusable: map<CacheKey, DocumentRow>)
    ensures forall key :: key in reusable <==> Cached(rows, previous, key)
    ensures forall key :: key in reusable ==> reusable[key] in rows && InGeneration(reusable[key], previous) && KeyOf(reusable[key]) == key
  {
    reusable := map[];
    for i := 0 to |rows|
      invariant forall key :: key in reusable <==> Cached(rows[..i], previous, key)
      invariant forall key :: key in reusable ==>
                  reusable[key] in rows && InGeneration(reusable[key], previous) && KeyOf(reusable[key]) == key
    {
      CachedStep(rows, i, previous);
      if InGeneration(rows[i], previous) {
        reusable := reusable[KeyOf(rows[i]) := rows[i]];
      }
    }
    assert rows[..|rows|] == rows;
  }

  lemma CachedStep(rows: seq<DocumentRow>, i: nat, previous: Option<nat>)
    requires i < |rows|
    ensures forall key :: Cached(rows[..i + 1], previous, key)
                          <==> Cached(rows[..i], previous, key) || (InGeneration(rows[i], previous) && KeyOf(rows[i]) == key)
  {
    forall key ensures Cached(rows[..i + 1], previous, key)
                       <==> Cached(rows[..i], previous, key) || (InGeneration(rows[i], previous) && KeyOf(rows[i]) == key)
    {
      var more := rows[..i + 1];
      if Cached(rows[..i], previous, key) {
        var k :| 0 <= k < i && InGeneration(rows[..i][k], previous) && KeyOf(rows[..i][k]) == key;
        assert more[k] == rows[k];
      }
      if InGeneration(rows[i], previous) && KeyOf(rows[i]) == key { assert more[i] == rows[i]; }
      if Cached(more, previous, key) {
        var k :| 0 <= k < |more| && InGeneration(more[k], previous) && KeyOf(more[k]) == key;
        if k < i { assert rows[..i][k] == more[k]; }
      }
    }
  }

  /** Whether a cached row's vector fits the current model and dimension. */
  predicate Fits(cached: Option<DocumentRow>, model: string, dimension: nat) {
    cached.Some? && cached.value.embedding.Some? && cached.value.model == Some(model) && cached.value.dimension == Some(dimension)
  }

  function Lookup(reusable: map<CacheKey, DocumentRow>, d: Document): Option<DocumentRow> {
    var key := CacheKey(d.documentId, DocumentHash(d.content));
    if key in reusable then Some(reusable[key]) else None
  }

  /** The row a document starts with: embedded from the cache, or pending. */
  function NewRow(id: nat, d: Document, cached: Option<DocumentRow>, model: string, dimension: nat): DocumentRow {
    if Fits(cached, model, dimension)
    then DocumentRow(id, d.documentId, d.content, DocumentHash(d.content), cached.value.embedding, Some(model), Some(dimension), Embedded)
    else PendingRow(id, d)
  }

  /** What the cache may hold: every row carries the vector of its own content. */
  predicate CacheOk(reusable: map<CacheKey, DocumentRow>) {
    forall key :: key in reusable ==> KeyOf(reusable[key]) == key && OwnVector(reusable[key])
  }

  predicate OwnVector(r: DocumentRow) {
    && r.contentHash == DocumentHash(r.content)
    && (r.embedding.Some? ==> r.model.Some? && r.dimension.Some?
                              && r.embedding.value == Vector(r.model.value, r.dimension.value, r.content))
  }

  /** A reused vector is the one embedding the document now would give. */
  lemma ReuseIsFromScratch(reusable: map<CacheKey, DocumentRow>, id: nat, d: Document, model: string, dimension: nat)
    requires CacheOk(reusable)
    ensures NewRow(id, d, Lookup(reusable, d), model, dimension)
            == if Fits(Lookup(reusable, d), model, dimension) then EmbeddedRow(id, d, model, dimension) else PendingRow(id, d)
  {
  }

  lemma {:induction false} RowsCarryOwnVectors(builds: seq<BuildInput>)
    ensures forall r :: r in AllRows(builds) ==> OwnVector(r) && r.indexId < |builds| && r.status == Embedded
  {
    if builds != [] { RowsCarryOwnVectors(builds[..|builds| - 1]); }
  }

  // ---- Building the rows of a generation -------------------------------------------------

  /** Each row is its document's from-scratch row or still pending. */
  predicate Progress(id: nat, b: BuildInput, rows: seq<DocumentRow>) {
    |rows| == |b.documents|
    && forall i :: 0 <= i < |rows| ==>
         rows[i] == EmbeddedRow(id, b.documents[i], b.model, b.dimension) || rows[i] == PendingRow(id, b.documents[i])
  }

  function PendingIn(rows: seq<DocumentRow>): (p: seq<nat>)
    ensures forall k :: 0 <= k < |p| ==> p[k] < |rows| && rows[p[k]].status == Pending
    ensures forall j, k :: 0 <= j < k < |p| ==> p[j] < p[k]
  {
    if rows == [] then []
    else
      var n := |rows| - 1;
      PendingIn(rows[..n]) + (if rows[n].status == Pending then [n] else [])
  }

  function EmbeddedCount(rows: seq<DocumentRow>): (n: nat)
    ensures n <= |rows|
  {
    if rows == [] then 0
    else EmbeddedCount(rows[..|rows| - 1]) + (if rows[|rows| - 1].status == Embedded then 1 else 0)
  }

  lemma {:induction false} PendingAndEmbedded(rows: seq<DocumentRow>)
    ensures |PendingIn(rows)| + EmbeddedCount(rows) == |rows|
  {
    if rows != [] { PendingAndEmbedded(rows[..|rows| - 1]); }
  }

  lemma {:induction false} AllEmbedded(rows: seq<DocumentRow>)
    requires EmbeddedCount(rows) == |rows|
    ensures forall i :: 0 <= i < |rows| ==> rows[i].status == Embedded
  {
    if rows != [] { AllEmbedded(rows[..|rows| - 1]); }
  }

  lemma {:induction false} OneMoreEmbedded(rows: seq<DocumentRow>, i: nat, row: DocumentRow)
    requires i < |rows| && rows[i].status == Pending && row.status == Embedded
    ensures EmbeddedCount(rows[i := row]) == EmbeddedCount(rows) + 1
  {
    var n := |rows| - 1;
    if i < n {
      OneMoreEmbedded(rows[..n], i, row);
      assert rows[i := row][..n] == rows[..n][i := row];
    } else {
      assert rows[i := row][..n] == rows[..n];
    }
  }

  method BuildRows(id: nat, b: BuildInput, reusable: map<CacheKey, DocumentRow>)
    returns (rows: seq<DocumentRow>, pending: seq<nat>)
    requires CacheOk(reusable)
    ensures Progress(id, b, rows) && pending == PendingIn(rows)
    ensures forall i :: 0 <= i < |rows| ==>
              (rows[i].status == Embedded <==> Fits(Lookup(reusable, b.documents[i]), b.model, b.dimension))
  {
    rows, pending := [], [];
    for i := 0 to |b.documents|
      invariant |rows| == i && pending == PendingIn(rows)
      invariant forall k :: 0 <= k < i ==>
                  rows[k] == EmbeddedRow(id, b.documents[k], b.model, b.dimension) || rows[k] == PendingRow(id, b.documents[k])
      invariant forall k :: 0 <= k < i ==>
                  (rows[k].status == Embedded <==> Fits(Lookup(reusable, b.documents[k]), b.model, b.dimension))
    {
      var row := NewRow(id, b.documents[i], Lookup(reusable, b.documents[i]), b.model, b.dimension);
      ReuseIsFromScratch(reusable, id, b.documents[i], b.model, b.dimension);
      rows := rows + [row];
      assert rows[..i] == rows[..|rows| - 1];
      if row.status != Embedded {
        pending := pending + [i];
      }
    }
  }

  // ---- Embedding what is pending ---------------------------------------------------------

  datatype Completion = Completion(row: nat, vector: Vector)

  predicate Ascends(batch: seq<nat>, n: nat) {
    (forall k :: 0 <= k < |batch| ==> batch[k] < n) && (forall j, k :: 0 <= j < k < |batch| ==> batch[j] < batch[k])
  }

  /** Completed rows are some of the batch, in its order, each with the vector of its own document. */
  predicate CompletionsOk(b: BuildInput, batch: seq<nat>, cs: seq<Completion>) {
    && (forall k :: 0 <= k < |cs| ==>
          cs[k].row in batch && cs[k].row < |b.documents|
          && cs[k].vector == Vector(b.model, b.dimension, b.documents[cs[k].row].content))
    && (forall j, k :: 0 <= j < k < |cs| ==> cs[j].row < cs[k].row)
  }

  /** The contents of some of the documents. */
  function TextsOf(documents: seq<Document>, batch: seq<nat>): (texts: seq<string>)
    requires Ascends(batch, |documents|)
    ensures |texts| == |batch|
  {
    seq(|batch|, i requires 0 <= i < |batch| => documents[batch[i]].content)
  }

  /** Its batch is answered in one call, or it is answered alone. */
  predicate Served(fails: Failures, documents: seq<Document>, batch: seq<nat>, i: nat)
    requires Ascends(batch, |documents|) && i < |documents|
  {
    Answered(fails, TextsOf(documents, batch), batch, false) || Answered(fails, [documents[i].content], [i], true)
  }

  predicate Completes(cs: seq<Completion>, i: nat) { exists k :: 0 <= k < |cs| && cs[k].row == i }

  lemma OneMoreCompletion(cs: seq<Completion>, c: Completion, i: nat)
    ensures Completes(cs + [c], i) <==> Completes(cs, i) || c.row == i
  {
    var more := cs + [c];
    if Completes(cs, i) {
      var k :| 0 <= k < |cs| && cs[k].row == i;
      assert more[k].row == i;
    }
    if c.row == i { assert more[|cs|].row == i; }
  }

  /** The fallback: one document at a time, skipping those that fail. */
  method EmbedEach(fails: Failures, id: nat, b: BuildInput, rows: seq<DocumentRow>, batch: seq<nat>) returns (cs: seq<Completion>)
    requires Progress(id, b, rows) && Ascends(batch, |rows|)
    ensures CompletionsOk(b, batch, cs)
    ensures forall i :: i in batch ==> (Completes(cs, i) <==> Answered(fails, [b.documents[i].content], [i], true))
  {
    hide Answered;
    cs := [];
    for n := 0 to |batch|
      invariant CompletionsOk(b, batch, cs)
      invariant forall k :: 0 <= k < |cs| && n < |batch| ==> cs[k].row < batch[n]
      invariant forall k :: 0 <= k < n ==>
                  (Completes(cs, batch[k]) <==> Answered(fails, [b.documents[batch[k]].content], [batch[k]], true))
    {
      assert !Completes(cs, batch[n]);
      var vector, calls := EmbedWithRetry(fails, [rows[batch[n]].content], [batch[n]], true, b.model, b.dimension);
      if vector.Some? {
        var c := Completion(batch[n], vector.value[0]);
        forall k | 0 <= k <= n ensures Completes(cs + [c], batch[k]) <==> Completes(cs, batch[k]) || k == n {
          OneMoreCompletion(cs, c, batch[k]);
        }
        cs := cs + [c];
      }
    }
  }

  /** One batch: all of it in one call, or document by document when that call gives up. */
  method EmbedBatch(fails: Failures, id: nat, b: BuildInput, rows: seq<DocumentRow>, batch: seq<nat>) returns (cs: seq<Completion>)
    requires Progress(id, b, rows) && Ascends(batch, |rows|)
    ensures CompletionsOk(b, batch, cs)
    ensures forall i :: i in batch ==> (Completes(cs, i) <==> Served(fails, b.documents, batch, i))
  {
    hide Answered;
    var texts := seq(|batch|, i requires 0 <= i < |batch| => rows[batch[i]].content);
    assert texts == TextsOf(b.documents, batch);
    var vectors, calls := EmbedWithRetry(fails, texts, batch, false, b.model, b.dimension);
    if vectors.Some? {
      cs := [];
      for i := 0 to |batch|
        invariant |cs| == i && forall k :: 0 <= k < i ==> cs[k] == Completion(batch[k], vectors.value[k])
      {
        cs := cs + [Completion(batch[i], vectors.value[i])];
      }
      assert forall k :: 0 <= k < |cs| ==> texts[k] == b.documents[batch[k]].content && batch[k] in batch;
      forall i | i in batch ensures Completes(cs, i) {
        var k :| 0 <= k < |batch| && batch[k] == i;
        assert cs[k].row == i;
      }
    } else {
      cs := EmbedEach(fails, id, b, rows, batch);
    }
  }

  /** Writing the completed vectors into their rows. */
  method StoreVectors(id: nat, b: BuildInput, rows: seq<DocumentRow>, batch: seq<nat>, cs: seq<Completion>)
    returns (after: seq<DocumentRow>)
    requires Progress(id, b, rows) && Ascends(batch, |rows|) && CompletionsOk(b, batch, cs)
    requires forall k :: 0 <= k < |batch| ==> rows[batch[k]].status == Pending
    ensures Progress(id, b, after) && EmbeddedCount(after) == EmbeddedCount(rows) + |cs|
    ensures forall i :: 0 <= i < |rows| && i !in batch ==> after[i] == rows[i]
    ensures forall i :: i in batch ==> (after[i].status == Embedded <==> Completes(cs, i))
  {
    hide EmbeddedCount;
    after := rows;
    for k := 0 to |cs|
      invariant Progress(id, b, after) && EmbeddedCount(after) == EmbeddedCount(rows) + k
      invariant forall j :: 0 <= j < k ==> after[cs[j].row].status == Embedded
      invariant forall i :: 0 <= i < |rows| && (forall j :: 0 <= j < k ==> cs[j].row != i) ==> after[i] == rows[i]
    {
      var i := cs[k].row;
      var row := after[i].(embedding := Some(cs[k].vector), model := Some(b.model), dimension := Some(b.dimension), status := Embedded);
      assert rows[i].status == Pending;
      assert after[i] == PendingRow(id, b.documents[i]);
      OneMoreEmbedded(after, i, row);
      after := after[i := row];
    }
    forall i | i in batch ensures after[i].status == Embedded <==> Completes(cs, i) {
      if !Completes(cs, i) { assert forall j :: 0 <= j < |cs| ==> cs[j].row != i; }
    }
  }

  lemma ProgressLength(id: nat, b: BuildInput, rows: seq<DocumentRow>)
    requires Progress(id, b, rows)
    ensures |rows| == |b.documents|
  {
  }

  /** The consecutive stretch of the pending list, `size` long but for the last, that holds place k. */
  function BatchAround(pending: seq<nat>, size: int, k: nat): (batch: seq<nat>)
    requires size > 0 && k < |pending|
    ensures pending[k] in batch
  {
    var start := k - k % size;
    var end := if start + size < |pending| then start + size else |pending|;
    assert pending[start..end][k - start] == pending[k];
    pending[start..end]
  }

  predicate ServedAt(fails: Failures, documents: seq<Document>, pending: seq<nat>, size: int, k: nat)
    requires Ascends(pending, |documents|) && size > 0 && k < |pending|
  {
    Served(fails, documents, BatchAround(pending, size, k), pending[k])
  }

  /** Every pending document is answered for, with its batch or alone. */
  predicate AllServed(fails: Failures, documents: seq<Document>, pending: seq<nat>, size: int)
    requires Ascends(pending, |documents|) && size > 0
  {
    forall k :: 0 <= k < |pending| ==> ServedAt(fails, documents, pending, size, k)
  }

  lemma BatchAtStart(pending: seq<nat>, size: int, j: nat, k: nat)
    requires size > 0 && j * size <= k < j * size + size && k < |pending|
    ensures var start := j * size;
            BatchAround(pending, size, k) == pending[start..if start + size < |pending| then start + size else |pending|]
  {
    SameBlock(size, j, k);
  }

  lemma SameBlock(size: int, j: nat, k: nat)
    requires size > 0 && j * size <= k < j * size + size
    ensures k - k % size == j * size
  {
    var q := k / size;
    assert k == q * size + k % size;
    assert (q - j) * size == q * size - j * size;
    if q > j { AtLeastOnce(q - j, size); }
    if q < j { AtLeastOnce(j - q, size); }
  }

  lemma AtLeastOnce(x: int, size: int)
    requires x >= 1 && size > 0
    ensures x * size >= size && (0 - x) * size <= 0 - size
  {
  }

  /** One round of the batch loop. */
  method EmbedNext(fails: Failures, id: nat, b: BuildInput, rows: seq<DocumentRow>, pending: seq<nat>, size: int,
                   ghost j: nat, start: nat, end: nat) returns (after: seq<DocumentRow>, added: nat)
    requires Progress(id, b, rows) && Ascends(pending, |b.documents|) && |rows| == |b.documents|
    requires size > 0 && start == j * size && start < |pending|
    requires end == if start + size < |pending| then start + size else |pending|
    requires forall k :: start <= k < |pending| ==> rows[pending[k]].status == Pending
    ensures Progress(id, b, after) && |after| == |rows| && EmbeddedCount(after) == EmbeddedCount(rows) + added
    ensures forall i :: 0 <= i < |rows| && i !in pending[start..end] ==> after[i] == rows[i]
    ensures forall k :: start <= k < end ==>
              (after[pending[k]].status == Embedded <==> ServedAt(fails, b.documents, pending, size, k))
  {
    hide Progress, EmbeddedCount, CompletionsOk, Served, Completes;
    var batch := pending[start..end];
    assert forall k :: 0 <= k < |batch| ==> batch[k] == pending[start + k];
    var cs := EmbedBatch(fails, id, b, rows, batch);
    after := StoreVectors(id, b, rows, batch, cs);
    ProgressLength(id, b, after);
    added := |cs|;
    forall k | start <= k < end
      ensures after[pending[k]].status == Embedded <==> ServedAt(fails, b.documents, pending, size, k)
    {
      assert batch[k - start] == pending[k];
      BatchAtStart(pending, size, j, k);
    }
  }

  /** Of the first n pending documents, exactly those that are answered for are embedded. */
  predicate ServedUpTo(fails: Failures, documents: seq<Document>, pending: seq<nat>, size: int, rows: seq<DocumentRow>, n: nat)
    requires Ascends(pending, |documents|) && |rows| == |documents| && size > 0 && n <= |pending|
  {
    forall k :: 0 <= k < n ==> (rows[pending[k]].status == Embedded <==> ServedAt(fails, documents, pending, size, k))
  }

  lemma NothingServed(fails: Failures, documents: seq<Document>, pending: seq<nat>, size: int, rows: seq<DocumentRow>)
    requires Ascends(pending, |documents|) && |rows| == |documents| && size > 0
    ensures ServedUpTo(fails, documents, pending, size, rows, 0)
  {
  }

  lemma ServedFurther(fails: Failures, documents: seq<Document>, pending: seq<nat>, size: int, rows: seq<DocumentRow>,
                      after: seq<DocumentRow>, start: nat, end: nat)
    requires Ascends(pending, |documents|) && |rows| == |after| == |documents| && size > 0 && start <= end <= |pending|
    requires ServedUpTo(fails, documents, pending, size, rows, start)
    requires forall i :: 0 <= i < |rows| && i !in pending[start..end] ==> after[i] == rows[i]
    requires forall k :: start <= k < end ==> (after[pending[k]].status == Embedded <==> ServedAt(fails, documents, pending, size, k))
    ensures ServedUpTo(fails, documents, pending, size, after, end)
    ensures forall k :: end <= k < |pending| ==> after[pending[k]] == rows[pending[k]]
    ensures forall i :: 0 <= i < |rows| && i !in pending ==> after[i] == rows[i]
  {
    hide ServedAt;
    OutsideStretch(pending, |documents|, start, end);
  }

  /** The batch loop: the batches partition the pending list; a negative size gives none at all. */
  method EmbedPending(fails: Failures, id: nat, b: BuildInput, rows: seq<DocumentRow>, pending: seq<nat>, batchSize: int)
    returns (after: seq<DocumentRow>, embedded: nat, ghost batches: seq<seq<nat>>)
    requires batchSize != 0 && Progress(id, b, rows) && pending == PendingIn(rows)
    ensures Progress(id, b, after) && embedded == EmbeddedCount(after) && |after| == |rows| == |b.documents|
    ensures Ascends(pending, |b.documents|)
    ensures batchSize < 0 ==> after == rows
    ensures batchSize > 0 ==> Flatten(batches) == pending
    ensures forall k :: 0 <= k < |batches| ==> 1 <= |batches[k]| <= batchSize
    ensures forall i :: 0 <= i < |rows| && i !in pending ==> after[i] == rows[i]
    ensures batchSize > 0 ==> ServedUpTo(fails, b.documents, pending, batchSize, after, |pending|)
  {
    hide Progress, EmbeddedCount, Flatten, PendingIn, ServedAt, Ascends, ServedUpTo;
    NothingFlattened();
    PendingAndEmbedded(rows);
    ProgressLength(id, b, rows);
    PendingIsPending(rows);
    after, embedded, batches := rows, |rows| - |pending|, [];
    if batchSize < 0 { return; }
    var start := 0;
    ghost var j: nat := 0;
    NothingServed(fails, b.documents, pending, batchSize, after);
    while start < |pending|
      invariant 0 <= start <= |pending| && |after| == |rows| && Progress(id, b, after) && embedded == EmbeddedCount(after)
      invariant start < |pending| ==> start == j * batchSize
      invariant forall k :: start <= k < |pending| ==> after[pending[k]] == rows[pending[k]]
      invariant forall i :: 0 <= i < |rows| && i !in pending ==> after[i] == rows[i]
      invariant ServedUpTo(fails, b.documents, pending, batchSize, after, start)
      invariant Flatten(batches) == pending[..start]
      invariant forall k :: 0 <= k < |batches| ==> 1 <= |batches[k]| <= batchSize
    {
      var end := if start + batchSize < |pending| then start + batchSize else |pending|;
      ghost var batch := pending[start..end];
      var added;
      ghost var earlier := after;
      after, added := EmbedNext(fails, id, b, after, pending, batchSize, j, start, end);
      ServedFurther(fails, b.documents, pending, batchSize, earlier, after, start, end);
      embedded := embedded + added;
      FlattenOneMore(batches, batch);
      batches := batches + [batch];
      assert pending[..start] + batch == pending[..end];
      assert (j + 1) * batchSize == j * batchSize + batchSize;
      j := j + 1;
      start := end;
    }
    assert pending[..start] == pending;
  }

  /** Places outside a stretch of an ascending list hold none of its elements. */
  lemma OutsideStretch(pending: seq<nat>, n: nat, start: nat, end: nat)
    requires Ascends(pending, n) && start <= end <= |pending|
    ensures forall k :: 0 <= k < |pending| && (k < start || end <= k) ==> pending[k] !in pending[start..end]
    ensures forall i :: i in pending[start..end] ==> i in pending
  {
  }

  lemma PendingIsPending(rows: seq<DocumentRow>)
    ensures Ascends(PendingIn(rows), |rows|)
  {
  }

  function Flatten(batches: seq<seq<nat>>): seq<nat> {
    if batches == [] then [] else Flatten(batches[..|batches| - 1]) + batches[|batches| - 1]
  }

  lemma NothingFlattened()
    ensures Flatten([]) == []
  {
  }

  lemma FlattenOneMore(batches: seq<seq<nat>>, batch: seq<nat>)
    ensures Flatten(batches + [batch]) == Flatten(batches) + batch
  {
    assert (batches + [batch])[..|batches|] == batches;
  }

  lemma {:induction false} CountsFullIff(rows: seq<DocumentRow>)
    ensures EmbeddedCount(rows) == |rows| <==> forall i :: 0 <= i < |rows| ==> rows[i].status == Embedded
  {
    if rows != [] { CountsFullIff(rows[..|rows| - 1]); }
  }

  lemma {:induction false} PendingMembers(rows: seq<DocumentRow>, i: nat)
    requires i < |rows|
    ensures i in PendingIn(rows) <==> rows[i].status == Pending
  {
    var n := |rows| - 1;
    if i < n { PendingMembers(rows[..n], i); }
  }

  /** All rows end up embedded exactly when the pending ones do. */
  lemma CompleteIff(rows: seq<DocumentRow>, after: seq<DocumentRow>)
    requires |after| == |rows|
    requires forall i :: 0 <= i < |rows| && i !in PendingIn(rows) ==> after[i] == rows[i]
    ensures var pending := PendingIn(rows);
            EmbeddedCount(after) == |after| <==> forall k :: 0 <= k < |pending| ==> after[pending[k]].status == Embedded
  {
    hide PendingIn, EmbeddedCount;
    var pending := PendingIn(rows);
    CountsFullIff(after);
    if forall k :: 0 <= k < |pending| ==> after[pending[k]].status == Embedded {
      forall i | 0 <= i < |after| ensures after[i].status == Embedded {
        PendingMembers(rows, i);
        if i in pending { var k :| 0 <= k < |pending| && pending[k] == i; }
      }
      assert EmbeddedCount(after) == |after|;
    } else {
      var k :| 0 <= k < |pending| && after[pending[k]].status != Embedded;
      var i := pending[k];
      assert i < |after| && after[i].status != Embedded;
    }
  }

  lemma PointedExists(x: Index, builds: seq<BuildInput>, mode: string)
    requires IndexOk(x, builds)
    ensures PreviousOf(x, mode).Some? ==> PreviousOf(x, mode).value < |builds|
    ensures x.rows == AllRows(builds)
  {
  }

  /** What the batches leave embedded, as the documents they served. */
  lemma FullIffPendingServed(rows: seq<DocumentRow>, pending: seq<nat>, after: seq<DocumentRow>, fails: Failures,
                             b: BuildInput, size: int)
    requires size != 0 && Ascends(pending, |b.documents|) && |after| == |b.documents|
    requires EmbeddedCount(after) == |after| <==> forall k :: 0 <= k < |pending| ==> after[pending[k]].status == Embedded
    requires size > 0 ==> ServedUpTo(fails, b.documents, pending, size, after, |pending|)
    requires size < 0 ==> after == rows && forall k :: 0 <= k < |pending| ==> after[pending[k]].status == Pending
    ensures EmbeddedCount(after) == |b.documents|
            <==> if size > 0 then AllServed(fails, b.documents, pending, size) else pending == []
  {
    hide EmbeddedCount, ServedAt;
    if size < 0 && pending != [] { assert after[pending[0]].status == Pending; }
  }

  /** A provider that never fails serves every document, and so does one that fails only on several texts at once. */
  lemma LenientProviderServesAll(fails: Failures, documents: seq<Document>, pending: seq<nat>, size: int)
    requires Ascends(pending, |documents|) && size > 0
    requires forall call: Call :: |call.texts| == 1 ==> !fails(call)
    ensures AllServed(fails, documents, pending, size)
  {
    forall k | 0 <= k < |pending| ensures ServedAt(fails, documents, pending, size, k) {
      var i := pending[k];
      var alone := [documents[i].content];
      assert !fails(Call(alone, [i], true, 0));
      assert Answered(fails, alone, [i], true);
    }
  }

  lemma FullyEmbedded(id: nat, b: BuildInput, rows: seq<DocumentRow>)
    requires Progress(id, b, rows) && EmbeddedCount(rows) == |rows|
    ensures rows == RowsOf(id, b)
  {
    AllEmbedded(rows);
  }

  // ---- One build -------------------------------------------------------------------------

  datatype IndexSummary = IndexSummary(indexId: nat, documentCount: nat, reusedCount: nat, embeddedCount: nat)

  /** Duplicate: two documents share an id. BadBatch: a zero batch size. Incomplete: some document stayed pending. */
  datatype IndexError = Duplicate | BadBatch | Incomplete

  /** The document stands, id and content, in that earlier build, made with the same model and dimension. */
  predicate Repeats(builds: seq<BuildInput>, previous: Option<nat>, b: BuildInput, d: Document) {
    previous.Some? && previous.value < |builds|
    && builds[previous.value].model == b.model && builds[previous.value].dimension == b.dimension
    && d in builds[previous.value].documents
  }

  /** Which of the first n documents do not repeat the earlier build and so must be embedded. */
  function NewDocuments(builds: seq<BuildInput>, previous: Option<nat>, b: BuildInput, n: nat): (p: seq<nat>)
    requires n <= |b.documents|
    ensures Ascends(p, n)
  {
    if n == 0 then []
    else NewDocuments(builds, previous, b, n - 1) + (if Repeats(builds, previous, b, b.documents[n - 1]) then [] else [n - 1])
  }

  /** The documents a build must embed. */
  function ToEmbed(builds: seq<BuildInput>, previous: Option<nat>, b: BuildInput): (p: seq<nat>)
    ensures Ascends(p, |b.documents|)
  {
    NewDocuments(builds, previous, b, |b.documents|)
  }

  /** How many of the first n documents repeat the earlier build. */
  function RepeatCount(builds: seq<BuildInput>, previous: Option<nat>, b: BuildInput, n: nat): nat
    requires n <= |b.documents|
  {
    if n == 0 then 0
    else RepeatCount(builds, previous, b, n - 1) + (if Repeats(builds, previous, b, b.documents[n - 1]) then 1 else 0)
  }

  /** The stored rows are exactly the from-scratch rows of the builds. */
  lemma {:induction false} RowsAreDocuments(builds: seq<BuildInput>, id: nat, d: Document)
    requires id < |builds|
    ensures d in builds[id].documents <==> EmbeddedRow(id, d, builds[id].model, builds[id].dimension) in AllRows(builds)
  {
    var n := |builds| - 1;
    var row := EmbeddedRow(id, d, builds[id].model, builds[id].dimension);
    RowsCarryOwnVectors(builds[..n]);
    if id < n {
      RowsAreDocuments(builds[..n], id, d);
      assert row !in RowsOf(n, builds[n]);
    } else {
      if d in builds[n].documents {
        var k :| 0 <= k < |builds[n].documents| && builds[n].documents[k] == d;
        assert RowsOf(n, builds[n])[k] == row;
      }
      if row in RowsOf(n, builds[n]) {
        var k :| 0 <= k < |builds[n].documents| && RowsOf(n, builds[n])[k] == row;
        assert builds[n].documents[k] == d;
      }
    }
  }

  lemma {:induction false} RowsHaveBuildModel(builds: seq<BuildInput>, r: DocumentRow)
    requires r in AllRows(builds)
    ensures r.indexId < |builds|
            && r == EmbeddedRow(r.indexId, Document(r.documentId, r.content), builds[r.indexId].model, builds[r.indexId].dimension)
  {
    var n := |builds| - 1;
    if r in AllRows(builds[..n]) {
      RowsHaveBuildModel(builds[..n], r);
    } else {
      var k :| 0 <= k < |builds[n].documents| && RowsOf(n, builds[n])[k] == r;
    }
  }

  /** A vector is reused exactly for the documents that repeat the mode's current generation. */
  lemma ReusedIffRepeated(builds: seq<BuildInput>, previous: Option<nat>, reusable: map<CacheKey, DocumentRow>,
                          b: BuildInput, d: Document)
    requires previous.Some? ==> previous.value < |builds|
    requires forall key :: key in reusable <==> Cached(AllRows(builds), previous, key)
    requires forall key :: key in reusable ==>
               reusable[key] in AllRows(builds) && InGeneration(reusable[key], previous) && KeyOf(reusable[key]) == key
    ensures Fits(Lookup(reusable, d), b.model, b.dimension) <==> Repeats(builds, previous, b, d)
  {
    var key := CacheKey(d.documentId, DocumentHash(d.content));
    if key in reusable {
      var r := reusable[key];
      RowsHaveBuildModel(builds, r);
      RowsAreDocuments(builds, r.indexId, d);
    }
    if Repeats(builds, previous, b, d) {
      RowsAreDocuments(builds, previous.value, d);
      var row := EmbeddedRow(previous.value, d, b.model, b.dimension);
      var k :| 0 <= k < |AllRows(builds)| && AllRows(builds)[k] == row;
      assert Cached(AllRows(builds), previous, key);
    }
  }

  lemma {:induction false} CountsAgree(builds: seq<BuildInput>, previous: Option<nat>, b: BuildInput, rows: seq<DocumentRow>, n: nat)
    requires |rows| == |b.documents| && n <= |rows|
    requires forall i :: 0 <= i < |rows| ==> (rows[i].status == Embedded <==> Repeats(builds, previous, b, b.documents[i]))
    ensures EmbeddedCount(rows[..n]) == RepeatCount(builds, previous, b, n)
    ensures (forall i :: 0 <= i < |rows| ==> rows[i].status == Embedded || rows[i].status == Pending)
            ==> PendingIn(rows[..n]) == NewDocuments(builds, previous, b, n)
  {
    if n > 0 {
      CountsAgree(builds, previous, b, rows, n - 1);
      assert rows[..n][..n - 1] == rows[..n - 1];
    }
  }

  lemma ReusedCount(builds: seq<BuildInput>, previous: Option<nat>, reusable: map<CacheKey, DocumentRow>,
                    b: BuildInput, rows: seq<DocumentRow>)
    requires previous.Some? ==> previous.value < |builds|
    requires forall key :: key in reusable <==> Cached(AllRows(builds), previous, key)
    requires forall key :: key in reusable ==>
               reusable[key] in AllRows(builds) && InGeneration(reusable[key], previous) && KeyOf(reusable[key]) == key
    requires |rows| == |b.documents|
    requires forall i :: 0 <= i < |rows| ==>
               (rows[i].status == Embedded <==> Fits(Lookup(reusable, b.documents[i]), b.model, b.dimension))
    ensures |rows| - |PendingIn(rows)| == RepeatCount(builds, previous, b, |b.documents|)
    ensures PendingIn(rows) == ToEmbed(builds, previous, b)
  {
    forall i | 0 <= i < |rows| ensures rows[i].status == Embedded <==> Repeats(builds, previous, b, b.documents[i]) {
      ReusedIffRepeated(builds, previous, reusable, b, b.documents[i]);
    }
    CountsAgree(builds, previous, b, rows, |rows|);
    assert rows[..|rows|] == rows;
    PendingAndEmbedded(rows);
  }

  /**
   How a build of distinct documents ends: it succeeds exactly when every document that is not
   reused is served, and with a negative batch size exactly when all are reused; else it is incomplete.
   */
  predicate EndsBy(r: Result<IndexSummary, IndexError>, fails: Failures, builds: seq<BuildInput>, previous: Option<nat>,
                   b: BuildInput, batchSize: int)
    requires batchSize != 0
  {
    var pending := ToEmbed(builds, previous, b);
    && (r.Ok? <==> if batchSize > 0 then AllServed(fails, b.documents, pending, batchSize) else pending == [])
    && (r.Err? ==> r.error == Incomplete)
  }

  class RagStore {
    var index: Index
    ghost var builds: seq<BuildInput>

    ghost predicate Valid()
      reads this
    {
      IndexOk(index, builds)
    }

    constructor ()
      ensures Valid() && index == NO_INDEX && builds == []
    {
      index, builds := NO_INDEX, [];
    }

    /** The transaction body: true when everything was written, false when it must be rolled back. */
    method Build(fails: Failures, b: BuildInput, batchSize: int) returns (r: Result<IndexSummary, IndexError>)
      requires Valid()
      modifies this`index
      ensures r.Ok? ==> index == Published(old(index), b) && DistinctIds(b.documents) && batchSize != 0
      ensures r.Ok? ==> r.value.indexId == |old(index).runs| && r.value.documentCount == |b.documents| == r.value.embeddedCount
      ensures r.Ok? ==> r.value.reusedCount == RepeatCount(builds, PreviousOf(old(index), b.mode), b, |b.documents|)
      ensures r.Ok? && batchSize < 0 ==> r.value.reusedCount == |b.documents|
      ensures batchSize == 0 && DistinctIds(b.documents) ==> r == Err(BadBatch)
      ensures r.Err? ==> (r.error == Duplicate <==> !DistinctIds(b.documents))
      ensures DistinctIds(b.documents) && batchSize != 0 ==> EndsBy(r, fails, builds, PreviousOf(old(index), b.mode), b, batchSize)
    {
      hide AllRows, Progress, PendingIn, EmbeddedCount, RepeatCount, NewDocuments, ServedAt, Flatten, DistinctIds, CacheOk, OwnVector;
      var id := |index.runs|;
      var before := index;
      index := index.(runs := index.runs + [IndexRun(b.mode, b.snapshotId, b.model, b.dimension, Building, |b.documents|, 0)]);
      var previous := PreviousOf(index, b.mode);
      PointedExists(before, builds, b.mode);
      var rows, pending := StartRows(id, b, previous);
      if !DistinctIds(b.documents) {
        return Err(Duplicate);
      }
      index := index.(rows := before.rows + rows);
      if batchSize == 0 {
        return Err(BadBatch);
      }
      var reused := |rows| - |pending|;
      var embedded;
      ghost var batches;
      ghost var started := rows;
      rows, embedded, batches := EmbedPending(fails, id, b, rows, pending, batchSize);
      CompleteIff(started, rows);
      FullIffPendingServed(started, pending, rows, fails, b, batchSize);
      index := index.(rows := before.rows + rows);
      if embedded != |b.documents| {
        return Err(Incomplete);
      }
      FullyEmbedded(id, b, rows);
      index := Index(Retire(before.runs, previous) + [ActiveRun(b)], index.rows, index.current[b.mode := id]);
      r := Ok(IndexSummary(id, |b.documents|, reused, embedded));
    }

    /** The rows a build starts with, some of them already embedded from the cache. */
    method StartRows(id: nat, b: BuildInput, previous: Option<nat>) returns (rows: seq<DocumentRow>, pending: seq<nat>)
      requires index.rows == AllRows(builds) && (previous.Some? ==> previous.value < |builds|)
      ensures Progress(id, b, rows) && pending == PendingIn(rows) && |rows| == |b.documents|
      ensures pending == ToEmbed(builds, previous, b)
      ensures |rows| - |pending| == RepeatCount(builds, previous, b, |b.documents|)
    {
      var reusable := CollectReusable(index.rows, previous);
      RowsCarryOwnVectors(builds);
      CacheFromRows(index.rows, reusable);
      rows, pending := BuildRows(id, b, reusable);
      ReusedCount(builds, previous, reusable, b, rows);
    }

    /** `index_snapshot`: the whole generation and the pointer, or nothing at all. */
    method IndexSnapshot(fails: Failures, b: BuildInput, batchSize: int) returns (r: Result<IndexSummary, IndexError>)
      requires Valid()
      modifies this
      ensures Valid()
      ensures r.Ok? ==> index == Published(old(index), b) && builds == old(builds) + [b]
      ensures r.Ok? ==> r.value.documentCount == |b.documents| == r.value.embeddedCount
      ensures r.Ok? ==> r.value.reusedCount == RepeatCount(old(builds), PreviousOf(old(index), b.mode), b, |b.documents|)
      ensures r.Err? ==> index == old(index) && builds == old(builds)
      ensures !DistinctIds(b.documents) ==> r == Err(Duplicate)
      ensures DistinctIds(b.documents) && batchSize == 0 ==> r == Err(BadBatch)
      ensures DistinctIds(b.documents) && batchSize != 0 ==>
                EndsBy(r, fails, old(builds), PreviousOf(old(index), b.mode), b, batchSize)
    {
      var before := index;
      r := Build(fails, b, batchSize);
      if r.Err? {
        index := before;
      } else {
        PublishingKeepsIndex(before, builds, b);
        builds := builds + [b];
      }
    }
  }

  predicate CacheRowsOk(rows: seq<DocumentRow>) { forall k :: 0 <= k < |rows| ==> OwnVector(rows[k]) }

  lemma CacheFromRows(rows: seq<DocumentRow>, reusable: map<CacheKey, DocumentRow>)
    requires CacheRowsOk(rows)
    requires forall key :: key in reusable ==> reusable[key] in rows && KeyOf(reusable[key]) == key
    ensures CacheOk(reusable)
  {
  }

  // ---- What readers see ------------------------------------------------------------------

  function IndexIds(rows: seq<DocumentRow>): (r: seq<nat>)
    ensures |r| == |rows|
  {
    seq(|rows|, i requires 0 <= i < |rows| => rows[i].indexId)
  }

  /** The rows of one generation, in table order. */
  function GenerationOf(x: Index, id: nat): seq<DocumentRow> { Select(x.rows, IndexIds(x.rows), id) }

  lemma {:induction false} GenerationRows(builds: seq<BuildInput>, id: nat)
    requires id < |builds|
    ensures Select(AllRows(builds), IndexIds(AllRows(builds)), id) == RowsOf(id, builds[id])
  {
    hide EmbeddedRow, OwnVector;
    var n := |builds| - 1;
    var before, last := AllRows(builds[..n]), RowsOf(n, builds[n]);
    RowsCarryOwnVectors(builds[..n]);
    RowsNameTheirBuild(n, builds[n]);
    assert IndexIds(before + last) == IndexIds(before) + IndexIds(last);
    OlderRows(before, n);
    SelectAppended(before, IndexIds(before), last, IndexIds(last), id, id == n);
    if id < n { GenerationRows(builds[..n], id); }
  }

  lemma RowsNameTheirBuild(id: nat, b: BuildInput)
    ensures forall k :: 0 <= k < |RowsOf(id, b)| ==> RowsOf(id, b)[k].indexId == id
  {
  }

  lemma OlderRows(rows: seq<DocumentRow>, n: nat)
    requires forall r :: r in rows ==> r.indexId < n
    ensures forall k :: 0 <= k < |rows| ==> IndexIds(rows)[k] < n
  {
    forall k | 0 <= k < |rows| ensures IndexIds(rows)[k] < n { assert rows[k] in rows; }
  }

  /**
   Whatever was reused, batched or retried, the current generation of a mode is exactly what
   embedding its documents from scratch gives, and its run is the mode's only active one.
   */
  lemma CurrentGenerationIsFromScratch(x: Index, builds: seq<BuildInput>, mode: string)
    requires IndexOk(x, builds) && mode in x.current
    ensures var id := x.current[mode];
            && id < |builds| && builds[id].mode == mode && GenerationOf(x, id) == RowsOf(id, builds[id])
            && (forall k :: 0 <= k < |x.runs| && x.runs[k].mode == mode ==> (x.runs[k].status == Active <==> k == id))
            && (forall i :: 0 <= i < |builds[id].documents| ==> HoldsDocument(GenerationOf(x, id)[i], builds[id], i))
  {
    GenerationRows(builds, x.current[mode]);
    assert RunMatches(x.runs[x.current[mode]], builds[x.current[mode]]);
  }

  /** The row is this document's, searchable, with the vector of its own content under the build's model. */
  predicate HoldsDocument(r: DocumentRow, b: BuildInput, i: nat)
    requires i < |b.documents|
  {
    var d := b.documents[i];
    && r.documentId == d.documentId && r.content == d.content && r.contentHash.content == d.content
    && r.embedding == Some(Vector(b.model, b.dimension, d.content))
    && r.model == Some(b.model) && r.dimension == Some(b.dimension) && r.status == Embedded
  }

  /** A later build leaves every older generation, and every other mode's pointer, as they were. */
  lemma OlderGenerationsStay(x: Index, builds: seq<BuildInput>, b: BuildInput, id: nat, mode: string)
    requires IndexOk(x, builds) && id < |builds|
    ensures GenerationOf(Published(x, b), id) == GenerationOf(x, id)
    ensures mode != b.mode ==> (mode in Published(x, b).current <==> mode in x.current)
                               && (mode in x.current ==> Published(x, b).current[mode] == x.current[mode])
  {
    var more := builds + [b];
    assert more[..|more| - 1] == builds;
    GenerationRows(builds, id);
    GenerationRows(more, id);
    assert Published(x, b).rows == AllRows(more);
  }
}
