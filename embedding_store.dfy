/** The embeddings table (embeddings.joblib) and its append-only update in the
    "generate embeddings" step of backend/video_processor/pipeline.py:
    chunks whose "title__start" key is already stored are skipped, the others
    are embedded and appended with consecutive chunk ids after the largest
    stored id. */
module EmbeddingStore {
  import opened Outcomes

  /** One transcript segment as written to the transcript JSON. */
  datatype Chunk = Chunk(number: string, title: string, start: real, end: real, text: string)

  type Embedding = seq<real>

  /** One row of the embeddings table: the chunk, its id and its vector. */
  datatype Row = Row(chunk: Chunk, chunkId: int, embedding: Embedding)

  /** The identity of a chunk. The source compares the strings
      title + "__" + str(start); str(start) of a float never contains "_",
      so that string determines and is determined by this pair. */
  datatype Key = Key(title: string, start: real)

  function KeyOf(c: Chunk): Key {
    Key(c.title, c.start)
  }

  /** The keys already embedded in a table. */
  function Keys(rows: seq<Row>): (ks: set<Key>)
    ensures forall i :: 0 <= i < |rows| ==> KeyOf(rows[i].chunk) in ks
    ensures forall k :: k in ks ==> exists i :: 0 <= i < |rows| && KeyOf(rows[i].chunk) == k
  {
    if rows == [] then {}
    else
      var ks := Keys(rows[..|rows| - 1]) + {KeyOf(rows[|rows| - 1].chunk)};
      assert forall i :: 0 <= i < |rows| - 1 ==> rows[..|rows| - 1][i] == rows[i];
      ks
  }

  /** The largest chunk id of a non-empty table. */
  function MaxChunkId(rows: seq<Row>): (m: int)
    requires rows != []
    ensures forall i :: 0 <= i < |rows| ==> rows[i].chunkId <= m
    ensures exists i :: 0 <= i < |rows| && rows[i].chunkId == m
  {
    if |rows| == 1 then rows[0].chunkId
    else
      var m := MaxChunkId(rows[1..]);
      assert forall i :: 1 <= i < |rows| ==> rows[i] == rows[1..][i - 1];
      if rows[0].chunkId >= m then rows[0].chunkId else m
  }

  /** The stored rows; a missing file counts as an empty table. */
  function Existing(file: Option<seq<Row>>): seq<Row> {
    if file.None? then [] else file.value
  }

  /** The first id given to a new chunk: one past the largest stored id, or 0
      when the file is missing or the table empty. */
  function NextId(file: Option<seq<Row>>): (n: int)
    ensures Existing(file) == [] ==> n == 0
    ensures forall i :: 0 <= i < |Existing(file)| ==> Existing(file)[i].chunkId < n
    ensures Existing(file) != [] ==> exists i :: 0 <= i < |Existing(file)| && Existing(file)[i].chunkId == n - 1
  {
    if Existing(file) == [] then 0 else MaxChunkId(Existing(file)) + 1
  }

  /** The chunks, in their original order, whose key is not in keys. */
  function NewChunks(chunks: seq<Chunk>, keys: set<Key>): (r: seq<Chunk>)
    ensures |r| <= |chunks|
    ensures forall c :: c in r <==> c in chunks && KeyOf(c) !in keys
  {
    if chunks == [] then []
    else
      var rest := NewChunks(chunks[1..], keys);
      assert forall c :: c in chunks <==> c == chunks[0] || c in chunks[1..];
      if KeyOf(chunks[0]) in keys then rest else [chunks[0]] + rest
  }

  /** The texts sent to the embedding service, one per new chunk. */
  function Texts(chunks: seq<Chunk>): (ts: seq<string>)
    ensures |ts| == |chunks| && forall i :: 0 <= i < |chunks| ==> ts[i] == chunks[i].text
  {
    if chunks == [] then [] else [chunks[0].text] + Texts(chunks[1..])
  }

  /** The rows built by zip(new_chunks, embeddings): the i-th chunk gets the
      i-th vector and the id first + i; the shorter list decides the length. */
  function Stamp(chunks: seq<Chunk>, embeddings: seq<Embedding>, first: int): (rows: seq<Row>)
    ensures |rows| == if |chunks| <= |embeddings| then |chunks| else |embeddings|
    ensures forall i :: 0 <= i < |rows| ==> rows[i] == Row(chunks[i], first + i, embeddings[i])
  {
    if chunks == [] || embeddings == [] then []
    else [Row(chunks[0], first, embeddings[0])] + Stamp(chunks[1..], embeddings[1..], first + 1)
  }

  /** The chunks of a transcript that an update considers new (new_chunks). */
  function PendingChunks(file: Option<seq<Row>>, chunks: seq<Chunk>): seq<Chunk> {
    NewChunks(chunks, Keys(Existing(file)))
  }

  /** The table after an update whose embedding request returned embeddings. */
  function Appended(file: Option<seq<Row>>, chunks: seq<Chunk>, embeddings: seq<Embedding>): seq<Row> {
    Existing(file) + Stamp(PendingChunks(file, chunks), embeddings, NextId(file))
  }

  /** The error an update raises: only the embedding request can fail, and it
      is made only when there are new chunks. */
  function UpdateError(file: Option<seq<Row>>, chunks: seq<Chunk>,
                       embed: seq<string> -> Result<seq<Embedding>, string>): Option<string>
  {
    var pending := PendingChunks(file, chunks);
    if pending != [] && embed(Texts(pending)).Err? then Some(embed(Texts(pending)).error) else None
  }

  /** The file after a successful update: rewritten only when there were new chunks. */
  function FileAfter(file: Option<seq<Row>>, chunks: seq<Chunk>,
                     embed: seq<string> -> Result<seq<Embedding>, string>): Option<seq<Row>>
  {
    var pending := PendingChunks(file, chunks);
    if pending != [] && embed(Texts(pending)).Ok? then Some(Appended(file, chunks, embed(Texts(pending)).value))
    else file
  }

  /** The embeddings.joblib file: None while it does not exist. */
  class EmbeddingFile {
    var rows: Option<seq<Row>>

    constructor (initial: Option<seq<Row>>)
      ensures rows == initial
    {
      rows := initial;
    }

    /** The update of pipeline.py lines 166-208. The result is Ok(true) when
        the table was rewritten, Ok(false) when there was nothing new to embed
        and Err(message) when the embedding request failed. */
    method Update(chunks: seq<Chunk>, embed: seq<string> -> Result<seq<Embedding>, string>)
      returns (r: Result<bool, string>)
      modifies this
      ensures var pending := PendingChunks(old(rows), chunks);
        && (pending == [] ==> r == Ok(false))
        && (pending != [] && embed(Texts(pending)).Err? ==> r == Err(embed(Texts(pending)).error))
        && (pending != [] && embed(Texts(pending)).Ok? ==> r == Ok(true))
      ensures r.Err? <==> UpdateError(old(rows), chunks, embed).Some?
      ensures r.Err? ==> r.error == UpdateError(old(rows), chunks, embed).value
      ensures rows == FileAfter(old(rows), chunks, embed)
    {
      var existing := if rows.None? then [] else rows.value;
      var nextId := if existing == [] then 0 else MaxChunkId(existing) + 1;
      var keys := Keys(existing);
      var pending := NewChunks(chunks, keys);
      assert existing == Existing(rows) && nextId == NextId(rows);
      assert pending == PendingChunks(rows, chunks);
      if pending == [] {
        return Ok(false);
      }
      var response := embed(Texts(pending));
      if response.Err? {
        assert UpdateError(rows, chunks, embed) == Some(response.error);
        return Err(response.error);
      }
      var embeddings := response.value;
      var stamped := StampRows(pending, embeddings, nextId);
      assert existing + stamped == Appended(rows, chunks, embeddings);
      rows := Some(existing + stamped);
      return Ok(true);
    }
  }

  /** The loop of pipeline.py lines 196-201: each new chunk, paired with its
      vector, becomes a row with the next id. */
  method StampRows(pending: seq<Chunk>, embeddings: seq<Embedding>, first: int) returns (stamped: seq<Row>)
    ensures stamped == Stamp(pending, embeddings, first)
  {
    stamped := [];
    var nextId := first;
    var k := 0;
    while k < |pending| && k < |embeddings|
      invariant 0 <= k <= |pending| && k <= |embeddings|
      invariant nextId == first + k && |stamped| == k
      invariant forall i :: 0 <= i < k ==> stamped[i] == Row(pending[i], first + i, embeddings[i])
    {
      stamped := stamped + [Row(pending[k], nextId, embeddings[k])];
      nextId := nextId + 1;
      k := k + 1;
    }
    assert |stamped| == |Stamp(pending, embeddings, first)|;
  }

  // ---------------------------------------------------------------------------
  // Properties of the update

  /** Every new row gets an id above every stored id, the new ids are
      consecutive from NextId, and the stored rows stay in front, unchanged. */
  lemma AppendedIds(file: Option<seq<Row>>, chunks: seq<Chunk>, embeddings: seq<Embedding>)
    ensures var rows := Appended(file, chunks, embeddings);
      var n := |Existing(file)|;
      && rows[..n] == Existing(file)
      && (forall i :: n <= i < |rows| ==> rows[i].chunkId == NextId(file) + (i - n))
      && (forall i, j :: 0 <= i < n <= j < |rows| ==> rows[i].chunkId < rows[j].chunkId)
  {
  }

  /** Distinct ids stay distinct: if the stored ids are pairwise different, so
      are the ids of the table after the update. */
  lemma AppendedKeepsIdsUnique(file: Option<seq<Row>>, chunks: seq<Chunk>, embeddings: seq<Embedding>)
    requires forall i, j :: 0 <= i < j < |Existing(file)| ==> Existing(file)[i].chunkId != Existing(file)[j].chunkId
    ensures var rows := Appended(file, chunks, embeddings);
      forall i, j :: 0 <= i < j < |rows| ==> rows[i].chunkId != rows[j].chunkId
  {
    var rows := Appended(file, chunks, embeddings);
    var n := |Existing(file)|;
    AppendedIds(file, chunks, embeddings);
    forall i, j | 0 <= i < j < |rows| ensures rows[i].chunkId != rows[j].chunkId {
      if j < n {
        assert rows[i] == Existing(file)[i] && rows[j] == Existing(file)[j];
      }
    }
  }

  /** After an update in which every new chunk got a vector, every chunk of
      the transcript has its key stored. */
  lemma AppendedStoresEveryKey(file: Option<seq<Row>>, chunks: seq<Chunk>, embeddings: seq<Embedding>, c: Chunk)
    requires |embeddings| >= |PendingChunks(file, chunks)|
    requires c in chunks
    ensures KeyOf(c) in Keys(Appended(file, chunks, embeddings))
  {
    var rows := Appended(file, chunks, embeddings);
    var n := |Existing(file)|;
    if KeyOf(c) in Keys(Existing(file)) {
      var i :| 0 <= i < n && KeyOf(Existing(file)[i].chunk) == KeyOf(c);
      assert rows[i] == Existing(file)[i];
    } else {
      var pending := PendingChunks(file, chunks);
      var stamped := Stamp(pending, embeddings, NextId(file));
      assert c in pending;
      var i :| 0 <= i < |pending| && pending[i] == c;
      assert rows[n + i] == stamped[i];
    }
  }

  /** The update is idempotent: once every new chunk got a vector, running it
      again with the same transcript finds nothing new (so it does not
      rewrite the file). */
  lemma SecondUpdateFindsNothingNew(file: Option<seq<Row>>, chunks: seq<Chunk>, embeddings: seq<Embedding>)
    requires |embeddings| >= |PendingChunks(file, chunks)|
    ensures PendingChunks(Some(Appended(file, chunks, embeddings)), chunks) == []
  {
    var again := PendingChunks(Some(Appended(file, chunks, embeddings)), chunks);
    if again != [] {
      AppendedStoresEveryKey(file, chunks, embeddings, again[0]);
      assert false;
    }
  }

  /** A chunk whose key is stored is never embedded again, and the new
      chunks keep the order they had in the transcript. */
  lemma {:induction false} NewChunksConcat(a: seq<Chunk>, b: seq<Chunk>, keys: set<Key>)
    ensures NewChunks(a + b, keys) == NewChunks(a, keys) + NewChunks(b, keys)
  {
    if a != [] {
      assert (a + b)[1..] == a[1..] + b;
      NewChunksConcat(a[1..], b, keys);
    } else {
      assert a + b == b;
    }
  }
}
