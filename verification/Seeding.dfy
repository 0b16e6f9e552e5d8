/** Chunked bulk insertion that skips rows already present, compared with one big insert. */
module Seeding {
  import opened Common

  /** Consecutive slices of the given size; the last may be shorter. */
  function Chunks<T>(data: seq<T>, size: nat): (r: seq<seq<T>>)
    requires size >= 1
  {
    if |data| == 0 then []
    else if |data| <= size then [data]
    else [data[..size]] + Chunks(data[size..], size)
  }

  function Concat<T>(chunks: seq<seq<T>>): seq<T> {
    if |chunks| == 0 then [] else chunks[0] + Concat(chunks[1..])
  }

  /** Rows that share a value in some unique column with a row of the table are skipped. */
  function InsertSkip<T>(table: seq<T>, rows: seq<T>, conflict: (T, T) -> bool): (r: seq<T>)
    ensures table <= r
  {
    if |rows| == 0 then table
    else
      var before := InsertSkip(table, rows[..|rows| - 1], conflict);
      var row := rows[|rows| - 1];
      if exists i | 0 <= i < |before| :: conflict(before[i], row) then before else before + [row]
  }

  lemma {:induction false} ChunksConcat<T>(data: seq<T>, size: nat)
    requires size >= 1
    ensures Concat(Chunks(data, size)) == data
  {
    if |data| > size {
      ChunksConcat(data[size..], size);
      assert ([data[..size]] + Chunks(data[size..], size))[1..] == Chunks(data[size..], size);
    } else if |data| > 0 {
      assert [data][1..] == [];
    }
  }

  /** `chunk` is what `data` holds from position `start` on, up to its length. */
  ghost predicate SliceAt<T>(data: seq<T>, start: int, chunk: seq<T>) {
    0 <= start && start + |chunk| <= |data| && chunk == data[start..start + |chunk|]
  }

  lemma {:induction false} ChunkAt<T>(data: seq<T>, size: nat, k: nat)
    requires size >= 1 && k < |Chunks(data, size)|
    ensures SliceAt(data, Spans(k, size), Chunks(data, size)[k])
    ensures 1 <= |Chunks(data, size)[k]| <= size
    ensures k < |Chunks(data, size)| - 1 ==> |Chunks(data, size)[k]| == size
    decreases |data|
  {
    if |data| > size && k > 0 {
      ChunkAt(data[size..], size, k - 1);
      var chunk, start := Chunks(data[size..], size)[k - 1], Spans(k - 1, size);
      assert Chunks(data, size)[k] == chunk && Spans(k, size) == start + size;
      assert data[size..][start..start + |chunk|] == data[start + size..start + size + |chunk|];
    }
  }

  /** Chunk `k` is the slice from position k * size on; all but the last are full, and the last is not empty. */
  lemma ChunksAreFull<T>(data: seq<T>, size: nat, k: nat, start: int)
    requires size >= 1 && k < |Chunks(data, size)| && start == k * size
    ensures SliceAt(data, start, Chunks(data, size)[k])
    ensures 1 <= |Chunks(data, size)[k]| <= size
    ensures k < |Chunks(data, size)| - 1 ==> |Chunks(data, size)[k]| == size
  {
    SpansIsProduct(k, size);
    ChunkAt(data, size, k);
  }

  lemma {:induction false} InsertInTwo<T>(table: seq<T>, a: seq<T>, b: seq<T>, conflict: (T, T) -> bool)
    ensures InsertSkip(table, a + b, conflict) == InsertSkip(InsertSkip(table, a, conflict), b, conflict)
  {
    if |b| == 0 {
      assert a + b == a;
    } else {
      InsertInTwo(table, a, b[..|b| - 1], conflict);
      assert (a + b)[..|a + b| - 1] == a + b[..|b| - 1];
    }
  }

  /** No two rows of the table, and no skipped row, is in conflict with what was kept. */
  lemma {:induction false} InsertKeepsUnique<T>(table: seq<T>, rows: seq<T>, conflict: (T, T) -> bool)
    requires forall i, j | 0 <= i < j < |table| :: !conflict(table[i], table[j])
    ensures var r := InsertSkip(table, rows, conflict);
      && (forall i, j | 0 <= i < j < |r| :: !conflict(r[i], r[j]))
      && (forall k | 0 <= k < |rows| :: rows[k] in r || exists i | 0 <= i < |r| :: conflict(r[i], rows[k]))
      && |r| <= |table| + |rows| && (forall i | |table| <= i < |r| :: r[i] in rows)
  {
    var r := InsertSkip(table, rows, conflict);
    if |rows| > 0 {
      var init := rows[..|rows| - 1];
      InsertKeepsUnique(table, init, conflict);
      var before := InsertSkip(table, init, conflict);
      forall k | 0 <= k < |rows| ensures rows[k] in r || exists i | 0 <= i < |r| :: conflict(r[i], rows[k]) {
        if k < |rows| - 1 {
          assert init[k] == rows[k];
          if rows[k] !in before {
            var i :| 0 <= i < |before| && conflict(before[i], rows[k]);
            assert r[i] == before[i];
          }
        }
      }
    }
  }

  method ChunkArray<T>(data: seq<T>, size: nat) returns (chunks: seq<seq<T>>)
    requires size >= 1
    ensures chunks == Chunks(data, size)
  {
    chunks := [];
    var i := 0;
    ghost var rest := data;
    while i < |data|
      invariant 0 <= i && rest == if i <= |data| then data[i..] else []
      invariant chunks + Chunks(rest, size) == Chunks(data, size)
      decreases |data| - i
    {
      var end := if i + size <= |data| then i + size else |data|;
      var chunk := data[i..end];
      FirstChunk(rest, size);
      assert chunk == rest[..end - i] && rest[end - i..] == data[end..];
      assert chunks + ([chunk] + Chunks(data[end..], size)) == chunks + [chunk] + Chunks(data[end..], size);
      chunks := chunks + [chunk];
      rest := data[end..];
      i := i + size;
    }
  }

  lemma FirstChunk<T>(data: seq<T>, size: nat)
    requires size >= 1 && |data| > 0
    ensures var n := if size <= |data| then size else |data|;
      Chunks(data, size) == [data[..n]] + Chunks(data[n..], size)
  {
    if |data| <= size {
      assert data[..|data|] == data && data[|data|..] == [];
    }
  }

  /** A database table behind a model delegate, with its unique columns as a conflict relation. */
  class Table<T> {
    var rows: seq<T>
    const conflict: (T, T) -> bool

    constructor (rows: seq<T>, conflict: (T, T) -> bool)
      ensures this.rows == rows && this.conflict == conflict
    {
      this.rows, this.conflict := rows, conflict;
    }

    /** `createMany({ data, skipDuplicates: true })`. */
    method CreateMany(data: seq<T>) returns (count: nat)
      modifies this
      ensures rows == InsertSkip(old(rows), data, conflict) && count == |rows| - |old(rows)|
    {
      count := 0;
      for k := 0 to |data|
        invariant rows == InsertSkip(old(rows), data[..k], conflict) && count == |rows| - |old(rows)|
      {
        assert data[..k + 1][..k] == data[..k];
        if !exists i | 0 <= i < |rows| :: conflict(rows[i], data[k]) {
          rows := rows + [data[k]];
          count := count + 1;
        }
      }
      assert data[..|data|] == data;
    }
  }

  /**
   * Chunk by chunk or all at once, the table ends the same; the returned total is the
   * table's growth, whatever the chunk size.
   */
  method SeedInChunks<T>(table: Table<T>, data: seq<T>, chunkSize: nat) returns (totalInserted: nat)
    requires chunkSize >= 1
    modifies table
    ensures table.rows == InsertSkip(old(table.rows), data, table.conflict)
    ensures totalInserted == |table.rows| - |old(table.rows)|
  {
    var chunks := ChunkArray(data, chunkSize);
    totalInserted := 0;
    for k := 0 to |chunks|
      invariant table.rows == InsertSkip(old(table.rows), Concat(chunks[..k]), table.conflict)
      invariant totalInserted == |table.rows| - |old(table.rows)|
    {
      ConcatSnoc(chunks[..k], chunks[k]);
      assert chunks[..k + 1] == chunks[..k] + [chunks[k]];
      InsertInTwo(old(table.rows), Concat(chunks[..k]), chunks[k], table.conflict);
      var count := table.CreateMany(chunks[k]);
      totalInserted := totalInserted + count;
    }
    assert chunks[..|chunks|] == chunks;
    ChunksConcat(data, chunkSize);
  }

  lemma {:induction false} ConcatSnoc<T>(chunks: seq<seq<T>>, chunk: seq<T>)
    ensures Concat(chunks + [chunk]) == Concat(chunks) + chunk
  {
    if |chunks| > 0 {
      assert (chunks + [chunk])[1..] == chunks[1..] + [chunk];
      ConcatSnoc(chunks[1..], chunk);
    } else {
      assert ([] + [chunk])[1..] == [];
    }
  }
}
