/**
 * The transactional loader of src/index.js (`main`, src/index.js:39-92):
 * every line is decoded into a `messages` row and buffered; when the line
 * count reaches a multiple of `BatchSize` the buffer is bulk-created inside
 * the open transaction, which is then committed and replaced by a new one.
 * The store is the ghost record of what each committed transaction held.
 */
module TransactionalIngest {
  import opened Json
  import opened Messages
  import opened Batches

  /** `batchSize` (src/index.js:37). */
  const BatchSize: nat := 1024

  /** How a run ends: every line read, or a TypeError at line `line` (0-based). */
  datatype Outcome = Done | Aborted(line: nat)

  /**
   * What the commits of a complete run over `rows` hold, as the loader is
   * written: one transaction per complete batch, then, when the line count is
   * not a multiple of `BatchSize`, one more commit of a transaction into which
   * nothing was bulk-created. The rows after the last complete batch are never
   * written (src/index.js:86-89).
   */
  function CommittedAtEnd(rows: seq<MessageRow>): (commits: seq<seq<MessageRow>>)
    ensures |rows| % BatchSize == 0 ==> commits == Chunks(rows, BatchSize)
    ensures |rows| % BatchSize > 0 ==> |commits| > 0 && commits[|commits| - 1] == []
  {
    var full := |rows| - |rows| % BatchSize;
    assert full == |rows| ==> rows[..full] == rows;
    Chunks(rows[..full], BatchSize) + if |rows| % BatchSize > 0 then [[]] else []
  }

  /**
   * The rows a complete run leaves in the store are those of its complete
   * batches, in order: all of them exactly when the line count is a multiple
   * of `BatchSize`, none at all when there are fewer than `BatchSize` lines.
   * There is one commit per begun batch.
   */
  lemma {:induction false} RemainderLost(rows: seq<MessageRow>)
    ensures Flatten(CommittedAtEnd(rows)) == rows[..|rows| - |rows| % BatchSize]
    ensures Flatten(CommittedAtEnd(rows)) == rows <==> |rows| % BatchSize == 0
    ensures |rows| < BatchSize ==> Flatten(CommittedAtEnd(rows)) == []
    ensures |CommittedAtEnd(rows)| == |rows| / BatchSize + if |rows| % BatchSize > 0 then 1 else 0
  {
    var full := |rows| - |rows| % BatchSize;
    var batches := Chunks(rows[..full], BatchSize);
    if |rows| % BatchSize > 0 {
      FlattenAppend(batches, []);
      assert batches + [[]] == CommittedAtEnd(rows);
    } else {
      assert batches + [] == batches;
    }
    ChunkCount(rows[..full], BatchSize);
    assert |batches| == |rows| / BatchSize;
  }

  /** `q` complete batches and `m` more lines, fewer than a batch. */
  lemma Split(q: nat, m: nat)
    requires m < BatchSize
    ensures (q * BatchSize + m) / BatchSize == q
    ensures (q * BatchSize + m) % BatchSize == m
  {
  }

  /** Counting one more line reaches a multiple of `BatchSize` exactly when it completes a batch. */
  lemma NextCount(q: nat, m: nat)
    requires m < BatchSize
    ensures (q * BatchSize + m + 1) % BatchSize == 0 <==> m + 1 == BatchSize
  {
    if m + 1 < BatchSize {
      Split(q, m + 1);
    } else {
      Split(q + 1, 0);
    }
  }

  class Loader {
    /** `JSON.stringify`. */
    const stringify: Value -> string
    /** `lineNumber` (src/index.js:44): lines read so far. */
    var lineNumber: nat
    /** `messagesToCreate` (src/index.js:47): rows not yet bulk-created. */
    var messagesToCreate: seq<MessageRow>
    /** The open `transaction` (src/index.js:43), numbered from 0 in the order they were begun. */
    var transaction: nat
    /** The rows bulk-created in the open transaction. */
    ghost var pending: seq<MessageRow>
    /** The rows of each committed transaction, in commit order. */
    ghost var commits: seq<seq<MessageRow>>

    /** The state once the first transaction is begun and before the first line. */
    ghost predicate Initial()
      reads this
    {
      && lineNumber == 0 && messagesToCreate == [] && transaction == 0
      && pending == [] && commits == []
    }

    constructor (stringify: Value -> string)
      ensures this.stringify == stringify
      ensures Initial()
    {
      this.stringify := stringify;
      lineNumber := 0;
      messagesToCreate := [];
      transaction := 0;
      pending := [];
      commits := [];
    }

    /** `Message.bulkCreate(messagesToCreate, { transaction })` and the emptying of the buffer (src/index.js:73-76). */
    method BulkCreate()
      modifies this`messagesToCreate, this`pending
      ensures |old(messagesToCreate)| > 0 ==> pending == old(pending) + old(messagesToCreate) && messagesToCreate == []
      ensures |old(messagesToCreate)| == 0 ==> pending == old(pending) && messagesToCreate == []
    {
      if |messagesToCreate| > 0 {
        pending := pending + messagesToCreate;
        messagesToCreate := [];
      }
    }

    /** `transaction.commit()`: what the open transaction holds becomes durable. */
    method Commit()
      modifies this`pending, this`commits
      ensures commits == old(commits) + [old(pending)]
      ensures pending == []
    {
      commits := commits + [pending];
      pending := [];
    }

    /**
     * The step at a multiple of `BatchSize` (src/index.js:73-80): bulk-create
     * the buffer into the open transaction, commit it, begin the next one.
     */
    method CommitBatch()
      requires pending == [] && |messagesToCreate| > 0
      modifies this`messagesToCreate, this`pending, this`commits, this`transaction
      ensures commits == old(commits) + [old(messagesToCreate)]
      ensures messagesToCreate == [] && pending == []
      ensures transaction == old(transaction) + 1
    {
      BulkCreate();
      assert pending == old(messagesToCreate);
      Commit();
      transaction := transaction + 1;
    }

    /**
     * Between lines, the lines read are those decoded in `ds`: their complete
     * batches are committed one per transaction, the rest is buffered, and the
     * open transaction is empty.
     */
    ghost predicate Between(ds: seq<Decoded>)
      reads this
    {
      && lineNumber == |ds|
      && pending == []
      && transaction == |commits|
      && Buffered(Rows(ds))
    }

    /** `seen` is committed in full batches except for the rows still in the buffer, fewer than a batch. */
    ghost predicate Buffered(seen: seq<MessageRow>)
      reads this
    {
      && Full(commits, BatchSize)
      && Flatten(commits) + messagesToCreate == seen
      && |messagesToCreate| < BatchSize
    }

    /** The buffer holds the rows after the last complete batch of `done`, and the commits those batches. */
    ghost predicate CommittedCompleteBatches(done: seq<MessageRow>)
      reads this
    {
      && commits == Chunks(done[..|done| - |done| % BatchSize], BatchSize)
      && messagesToCreate == done[|done| - |done| % BatchSize..]
    }

    lemma CompleteBatches(done: seq<MessageRow>)
      requires Buffered(done)
      ensures CommittedCompleteBatches(done)
    {
      FullIsChunks(commits, BatchSize);
      Split(|commits|, |messagesToCreate|);
      assert |done| % BatchSize == |messagesToCreate|;
      assert done[..|done| - |messagesToCreate|] == Flatten(commits);
    }

    /** Between lines the buffer holds `lineNumber % BatchSize` rows (src/index.js:62-76). */
    lemma BufferMatchesCount(ds: seq<Decoded>)
      requires Between(ds)
      ensures |messagesToCreate| == lineNumber % BatchSize
    {
      FullLength(commits, BatchSize);
      Split(|commits|, |messagesToCreate|);
    }

    /**
     * `messagesToCreate.push(...)` and, when the line count is a multiple of
     * `BatchSize`, the bulk-create and commit (src/index.js:62-81).
     */
    method Push(row: MessageRow, ghost seen: seq<MessageRow>)
      requires Buffered(seen) && pending == [] && transaction == |commits|
      requires lineNumber == |seen| + 1
      modifies this`messagesToCreate, this`pending, this`commits, this`transaction
      ensures Buffered(seen + [row]) && pending == [] && transaction == |commits|
    {
      FullLength(commits, BatchSize);
      NextCount(|commits|, |messagesToCreate|);
      messagesToCreate := messagesToCreate + [row];
      if lineNumber % BatchSize == 0 {
        // The `messagesToCreate.length` guard of src/index.js:73 always holds here.
        assert |messagesToCreate| == BatchSize;
        FlattenAppend(commits, messagesToCreate);
        CommitBatch();
      }
    }

    /**
     * The body of the loop for one line (src/index.js:50-81): count it, decode
     * it, buffer its row and, on a multiple of `BatchSize`, bulk-create the
     * buffer, commit and begin the next transaction.
     */
    method ReadLine(line: Value, ghost ds: seq<Decoded>) returns (ok: bool)
      requires Between(ds)
      modifies this`lineNumber, this`messagesToCreate, this`pending, this`commits, this`transaction
      ensures lineNumber == old(lineNumber) + 1
      ensures ok <==> Decode(line, stringify).Success?
      ensures ok ==> Between(ds + [Decode(line, stringify).value])
      ensures !ok ==> Stopped(Rows(ds))
    {
      lineNumber := lineNumber + 1;
      var d := Decode(line, stringify);
      if d.Failure? {
        CompleteBatches(Rows(ds));
        return false;
      }
      RowsStep(ds, d.value);
      Push(d.value.row, Rows(ds));
      ok := true;
    }

    /**
     * A complete run over `ds`, as the loader is written: the complete batches
     * committed one per transaction, then an empty commit if rows are left
     * over, and those rows still in the buffer.
     */
    ghost predicate Completed(ds: seq<Decoded>)
      reads this
    {
      && lineNumber == |ds|
      && commits == CommittedAtEnd(Rows(ds))
      && messagesToCreate == Rows(ds)[|ds| - |ds| % BatchSize..]
      && transaction == |ds| / BatchSize
      && pending == []
    }

    /** A run stopped after the rows `done`: their complete batches committed, the rest never written. */
    ghost predicate Stopped(done: seq<MessageRow>)
      reads this
    {
      CommittedCompleteBatches(done) && pending == []
    }

    /**
     * The end of `main` (src/index.js:86-89) as written: when the line count is
     * not a multiple of `BatchSize` the open transaction is committed, but the
     * rows still in `messagesToCreate` were never bulk-created into it.
     */
    method Finish(ghost ds: seq<Decoded>)
      requires Between(ds)
      modifies this`pending, this`commits
      ensures Completed(ds)
    {
      CompleteBatches(Rows(ds));
      FullLength(commits, BatchSize);
      Split(|commits|, |messagesToCreate|);
      if lineNumber % BatchSize > 0 {
        Commit();
      }
    }

    /**
     * `main`'s loop over the lines and its end (src/index.js:49-89). A run that
     * reads every line commits the complete batches of its rows, one per
     * transaction, and leaves the rest unwritten; a run stopped by a TypeError
     * has committed only the complete batches before the failing line.
     */
    method Run(lines: seq<Value>) returns (outcome: Outcome)
      requires Initial()
      modifies this
      ensures outcome.Done? ==>
                FirstDecode(lines, |lines|, stringify) && Completed(DecodeFirst(lines, |lines|, stringify))
      ensures outcome.Aborted? ==>
                var k := outcome.line;
                && k < |lines|
                && lineNumber == k + 1
                && FirstDecode(lines, k, stringify)
                && Decode(lines[k], stringify).Failure?
                && Stopped(Rows(DecodeFirst(lines, k, stringify)))
    {
      var i := 0;
      ghost var ds: seq<Decoded> := [];
      while i < |lines|
        invariant 0 <= i <= |lines|
        invariant FirstDecode(lines, i, stringify) && ds == DecodeFirst(lines, i, stringify)
        invariant Between(ds)
      {
        var ok := ReadLine(lines[i], ds);
        if !ok {
          return Aborted(i);
        }
        DecodeNext(lines, i, stringify);
        ds := ds + [Decode(lines[i], stringify).value];
        i := i + 1;
      }
      Finish(ds);
      outcome := Done;
    }
  }
}
