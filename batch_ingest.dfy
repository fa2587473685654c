/**
 * The ingestion loop of index.js (`main`, index.js:92-213): rows are buffered
 * and written in batches of `BatchSize` by `write`/`maybeWrite`, and author
 * profiles are collected in `cachedAuthorData` and written once at the end.
 * Each `bulkCreate` is one atomic step; the store is the ghost record of them.
 */
module BatchIngest {
  import opened Wrappers
  import opened Json
  import opened Messages
  import opened Batches
  import opened Authors

  /** `batchSize` (index.js:115). */
  const BatchSize: nat := 1024

  /** How a run ends: every line read, or a TypeError at line `line` (0-based). */
  datatype Outcome = Done | Aborted(line: nat, crash: Crash)

  class Pipeline {
    /** `JSON.stringify`. */
    const stringify: Value -> string
    /** How many rows have been written (index.js:94). */
    var written: nat
    /** Rows not yet written (index.js:96). */
    var rows: seq<MessageRow>
    /** Author id to profile (index.js:90). */
    var cachedAuthorData: map<Value, Profile>
    /** The keys of `cachedAuthorData` in the order they were added. */
    var authorOrder: seq<Value>
    /** Each `Message.bulkCreate` call, in order. */
    ghost var messageWrites: seq<seq<MessageRow>>
    /** Each `Author.bulkCreate` call, in order. */
    ghost var authorWrites: seq<seq<AuthorRow>>

    function AuthorState(): AuthorMap
      reads this`cachedAuthorData, this`authorOrder
    {
      AuthorMap(cachedAuthorData, authorOrder)
    }

    /** `written` counts the rows written so far, and the buffer never holds more than a batch. */
    ghost predicate Valid()
      reads this`written, this`rows, this`messageWrites
    {
      && written == |Flatten(messageWrites)|
      && |rows| <= BatchSize
    }

    /** The state before the first line: nothing buffered, written or collected. */
    ghost predicate Initial()
      reads this
    {
      && written == 0 && rows == [] && messageWrites == []
      && AuthorState() == NoAuthors && authorWrites == []
    }

    constructor (stringify: Value -> string)
      ensures this.stringify == stringify
      ensures Valid() && Initial()
    {
      this.stringify := stringify;
      written := 0;
      rows := [];
      cachedAuthorData := map[];
      authorOrder := [];
      messageWrites := [];
      authorWrites := [];
    }

    /** `write` (index.js:104-109): store the buffered rows in order, count them, empty the buffer. */
    method Write()
      requires Valid()
      modifies this`written, this`rows, this`messageWrites
      ensures Valid()
      ensures messageWrites == old(messageWrites) + [old(rows)]
      ensures written == old(written) + |old(rows)|
      ensures rows == []
    {
      FlattenAppend(messageWrites, rows);
      messageWrites := messageWrites + [rows];
      written := written + |rows|;
      rows := [];
    }

    /** `maybeWrite` (index.js:117): write exactly when the buffer holds `BatchSize` rows. */
    method MaybeWrite()
      requires Valid()
      modifies this`written, this`rows, this`messageWrites
      ensures Valid()
      ensures |rows| < BatchSize
      ensures |old(rows)| == BatchSize ==>
                messageWrites == old(messageWrites) + [old(rows)] && written == old(written) + BatchSize && rows == []
      ensures |old(rows)| != BatchSize ==>
                messageWrites == old(messageWrites) && written == old(written) && rows == old(rows)
    {
      if |rows| == BatchSize {
        Write();
      }
    }

    /** The `about` aggregation of one line (index.js:144-191), updating the profile field by field. */
    method RecordAbout(author: Value, content: Value) returns (crash: Option<Crash>)
      modifies this`cachedAuthorData, this`authorOrder
      ensures Observe(old(AuthorState()), author, content) ==
              if crash.Some? then Failure(crash.value) else Success(AuthorState())
      ensures crash.Some? ==> AuthorState() == old(AuthorState())
    {
      ghost var a := AuthorState();
      if TypeOf(content) == ObjectType {
        if content.Null? {
          return Some(ReadPropertyOfNull);
        }
        if Get(content, "type") == Str("about") {
          if author !in cachedAuthorData {
            cachedAuthorData := cachedAuthorData[author := NoProfile];
            authorOrder := authorOrder + [author];
          }
          var thisAuthor := cachedAuthorData[author];
          ghost var before := thisAuthor;
          var name := Get(content, "name");
          if TypeOf(name) == StringType {
            thisAuthor := thisAuthor.(name := Some(name.s));
          }
          var description := Get(content, "description");
          if TypeOf(description) == StringType {
            thisAuthor := thisAuthor.(description := Some(description.s));
          }
          var image := Get(content, "image");
          match TypeOf(image) {
            case StringType =>
              thisAuthor := thisAuthor.(image := Some(image.s));
            case ObjectType =>
              // The literal "string" test of index.js:182, as written.
              if !image.Null? && Get(image, "link") == Str("string") {
                thisAuthor := thisAuthor.(image := Some(Get(image, "link").s));
              }
            case _ =>
          }
          assert thisAuthor == ApplyAbout(before, content) by {
            assert FieldOf(thisAuthor, Name) == FieldOf(ApplyAbout(before, content), Name);
            assert FieldOf(thisAuthor, Description) == FieldOf(ApplyAbout(before, content), Description);
            assert FieldOf(thisAuthor, Image) == FieldOf(ApplyAbout(before, content), Image);
          }
          cachedAuthorData := cachedAuthorData[author := thisAuthor];
          if author in a.profiles {
            assert AuthorState() == a.(profiles := a.profiles[author := ApplyAbout(a.profiles[author], content)]);
          } else {
            assert cachedAuthorData == a.profiles[author := ApplyAbout(NoProfile, content)];
          }
          assert AuthorState() == Observe(a, author, content).value;
        }
      }
      crash := None;
    }

    /**
     * The rows seen so far are `ds`'s: the complete batches of them are written,
     * the rest is buffered, and the author map is their aggregation.
     */
    ghost predicate Between(ds: seq<Decoded>)
      reads this
    {
      WrittenBetween(Rows(ds)) && CollectedBetween(ds)
    }

    /** The rows `seen` so far are written in complete batches or buffered, and no author row is written yet. */
    ghost predicate WrittenBetween(seen: seq<MessageRow>)
      reads this`written, this`rows, this`messageWrites, this`authorWrites
    {
      Valid() && authorWrites == [] && Buffered(seen)
    }

    /** The author map is the aggregation of the lines `ds` seen so far. */
    ghost predicate CollectedBetween(ds: seq<Decoded>)
      reads this`cachedAuthorData, this`authorOrder
    {
      NoNullContent(ds) && AuthorState() == Aggregate(ds)
    }

    /** Between lines, `written` plus the buffered rows count every line read (index.js:104-109). */
    lemma CountsLines(ds: seq<Decoded>)
      requires Between(ds)
      ensures written + |rows| == |ds|
      ensures |rows| < BatchSize
    {
      assert |Flatten(messageWrites) + rows| == |Rows(ds)|;
    }

    /** `seen` has been written in full batches except for the rows still buffered, fewer than a batch. */
    ghost predicate Buffered(seen: seq<MessageRow>)
      reads this`rows, this`messageWrites
    {
      && Flatten(messageWrites) + rows == seen
      && Full(messageWrites, BatchSize)
      && |rows| < BatchSize
    }

    /** `rows.push(...)` followed by `await maybeWrite()` (index.js:128-137). */
    method BufferRow(row: MessageRow, ghost seen: seq<MessageRow>)
      requires WrittenBetween(seen)
      modifies this`written, this`rows, this`messageWrites
      ensures WrittenBetween(seen + [row])
    {
      rows := rows + [row];
      FlattenAppend(messageWrites, rows);
      MaybeWrite();
    }

    /**
     * The body of the loop for a decoded line (index.js:128-191): buffer its
     * row, write if the buffer is full, then aggregate its content.
     */
    method AddLine(d: Decoded, ghost ds: seq<Decoded>) returns (crash: Option<Crash>)
      requires Between(ds)
      modifies this`written, this`rows, this`messageWrites, this`cachedAuthorData, this`authorOrder
      ensures Valid()
      ensures crash.None? <==> !d.content.Null?
      ensures crash.None? ==> Between(ds + [d])
      ensures crash.Some? ==> crash.value == ReadPropertyOfNull && Stopped(Rows(ds + [d]))
    {
      RowsStep(ds, d);
      BufferRow(d.row, Rows(ds));
      crash := RecordAbout(d.row.author, d.content);
      if crash.Some? {
        CompleteBatches(Rows(ds + [d]));
      } else {
        AggregateStep(ds, d);
      }
    }

    /**
     * `main`'s loop over the lines and its end (index.js:119-211): each line
     * is decoded (index.js:120-135), then added. A run that reads every line
     * has written every row, in order, in ceil(N / BatchSize) batches, and
     * then the author rows once. A run that stops at a TypeError has written
     * only the complete batches of the rows it buffered, and no author rows.
     */
    method Run(lines: seq<Value>) returns (outcome: Outcome)
      requires Valid() && Initial()
      modifies this
      ensures Valid()
      ensures outcome.Done? ==>
                FirstDecode(lines, |lines|, stringify) && Completed(DecodeFirst(lines, |lines|, stringify))
      ensures outcome.Aborted? ==>
                var k := outcome.line;
                && k < |lines|
                && FirstDecode(lines, k, stringify)
                && NoNullContent(DecodeFirst(lines, k, stringify))
                && (outcome.crash == CannotDestructure ==>
                      && Decode(lines[k], stringify).Failure?
                      && Stopped(Rows(DecodeFirst(lines, k, stringify))))
                && (outcome.crash == ReadPropertyOfNull ==>
                      && FirstDecode(lines, k + 1, stringify)
                      && Decode(lines[k], stringify).value.content.Null?
                      && Stopped(Rows(DecodeFirst(lines, k + 1, stringify))))
    {
      var i := 0;
      ghost var ds: seq<Decoded> := [];
      while i < |lines|
        invariant 0 <= i <= |lines|
        invariant FirstDecode(lines, i, stringify) && ds == DecodeFirst(lines, i, stringify)
        invariant Between(ds)
      {
        var d := Decode(lines[i], stringify);
        if d.Failure? {
          CompleteBatches(Rows(ds));
          return Aborted(i, d.error);
        }
        DecodeNext(lines, i, stringify);
        var crash := AddLine(d.value, ds);
        if crash.Some? {
          return Aborted(i, crash.value);
        }
        ds := ds + [d.value];
        i := i + 1;
      }
      Finish(ds);
      outcome := Done;
    }

    /**
     * A complete run over `ds`: every row written, in batches of `BatchSize`,
     * the author map their aggregation, and its rows written once.
     */
    ghost predicate Completed(ds: seq<Decoded>)
      reads this
    {
      && NoNullContent(ds)
      && messageWrites == Chunks(Rows(ds), BatchSize)
      && written == |ds| && rows == []
      && AuthorState() == Aggregate(ds)
      && Authors.Valid(AuthorState()) && authorWrites == [AuthorRows(AuthorState())]
    }

    /**
     * The end of `main` (index.js:194-211): write the rows still buffered, if
     * any, then write one `authors` row per collected author.
     */
    method Finish(ghost ds: seq<Decoded>)
      requires Between(ds)
      modifies this`written, this`rows, this`messageWrites, this`authorWrites
      ensures Valid() && Completed(ds)
    {
      if |rows| > 0 {
        FlattenAppend(messageWrites, rows);
        Write();
      }
      assert Flatten(messageWrites) == Rows(ds);
      assert Batched(messageWrites, BatchSize);
      BatchedIsChunks(messageWrites, BatchSize);
      AggregateValid(ds);
      var authorRows := AuthorRows(AuthorState());
      authorWrites := authorWrites + [authorRows];
    }

    /** A run stopped after the rows `done`: their complete batches written, the rest buffered, no author rows. */
    ghost predicate Stopped(done: seq<MessageRow>)
      reads this`rows, this`messageWrites, this`authorWrites
    {
      StoredCompleteBatches(done) && authorWrites == []
    }

    /** The complete batches of `done` have been written, and the rest of `done` is buffered. */
    ghost predicate StoredCompleteBatches(done: seq<MessageRow>)
      reads this`rows, this`messageWrites
    {
      && messageWrites == Chunks(done[..|done| - |done| % BatchSize], BatchSize)
      && rows == done[|done| - |done| % BatchSize..]
    }

    /** Between lines the written batches are the complete batches of the rows seen, and the buffer the rest. */
    lemma CompleteBatches(done: seq<MessageRow>)
      requires Buffered(done)
      ensures StoredCompleteBatches(done)
    {
      FullIsChunks(messageWrites, BatchSize);
      assert |done| % BatchSize == |rows|;
      assert done[..|done| - |rows|] == Flatten(messageWrites);
    }
  }
}
