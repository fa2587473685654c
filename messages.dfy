/**
 * Turning one parsed log line into a `messages` row. Both versions of the
 * ingestion loop (index.js:120-135 and src/index.js:52-69) do exactly this.
 */
module Messages {
  import opened Wrappers
  import opened Json

  /** A row of the `messages` table, fields in the order the source lists them. */
  datatype MessageRow = MessageRow(
    author: Value,
    content: string,
    key: Value,
    previousMessage: Value,
    timestampAsserted: Value,
    timestampReceived: Value)

  /** One decoded line: its row, and the raw `value.content` the author aggregation inspects. */
  datatype Decoded = Decoded(row: MessageRow, content: Value)

  /**
   * Destructure `{ key, value, timestamp }` from the line and `{ previous, author }`
   * from `value`, then build the row. `stringify` stands for `JSON.stringify`.
   */
  function Decode(line: Value, stringify: Value -> string): (r: Result<Decoded, Crash>)
    ensures r.Failure? <==> !HasProperties(line) || !HasProperties(Get(line, "value"))
    ensures r.Failure? ==> r.error == CannotDestructure
    ensures r.Success? ==>
              var value, row := Get(line, "value"), r.value.row;
              && row.key == Get(line, "key")
              && row.author == Get(value, "author")
              && row.previousMessage == Get(value, "previous")
              && row.timestampReceived == Get(line, "timestamp")
              && row.timestampAsserted == Get(value, "timestamp")
              && row.content == stringify(Get(value, "content"))
              && r.value.content == Get(value, "content")
  {
    match line
    case Undefined => Failure(CannotDestructure)
    case Null => Failure(CannotDestructure)
    case _ =>
      var value := Get(line, "value");
      if value.Null? || value.Undefined? then Failure(CannotDestructure)
      else
        var content := Get(value, "content");
        Success(Decoded(
          MessageRow(
            author := Get(value, "author"),
            content := stringify(content),
            key := Get(line, "key"),
            previousMessage := Get(value, "previous"),
            timestampAsserted := Get(value, "timestamp"),
            timestampReceived := Get(line, "timestamp")),
          content))
  }

  /** The first `n` lines decode. */
  predicate FirstDecode(lines: seq<Value>, n: nat, stringify: Value -> string)
    requires n <= |lines|
  {
    forall i | 0 <= i < n :: Decode(lines[i], stringify).Success?
  }

  /** The first `n` lines, decoded in order. */
  function DecodeFirst(lines: seq<Value>, n: nat, stringify: Value -> string): (ds: seq<Decoded>)
    requires n <= |lines| && FirstDecode(lines, n, stringify)
    ensures |ds| == n
  {
    if n == 0 then [] else DecodeFirst(lines, n - 1, stringify) + [Decode(lines[n - 1], stringify).value]
  }

  /** One more line that decodes extends the decoded prefix by its decoding. */
  lemma DecodeNext(lines: seq<Value>, n: nat, stringify: Value -> string)
    requires n < |lines| && FirstDecode(lines, n, stringify) && Decode(lines[n], stringify).Success?
    ensures FirstDecode(lines, n + 1, stringify)
    ensures DecodeFirst(lines, n + 1, stringify) == DecodeFirst(lines, n, stringify) + [Decode(lines[n], stringify).value]
  {
  }

  /** Decoded line `i` is the decoding of line `i`. */
  lemma {:induction false} DecodeFirstInOrder(lines: seq<Value>, n: nat, stringify: Value -> string)
    requires n <= |lines| && FirstDecode(lines, n, stringify)
    ensures forall i | 0 <= i < n :: DecodeFirst(lines, n, stringify)[i] == Decode(lines[i], stringify).value
  {
    if n > 0 {
      DecodeFirstInOrder(lines, n - 1, stringify);
    }
  }

  /** The rows of decoded lines: exactly one per line, in line order. */
  function Rows(ds: seq<Decoded>): (rows: seq<MessageRow>)
    ensures |rows| == |ds|
  {
    if ds == [] then [] else Rows(ds[..|ds| - 1]) + [ds[|ds| - 1].row]
  }

  /** Row `i` is the row of line `i`: one row per line, in line order. */
  lemma {:induction false} RowsInOrder(ds: seq<Decoded>)
    ensures forall i | 0 <= i < |ds| :: Rows(ds)[i] == ds[i].row
  {
    if ds != [] {
      RowsInOrder(ds[..|ds| - 1]);
    }
  }

  /** One more decoded line adds its row at the end. */
  lemma RowsStep(ds: seq<Decoded>, d: Decoded)
    ensures Rows(ds + [d]) == Rows(ds) + [d.row]
  {
    assert (ds + [d])[..|ds|] == ds;
  }
}
