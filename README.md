# ssb-sqlite ingestion, modelled in Dafny

ssb-sqlite loads a Secure Scuttlebutt log into SQLite. The log is newline-delimited
JSON with one message per line. Each message becomes a row of the `messages`
table. The repository holds two versions of the loader:

- `index.js` buffers rows in `rows` and writes them with `Message.bulkCreate` in
  batches of 1024 (`write`, `maybeWrite`). It also folds every `about` message
  into the per-author profile map `cachedAuthorData` (name, description, image).
  At the end it writes the remaining rows and one `authors` row per author.
- `src/index.js` counts lines in `lineNumber`. Whenever the count is a multiple of
  1024, it bulk-creates `messagesToCreate` inside the open transaction, commits,
  and begins a new transaction. At the end of input, if the line count is not
  a multiple of 1024, it commits the open transaction once more.

The model follows the program's structure:

- `json.dfy` (`Json`): the JavaScript values a parsed line can hold, `typeof`,
  property reads, and the two TypeErrors the loops can hit.
- `messages.dfy` (`Messages`): decoding one line into a `messages` row. Both
  loaders share it.
- `batches.dfy` (`Batches`): cutting a sequence of rows into batches of a fixed
  size, and the facts both loops rely on.
- `authors.dfy` (`Authors`): the profile updates of one `about` message, the
  author map, and the `authors` rows.
- `batch_ingest.dfy` (`BatchIngest.Pipeline`): a class over the state of
  `index.js` `main`.
  - Real fields: `written`, `rows`, `cachedAuthorData` plus its key order.
  - Ghost record of every `bulkCreate`.
- `transactional_ingest.dfy` (`TransactionalIngest.Loader`): a class over the
  state of `src/index.js` `main`.
  - Real fields: `lineNumber`, `messagesToCreate`, `transaction`.
  - Ghost record of the open transaction and of every commit.

Each loop method is proved against specification functions:

- `Rows` of the decoded lines.
- `Chunks` of a row sequence.
- `Aggregate` of the decoded lines.
- `CommittedAtEnd`.

Lemmas prove what those functions mean.

Two behaviours are modelled as the code is written, not as the code's own
comments describe them:

- **Image link (index.js:182).** The comment at index.js:170-172 says an object
  image is "an object with a `link` property containing the blob string". The
  code instead compares `image.link === "string"`, so an object image is taken
  only when its link is the literal text `"string"`. The image then becomes
  `"string"`. `Authors.ImageSetting` states this. `Authors.ImageLinkAsWritten`
  and `Authors.AboutScenarioAsWritten` show it on concrete messages: after a
  name, then a description with an image `{link: "blob123"}`, the image stays
  unset. `Authors.ImageSettingIntended` is the test the comment describes, and
  `Authors.ImageTestsDiffer` shows where the two part.
- **Lost remainder (src/index.js:86-89).** The comment at src/index.js:84-85
  says the end of the run writes "all of the rows that we haven't already
  written". The code there only commits the open transaction; it never
  bulk-creates the rows left in `messagesToCreate`.
  `TransactionalIngest.RemainderLost` proves that a complete run stores exactly
  the first `N - N % 1024` rows. A run of fewer than 1024 lines stores none.
  `index.js` does not have this problem: `BatchIngest.Pipeline.Run` proves that
  every row is written.

## Model

| member | source | states |
|---|---|---|
| `Messages.Decode` | index.js:120-135 | Destructuring fails exactly when the line, or its `value`, is null or undefined. Otherwise the row holds the line's `key`, the value's `author`, `previous` as `previousMessage`, the outer `timestamp` as `timestampReceived`, the value's `timestamp` as `timestampAsserted`, and the stringified `value.content`. |
| `Messages.RowsInOrder` | index.js:128-135 | Each line yields exactly one row, and row `i` belongs to line `i`. |
| `Messages.DecodeFirstInOrder` | index.js:119-126 | Over the lines read so far, decoded line `i` is the decoding of line `i`: the loop decodes each line once, in order. |
| `Batches.Chunks` | index.js:115-117 | Cutting the rows into batches gives the rows back in order. Every batch holds 1 to 1024 rows, and every batch but the last holds exactly 1024. |
| `Batches.ChunkCount` | index.js:196-198 | The number of batches is ceil(N / batch size): one per full batch, plus one if rows are left over. |
| `Batches.BatchedIsChunks` | index.js:117 | Any sequence of writes with those sizes is exactly `Chunks` of their concatenation. |
| `Authors.StringSetting` | index.js:163-168 | A `name` or `description` is copied exactly when it is a string, and then its text is copied. |
| `Authors.ImageSetting` | index.js:173-188 | A string image is taken. An object image is taken only when it is not null and its `link` equals the literal "string", and it then becomes "string". Anything else leaves the image unchanged. |
| `Authors.ImageLinkAsWritten` | index.js:180-185 | A `{link: blob}` image is ignored, a `{link: "string"}` image gives "string", a string image is taken, and null is ignored. |
| `Authors.ImageSettingIntended` | index.js:170-172 | The object test the comment describes: an object image whose `link` is a string gives that string; a string image is taken; anything else leaves the image unchanged. |
| `Authors.ImageTestsDiffer` | index.js:180-185 | For any link other than the text "string", the code drops `{link: link}` while the described test takes `link`; on `{link: "string"}` the two agree. |
| `Authors.AboutScenarioAsWritten` | index.js:163-188 | A name, then a description with a `{link: blob}` image, gives the name and the description but no image. |
| `Authors.ApplyAbout` | index.js:163-188 | One `about` message updates each field independently: a field takes the message's setting for it when there is one, and otherwise keeps its value. |
| `Authors.LatestSettingWins` | index.js:163-188 | After a sequence of `about` messages, each field holds what the last message that set it set. If no message set it, it keeps its starting value, whatever happened to the other fields. |
| `Authors.Observe` | index.js:144-146 | One line's aggregation step fails with a TypeError exactly when `value.content` is null, because `typeof null` is "object" and `.type` is then read. |
| `Authors.ObserveEffect` | index.js:144-161 | Content that is not an object, or whose `type` is not "about", leaves the map unchanged. An `about` message adds an entry for its author if absent, even when it sets no field, and applies its settings to that entry. No other entry changes. |
| `Authors.ObserveKeepsValid` | index.js:157-159 | An author is added to the key order only when first seen, so every key is listed once. |
| `Authors.Aggregate` | index.js:144-191 | The fold of every line into `cachedAuthorData` adds at most one author per line. |
| `Authors.AggregateValid` | index.js:155-159 | The author map after any run lists each author once, and its key order is `FirstAuthors`: the authors of the `about` messages, each in the position of their first one. |
| `Authors.AggregateIsPerAuthor` | index.js:144-191 | An author has an entry exactly when they sent an `about` message. The entry is their `about` messages applied in order to `{}`. |
| `Authors.AuthorRows` | index.js:201-208 | There is one row per map key, in insertion order, with distinct keys. Each row carries that entry's name, image and description. |
| `BatchIngest.Pipeline.constructor` | index.js:90-96 | Start state: nothing buffered, written or collected. |
| `BatchIngest.Pipeline.Write` | index.js:104-109 | `write` stores the buffered rows as one more batch, adds their number to `written`, and empties the buffer. |
| `BatchIngest.Pipeline.MaybeWrite` | index.js:115-117 | It writes exactly when the buffer holds 1024 rows and otherwise changes nothing. Afterwards the buffer holds fewer than 1024 rows. |
| `BatchIngest.Pipeline.RecordAbout` | index.js:144-191 | The field-by-field update of `cachedAuthorData` and `thisAuthor` does what `Observe` specifies, or stops with the TypeError and changes nothing. |
| `BatchIngest.Pipeline.CountsLines` | index.js:104-109 | Between lines, `written` plus the buffered rows equals the number of lines read, and fewer than 1024 rows are buffered. |
| `BatchIngest.Pipeline.BufferRow` | index.js:128-137 | Pushing a row and calling `maybeWrite` keeps every complete batch written and the rest buffered. |
| `BatchIngest.Pipeline.AddLine` | index.js:128-191 | After a decoded line, the stored batches, the buffer and the author map again match the lines read. If the content is null, the line stops the run, with its row already buffered. |
| `BatchIngest.Pipeline.CompleteBatches` | index.js:128-137 | At any point between lines, the written batches are the complete batches of the rows read, and the buffer holds the rest. |
| `BatchIngest.Pipeline.Finish` | index.js:194-211 | At the end, the remaining rows are written, so the writes are `Chunks` of all rows. The author rows are then written once, from the aggregated map. |
| `BatchIngest.Pipeline.Run` | index.js:119-211 | A complete run writes every row in order, in ceil(N/1024) batches, and then the author rows of the aggregation. A run stopped by a TypeError has written only the complete batches of the rows it buffered, and no author rows. |
| `TransactionalIngest.RemainderLost` | src/index.js:86-89 | A complete run stores exactly the first N - N % 1024 rows, in order. That is all rows exactly when N is a multiple of 1024, and none when N < 1024. There are floor(N/1024) commits, plus one more exactly when N % 1024 > 0. |
| `TransactionalIngest.CommittedAtEnd` | src/index.js:71-89 | What the as-written loader commits: when N is a multiple of 1024, exactly `Chunks` of all rows; otherwise the last commit is empty. |
| `TransactionalIngest.Loader.constructor` | src/index.js:43-47 | Start state: first transaction open, no lines counted, empty buffer, nothing committed. |
| `TransactionalIngest.Loader.BulkCreate` | src/index.js:73-76 | The guarded bulk-create adds the buffer, in order, to the open transaction and empties the buffer. |
| `TransactionalIngest.Loader.Commit` | src/index.js:79 | Committing makes the open transaction's rows one more commit. |
| `TransactionalIngest.Loader.CommitBatch` | src/index.js:71-81 | Flush-and-commit: the buffered rows become one commit, the buffer is cleared, and a new transaction is begun. |
| `TransactionalIngest.Loader.BufferMatchesCount` | src/index.js:62-76 | After every iteration the buffer holds `lineNumber % 1024` rows. |
| `TransactionalIngest.Loader.CompleteBatches` | src/index.js:62-81 | Between lines, the commits are the complete batches of the rows read, and the buffer holds the rest. |
| `TransactionalIngest.Loader.Push` | src/index.js:62-81 | The push, then a flush-and-commit exactly when the line count is a multiple of 1024, keep the commits as complete batches of the rows seen. The `messagesToCreate.length` guard always holds when the flush runs. |
| `TransactionalIngest.Loader.ReadLine` | src/index.js:50-81 | Each line raises `lineNumber` by exactly 1. It fails exactly when destructuring fails, leaving only the complete batches committed. Otherwise it appends exactly one row, with the `Decode` field mapping. |
| `TransactionalIngest.Loader.Finish` | src/index.js:86-89 | As written, the final commit leaves the commits at `CommittedAtEnd` of the rows and the leftover rows unwritten in the buffer. There are floor(N/1024) transactions after the first. |
| `TransactionalIngest.Loader.Run` | src/index.js:49-89 | A complete run ends in the `Finish` state over all lines. A run stopped by a TypeError at line k has counted k + 1 lines and committed only the complete batches of the first k rows. |

## Left out

- Reading the log: `fs.createReadStream`, `readline` line splitting and CRLF handling. The model takes the input as a sequence of already-parsed line values.
- `JSON.parse`. A line that is not valid JSON is not modelled.
- `JSON.stringify`. It is a function parameter (`stringify`) that returns a string for every value. In JavaScript `JSON.stringify(undefined)` returns `undefined`, so a message without `content` gets an undefined `content` column. The model does not capture this.
- Deleting the old database, constructing Sequelize, `sequelize.sync()`, and the table schemas of `src/models.js`. These are library configuration; `src/models.js` is not part of this model.
- Asynchrony.
  - Every `await` is treated as a completed step, and each `bulkCreate` and commit as one atomic step that succeeds.
  - The final `write()` of index.js:197 is not awaited and can race with `Author.bulkCreate`. The model runs them in order.
  - Database write failures are not modelled.
- Reporting: `memoryReporter`, `console.log`, `toLocaleString`, and the `module.parent` entry-point switch.
- Author keys. JavaScript coerces `author` to a string property name, so authors whose string forms coincide share one entry, and `Object.entries` returns that string as `key`.
  - The model keys the map by the author value itself.
  - It lists keys in insertion order. `Object.entries` lists integer-like keys first, in numeric order.
  - It ignores inherited properties such as `constructor`, which `cachedAuthorData[author] === undefined` would see as present.
- Profile entries. `thisAuthor` is a reference to the entry stored in `cachedAuthorData`. The model updates a copy and stores it back. Nothing else holds the reference, so the result is the same.
- Numbers are unbounded integers. The code only copies them and asks their `typeof`.
- Property reads on values that are not objects, such as a string's `length`, always yield `undefined`. The code reads none at those places.
- Dates and keys: no date conversion, and no checks on keys or on `previous` chains. The code performs none of these.
- Authors.Aggregate: its own contract only bounds the number of authors; which authors have entries, what those entries hold and the key order are stated by `AggregateIsPerAuthor` and `AggregateValid`, to keep the function cheap where the loop uses it.
- Repeated calls of `main`. `cachedAuthorData` is declared at module level (index.js:90), so a second call of the exported `main` starts from the previous run's map. The model covers a single call: `BatchIngest.Pipeline.Run` starts from an empty map.
