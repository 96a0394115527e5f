# s3kibanalogs ingest core in Dafny

`s3kibanalogs` polls an SQS queue for S3 "object created" notifications.
For each notification it downloads the gzip'd log object, turns every line
into an `ESLogEntry` document and hands it to a sender goroutine over a
channel. After all records of a message are handled, it deletes the message
from the queue. This project models the decision logic of one call of
`getMessages`:

- **KeyPath**: `strings.Split(key, "/")`, and the decomposition of an
  object key into the date (segment 0), the uuid (segment 1) and the
  location (the whole key). A key without `/` has a single segment, so
  reading segment 1 is an index-out-of-range panic.
- **LinePattern**: the fixed regular expression
  `.*(\d{2}:\d{2}:\d{2}).*connect: ([DIWENC]):[\d\.]+\s+T?\[([\w\s]+):\d+\]\s+(.*)`.
  - The language of the pattern is given declaratively (`Matches`).
  - A matcher computes the submatches the way Go's leftmost-first engine
    picks them. It is proved to find a match exactly when there is one, and
    to pick the match with the latest clock, then the latest `connect: `.
    The submatches are the text of the line at that match.
- **LogEntry**: the `ESLogEntry` built for one scanned line.
  - A matching line becomes a "Connect" entry carrying the four
    submatches.
  - Any other line becomes a "Kernel" entry whose structured fields stay
    empty.
  - Either way the raw line, the location and the uuid are stamped on, and
    the date is the key's date, a `T`, and the time.
- **Ingest**: a batch of messages becomes a trace of `Emit(entry)` events
  (channel pushes) and `Ack(handle)` events (queue deletions).
  - `RunBatch` is the reference definition of that trace.
  - `GetMessages` follows the loops of the source. It is proved to produce
    the same trace and the same early end.

The queue, the object store, decompression and line scanning are inputs.
Each record of a message comes with the outcome of fetching its object:
either a failure, or the object's lines as the scanner yields them. A
scanned line never contains a newline (the subtype `Line`), so `.` in the
pattern matches any of its characters. Go's classes are used as written:
`\d` is `[0-9]`, `\s` is `[\t\n\f\r ]` and `\w` is `[0-9A-Za-z_]`.

Two consequences of the code that are easy to miss:

- A failed download abandons the rest of the batch, not just that object.
  The code `return`s from `getMessages` (s3kibanalogs.go:121-124), so the
  rest of the message and of the batch is not processed, and the message
  is not deleted.
- A line with the line number after the brackets, such as
  `... T[Auth]:42 ...`, does not match. The pattern needs the line number
  inside the brackets (`[Auth:42]`), so such a line becomes a "Kernel"
  entry.

## Model

| member | source | states |
|---|---|---|
| KeyPath.Split | s3kibanalogs.go:109 | There is always at least one segment. No segment contains `/`. Joining the segments with `/` gives back the key. |
| KeyPath.SplitJoin | s3kibanalogs.go:109 | Splitting `/`-free segments joined with `/` gives back exactly those segments (round trip). |
| KeyPath.SplitHasTwo | s3kibanalogs.go:109-110 | A key has a segment 1 if and only if it contains `/`. |
| KeyPath.DecomposeKey | s3kibanalogs.go:108-111 | Fails exactly when the key has no `/`. On success: the location is the whole key; the date is segment 0 and the uuid is segment 1; neither contains `/`; and date `/` uuid is a prefix of the key, ending at the end of the key or at a `/`. |
| LinePattern.ParseTailComplete | s3kibanalogs.go:61 | Any way of matching the part after `connect: ` agrees with the parser on the level, the address, the optional `T`, the facility and the line number. The last blank run is the longest one. So the submatches do not depend on how the tail is matched. |
| LinePattern.LocateMatches | s3kibanalogs.go:61 | The matcher finds positions exactly when the line is in the language of the pattern, and the positions it finds form a match. |
| LinePattern.LocateLeftmostFirst | s3kibanalogs.go:61 | Among all matches, the one found has the latest clock, and among those the latest `connect: `. This is the match a leftmost-first engine reports. |
| LinePattern.Match | s3kibanalogs.go:61 | Gives submatches if and only if the line matches. On a match: the time is two digits, `:`, two digits, `:`, two digits; the level is one of `D I W E N C`; the facility is a non-empty run of word and blank characters; and the message is a suffix of the line that does not start with a blank. |
| LinePattern.MatchCaptures | s3kibanalogs.go:61 | The submatches are text of the line at the match a leftmost-first engine reports: for the match with the latest clock, then the latest `connect: `, and its tail split with the final blank run taken whole, the time is the clock, the level the character after `connect: `, the facility the text between `[` and `:`, and the message the rest of the line. Such a match exists whenever the line matches (`LocateLeftmostFirst`, `ParseTail`). |
| LogEntry.MakeEntry | s3kibanalogs.go:138-153 | The program is "Connect" if and only if the line matches, and "Kernel" otherwise. A "Kernel" entry has empty time, level, facility and message. A "Connect" entry's time, level, facility and message are exactly the four submatches `Match` gives for the line, so they have the shapes the groups allow. The raw line is kept unchanged. The location and uuid come from the key. |
| LogEntry.EntryDate | s3kibanalogs.go:154 | An entry's date is the key's date, `T`, then the entry's time. For a "Kernel" entry that is the key's date followed by `T`. |
| LogEntry.EntriesFor | s3kibanalogs.go:135-158 | The scanning loop's entries: one per scanned line. `EntriesForAt` and `RawLinesRoundTrip` below pin down which entry each line gives and that the lines come back out in order. |
| LogEntry.EntriesForAt | s3kibanalogs.go:135-158 | The entry at position i of an object's entries is the one built from line i, so there is one entry per line, in line order. |
| LogEntry.RawLinesRoundTrip | s3kibanalogs.go:136-157 | The raw lines carried by an object's entries are exactly its lines. No line is lost, added or reordered. |
| LogEntry.ObjectEntries | s3kibanalogs.go:151-154 | Every entry of one object has the same location (the key) and the same uuid. Every entry's date is the key's date, `T`, then that entry's time. Every entry carries its own line. |
| Ingest.RecordStep | s3kibanalogs.go:105-124 | A record stops the call exactly when its key has no `/` or its download failed. A missing `/` is reported as the index panic even when the download also failed. Otherwise the record yields the entries of its object's lines. |
| Ingest.RunRecords | s3kibanalogs.go:105-159 | The reference definition of one message's record loop. When the run stops, it names a record of the message: the stop is an index panic exactly when that record's key has no `/`, and a download failure only when its download failed. `RunRecordsStop` fixes where it stops, `RunRecordsEntries` which entries it carries, and `MessageLines` the raw lines of a completed run. |
| Ingest.RunRecordsStop | s3kibanalogs.go:105-124 | A message's run stops if and only if some record fails. It stops at the first failing record, with that record's reason. |
| Ingest.RunRecordsEntries | s3kibanalogs.go:105-157 | A message's run carries exactly the entries of its records before the one that stops it (all records when none does), concatenated in record order, and every one of those records succeeds. So a message that stops still pushes the entries of its earlier records, although it is not deleted. |
| Ingest.RunBatch | s3kibanalogs.go:97-162 | The reference definition of the message loop. When the call ends early, it names a message of the batch, and that message's run stops at the same record with the same kind. `RunBatchHalt`, `BatchAcks`, `AckAfterEntries` and `HaltedBatch` characterise its trace. |
| Ingest.RunBatchHalt | s3kibanalogs.go:97-124 | A call ends early if and only if some message has a failing record. It ends at the first such message, and every earlier message completed. |
| Ingest.PushLines | s3kibanalogs.go:135-158 | The scanning loop pushes exactly the entries of the object's lines, one per line, in order. |
| Ingest.ProcessRecord | s3kibanalogs.go:105-158 | The imperative record step pushes the record's entries, or nothing and the reason it stops. It agrees with `RecordStep`. |
| Ingest.ProcessMessage | s3kibanalogs.go:105-159 | The record loop pushes the entries of the records before the first failure and reports that failure. It agrees with the reference run. |
| Ingest.GetMessages | s3kibanalogs.go:88-163 | The message loop produces exactly the reference trace and the same early end. |
| Ingest.BatchAcks | s3kibanalogs.go:160-161 | A call deletes exactly the messages it completes, in batch order, each once. That is every message when no record fails, and otherwise the messages before the one whose record failed. |
| Ingest.AckAfterEntries | s3kibanalogs.go:105-161 | For a completed message, the trace is: the earlier messages' events, then every entry of all its records, then its own `Ack`, then the later messages' events. |
| Ingest.HaltedBatch | s3kibanalogs.go:110-124 | When a record fails, the entries of its message pushed so far end the trace. That message is not deleted. The trace equals that of the batch cut after that message, so later messages produce no events. |
| Ingest.MessageLines | s3kibanalogs.go:105-158 | For a completed message, the raw lines of its entries are the lines of all its objects, in record order and line order. |

## Left out

- Receiving from and deleting on the queue (s3kibanalogs.go:73-93) are network calls.
  - A received batch is an input.
  - A deletion is an `Ack` event. `ackMessage` only logs a failed delete, so `Ack` records the attempt.
  - The limit of 10 messages per receive (s3kibanalogs.go:63-66) only bounds the input size.
  - A failed receive panics (s3kibanalogs.go:90-93). This happens before any event and is not modelled.
- JSON decoding of a message body, and its panic on malformed JSON (s3kibanalogs.go:100-103), are library code. The decoded records are an input. The body is decoded into one variable shared by all messages of the batch. With Go's decoder, a body without a `Records` field therefore leaves the previous message's records in place. That reuse is not modelled: each message carries its own records.
- Downloading the object (s3kibanalogs.go:113-120) is a network call. Its outcome is an input.
- Decompression and line scanning (s3kibanalogs.go:126-136) are library code. The object's lines are an input.
  - A failed gzip header is logged, and the code goes on with the nil reader `gzip.NewReader` returned (s3kibanalogs.go:129-132). The first `scanner.Scan()` (s3kibanalogs.go:136) reads from that nil reader and panics, which ends the process as the index panic does. That path is not modelled: a download is either a failure or the object's lines.
  - The scanner stops at a line longer than its token limit (`bufio.ErrTooLong`), and a gzip stream can fail part-way. The code never checks `scanner.Err()`, so in both cases the rest of the object is silently dropped and the message is still deleted. The model covers this through its input: the lines are those the scanner yields, which may be a prefix of the object's lines.
- The log printing throughout `getMessages` is output only.
- `sendMessagesToElasticSearch` and its HTTP POST, JSON encoding and panics (s3kibanalogs.go:165-197) are I/O.
- The goroutine and the unbuffered channel of `main` (s3kibanalogs.go:199-209) are concurrency. The order of `Emit` events is the order of channel sends.
- The panic on a key without `/` ends the process. It is modelled as the halt kind `IndexPanic`: the trace up to that point, with no further events. What the process does after dying is outside the model.
- The regular-expression engine in general is left out. Only this one pattern is modelled, with its submatch choice derived for its structure.
