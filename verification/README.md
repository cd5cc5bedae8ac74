# crashreports: upload storage, intake queue and trace worker

This project models the decision logic of a small crash-report server. Clients POST a
minidump with metadata fields. The server stores a `.json` metadata document and a
`.dmp` file under a random 32-digit hex identifier, and puts the identifier on a bounded
queue. A single background worker then takes identifiers off the queue one at a time. For
each one it pulls the symbol repository, runs `minidump_stackwalk` on the dump and writes
the tool's stdout to a `.trace` file.

The model is functional. Library calls, the random source, file writes and external
processes are inputs that say whether each step succeeded and what it produced. The
dump directory is a `map<string, Bytes>`. The channel is a `seq<string>`: a blocked send
becomes the precondition that the queue has room, and a blocked receive becomes the
precondition that it is not empty.

Modules:

- `Wrappers`: `Option` and `Result`.
- `Files`: bytes, the disk map, and two facts about string suffixes used for path reasoning.
- `Hex`: lower-case hex encoding of bytes (what `hex.EncodeToString` does), with its inverse.
- `Storage` (storage.go): metadata selection, the identifier, the artifact paths and `writeToDisk`.
- `Processor` (processor.go): the queue send, `readAllFromCommand`, one worker iteration, and runs of several iterations.
- `Server` (main.go): `statusHandler`, `writeServerError` and the ordered checks of `uploadHandler`.
- `Pipeline`: the handler, the queue and the worker composed into one state machine. Its invariant says every queued identifier has both stored artifacts, and a trace only exists next to its dump and metadata.

Every library and OS outcome that can fail is an explicit input:

- json.Marshal is an encoder function `Metadata -> Option<Bytes>`.
- crypto/rand is the 16 bytes it produced.
- Each file write is a success flag.
- Opening and reading the uploaded part are the `FileHeader` fields.
- mime.ParseMediaType is the parsed media type, or `None`.
- multipart.Reader.ReadForm is the parsed form, or `None`.
- Running the stack walker is a `CommandRun` recording whether each of pipe, start, read and wait succeeded, plus the stdout bytes.
- `git pull` is a success flag, and the model proves the worker ignores it.

## Model

| member | source | states |
|---|---|---|
| Storage.GetFirstOrEmpty | storage.go:65-70 | an empty or nil value list gives "", otherwise the first value |
| Storage.SelectMetadataFields | storage.go:28-35 | of `SelectMetadata`: each metadata field is the first value under its own lower-case key, and "" when that key is absent or has no values |
| Storage.SelectMetadataEqualIff | storage.go:28-35 | two forms give the same metadata if and only if they agree on the first value of each of the seven recognised keys |
| Storage.SelectMetadataIgnoresOtherKeys | storage.go:28-35 | adding, changing or removing a key outside the seven recognised ones does not change the metadata |
| Storage.SelectMetadataOfUnrecognised | storage.go:28-35 | a form with none of the seven keys yields metadata whose fields are all empty |
| Storage.SelectMetadataRoundTrip | storage.go:28-35 | selection loses nothing: a form built from a record selects that record back |
| Storage.GetRandomFilename | storage.go:72-76 | the identifier built from the 16 random bytes is exactly 32 characters, all in 0-9a-f |
| Storage.RandomFilenameBijective | storage.go:72-76 | different random bytes never give the same identifier, and every 32-digit lower-case hex string is some random block's identifier |
| Storage.ArtifactPathsDisjoint | storage.go:45-57 | the `.json` and `.dmp` paths never coincide, and each path determines its identifier, so different identifiers own disjoint files |
| Storage.WriteToDisk | storage.go:27-63 | on any failure the id is "", and the error names the first step that failed (encode, metadata write, open, read, dump write); on success the id is the hex of the random bytes, the `.json` file holds the encoding plus one newline and the `.dmp` file holds the uploaded bytes; a failure after the metadata write leaves only the `.json` file; a failed encode or metadata write leaves the disk unchanged; no file is ever removed |
| Storage.DocumentDeterminesMetadata | storage.go:37-42 | of `Document` (the encoding followed by one 0x0A byte): with an injective encoder, two metadata documents are equal if and only if the metadata are |
| Storage.NoDeduplication | storage.go:44-62 | two identical uploads with different random bytes get different identifiers, and the first upload's artifacts survive the second |
| Hex.EncodeToString | storage.go:75 | hex text is twice as long as the bytes and uses only 0-9a-f |
| Hex.DecodeEncode | storage.go:75 | decoding the hex text of any byte string gives the bytes back |
| Hex.EncodeDecode | storage.go:75 | encoding the decoded bytes of any lower-case hex string gives the string back |
| Hex.EncodeInjective | storage.go:75 | two byte strings have the same hex text if and only if they are equal |
| Processor.ProcessCrashreport | processor.go:80-82 | a send needs a free slot out of 100; it appends the identifier at the back, leaves earlier entries in place, and the queue stays within 100 |
| Processor.ReadAllFromCommand | processor.go:18-37 | output is produced if and only if pipe, start, read and wait all succeed, and it is then exactly the bytes read from stdout |
| Processor.WorkerPathsMatchStorage | processor.go:53-56 | the dump path the worker builds is the one storage wrote; the `.trace` path never coincides with any upload's `.json` or `.dmp` path, and it determines its identifier |
| Processor.StackwalkArguments | processor.go:46-64 | of `Stackwalk`: the stack walker is called with the dump path, then root/linux32, root/linux64, root/osx, root/windows, in that order |
| Processor.PullGit | processor.go:39-42 | the symbol sync runs `git -C <symbols-directory> pull` |
| Processor.WorkerStep | processor.go:51-76 | the head identifier is removed and never put back; the iteration issues exactly two commands, the symbol pull first and then the stack walker on this identifier's dump; a trace is written if and only if the tool and the write succeed, and it is then exactly the tool's stdout; the outcome says whether the tool or the trace write failed; otherwise the disk is unchanged, so a failed tool run creates no trace |
| Processor.PullOutcomeIgnored | processor.go:58-63 | whether the symbol pull succeeds or fails, the iteration does exactly the same thing and still runs the stack walker |
| Processor.RunWorker | processor.go:51-77 | running k iterations handles exactly the first k queued identifiers, in queue order, leaving the rest; every file created or changed is the trace of a handled identifier |
| Processor.EnqueuedHandledAfterEarlierIds | processor.go:16-82 | an identifier sent on the queue is handled after every identifier already queued, and the run then leaves the queue empty |
| Server.StatusHandler | main.go:32-35 | the status endpoint always answers 200 |
| Server.WriteServerError | main.go:26-30 | a server error answers 500 |
| Server.ServerErrorHidesDetail | main.go:26-30 | every store error gives the same fixed, generic 500 body |
| Server.UploadHandler | main.go:37-82 | the answer is 400 if and only if some check before the store fails (method POST, media type multipart/form-data, form parsed, minidump part present), and then nothing changes on disk; an identifier is enqueued if and only if the answer is 200; on 200 the body is that identifier, which is well formed and whose `.json` and `.dmp` files exist; the 500 body is the generic one; the disk only gains the two artifact paths of the identifier |
| Server.RejectsNonPost | main.go:38-42 | a non-POST request gets 400 with the method message, enqueues nothing and changes no file, whatever its headers and body |
| Server.RejectsUnparsableContentType | main.go:44-49 | a POST whose Content-Type is missing or unparsable gets 400, whatever its body |
| Server.RejectsOtherMediaType | main.go:51-55 | a POST with any media type other than multipart/form-data gets 400, whatever its body |
| Server.RejectsBadMultipart | main.go:57-70 | a multipart body that cannot be read, or that has no upload_file_minidump part, gets 400 and enqueues nothing |
| Server.StoreDecides | main.go:72-81 | for a request that passes every check, a failed store gives 500 with nothing enqueued, and a successful store gives 200 with the identifier as body and enqueued |
| Server.UploadExample | main_test.go:114-145 | a POST whose form holds only the minidump part answers 200 with a non-empty (32-character) body that is also the enqueued identifier; the `.json` document holds the seven fields, all empty, and the `.dmp` holds the bytes |
| Server.UploadWithFieldsExample | storage.go:28-62 | an upload with prod=MyApp and ver=1.0 answers 200; the `.json` document holds the seven fields, all but prod and ver empty, followed by one newline, and the `.dmp` holds the bytes |
| Pipeline.Upload | main.go:72-81 | only a 200 answer enqueues, and it adds exactly one entry (the response body) at the back; any other answer leaves the queue alone, and a 400 leaves the whole state alone |
| Pipeline.Work | processor.go:51-76 | a worker iteration drops the head of the queue and never removes a file |
| Pipeline.InitialValid | processor.go:16 | at startup the queue is empty; over any existing dump directory whose traces already sit next to their dump and metadata, the pipeline invariant holds |
| Pipeline.UploadPreservesValid | main.go:72-81 | after an upload the queue stays within 100, every queued identifier is well formed with both artifacts on disk, and every trace still sits next to its dump and metadata |
| Pipeline.WorkPreservesValid | processor.go:51-76 | a worker iteration keeps the same invariant: it writes a trace only for an identifier whose dump and metadata exist |

## Left out

- HTTP routing, the listener, flag parsing and log-file setup (main.go:84-106): server lifecycle, not decision logic. The configured directories are parameters.
- Logging, stack dumps and file permission bits: OS side effects. For the same reason a server-error body is modelled without the logged detail.
- The internals of mime.ParseMediaType, multipart.Reader.ReadForm and its 10 MiB memory limit: library code. Only their success or failure and the media-type string are modelled. The model assumes, as a precondition, that a file field the reader returns holds at least one part; only then is `fileHeader[0]` defined.
- The byte layout of json.Marshal: a library serialiser. It is an encoder parameter; injectivity is assumed only where a lemma needs it.
- crypto/rand: the 16 bytes are an input. The error that rand.Read returns is ignored by the source (storage.go:74); the model likewise takes whatever 16 bytes are in the buffer.
- The goroutine, channel blocking and scheduling. The worker is a step function and runs are finite sequences of steps. The blocking send and receive are preconditions. Several blocked senders competing for a freed slot are not modelled.
- The external processes `git` and `minidump_stackwalk` are oracle outcomes. Each iteration records its command lines, in issue order, as a sequence of `Invocation` values.
- Storage.WriteToDisk: a failed write leaves the disk unchanged. Go's WriteFile can leave a truncated or partial file behind when it fails part-way, and that is not modelled.
- Processor.WorkerStep: a failed trace write leaves the disk unchanged, for the same reason.
- Loss of queued identifiers on process restart: the model has no restart.
- fabfile.py: a deployment script.
