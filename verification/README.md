# Verified models of Paimon's bindings and blob storage

A Dafny model of the parts of the Paimon Rust repository where many calls, handles or
bytes have to fit together, with proofs about all inputs and all runs. `dafny verify
dfyconfig.toml` checks the whole project.

Modules and what they model:

- `Bytes`, `Bits`, `Decimal`, `Options`, `Sorting`: machine integers, byte orders, bitwise
  operators, decimal numerals, absent values and sorting.
- `DeltaVarint`, `BlobFile`, `BlobReads`: the blob file. Writing entries and a delta-coded
  index, loading the index back, decoding entries, and fetching many rows through
  coalesced range reads. The main results are round trips with exact conditions and the
  refinement of separate reads by merged ones.
- `JavaFrame`: modified UTF-8 strings and the source-metadata frame built from them.
- `CommitProtocol`, `GoWrite`: builders, writers, commit messages, merges and committers
  over the C interface, and the Go layer that keeps its own copy of the overwrite mode.
  Invariants over every run of calls, across both layers.
- `UriReaderCache`: the weak identity cache of Python URI readers, as a state machine with
  object death and address reuse.
- `PredicateTree`, `Like`, `GoPredicates`, `Literals`: predicate trees with flattening,
  absorption and negation, LIKE patterns, single ownership of native predicates through
  the Go layer, and literals on their way from Go through C to a typed column.
- `GoHandles`, `SplitRanges`: reference counts of the shared library and of plans under any
  interleaving with finalisers, and reading chosen splits by contiguous ranges.
- `BlobStream`, `OssRead`: the Python blob stream as a cursor, and a ranged read with
  retries.
- `ErrorWorklist`, `Quoting`, `Selection`: searching error trees, delimited identifiers
  and number selections.

Where the source updates state in place the model is a class or a loop with invariants,
proved against functions on values; the properties are then proved about those functions.
Invariants are paired with what each operation does on its own terms: which calls go
through and which are refused and why, what they change and what they leave alone, and what
a state therefore is in terms of the run that led to it.
Unbounded integers carry explicit widths, wrap-around and saturation wherever the source's
types matter.

What is taken as given: the checksum is any function of the bytes; a range read returns
exactly the requested bytes or fails; the core's answer to a commit, overwrite or abort is
a parameter; the garbage collector may run any finaliser whose object is unreachable, at
any time; a 206 response carries the range its Content-Range header names (sections 14.1.2,
14.4 and 15.3.7 of RFC 9110); standard-library and DataFusion errors expose causes as
`ErrorWorklist.Source` says.

Where the code does not do what one might expect, a lemma gives an input and another the
exact condition:

- A blob index whose neighbouring entry lengths differ by more than an i64 is written and
  then refused: `BlobFile.HugeEntryIsRefused`, `BlobFile.BlobRoundTrip`.
- The varint decoder accepts padded and over-long forms: `DeltaVarint.PaddedZero`,
  `DeltaVarint.DecodedIsCanonical`.
- An empty set test on a null column and its negation are both false, so a negated one no
  longer means what the caller built: `GoPredicates.NegatedEmptySet`,
  `GoPredicates.FaithfulExactly`.
- A reader under construction does not itself keep its plan alive:
  `GoHandles.ReaderLosesItsPlan`, `GoHandles.ReadNeedsSomeoneHolding`.
- Four shapes of error tree hide a fork error: `ErrorWorklist.Overlooked`,
  `ErrorWorklist.ExactWhenShown`.
- A Python exception is lost as an I/O payload or as a later member of a collection:
  `ErrorWorklist.CallbackLost`, `ErrorWorklist.CallbackRoundTrip`.
- Rewriting a string to one beyond the basic plane makes it unreadable:
  `JavaFrame.RewrittenEmoji`, `JavaFrame.RewriteChangesOneString`.
- Repeated split indices split a range: `SplitRanges.RepeatedIndex`,
  `SplitRanges.MaximalIffDistinct`.
- Merging a message handle twice doubles its messages: `CommitProtocol.MergedTwice`,
  `CommitProtocol.MergeKeepsDistinct`.

## Model

| member | source | states |
|---|---|---|
| `DeltaVarint.EncodeVarint` | crates/paimon/src/arrow/format/delta_varint.rs:90-97 | the byte loop emits exactly the base-128 groups of the zig-zag image, after whatever was there |
| `DeltaVarint.DecodeVarint` | crates/paimon/src/arrow/format/delta_varint.rs:50-74 | the shift-and-or loop computes the little-endian base-128 value modulo 2^64 of the bytes up to the first one without continuation bit; running out of bytes and an eleventh byte are told apart |
| `DeltaVarint.BitsZigZag` | crates/paimon/src/arrow/format/delta_varint.rs:90-97 | the left shift exclusive-or the arithmetic right shift of a signed word, computed bit by bit, is the zig-zag image, for every i64 |
| `DeltaVarint.BitsUnZigZag` | crates/paimon/src/arrow/format/delta_varint.rs:50-74 | the decoder's shift, mask, negation and exclusive-or, computed bit by bit, is the inverse image, for every u64 |
| `DeltaVarint.BitsGroup` | crates/paimon/src/arrow/format/delta_varint.rs:90-97 | the encoder's loop test is a comparison with 128 and the byte it pushes is remainder plus 128, for the bitwise operators on every u64 |
| `DeltaVarint.BitsByte` | crates/paimon/src/arrow/format/delta_varint.rs:50-74 | the decoder's two masks on a byte are the remainder by 128 and a comparison with 128 |
| `DeltaVarint.BitsAddGroup` | crates/paimon/src/arrow/format/delta_varint.rs:50-74 | or-ing a group shifted to its place, cut to 64 bits as the tenth one is, into the value so far adds it |
| `DeltaVarint.GroupsLength` | crates/paimon/blob_test_utils.rs:115-122 | a varint takes at most k bytes exactly when its zig-zag image has at most 7k bits |
| `DeltaVarint.GroupsShape` | crates/paimon/blob_test_utils.rs:115-122 | every varint denotes its number, has continuation bits on all bytes but the last, and no redundant last group |
| `DeltaVarint.VarintRoundTrip` | crates/paimon/blob_test_utils.rs:115-122 | for every i64, the minimum included: 1 to 10 bytes, and decoding them followed by anything yields the value and exactly that many bytes consumed (prefix-freeness) |
| `DeltaVarint.DecodedIsCanonical` | crates/paimon/src/arrow/format/delta_varint.rs:50-74 | the decoder accepts more than the encoder writes: an accepted form is the encoder's own exactly when its last group is needed and a tenth group is 1 |
| `DeltaVarint.DecodeFails` | crates/paimon/src/arrow/format/delta_varint.rs:50-74 | decoding fails exactly for want of a last byte: over-long if ten continuation bytes come first, cut short if fewer bytes are all continuation bytes |
| `DeltaVarint.PaddedZero` | crates/paimon/src/arrow/format/delta_varint.rs:50-74 | 80 00 decodes to zero, which the encoder writes as 00 |
| `DeltaVarint.EncodeDeltaVarints` | crates/paimon/blob_test_utils.rs:100-113 | the loop with a running predecessor writes the first value and then wrapping differences of neighbours |
| `DeltaVarint.DecodeDeltaVarints` | crates/paimon/src/arrow/format/delta_varint.rs:22-48 | the loop yields checked running sums, or the first failure: truncation, an over-long varint, or a sum outside i64 |
| `DeltaVarint.DeltaRoundTrip` | crates/paimon/src/arrow/format/delta_varint.rs:22-48 | decode after encode gives back the list exactly when no difference of neighbours leaves i64, and otherwise fails with the overflow error; a wrong list never comes back |
| `BlobFile.BuildBlobFile` | crates/paimon/blob_test_utils.rs:43-86 | the row loop lays out entries, delta-coded index, index length and version byte; it refuses exactly when an entry or index length does not fit its field |
| `BlobFile.WriteEntry` | crates/paimon/blob_test_utils.rs:43-86 | an entry is magic, payload, total length and the checksum of the first two, with file and hasher fed in step |
| `BlobFile.BuildAll` | crates/paimon/src/arrow/format/blob.rs:1867-1932 | one pass over the index lengths assigns each row a payload range or a marker, with the same first error as the specification |
| `BlobFile.SlotsAccepted` | crates/paimon/src/arrow/format/blob.rs:1867-1932 | an index is accepted if and only if every length is a marker or covers the entry overhead and together they fill the data region to the byte |
| `BlobFile.SlotsTile` | crates/paimon/src/arrow/format/blob.rs:1867-1932 | accepted payload ranges tile the data region: slot i starts where the entries before it end, and none reaches past the region |
| `BlobFile.LoadIndex` | crates/paimon/src/arrow/format/blob.rs:1755-1809 | reading the last 4 KiB first and the rest of the index only when needed gives what reading footer and index directly gives, in at most two requests and in one for a file of at most 4 KiB that loads |
| `BlobFile.LoadedInFile` | crates/paimon/src/arrow/format/blob.rs:1755-1809 | every payload range an index yields lies within the file, whatever the file holds |
| `BlobFile.LoadLayout` | crates/paimon/src/arrow/format/blob.rs:1755-1809 | the loader finds index and data region in any file laid out as data, index, length, version |
| `BlobFile.DecodeEntry` | crates/paimon/src/arrow/format/blob.rs:867-920 | an entry that passes the length, magic and checksum tests yields a payload exactly as long as the declared range; DecodedIsEntry says which entries pass |
| `BlobFile.DecodedIsEntry` | crates/paimon/src/arrow/format/blob.rs:867-920 | bytes read at a declared range decode to a payload if and only if they are, byte for byte, the entry of that payload: magic, payload, length and checksum |
| `BlobFile.EntryFaults` | crates/paimon/src/arrow/format/blob.rs:867-920 | which complaint a damaged entry of the right size draws, read off its bytes: magic first, then length, then checksum |
| `BlobFile.EntryRoundTrip` | crates/paimon/src/arrow/format/blob.rs:867-920 | a written entry decodes to its payload at every position |
| `BlobFile.IndexFindsRows` | crates/paimon/src/arrow/format/blob.rs:1867-1932 | the slots computed from a written index are the positions of the written rows |
| `BlobFile.SlotsReadRows` | crates/paimon/src/arrow/format/blob.rs:867-920 | reading every slot of a written data region, with anything before and after it, gives the rows in order |
| `BlobFile.LoadWritten` | crates/paimon/src/arrow/format/blob.rs:1755-1809 | loading a written file gives its slots exactly when neighbouring entry lengths differ by an i64 |
| `BlobFile.BlobRoundTrip` | crates/paimon/blob_test_utils.rs:43-86 | read after write is the identity on all rows (values, nulls, placeholders) if and only if neighbouring entry lengths differ by an i64, and the overflow error otherwise |
| `BlobFile.ReadIsLaidOut` | crates/paimon/src/arrow/format/blob.rs:1755-1809 | the reader yields rows from a file if and only if the file is the entries of those rows, an index that decodes to their lengths, the index length and the version byte; nothing else is ever read |
| `BlobFile.FooterFaults` | crates/paimon/src/arrow/format/blob.rs:1755-1809 | which complaint a bad footer draws, read off its bytes: size, sign of the index length, version, index beyond the file |
| `BlobFile.SmallestFiles` | crates/paimon/blob_test_utils.rs:43-86 | the bytes of a file with no rows, with one null and with one placeholder |
| `BlobFile.HugeEntryIsRefused` | crates/paimon/blob_test_utils.rs:43-86 | an input on the other side: a null before an entry of length 2^63-1 is written and then refused |
| `BlobFile.OrdinaryRowsFit` | crates/paimon/blob_test_utils.rs:43-86 | entry lengths up to 2^63-3 always satisfy that condition |
| `BlobReads.SortReads` | crates/paimon/src/arrow/format/blob.rs:811-856 | the requests sorted by start, end and position: a sorted permutation |
| `BlobReads.CoveredGrows` | crates/paimon/src/arrow/format/blob.rs:811-856 | in start order an entry adds exactly the bytes beyond the furthest end so far to the set of wanted bytes |
| `BlobReads.ExtendIsTight` | crates/paimon/src/arrow/format/blob.rs:811-856 | an accepted merge keeps: span of exactly its entries, selected-byte count equal to the size of their union, span at most twice that; saturating arithmetic never saturates |
| `BlobReads.MergeableIsJoinable` | crates/paimon/src/arrow/format/blob.rs:811-856 | the loop test on running counters is exactly: a gap of at most 1 MiB, a span of at most 8 MiB and at most twice the number of distinct bytes the entries ask for |
| `BlobReads.MergeIsTight` | crates/paimon/src/arrow/format/blob.rs:811-856 | coalescing loses, invents and reorders nothing, and every merged read has that property |
| `BlobReads.MergeIsGreedy` | crates/paimon/src/arrow/format/blob.rs:811-856 | every entry of a merged read could join those before it, and the entry that opens the next read could not: gap, span or amplification is too large, stated on entries and the bytes they cover |
| `BlobReads.MergeSorted` | crates/paimon/src/arrow/format/blob.rs:811-856 | the loop with a current read computes the recursive coalescing |
| `BlobReads.MergeEntryReads` | crates/paimon/src/arrow/format/blob.rs:811-856 | the merged reads together hold exactly the requested entries, in order, each merged read tight and each grown as far as the three limits allow |
| `BlobReads.CutEntries` | crates/paimon/src/arrow/format/blob.rs:740-795 | slicing one merged response per entry gives each entry exactly the file's bytes at its own range |
| `BlobReads.ReadMerged` | crates/paimon/src/arrow/format/blob.rs:740-795 | whatever order the merged reads complete in, every requested entry arrives, nothing else does, and each has exactly its own bytes; the requests issued are those of a greedy plan, each once |
| `BlobReads.DecodeAll` | crates/paimon/src/arrow/format/blob.rs:740-795 | arrived entries are stored at their result positions; the first failure reported is one some separate read has |
| `BlobReads.FetchRows` | crates/paimon/src/arrow/format/blob.rs:667-719 | for positions in any order with repeats, coalesced fetching refines separate reads: same rows, out-of-range exactly when a position is, and any failure is a failure of some requested row |
| `BlobReads.FetchedAsWritten` | crates/paimon/src/arrow/format/blob.rs:693-719 | together with the round trip: fetching positions of a written file yields the rows written there |
| `JavaFrame.PushUnit` | bindings/c/src/tests.rs:3233-3250 | one turn of the loop appends the one, two or three bytes of a UTF-16 unit |
| `JavaFrame.EncodeUnit` | bindings/c/src/tests.rs:3233-3250 | each unit takes one to three bytes, none of them zero (section 4.4.7 of the Java Virtual Machine Specification) |
| `JavaFrame.ShortestForm` | bindings/c/src/tests.rs:3233-3250 | each unit is written in the fewest bytes that can spell it, except NUL, which takes two |
| `JavaFrame.JavaWriteUtf` | bindings/c/src/tests.rs:3233-3250 | the length prefix is the body length truncated to 16 bits |
| `JavaFrame.DecodeBody` | crates/paimon/src/spec/pk_index_source.rs:243-284 | the byte loop accepts exactly the specified unit decodings, raw zero bytes included, with the same first error |
| `JavaFrame.DecodeIffSpelled` | crates/paimon/src/spec/pk_index_source.rs:243-284 | a body decodes to a string if and only if it spells it unit by unit in one-, two- or three-byte forms, over-long ones included |
| `JavaFrame.ReadJavaUtf` | crates/paimon/src/spec/pk_index_source.rs:243-284 | length, body, then the surrogate check; the rest of the input is handed on |
| `JavaFrame.ReadUtfIs` | crates/paimon/src/spec/pk_index_source.rs:243-284 | a string is read off the front if and only if the bytes are a 16-bit length, a body of that length spelling it, and the rest, and it has no lone surrogate |
| `JavaFrame.WellFormedIffPaired` | crates/paimon/src/spec/pk_index_source.rs:243-284 | the surrogate check accepts exactly the strings in which every high surrogate is followed by a low one and every low one preceded by a high one |
| `JavaFrame.BodyRoundTrip` | bindings/c/src/tests.rs:3233-3250 | decoding the body recovers every unit sequence, lone surrogates included, and the body contains no zero byte |
| `JavaFrame.CutBody` | crates/paimon/src/spec/pk_index_source.rs:243-284 | a body cut short never decodes to the whole string |
| `JavaFrame.UtfTooLong` | bindings/c/src/tests.rs:3233-3250 | a string whose body does not fit 16 bits never reads back as itself |
| `JavaFrame.UtfRoundTripIff` | crates/paimon/src/spec/pk_index_source.rs:243-284 | a written string followed by anything reads back, rest untouched, if and only if it has no lone surrogate and its body fits 65535 bytes |
| `JavaFrame.SourceMetaBytes` | bindings/c/src/tests.rs:3255-3265 | the file loop writes version, level, count and the files in order |
| `JavaFrame.DeserializeFiles` | crates/paimon/src/spec/pk_index_source.rs:157-188 | the counted loop reads that many files or stops at the first error |
| `JavaFrame.Deserialize` | crates/paimon/src/spec/pk_index_source.rs:157-188 | version, level, count, files and trailing bytes are checked in that order |
| `JavaFrame.FrameRoundTrip` | crates/paimon/src/spec/pk_index_source.rs:157-188 | the frame reads back as what was written if and only if the level is positive, there are between 1 and 2^31-1 files, no row count is negative and every name fits its prefix |
| `JavaFrame.ReadIffFramed` | crates/paimon/src/spec/pk_index_source.rs:157-188 | the reader accepts bytes if and only if they are version 1, a positive level, a positive count, that many records of length, body and row count, and nothing more |
| `JavaFrame.FrameCut` | crates/paimon/src/spec/pk_index_source.rs:157-188 | an accepted frame cut short anywhere is reported as truncated |
| `JavaFrame.FrameExtended` | crates/paimon/src/spec/pk_index_source.rs:157-188 | an accepted frame with anything after it is reported as having trailing bytes |
| `JavaFrame.BadHeader` | crates/paimon/src/spec/pk_index_source.rs:157-188 | which complaint a bad header draws, read off its twelve bytes |
| `JavaFrame.WrittenIsFramed` | bindings/c/src/tests.rs:3255-3265 | what the writer lays out is such a frame, with its own spelling of every name |
| `JavaFrame.Rewrite` | bindings/c/src/tests.rs:3810-3823 | replaces the first occurrence of the length-prefixed string, and there is none exactly when it reports that |
| `JavaFrame.Utf8Decodes` | crates/paimon/src/spec/pk_index_source.rs:243-284 | the reader recovers a string from its plain UTF-8 bytes exactly when it stays in the basic plane, NUL included, and otherwise stops at a lead byte |
| `JavaFrame.Utf8ReadBack` | bindings/c/src/tests.rs:3810-3823 | with its length prefix and anything after it, exactly when it also fits 65535 bytes |
| `JavaFrame.WrittenIsFound` | bindings/c/src/tests.rs:3810-3823 | the searched plain UTF-8 bytes occur where the modified form was written if and only if the string has no NUL and no character beyond the basic plane |
| `JavaFrame.RewriteChangesOneString` | bindings/c/src/tests.rs:3810-3823 | for all strings: the bytes before stay, and a reader there gets the old string before and the new one after, same bytes following, exactly if that string is readable from plain UTF-8 |
| `JavaFrame.RewrittenEmoji` | bindings/c/src/tests.rs:3810-3823 | a replacement holding U+1F600 leaves bytes the reader refuses |
| `CommitProtocol.Provenance` | bindings/c/src/write.rs:964-1038 | every operation on any handles keeps: every message of every handle and of every call to the core came from a writer whose table, commit user and mode equal the handle's or the committer's; the entry point matches the mode; each handle's list is the flattening of its merge history |
| `CommitProtocol.RunsFromNothing` | bindings/c/src/write.rs:964-1038 | so after every run, each message ever handed to commit, overwrite or abort has the committer's context, and the core was called exactly as often as a call reached it |
| `CommitProtocol.RejectedChangesNothing` | bindings/c/src/write.rs:879-929 | a rejected call leaves the whole state as it was, and a core failure leaves every handle as it was |
| `CommitProtocol.CallsChangeNoHandle` | bindings/c/src/write.rs:1172-1198 | commit, overwrite and abort leave all handles reusable |
| `CommitProtocol.ReachesCore` | bindings/c/src/write.rs:991-1038 | a call reaches the core if and only if the contexts are equal and a standard committer's mode is the entry point's |
| `CommitProtocol.HandOverIs` | bindings/c/src/write.rs:991-1038 | a call that reaches the core hands over once: the operation of the entry point with the caller's identifier and flags, the committer's context, and each message exactly as often as the merge history of the handle passed reaches it; any other call hands over nothing |
| `CommitProtocol.EveryHandOver` | bindings/c/src/write.rs:991-1038 | in every run the core's calls are exactly those hand-overs, in order |
| `CommitProtocol.RefusedBecause` | bindings/c/src/write.rs:964-1038 | which rejection a refused call gets: a null handle, then table, user or mode, then the wrong entry point |
| `CommitProtocol.MergeRefusedBecause` | bindings/c/src/write.rs:879-929 | which rejection a refused merge gets |
| `CommitProtocol.HandleLives` | bindings/c/src/write.rs:851-862 | after any run a handle is alive if and only if some call made it and none freed it since; its context is the one it was made with, except that a builder overwrites exactly if it was told to since |
| `CommitProtocol.FlattenCounts` | bindings/c/src/write.rs:902-929 | a merge history contributes each message as often as it reaches the prepare the message came from |
| `CommitProtocol.MergeMultiplicity` | bindings/c/src/write.rs:902-929 | in every run a handle holds each message exactly that often: merging copies, so once each unless a handle was merged in twice |
| `CommitProtocol.MergeAdds` | bindings/c/src/write.rs:902-929 | a merge goes through exactly for two different live handles of equal context; the target then holds each message as often as both did and no other handle changes |
| `CommitProtocol.PreparedAreNew` | bindings/c/src/write.rs:666-694 | after any run a prepare yields a handle with exactly its own new messages, once each, none of which any handle or call held before |
| `CommitProtocol.MergeKeepsDistinct` | bindings/c/src/write.rs:902-929 | a merge of two lists without repetitions has none if and only if they share no message |
| `CommitProtocol.MergedTwice` | bindings/c/src/write.rs:902-929 | a run of six calls after which a handle holds the same message twice |
| `CommitProtocol.NativeWrites.NewWriteBuilder` | bindings/c/src/write.rs:41-78 | a new builder handle with the given table and user, in append mode |
| `CommitProtocol.NativeWrites.BuilderWithOverwrite` | bindings/c/src/write.rs:230-239 | only the builder's mode changes |
| `CommitProtocol.NativeWrites.BuilderNewWrite` | bindings/c/src/write.rs:453-506 | the writer takes a copy of the builder's context |
| `CommitProtocol.NativeWrites.BuilderNewCommit` | bindings/c/src/write.rs:736-770 | the committer takes a copy of the builder's context |
| `CommitProtocol.NativeWrites.WritePrepareCommit` | bindings/c/src/write.rs:666-694 | a new message handle with the writer's context and fresh messages |
| `CommitProtocol.NativeWrites.MessagesMerge` | bindings/c/src/write.rs:902-929 | the target gains a copy of the source's list, unless they are one handle or differ in table, user or mode |
| `CommitProtocol.NativeWrites.CommitWithIdentifier` | bindings/c/src/write.rs:991-1038 | refines the abstract commit step, checks in source order: exactly if the call reaches the core, one commit with the caller's identifier and filter flag and the handle's whole list is recorded |
| `CommitProtocol.NativeWrites.CommitOverwrite` | bindings/c/src/write.rs:1088-1129 | refines the abstract overwrite step: exactly if the call reaches the core, one overwrite with the handle's whole list is recorded |
| `CommitProtocol.NativeWrites.CommitAbort` | bindings/c/src/write.rs:1172-1198 | refines the abstract abort step: exactly if the call reaches the core, one abort with the handle's whole list is recorded |
| `CommitProtocol.NativeWrites.FreeHandle` | bindings/c/src/write.rs:851-862 | removes exactly one handle and nothing it produced |
| `GoWrite.ModesAgree` | bindings/go/write.go:93-128 | in every reachable state the Go overwrite flags of open builders and committers equal the native modes, and no Go object names a freed handle |
| `GoWrite.DispatchOutcome` | bindings/go/write.go:252-289 | dispatching on the native mode leaves only the three context rejections |
| `GoWrite.CommitOutcome` | bindings/go/write.go:252-289 | in such a state a Go commit never gets a wrong-mode or null-handle rejection; it is ErrClosed exactly when an object is closed or nil and reaches the core exactly when both are open and the contexts are equal |
| `GoWrite.CommitReachesTheRightEntryPoint` | bindings/go/write.go:252-289 | the same after any run of Go calls, and the overwrite entry point is chosen exactly when the native committer overwrites |
| `GoWrite.GoCallIsNative` | bindings/go/write.go:93-128 | each Go call makes exactly one native call and passes its answer on, or on a closed or nil object makes none and says so |
| `GoWrite.GoRunIsNativeRun` | bindings/go/write.go:93-128 | every run of Go calls is a run of native calls that respects the pointer types, so everything proved of native runs holds of Go runs |
| `GoWrite.GoCommitHandsOver` | bindings/go/write.go:252-289 | after any run each of the three commit calls hands the core what it stands for: the largest identifier, the given one, or the given one with filtering, as an append or an overwrite, with every message as often as it was merged in; and nothing if an object is closed or the contexts differ |
| `GoWrite.GoAbortHandsOver` | bindings/go/write.go:309-311 | the same for abort |
| `GoWrite.HandlesAreKept` | bindings/go/write.go:67-73 | in every reachable state open Go objects and live native handles correspond one to one: no native handle is ever without an owner |
| `GoWrite.ClosedForGood` | bindings/go/write.go:67-73 | closing an open object frees its native handle and leaves it closed; a second close changes nothing |
| `GoWrite.CommitMessages.Merge` | bindings/go/write.go:196-204 | a nil or closed side is ErrClosed and changes nothing; otherwise the native merge |
| `GoWrite.WriteBuilder.WithOverwrite` | bindings/go/write.go:93-102 | native mode and Go flag change together or not at all |
| `GoWrite.WriteBuilder.NewCommit` | bindings/go/write.go:118-128 | the committer's flag equals its native mode from birth |
| `GoWrite.WriteBuilder.Close` | bindings/go/write.go:67-73 | frees once and forgets the handle |
| `GoWrite.TableCommit.Commit` | bindings/go/write.go:252-289 | all three commit styles, by the committer's own flag: never a wrong-mode rejection |
| `UriReaderCache.MissMeansNoWrapper` | bindings/python/src/blob_uri_reader.rs:124-154 | if no live weak entry sits at the object's address then no live wrapper wraps an object at that address |
| `UriReaderCache.NextKeeps` | bindings/python/src/blob_uri_reader.rs:124-154 | creating, dropping and reusing addresses all keep the cache invariant: a live wrapper is the one cached at its object's address |
| `UriReaderCache.ReachableInv` | bindings/python/src/blob_uri_reader.rs:124-154 | so it holds after every run |
| `UriReaderCache.CreateIsIdentity` | bindings/python/src/blob_uri_reader.rs:124-154 | after any run, create returns a live wrapper of exactly the object the factory returned, the existing one if any is live, and an insertion leaves precisely the live wrappers in the cache |
| `UriReaderCache.CreateAddsOneOwner` | bindings/python/src/blob_uri_reader.rs:124-154 | create gives its caller exactly one more owner of what it returns and changes no other count; with a cached reader nothing else changes |
| `UriReaderCache.OwnersBalance` | bindings/python/src/blob_uri_reader.rs:124-154 | after any run a wrapper has as many owners as times it was returned or cloned, less the times it was dropped |
| `UriReaderCache.OneWrapperPerObject` | bindings/python/src/blob_uri_reader.rs:76-81 | two live wrappers wrap the same object only if they are the same |
| `UriReaderCache.InterleavedCreate` | bindings/python/src/blob_uri_reader.rs:124-154 | owners dropped or cloned by other threads between lookup, purge and insertion: the invariant still holds, no other live wrapper has the object, and only entries that died meanwhile stay behind |
| `UriReaderCache.ReaderFactory.Create` | bindings/python/src/blob_uri_reader.rs:124-154 | the lookup, purge and insertion on the map refine that step |
| `PredicateTree.FlattenAndMeans` | crates/paimon/src/spec/predicate.rs:370-387 | flattening with absorption keeps the value of the conjunction on every row whose plain evaluation succeeds |
| `PredicateTree.FlattenOrMeans` | crates/paimon/src/spec/predicate.rs:407-423 | the same for disjunction |
| `PredicateTree.MakeAndMeans` | crates/paimon/src/spec/predicate.rs:359-367 | the built conjunction means the plain one, with no And, True or False directly under it |
| `PredicateTree.MakeOrMeans` | crates/paimon/src/spec/predicate.rs:396-404 | the built disjunction means the plain one, with no Or, True or False directly under it |
| `PredicateTree.NegateMeans` | crates/paimon/src/spec/predicate.rs:430-460 | negation complements the answer on a row if and only if it is not an empty IN or NOT IN on a null column, where both are false |
| `PredicateTree.ConstructorsGuarded` | crates/paimon/src/spec/predicate.rs:359-460 | and, or and negate bring no empty set test on a null column into a tree that has none |
| `PredicateTree.ReadableIsKnown` | crates/paimon/src/spec/predicate.rs:1818-1850 | evaluation fails only on a column that cannot be read |
| `PredicateTree.EvalIsSatisfies` | crates/paimon/src/spec/predicate.rs:1818-1850 | on a row whose columns can be read, evaluation gives the textbook reading: all conjuncts, some disjunct, complement, and for a leaf null tests and set membership on the datum, false on null otherwise |
| `PredicateTree.LeafMeans` | crates/paimon/src/spec/predicate.rs:1856-1890 | the same for one leaf, operator by operator, an unreadable column being an error |
| `Like.LikeMatch` | crates/paimon/src/spec/predicate.rs:1993-2051 | the index-walking matcher answers true exactly when the value can be divided among the pattern's tokens |
| `Like.MatchAny` | crates/paimon/src/spec/predicate.rs:1993-2051 | the percent branch tries every suffix and is exact |
| `Like.OptimizeMeans` | crates/paimon/src/spec/predicate.rs:1957-1981 | whatever literal shape the optimiser picks accepts exactly the strings the pattern accepts |
| `Like.OptimizeIff` | crates/paimon/src/spec/predicate.rs:1957-1981 | a shape is picked if and only if the pattern is plain, non-empty text, alone or with a percent sign after it, before it or on both sides |
| `Like.PatternLaws` | crates/paimon/src/spec/predicate.rs:1993-2051 | what a pattern means by its first characters: percent, underscore, escape, ordinary character, trailing backslash |
| `Like.PrefixMeans` | crates/paimon/src/spec/predicate.rs:1957-1981 | text followed by one percent is a prefix test |
| `Like.SuffixMeans` | crates/paimon/src/spec/predicate.rs:1957-1981 | one percent followed by text is a suffix test |
| `Like.MiddleMeans` | crates/paimon/src/spec/predicate.rs:1957-1981 | text between two percents is a substring test |
| `Like.BuildAndEvaluate` | crates/paimon/src/spec/predicate.rs:1486-1512 | building a LIKE leaf and evaluating it decides the pattern, optimised or not |
| `GoPredicates.RunKeeps` | bindings/go/predicate.go:510-551 | after any calls with any aliasing or reuse: Go and native predicates are matched one to one, nothing is given back twice, references equal owners |
| `GoPredicates.Linearity` | bindings/go/predicate.go:510-551 | from an empty start: every native predicate ever made is either live or given back, exactly once; no two Go predicates own the same one; one library reference per owner |
| `GoPredicates.FoldSucceeds` | bindings/go/predicate/predicate.go:34-64 | an n-ary fold succeeds if and only if all arguments are usable and no predicate occurs twice |
| `GoPredicates.FoldStops` | bindings/go/predicate/predicate.go:34-64 | a failed fold stops exactly at the first argument it has to refuse |
| `GoPredicates.FoldLeaves` | bindings/go/predicate/predicate.go:34-64 | after a failed fold the first argument is still usable, the arguments before the refused one are consumed, all others are untouched |
| `GoPredicates.FoldCombines` | bindings/go/predicate/predicate.go:34-64 | wherever a fold stops, the first argument stands for the left fold of its own and the taken arguments' expressions and owns the left fold of their native predicates |
| `GoPredicates.FoldExprMeans` | bindings/go/predicate/predicate.go:34-64 | such a fold holds when all of its operands do, or for Or when one does |
| `GoPredicates.FoldNeverRevives` | bindings/go/predicate/predicate.go:34-64 | no fold makes a consumed predicate usable again |
| `GoPredicates.ApplyFaithful` | bindings/c/src/table.rs:2001-2076 | each call keeps, on every row: an owned native predicate answers whatever the expression its caller built answers |
| `GoPredicates.RunFaithful` | bindings/c/src/table.rs:679-698 | after any calls, on every row with nulls and unreadable columns, owned predicates and the installed filter answer as the caller's expressions, provided no leaf tests a null column against an empty set; FilterIffInstalled and FilterIsTheLast say which filter is installed |
| `GoPredicates.FilterIsTheExpression` | bindings/c/src/table.rs:679-698 | the filter is there exactly if some call installed one, and where the columns can be read it holds exactly when the Boolean expression does |
| `GoPredicates.FilterIffInstalled` | bindings/go/read_builder.go:138-154 | after any run the builder has a filter if and only if some WithFilter met an open builder with a predicate that owned something |
| `GoPredicates.FilterIsTheLast` | bindings/go/read_builder.go:138-154 | the filter is what the predicate of the last such call owned, and stands for what it stood for, just before that call |
| `GoPredicates.InstalledFilterMeans` | bindings/c/src/table.rs:679-698 | so on readable columns the filter holds exactly when what the caller installed last does |
| `GoPredicates.WithFilterIs` | bindings/go/read_builder.go:138-154 | one call: installed and consumed, with one reference given back, exactly on an open builder with a usable predicate; nil succeeds and changes nothing; anything else is refused and changes nothing |
| `GoPredicates.CombineIs` | bindings/go/predicate.go:510-528 | one And or Or: it goes through exactly for two different usable predicates; the receiver then stands for and owns the combination, the argument owns nothing, both natives are gone, one reference is given back and nobody else is affected |
| `GoPredicates.NegationIs` | bindings/go/predicate.go:544-551 | one Not: exactly for a usable predicate, which then stands for and owns the negation |
| `GoPredicates.LeafIs` | bindings/go/predicate.go:382-399 | one leaf: a new predicate that owns it and holds one reference |
| `GoPredicates.CloseIs` | bindings/go/predicate.go:240-248 | one close: what is owned is freed and its reference given back; nobody else is affected |
| `GoPredicates.CloseTwice` | bindings/go/predicate.go:240-248 | a second close changes nothing |
| `GoPredicates.FoldIs` | bindings/go/predicate/predicate.go:34-64 | one fold: refused below two arguments, through exactly if all are usable and distinct, and wherever it stops the first argument holds the combination of those taken |
| `GoPredicates.NegatedEmptySet` | crates/paimon/src/spec/predicate.rs:430-460 | an empty IN or NOT IN on a null column, negated once, no longer answers as its expression |
| `GoPredicates.FaithfulExactly` | crates/paimon/src/spec/predicate.rs:430-460 | all runs over a set of leaves are faithful on a row if and only if none of the leaves tests a null column of it against an empty set |
| `GoPredicates.NativeLibrary.PredicateJoin` | bindings/c/src/table.rs:2001-2052 | consumes two distinct live predicates and makes one |
| `GoPredicates.NativeLibrary.PredicateNot` | bindings/c/src/table.rs:2054-2066 | consumes one and makes one |
| `GoPredicates.NativeLibrary.PredicateFree` | bindings/c/src/table.rs:2069-2076 | consumes one |
| `GoPredicates.ReadBuilder.SetFilter` | bindings/c/src/table.rs:679-698 | installs the predicate taken out of its box, or clears the filter for null |
| `GoPredicates.ReadBuilder.WithFilter` | bindings/go/read_builder.go:138-154 | on any reference the call refines the abstract step, and the builder's filter is then the predicate owned before exactly if the builder was open and the predicate usable |
| `GoPredicates.NewPredicate` | bindings/go/predicate.go:382-399 | a leaf constructor refines the abstract step |
| `GoPredicates.CombinePredicate` | bindings/go/predicate.go:510-528 | on any two references, nil and equal ones included, the native contract of two distinct live predicates is met and the call refines the abstract step |
| `GoPredicates.Not` | bindings/go/predicate.go:544-551 | refines the abstract negation on any reference |
| `GoPredicates.ClosePredicate` | bindings/go/predicate.go:240-248 | frees at most once, only what is still owned |
| `GoPredicates.FoldPredicates` | bindings/go/predicate/predicate.go:34-64 | the loop over the arguments refines the abstract fold |
| `GoHandles.RunKeeps` | bindings/go/ffi.go:35-52 | every handle, plan, reader and batch operation, the partial-failure path and finalisers included, keeps the two books balanced |
| `GoHandles.LibraryConserved` | bindings/go/ffi.go:35-52 | in every reachable state the count is the loader's references plus what live objects owe, the library is loaded exactly while the count is positive, so whenever an object could call it, and the count is the loader's again exactly when every object is finished |
| `GoHandles.AllGivenBack` | bindings/go/ffi.go:35-52 | after any run the count is back at the loader's references if and only if every object is closed, released or finalised, and the library is then unloaded exactly if the loader holds none |
| `GoHandles.StepIs` | bindings/go/catalog.go:62-69 | a step adds exactly the object it creates, under exactly stated conditions, and an object is live after it exactly if it was and the step does not end it |
| `GoHandles.ObjectIsBorn` | bindings/go/catalog.go:62-69 | after any run there is an object of a number if and only if some step made it |
| `GoHandles.ObjectLives` | bindings/go/catalog.go:62-69 | it is then of the kind that step made it, and live if and only if no later step ended it |
| `GoHandles.CreatingTakes` | bindings/go/table_read.go:87-106 | making an object takes exactly the references it owes: a reader one per range, everything else one |
| `GoHandles.FailedReader` | bindings/go/table_read.go:87-106 | a reader that cannot be made leaves the whole state as it was |
| `GoHandles.EndingGivesBack` | bindings/go/catalog.go:62-69 | closing a live handle or reader or releasing a batch leaves it owing nothing, lowers the count by exactly what it owed and touches no other object |
| `GoHandles.PrepareTrades` | bindings/go/postpone_fixed_bucket_write.go:189-202 | preparing ends the writer; its reference passes to the messages, or goes back if the native call fails |
| `GoHandles.PlanLifetime` | bindings/go/plan.go:73-112 | under any interleaving of Splits, Close and finalisers: references are one for an open plan plus one per unfinalised split set; the native plan is freed at most once, exactly when both are gone, never while a split is reachable |
| `GoHandles.SetsStep` | bindings/go/plan.go:97-112 | a split set waits from the Splits call that made it until it is finalised, which only an unpinned one is, and is pinned until the caller lets go |
| `GoHandles.FinishingFrees` | bindings/go/plan.go:86-94 | the native plan is freed and its library reference returned by exactly the step that finishes the plan, the close or the last finaliser |
| `GoHandles.ReadNeedsSomeoneHolding` | bindings/go/table_read.go:56-106 | the native calls of a reader under construction find the plan, whatever the collector does meanwhile, if and only if the plan is open or the caller keeps one of its splits reachable |
| `GoHandles.ReaderLosesItsPlan` | bindings/go/table_read.go:56-106 | a run that closes a plan under a reachable split, and the two collector steps that then free it |
| `GoHandles.CollectorRun` | bindings/go/plan.go:102-112 | collector steps never close a plan or drop a split that is kept |
| `GoHandles.Drain` | bindings/go/plan.go:102-112 | with nobody holding on, some run of the collector frees the plan |
| `GoHandles.LibRef.Acquire` | bindings/go/ffi.go:46 | one more reference, on a loaded library |
| `GoHandles.LibRef.Release` | bindings/go/ffi.go:48-52 | one less, unloading exactly at zero |
| `GoHandles.CreateReaders` | bindings/go/table_read.go:87-106 | one reference per reader on success and none left over after a failure at any range; the loop refines the abstract step, whatever range fails |
| `GoHandles.GoHandle.Close` | bindings/go/catalog.go:62-69 | refines the abstract close: the first call returns one reference, later ones none |
| `GoHandles.RecordBatchReader.Close` | bindings/go/table_read.go:168-180 | the loop over the native readers refines the abstract close: one reference per reader, once |
| `GoHandles.PlanHandle.Release` | bindings/go/plan.go:88-94 | refines the abstract steps: the plan is freed and its library reference returned exactly when the last reference goes |
| `SplitRanges.SortInts` | bindings/go/table_read.go:60-85 | insertion in place leaves the sorted permutation |
| `SplitRanges.GroupIndices` | bindings/go/table_read.go:60-85 | the loop groups runs of consecutive indices |
| `SplitRanges.FlattenGroup` | bindings/go/table_read.go:60-85 | flattening the ranges gives the indices back, in order and with repeats |
| `SplitRanges.MaximalIffDistinct` | bindings/go/table_read.go:60-85 | on sorted indices no two ranges could be joined if and only if no index repeats |
| `SplitRanges.RepeatedIndex` | bindings/go/table_read.go:60-85 | index 0 twice gives two ranges |
| `SplitRanges.ClampIsIdentity` | bindings/c/src/table.rs:965-970 | indices of the plan give ranges inside it, so the native clamp changes nothing |
| `SplitRanges.ClampKeeps` | bindings/c/src/table.rs:965-970 | on any range the clamp keeps exactly the indices the plan has |
| `SplitRanges.StreamsReadEach` | bindings/go/table_read.go:87-106 | readers over in-bounds ranges, drained in turn, read each split of the ranges |
| `SplitRanges.ReadEachAt` | bindings/go/table_read.go:147-164 | each split's items stand in one block, in the order of the list, with nothing between or after |
| `SplitRanges.RangesReadSplits` | bindings/go/table_read.go:60-106 | for any non-empty choice of splits the readers yield the chosen splits in index order, each as often as chosen |
| `SplitRanges.RecordBatchReader.NextItem` | bindings/go/table_read.go:147-164 | yields the head of what remains, or the end, which stays the end |
| `SplitRanges.RecordBatchReader.NextRecord` | bindings/go/table_read.go:125-145 | ErrClosed after Close, otherwise the next item |
| `SplitRanges.RecordBatchReader.Close` | bindings/go/table_read.go:168-180 | the first call frees every native reader once and the rest nothing |
| `SplitRanges.RecordBatchReader.ReadAll` | bindings/go/table_read.go:147-164 | reading to the end terminates and collects exactly what was to come |
| `SplitRanges.ReadSplits` | bindings/go/table_read.go:56-106 | no splits and splits of different plans are refused, exactly those; otherwise construction and draining together equal plain reading of the sorted choice |
| `Literals.NewDecimal` | bindings/go/predicate.go:149-155 | the sign-extended halves recompose to the unscaled value |
| `Literals.MarshallingIsExact` | bindings/c/src/table.rs:1108-1173 | every supported Go value arrives in the core as itself, except a non-UTF-8 string, which is refused |
| `Literals.TagsAgree` | bindings/c/src/table.rs:1108-1173 | both sides use one tag numbering, and an unknown tag is exactly one outside it |
| `Literals.DecimalHalves` | bindings/c/src/table.rs:1108-1173 | every 128-bit integer has exactly one pair of halves, the floored quotient and the wrapped remainder |
| `Literals.Resolution` | crates/paimon/src/spec/predicate.rs:1606-1640 | not found exactly when no field matches; ambiguous exactly when case is ignored and two match; otherwise the first match, which with case ignored is the only one |
| `Literals.IntegerLiteralMeaning` | bindings/c/src/table.rs:1266-1325 | for every Go integer and resolved integer column, building succeeds if and only if the value is in the column's range; the literal then has the column's type and the same value, and otherwise the error says out of range |
| `Literals.OtherLiteralMeaning` | bindings/c/src/table.rs:1266-1325 | any other literal keeps its type: on an integer column it is refused, and on a column of another type it becomes a predicate exactly if compatible with it |
| `Literals.UnresolvedColumn` | bindings/c/src/table.rs:1196-1263 | an absent or ambiguous column is reported as such, whatever the literal |
| `Literals.CoerceIsIdempotent` | bindings/c/src/table.rs:1196-1263 | coercing twice is coercing once, and the integer value never changes |
| `Literals.ToDatums` | bindings/go/predicate.go:421-436 | a list converts in order, if and only if every element does |
| `Literals.IntegerListMeaning` | bindings/c/src/table.rs:1946-1985 | a list of integers becomes a predicate if and only if every element is in range, each with the column's type and its own value |
| `Literals.OtherListMeaning` | bindings/c/src/table.rs:1946-1985 | a list on a column of another type becomes a predicate if and only if every element is compatible, and holds the elements as given |
| `BlobStream.OperationsAreSound` | bindings/python/src/blob.rs:136-166 | positions stay within i64, and both ends of every request lie in the window and below 2^64 |
| `BlobStream.ReadRefines` | bindings/python/src/blob.rs:136-166 | one read returns, fails and advances as a plain cursor over the window does |
| `BlobStream.SeekRefines` | bindings/python/src/blob.rs:209-227 | one seek answers as the cursor does in unbounded integers, errors included |
| `BlobStream.StreamIsACursor` | bindings/python/src/blob.rs:116-231 | for every sequence of reads, seeks and closes, and windows inside or past the file: same bytes, same positions, same errors as a cursor over the slice |
| `BlobStream.ReadsCoverTheWindow` | bindings/python/src/blob.rs:136-166 | reads of any positive sizes from the start, long enough in all, concatenate to the whole window |
| `BlobStream.OpenedStream` | bindings/python/src/blob.rs:84-106 | which descriptors are refused, which window the others open, and that one unsized read returns it |
| `BlobStream.ReadFailsPastTheFile` | bindings/python/src/blob.rs:136-166 | when the declared window runs past the file, exactly the reads that need a missing byte fail, and the position stays |
| `BlobStream.BlobInputStream.ReadBytes` | bindings/python/src/blob.rs:136-166 | the method refines the read step without overflow |
| `BlobStream.BlobInputStream.SeekTo` | bindings/python/src/blob.rs:209-227 | the method refines the seek step |
| `BlobStream.BlobInputStream.Close` | bindings/python/src/blob.rs:229-231 | only the closed flag changes |
| `OssRead.PrefixNamesTheRange` | integrations/oss-cpp/bridge.cc:135-142 | a Content-Range header that passes the prefix test parses as exactly the requested first and last position (section 14.4 of RFC 9110) |
| `OssRead.PrefixIsUnambiguous` | integrations/oss-cpp/bridge.cc:135-142 | no header passes the test for two ranges |
| `OssRead.MemoryWriter.Write` | integrations/oss-cpp/bridge.cc:116-125 | a chunk lands right after what this sink wrote, cut at the capacity, everything else unchanged |
| `OssRead.Transfer` | integrations/oss-cpp/bridge.cc:116-125 | an attempt overlays the buffer from its beginning, whatever was there |
| `OssRead.Read` | integrations/oss-cpp/bridge.cc:108-147 | InvalidRange exactly when the last byte lies beyond 2^64-1, with no step that overflows; success exactly when status, range, length and the last attempt's byte count all fit; nothing past the requested length is touched |
| `OssRead.AcceptedMeans` | integrations/oss-cpp/bridge.cc:136-145 | an accepted response is a 206 that names exactly the requested range, claims its length, and whose last transfer brought that many bytes |
| `OssRead.ReadObject` | integrations/oss-cpp/bridge.cc:108-147 | for any number of attempts with any partial writes, success means the buffer holds the object's bytes at the requested range |
| `ErrorWorklist.StepKeeps` | bindings/python/src/error.rs:44-66 | taking any waiting error off and adding its children loses nothing and shrinks the total node count |
| `ErrorWorklist.FindFork` | bindings/python/src/error.rs:44-66 | the stack loop terminates on every finite error tree and answers true if and only if a path through collection members and sources leads to a fork error |
| `ErrorWorklist.FindForkInAnyOrder` | bindings/python/src/error.rs:44-66 | the answer does not depend on which waiting error is taken next |
| `ErrorWorklist.DfToPyErr` | bindings/python/src/error.rs:44-66 | a fork safety error exactly if a fork error shows where the search looks, and a value error otherwise |
| `ErrorWorklist.PyErrIs` | bindings/python/src/error.rs:32-42 | a Paimon error becomes a fork safety error exactly if a fork error shows in it, not-implemented exactly if it is unsupported, and a value error otherwise |
| `ErrorWorklist.ReportsAreTrue` | crates/paimon/src/error.rs:168-182 | whatever is reported is in the tree, however deep and however attached |
| `ErrorWorklist.ReachableIsShown` | crates/paimon/src/error.rs:220-238 | the search finds a fork error if and only if one shows, a condition on the tree's shape alone |
| `ErrorWorklist.Overlooked` | crates/paimon/src/error.rs:220-238 | four trees that contain a fork error and hide it: an I/O payload or a native storage error outside a Paimon error, a later collection member or a storage error's cause inside one |
| `ErrorWorklist.ExactWhenShown` | crates/paimon/src/error.rs:220-238 | the search reports exactly what the tree contains if and only if a contained fork error shows |
| `ErrorWorklist.ToCallbackError` | bindings/python/src/blob_uri_reader.rs:50-74 | the chain walk returns the first Python exception on the chain of explicit and standard causes, or else the ordinary conversion |
| `ErrorWorklist.ChainLinks` | bindings/python/src/blob_uri_reader.rs:50-74 | the walk goes from cause to cause until there is none |
| `ErrorWorklist.FirstIsFirst` | bindings/python/src/blob_uri_reader.rs:50-74 | what it returns is the first Python exception on the way, if there is any |
| `ErrorWorklist.CallbackRoundTrip` | bindings/python/src/blob_uri_reader.rs:43-74 | a callback's exception comes back through any stack of layers, I/O payloads and collection positions included, if and only if the stack lets it, read off layer by layer |
| `ErrorWorklist.WrapStep` | bindings/python/src/blob_uri_reader.rs:50-74 | where each kind of layer leads: to the error inside, to a collection's first member, or past an I/O payload to the cause it exposes |
| `ErrorWorklist.CallbackLost` | bindings/python/src/blob_uri_reader.rs:50-74 | an I/O error around the callback error, and a collection with another error first, lose it |
| `Quoting.BodyRoundTrip` | benchmarks/tpcds/src/load.rs:167-169 | a doubled body followed by its closing quote reads back, rest untouched |
| `Quoting.BodyIsDoubled` | benchmarks/tpcds/src/load.rs:167-169 | everything the reader accepts is a doubled body |
| `Quoting.QuoteRoundTrip` | benchmarks/tpcds/src/load.rs:167-169 | a text unquotes to a name if and only if it is that name quoted, for all strings |
| `Quoting.ReferenceRoundTrip` | benchmarks/tpcds/src/load.rs:111-131 | a text reads as a catalog, database, table triple if and only if it is that triple's reference, quotes and dots in the names included |
| `Quoting.ReferencesDiffer` | benchmarks/tpcds/src/run.rs:46-51 | different triples never share a reference |
| `Selection.ParseNumberSelection` | benchmarks/tpcds/src/lib.rs:102-142 | for every text: the error of the first part that does not parse, else the smallest number out of bounds, else all chosen numbers in order |
| `Selection.Gather` | benchmarks/tpcds/src/lib.rs:102-131 | the loop over the parts builds the union of their ranges or stops at the first error |
| `Selection.InBounds` | benchmarks/tpcds/src/lib.rs:133-142 | the walk over the ordered set finds the smallest number out of bounds or returns them all |
| `Selection.AcceptedSelection` | benchmarks/tpcds/src/lib.rs:102-142 | an accepted result is strictly increasing, in bounds, and exactly the union listed, or the full interval when nothing is |
| `Selection.OrderDoesNotMatter` | benchmarks/tpcds/src/lib.rs:102-142 | acceptance and union depend only on the set of parts, not on order or repetition |
| `Selection.SpelledSelection` | benchmarks/tpcds/src/lib.rs:102-131 | signs, leading zeros, white space and empty pieces do not matter: every spelling of numbers and ranges denotes their union |
| `Selection.NumeralIff` | benchmarks/tpcds/src/lib.rs:102-131 | a numeral is a printed number below 2^32 after any zeros and at most one plus sign, and stands for that number; nothing else is one |
| `Selection.SpanDescends` | benchmarks/tpcds/src/lib.rs:102-131 | a range that runs backwards is refused as such, with its own text |
| `Selection.AcceptedIsSpelled` | benchmarks/tpcds/src/lib.rs:102-131 | nothing else parses: every text whose parts parse is such a spelling |
| `Selection.PrintedRoundTrip` | benchmarks/tpcds/src/lib.rs:102-142 | printing any non-empty set of numbers in bounds and parsing the text returns the set in order |

## Left out

- The core's commit, conflict detection, scan planning and file reading: they sit behind the modelled interfaces and appear as parameters.
- The CRC algebra of blob entries: the round trip holds for every checksum function.
- Blob arrays and maps, the shared index cache and blob descriptors: they add containers around the modelled file.
- Floating-point datums and UTF-8 validity: opaque values and an opaque predicate.
- Arrow import and export, FFI call tables and struct layouts: plumbing without properties of its own.
- Truncation, bucket plans, resource contexts, catalog, tag, snapshot and search wrappers: thin calls into the core that would only add easy members.
- Overflow of the 32-bit Go reference counts: counts are unbounded here.
- Data races on one Go object used without its lock: the steps are whole method calls, with finalisers interleaved.
- Debug builds that panic on overflow: the wrapping and saturating release behaviour is modelled.
- The TPC-DS loader and runner beyond identifier quoting and number selection: I/O and reporting.
- BlobFile.BlobRoundTrip: for files below 2^64 bytes, the size a file length can express.
- BlobStream.StreamIsACursor: for files below 2^63 bytes; on a larger one an unknown length would no longer fit the signed seek arithmetic.
- OssRead.MemoryWriter.Write: the client library's sink is not part of the repository; it is modelled as bounded by its capacity.
- Quoting.ReferenceRoundTrip: the reader is the one of section 5.2 of ISO/IEC 9075-2, not the SQL library's own parser.
- UriReaderCache.ReaderFactory.Create: the Python factory's call and its errors come before the modelled step.
