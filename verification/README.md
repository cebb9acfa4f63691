# S3Proxy-Go: a verified model of its storage layers

S3Proxy-Go puts layers around object stores: a parallel writer and a prefetching reader, an object cache,
bucket virtualisation, transparent encryption, multipart splitting, buffered readers. Each layer is supposed to be
invisible. This project models the layers in Dafny and proves what "invisible" means for each of them: for every
input, every schedule, every run of calls. Where a layer is invisible only under a condition, the condition is
proved to be exact.

Check everything with `dafny verify dfyconfig.toml`.

## How the model is built

* `Core`, `Runs`, `Strings` and `Decimal` are shared vocabulary: byte strings, chunking, finite runs of a step
  system, string order and search, `strconv`.
* Concurrent code is a step system. A state holds what the goroutines share plus the program counter of each of them;
  a schedule is any sequence of enabled steps (`ParallelWriter`, `StreamReader`, `CacheInterleaving`,
  `CacheFreshness`, `MetadataFreshness`, `FileMultipart`). Log fields in these states record history and steer nothing.
* Code that updates objects is a class whose methods are proved against functions on values, and the theorems are
  about those functions over whole runs (`ObjectCache`, `FramedStream`, `ChunkedAead`, `EncryptedStore`,
  `DataKeyCache`, `FileListing`, `MultipartSplit`, `BufferedReaders`, `ByteRanges`, `VirtualListing`).
* Clocks, random sources, failing calls, short reads and evictions are parameters of the operations, so every
  theorem holds for all of them.
* Authenticated encryption is any scheme that meets the laws of sections 2.1, 2.2 and 5.2 of RFC 5116 (`Aead`), and
  base64 is any codec whose decoding inverts its encoding. Bytes are integers below 256; exclusive or is defined bit by bit.

## What the code needs to be right

Each of these is a theorem with both directions, or a theorem with a schedule or input that shows the failure.

* A parallel Write that answered success has its bytes stored when Close has returned, or some call has reported an error
  (`AcknowledgedIsStored`); without cancellation an error is reported if and only if a write failed (`ReportsExactly`).
* `StreamReader` delivers in order for a caller that always reads n bytes if and only if n is a multiple of the
  chunk size: a split chunk's remainder goes to the back of the channel (`ExactReadCondition`).
* A source that fails with io.ErrUnexpectedEOF - as the body of a request cut before its declared length does - passes for
  one that ended. `StreamReader` reports every fault of the source if and only if it is another one
  (`FaultSurfacesExactly`); a multipart upload keeps a faulted input from being installed if and only if it is another
  one (`FaultStopsExactly`, `CutShortIsInstalled`); a decrypting read misses what is left if and only if that fault comes
  before the end, with nothing read (`SourceFaultExactly`).
* The object cache answers like the bare backend if and only if cache keys tell the names apart and no key is empty:
  `DeleteBucket` misses a cache key that equals its prefix (`SequentialCoherence`). A declared size that cuts the
  body short is cached cut short (`SizeMustNotCutShort`). `CompleteMultipartUpload`, which the wrapper inherits
  from the embedded backend, invalidates nothing; whether that shows is decided exactly (`CompleteMultipartGoesUnseen`).
* Under concurrency a Get that starts after a Put has returned can still be served the overwritten object
  (`StaleAfterPutReturned`); how old it can be is bounded (`BoundedStaleness`). Every later Get is fresh if and only if,
  when the Put invalidates the hot cache, no Get in flight has fetched or freshly stamped another object
  (`ReadAfterWriteExactly`). The metadata cache, which never expires, is fresh from its invalidation on if and only if
  no Get or Head in flight holds other attributes that it can still cache (`HeadAfterWriteExactly`).
* Two virtual buckets are isolated if and only if they use different real buckets or neither slash-closed prefix
  is a prefix of the other (`IsolationExactly`). A listing marker means what it says if and only if there is no bucket
  prefix or it has no leading slash (`MarkerExactly`). A page is always followed by the items
  after it if and only if the key of its last item is not empty and, when there is a bucket prefix, has no leading slash
  (`ResumesExactly`); next markers can always be followed to the end if and only if pages end in such keys
  (`FollowsExactly`). On an entry named like the bucket prefix, and on keys that begin with a slash, pages of one item
  start over for ever (`EmptyKeyNeverStops`, `SlashKeyNeverStops`).
* Encrypted objects keep user metadata if and only if it uses no reserved key, and their size if and only if it was
  measured or declared right (`MetadataExactly`, `SizeExactly`). Every call looks like a plain store's if and only if it
  is not a completion, with encryption enabled, of an upload that an abort was attempted of - failed aborts included - or
  that was begun before a restart: the wrapper has forgotten it, reports success and leaves the object in the clear
  (`TransparentExactly`, `ForgottenInTheClear`).
* The framed encryptor closed after a Write that failed sends everything it kept as one chunk: the chunks stay 64 KiB
  chunks if and only if no more than one was kept, and the 16 MiB guard stops it if and only if more than 16 MiB - 28 bytes
  were (`CloseAfterFailure`).
* The chunk cipher has no framing: a decrypting read succeeds if and only if it gathers exactly one sealed chunk
  (`ReadExactly`). The encrypting reader takes an empty read without an error for the end (`EndIsComplete`).
* The data-key cache goes on serving the bytes put if and only if it is handed an array that no entry holds, or the
  replaced entry's own array with nothing left in it (`DataKeyCache.Put`): an entry's own array is wiped when it is put
  back, and one put under two keys is zeroed for both when the first of them leaves (`SharedKeyIsLost`).
* An Azure reader keeps the order in a read if and only if its buffer is drained or used as it is: large reads overtake
  buffered bytes and may report the end before them, and a change of buffer size loses them, or panics (`SafeReadExactly`).
* A byte range is answered as section 14.1.2 of RFC 9110 says if and only if it is not a suffix longer than the object, nor
  `bytes=-0` on a non-empty object, which is answered with the whole object, and the backend delivers the selected bytes
  (`SliceExactly`).
* The file-system listing reports truncation whenever the limit is filled, even when nothing is left (`TruncationExactly`).
  Removing one upload's directory spares another upload's parts if and only if its id is neither a prefix of the other id nor one of
  its part names (`RemoveSparesExactly`). A completion stores what its parts' files hold when they are copied; that is what
  was offered for them if and only if none of their copies had failed half-way (`WholePartsExactly`). Anybody else's step
  spoils it if and only if it truncates, overwrites or deletes the object (`OneWriterExactly`), and the completion may
  then succeed all the same (`SecondWriterBreaks`, `TwoWritersMix`). A completion that misses a part leaves a shortened
  object (`FailedCompleteLeavesPrefix`).

The code's comments promise buffering and caching without these conditions; the model follows the code.

## Model

| member | source | states |
|---|---|---|
| `ParallelWriter.RangeInFlat` | internal/storage/stream.go:221-225 | every reserved range carries exactly its own write's bytes of the concatenation in reservation order |
| `ParallelWriter.RangesCover` | internal/storage/stream.go:221-225 | every position below the total lies in some reserved range |
| `ParallelWriter.RangesDisjoint` | internal/storage/stream.go:221-225 | reserved ranges never overlap |
| `ParallelWriter.SlotConserved` | internal/storage/stream.go:197-247 | no step of any goroutine loses or duplicates a reservation; only reserving adds one |
| `ParallelWriter.ErrConserved` | internal/storage/stream.go:197-260 | no step loses or invents an error; each fault stays in exactly one place |
| `ParallelWriter.StepInv` | internal/storage/stream.go:197-260 | every step of writers, workers, cancellation and Close keeps the ledgers, the tiling and the stored bytes right |
| `ParallelWriter.NoLostError` | internal/storage/stream.go:197-260 | in every schedule, once Close has returned, a failed writeFunc has made some Write or Close report an error, although full channels drop errors |
| `ParallelWriter.NoInventedError` | internal/storage/stream.go:200-219 | every error taken from the channel was returned by a writeFunc, and faults balance with taken, queued, pending and dropped errors |
| `ParallelWriter.StoredBytesAreRight` | internal/storage/stream.go:197-211 | at every moment of every schedule, failed writes included, a stored byte is the right one for its position |
| `ParallelWriter.EveryRequestRanOnce` | internal/storage/stream.go:197-260 | with no error reported, every reservation has run exactly once when Close has returned |
| `ParallelWriter.ScheduleIndependence` | internal/storage/stream.go:197-260 | with no error reported, the ranges tile [0,total) and the target is the writes concatenated in reservation order, for any interleaving and number of workers |
| `ParallelWriter.SameReservationsSameTarget` | internal/storage/stream.go:213-247 | two error-free runs with the same reservations store the same bytes |
| `ParallelWriter.WorkRunsOut` | internal/storage/stream.go:197-211 | after the queue is closed every worker step uses up work and nothing adds any |
| `ParallelWriter.CloseNeverStuck` | internal/storage/stream.go:249-260 | while Close waits it can return or some worker can step |
| `ParallelWriter.WriteAnswers` | internal/storage/stream.go:213-247 | in every schedule a Write answers either all its bytes and no error, with just these bytes reserved, or no bytes and an error that a writeFunc returned or the cancelled context has |
| `ParallelWriter.OneReservationEach` | internal/storage/stream.go:221-225 | no two Writes share a reservation, and every reservation was made by some Write |
| `ParallelWriter.AcknowledgedIsStored` | internal/storage/stream.go:197-260 | once Close has returned, every Write that answered success has all its bytes in the target where it reserved them, unless some Write or Close has reported an error |
| `ParallelWriter.ReportsExactly` | internal/storage/stream.go:197-260 | without cancellation, an error has been reported by the time Close has returned if and only if a writeFunc failed |
| `ParallelWriter.WaitingErrorEndsWrite` | internal/storage/stream.go:213-219 | an error waiting in the channel ends the next Write that looks: it answers that error, a writeFunc's, and reserves nothing |
| `ParallelWriter.WritesInTurnConcatenate` | internal/storage/stream.go:197-260 | used as an io.Writer, one Write after the other, with no error reported: the target is everything written in the order of the Writes, whatever the workers do |
| `StreamReader.StepInv` | internal/storage/stream.go:42-155 | with aligned reads every step of producer, consumer, cancellation and Close keeps handed-out, queued and in-flight bytes a prefix of the source |
| `StreamReader.InOrderDelivery` | internal/storage/stream.go:42-149 | with aligned reads, at every step of every interleaving the consumer holds a prefix of the source, no remainder is re-queued and nothing panics |
| `StreamReader.CleanEndOfFile` | internal/storage/stream.go:108-120 | an end of file before Close means that everything the source gave was delivered, and that it did not fail other than with io.ErrUnexpectedEOF |
| `StreamReader.ReadAnswers` | internal/storage/stream.go:100-149 | in every schedule and for all buffer lengths: which steps end a Read; its count is what it put in the buffer, at most its length, and its length unless there is an error or the closed channel ran dry; end of file only with no bytes, of a dry closed channel without a failure; a stored failure is answered at once, and every failure is the source's or the cancelled context's |
| `StreamReader.CountsAddUp` | internal/storage/stream.go:100-149 | over every run of Reads of any lengths, the counts they answered add up to the bytes handed out |
| `StreamReader.Ends` | internal/storage/stream.go:62-90 | every source without a noticed fault, io.ErrUnexpectedEOF included, has a schedule that ends in a clean end of file |
| `StreamReader.FaultSurfacesExactly` | internal/storage/stream.go:62-90 | no schedule of aligned reads lets a failing source pass for one that ended if and only if its error is not io.ErrUnexpectedEOF |
| `StreamReader.MisalignedBreaks` | internal/storage/stream.go:122-138 | for every other read length some source and schedule deliver bytes out of order |
| `StreamReader.ExactReadCondition` | internal/storage/stream.go:100-149 | fixed-length reads are always served in order if and only if the length is a multiple of the chunk size |
| `ObjectCache.ObjectCache.GetObject` | internal/cache/cache.go:71-96 | served if and only if there is an entry and it is before its expiry, with that entry's body and attributes; an expired one is removed, nothing else is; exactly one of hit and miss is counted |
| `ObjectCache.ObjectCache.PutObject` | internal/cache/cache.go:99-116 | an object within the limit enters both caches under bucket, slash and key, to expire at now + ttl; a larger one changes nothing |
| `ObjectCache.ObjectCache.GetMetadata` | internal/cache/cache.go:119-129 | the cached metadata or nothing, and exactly one of hit and miss is counted |
| `ObjectCache.ObjectCache.Invalidate` | internal/cache/cache.go:138-142 | the key leaves both caches and nothing else does |
| `ObjectCache.ObjectCache.InvalidateBucket` | internal/cache/cache.go:145-163 | the two loops remove exactly the keys that begin with bucket and slash and go on |
| `ObjectCache.CachingBackend.GetObject` | internal/cache/cache.go:226-269 | read-through that keeps coherent caches coherent, and answers from them what the bare backend would |
| `ObjectCache.CachingBackend.HeadObject` | internal/cache/cache.go:272-288 | the same for metadata: size, ETag, time and user metadata are the backend's |
| `ObjectCache.CachingBackend.PutObject` | internal/cache/cache.go:291-303 | a successful put replaces the object and invalidates its key, a failed one changes nothing; caches stay coherent |
| `ObjectCache.CachingBackend.DeleteObject` | internal/cache/cache.go:306-316 | the same for deletion |
| `ObjectCache.CachingBackend.DeleteBucket` | internal/cache/cache.go:319-329 | the same for a bucket and all its cache keys |
| `ObjectCache.CoherentAfter` | internal/cache/cache.go:226-329 | every call, eviction and clock tick keeps both caches in agreement with the backend |
| `ObjectCache.SharedKeyIncoherent` | internal/cache/cache.go:119-135 | two names with one cache key break coherence |
| `ObjectCache.EmptyKeyIncoherent` | internal/cache/cache.go:145-163 | an empty key breaks coherence |
| `ObjectCache.SequentialCoherence` | internal/cache/cache.go:71-163 | over every sequential run with any eviction, time and failures, every answer is the bare backend's if and only if cache keys are unambiguous and no key is empty |
| `ObjectCache.SlashFreeKeys` | internal/cache/cache.go:72 | slash-free bucket names make cache keys unambiguous |
| `ObjectCache.OrdinaryNamesCoherent` | internal/cache/cache.go:226-329 | ordinary bucket names and non-empty keys are coherent |
| `ObjectCache.SizeMustNotCutShort` | internal/cache/cache.go:242-266 | a first Get answers like the backend if and only if the object is not cacheable or its size does not cut the body short |
| `ObjectCache.CompleteMultipartGoesUnseen` | internal/cache/cache.go:211-215 | after an upload completed behind any coherent caches, Head answers like the backend if and only if the metadata was not cached or its attributes are unchanged, and Get if and only if the hot entry is not fresh or the object is unchanged |
| `ObjectCache.ServedUntilExpiry` | internal/cache/cache.go:226-269 | after a Get that read a cacheable object, a Get answers just that before now + ttl, even if the backend fails or holds something else; from then on the backend is asked again |
| `ObjectCache.HeadServedAgain` | internal/cache/cache.go:272-288 | metadata read once is served again for good, whatever the backend does |
| `CacheInterleaving.StepCalls` | internal/cache/cache.go:226-303 | whatever other calls do, what each call in progress holds is one version the backend really held |
| `CacheInterleaving.StepHot` | internal/cache/cache.go:71-116 | every hot entry is backed by a fetch instant and a later expiry stamp |
| `CacheInterleaving.BoundedStaleness` | internal/cache/cache.go:71-116 | in every interleaving an object served at t was the backend's whole object at an instant f, stamped at i with time(f) <= time(i) <= t < time(i) + ttl |
| `CacheInterleaving.AnswersAreReal` | internal/cache/cache.go:236-269 | in every interleaving an object answered from the backend was held there at some instant, and not-found is answered only of an instant when there was none |
| `CacheInterleaving.OnlyWritesWrite` | internal/cache/cache.go:291-316 | only a Put or Delete that succeeds changes the backend: to what it was given, or by removing that name |
| `CacheInterleaving.StaleAfterPutReturned` | internal/cache/cache.go:236-303 | a Get that starts after a Put returned can be served the overwritten object, and the metadata cache keeps the old attributes |
| `CacheFreshness.FreshKept` | internal/cache/cache.go:226-303 | whatever steps follow, a name with nothing stale cached and nothing stale in flight stays so |
| `CacheFreshness.FreshExactly` | internal/cache/cache.go:71-116 | from a given moment on, every Get of a name begun later answers only objects held then or later if and only if no outdated entry is fresh and no Get in flight can still insert one |
| `CacheFreshness.ReadAfterWriteExactly` | internal/cache/cache.go:236-303 | when a Put or Delete has invalidated the hot cache, every Get begun from then on is fresh, in every interleaving, if and only if no Get in flight has fetched another object that it can read and cache, or stamped one that is still fresh |
| `MetadataFreshness.AllKept` | internal/cache/cache.go:226-303 | whatever steps follow, attributes that are up to date in the metadata cache and in the calls in flight stay so |
| `MetadataFreshness.FreshExactly` | internal/cache/cache.go:119-135 | from a given moment on, the metadata cache and the Heads begun later show only attributes the backend has then or later if and only if no outdated ones are cached and no call in flight can still cache some |
| `MetadataFreshness.HeadAfterWriteExactly` | internal/cache/cache.go:272-303 | the same right after a Put or Delete has invalidated the metadata cache: if and only if no Get or Head in flight holds other attributes that it can still cache |
| `VirtualBuckets.StripPrepend` | internal/storage/s3.go:203-220 | removing an added prefix gives the key back minus at most one leading slash |
| `VirtualBuckets.PrependStrip` | internal/storage/s3.go:203-220 | a real key survives the other direction if and only if no slash follows the prefix |
| `VirtualBuckets.OpKeepsView` | internal/storage/s3.go:637-767 | an operation through one bucket leaves a non-overlapping bucket's view alone |
| `VirtualBuckets.OverlapLeaks` | internal/storage/s3.go:168-212 | overlapping buckets have a run that leaks |
| `VirtualBuckets.IsolationExactly` | internal/storage/s3.go:144-220 | no run of object operations through one bucket changes the other's view if and only if real buckets differ or neither closed prefix is a prefix of the other |
| `VirtualBuckets.LivesUnder` | internal/storage/s3.go:144-201 | a virtual bucket lives in the configured, else the mapped, else its own real bucket, under the configured prefix with a slash added exactly when none ends it, or under none |
| `VirtualBuckets.SameTarget` | internal/storage/s3.go:203-212 | two keys have one real name if and only if they are equal, but for one leading slash when a prefix is configured |
| `VirtualBuckets.OwnBucket` | internal/storage/s3.go:637-767 | over every run of calls by clients of all buckets that do not overlap it, each Get through a virtual bucket answers what it would on a bucket of its own that only its clients use |
| `VirtualListing.RewriteAnswer` | internal/storage/s3.go:581-634 | of any answer the two loops keep the entries under the prefix, without it, in order, except keys ending in a slash when the delimiter is one; prefixes and next marker likewise |
| `VirtualListing.ListObjectsWithDelimiter` | internal/storage/s3.go:519-635 | the mapped bucket is asked: the ordinary listing of the virtual view, contents without exactly the keys ending in a slash when the delimiter is one; no answer if and only if the request fails or the real bucket does not exist |
| `VirtualListing.ItemsRewrite` | internal/storage/s3.go:520-547 | the items of the rewritten query are the virtual query's items moved under the prefix |
| `VirtualListing.VirtualListingMeaning` | internal/storage/s3.go:519-635 | rewriting there and back equals listing the virtual view - contents, common prefixes, next marker, truncation - up to dropped folder markers and an eaten leading slash of the marker |
| `VirtualListing.VirtualListingShows` | internal/storage/s3.go:519-635 | the same with the dropped markers written out: an entry is shown if and only if the delimiter is not "/" or its key does not end in it, in the same order |
| `VirtualListing.KeepIsView` | internal/storage/s3.go:581-609 | the first loop filters any answer, ordered or not, to just those entries of the virtual view |
| `VirtualListing.MarkerExactly` | internal/storage/s3.go:542-544 | a marker is faithful for all listings if and only if there is no prefix or it has no leading slash |
| `VirtualListing.RollUpOrdered` | internal/storage/s3.go:545-547 | rolling keys up to common prefixes keeps their order |
| `VirtualListing.PagingResumes` | internal/storage/s3.go:614-616 | feeding the rewritten next marker back goes on with exactly the items not shown yet |
| `VirtualListing.FollowingShowsAll` | internal/storage/s3.go:519-635 | following next markers stops, and the pages together show every item of the virtual listing exactly once and in order, when pages end in resumable keys |
| `VirtualListing.ResumesExactly` | internal/storage/s3.go:542-616 | on every bucket and query a page that ends in an item with this key is followed by exactly the items after it if and only if the key is not empty and, under a bucket prefix, has no leading slash |
| `VirtualListing.FollowsExactly` | internal/storage/s3.go:519-635 | next markers can be followed to the end, showing everything once, on every bucket whose pages end in keys of a set if and only if all of these are such keys |
| `VirtualListing.EmptyKeyNeverStops` | internal/storage/s3.go:614-616 | on a bucket of two entries, one named like the bucket prefix, pages of one item start over for ever |
| `VirtualListing.SlashKeyNeverStops` | internal/storage/s3.go:542-616 | so they do on a bucket with a key that begins with a slash, under any bucket prefix and the usual delimiter |
| `MultipartSplit.PartsOfInput` | internal/storage/s3.go:1073-1122 | parts are consecutive, all but the last exactly 5 MiB, and glue to the input |
| `MultipartSplit.PartCount` | internal/storage/s3.go:1073-1079 | there is an i-th part if and only if the parts before it do not reach the end |
| `MultipartSplit.UploadNext` | internal/storage/s3.go:1079-1121 | one turn uploads the next part, or ends - at the end of the input or at io.ErrUnexpectedEOF -, or tries to abort on another read error or a bad part |
| `MultipartSplit.UploadParts` | internal/storage/s3.go:1073-1122 | the loop ends; on success every 5 MiB chunk of the input is uploaded under its number, otherwise the upload is aborted, or left open by a failing abort |
| `MultipartSplit.PutObjectMultipart` | internal/storage/s3.go:1073-1141 | the input itself is installed if and only if it ends cleanly or with io.ErrUnexpectedEOF, the completion succeeds, and no part that begins inside it fails; otherwise nothing is, the first failing part is reported, and the upload is aborted unless the abort fails too; a failed completion leaves it open |
| `MultipartSplit.FaultStopsExactly` | internal/storage/s3.go:1081-1088 | an input that ends in an error is never installed if and only if that error is not io.ErrUnexpectedEOF |
| `MultipartSplit.CutShortIsInstalled` | internal/storage/s3.go:1081-1121 | a body cut short anywhere with that error is installed as if it were complete |
| `FramedStream.HeaderRoundTrip` | internal/kms/envelope.go:299-305 | the 4-byte header reads back as the length |
| `FramedStream.FrameLayout` | internal/kms/envelope.go:299-318 | a frame is its length in four bytes, most significant first, then nonce, then ciphertext |
| `FramedStream.ParseWire` | internal/kms/envelope.go:287-318 | frames read back are the frames written |
| `FramedStream.WireUnique` | internal/kms/envelope.go:299-318 | one output has one reading as frames |
| `FramedStream.ChunkingIgnoresSplits` | internal/kms/envelope.go:207-243 | the chunks are the 64 KiB chunking of everything written, however it was split |
| `FramedStream.WireOpens` | internal/kms/envelope.go:287-318 | any chunks that pass the 16 MiB guard come back from the wire one by one |
| `FramedStream.StreamRoundTrip` | internal/kms/envelope.go:207-318 | after any successful Writes and Close the guard has not fired and the output parses and opens to everything written |
| `FramedStream.CloseAfterFailure` | internal/kms/envelope.go:232-243 | closing after a failed Write keeps 64 KiB chunks if and only if at most one chunk was kept, and passes the guard if and only if at most 16 MiB - 28 bytes were |
| `FramedStream.StreamEncryptor.WriteChunk` | internal/kms/envelope.go:288-318 | a whole frame - big-endian length, nonce, ciphertext - if and only if it is at most 16 MiB and the writer accepts three writes; else an error and the front of one, or nothing when too large |
| `FramedStream.StreamEncryptor.EncryptChunk` | internal/kms/envelope.go:261-285 | a chunk becomes one frame, sealed under the next nonce, if and only if there is one, the frame passes the guard and the writer takes it; otherwise the exact reason why not |
| `FramedStream.StreamEncryptor.Write` | internal/kms/envelope.go:207-229 | sends exactly the whole chunks and keeps the rest, and succeeds if and only if nonces and writer last for them; a failure keeps every unsent byte; the guard never fires |
| `FramedStream.StreamEncryptor.Close` | internal/kms/envelope.go:232-258 | sends what was kept, however much, and wipes the key; what was sent stays a 64 KiB chunking if and only if at most one chunk was kept; if it fails nothing is wiped; the guard fires exactly above 16 MiB - 28 bytes |
| `FramedStream.EncryptStream` | internal/kms/envelope.go:207-258 | Writes and Close all succeed if and only if nonces and writer last for every chunk, and then the output opens to the 64 KiB chunks of the concatenation |
| `ChunkedAead.DeriveNonce` | internal/encryption/stream/aes_gcm.go:174-180 | the loop XORs the chunk number, least significant byte first, into the first 8 bytes |
| `ChunkedAead.NoncesDistinct` | internal/encryption/stream/aes_gcm.go:174-181 | chunk numbers below 2^64 get pairwise distinct nonces |
| `ChunkedAead.ChunkNonceBits` | internal/encryption/stream/aes_gcm.go:174-180 | bit by bit: byte i < 8 of the nonce is XORed with byte i of the chunk number, the other bytes stay |
| `ChunkedAead.EncryptingReader.Read` | internal/encryption/stream/aes_gcm.go:146-194 | a success answers the bytes just taken from the source sealed under key and chunk nonce, and fits; success and each error, end of file included, happen for exactly one reason; the chunk number counts the answers |
| `ChunkedAead.SealedInOrder` | internal/encryption/stream/aes_gcm.go:146-194 | for any read sizes the answers of a run glued together are the sealed pieces in order, one per chunk number, and the pieces are the source so far |
| `ChunkedAead.SealedChunk` | internal/encryption/stream/aes_gcm.go:174-187 | the i-th of them is the i-th piece sealed under the nonce of number i |
| `ChunkedAead.EndIsComplete` | internal/encryption/stream/aes_gcm.go:164-191 | the end is complete if and only if it was reported by the source or nothing was left |
| `ChunkedAead.DecryptingReader.Read` | internal/encryption/stream/aes_gcm.go:207-249 | a success answers what the gathered bytes open to under key and chunk nonce, and fits the buffer; success and each error happen for exactly one reason; bytes gathered before an error are gone |
| `ChunkedAead.AlignedReadsAll` | internal/encryption/stream/aes_gcm.go:207-249 | one read per sealed chunk, each gathering exactly that chunk, returns the whole source and then end of file |
| `ChunkedAead.ReadExactly` | internal/encryption/stream/aes_gcm.go:218-248 | in step with the sealer a read succeeds if and only if it gathered exactly the next sealed chunk, and returns that piece |
| `ChunkedAead.SourceFaultExactly` | internal/encryption/stream/aes_gcm.go:219-227 | an error of the source surfaces unless enough bytes came first or it is io.ErrUnexpectedEOF; what is missing goes unnoticed if and only if that error comes before the end with nothing read |
| `ChunkedAead.DecryptsAPrefix` | internal/encryption/stream/aes_gcm.go:207-249 | for any buffer sizes and source failures the answers before the first error are a prefix of the source, and a true end of file means all of it |
| `ChunkedAead.SealThenOpen` | internal/encryption/stream/aes_gcm.go:146-249 | the answers of any run of the encrypting reader, read back by any run of the decrypting reader, give answers that are a prefix of the source, and all of it at a true end of file |
| `ChunkedAead.SoundStreamExists` | internal/encryption/stream/aes_gcm.go:174-249 | what these results assume of a session can be met by a lawful scheme and a stream of two chunks |
| `Decimal.ParseFormat` | internal/encryption/stream/simple_aes_gcm.go:74 | every 64-bit integer is read back as written |
| `Decimal.DigitsAre` | internal/encryption/stream/simple_aes_gcm.go:74 | every digit written is the decimal digit of its place, and only zero begins with a zero |
| `Decimal.ParseExactly` | pkg/s3/handler.go:526-579 | a string is read as a number if and only if it is a sign that may stand there, any leading zeros and the digits of that 64-bit number |
| `EncryptedStore.DekRoundTrip` | internal/encryption/keys/local.go:30-97 | a wrapped data key unwraps to itself |
| `EncryptedStore.WrappedIsSealed` | internal/encryption/keys/local.go:30-58 | what is written of a data key decodes to a nonce and the key sealed under the master key |
| `EncryptedStore.DecryptDekExactly` | internal/encryption/keys/local.go:61-97 | a data key is read if and only if, behind twelve bytes of nonce, it opens under the master key |
| `EncryptedStore.ShowExactly` | internal/storage/encrypted.go:52-99 | a marked object is shown with a body if and only if encryption is enabled, its stored key opens under the master key and its bytes open to that body; others are shown as they are |
| `EncryptedStore.WrongMasterKey` | internal/storage/encrypted.go:70-86 | under a master key that does not open the stored key, a marked object is not shown at all |
| `EncryptedStore.PutGet` | internal/storage/encrypted.go:52-135 | a put object comes back with its bytes, the recorded size and the metadata without reserved keys plus the marker |
| `EncryptedStore.MetadataExactly` | internal/storage/encrypted.go:348-355 | user metadata survives if and only if it uses no reserved key |
| `EncryptedStore.SizeExactly` | internal/encryption/stream/simple_aes_gcm.go:57-88 | the original size is restored if and only if it was measured or declared right |
| `EncryptedStore.PutShowsPlain` | internal/storage/encrypted.go:52-194 | Get and Head of an honest put show what a plain store would |
| `EncryptedStore.CompleteMatches` | internal/storage/encrypted.go:259-336 | completing an upload that the wrapper remembers matches putting its parts glued together, and late failures leave the unmarked plain object |
| `EncryptedStore.StepMatches` | internal/storage/encrypted.go:101-342 | every operation and restart, whichever backend calls fail, keeps the wrapper looking like the plain store, completions of forgotten uploads excepted |
| `EncryptedStore.EncryptionIsTransparent` | internal/storage/encrypted.go:52-342 | over every run of put, get, head, list, delete and multipart calls, failing ones and restarts included, that completes no forgotten upload, every answer is the plain store's |
| `EncryptedStore.TransparentExactly` | internal/storage/encrypted.go:52-342 | after any such run the next call looks plain, in its answer and in what is held, if and only if it is not a completion that the backend carries out, with encryption enabled, of an upload that an abort was attempted of or that was begun before a restart |
| `EncryptedStore.ForgottenInTheClear` | internal/storage/encrypted.go:264-268 | such a completion reports success and stores the parts glued together, unencrypted and unmarked |
| `EncryptedStore.MarkedIsSealed` | internal/storage/encrypted.go:102-135 | what is held of a marked object is its data sealed under a key and the stored nonce, and the stored key decodes to that key sealed under the master key |
| `EncryptedStore.EncryptedBackend.GetObject` | internal/storage/encrypted.go:52-99 | what the plain store it looks like would give; nothing when metadata, key or tag do not fit |
| `EncryptedStore.EncryptedBackend.PutObject` | internal/storage/encrypted.go:102-135 | stored are the data sealed under the data key, that key sealed under the master key, and the marks - or nothing on failure; the wrapper goes on looking like the plain store |
| `EncryptedStore.EncryptedBackend.CleanedInPlace` | internal/storage/encrypted.go:349-355 | the five deletions remove exactly the reserved keys |
| `EncryptedStore.EncryptedBackend.HeadObject` | internal/storage/encrypted.go:177-194 | the plain store's size and metadata |
| `EncryptedStore.EncryptedBackend.ListObjects` | internal/storage/encrypted.go:143-174 | every listed item has the plain store's size and metadata |
| `EncryptedStore.EncryptedBackend.InitiateMultipartUpload` | internal/storage/encrypted.go:221-246 | the upload starts and, when enabled, its metadata is remembered |
| `EncryptedStore.EncryptedBackend.CompleteMultipartUpload` | internal/storage/encrypted.go:259-336 | assemble, read back, encrypt, overwrite, forget - stopping exactly where a backend call fails - and look like the plain store that put the parts glued together |
| `EncryptedStore.EncryptedBackend.AbortMultipartUpload` | internal/storage/encrypted.go:338-342 | what was remembered of the upload is gone, even when the backend fails and the upload lives on |
| `EncryptedStore.EncryptedBackend.constructor` | internal/storage/encrypted.go:44-49 | a new wrapper around a backend in use remembers no uploads |
| `DataKeyCache.CleanupInvisible` | internal/kms/cache.go:165-179 | a set of kept entries answers every Get from now on alike if and only if it keeps all unexpired ones |
| `DataKeyCache.DataKeyCache.Get` | internal/kms/cache.go:52-71 | an unexpired entry's key, whose array holds exactly the bytes put while entries own their arrays, otherwise nothing |
| `DataKeyCache.DataKeyCache.Put` | internal/kms/cache.go:74-91 | the replaced key is wiped and every key stays held or wiped, whatever array is handed in; entries go on owning their bytes if and only if no entry holds the array, or it is the replaced entry's own and all zero |
| `DataKeyCache.DataKeyCache.PutOwns` | internal/kms/cache.go:74-91 | the condition, from the entries before and after |
| `DataKeyCache.DataKeyCache.Delete` | internal/kms/cache.go:94-108 | exactly that entry goes, its array is wiped and no other array is touched |
| `DataKeyCache.SharedKeyIsLost` | internal/kms/cache.go:74-108 | of two entries with one array, deleting the first leaves the second served with zeros |
| `DataKeyCache.DataKeyCache.Clear` | internal/kms/cache.go:111-127 | no entry is left and every key ever handed over is wiped |
| `DataKeyCache.DataKeyCache.Cleanup` | internal/kms/cache.go:157-180 | exactly the expired entries go, wiped, and no Get at any time from now on is answered differently |
| `DataKeyCache.DataKeyCache.Close` | internal/kms/cache.go:183-208 | the first Close wipes and drops everything, a second does nothing |
| `DataKeyCache.DataKeyCache.ClearSensitiveData` | internal/kms/cache.go:250-260 | the array is all zero |
| `FileListing.Walk.Callback` | internal/storage/filesystem.go:104-193 | one visit extends the items shown by its item, once per folder and never beyond the limit |
| `FileListing.ListObjectsWithDelimiter` | internal/storage/filesystem.go:92-201 | the answer lists the visits up to some point: every file to be listed once in walk order, every common prefix once; the point is the end unless the limit was filled, and truncated says exactly that the limit was filled |
| `FileListing.AllMembers` | internal/storage/filesystem.go:123-190 | listed are exactly the files that are no metadata files, under the prefix, strictly behind the marker, with no delimiter behind the prefix, and the common prefixes that end in the first delimiter behind it |
| `FileListing.SearchIsFirst` | internal/storage/filesystem.go:134-155 | the search in what follows the prefix finds the first delimiter there, if there is one |
| `FileListing.AllFiles` | internal/storage/filesystem.go:92-201 | the files of the unlimited listing are the visits to be listed, in walk order |
| `FileListing.AllOnce` | internal/storage/filesystem.go:133-190 | with distinct paths every folder and every file is listed once |
| `FileListing.TruncationExactly` | internal/storage/filesystem.go:199 | truncated if and only if the unlimited listing fills the limit; not truncated means complete |
| `FileMultipart.PartPathInjective` | internal/storage/filesystem.go:362-364 | different uploads or part numbers use different files |
| `FileMultipart.RemoveSparesExactly` | internal/storage/filesystem.go:418-427 | removing one upload spares another's parts if and only if its id is neither a prefix of the other's nor one of its part names |
| `FileMultipart.StepParts` | internal/storage/filesystem.go:350-427 | in every interleaving, failing part uploads and several writers of one object included, each upload directory holds exactly the latest parts and none outlives its upload |
| `FileMultipart.StepCalls` | internal/storage/filesystem.go:384-422 | with one writer per object no step - part uploads, aborts and completions of the same upload included - disturbs a completion in progress |
| `FileMultipart.CompleteAssembles` | internal/storage/filesystem.go:384-422 | a successful completion stores exactly what the listed parts held at the successive instants at which they were copied, in the requested order |
| `FileMultipart.AnswersExactly` | internal/storage/filesystem.go:384-422 | over every run with one writer per object, a completion answered success if and only if it had copied every listed part, and when it answered the object held exactly what it had copied |
| `FileMultipart.AlwaysTruthful` | internal/storage/filesystem.go:384-422 | over every run, whoever else writes, success is answered if and only if every listed part has been copied |
| `FileMultipart.FailuresAreAnswered` | internal/storage/filesystem.go:400-415 | a missing part and a failing copy are answered with an error |
| `FileMultipart.StepsStore` | internal/storage/filesystem.go:239-427 | what part uploads, puts, deletions, beginning completions and aborts do to files |
| `FileMultipart.UntouchedPartsAssemble` | internal/storage/filesystem.go:384-422 | if the parts were not touched since, that is the concatenation of the latest parts |
| `FileMultipart.WholePartsExactly` | internal/storage/filesystem.go:362-381 | it is what was offered for the parts if and only if every part's copy had been complete when the part was read |
| `FileMultipart.TwoWritersMix` | internal/storage/filesystem.go:388-409 | two uploads completed to one key at the same time both succeed and mix their parts |
| `FileMultipart.OneWriterExactly` | internal/storage/filesystem.go:384-422 | after any run with one writer per object, whatever anybody else does next, a completion's object still is what it copied if and only if that step did not truncate, overwrite or delete it |
| `FileMultipart.SecondWriterBreaks` | internal/storage/filesystem.go:388-422 | a second completion of the object breaks every completion that has written a byte, and one that had copied everything still succeeds, leaving an empty object |
| `FileMultipart.CompleteTouchesNothingElse` | internal/storage/filesystem.go:400-419 | it changes no other object and no other upload's parts |
| `FileMultipart.FailedCompleteLeavesPrefix` | internal/storage/filesystem.go:393-405 | a missing part leaves the object with what the parts before it held |
| `BufferedReaders.BufferedReader.Prepare` | internal/storage/azure.go:370-380 | the buffer for this read, a new one zeroed |
| `BufferedReaders.BufferedReader.Refill` | internal/storage/azure.go:382-389 | the buffer is refilled from the source and read from its front |
| `BufferedReaders.BufferedReader.ReadBuffered` | internal/storage/azure.go:370-472 | refill when drained, then copy, with the three readers' own sizes, sticky error and panic |
| `BufferedReaders.BufferedReader.Read` | internal/storage/azure.go:364-472 | bypass or buffer; an orderly read answers the wrapped reader's bytes and status, or without error as much as fits of what is buffered, else of a refill, or why there is none |
| `BufferedReaders.OrderlyAnswer` | internal/storage/azure.go:364-472 | that answer, for each of the three readers |
| `BufferedReaders.BufferSizes` | internal/storage/azure.go:370-455 | the buffer a small read leaves: 64 KiB or at least 512 KiB by its length, or the one size of its kind |
| `BufferedReaders.OrderlyStep` | internal/storage/azure.go:364-472 | an orderly read keeps handed-out plus buffered bytes equal to what was taken, and end of file means everything |
| `BufferedReaders.DeliversInOrder` | internal/storage/azure.go:364-472 | over every run of orderly reads the output is a prefix of the source, and all of it at end of file |
| `BufferedReaders.EagerReadsFinish` | internal/storage/azure.go:364-472 | when the wrapped reader always gives something, reading once more than the source has bytes hands out the whole source and says end of file |
| `BufferedReaders.BypassOvertakes` | internal/storage/azure.go:365-368 | a bypassing read over an undrained buffer breaks the order for some source, after any error |
| `BufferedReaders.NewBufferLoses` | internal/storage/azure.go:370-380 | so does a change of buffer size, even in a read of no bytes |
| `BufferedReaders.SafeReadExactly` | internal/storage/azure.go:364-472 | a read of any length keeps the order for every source - loses and overtakes nothing, does not panic, says end of file only at the end - if and only if the buffer is drained or used as it is |
| `ByteRanges.ParseRangeHeader` | pkg/s3/handler.go:526-579 | the loop over the elements computes the parse of the whole header |
| `ByteRanges.ParsePrinted` | pkg/s3/handler.go:526-579 | any list of ranges written as section 14.1.2 of RFC 9110 says, leading zeros, blanks and empty elements included, is read back as those ranges in order |
| `ByteRanges.GetRangeObject` | pkg/s3/handler.go:433-520 | which of 416, 404, 500 and 206 is sent, and with what, also when the second request fails or its body is shorter than announced; another unit than bytes is always 416 |
| `ByteRanges.SliceExactly` | pkg/s3/handler.go:456-519 | the answer is exactly the selected bytes with matching headers if and only if the range is no over-long suffix and no empty suffix of a non-empty object, and the backend delivers the selected bytes |
| `ByteRanges.PrintedAnswerExactly` | pkg/s3/handler.go:433-579 | from header to answer: a header written for one range gets the right answer if and only if these two conditions hold |
| `ByteRanges.OtherCountsRefused` | pkg/s3/handler.go:437-454 | a written header with no range is answered 416, one for a missing object 404, and one with several ranges 416 |
| `ByteRanges.UnreadableRefused` | pkg/s3/handler.go:526-579 | one element that is not blank and has no hyphen makes the answer 416, whatever the object |

## Left out

* AWS, Azure and KMS client calls, HTTP routing, XML, configuration, logging, metrics, authentication, rate limits and transport tuning: plumbing without a correctness core.
* AES, GCM, SHA, base64 and the random source: only the laws named above are used.
* `sync.Pool` recycling in internal/storage/stream.go: buffers are values, so a recycled buffer cannot be observed; the pool is given pointers and asked for slices, so recycling promises nothing.
* The 2Q replacement policy: any entry may leave at any moment.
* `bytesReader` of internal/cache/cache.go: cached bodies are byte strings; reading them piece by piece would only add an easy member.
* Aliasing of metadata maps: metadata is a value, so the edit in place of a map that a cache or a backend still holds is not seen.
* `DeleteBucket` in the interleaved cache model: Get, Head, Put and Delete calls interleave there.
* `chunkedDecodingReader` and the per-backend metadata cache of internal/storage/s3.go: a block-boundary heuristic without a specification, and a second cache of the kind already modelled.
* Server limits on part counts and page sizes, and rejection of an empty part list: the server's answer is a parameter.
* `.meta` files of the file-system backend: a put with empty metadata leaves the old one in place, so the encryption theorem uses an abstract backend.
* Directory creation, permissions and path cleaning in internal/storage/filesystem.go: paths are lists of clean components.
* ParallelWriter.ScheduleIndependence: a second Close, which panics in Go, is not a step.
* FileMultipart.CompleteAssembles: copying one part, storing one part and putting one object are each a single step.
* VirtualListing.FollowingShowsAll: a listing without a delimiter gets no next marker from S3, so there is none to follow.
