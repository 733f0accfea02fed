# Ferrobucket storage: a verified model

Ferrobucket serves the S3 protocol from a plain directory tree. This project models the parts of
it whose correctness is not visible from one function body, and proves what they promise:

- **Listing** (`Bytes`, `Collapsing`, `Paging`, `Listing`, `ListingLaws`): the ListObjectsV2 algorithm
  with its in-place fold of keys into CommonPrefixes, one page, and whole sequences of pages, both of
  a bucket that stays as it is and of one that changes between any two pages; and what a response
  says, from the fields of the request alone.
- **Browsing** (`Browsing`): a client that follows the tokens while the bucket changes, from the
  directories on disk to the responses it sees: every key is shown, the tokens increase, and it ends.
- **The object store** (`KeyEncoding`, `Utf8`, `Meta`, `DiskOps`, `FsStorage`, `ObjectMap`, `Laws`,
  `Frames`): key encoding; every storage operation step by step on an explicit disk; the proof that
  any sequence of operations behaves like a map from bucket and key to bytes and metadata; what each
  operation promises a client in terms of what it sent and of what other operations answer; and what
  a run leaves alone, on any disk. `Spelling` spells out the texts that the model keeps as bytes.
- **Concurrency** (`Interleaving`, `Alone`, `Agreement`, `TempFiles`, `Overlaps`, `Serial`,
  `Serializability`, `SerialExactly`, `Readers`): puts, deletes and bucket deletions as processes
  whose filesystem steps interleave freely, with crashes; invariants of every run; what one key may
  rely on while anything happens to the others; temp files; reads among writers; exactly which
  requests may bring the two files of a key apart; and exactly which sets of requests may end in a
  way that no order of them explains.
- **Multipart uploads** (`Assembly`, `Decimals`, `PartList`, `UploadUrl`, `StrayAddresses`,
  `UploadHandler`, `UploadZone`): what completing an upload yields after any history, and the browser's
  create/post/complete/abort protocol over a network that loses requests and replies, from the
  text of each address through the browser's URL parser, the server's route, the query and the
  handler's dispatch to the storage, and back.
- **Dates** (`Calendar`, `Timestamps`): the closed-form Gregorian conversion and the SigV4
  timestamps made from it.
- **Ranges and batch deletes** (`Ranges`, `S3Adapter`): byte ranges, the agreement of body and
  headers of a ranged GET, and DeleteObjects.

`dafny verify dfyconfig.toml` checks everything.

## How the model is built

Strings are sequences of bytes; on valid UTF-8 the byte order, `find` and `starts_with` are those
of Rust's `str`. The disk is a value: directories are maps from file names to contents, and a
sidecar file is either torn or holds complete metadata. Each storage operation exists once as
a function on the disk (`DiskOps`) and once as a method of class `FsStorage` that goes through the
temp file, the chunks, the rename and the sidecar in the order of the program and is proved to
compute that function. `ObjectMap.Ideal` says what a map would do, `ObjectMap.Run` what the program
does. Temp-file names, upload ids, clock readings, content types, the order in which `read_dir` yields
entries and the fate of each network message are parameters. MD5 is a symbol, `Md5(bytes)`.

## Where the code and its comments differ

- The comment at crates/storage/src/encode.rs:4-7 says that `-`, `_`, `.` and `~` stay as they are;
  `AsciiSet::add` adds them to the set to be escaped. The model escapes them.
- The comment at crates/storage/src/fs.rs:147-149 says that temp files never decode. They do, to
  themselves (`KeyEncoding.TempNamesDecode`), so a listing whose page reaches a temp file of a put
  in flight fails for want of a sidecar (`Listing.TempFileFailsListing`). Temp files do not outlive
  their puts unless the server dies (`TempFiles.TempsOwned`).

## Findings

Where the code does not do what its callers would expect, and exactly when.

- **Keys in upload addresses.** crates/ui/src/islands/upload_zone.rs:441-508 puts the raw key into
  the address. It arrives as it is exactly for plain keys: not empty, no tab, line break, `?`, `#`
  or backslash, no `%` followed by two hexadecimal digits, no `.` or `..` segment
  (`UploadUrl.CarriesExactlyPlainKeys`). The upload of any other key never stores it
  (`UploadZone.StrayUpload`). For `a#b` every request becomes a put of `a`: `a` ends holding the
  text of the part list, and the browser reports success (`UploadZone.HashUpload`,
  `UploadZone.HashExample`).
- **Files of more than 165668 parts** (about 1.26 TiB). crates/server/src/ui/upload.rs:137 reads at
  most 1 MiB of the part list, which has 1048572 bytes for 165668 parts and 1048579 for one more
  (`PartList.ListFits`). A larger file is refused after all of it has arrived, and its parts stay
  (`UploadZone.PlainUpload`, `UploadZone.OnePartTooMany`). With nothing lost a file is stored
  exactly when its key is plain and its parts are not too many (`UploadZone.StoredExactlyWhen`).
- **Completion into a deleted bucket.** `complete_multipart_upload` makes objects/ again when the
  bucket has been deleted, but not meta/: the call fails with the body in place.
  `ObjectMap.CompleteKeepsSound` gives the exact condition, `ObjectMap.CompleteWithoutBucket` what
  is left behind, `Frames.RunKeepsFiles` what is not touched.
- **Completion under another key.** `complete_multipart_upload` stores under the key of the request
  and records the key of the upload. Metadata goes on naming the key it is stored under exactly when
  no completion succeeds under another key than its upload's (`Frames.NamesKeptExactly`,
  `Frames.RunKeepsNamesExactly`); an upload of `a` completed as `b` is stored as `b` and says `a`
  (`Frames.CompletedUnderAnotherKey`).
- **Suffix 0.** `bytes=-0` on a non-empty object sends an empty body under the headers of the full
  one; that is the one inconsistent case (`S3Adapter.RangeConsistent`).
- **Overlap on one key.** Two requests on a key are compatible unless one is a put that delivers its
  body and the other a delete, or both are puts that deliver different bytes. Deletes, puts of the
  same bytes and puts whose stream breaks may overlap freely. Some schedule of requests that have not
  begun brings body and sidecar apart exactly when two of them are incompatible
  (`Overlaps.DisagreeExactly`): two puts leave the body of one with the sidecar of the other
  (`Overlaps.PutsDisagree`), a put and a delete a sidecar without a body
  (`Overlaps.PutAndDeleteDisagree`), all having answered success, and no order of any requests ends
  like that (`Overlaps.ApartIsNotSerial`). Compatible overlaps never do, in any run, with arrivals
  and with crashes that find no request between the two files (`Agreement.KeysAgreeAtRest`). A crash
  between them does: after a put's rename exactly unless the old sidecar described the same bytes
  (`Overlaps.CrashAfterRename`), after a delete's removal always (`Overlaps.CrashAfterRemoval`).
- **Reads under a put.** A read takes the sidecar and then opens the body, so it can answer the
  metadata of one put with the body of another: exactly when the body in place and those that puts at
  work deliver are not all the same (`Readers.MisreadExactly`). Each of the two is always whole
  (`Readers.ReadsWholePuts`).
- **Bucket deletions.** A set of requests on a well-formed bucket can end with answers or a bucket that
  no order of them explains exactly when two on one key are incompatible, or one is a bucket deletion
  and either every object has a delete at work, and there is one, or there is no object and a put or a
  second bucket deletion is at work (`SerialExactly.GoesWrongExactly`). The schedules: a deletion
  between the two removals of the last key's delete takes objects/ away, answers BucketNotEmpty and
  leaves a bucket in which every put fails (`Overlaps.DropUnderDelete`); one under a put makes it fail
  with an I/O error (`Overlaps.DropUnderPut`); one is refused because of a put that comes to nothing
  (`Overlaps.DropUnderBrokenPut`); two may both succeed (`Overlaps.DropUnderDrop`). So bucket
  deletions are harmless, in any number, while the bucket has one object that nobody deletes
  (`Serializability.SerializableGuarded`), and so is one alone among deletes that find nothing. A put
  whose body is in place fails only if its key is deleted and the bucket as well
  (`Agreement.PlacedCannotFail`, `Overlaps.PutFailsLate`).
- **Two deletes of one key** are equal to a sequential run in the order in which they reach the body,
  and not in the order of their answers: the one that finds nothing may be answered first
  (`Overlaps.DeletesOutOfOrder`). Without such an overlap `Serializability.Serializable` holds in
  both orders.
- **The empty key** is accepted by `encode_key` and names the directory itself: a put or a delete
  of it fails with an I/O error, which the model keeps.

## Model

| member | source | states |
|---|---|---|
| KeyEncoding.EncodeDecode | crates/storage/src/encode.rs:22-56 | round trip: every name `encode_key` produces decodes to the key it came from |
| KeyEncoding.PercentRoundTrip | crates/storage/src/encode.rs:23-48 | percent decoding undoes percent encoding on every byte string |
| KeyEncoding.EncodedNames | crates/storage/src/encode.rs:8-33 | encoding is injective; names have at most 255 bytes over letters, digits and `%`; no name is a temp-file name |
| KeyEncoding.EncodeAccepts | crates/storage/src/encode.rs:22-56 | `encode_key` accepts exactly the keys whose encoding is short enough and that `decode_key` accepts back |
| KeyEncoding.TraversalMeaning | crates/storage/src/encode.rs:38-40 | the five tests of the guard come to: a NUL byte, or two dots as a whole segment, by positions |
| KeyEncoding.EncodeRefuses | crates/storage/src/encode.rs:22-33 | which keys are refused and with which error: too long exactly when letters and digits counted once and other bytes three times exceed 255, else invalid exactly with a NUL byte or segment `..` |
| KeyEncoding.ClimbingKeys | crates/storage/src/encode.rs:38-40 | `..`, `../x` and `a/../b` are refused, `a..b` and `.../x` accepted |
| KeyEncoding.DecodeRefuses | crates/storage/src/encode.rs:42-56 | which names decode, and to what |
| KeyEncoding.EncodesEachByte | crates/storage/src/encode.rs:8-23 | the encoder byte by byte: ASCII letters and digits stay, others become `%` and two upper-case hexadecimal digits |
| KeyEncoding.DecodesEachByte | crates/storage/src/encode.rs:45-48 | the decoder byte by byte, broken escapes included |
| Utf8.Utf8Exactly | crates/storage/src/encode.rs:45-48 | valid text is exactly the encodings of sequences of Unicode scalar values |
| KeyEncoding.TempNamesDecode | crates/storage/src/fs.rs:140-149 | temp-file names do decode, to themselves |
| Collapsing.DeriveItems | crates/storage/src/list.rs:118-151 | the loop with its in-place update of the trailing item emits the right-to-left run decomposition of the keys |
| Collapsing.StartsWithIffCollapses | crates/storage/src/list.rs:121-130 | a matching key starts with a CommonPrefix exactly when it collapses to it |
| Collapsing.CommonPrefixesPrefixFree | crates/storage/src/list.rs:121-130 | no CommonPrefix of a request starts with another one |
| Collapsing.RunsContiguous | crates/storage/src/list.rs:108-113 | keys between two keys of one item belong to that item |
| Collapsing.RunsMeaning | crates/storage/src/list.rs:108-151 | direct objects are exactly the keys without delimiter after the prefix, CommonPrefixes exactly the one-segment strings some key starts with, nothing repeats, and each boundary key is the greatest of its item |
| Collapsing.ItemsIncrease | crates/storage/src/list.rs:120-151 | names of emitted items increase strictly, objects and CommonPrefixes together |
| Paging.PageCovers | crates/storage/src/list.rs:86-165 | a page lists the item of every key above its token and not above its next token |
| Paging.PageSource | crates/storage/src/list.rs:86-165 | a page lists nothing else |
| Paging.PageToken | crates/storage/src/list.rs:153-160 | the next token is a key of the bucket above the token asked with, and ends the run of the last item: no key above it belongs to an item of the page |
| Paging.TokensIncrease | crates/storage/src/list.rs:86-160 | tokens strictly increase along any sequence of pages, whatever happens to the bucket in between |
| Paging.NoItemTwice | crates/storage/src/list.rs:86-160 | no item comes back on a later page of a changing bucket, except a CommonPrefix that ended its page and has gained a key since |
| Paging.EveryKeyCovered | crates/storage/src/list.rs:86-160 | a matching key present in every snapshot is listed, itself or through its CommonPrefix, once a page is not truncated |
| Paging.PagesConcatenate | crates/storage/src/list.rs:98-165 | on a fixed bucket the concatenated pages, of any sizes, are a prefix of the uncapped listing, and all of it exactly when the last page is not truncated |
| Paging.FullListingIncreases | crates/storage/src/list.rs:98-165 | the uncapped listing repeats nothing |
| Paging.PageCount | crates/storage/src/list.rs:98-165 | with one page size m, n items take exactly max(1, ceil(n/m)) pages |
| Listing.ListObjectsV2 | crates/storage/src/list.rs:52-195 | the whole method computes the specified answer, error cases included |
| Listing.ReadPage | crates/storage/src/list.rs:167-184 | metadata of a page's objects in order, or the first failure; CommonPrefixes set aside |
| Listing.ListedKeysSorted | crates/storage/src/list.rs:60-84 | whatever order the directory is read in, the listing works on its keys in strictly increasing order |
| Listing.AnswerMeaning | crates/storage/src/list.rs:153-194 | a listing succeeds exactly when every object on the page has readable metadata; the final sort of the CommonPrefixes changes nothing; truncated exactly when there is a next token |
| ListingLaws.AnswerByFields | crates/storage/src/list.rs:52-195 | from prefix, delimiter, token and max-keys of the request and the names in the directory: the objects are exactly the keys with the prefix, above the token, not above the next one, and without a delimiter after the prefix, in byte order with their metadata; the CommonPrefixes exactly the strings such keys fall under; as many as a page takes; the next token is a key of the bucket above the old one |
| ListingLaws.AboveToken | crates/storage/src/list.rs:86-90 | with a token t everything listed, and the next token, lies above t |
| ListingLaws.PageLimitIs | crates/storage/src/list.rs:101 | max-keys clamped to 1..1000, 1000 if there is none |
| Listing.TempFileFailsListing | crates/storage/src/list.rs:60-78 | a temp file in objects/ makes every plain listing fail whose page reaches it |
| Calendar.DaysToYmdCorrect | crates/storage/src/presign.rs:63-75 | the closed form is the calendar counted day by day from 1970-01-01, for every day number, and the calendar's day count inverts it |
| Calendar.ClosedFormOfNumber | crates/storage/src/presign.rs:63-75 | every valid date is recovered from its number |
| Calendar.NoUnderflow | crates/storage/src/presign.rs:63-75 | no subtraction underflows and no value leaves u64 for any day number that seconds in u64 can give |
| Timestamps.FormatLength | crates/storage/src/presign.rs:50-58 | the text has 16 characters exactly through the year 9999 |
| Timestamps.FormatOrdered | crates/storage/src/presign.rs:42-58 | through the year 9999 instants compare as their texts do, and share the datestamp exactly on the same UTC day |
| Timestamps.FormatSays | crates/storage/src/presign.rs:42-58 | the text is YYYYMMDDTHHMMSSZ: its digits are year, month and day of the calendar counted day by day, and hour, minute and second of the day |
| Timestamps.EpochText | crates/storage/src/presign.rs:51-58 | second 0 is 19700101T000000Z |
| Ranges.ResolveMeaning | crates/storage/src/range.rs:70-107 | the resolved window is exactly the requested positions the object has, within the object; no window exactly when a non-suffix range asks for none of them |
| FsStorage.FsStorage.CreateBucket | crates/storage/src/fs.rs:256-292 | the steps make an empty bucket, or refuse an existing one unchanged |
| FsStorage.FsStorage.DeleteBucket | crates/storage/src/fs.rs:294-370 | the one-by-one removals delete an empty bucket and refuse any other |
| FsStorage.FsStorage.WriteObjectBody | crates/storage/src/fs.rs:134-187 | only the named file changes, to all received bytes, with their digest and size; after a failing stream nothing has changed and no temp file is left |
| FsStorage.FsStorage.WriteSidecar | crates/storage/src/meta.rs:30-72 | only the named sidecar changes, to the complete metadata |
| FsStorage.FsStorage.PutObject | crates/storage/src/fs.rs:374-406 | the steps do to the disk what `DiskOps.PutObject` says, error cases included |
| FsStorage.FsStorage.CreateMultipartUpload | crates/storage/src/multipart.rs:17-59 | a staging directory with complete metadata and no temp file |
| FsStorage.FsStorage.UploadPart | crates/storage/src/fs.rs:543-605 | the part slot holds all received bytes, or nothing has changed |
| FsStorage.FsStorage.CompleteMultipartUpload | crates/storage/src/fs.rs:607-704 | the streamed concatenation, sidecar and clean-up do what `DiskOps.CompleteUpload` says |
| ObjectMap.RunRefines | crates/storage/src/fs.rs:256-719 | every admissible sequence of operations on a well-formed disk gets the replies of a map and ends with the map's content |
| ObjectMap.PutRefines | crates/storage/src/fs.rs:374-406 | a put sets one entry of the map, to the received bytes and metadata that describes them |
| ObjectMap.DeleteRefines | crates/storage/src/fs.rs:468-494 | a delete removes one entry, and refuses an absent key |
| ObjectMap.ReadsRefine | crates/storage/src/fs.rs:408-466 | get and head answer from the entry, ranges from the entry's bytes |
| ObjectMap.ListRefines | crates/storage/src/list.rs:52-195 | any listing request answers the page of the map's keys in byte order with their metadata |
| ObjectMap.CompleteRefines | crates/storage/src/fs.rs:607-704 | completing an upload whose bucket exists sets one entry and removes the staging |
| Laws.PutStores | crates/storage/src/fs.rs:374-406 | a put of a good key into an existing bucket: head and get answer the received bytes under metadata with the key, size, digest, time and the type the client named, or application/octet-stream |
| Laws.PutRefused | crates/storage/src/fs.rs:374-406 | exactly when a put fails, with which error, and that it changes nothing |
| Laws.ReadsAgree | crates/storage/src/fs.rs:408-466 | head and get find the same metadata, size and digest are those of the body, or both refuse alike |
| Laws.ReadsOnAnyDisk | crates/storage/src/fs.rs:408-466 | on any disk: no sidecar is no such key, a torn one an I/O error, a sidecar without body no such key for get |
| Laws.RangedGet | crates/storage/src/fs.rs:425-455 | a ranged get is the requested positions of the full one, refused exactly when it asks from a position on and there are none |
| Laws.DeleteRemoves | crates/storage/src/fs.rs:468-494 | a delete succeeds exactly when head does, afterwards head does not; otherwise nothing changes and the error is given |
| Laws.BucketCreated | crates/storage/src/fs.rs:256-292 | a new bucket is empty and can be deleted again to the same disk; an existing one is refused |
| Laws.BucketDeleted | crates/storage/src/fs.rs:294-370 | a bucket is deleted exactly when no key in it can be read |
| Laws.UploadStores | crates/storage/src/multipart.rs:17-59 | from creation through any history to completion: head and get answer the joined latest bodies under metadata with the key and type of the creation, the digest with the number of parts, and the time |
| Laws.UploadEnds | crates/storage/src/fs.rs:706-719 | an aborted upload takes no parts and cannot be completed or aborted |
| Laws.PartAnswers | crates/storage/src/fs.rs:543-605 | exactly when a part is refused, with which error; otherwise it is tagged with its digest |
| Laws.ReceivedJoins | crates/storage/src/fs.rs:134-187 | a stream delivers the concatenation of its items unless one is a failure |
| Frames.RunKeepsFiles | crates/storage/src/fs.rs:256-719 | a run of any operations on any disk, sound or not, leaves body and sidecar of a key as they are unless an operation is about that key; so does a completion that makes objects/ of a vanished bucket again |
| Frames.RunKeepsEntries | crates/storage/src/fs.rs:256-719 | in every admissible run of the program no entry of the map changes but through an operation on its own key |
| Frames.NamesKeptExactly | crates/storage/src/fs.rs:690-698 | on a sound disk whose metadata names its keys, an operation keeps it so exactly when it is no completion that succeeds under another key than its upload's |
| Frames.RunKeepsNamesExactly | crates/storage/src/fs.rs:690-698 | along every admissible run of the program metadata names the key it is stored under, at every moment, exactly when it does at the start and no completion succeeds under another key |
| Frames.RunKeepsNames | crates/storage/src/fs.rs:690-698 | so it does at the end of such a run |
| Frames.CompletedUnderAnotherKey | crates/storage/src/fs.rs:607-704 | an upload of `a` completed as `b`: head of `b` answers metadata that names `a` |
| ObjectMap.PlainListing | crates/storage/src/list.rs:61-184 | a listing without prefix, delimiter or token is the first keys in byte order with their metadata, as many as a page takes (1000 unless fewer are asked for); truncated exactly when there are more, and then the token is the last key of the page |
| ObjectMap.CompleteKeepsSound | crates/storage/src/fs.rs:639-643 | completing an upload keeps the disk well-formed exactly when the upload's bucket still exists |
| ObjectMap.CompleteWithoutBucket | crates/storage/src/fs.rs:639-698 | otherwise it fails with the body in place and no sidecar, and the staging stays |
| Browsing.BrowsingShowsEveryKey | crates/storage/src/list.rs:52-195 | a client that lists page by page from a store that changes in any way in between is shown every key with the prefix that was there at each request |
| Browsing.BrowsingProgresses | crates/storage/src/list.rs:86-160 | however the bucket changes, the tokens of successive responses strictly increase |
| Browsing.BrowsingEnds | crates/storage/src/list.rs:98-165 | on an unchanged bucket n results take exactly the least p >= 1 with n <= limit * p pages |
| Interleaving.InvAlways | crates/storage/src/fs.rs:134-187 | in every run, overlaps and crashes included, each process's temp file is its own and holds what it has written, and objects/ never outlives meta/ |
| Interleaving.AtomicVisibility | crates/storage/src/fs.rs:134-187 | in every run and after any crash a named file is never partial: it is as at the start or the complete result of one put to that name |
| Interleaving.DropRemovesNoFile | crates/storage/src/fs.rs:318-369 | no step of a bucket deletion removes a file of objects/ or meta/ |
| Interleaving.OnlyDeletesRemove | crates/storage/src/fs.rs:294-494 | in every run, overlaps, bucket deletions and crashes included, a named file and its sidecar stay in place unless a delete of that very key arrives |
| Agreement.KeysAgreeAtRest | crates/storage/src/fs.rs:374-494 | if overlapping requests on a key are compatible and the server dies only while none is between its two files, then whenever none is, the key has a body exactly when it has a sidecar, and size and ETag are those of the body; on other keys anything may happen |
| Agreement.FilesPersist | crates/storage/src/fs.rs:134-187 | files of a key that no request works on or arrives for stay as they are in every run, crashes included |
| Agreement.PutThenReadable | crates/storage/src/fs.rs:374-406 | from any reachable state: a put whose key no other request works on, once it has answered Ok, has its own body and sidecar in place, and they stay until another request for the key arrives, through overlaps on other keys, bucket deletions and later crashes |
| Agreement.DirsWhileWriting | crates/storage/src/fs.rs:318-369 | in every run both directories exist while a put has its temp file in objects/, and a put that has begun its sidecar cannot fail |
| Agreement.PlacedCannotFail | crates/storage/src/fs.rs:318-369 | a put whose body is in place finds its directories and cannot fail, in every run in which no delete of the key overlaps a put of it, and in every run in which no bucket deletion overlaps a put past its rename |
| TempFiles.TempsOwned | crates/storage/src/fs.rs:134-187 | in every run without a crash each temp file in objects/ and meta/ is that of a live request: failing, overlapping and refused puts leave none behind |
| TempFiles.RestIsSound | crates/storage/src/fs.rs:318-494 | after every run without crash in which overlapping requests on one key are compatible, once no put is under way and no request between two files, a well-formed bucket that still has objects/ is well-formed |
| TempFiles.ListingAtRest | crates/storage/src/list.rs:52-195 | so every listing of it answers the page of its keys |
| Serializability.Serializable | crates/storage/src/fs.rs:294-494 | a run in which overlapping requests on one key are compatible and each bucket deletion has the bucket to itself, or sees an object, or some object is never deleted, equals the sequential run of its requests, in the order of their answers (unless two deletes of one key overlap) and in the order of their effects: same bucket, same answers |
| Serializability.SerializableGuarded | crates/storage/src/fs.rs:318-369 | bucket deletions may overlap anything, in any number, while one object stays that no request deletes |
| Serializability.EveryAnswerOnce | crates/storage/src/fs.rs:294-494 | that order lists every answered request once, with its answer, and nothing else |
| Serializability.MapInOrder | crates/storage/src/fs.rs:294-494 | on a well-formed disk such a run gets the answers of the map, as if each request changed it at one moment |
| SerialExactly.GoesWrongExactly | crates/storage/src/fs.rs:294-494 | requests that have not begun, on a well-formed bucket: some schedule ends with answers and a bucket that no order explains exactly when two on one key are incompatible, or a bucket deletion is among them and every object has a delete at work and there is one, or there is none and a put or a second bucket deletion is at work |
| Overlaps.PutsDisagree | crates/storage/src/fs.rs:27-28 | any two puts to one key with different bodies, in whatever chunks, can interleave so that both succeed and body and sidecar disagree |
| Overlaps.PutAndDeleteDisagree | crates/storage/src/fs.rs:468-494 | a put and a delete of one key can leave a sidecar without a body, both having succeeded |
| Overlaps.DisagreeExactly | crates/storage/src/fs.rs:374-494 | requests for a key that have not begun, in whatever company: some schedule without crash brings body and sidecar apart exactly when two of the requests are incompatible |
| Overlaps.ApartIsNotSerial | crates/storage/src/fs.rs:374-494 | a schedule that ends with body and sidecar apart equals no sequence of requests at all |
| Overlaps.CrashAfterRename | crates/storage/src/fs.rs:374-406 | a crash after a put's rename leaves body and sidecar in agreement exactly when the old sidecar described these bytes |
| Overlaps.CrashAfterRemoval | crates/storage/src/fs.rs:468-494 | a crash between a delete's removals leaves a sidecar without a body |
| Overlaps.DropUnderDelete | crates/storage/src/fs.rs:318-369 | a bucket deletion between the removals of the last key's delete is refused but removes objects/, which no order of the two does; every put then fails |
| Overlaps.DropUnderPut | crates/storage/src/fs.rs:374-406 | a put may fail with an I/O error because the bucket is deleted after its first look, as in no order of the two |
| Overlaps.DropUnderDrop | crates/storage/src/fs.rs:294-370 | two deletions of an empty bucket may both succeed, as in no order of the two |
| Overlaps.DropUnderBrokenPut | crates/storage/src/fs.rs:294-370 | the deletion of an empty bucket may be refused because of a put that comes to nothing, as in no order of the two |
| Overlaps.DeletesOutOfOrder | crates/storage/src/fs.rs:468-494 | of two deletes of one key the one that finds nothing may be answered first: the answers are those of the order of effects and not of the order of answers |
| Overlaps.PutFailsLate | crates/storage/src/fs.rs:374-406 | a put whose body is in place fails when its key is deleted and then the bucket |
| Readers.GetAlone | crates/storage/src/fs.rs:408-459 | a read with nothing in between is the read of the sequential store, ranges and errors included |
| Readers.UndisturbedRead | crates/storage/src/fs.rs:408-459 | a read during which no request works on its key answers from one moment, whatever else happens |
| Readers.ReadsWholePuts | crates/storage/src/fs.rs:408-459 | in every run, crashes included, a read answers the metadata of one complete put and the body of one complete put, or those of the start |
| Readers.MisreadExactly | crates/storage/src/fs.rs:408-459 | some schedule makes a read answer the metadata of one body with another exactly when the body in place and those the puts at work deliver are not all the same |
| Alone.AloneIsSequential | crates/storage/src/fs.rs:294-494 | the steps of a request taken without interruption amount to the sequential operation, with the same answer |
| Assembly.PartsAreLatest | crates/storage/src/fs.rs:543-605 | after any history the upload holds the latest successfully posted body of every part number |
| Assembly.AssembledMeaning | crates/storage/src/fs.rs:620-664 | assembly succeeds exactly when all listed parts are there; it joins them in ascending order whatever the order of the list; its size is the sum of theirs, repeated numbers counted as often as listed |
| Assembly.CompleteAfterHistory | crates/storage/src/fs.rs:607-704 | after any history a completion stores the latest bodies of the listed parts in ascending order under an ETag with their count, or fails and changes nothing |
| Assembly.CompleteRejects | crates/storage/src/fs.rs:656-677 | a completion fails, and then with objects and staging as they were, exactly when a listed part is missing |
| UploadZone.SlicesAssemble | crates/ui/src/islands/upload_zone.rs:433-467 | the browser's slices partition every file in order, so their assembly is the file |
| UploadZone.PartSizes | crates/ui/src/islands/upload_zone.rs:433-456 | parts of 8388608 bytes, as many as it takes and at least one; all but the last of that size |
| UploadUrl.CarriesExactlyPlainKeys | crates/ui/src/islands/upload_zone.rs:441-508 | the address built from a bucket, a key and a query reaches the handler with all three as they were exactly when the key is plain; for any other key nothing arrives, or a different key |
| UploadUrl.PlainKeyMeaning | crates/ui/src/islands/upload_zone.rs:441-508 | which keys are plain, by positions in the key |
| StrayAddresses.EscapedKeys | crates/server/src/main.rs:267 | a key with escapes arrives decoded, or not at all if that is no text |
| StrayAddresses.RemovedBytes | crates/ui/src/islands/upload_zone.rs:441-508 | tabs and line breaks in a key make no difference |
| StrayAddresses.Backslashes | crates/ui/src/islands/upload_zone.rs:441-508 | a backslash in a key is a slash |
| StrayAddresses.DotDisappears | crates/ui/src/islands/upload_zone.rs:441-508 | a segment `.`, in any spelling, disappears, and leaves a slash at the end |
| StrayAddresses.DoubleDotClimbs | crates/ui/src/islands/upload_zone.rs:441-508 | a segment `..`, in any spelling, takes the one before it away, and leaves a slash at the end |
| StrayAddresses.QueryInKey | crates/ui/src/islands/upload_zone.rs:441-508 | what follows a `?` in the key becomes the query, up to a `#` |
| UploadHandler.QueryReads | crates/server/src/ui/upload.rs:83-102 | a query of any fields: each of the three names may be given once, in any order, the part number as an i32; other names are ignored, anything else refused |
| UploadHandler.RepeatedName | crates/server/src/ui/upload.rs:83-102 | a name given twice is refused |
| UploadHandler.FormDecodesEachByte | crates/server/src/ui/upload.rs:113 | form text byte by byte: a plus is a space, an escape its byte |
| UploadHandler.PartParams | crates/server/src/ui/upload.rs:83-102 | the handler reads from a part's query the upload id and the number the browser wrote, up to the largest i32 |
| UploadHandler.ActionParams | crates/server/src/ui/upload.rs:83-102 | and from the queries of complete and abort the upload id and the action |
| PartList.ListReads | crates/server/src/ui/upload.rs:138-150 | the server's JSON reader gets back every list of i32 that the browser writes |
| PartList.ReadsOnlyLists | crates/server/src/ui/upload.rs:138-150 | and whatever it reads as a list is, but for white space, the text of that list |
| PartList.SurroundedListReads | crates/server/src/ui/upload.rs:138-150 | a list is read with white space around it and with nothing else after it |
| Decimals.ParsesExactly | crates/server/src/ui/upload.rs:95-97 | exactly which texts are i32 numbers |
| PartList.ListFits | crates/server/src/ui/upload.rs:137 | the list of the numbers 1 to n fits the server's limit exactly for n up to 165668 |
| UploadZone.PostParts | crates/ui/src/islands/upload_zone.rs:451-486 | the loop slices and posts part after part until one fails, as `PostFrom` says; the storage stays at rest between requests |
| UploadZone.UploadMultipart | crates/ui/src/islands/upload_zone.rs:421-517 | the requests in the order of the source, each through address and handler, amount to `Upload`: for a plain key stored objects end as they were or the key holds exactly the file, and success is reported only then; the files of any other key are untouched |
| UploadZone.PlainUpload | crates/ui/src/islands/upload_zone.rs:421-517 | a plain key: whatever messages are lost, stored objects end as they were or the key holds exactly the file; success is reported exactly when nothing is lost, the bucket exists, the key can be encoded and there are at most 165668 parts, and then the file is stored; after a failed part an abort that arrives restores the disk |
| UploadZone.UploadedReads | crates/ui/src/islands/upload_zone.rs:421-517 | after a reported success head and get answer the whole file under the key, type, digest and time of the upload |
| UploadZone.PlainPostStores | crates/server/src/ui/upload.rs:183-197 | a request that is no multipart step stores its body under the type it resolved to |
| UploadZone.StrayUpload | crates/ui/src/islands/upload_zone.rs:441-508 | any other key: body and sidecar of the key are never touched, on any disk and any network |
| UploadZone.StoredExactlyWhen | crates/ui/src/islands/upload_zone.rs:421-517 | with nothing lost the key ends holding the file exactly when it is plain and the file has at most 165668 parts |
| UploadZone.HashUpload | crates/ui/src/islands/upload_zone.rs:441-508 | a key `k#rest`: success is reported and `k` ends holding the text of the part list |
| UploadZone.HashExample | crates/ui/src/islands/upload_zone.rs:441-508 | at `a#b`: `a` is overwritten, `a#b` is untouched, success is reported |
| UploadZone.OnePartTooMany | crates/server/src/ui/upload.rs:137-150 | a file of 165669 parts is refused with nothing lost, and all its parts stay in staging |
| UploadZone.FileSurvivesOthers | crates/ui/src/islands/upload_zone.rs:451-512 | the completed object is the file also when any other requests ran in between |
| S3Adapter.RangeConsistent | crates/server/src/s3_impl.rs:139-179 | body, Content-Length and Content-Range tell of one window of the object, except exactly for suffix 0 of a non-empty object |
| S3Adapter.GetHeaders | crates/server/src/s3_impl.rs:124-180 | an answered GET has ETag, type and date of the entry, status 206 exactly when a Content-Range is sent and 200 otherwise, and without a range the whole object |
| S3Adapter.CastKeeps | crates/server/src/s3_impl.rs:146 | the cast of sizes to i64, for every u64 |
| S3Adapter.RangeHeader | crates/server/src/s3_impl.rs:152-176 | a Content-Range is sent exactly when the object has requested positions, and names exactly those |
| S3Adapter.DeleteObjects | crates/server/src/s3_impl.rs:214-250 | the loop performs the deletions one by one and collects its two reports |
| S3Adapter.BatchDeletes | crates/server/src/s3_impl.rs:223-242 | afterwards every listed key is absent and every other entry as it was |
| S3Adapter.BatchReports | crates/server/src/s3_impl.rs:226-241 | a key is reported deleted, present or absent, unless it cannot name an object |
| S3Adapter.ReportsAreComplete | crates/server/src/s3_impl.rs:226-241 | the two reports between them list every mention of every key, each refusal with its reason |
| S3Adapter.BatchOrderFree | crates/server/src/s3_impl.rs:214-250 | order and repetition of the list do not matter to the final state |
| S3Adapter.BatchAgain | crates/server/src/s3_impl.rs:214-250 | a second run changes nothing and reports the same |

## Left out

- HTTP, axum, s3s, Leptos, the async runtime and the command line: plumbing around libraries.
- Requests that leave `/ui/upload` because their key has dot segments: other routes answer them; here they are refused without effect.
- Replacement of malformed UTF-8 in query values: the model keeps the bytes, which are no id, number or action either way.
- The single-request upload of files up to 8 MiB, which builds its address from the raw key in the same way.
- MD5, HMAC and SHA-256 and the signature chain of presigned URLs: digests are symbols; chunked hashing is hashing of the concatenation.
- Base64 of tokens and JSON of sidecars: taken as lossless; a token is its key or malformed, a sidecar its metadata or torn.
- Limits of the real disk: permissions, full disks, fsync, and the 255-byte limit on a sidecar's name, which a key of 251 to 255 encoded bytes exceeds; steps fail only where the model says so.
- Bucket-name validation, content-type sniffing, `list_buckets`, `head_bucket` and the mapping of errors to HTTP codes: one-branch facts.
- Interleaving of create_bucket, of the multipart operations and of listings with the others: the step machine has puts, deletes and bucket deletions of one bucket, and reads beside it.
- SerialExactly.GoesWrongExactly: requests for the empty key, which never succeed, are not among the requests.
- Readers.MisreadExactly: is about keys other than the empty one, which no object has.
- The sizes in which files are read back: a part is read as one chunk.
- The browser's floating-point sizes and u32 part counts: file sizes are naturals, exact below 2^53 bytes.
- The cast of a negative max-keys to a huge one, which the clamp turns into 1000 all the same.
- Progress signals and the rest of the user interface.
