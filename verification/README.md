# shardr: identities, storage drivers and publication, proved

shardr names a model artifact by the digest of its manifest, spreads it over BitTorrent under an
infohash computed from that manifest, and keeps the files in a content-addressed store.  This project
models those computations, the two storage drivers between the torrent engine and the store, and the
concurrent imports that publish into it; what it proves is listed below.  Everything is Dafny; verify
it with `dafny verify dfyconfig.toml`.

SHA-256 and SHA-1 are parameters, known only by the length of their result, and no theorem assumes
that they have no collisions.  Where a result rests on that, it says "equal, or here is a collision":
`Merkle.RootBinds` finds the two colliding inputs inside the two trees, and the store keeps a history
variable, `clash`, that is set only when two concrete inputs of one digest have met.  A byte string is
a sequence of characters, one a byte.

## What is modelled

**Torrent identity.**  `Merkle` is the padded tree of BEP 52 ("metainfo files"), as the loops write it
and as a recursive tree; `Bencode` the encoder of BEP 3 ("bencoding") with a reader of its own;
`FileTree` the nested file tree; `Paths`, `Manifests`, `Validate` names, the canonical file order and the
manifest validator; `Torrent` the two constructions of the info dictionary; `InfoReader` what a reader
finds in its bytes; `Identity` what equal info bytes mean; `Seal` sealing, reconstruction and the binding
check.

**Storage drivers.**  `BlobStore` is the content-addressed store between two calls.  `ForeignLayout`
and `ForeignState` hold the geometry and the per-file states of a BitTorrent v1 download,
`ForeignDriver` the driver itself as a class whose piece methods update it in place, `ForeignOpen`
the checks and the layout at opening, `ForeignRuns` arbitrary runs under an engine that makes any
calls in any order, and `ForeignFetch` a whole download from opening to the end of the wait.  `CasDriver`
is the driver for shardr's own v2 torrents, and `SwarmFetch` the fetch that opens it for a manifest and
waits until every file is sealed.  A part file is a byte string that is filled up with zeros when it is
written past its end.  Both drivers are also shown to finish: an engine is called honest about some
content when it writes only that content's bytes, and marks a piece only once it has written all of it.

**Publication.**  `Index` is the index merge, `ImportProtocol` any number of imports working on one
store in small steps under the two levels of locks, `ImportSafety` the invariant of every reachable
state, `ImportPrograms` the steps of a local and of a BitTorrent import, `ImportRuns` what the invariant
means (what is visible, what is verified, what concurrent imports keep), `ImportEffects` what an import
that has reached its end leaves behind, and `ImportLocks` that the locks never bring anything to a halt.
`Jobs` is the publication of job states by workers and late progress ticks.

**Grammars.**  `Ref` parses references and chooses index members; `Lockfile` parses and prints
`runtime/llama.lock`; `Quant` derives the quant of an import.

`Basics` and `Sorting` hold the byte order, hexadecimal text and a sort; `Sorting.Sort` is a stable
insertion sort that stands for Go's library sorts.

## What was found

- `Manifests.PartOverflowCycle`: `fileOrder` subtracts two part numbers, and for parts far enough
  apart the difference leaves int64 and the order runs in a circle.  `Manifests.PartOrderExact` says
  exactly when two weights files compare by part; for parts between 0 and 2^63-2 there is no overflow
  (`Manifests.FileOrderIsKeyOrder`).
- `Manifests.ConvergesExactly`: a comment calls the comparator total, but files of one kind with equal
  keys tie, and then the sealed order is the order of arrival.  The order of arrival plays no part
  exactly when no two different files have one key.  `Validate.TiedManifest` has a tie that gets
  through: one content under two weights names.  Both arrangements are accepted, and they are different
  manifests.
- `ForeignOpen.Open`: a v1 torrent that names a path twice is opened, and nothing before it rejects
  such a list, which comes from a community torrent.  Every stream position has a place of its own and
  every piece its bits exactly when no later entry, empty or not, reuses the path of a non-empty file.
  `ForeignOpen.OpenTwice`: two files of one name share their bytes and their bitmap, so that marking one
  piece reports the other.  `ForeignOpen.OpenEmptied`: an empty file of the same name takes the bitmap
  away, and the piece is never reported.
- `CasDriver.Open`: the v2 driver joins paths, and `["a/b"]` and `["a", "b"]` join to one.  Each piece of
  a pinned file has a bit of its own exactly when no pinned joined path belongs to two non-empty files.
  `CasDriver.OpenJoined` opens such a tree: two pieces share a bit, or one has none, and marking it
  indexes past the bitmap, which panics.  That input does not arrive: every registration
  (`internal/swarm/swarm.go:324`, `internal/swarm/fill.go:126` and `283`) is for the reconstruction of a
  validated manifest, and for those `SwarmFetch.AcceptedOpens` proves the names distinct.

## Model

| member | source | states |
|---|---|---|
| Merkle.NextPow2 | internal/artifact/torrent.go:112-121 | the doubling loop ends at 2 to the least height that covers n |
| Merkle.MerkleLeaves | internal/artifact/torrent.go:100-110 | one hash for every 16 KiB block, the last block short |
| Merkle.LevelEntry | internal/artifact/torrent.go:90-96 | entry i after j halvings is the recursive tree over the i-th run of 2^j leaves |
| Merkle.MerkleRoot | internal/artifact/torrent.go:80-98 | the halving loop computes the root of the recursive zero-padded tree, and SHA-256 of nothing for no data; RootClimbs says what that root is |
| Merkle.RootClimbs | internal/artifact/torrent.go:80-98 | the root tops rows that start with the hashes of the 16384-byte blocks and 32 zero bytes up to the least width that halves to one; entry i of the next row is the hash of 64 bytes, entry 2i first and entry 2i + 1 last |
| Merkle.SmallRoots | internal/artifact/torrent.go:82-96 | the roots of no bytes, of one block, and of two: SHA-256 of the first block's hash and then the second's |
| Merkle.PieceLayerHashes | internal/artifact/torrent.go:127-167 | panics exactly when the piece length is no power-of-two run of blocks, and otherwise returns the piece layer |
| Merkle.PieceLayerEntry | internal/artifact/torrent.go:123-167 | a file longer than a piece has exactly ceil(length / piece length) layer hashes, and the i-th is the subtree root of piece i's bytes alone |
| Merkle.PieceLayerFoldsToRoot | internal/artifact/torrent.go:123-167 | the layer, filled up with the hash of an all-zero subtree of its height and reduced pairwise, is the file's merkle root |
| Merkle.TreeBinds | internal/artifact/torrent.go:90-96 | two rows of leaves with one root are equal, or two inner-node inputs collide |
| Merkle.RootBinds | internal/artifact/torrent.go:80-98 | two files of one length and one merkle root are equal, or two inputs hashed on the way to their roots collide |
| Bencode.EncodeValue | internal/artifact/torrent.go:33-64 | the encoder as written, over lists and over maps whose keys come in any order, gives the canonical bytes |
| Bencode.CollectedKeysSort | internal/artifact/torrent.go:51-55 | sorting the keys of a map gives one list, whatever order they were collected in |
| Bencode.ReadBack | internal/artifact/torrent.go:27-64 | a reader of integers, counted strings, lists and dictionaries, written without the encoder, gives back every encoded value and what follows it |
| Bencode.EncodeUnique | internal/artifact/torrent.go:27-64 | the encoder is injective and prefix-free: what a byte string starts with, and where that ends, is unique |
| Bencode.EncodeInjective | internal/artifact/torrent.go:27-64 | equal bytes exactly for equal values |
| FileTree.InsertSpec | internal/artifact/torrent.go:322-337 | inserting a path that meets no path of the tree succeeds, adds that file and changes no other |
| FileTree.TreeFaithful | internal/artifact/torrent.go:322-337 | building the tree of separate paths never reaches the duplicate-path panic, and reading it back gives exactly the listed files |
| FileTree.TreeIdentity | internal/artifact/torrent.go:322-337 | two lists of files build one tree exactly when they hold the same files, in whatever order |
| Paths.ValidateFileName | internal/artifact/validate.go:86-100 | accepts exactly the names outside manifest/ whose segments are all plain, and tells the reserved names from the bad ones |
| Manifests.PartOrderExact | internal/artifact/validate.go:232-236 | weights files compare by part exactly when the difference of their parts is an int64 |
| Manifests.PartOverflowCycle | internal/artifact/validate.go:232-236 | three parts for which fileOrder runs in a circle |
| Manifests.KindsInOrder | internal/artifact/validate.go:259-281 | a file of an earlier kind sorts before one of a later kind: config, weights, weights.aux, tokenizer, chat-template, adapter, runtime-config, code |
| Manifests.UnknownKinds | internal/artifact/validate.go:259-281 | the kinds of no place in that order are exactly the unknown ones |
| Manifests.WithinKind | internal/artifact/validate.go:232-249 | what decides within a kind: for weights no part before any part, lower parts first, then digests; names, runtimes, or code role and name, or digests for the others |
| Manifests.FileOrderIsKeyOrder | internal/artifact/validate.go:226-281 | for parts between 0 and 2^63-2 fileOrder is the lexicographic order of (rank, part, text, name), so a total preorder |
| Manifests.SortFilesIsCanonical | internal/artifact/artifact.go:93-97 | SortFiles returns a permutation that passes the validator's adjacent-order check |
| Manifests.SortFilesConverges | internal/artifact/artifact.go:93-97 | without ties the sealed order does not depend on the order of arrival |
| Manifests.ConvergesExactly | internal/artifact/artifact.go:93-97 | every arrangement of some files is sorted into one list exactly when no two different files have one key |
| Manifests.SortFilesFixed | internal/artifact/validate.go:181-184 | a list that passes the order check is left as it is by SortFiles |
| Validate.CheckParts | internal/artifact/validate.go:207-219 | the parts check accepts exactly the arrangements of 1..n |
| Validate.FindClash | internal/artifact/validate.go:198-206 | the prefix loops find a clash exactly when some name is a directory on the way to another |
| Validate.ValidateManifest | internal/artifact/validate.go:108-221 | accepts exactly the manifests that break none of the rules, and a refusal names a rule that is broken |
| Validate.TiedManifest | internal/artifact/validate.go:222-281 | two arrangements of the same three files are both accepted, each is its own sealed order, and they differ |
| Torrent.LadderIsPowerOfTwo | internal/artifact/torrent.go:172-188 | every rung of the ladder is a power of two, at least 16 KiB, and a power-of-two run of blocks, so the piece-length panic is unreachable |
| Torrent.DecodeRootMeans | internal/artifact/torrent.go:292-297 | decoding a pinned root into 32 bytes takes up to 64 hexadecimal digits of either case, in pairs, leaves zeros behind fewer, and panics exactly when the first 66 are all digits |
| Torrent.BuildTorrentFromManifest | internal/artifact/torrent.go:288-320 | what the manifest alone determines, with its error and its panics; InfoReader.InfoReads says what is in those bytes |
| Torrent.BuildTorrent | internal/artifact/torrent.go:208-278 | succeeds exactly when every content has the pinned size and root and the manifest's own construction succeeds; then info bytes, infohash, name, piece length and size are those of BuildTorrentFromManifest, plus the piece layers |
| InfoReader.InfoReads | internal/artifact/torrent.go:288-337 | reading an accepted manifest's info bytes finds exactly the keys "file tree", "meta version" with 2, "name" and "piece length"; under each file's path exactly its size as "length" and its 32 root bytes as "pieces root"; the embedded manifest likewise and no other file; the rung of the ladder, the name and the infohash are spelled out |
| Identity.AcceptedSeparate | internal/artifact/validate.go:86-206 | the names of an accepted manifest are good paths none of which passes through another |
| Identity.ManifestTree | internal/artifact/torrent.go:288-337 | for an accepted manifest neither construction panics or fails, and the tree is that of the files and the manifest/sha256-hex entry |
| Identity.TotalIsSum | internal/artifact/torrent.go:290-306 | the running total is the 64-bit sum of all sizes, the manifest's included |
| Identity.InfoIdentity | internal/artifact/torrent.go:288-320 | two accepted manifests have equal info bytes exactly when they have the same names, sizes and roots and the same embedded manifest |
| Seal.ValidateDistribution | internal/artifact/validate.go:318-336 | accepts exactly records of the right version with canonical digests, a btmh infohash and a power-of-two piece length of 16 KiB or more |
| Seal.Reconstruct | internal/swarm/recon.go:88-112 | the identity derived from a manifest without its content: for an accepted manifest info bytes that read as InfoReads says, the hash of those bytes as infohash, and the manifest's own digest |
| Seal.RecordBinds | internal/swarm/recon.go:119-130 | a record made from one manifest passes the check of another only if the manifests have the same bytes, and the same info dictionary, or SHA-256 collides on them |
| Seal.InfohashBinds | internal/artifact/torrent.go:288-320 | accepted manifests of one infohash have one table of names, sizes and roots, or their info bytes collide |
| Seal.ContentBinds | internal/artifact/torrent.go:208-278 | between two sealed artifacts of one infohash every file has a namesake of the same content, or a collision is at hand in the info bytes or in the two merkle trees of that file |
| Seal.DerivedRecordPasses | internal/swarm/fill.go:439-455 | the record an import derives from an accepted manifest passes CheckRecord and ValidateDistribution |
| Seal.SpecsCoverTree | internal/swarm/recon.go:96-100 | the storage driver is registered for exactly the files of the info dictionary |
| Seal.Seal | internal/artifact/artifact.go:125-166 | never panics; succeeds exactly when the sorted manifest is acceptable and every content matches its pin; the info bytes read as InfoReads says, the piece-layers blob reads as a dictionary with the layer of every content longer than a piece and no other, and the record passes both gates and equals the one derived without content |
| Seal.LayersExactly | internal/artifact/torrent.go:255-273 | the keys of the piece-layers dictionary are exactly the roots of the contents longer than a piece, the embedded manifest included, and each entry is the layer of such a content |
| Seal.LayerHoldsPieces | internal/artifact/torrent.go:255-273 | an entry has 32 bytes for each piece, in order: the padded tree's root over that piece alone, which for a full piece is the root of a file with its bytes |
| Seal.LayerFoldsToKey | internal/artifact/torrent.go:255-273 | every piece-layers entry folds back to the root it is filed under |
| Basics.LessMeans | internal/artifact/validate.go:226-281 | the byte order of Go's strings: a common beginning, and then a smaller byte or the end |
| Basics.DigestOfInjective | internal/artifact/artifact.go:82-87 | two byte strings with one canonical digest are equal or collide |
| BlobStore.Store.Put | internal/cas/cas.go:157-218 | succeeds exactly when the bytes hash to the expected digest, stores them once, changes no stored blob, and records a collision when it meets one |
| ForeignLayout.FilesInRange | internal/swarm/foreign.go:231-242 | the files that overlap a range, exactly, as a contiguous run of the list |
| ForeignLayout.PieceBitExact | internal/swarm/foreign.go:245-255 | a file overlaps piece i exactly when bit i - begin/pl exists, and pieceBits then names that bit alone, so no range guard ever fires |
| ForeignState.ReadBack | internal/swarm/foreign.go:433-540 | after a full write every position of its range is readable, with the written byte or the sealed blob's |
| ForeignState.StoreGrowth | internal/swarm/foreign.go:508-523 | whatever other writers put into the store leaves the driver in order and every readable byte as it is |
| ForeignDriver.ForeignTorrent.WriteAt | internal/swarm/foreign.go:433-485 | succeeds exactly inside the stream over files that have not failed; unsealed positions get the bytes, sealed ones and all others keep theirs, zero fill aside |
| ForeignDriver.ForeignTorrent.ReadAt | internal/swarm/foreign.go:495-540 | returns the longest readable stretch, and reports an error unless it is non-empty and full or ends with the stream |
| ForeignDriver.ForeignTorrent.SealLocked | internal/swarm/foreign.go:576-635 | seals exactly when size and SHA-256 are as anchored and so is the SHA-1 of "blob ", the decimal length, a zero byte and the content; then under the computed digest; a refusal says which, and drops a part of the right length only |
| ForeignDriver.ForeignTorrent.MarkFile | internal/swarm/foreign.go:547-565 | the inner loop sets the one bit of the piece, with the seal when it was the last |
| ForeignDriver.ForeignTorrent.MarkComplete | internal/swarm/foreign.go:542-568 | fails exactly when the piece is the last of a file whose bytes fail the gate; otherwise the piece joins the complete set that explains every bitmap, and no readable byte changes |
| ForeignDriver.ForeignTorrent.MarkNotComplete | internal/swarm/foreign.go:637-655 | the piece leaves the complete set; nothing sealed or failed is undone and no byte changes |
| ForeignDriver.ForeignTorrent.Completion | internal/swarm/foreign.go:660-681 | an error exactly when some file has failed, and otherwise complete exactly for the pieces in the complete set, whose bits are set in every file they overlap |
| ForeignDriver.ForeignTorrent.LookSealedWanted | internal/swarm/foreign.go:313-348 | success exactly when every wanted file is sealed and no file has failed |
| ForeignDriver.ForeignTorrent.Close | internal/swarm/foreign.go:262-279 | parts go, sealed and failed files stay as they are |
| ForeignOpen.CheckPath | internal/swarm/storage.go:548-558 | accepts exactly non-empty lists of plain segments |
| ForeignOpen.RefusalMeans | internal/swarm/foreign.go:178-209 | an empty anchored file is refused exactly when the empty content is not what its anchor describes, git object spelled out; any other is refused only if no content of its length is, and once taken passes the seal gate with exactly the content the anchor describes |
| ForeignOpen.Open | internal/swarm/foreign.go:170-228 | refuses exactly when an entry is refused; lays the non-empty files end to end under their anchors, with no bit set and sealed only where the store has the anchored digest; meets the driver's invariant, and gives each stream position a place and each piece its bits, exactly when no later entry reuses a non-empty file's path |
| ForeignOpen.OpenTwice | internal/swarm/foreign.go:170-228 | a torrent that names a file twice is opened, its two positions share a place, and its two pieces are reported together |
| ForeignOpen.OpenEmptied | internal/swarm/foreign.go:170-228 | a torrent that names a file and then an empty file alike is opened, and its piece is never reported, whatever bits are set |
| ForeignState.SharedPlace | internal/swarm/foreign.go:433-540 | of two positions in one place, writing the one changes what is read at the other |
| ForeignRuns.SealedIsVouched | internal/swarm/foreign.go:576-635 | a file sealed by download has a blob of its length, under its SHA-256, that matches every digest of its anchor, the git id as the SHA-1 of "blob ", decimal length, zero byte and content |
| ForeignRuns.Drive | internal/swarm/foreign.go:433-681 | over any calls in any order, other writers of the store in between, the invariant holds, nothing sealed or failed is undone, and until a failure the complete pieces are those marked and not retracted; an engine honest about a content that the anchors describe makes no file fail, and a file all of whose pieces are marked is sealed with its stretch of that content |
| ForeignRuns.WriteThenRead | internal/swarm/foreign.go:433-540 | with sealed blobs as long as their files, a read after a successful write is full and returns the written bytes, or the sealed blobs' |
| ForeignFetch.Fetch | internal/swarm/foreign.go:170-681 | a torrent whose entries are what its anchors describe, served honestly: it opens, no file fails, and once every piece is marked every file is in the store byte for byte and the wait for any of them is over |
| CasDriver.CasTorrent.SpanFor | internal/swarm/storage.go:250-257 | every piece has exactly one owner, and the panic is unreachable |
| CasDriver.CasTorrent.WriteAt | internal/swarm/storage.go:396-420 | refused exactly for sealed, unpinned and failed files, which it leaves alone; otherwise the part of the piece's file has the bytes at the piece's place in the file, its own bytes elsewhere, zeros below where it was shorter, and nothing else changes |
| CasDriver.CasTorrent.ReadAt | internal/swarm/storage.go:375-394 | returns the bytes at the piece's place in the file, from the sealed blob or the part as far as it goes |
| CasDriver.WriteThenRead | internal/swarm/storage.go:375-420 | what a write that is not refused has written is read back in full and without error |
| CasDriver.CasTorrent.SealLocked | internal/swarm/storage.go:474-494 | seals exactly when the part hashes to the pin, and deletes the part either way |
| CasDriver.CasTorrent.MarkComplete | internal/swarm/storage.go:427-472 | records the piece; the last one seals the file exactly when its part hashes to the pin and fails it otherwise; a sealed file is verified once every piece is |
| CasDriver.CasTorrent.MarkNotComplete | internal/swarm/storage.go:496-514 | the piece leaves the complete set, nothing sealed or failed is undone |
| CasDriver.CasTorrent.Completion | internal/swarm/storage.go:517-534 | unknown for unpinned files, an error for failed ones, and otherwise the piece's own standing |
| CasDriver.CasTorrent.LookSealed | internal/swarm/storage.go:324-345 | a failure of any file first, then whether as many files are sealed as asked |
| CasDriver.CasTorrent.Close | internal/swarm/storage.go:262-279 | unfinished parts go, everything else stays |
| CasDriver.Open | internal/swarm/storage.go:183-241 | refuses exactly non-canonical paths, and never panics on a padded torrent; the first states are as pinned, store hits of one piece complete at once; meets the driver's invariant exactly when the joined paths of non-empty files differ, and gives every pinned piece a bit of its own exactly when those of pinned files do |
| CasDriver.OpenJoined | internal/swarm/storage.go:183-241 | a tree with two paths that join alike is opened; the first pieces of the two files share a bit, and with a second file of one piece the first file's second piece has none |
| CasDriver.Drive | internal/swarm/storage.go:375-534 | over any calls in any order, other writers of the store in between, the counters, bitmaps and seals agree, nothing sealed or failed is undone, and every sealed file's pinned digest names a blob that hashes to it; a file that is served honestly from a content with its pinned digest never fails, and is sealed with that content once its pieces are marked |
| SwarmFetch.AcceptedOpens | internal/swarm/recon.go:88-112 | the paths in the tree of an accepted manifest are canonical, their joined names differ, and each is registered |
| SwarmFetch.Fetch | internal/swarm/fill.go:283-309 | of an accepted manifest the driver always opens in order, and however the engine calls it the wait for as many files as are registered ends exactly when each of them is sealed; then the manifest and all its files are in the store under their digests; and an engine that serves all of them honestly and marks every piece does end it |
| Index.ValidateMembers | internal/artifact/validate.go:295-313 | accepts exactly non-empty lists of canonical digests under distinct legal quants |
| Index.UpsertMember | internal/artifact/artifact.go:171-181 | the loop and sort compute the merge that the lemmas below are about |
| Index.UpsertLists | internal/artifact/artifact.go:168-181 | replaces the member of one quant, keeps every other, and leaves the list strictly sorted by quant |
| Index.ListsUnique | internal/artifact/artifact.go:168-181 | an index is determined by its members |
| Index.UpsertsCommute | internal/artifact/artifact.go:168-181 | upserts of distinct quants commute |
| Index.ReimportIdempotent | internal/importer/importer.go:292-294 | merging the same members again changes nothing |
| ImportSafety.StoreStep | internal/cas/cas.go:188-211 | a Put that looks and then renames, with others in between, keeps every blob under its name and unchanged, or records a collision |
| ImportSafety.PutKeeps | internal/cas/cas.go:157-218 | every step of a Put keeps the invariant, whatever the other processes do |
| ImportSafety.LinkKeeps | internal/cas/state.go:66-79 | loading, changing and saving the link map under the state lock keeps the invariant and links only what is complete |
| ImportSafety.MergeKeeps | internal/importer/importer.go:284-312 | reading, merging, checking, storing and publishing an index under the namespace lock keeps the invariant |
| ImportSafety.StopKeeps | internal/importer/importer.go:284-288 | an error or a stop between any two steps keeps it too |
| ImportSafety.EveryState | internal/importer/importer.go:246-312 | the invariant holds in every state of every run of any number of imports |
| ImportPrograms.ImportMayStart | internal/importer/importer.go:246-312 | Import of accepted manifests puts every file under its pinned digest, and the manifest and record, before it links or publishes them |
| ImportPrograms.BTMayStart | internal/swarm/fill.go:249-323 | whatever ImportBT is served, it links a manifest only past its gates, and after the manifest, every file it names and the derived record are in the store |
| ImportEffects.ImportLeaves | internal/importer/importer.go:246-312 | an Import that reaches its end leaves every content, manifest, layers and record in the store, each manifest linked to its record, and in the namespace's index a member for each artifact, the last of each quant, with its digest, quant, format and revision; links and members stay until another import replaces them |
| ImportEffects.BTLeaves | internal/swarm/fill.go:249-323 | an ImportBT past its gates that reaches its end leaves the manifest under its pin, every file it names, the layers, a record binding the three under the manifest's own infohash, and the link to it |
| ImportEffects.BTRefuses | internal/swarm/fill.go:254-275 | an ImportBT that does not get past its gates puts the manifest and does nothing else |
| ImportEffects.DoneThenTodo | internal/importer/importer.go:246-312 | in every state of a run a process has completed a beginning of its program, and has the rest before it unless it has stopped |
| ImportLocks.NoDeadlock | internal/importer/importer.go:284-312 | in every state of a run in which some import has work left, some import can take its next step |
| ImportLocks.CanFinish | internal/importer/importer.go:284-312 | every run can be continued until no import has any work left and every lock is free |
| ImportRuns.BlobsForever | internal/cas/cas.go:157-218 | over any run every visible blob hashes to its name and never disappears, and never changes unless a collision was met |
| ImportRuns.StepEffect | internal/cas/state.go:165-183 | no step touches more than one namespace key, and that one only to commit the members of one import |
| ImportRuns.NothingLost | internal/importer/importer.go:284-312 | each namespace's index is present, valid and strictly sorted, and holds every quant ever committed there with the member of its last committer |
| ImportRuns.MergeNeverRefusesIndex | internal/importer/importer.go:366-394 | the index read at the start of a merge is never missing, unreadable or invalid |
| ImportRuns.PublishedMembers | internal/importer/importer.go:292-309 | an import that has published, and still holds its lock, finds each of its members, the last of each quant, in the namespace's index |
| ImportRuns.VisibleIsWhole | internal/importer/importer.go:246-312 | in every state of a run the index of each namespace decodes to valid members, and every listed or linked manifest decodes to an accepted one all of whose file digests name blobs |
| ImportRuns.VerifyAll | internal/cas/cas.go:285-356 | reports exactly the blobs that do not hash to their name, the referenced digests without a blob, sorted, and whether a link is malformed |
| ImportRuns.CanonicalNames | internal/cas/cas.go:285-356 | the digests that VerifyAll does not call malformed are those that NormalizeDigest accepts |
| ImportRuns.NothingMissing | internal/cas/cas.go:285-356 | in every state of a run every digest that the state files hold names a blob, and every blob hashes to its name |
| ImportRuns.VerifyRun | internal/cas/cas.go:285-356 | VerifyAll has nothing to report, between any two steps |
| Jobs.NeverBack | internal/api/server.go:125-129 | whatever the interleaving, a visible job stays visible, never goes back, and a terminal instance is never replaced |
| Jobs.OneStage | internal/api/server.go:1267-1314 | each action moves a visible job along waiting, fetching, done or failed, one stage at a time |
| Jobs.WorkerKeeps | internal/api/server.go:678-729 | each step of the worker, the terminal flag and the lock included, keeps the invariant |
| Jobs.TickKeeps | internal/api/server.go:1276-1286 | each step of a progress call keeps it, and none publishes once the flag is set |
| Jobs.TerminalIsTrue | internal/api/server.go:1287-1314 | a job is seen done or failed exactly as its worker ended, with that report and the total it was created with, all files done unless a fill has failed |
| Jobs.CanEnd | internal/api/server.go:1276-1314 | whatever has happened, a job can still end, and is then seen done or failed |
| Jobs.ProgressIsReported | internal/api/server.go:1267-1286 | the numbers of a running job are those it was created with, or a pair that some progress call has reported |
| Jobs.ProgressIsShown | internal/api/server.go:1276-1286 | a progress call that gets through shows its numbers |
| Ref.ParseExact | internal/ref/ref.go:59-134 | the parser accepts exactly the spellings of legal components within the length limit |
| Ref.ParseRendered | internal/ref/ref.go:59-134 | every spelling of legal components is parsed back into them, names lowered and tags as written |
| Ref.BadSuffixRefused | internal/ref/ref.go:68-83 | what follows an @ and is no canonical digest is refused as such, or the whole for its length |
| Ref.NoSelectorRefused | internal/ref/ref.go:115-117 | a reference with neither selector nor digest is refused for that |
| Ref.BannedTagRefused | internal/ref/ref.go:110-114 | a banned tag is refused as banned, with a legal quant behind it too |
| Ref.CanonicalRoundTrip | internal/ref/ref.go:119-133 | parsing the canonical form of an accepted reference gives the identical reference |
| Ref.RenderInjective | internal/ref/ref.go:119-133 | two legal tuples with one canonical form are the same tuple |
| Ref.RenderShort | internal/ref/ref.go:60-62 | no canonical form is longer than 429 bytes, so the length check never rejects one |
| Ref.LongestRef | internal/ref/ref.go:60-62 | 429 bytes are reached |
| Ref.DecideAtom | internal/ref/ref.go:297-312 | the loop accepts exactly the namespaces and names of the grammar, by their length limit |
| Ref.DecideTagShape | internal/ref/ref.go:280-295 | the loop accepts exactly the tags of the grammar |
| Ref.DecideQuant | internal/ref/ref.go:194-223 | the loops accept exactly the reserved word and the short lower-case names with a known prefix and a digit |
| Ref.DecideDigest | internal/ref/ref.go:227-237 | the loop accepts exactly "sha256:" and 64 lower-case hexadecimal digits |
| Ref.NormalizeDigest | internal/ref/ref.go:242-254 | accepts exactly canonical digests and bare hexadecimal ones, and keeps the hexadecimal part |
| Ref.Resolve | internal/ref/ref.go:331-369 | an exact quant first, then a unique extension, then the pin; otherwise no member, or all candidates sorted |
| Lockfile.Parse | internal/llamalock/llamalock.go:90-184 | the line loop computes the scan that ParseExact is about, and refuses what it refuses |
| Lockfile.ParseExact | internal/llamalock/llamalock.go:86-184 | a text is accepted as a lock if and only if the lock is complete, with a b-release, hexadecimal digests and the canonical URLs of its own ref, and the lines that are not blank are exactly its three keys, once each in any order, and then the two sections in either order, each its header and its two keys once |
| Lockfile.Format | internal/llamalock/llamalock.go:196-204 | prints the eleven canonical lines, spelled out, each ended by a line feed |
| Lockfile.RoundTrip | internal/llamalock/llamalock.go:90-204 | an accepted lock is read back from its printed text, and printing that again gives the same bytes |
| Lockfile.PrintingDecides | internal/llamalock/llamalock.go:196-204 | accepted files that print alike pin the same lock |
| Quant.SplitGGUF | internal/importer/classify.go:328-344 | finds the longest legal quant that ends the name behind a dash or is all of it, what stands before it, and the part number |
| Quant.NumberingMeans | internal/importer/classify.go:328-334 | the ".gguf" is taken away once, and then a numbering of five digits, or five of five, behind a dash or an underscore; its first number is the part |
| Quant.BytesAddUp | internal/importer/quant.go:84-94 | the bytes of a type are the 64-bit sum of the sizes of its tensors |
| Quant.DominantDtype | internal/importer/quant.go:76-109 | the known tensor type that covers the most bytes, the smaller name in a tie |
| Quant.DeriveQuant | internal/importer/quant.go:113-137 | every result is a legal quant; the file name is asked before the configuration, and that before the tensor types, of which the dominant known one decides, or else "raw" |

## Left out

- BlobStore.Store.Put: disk errors, file modes, fsync and the ageing of stale parts are not modelled; the steps of a Put among concurrent ones are in ImportProtocol.
- ForeignDriver.ForeignTorrent.WriteAt: piece methods are not called after the driver is closed; part files neither fail to open nor to write.
- ForeignDriver.ForeignTorrent.LookSealedWanted: one turn of the waiting loop; contexts and wake-ups are left out, and so are those of WaitSealed.
- ForeignOpen.Open: SHA-256 and the git blob id of no bytes are computed by the hash parameters, where the source has their constants; the entries come in stream order.
- CasDriver.Open: the file offsets are those of a v2 torrent, each file at the next piece boundary; a driver without a store is left out.
- CasDriver.CasTorrent.SealLocked: the closed part that a failed seal leaves behind is modelled as no part; no method can tell the two apart.
- Seal.Seal: JSON and RFC 8785 are functions of the document; that indexes and accepted manifests can be read back is the premise ImportProtocol.RoundTrips.
- FileTree.Insert: nested Go maps are values here, and an insertion returns the new tree; aliasing of subtrees is not captured.
- Manifests.SortFiles: sorts a value; Seal's reordering of its caller's slice is not captured.
- Sorting.Sort: stands for both the stable and the unstable library sort; the unstable one is used only where no two elements tie.
- ImportProtocol.Advance: source hints, tags, deleted namespaces and the writing of a part in chunks are left out; a file that a driver seals is one Put or one Has of the program.
- ImportPrograms.ImportMayStart: classification and model configuration, which choose the files, come before and are left out.
- ImportPrograms.BTMayStart: what the swarm client stores or finds while it waits is any list of Puts and looks; the wait is a look for each file, and SwarmFetch.Fetch is why it may be.
- SwarmFetch.Fetch: the engine's calls are an arbitrary list, and its listing of the info dictionary's files a parameter; VerifyPresent only makes such calls.
- ForeignFetch.Fetch: as for SwarmFetch.Fetch, the engine's calls are a list; how long it takes and what it retries is left out.
- InfoReader.InfoReads: of a manifest that the validator refuses, only what the construction answers is stated.
- Jobs.Terminal: the payload of a finished job is one report; list and read handlers only copy what is visible.
- Ref.Lower: ASCII only; the few other letters that Go lowers to ASCII ones are not.
- Lockfile.Format: texts that %q would escape are not modelled; no accepted lock has any.
- Lockfile.Blank: white space is ASCII.
- Quant.DominantDtype: the JSON header is a list of tensors, in any order.
- Choosing a release to pin, its soak time, and the update decision of the lockfile: network answers and comparisons of numbers.
- The BitTorrent engine, trackers, webseeds, HTTP handlers, the Hugging Face client, the runner and the command line: plumbing around what is modelled.
- The name table of the classifier, annotations and the fields of the model configuration.
