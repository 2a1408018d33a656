# GoTorrent, modelled and verified

GoTorrent is a BitTorrent engine. This project models the parts of it whose correctness does not
depend on sockets, files or time, and proves what they promise. Everything is Dafny 4.11;
`dafny verify dfyconfig.toml` checks the whole project. Paths below are relative to the
repository's root.

- **Hashing** (`Merkle`, `Proof`, `HashFile`, `Create`, `BuildV2`, `Geometry`, `Paths`, `FileTree`, `TreeWalk`,
  `BuiltTree`, `MetaInfo`, `BuiltParses`, `Verify`, `Layers`, `ShortPiece`, `VerifyBuilt`, `TreeOrder`, `Build`). The
  two-stage Merkle hashing of BEP 52, the builder that hashes the same bytes under v1 and v2 in one pass,
  the nested file tree and the walk over it, the piece geometry, the parser's checks and the piece
  verifier, and how they fit together: `Build.Build` returns what the parser made of what was built, and
  `TreeOrder.SortedHybridChecksOut` and `TreeOrder.PureV2ChecksOut` follow it through to the verifier. `Layers` is about
  torrents from anywhere: what the parser accepts binds the pieces that pass to the roots in the file tree.
  SHA-1 and SHA-256 are arbitrary functions; where something is said to bind, the proof hands over two
  inputs that collide.
- **Encrypted handshake** (`DiffieHellman`, `Mse`, `MseHandshake`, `MseKeys`, `MseAgreement`, `MseConn`). Both sides of
  MSE as the code that reads and writes, a specification of each as a function of the bytes
  delivered so far, and their composition over every schedule of the two streams. The hash and the
  RC4 keystream are arbitrary functions.
- **Piece picker** (`Blocks`, `PickerState`, `Picker`, `AvailabilityIndex`, `BitfieldBytes`).
- **Swarm simulator** (`SwarmState`, `SwarmTiming`, `SwarmDelivery`, `SwarmChoking`, `Simulator`). The event-driven
  simulation as a class whose handlers all keep one invariant; scheduled closures are values of a datatype. Its nodes run the
  picker and the choker proved elsewhere in the project.
- **Storage** (`FlatStorage`, `Handles`), **rate limit** (`RateLimit`), **bencoding** (`Decimal`, `Bencode`,
  `BencodeCode`), **Kademlia** (`DhtId`, `Dht`), **choking** (`Choking`), **queue** (`Queue`,
  `QueueHistory`).

Code that changes things in place is a class with methods proved against functions of the old
state; code made of expressions is functions. Lemmas about those functions carry the results.

## What turned out not to hold

Each of these is a property the code is naturally read as having. The model follows the code, a lemma
gives a concrete case in which the property fails, and another says exactly when it holds.

- *A torrent the builder emits is accepted by the parser and holds the files it was given.* Leaves and inner
  nodes are hashed alike, so a 64-byte file that consists of two piece roots has the same root as the file
  with those pieces. The layers are keyed by root, and the parser refuses one of the two files
  (`BuiltParses.RootsCanClash`). The v2 builder does not look at paths either: a file followed by one below
  it gives a tree that the parser refuses (`BuiltTree.FileThenBelow`), and in the other order the first
  file disappears from the tree without an error (`BuiltTree.BelowThenFile`). What is parsed is what was
  given if and only if all paths are safe and none is or leads to another, no two files share a root with
  different piece counts, and a hybrid has no more pieces than the limit
  (`BuiltParses.BuiltTorrentParses`, `Build.Build`).
- *A hybrid torrent verifies on the content it was built from.* The v1 side keeps the builder's file
  order and the v2 side the order of the file tree, which is sorted. With the files given unsorted the
  two hashes of a piece disagree (`TreeOrder.UnsortedHybridDisagrees`). Sorted files always verify
  (`TreeOrder.SortedHybridChecksOut`). In general, for stretches of any length, a piece passes exactly
  when the padded stream at its index starts with the piece's own bytes or is the 64-byte twin of a file's
  only piece, unless SHA-256 is broken (`VerifyBuilt.HybridPieceVerifiesIff`).
- *A torrent that somebody paused stays paused until somebody resumes it.* The queue tells its own pauses
  from others by a flag that only its own successful calls change. Pausing a torrent that the queue already
  holds is lost, as `internal/engine/queue.go:131-135` says (`QueueHistory.HeldPauseIsLost`). So is a pause
  that comes after a resume by hand while a slot was free: the pass finds the torrent running as wanted and
  leaves the flag up (`QueueHistory.StaleFlagLosesPause`). A pause lasts if and only if no caps are set, the
  torrent no longer answers, or every queue pause since it was added has been followed by a queue resume
  (`QueueHistory.OutsidePauseLastsIff`).
- *A write changes exactly its own range of the byte space.* Two regions with one path are one file. A
  hybrid torrent with two gaps of equal length has two such regions, since padding entries are named by
  their length (`FlatStorage.EqualPaddingIsOneFile`). The property holds if and only if no two non-empty
  regions share a path (`FlatStorage.LocalIffDistinct`).
- *A simulated node uses what it knows of a peer only once the handshake has brought it.* Requests, answers,
  Haves and unchokes never come before the handshake (`SwarmTiming.TimelyPopped`), but a tick can: a node
  that joins a moment before another one's tick is linked to it, and the tick asks for a view that is not
  there, which is a nil dereference (`Simulator.TickBeforeHandshake`). A run crashes if and only if one of its
  events is a tick of an online, unfinished node with a link whose handshake is still under way
  (`Simulator.Swarm.Run`). It never does when the latency is less than the tick interval, all nodes join at
  the start, and there is no churn (`Simulator.CalmStep`, `Simulator.CalmIsNeverEarly`).
- *The choker fills its slots.* The empty string stands for "no optimistic peer". A peer whose id is
  empty, drawn for the optimistic slot, is not unchoked, and the slot stays empty
  (`Choking.EmptyIdIsNeverUnchoked`). A slot is lost if and only if the slot is drawn anew and the draw falls
  on such a peer (`Choking.Choker.Run`), so never when no interested peer has the empty id. No caller in the
  repository has one: a connection's id is its remote address (`internal/torrent/torrent.go:342`), and the
  simulator refuses the empty name (`internal/simulator/swarm.go:163-165`).

Three places where code and comment differ, and the model follows the code: the simulator's connections
start unchoked on both sides (`internal/simulator/connection.go:30-34` says both start choking, but nothing
sets the flags); a contact that replaces a bad one takes its place in the bucket instead of going to
the tail (`internal/dht/table.go:53-55` describes an order by last contact); and a force-started torrent
only comes first, the caps apply to it as to any other (`internal/engine/queue.go:98-101` says it bypasses
them; `Queue.KeepObeysCaps`).

## Model

| member | source | states |
|---|---|---|
| `Merkle.NextPow2` | internal/merkle/tree.go:39-48 | the least power of two that is at least n, for every n |
| `Merkle.CombinePairs` | internal/merkle/tree.go:79-82 | one level up: each pair of neighbours combined, in order |
| `Merkle.Root` | internal/merkle/tree.go:70-86 | the level-by-level loop computes `RootOf`; the guard on the length accepts exactly the powers of two |
| `Merkle.LevelsBuildTheTree` | internal/merkle/tree.go:70-86 | the level-by-level root is the root of the balanced binary tree over the same leaves |
| `Merkle.RootOfHalves` | internal/merkle/tree.go:70-86 | the root of L followed by R is the combination of their roots, for equal power-of-two lengths |
| `Merkle.RootOfFour` | internal/merkle/tree.go:70-82 | left before right at each level, digests laid side by side |
| `Merkle.PaddingIsZero` | internal/merkle/tree.go:100-106 | leaves are padded with 32 zero bytes |
| `Merkle.PieceRoot` | internal/merkle/tree.go:100-106 | root of the leaves padded to a piece, or only to the next power of two for a file of one piece |
| `Merkle.FileRoot` | internal/merkle/tree.go:119-131 | root of the piece roots padded with the root of an all-zero piece; no pieces give the root of an all-zero piece |
| `Merkle.TwoStageIsOneTree` | internal/merkle/tree.go:100-131 | hashing in two stages equals one tree over all the leaves, zero-padded to blocksPerPiece times the next power of two of the piece count |
| `Merkle.SolePieceIsOneTree` | internal/merkle/tree.go:100-131 | the same for a file of a single piece |
| `Bytes.BitTrickIsPow2` | internal/merkle/tree.go:74-76 | `n & (n-1) == 0` holds of a positive n exactly when n is a power of two |
| `Proof.Prove` | internal/merkle/proof.go:14-35 | the sibling at each level from the leaf up, as `ProofOf` |
| `Proof.BitLen` | internal/merkle/proof.go:63-70 | bits needed to write n |
| `Proof.VerifyProof` | internal/merkle/proof.go:40-59 | accepts exactly when length, index and folded root are right; malformed arguments are refused |
| `Proof.ProofsVerify` | internal/merkle/proof.go:14-59 | for every power-of-two number of leaves and every index, the proof produced is accepted for the leaf there |
| `Proof.FindCollision` | internal/merkle/proof.go:40-59 | any accepted leaf that differs from the one in the tree yields an explicit SHA-256 collision |
| `HashFile.HashOneFileV2` | internal/metainfo/create_v2.go:34-96 | one pass over the bytes gives the v2 root and layer of the file and the v1 digests of its full pieces, leaving the v1 hasher open on the short last piece; only a file shorter than declared fails |
| `HashFile.ClosePiece` | internal/metainfo/create_v2.go:73-87 | closing a piece: its root is added, and its v1 digest or the open hasher |
| `HashFile.ChunksOfFull` | internal/metainfo/create_v2.go:52-95 | full pieces and then one short one are exactly the pieces of the concatenation |
| `HashFile.FileRootIsOneTree` | internal/metainfo/create_v2.go:52-95 | the root the pass emits is one tree over the leaves of the whole file |
| `Create.HashPieces` | internal/metainfo/create.go:231-277 | the v1 digests are those of the concatenated content cut into pieces, across file boundaries; fails exactly when some file is short |
| `BuildV2.BuildV2` | internal/metainfo/create_v2.go:127-254 | for every file list: the nested file tree, the piece layers and, for a hybrid, v1 digests equal to `HashPieces` of the padded list, each non-empty file starting on a piece boundary and one v1 piece per v2 piece; and which fault is reported otherwise |
| `BuildV2.AddFile` | internal/metainfo/create_v2.go:153-205 | one turn of the file loop keeps all of the above with the open v1 hasher carried over |
| `BuildV2.ResolvePending` | internal/metainfo/create_v2.go:158-168 | the pending v1 hash is closed with zeros and a padding entry of exactly the residue is listed |
| `BuildV2.AppendHashes` | internal/metainfo/create_v2.go:187-198 | the v1 digests of one file are appended, and its open hasher kept only when a file follows |
| `BuildV2.PaddingCloses` | internal/metainfo/create_v2.go:158-168 | closing an open hasher with residue zeros is appending that padding entry to the stream |
| `BuildV2.FullStreamAligned` | internal/metainfo/create_v2.go:153-205 | after a padding entry the next file starts on a piece boundary |
| `Geometry.BuildV2PieceRuns` | internal/metainfo/v2.go:156-168 | one run for each non-empty file, in order, with its first global piece |
| `Geometry.V2TotalPieces` | internal/metainfo/v2.go:171-177 | the piece count is the sum over the files |
| `Geometry.Search` | internal/metainfo/v2.go:316-318 | the binary search finds the least index at which a monotone predicate holds |
| `Geometry.PieceFile` | internal/metainfo/v2.go:315-325 | answers exactly for 0 <= index < NumPieces, with the file that covers the piece and the offset in it |
| `Geometry.V2FilePieceRange` | internal/metainfo/v2.go:335-342 | answers exactly for the non-empty files, with their first and last global piece |
| `Geometry.RangeIsInverse` | internal/metainfo/v2.go:315-342 | a piece lies in a file's range exactly when `PieceFile` names that file |
| `Geometry.PieceInsideFile` | internal/metainfo/metainfo.go:146-168 | a piece is non-empty, at most a piece long, and does not leave its file |
| `Geometry.PiecesPartition` | internal/storage/verify.go:200-212 | consecutive pieces meet: each starts where the one before ends, the first at 0 and the last ending at the total length |
| `MetaInfo.SetV2` | internal/metainfo/v2.go:193-244 | accepts exactly the file trees that the walk accepts, with a piece, a legal piece length and, for every file whose root has a layer on record, a layer of one digest per piece that rebuilds that root; gives the files of the walk |
| `MetaInfo.SetFiles` | internal/metainfo/metainfo.go:397-434 | paths are safe, lengths are non-negative, do not all vanish and add up in 64 bits; the totals with and without padding |
| `MetaInfo.TotalV2Length` | internal/metainfo/metainfo.go:299-395 | the total of a pure-v2 torrent |
| `MetaInfo.SetInfo` | internal/metainfo/metainfo.go:299-395 | accepts exactly when the name is safe and the count, size, path, layer and hybrid consistency checks hold, and the parsed values then |
| `Layers.AcceptedLayersRebuild` | internal/metainfo/v2.go:218-242 | whatever is accepted: a layer on record has one digest for each piece of its file, and the digests rebuild the root of the file |
| `Layers.AcceptedLayersAgree` | internal/metainfo/v2.go:218-242 | two accepted torrents that name a file under one root have one layer for it, or two inputs of SHA-256 collide |
| `Layers.AcceptedLayerIsOwn` | internal/metainfo/v2.go:218-242 | an accepted layer for the root of some content is the layer of that content, or SHA-256 collides |
| `Layers.OnlyOwnBytesPass` | internal/storage/verify.go:232-276 | so in every accepted torrent, whoever made it, a buffer that passes starts with the bytes its file's root stands for, or SHA-256 collides |
| `Layers.AcceptedIsConsistent` | internal/metainfo/metainfo.go:299-395 | every accepted torrent: piece length, piece counts and totals agree on the v1 side, on the v2 side and between the two |
| `Layers.AcceptedFilesStayBelow` | internal/metainfo/path.go:38-94 | and every file it names lies below the directory it is put in, the v2 files each in a place of its own |
| `Layers.AcceptedRootsAreDigests` | internal/metainfo/v2.go:65-95 | every non-empty v2 file of an accepted torrent has a root of 32 bytes |
| `BuiltParses.BuiltTorrentParses` | internal/metainfo/create_v2.go:127-254 | parsing what was built gives back exactly the files it was given if and only if every path is safe and leads to no other, no two files share a root with different numbers of pieces and, for a hybrid, the piece count is within the limit |
| `BuiltParses.LayersPassIff` | internal/metainfo/v2.go:219-242 | the layer check passes on the built layers exactly when no two files share a root with different numbers of pieces |
| `BuiltParses.LayersAre` | internal/metainfo/create_v2.go:183-185 | what is listed under a root is the layer of a file with that root |
| `BuiltParses.LayerRoundTrip` | internal/metainfo/v2.go:219-242 | the layer bytes cut back into digests are the piece roots |
| `BuiltParses.RootsCanClash` | internal/metainfo/v2.go:219-242 | for every two-block file at the smallest piece length there is a 64-byte file with the same root and one piece, so the check refuses the two together |
| `BuiltParses.HybridSide` | internal/metainfo/v2.go:252-279 | the padded list of a hybrid gives the v1 piece count and real total that the consistency check wants |
| `BuiltParses.HybridFits` | internal/metainfo/metainfo.go:397-434 | the padded list passes the v1 checks if the paths fit and the pieces are not too many: padding paths are safe, and the total fits in 64 bits |
| `Paths.ValidatePathSegment` | internal/metainfo/path.go:38-78 | accepts exactly the safe names: length, traversal, separators, control characters, trailing dot or space, device names |
| `Paths.ValidatePath` | internal/metainfo/path.go:81-94 | accepts exactly one to 32 safe names |
| `Paths.PathsStayBelow` | internal/metainfo/path.go:31-94 | a safe path, taken apart by a file system at either separator and followed from any directory, leads to the place below it that it names |
| `Paths.NamesAreSafe` | internal/metainfo/path.go:24-78 | what a safe name cannot be or contain |
| `FileTree.ParseFileTree` | internal/metainfo/v2.go:46-63 | the files of the tree, or why it is refused; a tree that is itself a file, or empty, is refused |
| `FileTree.WalkFileTree` | internal/metainfo/v2.go:65-118 | the walk appends the files below a node in key order, or stops at the first fault |
| `FileTree.LeafFile` | internal/metainfo/v2.go:66-91 | the file a leaf describes: length, root by length, safe path; every fault |
| `TreeWalk.WalkAscends` | internal/metainfo/v2.go:65-118 | over every tree: what the walk lists has safe paths, in ascending order, none of which leads to another |
| `TreeWalk.PutWalk` | internal/metainfo/create_v2.go:101-114 | a file put in at a path that no listed file shares or leads to is listed there, and the other files stay listed as they were, in their order |
| `BuiltTree.FilesComeBackIff` | internal/metainfo/create_v2.go:101-114 | the walk over the tree of any file list gives exactly those files, in some order, if and only if every path is safe and leads to no other |
| `BuiltTree.FileThenBelow` | internal/metainfo/create_v2.go:101-114 | a file and then one below it: the walk refuses the tree |
| `BuiltTree.BelowThenFile` | internal/metainfo/create_v2.go:101-114 | the same two the other way round: the tree is accepted and the first file is lost |
| `BuiltTree.LeafReads` | internal/metainfo/v2.go:66-91 | a leaf as the builder writes it reads back as the same file |
| `Build.Build` | internal/metainfo/create.go:92-135 | for version 2 and hybrid torrents: what is returned is the accepted parse of what was built, and it lists exactly the given files if and only if the options are sensible, every file can be read, and paths, roots and pieces fit |
| `Build.Total` | internal/metainfo/create.go:100-109 | the total, or a negative size |
| `Build.ChoosePieceLength` | internal/metainfo/create.go:62-85 | the choice is always a legal power of two, with at most 4096 pieces up to 16 GiB and no fewer than 100 above 50 MiB |
| `Verify.VerifyPieceV2` | internal/storage/verify.go:232-276 | the verdict on a buffer: the piece's root, from as many bytes as its file has left there, against the layer or the file root |
| `Verify.OwnBytesVerify` | internal/storage/verify.go:232-276 | a piece passes on its own bytes, whatever padding follows them in the buffer |
| `Verify.OnlyOwnBytesVerify` | internal/storage/verify.go:232-276 | any buffer that passes starts with the piece's own bytes, or yields an explicit SHA-256 collision |
| `ShortPiece.ShortVerdict` | internal/storage/verify.go:232-276 | fewer bytes than the piece has pass exactly when they are the twin of a file's only piece, the 64 bytes of the two digests under its root; or SHA-256 is broken, by a collision or a block with the all-zero digest |
| `ShortPiece.UnequalTrees` | internal/merkle/tree.go:70-131 | two trees of different heights with one root give a collision, unless the lower one is the one block that spells out the pair under that root |
| `ShortPiece.TwinHasTheRoot` | internal/merkle/tree.go:70-131 | that block does have the root |
| `VerifyBuilt.BuiltDescribes` | internal/metainfo/create_v2.go:183-185 | without a root clash every parsed file carries its own layer, or two roots collide |
| `VerifyBuilt.HybridPieceVerifies` | internal/storage/verify.go:148-188 | with the files in tree order every piece of the padded stream of a built hybrid passes both hashes, or SHA-256 collides |
| `VerifyBuilt.HybridPieceVerifiesIff` | internal/storage/verify.go:148-188 | in whatever order, for stretches short and long: a piece passes exactly when the stream at its index starts with the piece's own bytes or is the twin of a file's only piece, and otherwise v1 and v2 disagree; or SHA-256 is broken |
| `VerifyBuilt.PureV2PieceVerifies` | internal/storage/verify.go:148-212 | every piece of a built pure-v2 torrent passes on its files packed back to back, or SHA-256 collides |
| `VerifyBuilt.V1PieceIsChunk` | internal/metainfo/metainfo.go:146-168 | v1 piece length and offset pick out the piece's stretch of the stream, the short last one included |
| `TreeOrder.SortedFilesStayInOrder` | internal/metainfo/create.go:187-226 | files given sorted by path come back from the file tree in the same order, each with its own length and root |
| `TreeOrder.UnsortedHybridDisagrees` | internal/storage/verify.go:148-188 | two files given as b, a build a hybrid that is accepted and whose first piece fails on its own content: the two hashes disagree |
| `TreeOrder.SortedHybridChecksOut` | internal/metainfo/create_v2.go:127-254 | from the builder through the parser to the verifier: a hybrid built from sorted files that fit is accepted, and every piece passes on the padded content, or SHA-256 collides |
| `TreeOrder.PureV2ChecksOut` | internal/metainfo/create_v2.go:127-254 | a pure-v2 torrent built from files that fit, in any order, is accepted, and every piece passes on the same files laid out in some order, or SHA-256 collides |
| `DiffieHellman.SecretsAgree` | internal/mse/dh.go:47-77 | both sides compute the same 96 secret bytes from each other's public bytes |
| `DiffieHellman.SecretIsPower` | internal/mse/dh.go:47-77 | on the wire is 2 to the private value modulo the prime, and the secret is 2 to both private values |
| `DiffieHellman.Commutes` | internal/mse/dh.go:47-77 | raising the other side's public value gives the same number on both sides |
| `DiffieHellman.BigEndianRoundTrip` | internal/mse/dh.go:66-71 | fixed-width encoding and decoding give the number back |
| `Mse.CryptTwice` | internal/mse/conn.go:55-75 | decrypting at the same position undoes encrypting |
| `Mse.DecryptSlice` | internal/mse/conn.go:55-66 | any stretch of an encrypted stream decrypts on its own at its own position |
| `Mse.Cipher.XorKeyStream` | internal/mse/conn.go:13-21 | a cipher starts with 1024 positions burnt and advances by exactly the bytes it processes |
| `Mse.Wire.ReadFull` | internal/mse/sync.go:35-37 | a read takes exactly n bytes in order, or the stream is not long enough yet |
| `Mse.ReadUntil` | internal/mse/sync.go:32-49 | the rolling buffer stops at the first place in the window at which the marker ends, leaving the stream on the next byte |
| `Mse.MarkerIsFound` | internal/mse/sync.go:32-49 | with at most 512 bytes of padding and no accidental match, the window of 512 plus the marker always suffices |
| `MseHandshake.InitiateHandshake` | internal/mse/handshake.go:72-175 | what the dialing side sends and how it ends, for all bytes delivered to it, every error case included |
| `MseHandshake.ReceiveHandshake` | internal/mse/handshake.go:190-312 | the same for the accepting side |
| `MseKeys.InitiatorSends` | internal/mse/handshake.go:88-136 | byte by byte what the dialing side sends: its public value, PadA, HASH(req1, S), the two masked digests, and a rest that decrypts under HASH(keyA, S, SKEY) from position 1024 to VC, crypto_provide, PadC and IA |
| `MseKeys.InitiatorKeys` | internal/mse/handshake.go:104-174 | it goes on sending under that key and receiving under HASH(keyB, S, SKEY), with a method that it offered |
| `MseKeys.ReceiverReads` | internal/mse/handshake.go:218-286 | byte by byte what the accepting side has read when it answers: the same fields, under the same key |
| `MseKeys.ReceiverSends` | internal/mse/handshake.go:238-311 | what it has sent: its public value, PadB, and a rest that decrypts under HASH(keyB, S, SKEY) to VC, crypto_select and PadD; and its keys are the dialing side's the other way round |
| `MseKeys.DirectionsApart` | internal/mse/hash.go:35-39 | the two directions of a connection have different keys, or two inputs of HASH have one digest |
| `MseKeys.ConnectionsApart` | internal/mse/hash.go:35-39 | so have two connections, in any direction, that differ in the secret or the torrent |
| `MseKeys.BigEndianDigits` | internal/mse/wire.go:37-47 | the digit at each place of a number on the wire, most significant first |
| `MseHandshake.FindSkey` | internal/mse/handshake.go:227-236 | the first candidate key whose hash is on the wire |
| `MseHandshake.ReadSelection` | internal/mse/handshake.go:148-174 | reading packet 4: the selection, the padding, and the two checks on the method |
| `MseHandshake.ReadPacket3` | internal/mse/handshake.go:238-311 | reading the encrypted part of packet 3, then the answer |
| `MseHandshake.ReadPadAndIa` | internal/mse/handshake.go:256-283 | padding skipped and the initial payload read field by field, with their limits |
| `MseHandshake.Answer` | internal/mse/handshake.go:284-311 | packet 4 and the connection the accepting side ends up with |
| `MseAgreement.ChosenIsOffered` | internal/mse/handshake.go:42-50 | the default selector picks RC4 if offered, else plaintext, and nothing that was not offered |
| `MseAgreement.SkeyIsMatched` | internal/mse/handshake.go:227-236 | the search finds the initiator's key when no other candidate has the same hash |
| `MseAgreement.ReceiverOnPrefix` | internal/mse/handshake.go:190-312 | given any part of the initiator's script the receiver waits, and given all of it it answers |
| `MseAgreement.InitiatorOnPrefix` | internal/mse/handshake.go:72-175 | given any part of the receiver's script the initiator waits, and given all of it it is done |
| `MseAgreement.EveryScheduleAgrees` | internal/mse/handshake.go:72-312 | over every interleaving of the two streams, cut into pieces in any way, no side fails, the schedule is finite, and when nothing is in flight both sides are done |
| `MseAgreement.ReadySidesMatch` | internal/mse/handshake.go:72-312 | the finished sides have the same method out of those offered, the initiator's key, and equal keys and positions in both directions |
| `MseAgreement.NoCommonMethodNeverCompletes` | internal/mse/handshake.go:284-287 | with no common method, over every interleaving and cutting of the two streams: the initiator never gets past waiting, the receiver never completes, the schedule is finite, and when nothing is in flight the receiver has refused |
| `MseConn.Conn.Read` | internal/mse/conn.go:55-66 | pending plaintext first and untouched by the cipher, then bytes off the wire decrypted at the position they were encrypted at |
| `MseConn.Conn.Write` | internal/mse/conn.go:68-75 | bytes go out encrypted at the writer's position, which advances by their number |
| `MseConn.TrafficIsFaithful` | internal/mse/conn.go:55-75 | over any sequence of writes and reads the reader gets the initial payload and then exactly what was written, with equal positions once all is read |
| `MseConn.AgreedSidesTalk` | internal/mse/conn.go:55-75 | after an agreed handshake this holds in both directions, the initiator's payload first |
| `Blocks.BlocksTile` | internal/picker/picker.go:78-84 | the blocks tile [0, length): every byte lies in exactly one block, and every block in the piece |
| `Blocks.BlockIndexOfIsInverse` | internal/picker/picker.go:312-324 | `blockIndexOf` accepts exactly the Begin and Length that `fill` produces, and inverts them |
| `Blocks.CompleteIffAllDelivered` | internal/picker/picker.go:76-76 | the done counter equals the number of blocks exactly when every block has arrived |
| `Blocks.CountDoneUpdate` | internal/picker/picker.go:298-310 | setting one block changes the count by one at most |
| `Blocks.FillMeans` | internal/picker/picker.go:421-445 | a fill hands out free blocks, each once, up to the room left, and leaves none needed when room remains |
| `PickerState.ReceivedCountsOnce` | internal/picker/picker.go:298-310 | a block is wanted exactly when it is a real block not counted yet; then it is counted, nothing else changes, and completion is reported exactly when no block is left |
| `PickerState.CountedOnce` | internal/picker/picker.go:298-310 | a counted block is not counted again until its piece fails |
| `PickerState.MarkVerifiedKeeps` | internal/picker/picker.go:265-268 | marking a piece verified keeps the state sound and adds no work |
| `PickerState.MarkFailedKeeps` | internal/picker/picker.go:287-293 | a failed piece is all to do again, and no other piece is affected |
| `PickerState.SetHaveKeeps` | internal/picker/picker.go:251-262 | seeding keeps the state sound, and adds no work exactly when it forgets no piece with blocks |
| `PickerState.ReleasesKeeps` | internal/picker/picker.go:275-283 | returning requests to needed changes no piece's remaining work |
| `PickerState.PickAsksForMissingBlocks` | internal/picker/picker.go:376-445 | every request is a distinct block of a piece missing here that the peer has, never a delivered one, and outside endgame never a pending one |
| `PickerState.PickStartsFirst` | internal/picker/picker.go:448-516 | a piece that is started was missing, wanted and on offer; no such piece of a higher priority is left unstarted, none of the same priority that is rarer under rarest-first, none with a lower number under sequential |
| `PickerState.NextIsFirst` | internal/picker/picker.go:454-516 | the same for the one piece nextPiece names; it names none only when there is none |
| `PickerState.PickLeavesNothing` | internal/picker/picker.go:376-445 | with room to spare, every block of a piece in progress that the peer has is asked for unless someone else was, and in endgame even then |
| `Picker.OverdueMeans` | internal/picker/picker.go:339-351 | a request is given up when it is older than the timeout, the short one in endgame |
| `PickerState.PickKeepsWork` | internal/picker/picker.go:376-406 | picking changes no piece's remaining work |
| `PickerState.PickingFills` | internal/picker/picker.go:386-394 | filling one more piece keeps everything promised of a pick under way |
| `PickerState.PickingStartsPiece` | internal/picker/picker.go:396-403 | so does starting a best piece |
| `Picker.New` | internal/picker/picker.go:186-201 | refused exactly without pieces or without the callback for their lengths; a new picker is sound, with nothing held or in progress and the defaults filled in |
| `Picker.Settings` | internal/picker/picker.go:129-148 | every limit and timeout ends up positive |
| `Picker.Picker.Pick` | internal/picker/picker.go:376-406 | the whole contract: at most max, distinct, eligible blocks only, started pieces best among the pickable in tier and then rarity or order, and a short answer only when nothing is left to ask for |
| `Picker.Picker.Sweep` | internal/picker/picker.go:386-394 | the pieces already in progress, in ascending order |
| `Picker.Picker.StartPieces` | internal/picker/picker.go:396-403 | new pieces while there is room under the limit |
| `Picker.Picker.NextPiece` | internal/picker/picker.go:453-475 | the highest tier with anything pickable wins; none is reported only when nothing is pickable |
| `Picker.Picker.PickByStrategy` | internal/picker/picker.go:480-515 | the first piece, or one of minimal positive availability whatever the coin flips |
| `Picker.Picker.FillOne` | internal/picker/picker.go:421-445 | one piece of a pick |
| `Picker.Fill` | internal/picker/picker.go:421-445 | requests exactly the first free blocks there is room for, in order, marking each pending |
| `Picker.Picker.ActiveOrder` | internal/picker/picker.go:411-418 | the pieces in progress, ascending |
| `Picker.Picker.Received` | internal/picker/picker.go:298-310 | the new state and both answers |
| `Picker.Picker.SetHave` | internal/picker/picker.go:251-262 | refused exactly for a bitfield of another length; else the new state, in which pieces now held are no longer in progress |
| `Picker.Picker.MarkVerified` | internal/picker/picker.go:265-268 | the new state |
| `Picker.Picker.MarkFailed` | internal/picker/picker.go:287-293 | the new state: a reset piece in progress, or a piece no longer held |
| `Picker.Picker.SetPriorities` | internal/picker/priority.go:74-80 | accepted exactly for one priority per piece |
| `Picker.Picker.Remaining` | internal/picker/picker.go:228-239 | the number of wanted pieces missing, by either path |
| `Picker.Picker.Expire` | internal/picker/picker.go:339-352 | exactly the overdue requests go back to needed, and they are counted |
| `Picker.Picker.ResetAllPending` | internal/picker/picker.go:275-283 | exactly the outstanding requests go back to needed |
| `AvailabilityIndex.Availability.AddPeer` | internal/picker/availability.go:32-42 | if the counts were those of the connected peers, they are with one more |
| `AvailabilityIndex.Availability.RemovePeer` | internal/picker/availability.go:45-55 | and with one fewer |
| `AvailabilityIndex.Availability.Add` | internal/picker/availability.go:67-71 | and after a peer announces a piece it had not |
| `AvailabilityIndex.Availability.MinCount` | internal/picker/availability.go:88-102 | the fewest copies of any piece somebody holds; 0 when nobody holds any |
| `AvailabilityIndex.Availability.Rarest` | internal/picker/availability.go:107-118 | the first among the rarest wanted pieces somebody holds |
| `AvailabilityIndex.Availability.Reset` | internal/picker/availability.go:60-64 | the counts of no peers |
| `BitfieldBytes.Bitfield.Set` | internal/bitfield/bitfield.go:101-107 | the set of pieces gains i, the cached count stays exact; out of range is ignored |
| `BitfieldBytes.Bitfield.Clear` | internal/bitfield/bitfield.go:110-116 | the set loses i |
| `BitfieldBytes.Bitfield.Has` | internal/bitfield/bitfield.go:93-98 | membership, false out of range |
| `BitfieldBytes.Bitfield.Each` | internal/bitfield/bitfield.go:145-159 | exactly the pieces held, ascending, by clearing leading bits |
| `BitfieldBytes.Bitfield.CompleteMeansAll` | internal/bitfield/bitfield.go:86-86 | the constant-time answer means every piece is held |
| `BitfieldBytes.FromBytes` | internal/bitfield/bitfield.go:47-61 | accepted exactly at the right width with no bit beyond the last piece |
| `BitfieldBytes.PaddingCheck` | internal/bitfield/bitfield.go:52-58 | the mask on the last byte checks exactly that |
| `BitfieldBytes.MasksAreShifts` | internal/bitfield/bitfield.go:52-107 | bits are numbered from the most significant one |
| `BitfieldBytes.CountIsSize` | internal/bitfield/bitfield.go:72-77 | summing the bits of the bytes counts the set positions |
| `BitfieldBytes.BytesAreCanonical` | internal/bitfield/bitfield.go:120-120 | equal sets of one width have equal wire bytes |
| `Simulator.PieceLensTile` | internal/simulator/swarm.go:148-156 | the simulated pieces are non-empty and tile the torrent |
| `Simulator.NewSwarm` | internal/simulator/swarm.go:127-144 | refused exactly without bytes or piece length; an empty swarm satisfies the invariant, and is calm when a latency is less than a tick |
| `Simulator.Swarm.AddNode` | internal/simulator/swarm.go:162-215 | an empty or used name and a negative join time are refused; a seed starts with everything and anyone else with nothing, and the join is scheduled; a swarm stays calm if the node is there from the start |
| `Simulator.Swarm.After` | internal/simulator/clock.go:94-100 | an event is queued at the clamped delay with the next sequence number |
| `Simulator.Swarm.Earliest` | internal/simulator/clock.go:49-54 | the event popped is least by time and then by sequence number |
| `Simulator.Swarm.Step` | internal/simulator/clock.go:105-113 | the clock moves to the earliest event and its handler runs, with exactly its effect: the invariant is kept, no node loses a piece, either time advances or fewer events are due now, and it crashes exactly when the event is a tick that comes too early |
| `Simulator.Swarm.Run` | internal/simulator/run.go:58-95 | every run ends; it crashes exactly when one of its events is a tick that comes too early, so never when it starts calm and without churn; it reports completion exactly when the counter of unfinished nodes is zero and every node holds everything; bytes sent and received balance; without a seed nobody holds anything |
| `Simulator.Swarm.Fire` | internal/simulator/clock.go:105-113 | each kind of event has the effect of its handler, new events only follow, and every handshake still lands in time |
| `Simulator.Swarm.AllDone` | internal/simulator/run.go:71-95 | the loop over the nodes |
| `SwarmState.ConnFacts` | internal/simulator/connection.go:20-53 | in every reachable swarm, on each side of each connection: the view claims no piece the far side lacks, and 0 <= in flight <= outstanding <= 12 |
| `SwarmState.UnfinishedIsZero` | internal/simulator/run.go:71-95 | the counter is zero exactly when every node with something to finish has finished |
| `Simulator.InvMeans` | internal/simulator/run.go:71-95 | what the invariant says at the end of a run |
| `SwarmState.ScheduledKeeps` | internal/simulator/clock.go:94-100 | scheduling an event keeps the invariant |
| `SwarmState.PoppedKeeps` | internal/simulator/clock.go:105-113 | taking the earliest event out keeps it, and leaves room for the transfer it stood for |
| `SwarmState.EndReplaced` | internal/simulator/events.go:121-154 | so does changing one side of a connection within its bounds |
| `SwarmState.LinkedKeeps` | internal/simulator/events.go:49-53 | so does linking two nodes that are online |
| `SwarmState.UnlinkedKeeps` | internal/simulator/events.go:73-82 | so does taking a link down at both ends |
| `SwarmState.OnlineChanged` | internal/simulator/events.go:87-106 | so does going online, and offline once every link is down |
| `SwarmState.MovedKeeps` | internal/simulator/events.go:202-204 | bytes credited to one node are debited to another |
| `SwarmState.PieceGained` | internal/simulator/events.go:210-218 | a node gains only a piece another node has, and its completion is counted once |
| `SwarmState.FinishedHasNothingActive` | internal/picker/picker.go:214-219 | a picker with every piece has nothing in progress, so seeds and finished nodes gain nothing |
| `Simulator.Swarm.BringOnline` | internal/simulator/events.go:17-43 | the whole effect: online, linked to distinct others that are online, as many as the limit and the swarm allow, each handshake a latency away, with its periodic loops scheduled |
| `Simulator.OneMoreLinked` | internal/simulator/events.go:21-36 | one more of the candidates is linked, and the others are still there to choose from |
| `Simulator.LinkedAllLinks` | internal/simulator/events.go:35-66 | one connection for each of them in turn, known at both ends, with nothing seen yet |
| `SwarmTiming.TimelyPopped` | internal/simulator/events.go:49-66 | when an event that needs a view is run, the view is there; whatever handshake is missing still lands in time |
| `SwarmTiming.TimelyStays` | internal/simulator/events.go:54-65 | that every missing handshake lands within a latency, before anything that needs it, is kept by every handler that makes no connection |
| `SwarmTiming.TimelyJoined` | internal/simulator/events.go:17-43 | and by a node that joins |
| `Simulator.StepCrashes` | internal/simulator/events.go:121-126 | a step crashes exactly when the next event is a tick of an online, unfinished node with a link whose handshake is still under way |
| `Simulator.TickBeforeHandshake` | internal/simulator/events.go:259-272 | a swarm of two nodes whose third event crashes |
| `Simulator.CalmStep` | internal/simulator/events.go:259-272 | without churn, a swarm whose nodes all join at the start, with a latency less than a tick, stays that way |
| `Simulator.CalmIsNeverEarly` | internal/simulator/events.go:259-272 | and there no tick comes too early |
| `Simulator.Swarm.Connect` | internal/simulator/events.go:49-66 | a shared connection known to both ends, and the handshake one latency later |
| `Simulator.Swarm.HandshakeLands` | internal/simulator/events.go:54-65 | the whole effect: a snapshot for one side, then for the other, and then both connections filled; each side's view is then a copy of the other's pieces |
| `SwarmDelivery.HandshakeMeans` | internal/simulator/events.go:55-63 | after the snapshots each side has a true view, counts each piece in it once more, and is interested exactly if it lacks one; nothing else has changed |
| `Simulator.Swarm.Disconnect` | internal/simulator/events.go:73-82 | both ends drop the link and take their own view out of their counts |
| `Simulator.Swarm.TakeOffline` | internal/simulator/events.go:87-106 | the whole effect: every link taken down in turn, the node offline, and for a churned one a return after a time between the two bounds |
| `Simulator.GoingMeans` | internal/simulator/events.go:73-106 | no link of it is left at either end and nobody else loses one; the return is planned between the bounds, or not at all |
| `Simulator.Swarm.FillConnection` | internal/simulator/events.go:121-139 | the whole effect: nothing offline, a crash on a missing view while unfinished, the interest flag, and otherwise exactly the requests picked, each counted |
| `Simulator.Swarm.SendRequest` | internal/simulator/events.go:146-154 | one more outstanding, and the request on its way one latency later unless lost |
| `Simulator.Swarm.ServeRequest` | internal/simulator/events.go:160-170 | nothing when the provider is away or choking, else the block after latency and transfer time |
| `Simulator.ServingTakesTime` | internal/simulator/events.go:160-191 | a block that is served arrives after the latency and the time its bytes take at the smaller of the two rates, to the nanosecond |
| `Simulator.EffectiveRate` | internal/simulator/events.go:178-191 | the smaller of the two caps, no cap counting as unbounded |
| `Simulator.Swarm.DeliverBlock` | internal/simulator/events.go:196-222 | the whole effect: the answer is counted, and if somebody receives it the bytes move, the picker takes note, a piece that is done is announced, and the connection is filled |
| `SwarmDelivery.AnswerMeans` | internal/simulator/events.go:198-202 | one request fewer outstanding, received or not; the bytes counted only if received; nothing else in any connection |
| `SwarmDelivery.ArrivesNowhere` | internal/simulator/events.go:199-201 | with nobody there nothing else happens |
| `SwarmDelivery.ArrivalMeans` | internal/simulator/events.go:202-220 | the bytes credited and debited; the picker as the delivery leaves it; and when it was the last block of a piece, the piece had, completion recorded exactly with the last piece, and one Have sent to each peer |
| `Simulator.FillAsks` | internal/simulator/events.go:121-154 | what follows: as many more outstanding as were asked for, at most 12, all of them sent one latency away or lost, and none unless there is something to want and the peer does not choke |
| `Simulator.Swarm.BroadcastHave` | internal/simulator/events.go:228-242 | every linked peer is told, in order, one latency later, over its own connection |
| `Simulator.Swarm.HaveLands` | internal/simulator/events.go:233-240 | the whole effect: nothing offline, a crash on a missing view, and otherwise the view and the availability count gain the piece and the connection is filled |
| `Simulator.Swarm.SetChoking` | internal/simulator/connection.go:89-105 | the flag changes; an unchoke is noticed by the other end one latency later |
| `Simulator.Swarm.PickTick` | internal/simulator/events.go:259-272 | the whole effect, world by world: nothing offline, else exactly the overdue requests given up, each connection filled in order of the peers, and the next tick scheduled; it crashes exactly when the tick comes too early |
| `Simulator.Swarm.RunChoker` | internal/simulator/events.go:274-290 | the whole effect: nothing offline, else the choker judges the links by interest and by bytes received, each is told in turn, the choker remembers, and the next choke tick is scheduled |
| `SwarmChoking.Decide` | internal/simulator/connection.go:74-109 | the real choker run on the links of a node: min(slots, interested) of them are unchoked, all interested, none but the optimistic one slower than a choked peer; the optimistic one keeps its turn; the uninterested are told first, then the others, fastest first |
| `SwarmChoking.ToldAllMeans` | internal/simulator/connection.go:89-105 | after all are told, each link is choked as decided, and nothing else in any connection has changed |
| `SwarmChoking.UnchokesAreNoticed` | internal/simulator/events.go:249-257 | whoever is newly unchoked is told one latency later |
| `SwarmChoking.TitForTat` | internal/simulator/events.go:274-290 | after a choke tick the unchoked links of the node are a fair judgement of its links before: every slot used, the fastest served, and each change noticed |
| `Simulator.Swarm.CheckChurn` | internal/simulator/events.go:292-308 | the node leaves, or is checked again later |
| `Simulator.Swarm.SortedConnIds` | internal/simulator/swarm.go:222-229 | a node's peers, each once, in a fixed order |
| `FlatStorage.LayOut` | internal/storage/storage.go:166-199 | the regions lie end to end from 0 to the total, in list order |
| `FlatStorage.RegionOfHolds` | internal/storage/storage.go:370-378 | every offset in the torrent lies in exactly one region, and none outside it |
| `FlatStorage.FilesAreStretches` | internal/storage/storage.go:370-441 | each file is a stretch of the flat space, byte for byte, from its offset on |
| `FlatStorage.Storage.RegionAt` | internal/storage/storage.go:370-378 | the binary search finds that region, zero-length files included, and it has room there |
| `FlatStorage.Storage.ReadAt` | internal/storage/storage.go:382-441 | the bytes of the flat space from off on, as many as fit, stopping only at the end, at a missing file or at the end of one that is too short; every error with its cause |
| `FlatStorage.Storage.WriteAt` | internal/storage/storage.go:446-499 | with distinct paths exactly [off, off+written) changes in the flat space, and the gap before it in a file that was too short becomes zeros; a write that overruns is refused whole |
| `FlatStorage.PutAllInRegion` | internal/storage/storage.go:484-496 | a stretch inside one region is one write into one file |
| `FlatStorage.PutAllIsSplice` | internal/storage/storage.go:446-499 | storing bytes one by one is a splice of the flat space, under distinct paths, for files of any size |
| `FlatStorage.LocalIffDistinct` | internal/storage/storage.go:446-499 | a store is local for every offset and byte if and only if no two non-empty regions share a path |
| `FlatStorage.SharedPathLeaks` | internal/storage/storage.go:183-192 | two regions in one file: a byte stored in the first shows up in the second |
| `FlatStorage.EqualPaddingIsOneFile` | internal/storage/storage.go:183-192 | two padding entries of equal length are one file on disk |
| `Handles.HandleCache.constructor` | internal/storage/handles.go:34-43 | an empty cache, 64 entries unless told otherwise |
| `Handles.HandleCache.Acquire` | internal/storage/handles.go:51-79 | an open handle with the access asked for, held once more; nobody else's hold changes no held file is closed; it is now the last used, and whoever was dropped for it was idle and used before every idle entry that stays |
| `Handles.HandleCache.Hold` | internal/storage/handles.go:57-61 | a hit: to the front, and held once more |
| `Handles.HandleCache.OpenFile` | internal/storage/handles.go:66-78 | a new entry at the front, and then the cache fits or every handle is held |
| `Handles.HandleCache.Release` | internal/storage/handles.go:81-88 | one hold fewer; the file is closed exactly when it was evicted and this was the last |
| `Handles.HandleCache.Trim` | internal/storage/handles.go:93-107 | afterwards the cache fits or every handle is held, no held handle has gone, no more are dropped than need be, and those dropped were idle and used before every idle one that stays |
| `Handles.HandleCache.LastIdle` | internal/storage/handles.go:96-102 | the least recently used idle entry |
| `Handles.HandleCache.Evict` | internal/storage/handles.go:111-119 | out of list and map at once, closed now if idle |
| `Handles.HandleCache.CloseAll` | internal/storage/handles.go:123-142 | the cache is empty, idle files are closed and held ones still open |
| `Handles.Removed` | internal/storage/handles.go:111-119 | taking an entry out keeps list and map in bijection |
| `Handles.MovedToFront` | internal/storage/handles.go:56-58 | so does moving one to the front |
| `RateLimit.Limiter.constructor` | internal/ratelimit/ratelimit.go:36-41 | a full bucket |
| `RateLimit.Limiter.SetLimit` | internal/ratelimit/ratelimit.go:50-62 | the burst is the rate or 16 KiB, and saved-up credit is kept up to it |
| `RateLimit.Limiter.Reserve` | internal/ratelimit/ratelimit.go:104-126 | refill for the time elapsed, capped, then the debit; the wait is the debt at the rate |
| `RateLimit.RateBound` | internal/ratelimit/ratelimit.go:82-126 | over every schedule, the bytes granted in any window [s,t] are at most the burst, or the largest request if more, plus the rate times t-s |
| `RateLimit.RateBoundFromNew` | internal/ratelimit/ratelimit.go:36-62 | the same for a bucket as New makes it |
| `RateLimit.WaitsForExcessOnly` | internal/ratelimit/ratelimit.go:104-126 | the other half, over every schedule: a request waits only if some requests that end with it exceed the burst, or what the bucket held, and the rate; and then exactly as long as the rate needs for the largest such excess |
| `RateLimit.DebtIsLargestExcess` | internal/ratelimit/ratelimit.go:104-126 | what the bucket lacks after a request is that largest excess |
| `RateLimit.IdleMeansNoWait` | internal/ratelimit/ratelimit.go:104-126 | after enough idle time a request of at most the burst does not wait |
| `RateLimit.UpTo` | internal/ratelimit/ratelimit.go:104-126 | everything granted up to t fits under the rate since the bucket's level |
| `RateLimit.DueInOrder` | internal/ratelimit/ratelimit.go:104-126 | grants fall due in the order of the reservations |
| `Bencode.RoundTrip` | internal/bencode/decode.go:179-227 | decoding an encoded value with anything after it gives the value and stops at its end, exactly when it is at most 64 levels high; a taller one is refused as too deep |
| `Bencode.ParsedIsSkipped` | internal/bencode/decode.go:47-87 | whatever is decoded is skipped too, to the same end |
| `Bencode.SkipsExactly` | internal/bencode/decode.go:39-45 | skipping captures exactly the bytes of an encoding |
| `Bencode.ParsedIsWell` | internal/bencode/decode.go:179-227 | whatever decodes has 64-bit integers, keys in order once each, and fits the depth limit |
| `Bencode.ReencodedDecodesTheSame` | internal/bencode/encode.go:29-149 | what was decoded, encoded again, decodes to the same value |
| `Bencode.InsertKeepsOrder` | internal/bencode/encode.go:134-138 | assigning to a key keeps the entries in ascending order |
| `Bencode.StringRoundTrip` | internal/bencode/decode.go:141-167 | a printed byte string scans back, whatever it contains and whatever follows |
| `Bencode.IntRoundTrip` | internal/bencode/decode.go:90-137 | a printed 64-bit integer scans back |
| `Bencode.ScannedIntIsPrinted` | internal/bencode/decode.go:90-137 | and nothing else does: an integer is accepted only in the form in which it is printed |
| `Bencode.ScannedStringIsPrinted` | internal/bencode/decode.go:141-167 | so for strings |
| `Decimal.ItoaRoundTrip` | internal/bencode/decode.go:141-167 | printed numbers are digits without a leading zero and read back as themselves |
| `BencodeCode.DecodeState.ScanIntToken` | internal/bencode/decode.go:90-137 | value and end, or a syntax error, as specified |
| `BencodeCode.DecodeState.ScanStringToken` | internal/bencode/decode.go:141-167 | value and end, or a syntax error: no length, leading zero, not a number, overrun |
| `BencodeCode.DecodeState.DecodeValue` | internal/bencode/decode.go:179-227 | value and end, or the error; the depth counter is restored on every way out |
| `BencodeCode.DecodeState.DecodeList` | internal/bencode/decode.go:323-353 | the list loop |
| `BencodeCode.DecodeState.DecodeDict` | internal/bencode/decode.go:406-457 | the dictionary loop, a repeated key keeping its last value |
| `BencodeCode.DecodeState.SkipValue` | internal/bencode/decode.go:47-87 | end or error of skipping |
| `BencodeCode.DecodeState.RawValue` | internal/bencode/decode.go:39-45 | the raw bytes skipped |
| `BencodeCode.Unmarshal` | internal/bencode/decode.go:15-22 | decodes the first value and ignores what follows |
| `BencodeCode.Encoder.MarshalValue` | internal/bencode/encode.go:29-110 | appends exactly the encoding |
| `BencodeCode.Encoder.WriteByteString` | internal/bencode/encode.go:112-116 | length, colon, bytes |
| `BencodeCode.Encoder.MarshalList` | internal/bencode/encode.go:118-127 | the members between l and e |
| `BencodeCode.Encoder.MarshalMap` | internal/bencode/encode.go:129-149 | the entries in key order between d and e |
| `BencodeCode.MarshalThenUnmarshal` | internal/bencode/encode.go:16-27 | the two together give the value back exactly when it is at most 64 levels high |
| `DhtId.Xor` | internal/dht/id.go:33-39 | byte by byte exclusive or |
| `DhtId.Less` | internal/dht/id.go:45-52 | the order of the ids as big-endian numbers |
| `DhtId.CommonPrefixLen` | internal/dht/id.go:58-71 | the number of leading bits shared |
| `DhtId.NearerIsTotal` | internal/dht/id.go:33-52 | of two ids one is strictly nearer to a target unless they are the same |
| `DhtId.XorInjective` | internal/dht/id.go:33-39 | no two ids are at the same distance |
| `DhtId.LongerPrefixIsNearer` | internal/dht/id.go:58-71 | sharing more leading bits with a target means being nearer: buckets are distance rings |
| `DhtId.PrefixLenSymmetric` | internal/dht/id.go:58-71 | the number of shared bits does not depend on the order |
| `Dht.InsertInBucket` | internal/dht/table.go:83-103 | refreshed and moved to the tail, appended, in place of the first bad contact, or dropped |
| `Dht.InsertedKeeps` | internal/dht/table.go:83-103 | no contact that is not bad is ever displaced, and a newcomer is dropped only from a full bucket without bad contacts |
| `Dht.BucketSharesPrefix` | internal/dht/table.go:126-133 | a contact in bucket b shares exactly b leading bits with the owner |
| `Dht.Table.Insert` | internal/dht/table.go:136-143 | only the contact's own bucket changes, and the table's owner is never inserted |
| `Dht.Table.MarkFailed` | internal/dht/table.go:148-157 | the contact of that id has one failure more, and nothing else changes; no contact, no change |
| `Dht.Table.FindClosest` | internal/dht/table.go:162-179 | the min(k, n) ids of all buckets nearest to the target, in order |
| `Dht.EachIdOnce` | internal/dht/table.go:126-143 | no id is in the table twice, in one bucket or in two |
| `Dht.Closest` | internal/dht/lookup.go:83-93 | sort by distance and keep k |
| `Dht.ClosestIsUnique` | internal/dht/lookup.go:83-93 | the answer is determined by the set |
| `Dht.PickRound` | internal/dht/lookup.go:96-112 | the at most three nearest not yet asked among the eight nearest known, marked as asked |
| `Dht.AskRound` | internal/dht/lookup.go:114-151 | whatever the answers: each contact that failed to answer has one failure more on record and nothing else in the table changes, and exactly the ids named by the others are learned |
| `Dht.Merge` | internal/dht/lookup.go:142-148 | new ids are learned, known ones keep their entry |
| `Dht.IterativeLookup` | internal/dht/lookup.go:72-166 | for arbitrary answers: at most 20 rounds of at most three and 60 queries in all; the result is the eight nearest ids ever heard of, all asked unless rounds ran out or the caller gave up; each under the address that the table held for it, or else the first answer to name it; the table keeps its contacts |
| `Dht.AskedOnce` | internal/dht/lookup.go:96-108 | no contact is asked twice |
| `Choking.Choker.Run` | internal/choker/choker.go:100-147 | min(slots, interested) peers are unchoked, all interested, one fewer exactly when the optimistic slot is drawn anew and the draw falls on a peer with the empty id; so none is lost when no interested peer has that id; regular slots go to rates no lower than any choked peer's; the optimistic peer keeps its slot until rotation is due |
| `Choking.Choker.Rank` | internal/choker/choker.go:101-121 | the interested peers fastest first, equals in the order given, everyone else choked, counters recorded |
| `Choking.Choker.PickOptimistic` | internal/choker/choker.go:152-182 | the peer kept or drawn for the last slot, and exactly when there is none |
| `Choking.Choker.SetChoking` | internal/choker/choker.go:138-146 | exactly the chosen are unchoked |
| `Choking.FasterThanChoked` | internal/choker/choker.go:121-146 | whoever has a regular slot is no slower than anyone choked |
| `Choking.RunTwice` | internal/choker/choker.go:100-146 | over two runs in a row, slots go by what each peer has given in between |
| `Choking.AnyoneMayBeDrawn` | internal/choker/choker.go:165-177 | everyone behind the regular slots may be drawn, and nobody else |
| `Choking.SizeOfChosen` | internal/choker/choker.go:123-146 | the number of slots used |
| `Choking.EmptyIdIsNeverUnchoked` | internal/choker/choker.go:152-182 | the only interested peer, with the empty id and a free slot, stays choked |
| `Choking.InsertByRate` | internal/choker/choker.go:121-121 | one step of the stable sort by rate, descending |
| `Queue.SortByPriority` | internal/engine/queue.go:236-243 | force-started first, then by position; the same candidates |
| `Queue.SelectAllowedIsFirst` | internal/engine/queue.go:247-252 | on a sorted list, the first max by priority |
| `Queue.CapTotal` | internal/engine/queue.go:259-281 | what is kept of both kinds is the first maxTotal of their union |
| `Queue.KeepObeysCaps` | internal/engine/queue.go:192-196 | all three caps are obeyed |
| `Queue.KeepIsMaximal` | internal/engine/queue.go:192-196 | whoever is left out is left out by a cap that is used up |
| `Queue.KeepIsClosed` | internal/engine/queue.go:192-196 | within a kind, whoever runs, everyone ahead of it runs too |
| `Queue.OverKindsOnlyByCap` | internal/engine/queue.go:259-281 | across kinds only a torrent's own cap lets a later one run in its place |
| `Queue.Engine.ReevaluateQueue` | internal/engine/queue.go:143-223 | the fleet after a pass |
| `Queue.Engine.Apply` | internal/engine/queue.go:206-222 | the loop that resumes and pauses |
| `Queue.PassMeans` | internal/engine/queue.go:171-222 | torrents that are paused with the flag down, or not ready, stay exactly as they are; the candidates that respond run exactly when kept, resumed as what they were and paused with the flag up |
| `Queue.NobodyOvertakes` | internal/engine/queue.go:171-243 | of two torrents of one kind that respond, one runs after a pass and the other does not only if it is forced and the other not, or comes first in the queue |
| `Queue.RunningObeysCaps` | internal/engine/queue.go:192-222 | when every torrent responds, no more run after a pass than each cap allows |
| `Queue.ExactlyTheKeptRun` | internal/engine/queue.go:198-222 | when every torrent responds, exactly the kept ones run after a pass |
| `Queue.SecondPassIsQuiet` | internal/engine/queue.go:143-223 | a second pass calls on exactly those torrents of the first that did not respond: on none if all did |
| `Queue.Engine.SetQueuePosition` | internal/engine/queue.go:54-96 | the move, followed by a pass; unknown torrents are refused |
| `Queue.MoveIsPermutation` | internal/engine/queue.go:65-91 | positions become 0 to n-1 each once, the torrent is where it was asked to be, clamped, and the others keep their order |
| `Queue.Engine.Add` | internal/engine/engine.go:690-698 | positions are handed out once, so no two torrents share one |
| `Queue.Engine.SetForceStart` | internal/engine/queue.go:102-114 | the flag, followed by a pass |
| `Queue.Engine.Remove` | internal/engine/engine.go:743-759 | the torrent is gone, and nothing else changes |
| `Queue.Engine.Pause` | internal/torrent/run.go:139-151 | an active torrent is paused; the engine, and so the flag, takes no note |
| `Queue.Engine.Resume` | internal/torrent/run.go:153-169 | a paused torrent goes on with what it was doing; the flag takes no note |
| `QueueHistory.FlagMeans` | internal/engine/queue.go:206-230 | over every history of additions, removals, pauses, resumes, changes and passes: the flag is up exactly when the queue's last word on the torrent since it was added was a pause |
| `QueueHistory.PauseLastsIff` | internal/engine/queue.go:127-142 | over every history, whoever paused it: the queue never resumes a torrent that is left alone if and only if there are no caps, it no longer answers, or every queue pause has been followed by a queue resume |
| `QueueHistory.OutsidePauseLastsIff` | internal/torrent/torrent.go:1211-1214 | the same for a torrent that someone has just paused from outside |
| `QueueHistory.LastsIff` | internal/engine/queue.go:171-177 | the same in terms of what the next pass reads: the caps, the flag, and whether the torrent answers |
| `QueueHistory.SweptUp` | internal/engine/queue.go:171-215 | otherwise the torrent is resumed as soon as the others are gone, though nothing has named it |
| `QueueHistory.HeldPauseIsLost` | internal/engine/queue.go:131-135 | pausing a torrent that the queue already holds is lost |
| `QueueHistory.StaleFlagLosesPause` | internal/engine/queue.go:206-222 | so is pausing one that the queue held and someone resumed by hand: the flag was never lowered |

## Left out

- The HTTP API, command line, terminal interface, logging, streaming, watch folders and installer: plumbing around the parts modelled here.
- Sockets, proxies, port mapping and multicast: the network is a byte stream per direction, or arbitrary delivery.
- Real file I/O, memory mapping, permissions and operating-system errors: a file is its bytes, and opening one fails when it is missing or, in the handle cache, whenever the caller says so.
- Allocation of files: the storage model starts from files of any size, or missing because they were skipped.
- Concrete SHA-1, SHA-256 and RC4 and the source of random numbers: arbitrary functions and arbitrary choices.
- Mutexes and goroutines: each locked section is one step; the answers of a lookup round are merged one after another.
- Overflow of 64-bit sums of lengths: integers are unbounded, except where the source itself checks, in bencode and in the v1 file list.
- FileTree.Put: the nested maps are values that are rebuilt, not maps updated through references; the sort before the walk is the order in which a dictionary is kept.
- FileTree.ParseFileTree: takes the decoded value, not its bytes (Bencode covers those); the decoder's limit of 64 levels, which no safe path reaches, is checked there and not here.
- Build.Build: version 1 torrents, trackers, comments and the other fields that are only copied.
- MSE: a read that would block is the end of what was delivered; deadlines and custom method selectors are left out.
- Blocks.FillMeans: a piece's progress is a value kept in the picker's map, not an object updated through a pointer, so aliasing of it is not captured.
- Picker.Picker.Pick: a set stands for the callback that says what a peer has, and for the packed bitfield of pieces held; that the bitfield is such a set is proved separately.
- Picker: cancel requests for other peers and the tracing callback.
- Simulator.Swarm.FillConnection: after a missing view is used the run is over, where the program would crash.
- Simulator.Swarm.RunChoker: which peer an optimistic slot drawn anew falls on is arbitrary here; `Choking.Choker.Run` says which.
- Simulator: after they have been added, nodes are known by their positions, so that peers are visited in that order and not in the order of their names; and transfer times are rounded down to nanoseconds instead of through floating point.
- FlatStorage.LocalIffDistinct: for storage in which every file exists and is allocated; otherwise a write also fills the gap before it in a short file, and nothing else, given distinct paths (FlatStorage.PutIsLocal).
- RateLimit.RateBound: a constant rate, no cancelled wait, and exact reals in place of floating point and nanosecond rounding.
- RateLimit.RateBoundFromNew: under the same conditions.
- Bencode: reflection, struct tags, arrays, unsigned integers and booleans; one value type stands for what an untyped decode produces.
- Bencode.InsertKeepsOrder: a dictionary is kept as its entries sorted by key, so the map's sort before printing is not a separate step.
- Dht: announcing, tokens, maintenance pings and persistence; network addresses are numbers.
- Choking.Choker.Run: choking and unchoking always take effect; reaping old counters is left out.
- Queue: persistence of positions; a stopped torrent is one that does not respond, and a pass is one step, so that nothing else happens between its snapshot and its calls.
