# fdp-storage file layer — a Dafny model

This project models the file layer of fdp-storage, a TypeScript client that
stores files in a content-addressed store (Swarm) under pods, directories and
per-path metadata feeds. It covers two source files:

- `src/file/utils.ts`: the full-path validator `assertFullPathWithName`, the
  decomposition `extractPathInfo` into directory and file name, and the share
  record `createFileShareInfo`.
- `src/file/file.ts`: `File.uploadData` (option merge, block split, block
  manifest, metadata record, effect order), `File.delete` and `File.share`.

Modules, one concept each:

- `Results` (`results.dfy`): `Option`, `Result` and `Outcome`, the value-or-error types.
- `Paths` (`paths.dfy`): JavaScript `trim`, `split('/')` and `join('/')` on
  character sequences; the validator; the decomposition. An independent
  character-level predicate, `IsValidFullPath`, says which paths are
  accepted. Independent `LastSegment` and `DirPrefix` say what the file name
  and the directory are.
- `Chunking` (`chunking.dfy`): integer `ceil(n / blockSize)`, JavaScript
  `slice`, the slices and the block manifest. `UploadBlocks` is the loop of
  `uploadData` written as a loop.
- `Metadata` (`metadata.dfy`): the `FileMetadata`, `FileShareInfo` and
  upload-option records, the option merge, and `createFileShareInfo`.
- `FileOps` (`fileops.dfy`): the three `File` operations as pure functions.
  Each returns its result and the ordered log of network effects it
  performed. Collaborators whose code is outside this model are fields of an
  `Env` value. These are the pod lookup, `uploadBytes` as an upload oracle,
  `generateBlockName`, the serialisers, `bytesToHex`, the metadata read, the
  clock (`now`) and `META_VERSION`. `Proceeds` is the condition under which
  each operation passes its checks and finds its pod; the properties of
  successful runs take it as their precondition.
- `DirectoryStore` (`directory_store.dfy`): what the effect log does to the
  directory entries and the metadata feed slots. This gives the
  upload/delete/re-upload properties their meaning.

Behaviour of the code worth knowing:

- Empty data produces a manifest with zero blocks (`Math.ceil(0 / b) = 0`),
  not one empty block.
- `uploadData` adds the directory entry before it writes the metadata feed.
  So there is a state in which the entry exists while the feed slot still
  holds the old metadata, or none
  (`DirectoryStore.UploadEntryVisibleBeforeMetadata`).
- The validator rejects whitespace only at the two ends of the path. Empty
  interior segments are accepted. As a result `//name` and `/name` both
  decompose to directory `/` and file name `name`, while the feed topic stays
  the full path (`Paths.DecompositionNotInjective`). Recomposing a valid
  path's decomposition gives it back exactly when the text before its last
  slash is not a lone `/`, that is, unless the path has the form `//name`
  (`Paths.RecomposeRoundTrip`).
- The timestamps of a re-upload are all fresh. The original creation time is
  not kept (`DirectoryStore.ReuploadOverwrites`).

## Model

| member | source | states |
|---|---|---|
| Paths.TrimKeepsLength | src/file/utils.ts:24-26 | `trim` leaves the length unchanged exactly when neither the first nor the last character is JavaScript whitespace, so the check rejects whitespace at either end and never trims |
| Paths.Split | src/file/utils.ts:32-36 | `split('/')` yields at least one slash-free piece, and at least two once the first character is `/`, so the "at least one file or directory name" branch cannot be reached after the `/` check |
| Paths.JoinSplit | src/file/utils.ts:67-74 | joining the pieces of `split('/')` with `/` gives back the string |
| Paths.SplitLast | src/file/utils.ts:67-74 | for a string starting with `/`, the popped last piece is the text after the last slash, the rest joined is the text before it, and the string is those two around a slash |
| Paths.ValidateFullPath | src/file/utils.ts:17-45 | `assertFullPathWithName` accepts a path iff `IsValidFullPath` holds of it (starts with `/`, last character neither `/` nor whitespace), and never raises the no-name error; the error for each rejected input is characterised by `Paths.ValidateFullPathErrors` |
| Paths.ValidateFullPathErrors | src/file/utils.ts:17-45 | exactly which inputs raise each error, in check order: empty; whitespace at either end; not starting with `/`; ending with `/` (empty name). The no-name error is never raised, and a path is accepted iff `IsValidFullPath` |
| Paths.ExtractPathInfo | src/file/utils.ts:65-80 | `extractPathInfo` succeeds iff the path is valid, fails with the validator's own error otherwise, and on success the name is the text after the last slash and the directory the text before it, or `/` when that is empty |
| Paths.ExtractPathInfoResult | src/file/utils.ts:65-80 | decomposition succeeds iff the path is valid, and otherwise fails with the validator's error ("must contain a file" is unreachable). The file name is the non-empty, slash-free last segment. The directory is the text before the last slash, or `/` when that is empty, and that text plus `/` plus the name is the full path |
| Paths.RecomposeRoundTrip | src/file/utils.ts:67-79 | for every valid path, directory + `/` + name (just `/` + name when the directory is `/`) rebuilds the full path iff the text before the last slash is not a lone `/`, i.e. the path is not `//name` |
| Paths.RecomposeWithoutEmptySegments | src/file/utils.ts:67-79 | in particular the round trip holds for every valid path without an empty segment |
| Paths.DecompositionNotInjective | src/file/utils.ts:67-79 | `//name` and `/name` are distinct, both accepted, and both decompose to (`name`, `/`) |
| Chunking.BlockCount | src/file/file.ts:85 | the block count is the least `q` with `q * blockSize >= n`, i.e. `Math.ceil(n / blockSize)` for a positive block size |
| Chunking.EmptyDataNoBlocks | src/file/file.ts:85-87 | there are no blocks exactly when the data is empty |
| Chunking.ChunkShape | src/file/file.ts:87-88 | slice `i` is bytes `[i*b, min((i+1)*b, n))`; it is non-empty; every slice but the last has exactly `b` bytes, and the last has the remainder |
| Chunking.ChunksReassemble | src/file/file.ts:87-88 | concatenating the slices in index order reproduces the data |
| Chunking.ManifestShape | src/file/file.ts:87-96 | one block per slice in index order. Block `i` has the generated name for `i`, `size` and `compressedSize` both equal to the length of slice `i`, and the upload reference of slice `i`. All but the last block are full, the last is non-empty, and the sizes add up to the data length |
| Chunking.UploadBlocks | src/file/file.ts:85-96 | the loop's manifest is the block manifest above, and the slices it uploads, in order, are the slices and concatenate to the data |
| Metadata.CreateFileShareInfo | src/file/utils.ts:120-125 | the share record carries the metadata unchanged and, as source address, the hex of the pod address; `Metadata.ShareInfoFaithful` adds that it is injective when the hex encoding is |
| Metadata.ShareInfoFaithful | src/file/utils.ts:120-125 | the share record carries the metadata unchanged and the hex of the pod address; with an injective hex encoding, equal records come from equal inputs |
| Metadata.MergeOptions | src/file/file.ts:69 | each option the caller supplies replaces the default, each one left out keeps it; no options give the defaults |
| Metadata.MergeOptionsLaws | src/file/file.ts:22-25 | fully specified caller options ignore the defaults (`blockSize` 1000000, `contentType` empty), empty caller options are the defaults, and merging twice equals merging once |
| FileOps.CheckUpload | src/file/file.ts:70-73 | `uploadData` passes its checks iff the account is active, the pod name is valid and the path is valid; the errors come in that order |
| FileOps.CheckPathFirst | src/file/file.ts:129-131 | `delete` and `share` pass their checks under the same condition, but check the path before the pod name |
| FileOps.UploadData | src/file/file.ts:63-120 | no effect at all iff a check fails, and then the check's error. Otherwise the pod lookup is first, and an unknown pod ends there. On success the three timestamps equal `now`; compression is empty; block size and content type come from the merged options; the name and directory come from the decomposition; the size is the data length and the sum of the block sizes; the manifest reference is the upload of the encoded manifest. The log is lookup, slice uploads, manifest upload, entry add, feed write |
| FileOps.UploadEffectOrder | src/file/file.ts:85-117 | in a successful upload the only uploads are the slices, in order (they concatenate to the data), and then the manifest. They are followed by the entry add (`isFile` true) and, last, the one feed write of the returned metadata at topic `fullPath` |
| FileOps.Delete | src/file/file.ts:128-142 | no effect iff a check fails. On success the log is the pod lookup followed by the removal of the file's entry (`isFile` true), and no feed write or upload ever happens |
| FileOps.Share | src/file/file.ts:150-168 | no effect iff a check fails. An upload happens iff the call succeeds, which requires the read record to pass the file-record shape check. A record that fails it gives the shape error and no upload. On success the log is lookup, read, and one upload of the share record built from the metadata and the pod address hex, and the result is that upload's reference |
| DirectoryStore.UploadPublishes | src/file/file.ts:116-117 | a successful upload adds exactly the file's entry and sets exactly the feed slot (signing key, `fullPath`) to the returned metadata |
| DirectoryStore.UploadEntryVisibleBeforeMetadata | src/file/file.ts:116-117 | just before the feed write the new entry is present while every feed slot still holds its value from before the upload |
| DirectoryStore.DeleteRemovesEntryOnly | src/file/file.ts:141 | a successful delete removes exactly the file's entry and leaves every feed slot unchanged |
| DirectoryStore.FailuresChangeNothing | src/file/file.ts:70-81 | an upload, delete or share that fails its checks or its pod lookup, and a share whose metadata read or file-record shape check fails, changes neither entries nor feeds |
| DirectoryStore.ShareChangesNothing | src/file/file.ts:163-167 | share never changes entries or feeds |
| DirectoryStore.UploadThenDelete | src/file/file.ts:116-141 | after upload then delete of a path the entry is absent, while its feed slot still holds the uploaded metadata (logical deletion) |
| DirectoryStore.FreshStamps | src/file/file.ts:100-117 | after a successful upload from any prior state, the path's slot holds metadata with the new size and all three timestamps equal to the upload's clock, and the entry is present |
| DirectoryStore.ReuploadOverwrites | src/file/file.ts:110-117 | a second upload to the same path, with its own options, replaces the slot's metadata: after the first upload the slot holds the first metadata, after the second the new size and creation, access and modification times all equal to the second upload's clock. This rests on the entry add being a set insertion: a second `addEntryToDirectory` (file.ts:116) that rejected an existing entry would throw before the feed write (file.ts:117) |

## Left out

- `File.downloadData` (src/file/file.ts:35-53): it delegates to `downloadData` in `src/file/handler.ts`, which is not part of this model.
- Network and store calls are oracles or logged effects, not implementations. This covers `uploadBytes` with its batch id and the pin and encrypt flags, `getExtendedPodsList`, `writeFeedData`, `addEntryToDirectory`, `removeEntryFromDirectory`, `getRawMetadata`, `downloadBlocksManifest`. Their transport failures, retries and timeouts are not modelled; an upload always returns a reference.
- The directory-entry handlers are not part of this model. An entry add or remove is a set insertion or removal; whether the real handlers reject duplicate or missing entries is not modelled.
- `base64toReference` and `referenceToBase64` (src/file/utils.ts:104-115): thin wrappers over CryptoJS encoders whose code is not visible.
- Serialisation (`blocksToManifest`, `getFileMetadataRawBytes`, `stringToBytes`, JSON encoding) and `bytesToHex` are `Env` parameters. The raw file-metadata record is represented by the same `FileMetadata` datatype, because its field encoding lives in files outside this model. `assertRawFileMetadata` is the tag test of `RawMetadata`.
- `assertActiveAccount` and `assertPodName` are a session flag and a predicate parameter, because their definitions are outside this model. The second `assertPodName` call in `uploadData` (src/file/file.ts:73) cannot fail after the first and is not repeated.
- `assertString` (src/file/utils.ts:18): non-string inputs cannot arise in the typed model.
- Floating-point `Math.ceil`, and non-integer or non-positive block sizes. `UploadData` requires the merged block size to be a positive integer; in JavaScript, 0 gives NaN/Infinity behaviour.
- Caller options with a field explicitly set to `undefined` (which a JavaScript spread copies over the default) are not modelled. A field is either supplied or left out.
- Strings are sequences of characters, not UTF-16 code units, so `value[0]` and `trim` act on characters.
- DirectoryStore.FailuresChangeNothing: covers only the failures the model produces. If `writeFeedData` (src/file/file.ts:117) fails after `addEntryToDirectory` (src/file/file.ts:116) succeeded, the entry stays without its metadata; that is the intermediate state of `DirectoryStore.UploadEntryVisibleBeforeMetadata`, made permanent, and is not modelled as a failure.
- Concurrent uploads to the same path and the process-wide active-account state are not modelled.
