/** The records the file layer produces: file metadata, the share record of
    `createFileShareInfo` (src/file/utils.ts), and the upload options that
    `File.uploadData` merges with its defaults (src/file/file.ts). */
module Metadata {
  import opened Results
  import opened Chunking

  /** A pod's owning address (`Utils.EthAddress`), as bytes. */
  type Address = Bytes

  /** `FileMetadata`: what `uploadData` stores at the file's feed slot. */
  datatype FileMetadata = FileMetadata(
    version: int,
    userAddress: Address,
    podName: string,
    filePath: string,
    fileName: string,
    fileSize: nat,
    blockSize: int,
    contentType: string,
    compression: string,
    creationTime: int,
    accessTime: int,
    modificationTime: int,
    blocksReference: Reference)

  /** What a metadata read returns: a record that passes the file-record
      shape check, or any other record (a directory record, say). */
  datatype RawMetadata = FileRecord(file: FileMetadata) | OtherRecord

  /** `FileShareInfo`: the metadata plus the hex of the owning pod address. */
  datatype FileShareInfo = FileShareInfo(meta: FileMetadata, sourceAddress: string)

  /** `createFileShareInfo`; `bytesToHex` is a parameter because its
      definition (src/utils/hex.ts) is not part of this model. */
  function CreateFileShareInfo(meta: FileMetadata, podAddress: Address, bytesToHex: Address -> string): (r: FileShareInfo)
    ensures r.meta == meta
    ensures r.sourceAddress == bytesToHex(podAddress)
  {
    FileShareInfo(meta, bytesToHex(podAddress))
  }

  /** The share record hides nothing and adds nothing: its metadata is the
      input metadata unchanged, its address is the hex of the pod address,
      and so, when hex encoding is injective, equal records come from equal
      inputs. */
  lemma ShareInfoFaithful(meta: FileMetadata, podAddress: Address, bytesToHex: Address -> string,
                          meta': FileMetadata, podAddress': Address)
    ensures CreateFileShareInfo(meta, podAddress, bytesToHex).meta == meta
    ensures CreateFileShareInfo(meta, podAddress, bytesToHex).sourceAddress == bytesToHex(podAddress)
    ensures (forall a, b :: bytesToHex(a) == bytesToHex(b) ==> a == b) ==>
      (CreateFileShareInfo(meta, podAddress, bytesToHex) == CreateFileShareInfo(meta', podAddress', bytesToHex)
       <==> meta == meta' && podAddress == podAddress')
  {
  }

  /** `DataUploadOptions` after merging: every field has a value. */
  datatype UploadOptions = UploadOptions(blockSize: int, contentType: string)

  /** The options a caller may pass: each field may be left out. */
  datatype CallerOptions = CallerOptions(blockSize: Option<int>, contentType: Option<string>)

  /** `File.defaultUploadOptions`. */
  const DefaultUploadOptions := UploadOptions(1000000, "")

  /** `{ ...defaults, ...options }`: a field the caller supplies replaces the
      default, a field it leaves out keeps the default; no options at all
      gives the defaults. */
  function MergeOptions(defaults: UploadOptions, options: Option<CallerOptions>): (r: UploadOptions)
    ensures options.None? ==> r == defaults
    ensures options.Some? && options.value.blockSize.Some? ==> r.blockSize == options.value.blockSize.value
    ensures options.Some? && options.value.blockSize.None? ==> r.blockSize == defaults.blockSize
    ensures options.Some? && options.value.contentType.Some? ==> r.contentType == options.value.contentType.value
    ensures options.Some? && options.value.contentType.None? ==> r.contentType == defaults.contentType
  {
    match options
    case None => defaults
    case Some(o) =>
      UploadOptions(
        match o.blockSize case Some(b) => b case None => defaults.blockSize,
        match o.contentType case Some(c) => c case None => defaults.contentType)
  }

  /** Merging is a right-biased overlay: caller options that set every field
      ignore the defaults, empty caller options are the defaults, and merging
      a merged result again changes nothing. */
  lemma MergeOptionsLaws(defaults: UploadOptions, o: CallerOptions)
    ensures o.blockSize.Some? && o.contentType.Some? ==>
      MergeOptions(defaults, Some(o)) == UploadOptions(o.blockSize.value, o.contentType.value)
    ensures MergeOptions(defaults, Some(CallerOptions(None, None))) == defaults
    ensures var m := MergeOptions(defaults, Some(o));
      MergeOptions(m, Some(o)) == m
  {
  }
}
