/** `File.uploadData`, `File.delete` and `File.share` of src/file/file.ts as
    pure functions. Every network call becomes an `Effect` appended to a log
    in call order, and every collaborator whose code is not part of this model
    (pod lookup, uploads, serialisers, the clock) is a field of `Env`. A
    thrown error is a `Failure` result; the log then holds the effects that
    happened before the throw. */
module FileOps {
  import opened Results
  import opened Paths
  import opened Chunking
  import opened Metadata

  datatype Wallet = Wallet(address: Address, privateKey: Bytes)

  /** What `getExtendedPodsList` returns for a pod. */
  datatype PodInfo = PodInfo(podAddress: Address, podWallet: Wallet)

  /** `uploadData` accepts bytes or a string, which it converts to bytes. */
  datatype Payload = BinaryData(bytes: Bytes) | TextData(text: string)

  datatype FsError =
    | AccountNotActive           // assertActiveAccount
    | InvalidPodName             // assertPodName
    | BadPath(pathError: PathError)
    | PodNotFound                // getExtendedPodsList
    | MetadataNotFound           // getRawMetadata
    | NotAFileRecord             // assertRawFileMetadata

  /** The network calls, in the terms the source uses. */
  datatype Effect =
    | ResolvePod(podName: string)                                         // getExtendedPodsList
    | Upload(payload: Bytes)                                              // uploadBytes
    | AddEntry(owner: Wallet, parent: string, name: string, isFile: bool) // addEntryToDirectory
    | RemoveEntry(owner: Wallet, parent: string, name: string, isFile: bool) // removeEntryFromDirectory
    | WriteFeed(topic: string, meta: FileMetadata, signingKey: Bytes)     // writeFeedData
    | ReadMetadata(topic: string, podAddress: Address)                    // getRawMetadata

  /** The session and the collaborators of `File`. */
  datatype Env = Env(
    accountActive: bool,                              // assertActiveAccount passes
    isPodName: string -> bool,                        // assertPodName passes
    lookupPod: string -> Option<PodInfo>,             // getExtendedPodsList
    upload: Bytes -> Reference,                       // uploadBytes(...).reference
    blockName: nat -> string,                         // generateBlockName
    manifestBytes: seq<Block> -> Bytes,               // stringToBytes(blocksToManifest(...))
    stringToBytes: string -> Bytes,
    shareBytes: FileShareInfo -> Bytes,               // stringToBytes(JSON.stringify(...))
    bytesToHex: Address -> string,
    readMetadata: (string, Address) -> Option<RawMetadata>, // getRawMetadata(...).metadata
    now: int,                                         // getUnixTimestamp()
    metaVersion: int)                                 // META_VERSION

  /** The result of an operation together with the effects it performed. */
  datatype Run<T> = Run(result: Result<T, FsError>, log: seq<Effect>)

  /** The directory `extractPathInfo` reports for a valid path. */
  function DirOf(fullPath: string): string {
    var p := DirPrefix(fullPath);
    if p == "" then "/" else p
  }

  function PayloadBytes(env: Env, data: Payload): Bytes {
    match data
    case BinaryData(b) => b
    case TextData(s) => env.stringToBytes(s)
  }

  /** One upload effect per slice, in order. */
  function UploadEffects(parts: seq<Bytes>): (effects: seq<Effect>)
    ensures |effects| == |parts|
    ensures forall i :: 0 <= i < |parts| ==> effects[i] == Upload(parts[i])
  {
    seq(|parts|, i requires 0 <= i < |parts| => Upload(parts[i]))
  }

  // ---------------------------------------------------------------------
  // Validation, before any network call

  /** The checks of `uploadData`: account, pod name, then path. (The source
      checks the pod name a second time after the path; that check cannot
      fail once the first has passed.) */
  function CheckUpload(env: Env, podName: string, fullPath: string): (r: Outcome<FsError>)
    ensures r == Pass <==> env.accountActive && env.isPodName(podName) && IsValidFullPath(fullPath)
    ensures !env.accountActive ==> r == Fail(AccountNotActive)
    ensures env.accountActive && !env.isPodName(podName) ==> r == Fail(InvalidPodName)
    ensures env.accountActive && env.isPodName(podName) && !IsValidFullPath(fullPath) ==>
      r.Fail? && r.error.BadPath? && ValidateFullPath(fullPath) == Fail(r.error.pathError)
  {
    ValidateFullPathErrors(fullPath);
    if !env.accountActive then Fail(AccountNotActive)
    else if !env.isPodName(podName) then Fail(InvalidPodName)
    else match ValidateFullPath(fullPath)
      case Fail(e) => Fail(BadPath(e))
      case Pass => Pass
  }

  /** The checks of `delete` and `share`: account, path, then pod name. */
  function CheckPathFirst(env: Env, podName: string, fullPath: string): (r: Outcome<FsError>)
    ensures r == Pass <==> env.accountActive && env.isPodName(podName) && IsValidFullPath(fullPath)
    ensures !env.accountActive ==> r == Fail(AccountNotActive)
    ensures env.accountActive && !IsValidFullPath(fullPath) ==>
      r.Fail? && r.error.BadPath? && ValidateFullPath(fullPath) == Fail(r.error.pathError)
    ensures env.accountActive && IsValidFullPath(fullPath) && !env.isPodName(podName) ==>
      r == Fail(InvalidPodName)
  {
    ValidateFullPathErrors(fullPath);
    if !env.accountActive then Fail(AccountNotActive)
    else match ValidateFullPath(fullPath)
      case Fail(e) => Fail(BadPath(e))
      case Pass => if !env.isPodName(podName) then Fail(InvalidPodName) else Pass
  }

  /** The condition under which every one of the three operations passes its
      checks and finds its pod: the account is active, the pod name and the
      path are valid, and the pod exists. */
  predicate Proceeds(env: Env, podName: string, fullPath: string) {
    env.accountActive && env.isPodName(podName) && IsValidFullPath(fullPath) && env.lookupPod(podName).Some?
  }

  // ---------------------------------------------------------------------
  // Operations

  /** `File.uploadData`. A failed check performs no effect. Otherwise the pod
      is resolved; then every slice is uploaded in index order, then the
      manifest; then the directory entry is added, and last the metadata is
      written to the feed at topic `fullPath`; the metadata written is the
      metadata returned. */
  function UploadData(env: Env, podName: string, fullPath: string, data: Payload, callerOptions: Option<CallerOptions>)
    : (run: Run<FileMetadata>)
    requires MergeOptions(DefaultUploadOptions, callerOptions).blockSize > 0
    ensures run.log == [] <==> CheckUpload(env, podName, fullPath).Fail?
    ensures CheckUpload(env, podName, fullPath).Fail? ==>
      run.result == Failure(CheckUpload(env, podName, fullPath).error)
    ensures run.log != [] ==> run.log[0] == ResolvePod(podName)
    ensures CheckUpload(env, podName, fullPath).Pass? && env.lookupPod(podName).None? ==>
      run.result == Failure(PodNotFound) && run.log == [ResolvePod(podName)]
    ensures run.result.Success? <==> CheckUpload(env, podName, fullPath).Pass? && env.lookupPod(podName).Some?
    ensures run.result.Success? ==>
      var meta := run.result.value;
      var options := MergeOptions(DefaultUploadOptions, callerOptions);
      var bytes := PayloadBytes(env, data);
      var pod := env.lookupPod(podName).value;
      var blocks := Manifest(bytes, options.blockSize, env.upload, env.blockName);
      && meta.creationTime == env.now && meta.accessTime == env.now && meta.modificationTime == env.now
      && meta.compression == "" && meta.blockSize == options.blockSize
      && meta.contentType == options.contentType
      && meta.version == env.metaVersion && meta.userAddress == pod.podAddress && meta.podName == podName
      && meta.fileName == LastSegment(fullPath) && meta.filePath == DirOf(fullPath)
      && meta.fileSize == |bytes| == TotalSize(blocks)
      && meta.blocksReference == env.upload(env.manifestBytes(blocks))
      && run.log == [ResolvePod(podName)] + UploadEffects(Chunks(bytes, options.blockSize))
                    + [Upload(env.manifestBytes(blocks)),
                       AddEntry(pod.podWallet, meta.filePath, meta.fileName, true),
                       WriteFeed(fullPath, meta, pod.podWallet.privateKey)]
  {
    var options := MergeOptions(DefaultUploadOptions, callerOptions);
    match CheckUpload(env, podName, fullPath)
    case Fail(e) => Run(Failure(e), [])
    case Pass =>
      var bytes := PayloadBytes(env, data);
      match env.lookupPod(podName)
      case None => Run(Failure(PodNotFound), [ResolvePod(podName)])
      case Some(pod) =>
        var info := ExtractPathInfo(fullPath).value;
        var now := env.now;
        var blocks := Manifest(bytes, options.blockSize, env.upload, env.blockName);
        var manifestBytes := env.manifestBytes(blocks);
        var blocksReference := env.upload(manifestBytes);
        var meta := FileMetadata(
          env.metaVersion, pod.podAddress, podName, info.path, info.filename, |bytes|,
          options.blockSize, options.contentType, "", now, now, now, blocksReference);
        ManifestShape(bytes, options.blockSize, env.upload, env.blockName);
        Run(Success(meta),
            [ResolvePod(podName)] + UploadEffects(Chunks(bytes, options.blockSize))
            + [Upload(manifestBytes),
               AddEntry(pod.podWallet, info.path, info.filename, true),
               WriteFeed(fullPath, meta, pod.podWallet.privateKey)])
  }

  /** `File.delete`: after the checks and the pod lookup, its only effect is
      the removal of the file's directory entry; no feed is written and
      nothing is uploaded. */
  function Delete(env: Env, podName: string, fullPath: string): (run: Run<()>)
    ensures run.log == [] <==> CheckPathFirst(env, podName, fullPath).Fail?
    ensures CheckPathFirst(env, podName, fullPath).Fail? ==>
      run.result == Failure(CheckPathFirst(env, podName, fullPath).error)
    ensures run.result.Success? <==> CheckPathFirst(env, podName, fullPath).Pass? && env.lookupPod(podName).Some?
    ensures run.result.Failure? && run.log != [] ==>
      run.result == Failure(PodNotFound) && run.log == [ResolvePod(podName)]
    ensures run.result.Success? ==>
      run.log == [ResolvePod(podName),
                  RemoveEntry(env.lookupPod(podName).value.podWallet, DirOf(fullPath), LastSegment(fullPath), true)]
    ensures forall k :: 0 <= k < |run.log| ==> run.log[k].ResolvePod? || run.log[k].RemoveEntry?
  {
    match CheckPathFirst(env, podName, fullPath)
    case Fail(e) => Run(Failure(e), [])
    case Pass =>
      var info := ExtractPathInfo(fullPath).value;
      match env.lookupPod(podName)
      case None => Run(Failure(PodNotFound), [ResolvePod(podName)])
      case Some(pod) =>
        Run(Success(()), [ResolvePod(podName), RemoveEntry(pod.podWallet, info.path, info.filename, true)])
  }

  /** `File.share`: after the checks it resolves the pod and lookups the
      metadata at `fullPath`; only a record that passes the file-record shape
      check is packaged and uploaded, in the one and last upload of the call,
      whose reference is the result. */
  function Share(env: Env, podName: string, fullPath: string): (run: Run<Reference>)
    ensures run.log == [] <==> CheckPathFirst(env, podName, fullPath).Fail?
    ensures CheckPathFirst(env, podName, fullPath).Fail? ==>
      run.result == Failure(CheckPathFirst(env, podName, fullPath).error)
    ensures run.log != [] ==> run.log[0] == ResolvePod(podName)
    ensures (exists k :: 0 <= k < |run.log| && run.log[k].Upload?) <==> run.result.Success?
    ensures run.result.Success? <==>
      && CheckPathFirst(env, podName, fullPath).Pass?
      && env.lookupPod(podName).Some?
      && env.readMetadata(fullPath, env.lookupPod(podName).value.podAddress).Some?
      && env.readMetadata(fullPath, env.lookupPod(podName).value.podAddress).value.FileRecord?
    ensures run.result == Failure(NotAFileRecord) <==>
      && CheckPathFirst(env, podName, fullPath).Pass?
      && env.lookupPod(podName).Some?
      && env.readMetadata(fullPath, env.lookupPod(podName).value.podAddress) == Some(OtherRecord)
    ensures run.result.Success? ==>
      var pod := env.lookupPod(podName).value;
      var meta := env.readMetadata(fullPath, pod.podAddress).value.file;
      var payload := env.shareBytes(FileShareInfo(meta, env.bytesToHex(pod.podAddress)));
      && run.log == [ResolvePod(podName), ReadMetadata(fullPath, pod.podAddress), Upload(payload)]
      && run.result.value == env.upload(payload)
  {
    match CheckPathFirst(env, podName, fullPath)
    case Fail(e) => Run(Failure(e), [])
    case Pass =>
      match env.lookupPod(podName)
      case None => Run(Failure(PodNotFound), [ResolvePod(podName)])
      case Some(pod) =>
        var lookups := [ResolvePod(podName), ReadMetadata(fullPath, pod.podAddress)];
        match env.readMetadata(fullPath, pod.podAddress)
        case None => Run(Failure(MetadataNotFound), lookups)
        case Some(OtherRecord) => Run(Failure(NotAFileRecord), lookups)
        case Some(FileRecord(meta)) =>
          var payload := env.shareBytes(CreateFileShareInfo(meta, pod.podAddress, env.bytesToHex));
          var log := lookups + [Upload(payload)];
          assert log[2].Upload?;
          Run(Success(env.upload(payload)), log)
  }

  // ---------------------------------------------------------------------
  // Properties of the effect order

  /** In a successful upload the pod lookup comes first; then come the
      uploads and nothing else: one per slice, in index order (the slices
      concatenate to the data), then the manifest; then the directory
      entry; and last the single feed write of the returned metadata at
      topic `fullPath`. */
  lemma UploadEffectOrder(env: Env, podName: string, fullPath: string, data: Payload, callerOptions: Option<CallerOptions>)
    requires MergeOptions(DefaultUploadOptions, callerOptions).blockSize > 0
    requires Proceeds(env, podName, fullPath)
    ensures var run := UploadData(env, podName, fullPath, data, callerOptions);
      var log, n := run.log, |run.log|;
      var slices := Chunks(PayloadBytes(env, data), MergeOptions(DefaultUploadOptions, callerOptions).blockSize);
      var wallet := env.lookupPod(podName).value.podWallet;
      && n == |slices| + 4
      && log[0] == ResolvePod(podName)
      && (forall k :: 0 <= k < n ==> (log[k].Upload? <==> 1 <= k <= n - 3))
      && (forall k :: 0 <= k < |slices| ==> log[k + 1] == Upload(slices[k]))
      && Flatten(slices) == PayloadBytes(env, data)
      && log[n - 2] == AddEntry(wallet, DirOf(fullPath), LastSegment(fullPath), true)
      && log[n - 1] == WriteFeed(fullPath, run.result.value, wallet.privateKey)
  {
    var run := UploadData(env, podName, fullPath, data, callerOptions);
    var options := MergeOptions(DefaultUploadOptions, callerOptions);
    var bytes := PayloadBytes(env, data);
    var blocks := Manifest(bytes, options.blockSize, env.upload, env.blockName);
    var wallet := env.lookupPod(podName).value.podWallet;
    LogLayout(ResolvePod(podName), Chunks(bytes, options.blockSize), env.manifestBytes(blocks),
              AddEntry(wallet, DirOf(fullPath), LastSegment(fullPath), true),
              WriteFeed(fullPath, run.result.value, wallet.privateKey));
    ChunksReassemble(bytes, options.blockSize);
  }

  /** The positions in a log of the upload's shape: a first effect, one
      upload per slice, the manifest upload, and two more effects that are
      not uploads. */
  lemma LogLayout(first: Effect, slices: seq<Bytes>, manifest: Bytes, add: Effect, write: Effect)
    requires !first.Upload? && !add.Upload? && !write.Upload?
    ensures var log := [first] + UploadEffects(slices) + [Upload(manifest), add, write];
      var n := |log|;
      && n == |slices| + 4
      && log[0] == first
      && (forall k :: 0 <= k < n ==> (log[k].Upload? <==> 1 <= k <= n - 3))
      && (forall k :: 0 <= k < |slices| ==> log[k + 1] == Upload(slices[k]))
      && log[n - 2] == add && log[n - 1] == write
  {
    var head := [first] + UploadEffects(slices);
    var tail := [Upload(manifest), add, write];
    var log := head + tail;
    assert [first] + UploadEffects(slices) + [Upload(manifest), add, write] == log;
    forall k | 0 <= k < |log|
      ensures log[k].Upload? <==> 1 <= k <= |log| - 3
    {
      if k < |head| {
        assert log[k] == head[k];
      } else {
        assert log[k] == tail[k - |head|];
      }
    }
    forall k | 0 <= k < |slices|
      ensures log[k + 1] == Upload(slices[k])
    {
      assert log[k + 1] == head[k + 1];
    }
  }
}
