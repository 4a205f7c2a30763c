/** What the logged effects do to the pod's directory index and to the
    metadata feeds: `addEntryToDirectory` / `removeEntryFromDirectory` add and
    remove one entry, `writeFeedData` replaces the value of one feed slot
    (last write wins), and uploads, reads and pod lookups change neither. */
module DirectoryStore {
  import opened Results
  import opened Paths
  import opened Chunking
  import opened Metadata
  import opened FileOps

  /** A directory entry: `name` under `parent` in the pod owned by `owner`. */
  datatype Entry = Entry(owner: Wallet, parent: string, name: string, isFile: bool)

  /** A feed slot, identified by the signing key and the topic. */
  datatype FeedSlot = FeedSlot(signingKey: Bytes, topic: string)

  datatype Store = Store(entries: set<Entry>, feeds: map<FeedSlot, FileMetadata>)

  function Apply(s: Store, e: Effect): Store {
    match e
    case AddEntry(w, parent, name, isFile) => s.(entries := s.entries + {Entry(w, parent, name, isFile)})
    case RemoveEntry(w, parent, name, isFile) => s.(entries := s.entries - {Entry(w, parent, name, isFile)})
    case WriteFeed(topic, meta, key) => s.(feeds := s.feeds[FeedSlot(key, topic) := meta])
    case _ => s
  }

  function ApplyAll(s: Store, log: seq<Effect>): Store
    decreases |log|
  {
    if |log| == 0 then s else ApplyAll(Apply(s, log[0]), log[1..])
  }

  /** An effect that only talks to the content store or reads. */
  predicate IsStoreNeutral(e: Effect) {
    e.ResolvePod? || e.Upload? || e.ReadMetadata?
  }

  lemma {:induction false} ApplyAllAppend(s: Store, a: seq<Effect>, b: seq<Effect>)
    ensures ApplyAll(s, a + b) == ApplyAll(ApplyAll(s, a), b)
    decreases |a|
  {
    if |a| > 0 {
      assert (a + b)[0] == a[0];
      assert (a + b)[1..] == a[1..] + b;
      ApplyAllAppend(Apply(s, a[0]), a[1..], b);
    } else {
      assert a + b == b;
    }
  }

  lemma ApplyTwo(s: Store, e1: Effect, e2: Effect)
    ensures ApplyAll(s, [e1, e2]) == Apply(Apply(s, e1), e2)
  {
    var s1 := Apply(s, e1);
    assert [e1, e2][0] == e1 && [e1, e2][1..] == [e2];
    assert ApplyAll(s, [e1, e2]) == ApplyAll(s1, [e2]);
    assert [e2][0] == e2 && [e2][1..] == [];
    assert ApplyAll(s1, [e2]) == ApplyAll(Apply(s1, e2), []);
  }

  lemma {:induction false} NeutralLogKeepsStore(s: Store, log: seq<Effect>)
    requires forall k :: 0 <= k < |log| ==> IsStoreNeutral(log[k])
    ensures ApplyAll(s, log) == s
    decreases |log|
  {
    if |log| > 0 {
      NeutralLogKeepsStore(s, log[1..]);
    }
  }

  /** A successful upload adds exactly the file's entry and sets exactly the
      feed slot of its path to the returned metadata. */
  lemma UploadPublishes(s: Store, env: Env, podName: string, fullPath: string, data: Payload,
                        callerOptions: Option<CallerOptions>)
    requires MergeOptions(DefaultUploadOptions, callerOptions).blockSize > 0
    requires Proceeds(env, podName, fullPath)
    ensures var meta := UploadData(env, podName, fullPath, data, callerOptions).result.value;
      var wallet := env.lookupPod(podName).value.podWallet;
      ApplyAll(s, UploadData(env, podName, fullPath, data, callerOptions).log)
        == Store(s.entries + {Entry(wallet, DirOf(fullPath), LastSegment(fullPath), true)},
                 s.feeds[FeedSlot(wallet.privateKey, fullPath) := meta])
  {
    var run := UploadData(env, podName, fullPath, data, callerOptions);
    var uploads, add, write := UploadSplit(env, podName, fullPath, data, callerOptions);
    ApplyAllAppend(s, uploads, [add, write]);
    NeutralLogKeepsStore(s, uploads);
    ApplyTwo(s, add, write);
  }

  /** The log of a successful upload: store-neutral effects, then the entry,
      then the feed write. */
  lemma UploadSplit(env: Env, podName: string, fullPath: string, data: Payload,
                    callerOptions: Option<CallerOptions>)
    returns (uploads: seq<Effect>, add: Effect, write: Effect)
    requires MergeOptions(DefaultUploadOptions, callerOptions).blockSize > 0
    requires Proceeds(env, podName, fullPath)
    ensures var run := UploadData(env, podName, fullPath, data, callerOptions);
      var wallet := env.lookupPod(podName).value.podWallet;
      && run.log == uploads + [add, write]
      && (forall k :: 0 <= k < |uploads| ==> IsStoreNeutral(uploads[k]))
      && add == AddEntry(wallet, DirOf(fullPath), LastSegment(fullPath), true)
      && write == WriteFeed(fullPath, run.result.value, wallet.privateKey)
  {
    var run := UploadData(env, podName, fullPath, data, callerOptions);
    UploadEffectOrder(env, podName, fullPath, data, callerOptions);
    var n := |run.log|;
    uploads, add, write := run.log[..n - 2], run.log[n - 2], run.log[n - 1];
    assert run.log == uploads + [add, write];
  }

  /** Between the entry and the feed write of an upload there is a state in
      which the new entry is visible while the file's feed slot still holds
      what it held before the upload (or nothing): the source adds the entry
      first. */
  lemma UploadEntryVisibleBeforeMetadata(s: Store, env: Env, podName: string, fullPath: string, data: Payload,
                                         callerOptions: Option<CallerOptions>)
    requires MergeOptions(DefaultUploadOptions, callerOptions).blockSize > 0
    requires Proceeds(env, podName, fullPath)
    ensures var run := UploadData(env, podName, fullPath, data, callerOptions);
      var wallet := env.lookupPod(podName).value.podWallet;
      var mid := ApplyAll(s, run.log[..|run.log| - 1]);
      && Entry(wallet, DirOf(fullPath), LastSegment(fullPath), true) in mid.entries
      && mid.feeds == s.feeds
  {
    var run := UploadData(env, podName, fullPath, data, callerOptions);
    var uploads, add, write := UploadSplit(env, podName, fullPath, data, callerOptions);
    assert run.log[..|run.log| - 1] == uploads + [add];
    ApplyAllAppend(s, uploads, [add]);
    NeutralLogKeepsStore(s, uploads);
    assert [add][1..] == [];
  }

  /** A successful delete removes exactly the file's entry and leaves every
      feed slot as it was. */
  lemma DeleteRemovesEntryOnly(s: Store, env: Env, podName: string, fullPath: string)
    requires Proceeds(env, podName, fullPath)
    ensures ApplyAll(s, Delete(env, podName, fullPath).log)
      == Store(s.entries - {Entry(env.lookupPod(podName).value.podWallet, DirOf(fullPath), LastSegment(fullPath), true)},
               s.feeds)
  {
    var run := Delete(env, podName, fullPath);
    var wallet := env.lookupPod(podName).value.podWallet;
    var e := RemoveEntry(wallet, DirOf(fullPath), LastSegment(fullPath), true);
    assert run.log == [ResolvePod(podName), e];
    ApplyTwo(s, ResolvePod(podName), e);
  }

  /** Every failure the model can produce leaves the directory index and the
      feeds unchanged: a failed check or an unknown pod, and for share also a
      missing or non-file metadata record. Transport failures of the entry
      add or the feed write are not modelled. */
  lemma FailuresChangeNothing(s: Store, env: Env, podName: string, fullPath: string, data: Payload,
                              callerOptions: Option<CallerOptions>)
    requires MergeOptions(DefaultUploadOptions, callerOptions).blockSize > 0
    ensures UploadData(env, podName, fullPath, data, callerOptions).result.Failure? ==>
      ApplyAll(s, UploadData(env, podName, fullPath, data, callerOptions).log) == s
    ensures Delete(env, podName, fullPath).result.Failure? ==>
      ApplyAll(s, Delete(env, podName, fullPath).log) == s
    ensures Share(env, podName, fullPath).result.Failure? ==>
      ApplyAll(s, Share(env, podName, fullPath).log) == s
  {
    var share := Share(env, podName, fullPath);
    if share.result.Failure? && |share.log| == 2 {
      NeutralLogKeepsStore(s, share.log);
    }
  }

  /** Share never changes the directory index or the feeds. */
  lemma ShareChangesNothing(s: Store, env: Env, podName: string, fullPath: string)
    ensures ApplyAll(s, Share(env, podName, fullPath).log) == s
  {
    var log := Share(env, podName, fullPath).log;
    assert forall k :: 0 <= k < |log| ==> IsStoreNeutral(log[k]);
    NeutralLogKeepsStore(s, log);
  }

  /** Upload then delete of the same file: the entry is gone, but the feed
      slot still holds the uploaded metadata (deletion is logical). */
  lemma UploadThenDelete(s: Store, env: Env, podName: string, fullPath: string, data: Payload,
                         callerOptions: Option<CallerOptions>)
    requires MergeOptions(DefaultUploadOptions, callerOptions).blockSize > 0
    requires Proceeds(env, podName, fullPath)
    ensures Delete(env, podName, fullPath).result.Success?
    ensures var wallet := env.lookupPod(podName).value.podWallet;
      var after := ApplyAll(ApplyAll(s, UploadData(env, podName, fullPath, data, callerOptions).log),
                            Delete(env, podName, fullPath).log);
      && Entry(wallet, DirOf(fullPath), LastSegment(fullPath), true) !in after.entries
      && FeedSlot(wallet.privateKey, fullPath) in after.feeds
      && after.feeds[FeedSlot(wallet.privateKey, fullPath)]
           == UploadData(env, podName, fullPath, data, callerOptions).result.value
  {
    var mid := ApplyAll(s, UploadData(env, podName, fullPath, data, callerOptions).log);
    UploadPublishes(s, env, podName, fullPath, data, callerOptions);
    DeleteRemovesEntryOnly(mid, env, podName, fullPath);
  }

  /** Uploading to a path that was uploaded before replaces the metadata in
      its feed slot: after the first upload the slot holds the first
      metadata, and after the second it holds the second upload's size and
      all three timestamps set to the second upload's clock. Each upload
      has its own options. */
  lemma ReuploadOverwrites(s: Store, env1: Env, env2: Env, podName: string, fullPath: string,
                           data1: Payload, data2: Payload,
                           options1: Option<CallerOptions>, options2: Option<CallerOptions>)
    requires MergeOptions(DefaultUploadOptions, options1).blockSize > 0
    requires MergeOptions(DefaultUploadOptions, options2).blockSize > 0
    requires Proceeds(env1, podName, fullPath) && Proceeds(env2, podName, fullPath)
    requires env1.lookupPod(podName) == env2.lookupPod(podName)
    ensures var wallet := env2.lookupPod(podName).value.podWallet;
      var run1 := UploadData(env1, podName, fullPath, data1, options1);
      var mid := ApplyAll(s, run1.log);
      && FeedSlot(wallet.privateKey, fullPath) in mid.feeds
      && mid.feeds[FeedSlot(wallet.privateKey, fullPath)] == run1.result.value
    ensures var wallet := env2.lookupPod(podName).value.podWallet;
      var run2 := UploadData(env2, podName, fullPath, data2, options2);
      var after := ApplyAll(ApplyAll(s, UploadData(env1, podName, fullPath, data1, options1).log), run2.log);
      && FeedSlot(wallet.privateKey, fullPath) in after.feeds
      && var meta := after.feeds[FeedSlot(wallet.privateKey, fullPath)];
      && meta == run2.result.value
      && meta.fileSize == |PayloadBytes(env2, data2)|
      && meta.creationTime == meta.accessTime == meta.modificationTime == env2.now
      && Entry(wallet, DirOf(fullPath), LastSegment(fullPath), true) in after.entries
  {
    var mid := ApplyAll(s, UploadData(env1, podName, fullPath, data1, options1).log);
    FreshStamps(s, env1, podName, fullPath, data1, options1);
    FreshStamps(mid, env2, podName, fullPath, data2, options2);
  }

  /** After a successful upload, from any prior state, the file's feed slot
      holds metadata whose size is the new data's length and whose three
      timestamps are the upload's clock. */
  lemma FreshStamps(s: Store, env: Env, podName: string, fullPath: string, data: Payload,
                    callerOptions: Option<CallerOptions>)
    requires MergeOptions(DefaultUploadOptions, callerOptions).blockSize > 0
    requires Proceeds(env, podName, fullPath)
    ensures var wallet := env.lookupPod(podName).value.podWallet;
      var run := UploadData(env, podName, fullPath, data, callerOptions);
      var after := ApplyAll(s, run.log);
      && FeedSlot(wallet.privateKey, fullPath) in after.feeds
      && var meta := after.feeds[FeedSlot(wallet.privateKey, fullPath)];
      && meta == run.result.value
      && meta.fileSize == |PayloadBytes(env, data)|
      && meta.creationTime == meta.accessTime == meta.modificationTime == env.now
      && Entry(wallet, DirOf(fullPath), LastSegment(fullPath), true) in after.entries
  {
    UploadPublishes(s, env, podName, fullPath, data, callerOptions);
  }
}
