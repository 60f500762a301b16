/** Splitting the files to download into rsync calls of at most `FILES_PER_RSYNC_DOWNLOAD`
  * names each, every call reading its names NUL-separated from a temporary file
  * (`download_files`, without the subprocess and temporary-file calls). */
module Download {
  import opened Strings
  import opened Seqs

  const FILES_PER_RSYNC_DOWNLOAD: nat := 1000
  const NUL: char := '\0'

  /** No name holds a NUL, so the `--files-from` text can be split back into the names. */
  predicate NoNul(files: seq<string>) {
    forall i :: 0 <= i < |files| ==> NUL !in files[i]
  }

  /** The rsync calls `download_files` makes: the names each call fetches, and the text of the
    * `--files-from` file it is given. No call at all for an empty list; otherwise consecutive
    * slices, all full but the last, that together are the list; each file text splits back at
    * its NULs into the names of its call unless a name holds a NUL. */
  method DownloadBatches(files: seq<string>) returns (batches: seq<seq<string>>, lists: seq<string>)
    ensures Flatten(batches) == files
    ensures forall k :: 0 <= k < |batches| ==> 1 <= |batches[k]| <= FILES_PER_RSYNC_DOWNLOAD
    ensures forall k :: 0 <= k < |batches| - 1 ==> |batches[k]| == FILES_PER_RSYNC_DOWNLOAD
    ensures batches == [] <==> files == []
    ensures |batches| == (|files| + FILES_PER_RSYNC_DOWNLOAD - 1) / FILES_PER_RSYNC_DOWNLOAD
    ensures |lists| == |batches|
    ensures forall k :: 0 <= k < |batches| ==> lists[k] == Join(batches[k], NUL)
    ensures NoNul(files) ==> forall k :: 0 <= k < |batches| ==> Split(lists[k], NUL) == batches[k]
  {
    batches, lists := [], [];
    if |files| == 0 {
      return;
    }
    var start := 0;
    while start < |files|
      invariant 0 <= start <= |files|
      invariant Flatten(batches) == files[..start]
      invariant forall k :: 0 <= k < |batches| ==> 1 <= |batches[k]| <= FILES_PER_RSYNC_DOWNLOAD
      invariant forall k :: 0 <= k < |batches| - 1 ==> |batches[k]| == FILES_PER_RSYNC_DOWNLOAD
      invariant batches != [] && |batches[|batches| - 1]| < FILES_PER_RSYNC_DOWNLOAD ==> start == |files|
      invariant batches == [] <==> start == 0
      invariant batches != [] ==> start == (|batches| - 1) * FILES_PER_RSYNC_DOWNLOAD + |batches[|batches| - 1]|
      invariant |lists| == |batches|
      invariant forall k :: 0 <= k < |batches| ==> lists[k] == Join(batches[k], NUL)
      decreases |files| - start
    {
      var stop := if start + FILES_PER_RSYNC_DOWNLOAD <= |files| then start + FILES_PER_RSYNC_DOWNLOAD else |files|;
      var filenames := files[start..stop];
      assert files[..stop] == files[..start] + filenames;
      ghost var done := batches;
      batches := batches + [filenames];
      assert batches[..|batches| - 1] == done;
      lists := lists + [Join(filenames, NUL)];
      start := stop;
    }
    assert files[..start] == files;
    if NoNul(files) {
      NoNulBatches(batches);
      forall k | 0 <= k < |batches|
        ensures Split(lists[k], NUL) == batches[k]
      {
        SplitJoin(batches[k], NUL);
      }
    }
  }

  /** The batches of NUL-free names hold NUL-free names. */
  lemma {:induction false} NoNulBatches(batches: seq<seq<string>>)
    requires NoNul(Flatten(batches))
    ensures forall k :: 0 <= k < |batches| ==> NoNul(batches[k])
  {
    if batches != [] {
      var init, last := batches[..|batches| - 1], batches[|batches| - 1];
      var a := Flatten(init);
      assert forall i :: 0 <= i < |a| ==> a[i] == Flatten(batches)[i];
      assert forall i :: 0 <= i < |last| ==> last[i] == Flatten(batches)[|a| + i];
      NoNulBatches(init);
    }
  }
}
