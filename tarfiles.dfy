/** Packing the files of one day into numbered tarfiles of bounded uncompressed size
  * (`create_temporary_tarfiles`, without the directory walk, the decompression and the calls to
  * `tar`). The files come as `(path, size, mtime)` in the sorted order of the day's directory. */
module Tarfiles {
  import opened Wrappers
  import opened Seqs
  import opened Strings
  import opened Decimal
  import opened Dates
  import opened DateText
  import opened Hostname

  datatype FileEntry = FileEntry(path: string, size: nat, mtime: int)

  /** What the generator yields for one tarfile: its name and the `max_mtime` at that point. */
  datatype Tarfile = Tarfile(name: string, mtime: int)

  const SUFFIX: string := ".tgz"

  /** `'%d%02d%02dT000000Z-%s-%s-%s-' % (...)`. */
  function NamePrefix(day: Date, node: string, site: string, experiment: string): string
    requires Valid(day)
  {
    DayStamp(day) + "T000000Z-" + node + "-" + site + "-" + experiment + "-"
  }

  /** `'%s%04d%s' % (filename_prefix, tarfile_index, filename_suffix)`. */
  function TarfileName(prefix: string, index: nat): string {
    prefix + Padded(index, 4) + SUFFIX
  }

  /** Four dash-free fields, each followed by a dash, split back into the fields and an empty
    * last one. */
  lemma DashFields(a: string, b: string, c: string, d: string)
    requires '-' !in a && '-' !in b && '-' !in c && '-' !in d
    ensures Split(a + "-" + b + "-" + c + "-" + d + "-", '-') == [a, b, c, d, ""]
  {
    var parts := [a, b, c, d, ""];
    assert Join(parts[3..], '-') == d + "-" + "";
    assert Join(parts[2..], '-') == c + "-" + Join(parts[3..], '-');
    assert Join(parts[1..], '-') == b + "-" + Join(parts[2..], '-');
    assert Join(parts, '-') == a + "-" + b + "-" + c + "-" + d + "-";
    SplitJoin(parts, '-');
  }

  /** The prefix is the day stamp with `T000000Z`, the node, the site and the experiment, each
    * closed by a dash: split on `-` it gives them back when none of them holds a dash. */
  lemma NamePrefixFields(day: Date, node: string, site: string, experiment: string)
    requires Valid(day)
    ensures var stamp := DayStamp(day) + "T000000Z";
      && ('-' !in node && '-' !in site && '-' !in experiment ==>
            Split(NamePrefix(day, node, site, experiment), '-') == [stamp, node, site, experiment, ""])
      && StartsWith(NamePrefix(day, node, site, experiment), DayStamp(day))
  {
    var stamp := DayStamp(day) + "T000000Z";
    NoNonDigit(Digits(day.year), '-');
    NoNonDigit(Padded(day.month, 2), '-');
    NoNonDigit(Padded(day.day, 2), '-');
    assert '-' !in stamp;
    var p := NamePrefix(day, node, site, experiment);
    assert p == stamp + "-" + node + "-" + site + "-" + experiment + "-";
    if '-' !in node && '-' !in site && '-' !in experiment {
      DashFields(stamp, node, site, experiment);
    }
    assert p[..|DayStamp(day)|] == DayStamp(day);
  }

  /** A tarfile name is the prefix, four or more digits that read back as the index, and `.tgz`. */
  lemma TarfileNameIndex(prefix: string, index: nat)
    ensures var r := TarfileName(prefix, index);
      && StartsWith(r, prefix) && EndsWith(r, SUFFIX) && |r| >= |prefix| + 4 + |SUFFIX|
      && IsDigits(r[|prefix|..|r| - |SUFFIX|]) && Value(r[|prefix|..|r| - |SUFFIX|]) == index
  {
    var r := TarfileName(prefix, index);
    assert r[|prefix|..|r| - |SUFFIX|] == Padded(index, 4);
    assert r[..|prefix|] == prefix;
    assert r[|r| - |SUFFIX|..] == SUFFIX;
    ValueOfPadded(index, 4);
  }

  /** The sum of the sizes. */
  function Total(files: seq<FileEntry>): nat {
    if files == [] then 0 else Total(files[..|files| - 1]) + files[|files| - 1].size
  }

  /** `max(0, mtime of each file)`: `max_mtime` starts at 0. */
  function MaxMtime(files: seq<FileEntry>): int {
    if files == [] then 0
    else
      var m := MaxMtime(files[..|files| - 1]);
      var t := files[|files| - 1].mtime;
      if m < t then t else m
  }

  /** Batches are non-empty; a batch of two or more files stays within `maxSize`; and a batch is
    * closed only when the next file would take it over `maxSize`. */
  predicate Packed(batches: seq<seq<FileEntry>>, maxSize: int) {
    && (forall k :: 0 <= k < |batches| ==>
          batches[k] != [] && (|batches[k]| == 1 || Total(batches[k]) <= maxSize))
    && (forall k :: 0 <= k < |batches| - 1 ==> ClosedFull(batches, k, maxSize))
  }

  /** Batch `k` was closed because the first file of batch `k + 1` would not fit in it. */
  predicate ClosedFull(batches: seq<seq<FileEntry>>, k: nat, maxSize: int)
    requires k < |batches| - 1
  {
    batches[k + 1] != [] && Total(batches[k]) + batches[k + 1][0].size > maxSize
  }

  /** `batches` cut `files`, in order, the way a greedy packer fills tarfiles. */
  predicate GreedyPacking(batches: seq<seq<FileEntry>>, files: seq<FileEntry>, maxSize: int) {
    Flatten(batches) == files && Packed(batches, maxSize)
  }

  /** The number of files in the first `k + 1` batches: the position where batch `k` ends. */
  function End(batches: seq<seq<FileEntry>>, k: nat): nat
    requires k < |batches|
  {
    |Flatten(batches[..k + 1])|
  }

  /** The generator's names are numbered from 0. */
  predicate Named(tarfiles: seq<Tarfile>, prefix: string) {
    forall k :: 0 <= k < |tarfiles| ==> tarfiles[k].name == TarfileName(prefix, k)
  }

  /** `Named`, one tarfile at a time from the last. */
  predicate NamedInOrder(tarfiles: seq<Tarfile>, prefix: string) {
    tarfiles != [] ==>
      && NamedInOrder(tarfiles[..|tarfiles| - 1], prefix)
      && tarfiles[|tarfiles| - 1].name == TarfileName(prefix, |tarfiles| - 1)
  }

  /** Each of `tarfiles` was yielded, before position `i` of `files`, with the largest mtime of
    * the files up to and including the one right after its batch. */
  predicate StampedBefore(tarfiles: seq<Tarfile>, batches: seq<seq<FileEntry>>, files: seq<FileEntry>, i: nat) {
    |tarfiles| <= |batches| && i <= |files| &&
    forall k :: 0 <= k < |tarfiles| ==>
      End(batches, k) < i && tarfiles[k].mtime == MaxMtime(files[..End(batches, k) + 1])
  }

  /** The mtime yielded with a tarfile is the largest mtime of every file seen so far, including
    * the file that made it flush; the last one is yielded with the largest mtime of all. */
  predicate Stamped(tarfiles: seq<Tarfile>, batches: seq<seq<FileEntry>>, files: seq<FileEntry>) {
    && |tarfiles| == |batches|
    && (tarfiles != [] ==>
          && StampedBefore(tarfiles[..|tarfiles| - 1], batches, files, |files|)
          && tarfiles[|tarfiles| - 1].mtime == MaxMtime(files))
  }

  /** The variables of the loop of `create_temporary_tarfiles`: the tarfiles yielded, the files
    * each was built from, the files of the one being filled and their total size, and the
    * largest mtime so far. */
  datatype Loop = Loop(tarfiles: seq<Tarfile>, batches: seq<seq<FileEntry>>, current: seq<FileEntry>,
                       size: int, maxMtime: int)

  /** The state of the loop after the first `i` files: nothing yet, or a tarfile being filled
    * after those yielded so far. */
  predicate Filling(prefix: string, maxSize: int, files: seq<FileEntry>, i: nat, s: Loop) {
    match s
    case Loop(tarfiles, batches, current, size, maxMtime) =>
      && i <= |files|
      && |tarfiles| == |batches|
      && (i == 0 ==> batches == [] && current == [])
      && (i > 0 ==> current != [] && Packed(batches + [current], maxSize))
      && size == Total(current)
      && maxMtime == MaxMtime(files[..i])
      && Flatten(batches) + current == files[..i]
      && NamedInOrder(tarfiles, prefix)
      && StampedBefore(tarfiles, batches, files, i)
  }

  /** One turn of the loop of `create_temporary_tarfiles`: the file `files[i]` either joins the
    * tarfile being filled or, when it does not fit, first makes that one be yielded. */
  lemma Step(prefix: string, maxSize: int, files: seq<FileEntry>, i: nat,
             tarfiles: seq<Tarfile>, batches: seq<seq<FileEntry>>, current: seq<FileEntry>,
             size: int, maxMtime: int,
             tarfiles': seq<Tarfile>, batches': seq<seq<FileEntry>>, current': seq<FileEntry>,
             size': int, maxMtime': int)
    requires Filling(prefix, maxSize, files, i, Loop(tarfiles, batches, current, size, maxMtime))
    requires i < |files|
    requires maxMtime' == if maxMtime < files[i].mtime then files[i].mtime else maxMtime
    requires current != [] && size + files[i].size > maxSize ==>
      && tarfiles' == tarfiles + [Tarfile(TarfileName(prefix, |tarfiles|), maxMtime')]
      && batches' == batches + [current] && current' == [] + [files[i]] && size' == 0 + files[i].size
    requires !(current != [] && size + files[i].size > maxSize) ==>
      && tarfiles' == tarfiles && batches' == batches
      && current' == current + [files[i]] && size' == size + files[i].size
    ensures Filling(prefix, maxSize, files, i + 1, Loop(tarfiles', batches', current', size', maxMtime'))
  {
    if current != [] && size + files[i].size > maxSize {
      FlushAndAdd(prefix, maxSize, files, i, tarfiles, batches, current, size, maxMtime);
    } else {
      Add(prefix, maxSize, files, i, tarfiles, batches, current, size, maxMtime);
    }
  }

  /** The step of the loop that adds a file to the tarfile being filled. */
  lemma Add(prefix: string, maxSize: int, files: seq<FileEntry>, i: nat,
            tarfiles: seq<Tarfile>, batches: seq<seq<FileEntry>>, current: seq<FileEntry>,
            size: int, maxMtime: int)
    requires Filling(prefix, maxSize, files, i, Loop(tarfiles, batches, current, size, maxMtime))
    requires i < |files| && !(current != [] && size + files[i].size > maxSize)
    ensures var f := files[i];
      Filling(prefix, maxSize, files, i + 1,
              Loop(tarfiles, batches, current + [f], size + f.size,
                   if maxMtime < f.mtime then f.mtime else maxMtime))
  {
    var f := files[i];
    assert files[..i + 1] == files[..i] + [f];
    assert files[..i + 1][..i] == files[..i];
    StampedLater(tarfiles, batches, files, i);
    if current == [] {
      StartBatch(batches, current, f, maxSize);
    } else {
      ExtendBatch(batches, current, f, maxSize);
    }
    assert (current + [f])[..|current|] == current;
  }

  /** The step of the loop that first yields the tarfile being filled, because the file does
    * not fit, and then starts a new one with it. */
  lemma FlushAndAdd(prefix: string, maxSize: int, files: seq<FileEntry>, i: nat,
                    tarfiles: seq<Tarfile>, batches: seq<seq<FileEntry>>, current: seq<FileEntry>,
                    size: int, maxMtime: int)
    requires Filling(prefix, maxSize, files, i, Loop(tarfiles, batches, current, size, maxMtime))
    requires i < |files| && current != [] && size + files[i].size > maxSize
    ensures var f := files[i];
      var m := if maxMtime < f.mtime then f.mtime else maxMtime;
      Filling(prefix, maxSize, files, i + 1,
              Loop(tarfiles + [Tarfile(TarfileName(prefix, |tarfiles|), m)], batches + [current],
                   [] + [f], 0 + f.size, m))
  {
    var f := files[i];
    var m := if maxMtime < f.mtime then f.mtime else maxMtime;
    var t := Tarfile(TarfileName(prefix, |tarfiles|), m);
    assert files[..i + 1] == files[..i] + [f];
    assert files[..i + 1][..i] == files[..i];
    Flush(batches, current, files, i);
    FlushStamped(tarfiles, batches, current, t, files, i);
    assert (tarfiles + [t])[..|tarfiles|] == tarfiles;
    assert (batches + [current])[|batches|] == current;
    StartBatch(batches + [current], [], f, maxSize);
    assert [] + [f] == [f];
    assert [f][..0] == [];
  }

  /** After the loop, yielding the tarfile still being filled, if any, completes the packing. */
  lemma Finish(prefix: string, maxSize: int, files: seq<FileEntry>,
               tarfiles: seq<Tarfile>, batches: seq<seq<FileEntry>>, current: seq<FileEntry>,
               size: int, maxMtime: int)
    requires Filling(prefix, maxSize, files, |files|, Loop(tarfiles, batches, current, size, maxMtime))
    ensures current == [] ==> files == [] && tarfiles == [] && batches == []
    ensures current == [] ==>
      Named(tarfiles, prefix) && Stamped(tarfiles, batches, files) && GreedyPacking(batches, files, maxSize)
    ensures var ts := tarfiles + [Tarfile(TarfileName(prefix, |tarfiles|), maxMtime)];
      current != [] ==>
        Named(ts, prefix) && Stamped(ts, batches + [current], files) && GreedyPacking(batches + [current], files, maxSize)
  {
    assert files[..|files|] == files;
    if current != [] {
      var t := Tarfile(TarfileName(prefix, |tarfiles|), maxMtime);
      Flush(batches, current, files, |files|);
      FinalStamped(tarfiles, batches, current, files);
      assert (tarfiles + [t])[..|tarfiles|] == tarfiles;
      NamedInOrderNamed(tarfiles + [t], prefix);
    }
  }

  lemma PrefixOfAppend<T>(a: seq<T>, x: T, n: nat)
    requires n <= |a|
    ensures (a + [x])[..n] == a[..n]
  {
  }

  /** Closing the batch being filled keeps the earlier batches' end positions. */
  lemma Flush(batches: seq<seq<FileEntry>>, current: seq<FileEntry>, files: seq<FileEntry>, i: nat)
    requires i <= |files|
    requires Flatten(batches) + current == files[..i]
    ensures Flatten(batches + [current]) == files[..i]
    ensures forall k :: 0 <= k < |batches| ==> End(batches + [current], k) == End(batches, k)
    ensures End(batches + [current], |batches|) == i
  {
    var bs := batches + [current];
    LastEnd(batches, current, files, i);
    forall k | 0 <= k < |batches|
      ensures End(bs, k) == End(batches, k)
    {
      EndOfAppend(batches, current, k);
    }
  }

  lemma LastEnd(batches: seq<seq<FileEntry>>, current: seq<FileEntry>, files: seq<FileEntry>, i: nat)
    requires i <= |files|
    requires Flatten(batches) + current == files[..i]
    ensures Flatten(batches + [current]) == files[..i]
    ensures End(batches + [current], |batches|) == i
  {
    var bs := batches + [current];
    assert bs[..|bs| - 1] == batches;
    assert bs[..|batches| + 1] == bs;
  }

  lemma EndOfAppend(batches: seq<seq<FileEntry>>, current: seq<FileEntry>, k: nat)
    requires k < |batches|
    ensures End(batches + [current], k) == End(batches, k)
  {
    PrefixOfAppend(batches, current, k + 1);
  }

  lemma {:induction false} NamedInOrderNamed(tarfiles: seq<Tarfile>, prefix: string)
    requires NamedInOrder(tarfiles, prefix)
    ensures Named(tarfiles, prefix)
  {
    if tarfiles != [] {
      var init := tarfiles[..|tarfiles| - 1];
      NamedInOrderNamed(init, prefix);
      forall k | 0 <= k < |init|
        ensures tarfiles[k].name == TarfileName(prefix, k)
      {
        assert tarfiles[k] == init[k];
      }
    }
  }

  /** A tarfile flushed when file `i` arrives keeps the earlier stamps and gets its own. */
  lemma FlushStamped(tarfiles: seq<Tarfile>, batches: seq<seq<FileEntry>>, current: seq<FileEntry>,
                     t: Tarfile, files: seq<FileEntry>, i: nat)
    requires i < |files| && |tarfiles| == |batches|
    requires StampedBefore(tarfiles, batches, files, i)
    requires Flatten(batches) + current == files[..i]
    requires t.mtime == MaxMtime(files[..i + 1])
    ensures StampedBefore(tarfiles + [t], batches + [current], files, i + 1)
  {
    var ts := tarfiles + [t];
    var bs := batches + [current];
    forall k | 0 <= k < |ts|
      ensures End(bs, k) < i + 1 && ts[k].mtime == MaxMtime(files[..End(bs, k) + 1])
    {
      StampAt(tarfiles, batches, current, t, files, i, k);
    }
  }

  lemma StampAt(tarfiles: seq<Tarfile>, batches: seq<seq<FileEntry>>, current: seq<FileEntry>,
                t: Tarfile, files: seq<FileEntry>, i: nat, k: nat)
    requires i < |files| && |tarfiles| == |batches| && k <= |tarfiles|
    requires StampedBefore(tarfiles, batches, files, i)
    requires Flatten(batches) + current == files[..i]
    requires t.mtime == MaxMtime(files[..i + 1])
    ensures End(batches + [current], k) < i + 1
    ensures (tarfiles + [t])[k].mtime == MaxMtime(files[..End(batches + [current], k) + 1])
  {
    if k < |tarfiles| {
      OldStamp(tarfiles, batches, current, t, files, i, k);
    } else {
      NewStamp(tarfiles, batches, current, t, files, i);
    }
  }

  lemma NewStamp(tarfiles: seq<Tarfile>, batches: seq<seq<FileEntry>>, current: seq<FileEntry>,
                 t: Tarfile, files: seq<FileEntry>, i: nat)
    requires i < |files| && |tarfiles| == |batches|
    requires Flatten(batches) + current == files[..i]
    requires t.mtime == MaxMtime(files[..i + 1])
    ensures End(batches + [current], |tarfiles|) == i
    ensures (tarfiles + [t])[|tarfiles|].mtime == MaxMtime(files[..End(batches + [current], |tarfiles|) + 1])
  {
    LastEnd(batches, current, files, i);
  }

  lemma OldStamp(tarfiles: seq<Tarfile>, batches: seq<seq<FileEntry>>, current: seq<FileEntry>,
                 t: Tarfile, files: seq<FileEntry>, i: nat, k: nat)
    requires |tarfiles| == |batches| && k < |tarfiles|
    requires StampedBefore(tarfiles, batches, files, i)
    ensures End(batches + [current], k) < i
    ensures (tarfiles + [t])[k].mtime == MaxMtime(files[..End(batches + [current], k) + 1])
  {
    EndOfAppend(batches, current, k);
    assert (tarfiles + [t])[k] == tarfiles[k];
  }

  lemma StampedLater(tarfiles: seq<Tarfile>, batches: seq<seq<FileEntry>>, files: seq<FileEntry>, i: nat)
    requires i < |files|
    requires StampedBefore(tarfiles, batches, files, i)
    ensures StampedBefore(tarfiles, batches, files, i + 1)
  {
  }

  /** The stamps of the tarfiles before the last one are unchanged by the last batch. */
  lemma FinalStamped(tarfiles: seq<Tarfile>, batches: seq<seq<FileEntry>>, current: seq<FileEntry>,
                     files: seq<FileEntry>)
    requires |tarfiles| == |batches|
    requires StampedBefore(tarfiles, batches, files, |files|)
    requires Flatten(batches) + current == files
    ensures StampedBefore(tarfiles, batches + [current], files, |files|)
  {
    assert files[..|files|] == files;
    Flush(batches, current, files, |files|);
  }

  /** Adding a file that fits to the batch being filled keeps the packing greedy. */
  lemma ExtendBatch(done: seq<seq<FileEntry>>, current: seq<FileEntry>, f: FileEntry, maxSize: int)
    requires current != [] && Packed(done + [current], maxSize)
    requires Total(current) + f.size <= maxSize
    ensures Packed(done + [current + [f]], maxSize)
  {
    var a: seq<seq<FileEntry>> := done + [current];
    var b: seq<seq<FileEntry>> := done + [current + [f]];
    assert (current + [f])[..|current + [f]| - 1] == current;
    assert Total(b[|done|]) <= maxSize;
    forall k | 0 <= k < |done|
      ensures b[k] == a[k]
    {
    }
    forall k | 0 <= k < |b| - 1
      ensures ClosedFull(b, k, maxSize)
    {
      assert ClosedFull(a, k, maxSize);
      assert b[k + 1][0] == a[k + 1][0];
    }
  }

  /** Starting a new batch with a file that did not fit in the last one keeps the packing
    * greedy. */
  lemma StartBatch(done: seq<seq<FileEntry>>, current: seq<FileEntry>, f: FileEntry, maxSize: int)
    requires current == []
    requires done == [] || (Packed(done, maxSize) && Total(done[|done| - 1]) + f.size > maxSize)
    ensures Packed(done + [current + [f]], maxSize)
  {
    assert current + [f] == [f];
    var b: seq<seq<FileEntry>> := done + [[f]];
    forall k | 0 <= k < |done|
      ensures b[k] == done[k]
    {
    }
    forall k | 0 <= k < |b| - 1
      ensures ClosedFull(b, k, maxSize)
    {
      if k + 1 < |done| {
        assert ClosedFull(done, k, maxSize);
      }
    }
  }

  lemma TotalStep(s: seq<FileEntry>, n: nat)
    requires n < |s|
    ensures Total(s[..n + 1]) == Total(s[..n]) + s[n].size
  {
    assert s[..n + 1][..n] == s[..n];
  }

  /** A longer prefix is never smaller. */
  lemma {:induction false} TotalPrefix(s: seq<FileEntry>, m: nat, n: nat)
    requires m <= n <= |s|
    ensures Total(s[..m]) <= Total(s[..n])
    decreases n - m
  {
    if m < n {
      TotalPrefix(s, m + 1, n);
      TotalStep(s, m);
    }
  }

  lemma PackedTail(batches: seq<seq<FileEntry>>, maxSize: int)
    requires batches != [] && Packed(batches, maxSize)
    ensures Packed(batches[1..], maxSize)
  {
    var rest := batches[1..];
    forall k | 0 <= k < |rest|
      ensures rest[k] != [] && (|rest[k]| == 1 || Total(rest[k]) <= maxSize)
    {
      assert rest[k] == batches[k + 1];
    }
    forall k | 0 <= k < |rest| - 1
      ensures ClosedFull(rest, k, maxSize)
    {
      assert ClosedFull(batches, k + 1, maxSize);
      assert rest[k] == batches[k + 1] && rest[k + 1] == batches[k + 2];
    }
  }

  /** Non-empty batches of nothing are no batches. */
  lemma NoFilesNoBatches(batches: seq<seq<FileEntry>>, maxSize: int)
    requires GreedyPacking(batches, [], maxSize)
    ensures batches == []
  {
    if batches != [] {
      FlattenFirst(batches);
    }
  }

  /** Of two greedy packings, the first batch of one is no longer than that of the other: a
    * longer first batch would hold the file that closed the shorter one, and go over the limit. */
  lemma FirstBatchNoLonger(a: seq<seq<FileEntry>>, b: seq<seq<FileEntry>>, files: seq<FileEntry>, maxSize: int)
    requires GreedyPacking(a, files, maxSize) && GreedyPacking(b, files, maxSize)
    requires a != [] && b != []
    ensures |a[0]| <= |b[0]|
  {
    FlattenFirst(a);
    FlattenFirst(b);
    var n := |b[0]|;
    if n < |a[0]| {
      assert a[0] == files[..|a[0]|];
      assert b[0] == files[..n];
      // b goes on after its first batch, and its second batch starts with file n
      assert |b| > 1;
      assert ClosedFull(b, 0, maxSize);
      FlattenFirst(b[1..]);
      assert b[1..][0] == b[1];
      assert files[n] == b[1][0];
      // a's first batch holds two or more files, so it stays within the limit
      assert Total(a[0]) <= maxSize;
      TotalPrefix(a[0], n + 1, |a[0]|);
      assert a[0][..|a[0]|] == a[0];
      assert a[0][..n + 1] == files[..n + 1];
      TotalStep(files, n);
      assert false;
    }
  }

  /** The greedy packing of a file sequence is unique: the properties `CreateTemporaryTarfiles`
    * ensures pin down its batches completely. */
  lemma {:induction false} GreedyPackingUnique(a: seq<seq<FileEntry>>, b: seq<seq<FileEntry>>,
                                              files: seq<FileEntry>, maxSize: int)
    requires GreedyPacking(a, files, maxSize) && GreedyPacking(b, files, maxSize)
    ensures a == b
    decreases |files|
  {
    if files == [] {
      NoFilesNoBatches(a, maxSize);
      NoFilesNoBatches(b, maxSize);
    } else {
      if a == [] || b == [] {
        assert false;
      }
      FirstBatchNoLonger(a, b, files, maxSize);
      FirstBatchNoLonger(b, a, files, maxSize);
      FlattenFirst(a);
      FlattenFirst(b);
      var n := |a[0]|;
      assert a[0] == files[..n] == b[0];
      assert Flatten(a[1..]) == files[n..] == Flatten(b[1..]);
      PackedTail(a, maxSize);
      PackedTail(b, maxSize);
      GreedyPackingUnique(a[1..], b[1..], files[n..], maxSize);
      assert a == [a[0]] + a[1..];
      assert b == [b[0]] + b[1..];
    }
  }

  lemma EndStep(batches: seq<seq<FileEntry>>, k: nat)
    requires 0 < k < |batches|
    ensures End(batches, k) == End(batches, k - 1) + |batches[k]|
  {
    assert batches[..k + 1][..k] == batches[..k];
  }

  lemma {:induction false} EndMonotone(batches: seq<seq<FileEntry>>, j: nat, k: nat)
    requires j <= k < |batches|
    ensures End(batches, j) <= End(batches, k)
    decreases k - j
  {
    if j < k {
      EndMonotone(batches, j, k - 1);
      EndStep(batches, k);
    }
  }

  lemma MaxMtimeStep(s: seq<FileEntry>, n: nat)
    requires n < |s|
    ensures MaxMtime(s[..n + 1]) == if MaxMtime(s[..n]) < s[n].mtime then s[n].mtime else MaxMtime(s[..n])
  {
    assert s[..n + 1][..n] == s[..n];
  }

  /** The largest mtime of a longer prefix is never smaller. */
  lemma {:induction false} MaxMtimePrefix(s: seq<FileEntry>, m: nat, n: nat)
    requires m <= n <= |s|
    ensures MaxMtime(s[..m]) <= MaxMtime(s[..n])
    decreases n - m
  {
    if m < n {
      MaxMtimePrefix(s, m + 1, n);
      MaxMtimeStep(s, m);
    }
  }

  /** `max_mtime` is at least 0 and at least the mtime of every file. */
  lemma {:induction false} MaxMtimeBound(s: seq<FileEntry>)
    ensures 0 <= MaxMtime(s)
    ensures forall i :: 0 <= i < |s| ==> s[i].mtime <= MaxMtime(s)
  {
    if s != [] {
      var init := s[..|s| - 1];
      MaxMtimeBound(init);
      forall i | 0 <= i < |init|
        ensures s[i].mtime <= MaxMtime(s)
      {
        assert s[i] == init[i];
      }
    }
  }

  /** The mtimes yielded never decrease, and the last one bounds the mtime of every file. */
  lemma MtimesNondecreasing(tarfiles: seq<Tarfile>, batches: seq<seq<FileEntry>>, files: seq<FileEntry>)
    requires Stamped(tarfiles, batches, files)
    ensures forall j, k :: 0 <= j <= k < |tarfiles| ==> tarfiles[j].mtime <= tarfiles[k].mtime
    ensures tarfiles != [] ==> forall i :: 0 <= i < |files| ==> files[i].mtime <= tarfiles[|tarfiles| - 1].mtime
  {
    var n := |tarfiles|;
    assert files[..|files|] == files;
    forall j, k | 0 <= j <= k < n
      ensures tarfiles[j].mtime <= tarfiles[k].mtime
    {
      var init := tarfiles[..n - 1];
      if j < n - 1 {
        assert tarfiles[j] == init[j];
        var ej := End(batches, j);
        if k < n - 1 {
          assert tarfiles[k] == init[k];
          EndMonotone(batches, j, k);
          MaxMtimePrefix(files, ej + 1, End(batches, k) + 1);
        } else {
          MaxMtimePrefix(files, ej + 1, |files|);
        }
      }
    }
    MaxMtimeBound(files);
  }

  /** Distinct indices give distinct tarfile names. */
  lemma NamesDistinct(tarfiles: seq<Tarfile>, prefix: string)
    requires Named(tarfiles, prefix)
    ensures forall j, k :: 0 <= j < k < |tarfiles| ==> tarfiles[j].name != tarfiles[k].name
  {
    forall j, k | 0 <= j < k < |tarfiles|
      ensures tarfiles[j].name != tarfiles[k].name
    {
      if tarfiles[j].name == tarfiles[k].name {
        var a, b := TarfileName(prefix, j), TarfileName(prefix, k);
        assert |Padded(j, 4)| == |Padded(k, 4)|;
        assert a[|prefix|..|a| - |SUFFIX|] == Padded(j, 4);
        assert b[|prefix|..|b| - |SUFFIX|] == Padded(k, 4);
        PaddedInjective(j, k, 4);
      }
    }
  }

  /** The name prefix of the unit tests' day, host and experiment. */
  lemma ExamplePrefix()
    ensures NamePrefix(Date(2016, 1, 28), "mlab9", "dne04", "exper") == "20160128T000000Z-mlab9-dne04-exper-"
  {
    ExampleStamp();
    var stamp := DayStamp(Date(2016, 1, 28));
    assert stamp == "20160128";
    assert stamp + "T000000Z-" + "mlab9" + "-" + "dne04" + "-" + "exper" + "-"
        == "20160128T000000Z-mlab9-dne04-exper-";
  }

  lemma ExampleStamp()
    ensures DayStamp(Date(2016, 1, 28)) == "20160128"
  {
    assert Digits(2016) == "2016" by {
      assert Digits(201) == "201";
    }
    assert Padded(1, 2) == "01";
    assert Padded(28, 2) == "28";
  }

  /** With a limit of 4 bytes, a 5-byte and a 7-byte file go into two tarfiles, `...-0000.tgz`
    * and `...-0001.tgz`, whatever packer produced them, as long as it is greedy. */
  lemma TwoOversizeFilesExample(tarfiles: seq<Tarfile>, batches: seq<seq<FileEntry>>, f1: FileEntry, f2: FileEntry)
    requires f1.size == 5 && f2.size == 7
    requires Named(tarfiles, NamePrefix(Date(2016, 1, 28), "mlab9", "dne04", "exper"))
    requires Stamped(tarfiles, batches, [f1, f2])
    requires GreedyPacking(batches, [f1, f2], 4)
    ensures batches == [[f1], [f2]]
    ensures |tarfiles| == 2
    ensures tarfiles[0].name == "20160128T000000Z-mlab9-dne04-exper-0000.tgz"
    ensures tarfiles[1].name == "20160128T000000Z-mlab9-dne04-exper-0001.tgz"
  {
    var expected: seq<seq<FileEntry>> := [[f1], [f2]];
    assert Flatten(expected[..1]) == [f1];
    assert Flatten(expected) == [f1, f2];
    assert [f1][..0] == [];
    assert Total([f1]) == 5;
    assert ClosedFull(expected, 0, 4);
    GreedyPackingUnique(batches, expected, [f1, f2], 4);
    ExamplePrefix();
    assert Padded(0, 4) == "0000";
    assert Padded(1, 4) == "0001";
  }
}
