/** The generator `create_temporary_tarfiles` itself: the loop that packs a day's files into
  * tarfiles, proved against the packing rules of `Tarfiles`. */
module TarfileGenerator {
  import opened Wrappers
  import opened Dates
  import opened Hostname
  import opened Tarfiles

  /** `create_temporary_tarfiles`, collecting what it yields, together with the files each tarfile
    * is built from. A host name `node_and_site` rejects fails before anything is packed. */
  method CreateTemporaryTarfiles(day: Date, host: string, experiment: string, maxSize: int,
                                 files: seq<FileEntry>)
    returns (r: Result<(seq<Tarfile>, seq<seq<FileEntry>>), HostError>)
    requires Valid(day)
    ensures r.Err? <==> !IsMlabHostname(host)
    ensures r.Err? ==> r.error == BadHostname(host)
    ensures r.Ok? ==> var (node, site) := NodeAndSite(host).value;
      Named(r.value.0, NamePrefix(day, node, site, experiment))
    ensures r.Ok? ==> Stamped(r.value.0, r.value.1, files)
    ensures r.Ok? ==> GreedyPacking(r.value.1, files, maxSize)
    ensures r.Ok? ==> (r.value.0 == [] <==> files == [])
  {
    match NodeAndSite(host) {
      case Err(e) =>
        return Err(e);
      case Ok((node, site)) =>
        var tarfiles, batches := Pack(NamePrefix(day, node, site, experiment), maxSize, files);
        return Ok((tarfiles, batches));
    }
  }

  /** The loop of `create_temporary_tarfiles`, given the name prefix: the tarfiles yielded and the
    * files each one holds. */
  method Pack(prefix: string, maxSize: int, files: seq<FileEntry>)
    returns (tarfiles: seq<Tarfile>, batches: seq<seq<FileEntry>>)
    ensures Named(tarfiles, prefix)
    ensures Stamped(tarfiles, batches, files)
    ensures GreedyPacking(batches, files, maxSize)
    ensures tarfiles == [] <==> files == []
  {
    var size := 0;
    var current: seq<FileEntry> := [];
    var index := 0;
    var maxMtime := 0;
    tarfiles, batches := [], [];
    for i := 0 to |files|
      invariant index == |tarfiles|
      invariant Filling(prefix, maxSize, files, i, Loop(tarfiles, batches, current, size, maxMtime))
    {
      var f := files[i];
      ghost var (t0, b0, c0, s0, m0) := (tarfiles, batches, current, size, maxMtime);
      maxMtime := if maxMtime < f.mtime then f.mtime else maxMtime;
      if current != [] && size + f.size > maxSize {
        tarfiles := tarfiles + [Tarfile(TarfileName(prefix, index), maxMtime)];
        batches := batches + [current];
        current := [];
        size := 0;
        index := index + 1;
      }
      current := current + [f];
      size := size + f.size;
      Step(prefix, maxSize, files, i, t0, b0, c0, s0, m0, tarfiles, batches, current, size, maxMtime);
    }
    Finish(prefix, maxSize, files, tarfiles, batches, current, size, maxMtime);
    if current != [] {
      tarfiles := tarfiles + [Tarfile(TarfileName(prefix, index), maxMtime)];
      batches := batches + [current];
    }
  }
}
