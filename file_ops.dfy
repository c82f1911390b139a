/**
 * The file system the connector works on, as a map from absolute path to
 * content, and the two `java.nio.file.Files` operations it calls.
 * `fault` stands for an I/O failure the model does not otherwise see
 * (permissions, a full disk, a missing parent directory); a failing
 * operation leaves the map as it was.
 */
module FileOps {
  import opened Wrappers

  newtype byte = b: int | 0 <= b < 0x100

  type Files = map<string, seq<byte>>

  /**
   * `Files.copy(source, target)`, with `REPLACE_EXISTING` when `replaceExisting`:
   * fails when the source is missing, or when the target exists and may not be
   * replaced (copying a file onto itself is a successful no-op).
   */
  function Copy(files: Files, source: string, target: string, replaceExisting: bool, fault: bool): (r: Option<Files>)
    ensures r.Some? <==> !fault && source in files && (replaceExisting || source == target || target !in files)
    ensures r.Some? ==> r.value.Keys == files.Keys + {target} && r.value[target] == files[source]
    ensures r.Some? ==> forall p :: p in files && p != target ==> r.value[p] == files[p]
  {
    if fault || source !in files then None
    else if source == target then Some(files)
    else if target in files && !replaceExisting then None
    else Some(files[target := files[source]])
  }

  /** `Files.deleteIfExists(path)`: succeeds whether or not the file is there. */
  function DeleteIfExists(files: Files, path: string, fault: bool): (r: Option<Files>)
    ensures r.Some? <==> !fault
    ensures r.Some? ==> r.value.Keys == files.Keys - {path}
    ensures r.Some? ==> forall p :: p in r.value ==> r.value[p] == files[p]
  {
    if fault then None else Some(files - {path})
  }
}
