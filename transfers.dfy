/**
 * Flush, stage and remove as functions of the file system: what each request
 * does to the files, what it returns, and which CacheException it throws.
 */
module Transfers {
  import opened Wrappers
  import opened HsmPath
  import opened FileOps

  /** A flush request: the file's identifier, its storage info and its path in the disk cache. */
  datatype FlushRequest = FlushRequest(pnfsId: string, info: StorageInfo, file: string)

  /** A stage request: the file's identifier, its storage info and the disk-cache path to fill. */
  datatype StageRequest = StageRequest(pnfsId: string, info: StorageInfo, file: string)

  /** A remove request: the locator a flush returned. */
  datatype RemoveRequest = RemoveRequest(uri: Uri)

  /** The CacheExceptions the connector throws, each naming the external path involved. */
  datatype CacheError =
    | CopyToArchiveFailed(path: string)
    | CopyFromArchiveFailed(path: string)
    | DeletionFailed(path: string)

  /**
   * The error code each exception carries; a deletion failure uses the
   * exception's default code, which is not part of this model.
   */
  function ErrorCode(e: CacheError): Option<int> {
    match e
    case CopyToArchiveFailed(_) => Some(2)
    case CopyFromArchiveFailed(_) => Some(3)
    case DeletionFailed(_) => None
  }

  /** The file system after a request, and what the request returned or threw. */
  datatype Transfer<T> = Transfer(files: Files, result: Result<T, CacheError>)

  /**
   * `flush`: copy the disk file to the archive path, replacing whatever is
   * there, and return the single locator whose path is the HSM path.
   */
  function FlushOn(files: Files, mountpoint: string, storageType: string, storageName: string, req: FlushRequest, fault: bool)
    : (t: Transfer<set<Uri>>)
    ensures var archived := ArchivePath(mountpoint, req.info, req.pnfsId);
      && (t.result.Success? <==> !fault && req.file in files)
      && (t.result.Success? ==>
            && t.result.value == {Uri(storageType, storageName, GetHsmPath(req.info, req.pnfsId))}
            && t.files.Keys == files.Keys + {archived}
            && t.files[archived] == files[req.file]
            && forall p :: p in files && p != archived ==> t.files[p] == files[p])
      && (t.result.Failure? ==>
            t.files == files && t.result.error == CopyToArchiveFailed(archived) && ErrorCode(t.result.error) == Some(2))
  {
    var hsmPath := GetHsmPath(req.info, req.pnfsId);
    var external := Join(mountpoint, hsmPath);
    match Copy(files, req.file, external, true, fault)
    case None => Transfer(files, Failure(CopyToArchiveFailed(external)))
    case Some(copied) => Transfer(copied, Success({Uri(storageType, storageName, hsmPath)}))
  }

  /**
   * `stage`: copy the archive file of the same identifier to the disk path,
   * without replacing an existing disk file; no checksums are returned.
   */
  function StageOn(files: Files, mountpoint: string, req: StageRequest, fault: bool): (t: Transfer<()>)
    ensures var archived := ArchivePath(mountpoint, req.info, req.pnfsId);
      && (t.result.Success? <==> !fault && archived in files && (req.file !in files || req.file == archived))
      && (t.result.Success? ==>
            && t.files.Keys == files.Keys + {req.file}
            && t.files[req.file] == files[archived]
            && forall p :: p in files && p != req.file ==> t.files[p] == files[p])
      && (t.result.Failure? ==>
            t.files == files && t.result.error == CopyFromArchiveFailed(archived) && ErrorCode(t.result.error) == Some(3))
  {
    var external := Join(mountpoint, GetHsmPath(req.info, req.pnfsId));
    match Copy(files, external, req.file, false, fault)
    case None => Transfer(files, Failure(CopyFromArchiveFailed(external)))
    case Some(copied) => Transfer(copied, Success(()))
  }

  /**
   * `remove`: delete the external file named by the locator's path, if it
   * exists; only an I/O failure makes it throw.
   */
  function RemoveOn(files: Files, mountpoint: string, req: RemoveRequest, fault: bool): (t: Transfer<()>)
    ensures var external := Join(mountpoint, req.uri.path);
      && (t.result.Success? <==> !fault)
      && (t.result.Success? ==>
            t.files.Keys == files.Keys - {external} && forall p :: p in t.files ==> t.files[p] == files[p])
      && (t.result.Failure? ==> t.files == files && t.result.error == DeletionFailed(external))
  {
    var external := Join(mountpoint, req.uri.path);
    match DeleteIfExists(files, external, fault)
    case None => Transfer(files, Failure(DeletionFailed(external)))
    case Some(remaining) => Transfer(remaining, Success(()))
  }

  /**
   * The locator a flush returns leads remove to the very file the flush
   * wrote: flush then remove leaves the file system as before, less that
   * archive file.
   */
  lemma FlushThenRemove(files: Files, mountpoint: string, storageType: string, storageName: string, req: FlushRequest, uri: Uri)
    requires FlushOn(files, mountpoint, storageType, storageName, req, false).result.Success?
    requires uri in FlushOn(files, mountpoint, storageType, storageName, req, false).result.value
    ensures Join(mountpoint, uri.path) == ArchivePath(mountpoint, req.info, req.pnfsId)
    ensures RemoveOn(FlushOn(files, mountpoint, storageType, storageName, req, false).files, mountpoint, RemoveRequest(uri), false)
            == Transfer(files - {ArchivePath(mountpoint, req.info, req.pnfsId)}, Success(()))
  {
    var archived := ArchivePath(mountpoint, req.info, req.pnfsId);
    var flushed := FlushOn(files, mountpoint, storageType, storageName, req, false).files;
    var removed := RemoveOn(flushed, mountpoint, RemoveRequest(uri), false).files;
    assert removed == files - {archived};
  }

  /**
   * Staging a flushed file by the same identifier into a fresh disk path
   * reproduces the flushed content byte for byte.
   */
  lemma FlushThenStage(files: Files, mountpoint: string, storageType: string, storageName: string, req: FlushRequest, target: string)
    requires req.file in files
    requires target !in files
    ensures
      var flushed := FlushOn(files, mountpoint, storageType, storageName, req, false).files;
      var staged := StageOn(flushed, mountpoint, StageRequest(req.pnfsId, req.info, target), false);
      && staged.result.Success?
      && staged.files[target] == files[req.file]
  {
  }

  /** Staging never overwrites a file already in the disk cache. */
  lemma StageKeepsExistingFile(files: Files, mountpoint: string, req: StageRequest, fault: bool)
    requires req.file in files && req.file != ArchivePath(mountpoint, req.info, req.pnfsId)
    ensures StageOn(files, mountpoint, req, fault) == Transfer(files, Failure(CopyFromArchiveFailed(ArchivePath(mountpoint, req.info, req.pnfsId))))
  {
  }

  /** Removing twice is the same as removing once: the second call succeeds and changes nothing. */
  lemma RemoveIdempotent(files: Files, mountpoint: string, req: RemoveRequest)
    ensures
      var once := RemoveOn(files, mountpoint, req, false);
      RemoveOn(once.files, mountpoint, req, false) == once
  {
    var once := RemoveOn(files, mountpoint, req, false);
    var twice := RemoveOn(once.files, mountpoint, req, false);
    assert twice.files == once.files;
  }

  /** Flushing the same file twice leaves the same archive as flushing it once. */
  lemma FlushIdempotent(files: Files, mountpoint: string, storageType: string, storageName: string, req: FlushRequest)
    ensures
      var once := FlushOn(files, mountpoint, storageType, storageName, req, false);
      FlushOn(once.files, mountpoint, storageType, storageName, req, false) == once
  {
    var once := FlushOn(files, mountpoint, storageType, storageName, req, false);
    if once.result.Success? {
      var archived := ArchivePath(mountpoint, req.info, req.pnfsId);
      assert once.files[req.file] == files[req.file];
      var twice := FlushOn(once.files, mountpoint, storageType, storageName, req, false);
      assert twice.result == once.result;
      assert twice.files[archived] == once.files[archived];
      assert twice.files == once.files;
    }
  }

  /**
   * A locator path that ends in a separator removes the same archive file as
   * the path without it, since the joined path is normalised.
   */
  lemma RemoveIgnoresTrailingSeparator(files: Files, mountpoint: string, uri: Uri, fault: bool)
    requires uri.path != []
    ensures RemoveOn(files, mountpoint, RemoveRequest(uri.(path := uri.path + "/")), fault)
            == RemoveOn(files, mountpoint, RemoveRequest(uri), fault)
  {
    JoinIgnoresTrailingSeparator(mountpoint, uri.path);
  }
}
