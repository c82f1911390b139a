/**
 * The `Dc2Hpss` nearline storage connector as an object: its mountpoint and
 * three pool fields are updated in place by `configure` and `shutdown`, and
 * its flush, stage and remove operations change the shared file system.
 */
module Connector {
  import opened Wrappers
  import opened JavaInt
  import opened HsmPath
  import opened FileOps
  import opened Transfers
  import Spec = ConnectorSpec

  /** The file system shared by the disk cache and the archive mount. */
  class FileSystem {
    var files: Files

    constructor (files: Files)
      ensures this.files == files
    {
      this.files := files;
    }
  }

  class Dc2Hpss {
    const storageType: string
    const storageName: string
    var mountpoint: Option<string>
    /** Every pool the connector has created; the three fields below index into it. */
    var pools: seq<Spec.Pool>
    var flusher: nat
    var stager: nat
    var remover: nat

    /** The connector's state as a value. */
    function State(): Spec.State
      reads this
    {
      Spec.State(mountpoint, pools, flusher, stager, remover)
    }

    predicate Valid()
      reads this
    {
      Spec.Valid(State())
    }

    /** `new Dc2Hpss(type, name)`: no mountpoint, and three live pools of the default sizes. */
    constructor (storageType: string, storageName: string)
      ensures this.storageType == storageType && this.storageName == storageName
      ensures State() == Spec.Initial() && Valid()
    {
      this.storageType := storageType;
      this.storageName := storageName;
      mountpoint := None;
      pools := [Spec.Pool(Spec.DefaultFlushThreads, false), Spec.Pool(Spec.DefaultStageThreads, false),
                Spec.Pool(Spec.DefaultRemoveThreads, false)];
      flusher, stager, remover := 0, 1, 2;
    }

    /**
     * `configure(properties)`; `dirs` is the set of paths that are existing
     * directories at the time of the call.
     */
    method Configure(props: map<string, string>, dirs: set<string>) returns (outcome: Outcome<Spec.ConfigError>)
      requires Valid()
      modifies this
      ensures Valid()
      ensures Spec.Step(State(), outcome) == Spec.Configure(old(State()), props, dirs)
    {
      if Spec.MountpointKey !in props && mountpoint == None {
        return Fail(Spec.MountpointRequired);
      }
      if Spec.MountpointKey in props {
        var mnt := props[Spec.MountpointKey];
        if mnt !in dirs {
          return Fail(Spec.NotADirectory(mnt));
        }
        mountpoint := Some(mnt);
      }
      outcome := RecreatePool(props, Spec.FlushPool);
      if outcome.Fail? {
        return;
      }
      outcome := RecreatePool(props, Spec.StagePool);
      if outcome.Fail? {
        return;
      }
      outcome := RecreatePool(props, Spec.RemovePool);
    }

    /**
     * The block of `configure` for one pool: parse the value, shut the old
     * pool down, then create the new one, which throws for a count below one.
     */
    method RecreatePool(props: map<string, string>, k: Spec.PoolKind) returns (outcome: Outcome<Spec.ConfigError>)
      requires Valid()
      modifies this
      ensures Valid()
      ensures Spec.Step(State(), outcome) == Spec.Recreate(old(State()), props, k)
    {
      var key := Spec.Key(k);
      if key !in props {
        return Pass;
      }
      var parsed := ParseInt(props[key]);
      if parsed.None? {
        return Fail(Spec.NotAnInteger(key));
      }
      var n := parsed.value;
      var h := State().Handle(k);
      pools := pools[h := pools[h].(shutDown := true)];
      ghost var retired := State();
      assert retired == Spec.Retire(old(State()), k);
      if n <= 0 {
        return Fail(Spec.IllegalThreadCount(key, n));
      }
      pools := pools + [Spec.Pool(n, false)];
      match k {
        case FlushPool => flusher := |pools| - 1;
        case StagePool => stager := |pools| - 1;
        case RemovePool => remover := |pools| - 1;
      }
      assert State() == Spec.Install(retired, k, n);
      outcome := Pass;
    }

    /** `getFlushExecutor()`: the pool flush requests run on, a live-sized one. */
    function FlushExecutor(): (h: nat)
      requires Valid()
      reads this
      ensures h == State().Handle(Spec.FlushPool) && h < |pools| && pools[h].size > 0
    {
      flusher
    }

    /** `getStageExecutor()`. */
    function StageExecutor(): (h: nat)
      requires Valid()
      reads this
      ensures h == State().Handle(Spec.StagePool) && h < |pools| && pools[h].size > 0
    {
      stager
    }

    /** `getRemoveExecutor()`. */
    function RemoveExecutor(): (h: nat)
      requires Valid()
      reads this
      ensures h == State().Handle(Spec.RemovePool) && h < |pools| && pools[h].size > 0
    {
      remover
    }

    /** `flush(request)`, with `fault` standing for an I/O failure of the copy. */
    method Flush(req: FlushRequest, fs: FileSystem, fault: bool) returns (r: Result<set<Uri>, CacheError>)
      requires mountpoint.Some?
      modifies fs
      ensures Transfer(fs.files, r) == FlushOn(old(fs.files), mountpoint.value, storageType, storageName, req, fault)
    {
      var hsmPath := GetHsmPath(req.info, req.pnfsId);
      var external := Join(mountpoint.value, hsmPath);
      var copied := Copy(fs.files, req.file, external, true, fault);
      if copied.None? {
        return Failure(CopyToArchiveFailed(external));
      }
      fs.files := copied.value;
      r := Success({Uri(storageType, storageName, hsmPath)});
    }

    /** `stage(request)`; the empty checksum set it returns is not modelled. */
    method Stage(req: StageRequest, fs: FileSystem, fault: bool) returns (r: Result<(), CacheError>)
      requires mountpoint.Some?
      modifies fs
      ensures Transfer(fs.files, r) == StageOn(old(fs.files), mountpoint.value, req, fault)
    {
      var external := Join(mountpoint.value, GetHsmPath(req.info, req.pnfsId));
      var copied := Copy(fs.files, external, req.file, false, fault);
      if copied.None? {
        return Failure(CopyFromArchiveFailed(external));
      }
      fs.files := copied.value;
      r := Success(());
    }

    /** `remove(request)`. */
    method Remove(req: RemoveRequest, fs: FileSystem, fault: bool) returns (r: Result<(), CacheError>)
      requires mountpoint.Some?
      modifies fs
      ensures Transfer(fs.files, r) == RemoveOn(old(fs.files), mountpoint.value, req, fault)
    {
      var external := Join(mountpoint.value, req.uri.path);
      var remaining := DeleteIfExists(fs.files, external, fault);
      if remaining.None? {
        return Failure(DeletionFailed(external));
      }
      fs.files := remaining.value;
      r := Success(());
    }

    /** `shutdown()`: the three current pools are shut down; nothing else changes. */
    method Shutdown()
      requires Valid()
      modifies this
      ensures Valid()
      ensures State() == Spec.Shutdown(old(State()))
    {
      pools := pools[flusher := pools[flusher].(shutDown := true)];
      pools := pools[stager := pools[stager].(shutDown := true)];
      pools := pools[remover := pools[remover].(shutDown := true)];
    }
  }

  /** A fresh connector configured with mountpoint `/archive` and two flush threads. */
  method ConfiguredForArchive() returns (connector: Dc2Hpss)
    ensures fresh(connector) && connector.Valid()
    ensures connector.storageType == "hsm" && connector.storageName == "archive"
    ensures connector.mountpoint == Some("/archive")
    ensures connector.pools[connector.FlushExecutor()] == Spec.Pool(2, false)
  {
    connector := new Dc2Hpss("hsm", "archive");
    var props := map[Spec.MountpointKey := "/archive", Spec.PutsKey := "2"];
    Spec.ConfigureFreshWithMountpointAndPuts("/archive", 2, {"/archive"});
    assert FormatInt(2) == "2";
    var outcome := connector.Configure(props, {"/archive"});
    assert outcome == Pass;
  }

  /** The scenario's file `000A1B` lies at `/archive/000A1B`: neither string needs normalising. */
  lemma ArchiveFile(info: StorageInfo)
    ensures GetHsmPath(info, "000A1B") == "/000A1B"
    ensures ArchivePath("/archive", info, "000A1B") == "/archive/000A1B"
  {
    assert NoDoubleSlash("/archive") && '/' !in "000A1B";
    ArchivePathVerbatim("/archive", info, "000A1B");
    assert "/archive" + "/" + "000A1B" == "/archive/000A1B";
  }

  /**
   * The configured connector flushes file `000A1B` to `/archive/000A1B` under
   * the locator path `/000A1B`; removing by that locator deletes it again.
   */

  method ArchiveScenario(fs: FileSystem, local: string, info: StorageInfo)
    returns (flushed: Result<set<Uri>, CacheError>, removed: Result<(), CacheError>)
    requires local in fs.files
    modifies fs
    ensures flushed == Success({Uri("hsm", "archive", "/000A1B")})
    ensures removed == Success(())
    ensures fs.files == old(fs.files) - {"/archive/000A1B"}
  {
    var connector := ConfiguredForArchive();
    var req := FlushRequest("000A1B", info, local);
    var uri := Uri("hsm", "archive", "/000A1B");
    ArchiveFile(info);
    ghost var before := fs.files;
    flushed := connector.Flush(req, fs, false);
    assert flushed == Success({uri});

    removed := connector.Remove(RemoveRequest(uri), fs, false);
    FlushThenRemove(before, "/archive", "hsm", "archive", req, uri);
  }
}
