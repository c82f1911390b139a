# Dc2Hpss nearline connector — a Dafny model

`Dc2Hpss` connects a dCache pool to an HSM (hierarchical storage manager) mounted as a
directory. It flushes files from the disk cache to the archive, stages them back, and
removes them from the archive. Each kind of request runs on its own fixed thread pool.
`configure` sets the mountpoint and the three pool sizes (`puts`, `gets`, `dels`).
`shutdown` stops the pools.

This project models that class and proves what it does:

- `java_int.dfy` (module `JavaInt`): `Integer.parseInt` in radix 10, with `Integer.toString`
  as its partner.
- `hsm_path.dfy` (module `HsmPath`): the HSM path of a file identifier, the join with the
  mountpoint done by `Paths.get`, and the locator URI.
- `file_ops.dfy` (module `FileOps`): the file system as a map from path to bytes, with
  `Files.copy` and `Files.deleteIfExists` over it.
- `connector_spec.dfy` (module `ConnectorSpec`): the connector's state as a value, with
  `configure` and `shutdown` as functions of it and lemmas about them. The state is the
  mountpoint, every pool ever created, and the three handles in use. A pool is a record of
  its size and whether it was shut down. A handle indexes that sequence, so a replaced pool
  is still there.
- `transfers.dfy` (module `Transfers`): `flush`, `stage` and `remove` as functions of the
  file system, with round-trip lemmas.
- `dc2hpss.dfy` (module `Connector`): the class `Dc2Hpss`, whose methods update its fields
  in place. Each method is proved equal to the matching specification function. It also
  holds a scenario: configure, flush, then remove.

Choices made where the code leaves room:

- Pool creation with a count of zero or less fails, as `Executors.newFixedThreadPool`
  does. The code shuts the old pool down first (lines 89, 102, 115). So the field keeps
  pointing at a shut-down pool, and `configure` throws. The model does exactly that.
- `flush`, `stage` and `remove` read `mountpoint` with no null check. The model requires a
  mountpoint (`requires mountpoint.Some?`) and has no "not configured" error.
- Whether a path is a directory is a parameter: the set `dirs` of existing directories.
- An I/O failure outside the model is a parameter `fault`. A failed operation leaves the
  file system unchanged.
- A failed transfer throws `CacheException`: with code 2 for flush (line 163), code 3 for
  stage (line 185), and the exception's default code for remove (line 203).

## Model

| member | source | states |
|---|---|---|
| JavaInt.ParseInt | src/main/java/de/gridka/dcache/nearline/hpss/Dc2Hpss.java:84-88 | A value parses only if it is an optional sign followed by at least one decimal digit, so a sign alone never parses. The result lies in the 32-bit range. A `-` sign gives a non-positive value; otherwise the value is non-negative. |
| JavaInt.ParseFormatRoundTrip | src/main/java/de/gridka/dcache/nearline/hpss/Dc2Hpss.java:85 | Parsing the printed form of any integer gives it back if it fits in 32 bits, and fails otherwise. |
| JavaInt.LeadingZeroAndPlusIgnored | src/main/java/de/gridka/dcache/nearline/hpss/Dc2Hpss.java:85 | A leading `0` or `+` before the digits does not change the parsed value, and neither does a `0` between a `-` sign and the digits. |
| JavaInt.LoneSignRejected | src/main/java/de/gridka/dcache/nearline/hpss/Dc2Hpss.java:84-88 | `+` and `-` on their own are not numbers. |
| JavaInt.RejectsStrayCharacter | src/main/java/de/gridka/dcache/nearline/hpss/Dc2Hpss.java:84-88 | Any character that is neither a digit nor a leading sign makes parsing fail. |
| JavaInt.Decimal | src/main/java/de/gridka/dcache/nearline/hpss/Dc2Hpss.java:85 | The decimal form of a natural number is a non-empty string of digits with no leading zero. |
| JavaInt.DecimalValue | src/main/java/de/gridka/dcache/nearline/hpss/Dc2Hpss.java:85 | The digits of a number's decimal form evaluate back to that number. |
| HsmPath.GetHsmPath | src/main/java/de/gridka/dcache/nearline/hpss/Dc2Hpss.java:140-147 | The HSM path is `/` followed by the file identifier, whatever the storage info. |
| HsmPath.HsmPathIdentifies | src/main/java/de/gridka/dcache/nearline/hpss/Dc2Hpss.java:140-147 | Two HSM paths are equal exactly when the identifiers are equal. The storage info plays no part. |
| HsmPath.TrimTrailingSlashes | src/main/java/de/gridka/dcache/nearline/hpss/Dc2Hpss.java:157 | A path loses its trailing separators and nothing else. |
| HsmPath.CollapseSlashes | src/main/java/de/gridka/dcache/nearline/hpss/Dc2Hpss.java:157 | No separator directly follows another in the result. The first and last characters are kept. A path without doubled separators is left as it is. |
| HsmPath.Normalize | src/main/java/de/gridka/dcache/nearline/hpss/Dc2Hpss.java:157 | A normalised path has no doubled separator and ends in one only if it is the root `/`. It is empty exactly when the input is. A path already in that form is left as it is. |
| HsmPath.Join | src/main/java/de/gridka/dcache/nearline/hpss/Dc2Hpss.java:157 | `Paths.get(mountpoint, hsmPath)` gives a path with no doubled separator and no trailing one (except the root). It is empty only when both parts are. |
| HsmPath.Directory | src/main/java/de/gridka/dcache/nearline/hpss/Dc2Hpss.java:157 | The directory the archive files lie in has no doubled separator and does not end in one. |
| HsmPath.JoinHsmPath | src/main/java/de/gridka/dcache/nearline/hpss/Dc2Hpss.java:157 | The HSM path of an identifier that is a plain name lands directly in the mountpoint's directory, whatever separators the mountpoint carries. |
| HsmPath.JoinVerbatim | src/main/java/de/gridka/dcache/nearline/hpss/Dc2Hpss.java:157 | A mountpoint already in normal form is used as it is, followed by a separator and the identifier. |
| HsmPath.JoinIgnoresTrailingSeparator | src/main/java/de/gridka/dcache/nearline/hpss/Dc2Hpss.java:196-197 | A separator at the end of an HSM or locator path names the same external file as the path without it. |
| HsmPath.ArchivePath | src/main/java/de/gridka/dcache/nearline/hpss/Dc2Hpss.java:155-157 | A file's external path is normalised. For an identifier that is a plain name, it is the mountpoint's directory, a separator and the identifier. |
| HsmPath.ArchivePathVerbatim | src/main/java/de/gridka/dcache/nearline/hpss/Dc2Hpss.java:155-157 | Under a mountpoint in normal form, a plain identifier's external file is the mountpoint, a separator and the identifier. |
| HsmPath.ArchivePathsDistinct | src/main/java/de/gridka/dcache/nearline/hpss/Dc2Hpss.java:155-157 | Two files whose identifiers are plain names share an external path exactly when they have the same identifier. |
| FileOps.Copy | src/main/java/de/gridka/dcache/nearline/hpss/Dc2Hpss.java:161 | A copy succeeds exactly when there is no fault, the source exists, and the target may be written. The target may be written if replacing is allowed, or it is absent, or it is the source itself. On success the target holds the source's bytes and no other file changes. |
| FileOps.DeleteIfExists | src/main/java/de/gridka/dcache/nearline/hpss/Dc2Hpss.java:201 | Deletion succeeds unless there is a fault, whether or not the file exists. It removes that one path and leaves every other file unchanged. |
| ConnectorSpec.Initial | src/main/java/de/gridka/dcache/nearline/hpss/Dc2Hpss.java:42-55 | A fresh connector has no mountpoint and three distinct live pools of sizes 10 (flush), 1000 (stage) and 1 (remove). |
| ConnectorSpec.ShutdownPool | src/main/java/de/gridka/dcache/nearline/hpss/Dc2Hpss.java:89 | Shutting a pool down marks only that pool, and changes no handle and not the mountpoint. |
| ConnectorSpec.SetMountpoint | src/main/java/de/gridka/dcache/nearline/hpss/Dc2Hpss.java:73-79 | The mountpoint step passes exactly when the supplied mountpoint is a directory, or none is supplied and one was set before. It stores a supplied mountpoint only when it passes, and touches no pool. |
| ConnectorSpec.Retire | src/main/java/de/gridka/dcache/nearline/hpss/Dc2Hpss.java:89 | Retiring shuts down the current pool of one kind. It keeps every handle and the other pools, and the invariant still holds. |
| ConnectorSpec.Install | src/main/java/de/gridka/dcache/nearline/hpss/Dc2Hpss.java:90 | A new live pool of the requested size is appended and becomes current for its kind. The other handles stay as they were. |
| ConnectorSpec.Recreate | src/main/java/de/gridka/dcache/nearline/hpss/Dc2Hpss.java:81-92 | One pool step keeps the invariant and loses no pool. It passes exactly when its value is absent or a positive integer, and leaves the other two pools and the mountpoint alone. |
| ConnectorSpec.RecreateOutcome | src/main/java/de/gridka/dcache/nearline/hpss/Dc2Hpss.java:84-90 | A pool step throws "not an integer" when its value does not parse, and "illegal thread count" when it parses to zero or less. |
| ConnectorSpec.RecreateShows | src/main/java/de/gridka/dcache/nearline/hpss/Dc2Hpss.java:83-91 | For its own pool, a pool step behaves in one of three ways. An absent key or a non-integer leaves the pool as it was. A count of zero or less retires the pool but leaves it current. A positive count retires the old pool and installs a live pool of exactly that size. |
| ConnectorSpec.PoolSteps | src/main/java/de/gridka/dcache/nearline/hpss/Dc2Hpss.java:81-118 | The three pool steps together keep the invariant and lose no pool. |
| ConnectorSpec.PoolStepsOutcome | src/main/java/de/gridka/dcache/nearline/hpss/Dc2Hpss.java:81-118 | The pool steps pass exactly when `puts`, `gets` and `dels` are all accepted. Otherwise the first one that is not accepted decides the error. |
| ConnectorSpec.Configure | src/main/java/de/gridka/dcache/nearline/hpss/Dc2Hpss.java:70-119 | `configure` keeps the invariant. The three handles name distinct pools, every pool has a thread, and every pool that is not current is shut down. No pool is lost, none loses its size, and none comes back to life. |
| ConnectorSpec.FieldError | src/main/java/de/gridka/dcache/nearline/hpss/Dc2Hpss.java:84-88 | A rejected value gives "not an integer" exactly when it does not parse. |
| ConnectorSpec.ConfigureOutcome | src/main/java/de/gridka/dcache/nearline/hpss/Dc2Hpss.java:73-118 | `configure` throws on the first failing check, in this order: mountpoint missing, mountpoint not a directory, then `puts`, `gets`, `dels`. It passes exactly when no check fails. |
| ConnectorSpec.ConfigureMountpoint | src/main/java/de/gridka/dcache/nearline/hpss/Dc2Hpss.java:73-79 | After `configure`, the mountpoint is the supplied one if that is a directory, even if a later field fails. Otherwise it is the previous one. |
| ConnectorSpec.ConfigurePoolEffect | src/main/java/de/gridka/dcache/nearline/hpss/Dc2Hpss.java:81-118 | A pool keeps its handle and state when configuration stops before its step, its key is absent, or its value is not an integer. A count of zero or less retires it in place. A positive count replaces it with a new live pool of exactly that size, and no later failure undoes this. |
| ConnectorSpec.ConfigureRejectsNonInteger | src/main/java/de/gridka/dcache/nearline/hpss/Dc2Hpss.java:82-88 | `puts = "abc"` on a configured connector throws "not an integer" and changes nothing. |
| ConnectorSpec.ConfigureZeroThreadsRetiresPool | src/main/java/de/gridka/dcache/nearline/hpss/Dc2Hpss.java:89-90 | `puts = "0"` throws, and leaves the flush handle on the old pool, which is now shut down. |
| ConnectorSpec.ConfigureBadGetsKeepsEarlierEffects | src/main/java/de/gridka/dcache/nearline/hpss/Dc2Hpss.java:73-105 | A bad `gets` after a good mountpoint and `puts` throws. The new mountpoint and the new flush pool stay in place. The stage and remove pools are untouched. |
| ConnectorSpec.ConfigureFreshWithMountpointAndPuts | src/main/java/de/gridka/dcache/nearline/hpss/Dc2Hpss.java:42-92 | Configuring a fresh connector with a directory and a positive `puts` passes. It stores the mountpoint, installs a flush pool of that size, and keeps the default stage and remove pools. |
| ConnectorSpec.Shutdown | src/main/java/de/gridka/dcache/nearline/hpss/Dc2Hpss.java:215-221 | `shutdown` keeps the mountpoint, the handles and every pool size, and marks every pool shut down. |
| ConnectorSpec.ShutdownLeavesNoLivePool | src/main/java/de/gridka/dcache/nearline/hpss/Dc2Hpss.java:215-221 | After `shutdown`, no pool is live, current or retired. |
| Transfers.FlushOn | src/main/java/de/gridka/dcache/nearline/hpss/Dc2Hpss.java:150-169 | Flush succeeds exactly when there is no fault and the disk file exists. It then overwrites the archive file with the disk file's bytes, changes nothing else, and returns exactly one locator whose path is the HSM path. On failure nothing changes and the error carries code 2. |
| Transfers.StageOn | src/main/java/de/gridka/dcache/nearline/hpss/Dc2Hpss.java:171-191 | Stage succeeds exactly when there is no fault, the archive file exists, and the disk file does not exist (or is the archive file itself). It then copies the bytes unchanged and changes nothing else. On failure nothing changes and the error carries code 3. |
| Transfers.RemoveOn | src/main/java/de/gridka/dcache/nearline/hpss/Dc2Hpss.java:193-205 | Remove succeeds unless there is a fault, whether or not the file exists. It deletes the file at the mountpoint joined with the locator's path, and nothing else. |
| Transfers.FlushThenRemove | src/main/java/de/gridka/dcache/nearline/hpss/Dc2Hpss.java:155-197 | Remove, given the locator that flush returned, addresses the file flush wrote. The two together leave the file system as before, without that archive file. |
| Transfers.FlushThenStage | src/main/java/de/gridka/dcache/nearline/hpss/Dc2Hpss.java:155-183 | Staging a flushed file by the same identifier into an absent disk path reproduces the flushed bytes. |
| Transfers.StageKeepsExistingFile | src/main/java/de/gridka/dcache/nearline/hpss/Dc2Hpss.java:182-186 | Stage never overwrites an existing disk file. It fails with code 3 and changes nothing. |
| Transfers.RemoveIdempotent | src/main/java/de/gridka/dcache/nearline/hpss/Dc2Hpss.java:200-204 | A second remove with the same locator succeeds and changes nothing. |
| Transfers.RemoveIgnoresTrailingSeparator | src/main/java/de/gridka/dcache/nearline/hpss/Dc2Hpss.java:196-201 | A locator path ending in a separator removes the same archive file, with the same result, as the path without it. |
| Transfers.FlushIdempotent | src/main/java/de/gridka/dcache/nearline/hpss/Dc2Hpss.java:160-164 | Flushing the same file twice gives the same archive and result as flushing it once. |
| Connector.Dc2Hpss.constructor | src/main/java/de/gridka/dcache/nearline/hpss/Dc2Hpss.java:42-60 | A new connector records its type and name and starts in the fresh state. |
| Connector.Dc2Hpss.Configure | src/main/java/de/gridka/dcache/nearline/hpss/Dc2Hpss.java:70-119 | Updating the fields step by step keeps the invariant. The new fields and the outcome are those of the specification `configure`. |
| Connector.Dc2Hpss.RecreatePool | src/main/java/de/gridka/dcache/nearline/hpss/Dc2Hpss.java:81-92 | The in-place shutdown and replacement of one pool field matches the specification step. |
| Connector.Dc2Hpss.FlushExecutor | src/main/java/de/gridka/dcache/nearline/hpss/Dc2Hpss.java:121-125 | The flush executor is the current flush pool, which has at least one thread. |
| Connector.Dc2Hpss.StageExecutor | src/main/java/de/gridka/dcache/nearline/hpss/Dc2Hpss.java:127-131 | The stage executor is the current stage pool, which has at least one thread. |
| Connector.Dc2Hpss.RemoveExecutor | src/main/java/de/gridka/dcache/nearline/hpss/Dc2Hpss.java:133-137 | The remove executor is the current remove pool, which has at least one thread. |
| Connector.Dc2Hpss.Flush | src/main/java/de/gridka/dcache/nearline/hpss/Dc2Hpss.java:150-169 | Flush changes the file system and returns as the specification flush says. |
| Connector.Dc2Hpss.Stage | src/main/java/de/gridka/dcache/nearline/hpss/Dc2Hpss.java:171-191 | Stage changes the file system and returns as the specification stage says. |
| Connector.Dc2Hpss.Remove | src/main/java/de/gridka/dcache/nearline/hpss/Dc2Hpss.java:193-205 | Remove changes the file system and returns as the specification remove says. |
| Connector.Dc2Hpss.Shutdown | src/main/java/de/gridka/dcache/nearline/hpss/Dc2Hpss.java:214-221 | Shutting down the three pool fields in place gives the specification's shut-down state and keeps the invariant. |
| Connector.ConfiguredForArchive | src/main/java/de/gridka/dcache/nearline/hpss/Dc2Hpss.java:70-92 | A fresh connector configured with `mountpoint=/archive` and `puts=2` has that mountpoint and a live two-thread flush pool. |
| Connector.ArchiveFile | src/main/java/de/gridka/dcache/nearline/hpss/Dc2Hpss.java:140-157 | File `000A1B` has HSM path `/000A1B` and lies at `/archive/000A1B` under mountpoint `/archive`. |
| Connector.ArchiveScenario | src/main/java/de/gridka/dcache/nearline/hpss/Dc2Hpss.java:150-205 | Flushing `000A1B` succeeds and returns the single locator with path `/000A1B`. Removing by that locator succeeds and leaves the file system as it was before the flush, less `/archive/000A1B`, even when the disk file is that path itself. |

## Left out

- `Dc2HpssProvider.java`: plugin registration (a name, a description and a constructor call) is not part of this model.
- Threads, task submission, queueing, and races between `configure` and requests in flight. A pool is a record of its size and whether it is shut down.
- The base class `AbstractBlockingNearlineStorage` is not part of this model. This includes `super.shutdown()` (line 217) and how it runs requests on the executors. Its `type` and `name` fields are kept only as the connector's `storageType` and `storageName`, which the locator URI uses.
- Logging, and checksums: stage always returns an empty set (line 190), and the model returns no value for it.
- Byte-level I/O. `Files.copy` and `Files.deleteIfExists` act on a map from path to content.
- FileOps.Copy: a copy that fails partway is modelled as leaving the file system unchanged; a partly written target is not modelled.
- HsmPath.Join: follows the Unix file system's `Paths.get`: joining, collapsing repeated separators and dropping trailing ones. Relative paths are not resolved against a working directory, and other file systems' path rules are not modelled.
- `Paths.get` throws `InvalidPathException` on a string containing NUL. In `configure` (line 76) the model treats such a mountpoint as not a directory. The transfers (lines 157, 179, 197) have no `InvalidPathException` in the model: every string is taken as a valid path, so where Java throws before copying or deleting, the model goes on with the copy or delete.
- Whether the mountpoint is a directory is looked up by the string as supplied, without normalising it first.
- `new URI(...)` in flush (line 167) can throw `URISyntaxException` after the copy. Percent-encoding of the locator path is not modelled either; `getPath` is taken to return the path as given.
- The default error code of the plain `CacheException` thrown by remove (line 203) belongs to a class outside this model.
- JavaInt.ParseInt: accepts only the ASCII digits `0`-`9`; Java's `Integer.parseInt` also accepts other Unicode decimal digits.
- A property value of `null` in the Java map is the same as an absent key, and the model's map cannot hold one.
