/**
 * The connector's state as a value: the mountpoint, every thread pool ever
 * created (a pool handle is an index into that sequence, so that a pool keeps
 * its identity when it is shut down), and the three handles in use for
 * flush, stage and remove. `Configure` and `Shutdown` are the specification
 * the imperative class follows.
 */
module ConnectorSpec {
  import opened Wrappers
  import opened JavaInt

  const MountpointKey: string := "mountpoint"
  const PutsKey: string := "puts"
  const GetsKey: string := "gets"
  const DelsKey: string := "dels"

  const DefaultFlushThreads: int := 10
  const DefaultStageThreads: int := 1000
  const DefaultRemoveThreads: int := 1

  /** A fixed thread pool: its number of threads, and whether `shutdown()` was called on it. */
  datatype Pool = Pool(size: int, shutDown: bool)

  datatype PoolKind = FlushPool | StagePool | RemovePool

  /** The configuration key that sizes each pool. */
  function Key(k: PoolKind): string {
    match k
    case FlushPool => PutsKey
    case StagePool => GetsKey
    case RemovePool => DelsKey
  }

  datatype State = State(mountpoint: Option<string>, pools: seq<Pool>, flusher: nat, stager: nat, remover: nat)
  {
    /** The pool currently serving requests of kind `k`. */
    function Handle(k: PoolKind): nat {
      match k
      case FlushPool => flusher
      case StagePool => stager
      case RemovePool => remover
    }

    function WithHandle(k: PoolKind, h: nat): (s: State)
      ensures s.Handle(k) == h && s.mountpoint == mountpoint && s.pools == pools
      ensures forall j :: j != k ==> s.Handle(j) == Handle(j)
    {
      match k
      case FlushPool => this.(flusher := h)
      case StagePool => this.(stager := h)
      case RemovePool => this.(remover := h)
    }

    predicate IsCurrent(i: nat) {
      i == flusher || i == stager || i == remover
    }
  }

  /**
   * The invariant: the three handles name three distinct pools, every pool
   * has at least one thread, and every pool that is no longer current has
   * been shut down.
   */
  predicate Valid(s: State) {
    && s.flusher < |s.pools| && s.stager < |s.pools| && s.remover < |s.pools|
    && s.flusher != s.stager && s.stager != s.remover && s.flusher != s.remover
    && (forall i :: 0 <= i < |s.pools| ==> s.pools[i].size > 0)
    && (forall i :: 0 <= i < |s.pools| && !s.IsCurrent(i) ==> s.pools[i].shutDown)
  }

  /** No pool is lost: pools are only appended, keep their size, and stay shut down once shut down. */
  predicate Retains(before: State, after: State) {
    && |before.pools| <= |after.pools|
    && forall i :: 0 <= i < |before.pools| ==>
         after.pools[i].size == before.pools[i].size && (before.pools[i].shutDown ==> after.pools[i].shutDown)
  }

  /** A fresh connector: no mountpoint, and three live pools of the default sizes. */
  function Initial(): (s: State)
    ensures Valid(s) && s.mountpoint == None
    ensures s.pools[s.flusher] == Pool(DefaultFlushThreads, false)
    ensures s.pools[s.stager] == Pool(DefaultStageThreads, false)
    ensures s.pools[s.remover] == Pool(DefaultRemoveThreads, false)
    ensures |s.pools| == 3
  {
    State(None, [Pool(DefaultFlushThreads, false), Pool(DefaultStageThreads, false), Pool(DefaultRemoveThreads, false)], 0, 1, 2)
  }

  /** Every failure of `configure` is an IllegalArgumentException; the constructor says which check threw it. */
  datatype ConfigError =
    | MountpointRequired
    | NotADirectory(path: string)
    | NotAnInteger(key: string)
    | IllegalThreadCount(key: string, count: int)

  /** The state after a configuration step, and whether the step threw. */
  datatype Step = Step(state: State, outcome: Outcome<ConfigError>)

  /** `shutdown()` of the pool with handle `h`. */
  function ShutdownPool(s: State, h: nat): (r: State)
    requires h < |s.pools|
    ensures |r.pools| == |s.pools| && r.pools[h] == s.pools[h].(shutDown := true)
    ensures forall i :: 0 <= i < |s.pools| && i != h ==> r.pools[i] == s.pools[i]
    ensures r.mountpoint == s.mountpoint && forall k :: r.Handle(k) == s.Handle(k)
  {
    s.(pools := s.pools[h := s.pools[h].(shutDown := true)])
  }

  /**
   * The mountpoint step: a mountpoint is required unless one was set before;
   * a supplied one must be an existing directory (`dirs`) and is then stored.
   */
  function SetMountpoint(s: State, props: map<string, string>, dirs: set<string>): (st: Step)
    ensures st.state.pools == s.pools && forall k :: st.state.Handle(k) == s.Handle(k)
    ensures st.outcome.Pass? <==> MountpointAccepted(s, props, dirs)
    ensures st.state.mountpoint == if st.outcome.Pass? && MountpointKey in props then Some(props[MountpointKey]) else s.mountpoint
  {
    if MountpointKey !in props && s.mountpoint == None then Step(s, Fail(MountpointRequired))
    else if MountpointKey in props then
      var mnt := props[MountpointKey];
      if mnt !in dirs then Step(s, Fail(NotADirectory(mnt)))
      else Step(s.(mountpoint := Some(mnt)), Pass)
    else Step(s, Pass)
  }

  predicate MountpointAccepted(s: State, props: map<string, string>, dirs: set<string>) {
    if MountpointKey in props then props[MountpointKey] in dirs else s.mountpoint.Some?
  }

  /** A thread-count value that `configure` accepts: absent, or an integer the pool constructor takes. */
  predicate Accepted(props: map<string, string>, key: string) {
    key !in props || (ParseInt(props[key]).Some? && ParseInt(props[key]).value > 0)
  }

  /** `shutdown()` of the pool currently serving kind `k`; it stays the current one. */
  function Retire(s: State, k: PoolKind): (r: State)
    requires Valid(s)
    ensures Valid(r) && Retains(s, r) && r.mountpoint == s.mountpoint
    ensures forall j :: r.Handle(j) == s.Handle(j)
    ensures r.pools[s.Handle(k)] == s.pools[s.Handle(k)].(shutDown := true)
    ensures forall j :: j != k ==> r.pools[s.Handle(j)] == s.pools[s.Handle(j)]
  {
    ShutdownPool(s, s.Handle(k))
  }

  /**
   * `Executors.newFixedThreadPool(n)` assigned to the field of kind `k`, whose
   * old pool is already shut down: a live pool of `n` threads is appended.
   */
  function Install(s: State, k: PoolKind, n: int): (r: State)
    requires Valid(s) && n > 0 && s.pools[s.Handle(k)].shutDown
    ensures Valid(r) && Retains(s, r) && r.mountpoint == s.mountpoint
    ensures r.Handle(k) == |s.pools| && r.pools == s.pools + [Pool(n, false)]
    ensures forall j :: j != k ==> r.Handle(j) == s.Handle(j)
  {
    s.(pools := s.pools + [Pool(n, false)]).WithHandle(k, |s.pools|)
  }

  /**
   * One pool step. An absent key changes nothing. A value that is not an
   * integer throws before anything changes. Otherwise the old pool is shut
   * down first, and then `Executors.newFixedThreadPool(n)` either throws (for
   * `n <= 0`, leaving the handle on the shut-down pool) or installs a new pool.
   */
  function Recreate(s: State, props: map<string, string>, k: PoolKind): (st: Step)
    requires Valid(s)
    ensures Valid(st.state) && Retains(s, st.state) && st.state.mountpoint == s.mountpoint
    ensures st.outcome.Pass? <==> Accepted(props, Key(k))
    ensures forall j :: j != k ==> st.state.Handle(j) == s.Handle(j) && st.state.pools[s.Handle(j)] == s.pools[s.Handle(j)]
  {
    var key := Key(k);
    if key !in props then Step(s, Pass)
    else match ParseInt(props[key])
      case None => Step(s, Fail(NotAnInteger(key)))
      case Some(n) =>
        var retired := Retire(s, k);
        if n <= 0 then Step(retired, Fail(IllegalThreadCount(key, n)))
        else Step(Install(retired, k, n), Pass)
  }

  /** The pool steps that follow a successful mountpoint step. */
  function PoolSteps(s: State, props: map<string, string>): (st: Step)
    requires Valid(s)
    ensures Valid(st.state) && Retains(s, st.state)
  {
    var p := Recreate(s, props, FlushPool);
    if p.outcome.Fail? then p
    else
      var g := Recreate(p.state, props, StagePool);
      if g.outcome.Fail? then g
      else Recreate(g.state, props, RemovePool)
  }

  /**
   * `configure(properties)`: the mountpoint, then `puts`, `gets` and `dels`,
   * each applied before the next is looked at; the first step that throws
   * ends the call and the effects of the earlier steps stay.
   */
  function Configure(s: State, props: map<string, string>, dirs: set<string>): (st: Step)
    requires Valid(s)
    ensures Valid(st.state) && Retains(s, st.state)
  {
    var m := SetMountpoint(s, props, dirs);
    if m.outcome.Fail? then m else PoolSteps(m.state, props)
  }

  /** `shutdown()`: the three current pools are shut down. */
  function Shutdown(s: State): (r: State)
    requires Valid(s)
    ensures Valid(r) && Retains(s, r)
    ensures r.mountpoint == s.mountpoint && forall k :: r.Handle(k) == s.Handle(k)
    ensures |r.pools| == |s.pools| && forall i :: 0 <= i < |s.pools| ==> r.pools[i] == s.pools[i].(shutDown := true)
  {
    ShutdownPool(ShutdownPool(ShutdownPool(s, s.flusher), s.stager), s.remover)
  }

  /** After `shutdown()` no live pool is left, current or retired. */
  lemma ShutdownLeavesNoLivePool(s: State)
    requires Valid(s)
    ensures forall i :: 0 <= i < |Shutdown(s).pools| ==> Shutdown(s).pools[i].shutDown
  {
  }

  /** Whether the pool steps before the one for kind `k` all pass. */
  predicate EarlierAccepted(props: map<string, string>, k: PoolKind) {
    match k
    case FlushPool => true
    case StagePool => Accepted(props, PutsKey)
    case RemovePool => Accepted(props, PutsKey) && Accepted(props, GetsKey)
  }

  /**
   * The outcome of `configure` is decided by the first field, in the order
   * mountpoint, puts, gets, dels, that fails; it passes exactly when every
   * field is accepted.
   */
  lemma ConfigureOutcome(s: State, props: map<string, string>, dirs: set<string>)
    requires Valid(s)
    ensures Configure(s, props, dirs).outcome ==
      if MountpointKey !in props && s.mountpoint.None? then Fail(MountpointRequired)
      else if MountpointKey in props && props[MountpointKey] !in dirs then Fail(NotADirectory(props[MountpointKey]))
      else if !Accepted(props, PutsKey) then FieldError(props, PutsKey)
      else if !Accepted(props, GetsKey) then FieldError(props, GetsKey)
      else if !Accepted(props, DelsKey) then FieldError(props, DelsKey)
      else Pass
  {
    var m := SetMountpoint(s, props, dirs);
    if m.outcome.Pass? {
      PoolStepsOutcome(m.state, props);
    }
  }

  /** The pool steps pass exactly when every value is accepted; the first one that is not decides the error. */
  lemma PoolStepsOutcome(s: State, props: map<string, string>)
    requires Valid(s)
    ensures PoolSteps(s, props).outcome ==
      if !Accepted(props, PutsKey) then FieldError(props, PutsKey)
      else if !Accepted(props, GetsKey) then FieldError(props, GetsKey)
      else if !Accepted(props, DelsKey) then FieldError(props, DelsKey)
      else Pass
  {
    var p := Recreate(s, props, FlushPool);
    RecreateOutcome(s, props, FlushPool);
    if p.outcome.Pass? {
      var g := Recreate(p.state, props, StagePool);
      RecreateOutcome(p.state, props, StagePool);
      if g.outcome.Pass? {
        RecreateOutcome(g.state, props, RemovePool);
      }
    }
  }

  /** One pool step passes exactly when its value is accepted. */
  lemma RecreateOutcome(s: State, props: map<string, string>, k: PoolKind)
    requires Valid(s)
    ensures Recreate(s, props, k).outcome == if Accepted(props, Key(k)) then Pass else FieldError(props, Key(k))
  {
  }

  /** The error a present but unaccepted thread-count value raises. */
  function FieldError(props: map<string, string>, key: string): (e: Outcome<ConfigError>)
    requires !Accepted(props, key)
    ensures e.Fail? && (e.error == NotAnInteger(key) <==> ParseInt(props[key]).None?)
  {
    match ParseInt(props[key])
    case None => Fail(NotAnInteger(key))
    case Some(n) => Fail(IllegalThreadCount(key, n))
  }

  /**
   * The mountpoint after `configure`: the supplied one if it is a directory,
   * whatever fails later; otherwise the previous one.
   */
  lemma ConfigureMountpoint(s: State, props: map<string, string>, dirs: set<string>)
    requires Valid(s)
    ensures Configure(s, props, dirs).state.mountpoint ==
      if MountpointKey in props && props[MountpointKey] in dirs then Some(props[MountpointKey]) else s.mountpoint
  {
    var m := SetMountpoint(s, props, dirs);
    if m.outcome.Pass? {
      var p := Recreate(m.state, props, FlushPool);
      if p.outcome.Pass? {
        var g := Recreate(p.state, props, StagePool);
      }
    }
  }

  /** What configuration does to one pool. */
  datatype PoolChange = Kept | RetiredInPlace | ReplacedBy(size: int)

  /**
   * The pool of kind `k` changed from `s` to `r` as `c` says: kept (same
   * handle, same pool), shut down and still current, or shut down and
   * replaced by a new live pool of the given size.
   */
  predicate Shows(s: State, r: State, k: PoolKind, c: PoolChange)
    requires Valid(s) && Valid(r) && Retains(s, r)
  {
    var h := s.Handle(k);
    match c
    case Kept => r.Handle(k) == h && r.pools[h] == s.pools[h]
    case RetiredInPlace => r.Handle(k) == h && r.pools[h] == s.pools[h].(shutDown := true)
    case ReplacedBy(n) =>
      && r.pools[h] == s.pools[h].(shutDown := true)
      && |s.pools| <= r.Handle(k)
      && r.pools[r.Handle(k)] == Pool(n, false)
  }

  /**
   * The change `configure` makes to the pool of kind `k`: none when
   * configuration stops before its step, when its key is absent, or when its
   * value is not an integer; a value of at most zero retires the pool in
   * place; a positive value replaces it.
   */
  function ExpectedChange(s: State, props: map<string, string>, dirs: set<string>, k: PoolKind): PoolChange {
    if MountpointAccepted(s, props, dirs) && EarlierAccepted(props, k) then ChangeFor(props, k) else Kept
  }

  /** The change a pool step's own value asks for. */
  function ChangeFor(props: map<string, string>, k: PoolKind): PoolChange {
    if Key(k) !in props then Kept
    else match ParseInt(props[Key(k)])
      case None => Kept
      case Some(n) => if n <= 0 then RetiredInPlace else ReplacedBy(n)
  }

  /** A change to pool `k` survives a later step that leaves pool `k` alone. */
  lemma ShowsPersists(s: State, m: State, r: State, k: PoolKind, c: PoolChange)
    requires Valid(s) && Valid(m) && Valid(r) && Retains(s, m) && Retains(m, r)
    requires Shows(s, m, k, c)
    requires r.Handle(k) == m.Handle(k) && r.pools[m.Handle(k)] == m.pools[m.Handle(k)]
    ensures Retains(s, r) && Shows(s, r, k, c)
  {
    var h := s.Handle(k);
    assert r.pools[h].size == m.pools[h].size;
    assert m.pools[h].shutDown ==> r.pools[h].shutDown;
  }

  /** A change to pool `k` after a stretch that left pool `k` alone is a change from the start. */
  lemma ShowsAfterKept(s: State, m: State, r: State, k: PoolKind, c: PoolChange)
    requires Valid(s) && Valid(m) && Valid(r) && Retains(s, m) && Retains(m, r)
    requires Shows(s, m, k, Kept) && Shows(m, r, k, c)
    ensures Retains(s, r) && Shows(s, r, k, c)
  {
  }

  /** What one pool step does to its own pool. */
  lemma RecreateShows(s: State, props: map<string, string>, k: PoolKind)
    requires Valid(s)
    ensures Shows(s, Recreate(s, props, k).state, k, ChangeFor(props, k))
  {
  }

  /**
   * What `configure` does to the pool of kind `k`, whatever happens to the
   * other fields: in particular a later failure never undoes a replacement.
   */
  lemma ConfigurePoolEffect(s: State, props: map<string, string>, dirs: set<string>, k: PoolKind)
    requires Valid(s)
    ensures Shows(s, Configure(s, props, dirs).state, k, ExpectedChange(s, props, dirs, k))
  {
    var m := SetMountpoint(s, props, dirs);
    if m.outcome.Pass? {
      PoolStepsEffect(m.state, props, k);
      ShowsAfterKept(s, m.state, PoolSteps(m.state, props).state, k,
                     if EarlierAccepted(props, k) then ChangeFor(props, k) else Kept);
    }
  }

  /** What the pool steps do to the pool of kind `k`. */
  lemma PoolStepsEffect(s: State, props: map<string, string>, k: PoolKind)
    requires Valid(s)
    ensures Shows(s, PoolSteps(s, props).state, k, if EarlierAccepted(props, k) then ChangeFor(props, k) else Kept)
  {
    match k {
      case FlushPool => FlushPoolEffect(s, props);
      case StagePool => StagePoolEffect(s, props);
      case RemovePool => RemovePoolEffect(s, props);
    }
  }

  lemma FlushPoolEffect(s: State, props: map<string, string>)
    requires Valid(s)
    ensures Shows(s, PoolSteps(s, props).state, FlushPool, ChangeFor(props, FlushPool))
    ensures EarlierAccepted(props, FlushPool)
  {
    var c := ChangeFor(props, FlushPool);
    var p := Recreate(s, props, FlushPool);
    RecreateShows(s, props, FlushPool);
    if p.outcome.Pass? {
      var g := Recreate(p.state, props, StagePool);
      ShowsPersists(s, p.state, g.state, FlushPool, c);
      if g.outcome.Pass? {
        ShowsPersists(s, g.state, Recreate(g.state, props, RemovePool).state, FlushPool, c);
      }
    }
  }

  lemma StagePoolEffect(s: State, props: map<string, string>)
    requires Valid(s)
    ensures Shows(s, PoolSteps(s, props).state, StagePool,
                  if EarlierAccepted(props, StagePool) then ChangeFor(props, StagePool) else Kept)
  {
    var p := Recreate(s, props, FlushPool);
    if p.outcome.Pass? {
      var c := ChangeFor(props, StagePool);
      var g := Recreate(p.state, props, StagePool);
      RecreateShows(p.state, props, StagePool);
      ShowsAfterKept(s, p.state, g.state, StagePool, c);
      if g.outcome.Pass? {
        ShowsPersists(s, g.state, Recreate(g.state, props, RemovePool).state, StagePool, c);
      }
    }
  }

  lemma RemovePoolEffect(s: State, props: map<string, string>)
    requires Valid(s)
    ensures Shows(s, PoolSteps(s, props).state, RemovePool,
                  if EarlierAccepted(props, RemovePool) then ChangeFor(props, RemovePool) else Kept)
  {
    var p := Recreate(s, props, FlushPool);
    if p.outcome.Pass? {
      var g := Recreate(p.state, props, StagePool);
      if g.outcome.Pass? {
        var c := ChangeFor(props, RemovePool);
        RecreateShows(g.state, props, RemovePool);
        ShowsAfterKept(s, p.state, g.state, RemovePool, Kept);
        ShowsAfterKept(s, g.state, Recreate(g.state, props, RemovePool).state, RemovePool, c);
      }
    }
  }

  /**
   * A value that is not an integer for `puts`, on a connector with a
   * mountpoint and no other keys, throws and changes nothing at all.
   */
  lemma ConfigureRejectsNonInteger(s: State)
    requires Valid(s) && s.mountpoint.Some?
    ensures Configure(s, map[PutsKey := "abc"], {}) == Step(s, Fail(NotAnInteger(PutsKey)))
  {
    RejectsStrayCharacter("abc", 0);
  }

  /**
   * `puts` = "0": the old flush pool is shut down before the pool constructor
   * rejects the count, so the connector is left flushing through a pool that
   * accepts no more work.
   */
  lemma ConfigureZeroThreadsRetiresPool(s: State)
    requires Valid(s) && s.mountpoint.Some?
    ensures
      var st := Configure(s, map[PutsKey := "0"], {});
      && st.outcome == Fail(IllegalThreadCount(PutsKey, 0))
      && st.state.flusher == s.flusher
      && st.state.pools[st.state.flusher].shutDown
  {
    assert ParseInt("0") == Some(0) by {
      assert AllDigits("0");
      assert DigitsValue("0") == 0 by {
        assert "0"[..0] == [];
      }
    }
  }

  /**
   * A bad `gets` after a good mountpoint and `puts` throws, yet the new
   * mountpoint and the new flush pool stay in place and the stage and remove
   * pools are untouched.
   */
  lemma ConfigureBadGetsKeepsEarlierEffects(s: State, props: map<string, string>, dirs: set<string>)
    requires Valid(s)
    requires MountpointKey in props && props[MountpointKey] in dirs
    requires PutsKey in props && ParseInt(props[PutsKey]).Some? && ParseInt(props[PutsKey]).value > 0
    requires GetsKey in props && ParseInt(props[GetsKey]).None?
    ensures
      var st := Configure(s, props, dirs);
      && st.outcome == Fail(NotAnInteger(GetsKey))
      && st.state.mountpoint == Some(props[MountpointKey])
      && st.state.pools[st.state.flusher] == Pool(ParseInt(props[PutsKey]).value, false)
      && st.state.pools[s.flusher].shutDown
      && st.state.stager == s.stager && st.state.pools[s.stager] == s.pools[s.stager]
      && st.state.remover == s.remover && st.state.pools[s.remover] == s.pools[s.remover]
  {
    ConfigureOutcome(s, props, dirs);
    ConfigureMountpoint(s, props, dirs);
    ConfigurePoolEffect(s, props, dirs, FlushPool);
    ConfigurePoolEffect(s, props, dirs, StagePool);
    ConfigurePoolEffect(s, props, dirs, RemovePool);
  }

  /**
   * A fresh connector configured with a directory as mountpoint and a
   * positive `puts` count: the call passes, stores the mountpoint and flushes
   * through a new live pool of that size, leaving the other pools alone.
   */
  lemma ConfigureFreshWithMountpointAndPuts(mountpoint: string, n: int, dirs: set<string>)
    requires mountpoint in dirs && 0 < n <= MaxInt
    ensures
      var st := Configure(Initial(), map[MountpointKey := mountpoint, PutsKey := FormatInt(n)], dirs);
      && st.outcome == Pass
      && st.state.mountpoint == Some(mountpoint)
      && st.state.pools[st.state.flusher] == Pool(n, false)
      && st.state.pools[st.state.stager] == Pool(DefaultStageThreads, false)
      && st.state.pools[st.state.remover] == Pool(DefaultRemoveThreads, false)
  {
    var props := map[MountpointKey := mountpoint, PutsKey := FormatInt(n)];
    ParseFormatRoundTrip(n);
    ConfigureOutcome(Initial(), props, dirs);
    ConfigureMountpoint(Initial(), props, dirs);
    ConfigurePoolEffect(Initial(), props, dirs, FlushPool);
    ConfigurePoolEffect(Initial(), props, dirs, StagePool);
    ConfigurePoolEffect(Initial(), props, dirs, RemovePool);
  }
}
