/** `PluginGroup` from tooldelta/plugin_load/PluginGroup.py: the registries that
    plugins fill (packet handlers, broadcast listeners, API plugins, the packet ids
    the game connection must forward, the staging cache) and the dispatchers that
    call plugin code: packet routing, broadcast publishing, lifecycle hooks, API
    lookup and the legacy repeating-task scheduler.

    Plugin callables are opaque: each is a `FuncRef`, and every dispatcher takes a
    `behave` function that says how a call with given arguments ends. The returned
    `invoked` sequences record which callables were called, in order, with what. */
module PluginGroupModel {
  import opened Wrappers
  import opened Versions
  import opened PlayerMessage
  import opened PyText

  /** A plugin callable, identified by the object it is. */
  type FuncRef = nat

  /** A plugin main class: its name, its `version` tuple, whether it is a class at
      all (rather than an instance or some other object), and whether it (or, when
      it is not a class, its class) is a subclass of `Plugin`. */
  datatype Plugin = Plugin(name: string, version: Version, isClass: bool, isPluginClass: bool)

  /** What a plugin call can raise: `PluginAPINotFoundError`, `PluginAPIVersionError`
      or anything else. */
  datatype ErrKind = ApiNotFound | ApiVersionLow | OtherError

  /** How one call of a plugin callable ends: it returns a value (truthy or not),
      raises an `Exception`, or raises a `BaseException` that is not an `Exception`
      (`SystemExit`, `KeyboardInterrupt`), which `except Exception` lets through. */
  datatype Call = Returns(truthy: bool) | Raises(err: ErrKind) | Exits

  /** The arguments a hook receives. */
  datatype Args =
    | NoArgs
    | PlayerArgs(player: string)
    | MessageArgs(player: string, msg: string)
    | DeathArgs(player: string, killer: Option<string>, msg: string)

  /** An entry of `plugins_funcs[...]` or `dotcs_repeat_threadings[...]`: `(name, func)`. */
  datatype Hook = Hook(name: string, f: FuncRef)

  /** One `onerr(name, err, traceback)` call (or one error printed by the scheduler). */
  datatype Report = Report(name: string, err: ErrKind)

  /** The keys of `plugins_funcs`. */
  datatype Event = OnDef | OnInject | OnPlayerPrejoin | OnPlayerJoin | OnPlayerMessage | OnPlayerDeath | OnPlayerLeave

  /** The keys of `dotcs_repeat_threadings`. */
  datatype Bucket = Every1m | Every30s | Every10s | Every1s

  /** The `pktID` argument of `add_packet_listener`: one int, or an iterable of them. */
  datatype PacketIds = Single(id: int) | Many(ids: seq<int>)

  /** What a broadcast listener returns, `(interrupt, *extras)`, or that it raised. */
  datatype Reply<V> = Replies(interrupt: bool, extras: seq<V>) | Fails(err: ErrKind)

  /** `broadcastEvt`'s result: `None`, the list of extras lists, or a propagated exception. */
  datatype Broadcast<V> = NoListeners | Collected(results: seq<seq<V>>) | Raised(err: ErrKind)

  /** `get_plugin_api`'s result: the plugin, `PluginAPINotFoundError`, or
      `PluginAPIVersionError(apiName, min_version, api.version)`. */
  datatype ApiLookup = Found(plugin: Plugin) | NotFound | VersionTooLow(need: Version, have: Version)

  /** `add_plugin` / `add_plugin_as_api`: the plugin returned, `NotValidPluginError`,
      or the `TypeError` that `Plugin.__subclasscheck__` raises on an argument that
      is not a class. */
  datatype Added = Accepted(plugin: Plugin) | NotValidPlugin | NotAClass

  /** The scheduler's locals `lastTime1m`, `lastTime30s`, `lastTime10s`. */
  datatype Stamps = Stamps(last1m: int, last30s: int, last10s: int)

  // ---------------------------------------------------------------------------
  // Isolated hook runs.

  /** The calls made when every hook is called once, in order, with `args`. */
  function Calls(hooks: seq<Hook>, args: Args): (r: seq<(FuncRef, Args)>)
    ensures |r| == |hooks|
    decreases |hooks|
  {
    if |hooks| == 0 then [] else Calls(hooks[..|hooks| - 1], args) + [(hooks[|hooks| - 1].f, args)]
  }

  /** Call `i` is hook `i`'s callable with the event's arguments. */
  lemma {:induction false} CallsMeaning(hooks: seq<Hook>, args: Args)
    ensures forall i :: 0 <= i < |hooks| ==> Calls(hooks, args)[i] == (hooks[i].f, args)
    decreases |hooks|
  {
    if |hooks| > 0 {
      var init := hooks[..|hooks| - 1];
      CallsMeaning(init, args);
      forall i | 0 <= i < |init|
        ensures Calls(hooks, args)[i] == (hooks[i].f, args)
      {
        assert Calls(hooks, args)[i] == Calls(init, args)[i];
        assert init[i] == hooks[i];
      }
    }
  }

  /** The `onerr` calls of an isolated run: one per raising hook, in order. */
  function Failures(hooks: seq<Hook>, args: Args, behave: (FuncRef, Args) -> Call): (r: seq<Report>)
    ensures |r| <= |hooks|
    decreases |hooks|
  {
    if |hooks| == 0 then []
    else
      var h := hooks[|hooks| - 1];
      Failures(hooks[..|hooks| - 1], args, behave)
      + (match behave(h.f, args) case Raises(e) => [Report(h.name, e)] case _ => [])
  }

  /** Isolation: the failures of a list of hooks are those of its parts, so no hook's
      failure hides or adds a report for another. */
  lemma {:induction false} FailuresAppend(a: seq<Hook>, b: seq<Hook>, args: Args, behave: (FuncRef, Args) -> Call)
    ensures Failures(a + b, args, behave) == Failures(a, args, behave) + Failures(b, args, behave)
    decreases |b|
  {
    if |b| > 0 {
      assert (a + b)[..|a + b| - 1] == a + b[..|b| - 1];
      FailuresAppend(a, b[..|b| - 1], args, behave);
    } else {
      assert a + b == a;
    }
  }

  /** Every report names a hook that raised that error, and every raising hook is
      reported; there are never more reports than hooks. */
  lemma {:induction false} FailuresExact(hooks: seq<Hook>, args: Args, behave: (FuncRef, Args) -> Call)
    ensures |Failures(hooks, args, behave)| <= |hooks|
    ensures forall r :: r in Failures(hooks, args, behave)
              <==> exists i :: 0 <= i < |hooks| && hooks[i].name == r.name && behave(hooks[i].f, args) == Raises(r.err)
    decreases |hooks|
  {
    if |hooks| > 0 {
      var init := hooks[..|hooks| - 1];
      FailuresExact(init, args, behave);
      forall i | 0 <= i < |init| ensures init[i] == hooks[i] { }
    }
  }

  lemma CallsAppend(a: seq<Hook>, b: seq<Hook>, args: Args)
    ensures Calls(a + b, args) == Calls(a, args) + Calls(b, args)
  {
    CallsMeaning(a + b, args);
    CallsMeaning(a, args);
    CallsMeaning(b, args);
    forall i | 0 <= i < |a + b|
      ensures Calls(a + b, args)[i] == (Calls(a, args) + Calls(b, args))[i]
    {
      if i < |a| {
        assert (a + b)[i] == a[i];
      } else {
        assert (a + b)[i] == b[i - |a|];
      }
    }
  }

  /** One more hook adds its call and, when it raises, its report. */
  lemma HookStep(hooks: seq<Hook>, i: nat, args: Args, behave: (FuncRef, Args) -> Call)
    requires i < |hooks|
    ensures Calls(hooks[..i + 1], args) == Calls(hooks[..i], args) + [(hooks[i].f, args)]
    ensures Failures(hooks[..i + 1], args, behave) == Failures(hooks[..i], args, behave)
              + match behave(hooks[i].f, args) case Raises(e) => [Report(hooks[i].name, e)] case _ => []
  {
    assert hooks[..i + 1][..i] == hooks[..i];
  }

  /** The position of the first hook whose exception is not an `Exception`, or the
      number of hooks when there is none. */
  function FirstExit(hooks: seq<Hook>, args: Args, behave: (FuncRef, Args) -> Call): (k: nat)
    ensures k <= |hooks|
    decreases |hooks|
  {
    if |hooks| == 0 then 0
    else if behave(hooks[0].f, args).Exits? then 0
    else 1 + FirstExit(hooks[1..], args, behave)
  }

  /** Some hook's call raises past `except Exception`. */
  predicate Escapes(hooks: seq<Hook>, args: Args, behave: (FuncRef, Args) -> Call) {
    FirstExit(hooks, args, behave) < |hooks|
  }

  /** The hooks a loop guarded by `except Exception` calls: up to and including the
      first one whose exception escapes, or all of them when none escapes. */
  function Ran(hooks: seq<Hook>, args: Args, behave: (FuncRef, Args) -> Call): (r: seq<Hook>)
    ensures !Escapes(hooks, args, behave) ==> r == hooks
  {
    var k := FirstExit(hooks, args, behave);
    if k < |hooks| then hooks[..k + 1] else assert hooks[..k] == hooks; hooks
  }

  /** No hook before `FirstExit` escapes, and the hook at it does. */
  lemma {:induction false} FirstExitMeaning(hooks: seq<Hook>, args: Args, behave: (FuncRef, Args) -> Call)
    ensures var k := FirstExit(hooks, args, behave);
      && (forall i :: 0 <= i < k ==> !behave(hooks[i].f, args).Exits?)
      && (k < |hooks| ==> behave(hooks[k].f, args).Exits?)
    decreases |hooks|
  {
    if |hooks| > 0 && !behave(hooks[0].f, args).Exits? {
      FirstExitMeaning(hooks[1..], args, behave);
      forall i | 1 <= i < FirstExit(hooks, args, behave)
        ensures !behave(hooks[i].f, args).Exits?
      {
        assert hooks[i] == hooks[1..][i - 1];
      }
    }
  }

  /** The first escaping hook is the one before which none escapes. */
  lemma {:induction false} FirstExitAt(hooks: seq<Hook>, k: nat, args: Args, behave: (FuncRef, Args) -> Call)
    requires k <= |hooks|
    requires forall i :: 0 <= i < k ==> !behave(hooks[i].f, args).Exits?
    requires k < |hooks| ==> behave(hooks[k].f, args).Exits?
    ensures FirstExit(hooks, args, behave) == k
    decreases |hooks|
  {
    if k > 0 {
      assert !behave(hooks[0].f, args).Exits?;
      forall i | 0 <= i < k - 1
        ensures !behave(hooks[1..][i].f, args).Exits?
      {
        assert hooks[1..][i] == hooks[i + 1];
      }
      FirstExitAt(hooks[1..], k - 1, args, behave);
    }
  }

  /** A hook whose exception escapes is the last one called: no hook after it runs. */
  lemma ExitStopsLaterHooks(hooks: seq<Hook>, i: nat, args: Args, behave: (FuncRef, Args) -> Call)
    requires i < |hooks| && behave(hooks[i].f, args).Exits?
    ensures Escapes(hooks, args, behave)
    ensures |Ran(hooks, args, behave)| <= i + 1
  {
    FirstExitMeaning(hooks, args, behave);
  }

  /** Once a hook of `a` escapes, the hooks `c` after `a` change nothing. */
  lemma RanAfterExit(a: seq<Hook>, c: seq<Hook>, args: Args, behave: (FuncRef, Args) -> Call)
    requires Escapes(a, args, behave)
    ensures Escapes(a + c, args, behave)
    ensures Ran(a + c, args, behave) == Ran(a, args, behave)
  {
    var k := FirstExit(a, args, behave);
    FirstExitMeaning(a, args, behave);
    forall i | 0 <= i <= k
      ensures (a + c)[i] == a[i]
    {
    }
    FirstExitAt(a + c, k, args, behave);
    assert (a + c)[..k + 1] == a[..k + 1];
  }

  /** When no hook of `a` escapes, running `a + c` is running all of `a`, then `c`. */
  lemma RanAfterQuiet(a: seq<Hook>, c: seq<Hook>, args: Args, behave: (FuncRef, Args) -> Call)
    requires !Escapes(a, args, behave)
    ensures Escapes(a + c, args, behave) <==> Escapes(c, args, behave)
    ensures Ran(a + c, args, behave) == a + Ran(c, args, behave)
  {
    var k := FirstExit(c, args, behave);
    FirstExitMeaning(a, args, behave);
    FirstExitMeaning(c, args, behave);
    forall i | 0 <= i < |a| + k
      ensures !behave((a + c)[i].f, args).Exits?
    {
      if i < |a| {
        assert (a + c)[i] == a[i];
      } else {
        assert (a + c)[i] == c[i - |a|];
      }
    }
    if k < |c| {
      assert (a + c)[|a| + k] == c[k];
    }
    FirstExitAt(a + c, |a| + k, args, behave);
    if k < |c| {
      assert (a + c)[..|a| + k + 1] == a + c[..k + 1];
    } else {
      assert Ran(a + c, args, behave) == a + c;
    }
  }

  /** Calls the hooks with `args` in order, passing each `Exception` to `onerr` and
      carrying on; an exception that is not an `Exception` leaves the loop. */
  method RunHooks(hooks: seq<Hook>, args: Args, behave: (FuncRef, Args) -> Call)
    returns (invoked: seq<(FuncRef, Args)>, reported: seq<Report>, escaped: bool)
    ensures invoked == Calls(Ran(hooks, args, behave), args)
    ensures reported == Failures(Ran(hooks, args, behave), args, behave)
    ensures escaped == Escapes(hooks, args, behave)
  {
    invoked := [];
    reported := [];
    var i := 0;
    while i < |hooks|
      invariant 0 <= i <= |hooks|
      invariant invoked == Calls(hooks[..i], args)
      invariant reported == Failures(hooks[..i], args, behave)
      invariant forall j :: 0 <= j < i ==> !behave(hooks[j].f, args).Exits?
    {
      var h := hooks[i];
      HookStep(hooks, i, args, behave);
      invoked := invoked + [(h.f, args)];
      var c := behave(h.f, args);
      if c.Exits? {
        FirstExitAt(hooks, i, args, behave);
        assert Ran(hooks, args, behave) == hooks[..i + 1];
        return invoked, reported, true;
      }
      if c.Raises? {
        reported := reported + [Report(h.name, c.err)];
      }
      i := i + 1;
    }
    assert hooks[..i] == hooks;
    FirstExitAt(hooks, i, args, behave);
    assert Ran(hooks, args, behave) == hooks;
    escaped := false;
  }

  /** The position of the first `on_def` hook whose call is fatal, or the number of
      hooks when none is. */
  function FirstFatal(hooks: seq<Hook>, behave: (FuncRef, Args) -> Call): (k: nat)
    ensures k <= |hooks|
    ensures forall i :: 0 <= i < k ==> !Fatal(behave(hooks[i].f, NoArgs))
    ensures k < |hooks| ==> Fatal(behave(hooks[k].f, NoArgs))
    decreases |hooks|
  {
    if |hooks| == 0 then 0
    else if Fatal(behave(hooks[0].f, NoArgs)) then 0
    else 1 + FirstFatal(hooks[1..], behave)
  }

  /** Before the first dependency error, every reported error is an ordinary one. */
  lemma NoFatalBefore(hooks: seq<Hook>, k: nat, behave: (FuncRef, Args) -> Call)
    requires k <= |hooks|
    requires forall i :: 0 <= i < k ==> !Fatal(behave(hooks[i].f, NoArgs))
    ensures forall r :: r in Failures(hooks[..k], NoArgs, behave) ==> r.err == OtherError
  {
    FailuresExact(hooks[..k], NoArgs, behave);
    forall r | r in Failures(hooks[..k], NoArgs, behave)
      ensures r.err == OtherError
    {
      var i :| 0 <= i < k && hooks[..k][i].name == r.name && behave(hooks[..k][i].f, NoArgs) == Raises(r.err);
      assert hooks[..k][i] == hooks[i];
    }
  }

  /** A call that ends `execute_def`: a dependency error, which it turns into
      `SystemExit`, or an exception that is not an `Exception` and escapes. */
  predicate Fatal(c: Call) {
    c == Raises(ApiNotFound) || c == Raises(ApiVersionLow) || c.Exits?
  }

  /** `checkSystemVersion(need_vers)` against the host's `system_version`: it raises
      exactly when `need_vers > system_version`, so it passes exactly when the
      component needs this very version or an older one. */
  function CheckSystemVersion(need: Version, system: Version): (ok: bool)
    ensures ok <==> need == system || Less(need, system)
    ensures ok <==> !LexBefore(system, need)
  {
    LessTotal(need, system);
    LessIrreflexive(need);
    LessIsLexicographic(system, need);
    !Less(system, need)
  }

  // ---------------------------------------------------------------------------
  // Broadcast publishing.

  /** What publishing to the listeners `fs` gives: each non-empty extras list in
      order; an interrupting listener with non-empty extras ends the chain; a
      raising listener's exception propagates. */
  function Publish<V>(fs: seq<FuncRef>, behave: FuncRef -> Reply<V>): (r: Broadcast<V>)
    ensures !r.NoListeners?
    decreases |fs|
  {
    if |fs| == 0 then Collected([])
    else
      match behave(fs[0])
      case Fails(e) => Raised(e)
      case Replies(stop, extras) =>
        if extras == [] then Publish(fs[1..], behave)
        else if stop then Collected([extras])
        else Prepend(extras, Publish(fs[1..], behave))
  }

  /** A reply after which no further listener is called: an exception, or an
      interruption that carries extras. */
  predicate Ends<V>(reply: Reply<V>) {
    reply.Fails? || (reply.interrupt && reply.extras != [])
  }

  /** How many listeners a broadcast calls: up to and including the first one whose
      reply ends the chain, or all of them. */
  function StopIndex<V>(fs: seq<FuncRef>, behave: FuncRef -> Reply<V>): (k: nat)
    ensures k <= |fs| && (k == 0 <==> fs == [])
    ensures forall i :: 0 <= i < k - 1 ==> !Ends(behave(fs[i]))
    ensures k < |fs| ==> Ends(behave(fs[k - 1]))
    decreases |fs|
  {
    if |fs| == 0 then 0
    else if Ends(behave(fs[0])) then 1
    else
      var k := 1 + StopIndex(fs[1..], behave);
      assert forall i :: 1 <= i < k - 1 ==> fs[i] == fs[1..][i - 1];
      k
  }

  /** The non-empty extras lists of the listeners, in listener order. */
  function NonEmptyExtras<V>(fs: seq<FuncRef>, behave: FuncRef -> Reply<V>): (l: seq<seq<V>>)
    ensures |l| <= |fs|
    ensures forall j :: 0 <= j < |l| ==> l[j] != []
    decreases |fs|
  {
    if |fs| == 0 then []
    else
      var head := behave(fs[0]);
      (if head.Replies? && head.extras != [] then [head.extras] else []) + NonEmptyExtras(fs[1..], behave)
  }

  function Prepend<V>(x: seq<V>, b: Broadcast<V>): Broadcast<V> {
    match b
    case Collected(l) => Collected([x] + l)
    case _ => b
  }

  function Extend<V>(acc: seq<seq<V>>, b: Broadcast<V>): Broadcast<V> {
    match b
    case Collected(l) => Collected(acc + l)
    case _ => b
  }

  lemma PublishStep<V>(fs: seq<FuncRef>, i: nat, behave: FuncRef -> Reply<V>)
    requires i < |fs|
    ensures Publish(fs[i..], behave) == match behave(fs[i])
      case Fails(e) => Raised(e)
      case Replies(stop, extras) =>
        if extras == [] then Publish(fs[i + 1..], behave)
        else if stop then Collected([extras])
        else Prepend(extras, Publish(fs[i + 1..], behave))
  {
    assert fs[i..][1..] == fs[i + 1..];
  }

  lemma ExtendPrepend<V>(acc: seq<seq<V>>, x: seq<V>, b: Broadcast<V>)
    ensures Extend(acc, Prepend(x, b)) == Extend(acc + [x], b)
  {
    if b.Collected? {
      assert acc + ([x] + b.results) == acc + [x] + b.results;
    }
  }

  /** Every collected list is non-empty and is the extras of some listener; there
      are never more lists than listeners. */
  lemma {:induction false} PublishCollectsExtras<V>(fs: seq<FuncRef>, behave: FuncRef -> Reply<V>)
    ensures Publish(fs, behave).Collected? ==>
      var l := Publish(fs, behave).results;
      && |l| <= |fs|
      && forall j :: 0 <= j < |l| ==> l[j] != [] && exists i :: 0 <= i < |fs| && behave(fs[i]).Replies? && behave(fs[i]).extras == l[j]
    decreases |fs|
  {
    if |fs| > 0 {
      PublishCollectsExtras(fs[1..], behave);
      var tail := Publish(fs[1..], behave);
      if tail.Collected? {
        forall j | 0 <= j < |tail.results|
          ensures exists i :: 0 <= i < |fs| && behave(fs[i]).Replies? && behave(fs[i]).extras == tail.results[j]
        {
          var i :| 0 <= i < |fs[1..]| && behave(fs[1..][i]).Replies? && behave(fs[1..][i]).extras == tail.results[j];
          assert fs[1..][i] == fs[i + 1];
        }
      }
    }
  }

  /** Nothing after an interrupting listener that returned extras is collected,
      provided no listener before it interrupted or raised: the result is the
      earlier non-empty extras in order, then the interrupting listener's. */
  lemma {:induction false} PublishStopsAtInterrupt<V>(fs: seq<FuncRef>, k: nat, behave: FuncRef -> Reply<V>)
    requires k < |fs|
    requires behave(fs[k]).Replies? && behave(fs[k]).interrupt && behave(fs[k]).extras != []
    requires forall i :: 0 <= i < k ==> behave(fs[i]).Replies? && !(behave(fs[i]).interrupt && behave(fs[i]).extras != [])
    ensures Publish(fs, behave) == Publish(fs[..k + 1], behave)
    ensures Publish(fs, behave) == Collected(NonEmptyExtras(fs[..k], behave) + [behave(fs[k]).extras])
    decreases k
  {
    if k > 0 {
      PublishStopsAtInterrupt(fs[1..], k - 1, behave);
      assert fs[1..][..k] == fs[..k + 1][1..];
      assert fs[..k][1..] == fs[1..][..k - 1];
      var head := behave(fs[0]);
      var rest := NonEmptyExtras(fs[1..][..k - 1], behave) + [behave(fs[k]).extras];
      if head.extras != [] {
        assert [head.extras] + rest == ([head.extras] + NonEmptyExtras(fs[1..][..k - 1], behave)) + [behave(fs[k]).extras];
      } else {
        assert [] + NonEmptyExtras(fs[..k][1..], behave) == NonEmptyExtras(fs[..k][1..], behave);
      }
    } else {
      assert NonEmptyExtras(fs[..0], behave) == [];
    }
  }

  /** When no listener raises or interrupts with extras, every non-empty extras list
      is collected, in listener order. */
  lemma {:induction false} PublishCollectsAll<V>(fs: seq<FuncRef>, behave: FuncRef -> Reply<V>)
    requires forall i :: 0 <= i < |fs| ==> !Ends(behave(fs[i]))
    ensures Publish(fs, behave) == Collected(NonEmptyExtras(fs, behave))
    decreases |fs|
  {
    if |fs| > 0 {
      assert forall i :: 0 <= i < |fs[1..]| ==> fs[1..][i] == fs[i + 1];
      PublishCollectsAll(fs[1..], behave);
      assert !Ends(behave(fs[0]));
    }
  }

  /** A listener that interrupts with no extras does not end the chain. */
  lemma EmptyInterruptContinues<V>(f: FuncRef, rest: seq<FuncRef>, behave: FuncRef -> Reply<V>)
    requires behave(f) == Replies(true, [])
    ensures Publish([f] + rest, behave) == Publish(rest, behave)
  {
    assert ([f] + rest)[1..] == rest;
  }

  /** A raising listener reached before any interruption makes the broadcast raise. */
  lemma {:induction false} PublishRaises<V>(fs: seq<FuncRef>, k: nat, behave: FuncRef -> Reply<V>)
    requires k < |fs| && behave(fs[k]).Fails?
    requires forall i :: 0 <= i < k ==> behave(fs[i]).Replies? && !(behave(fs[i]).interrupt && behave(fs[i]).extras != [])
    ensures Publish(fs, behave) == Raised(behave(fs[k]).err)
    decreases k
  {
    if k > 0 {
      PublishRaises(fs[1..], k - 1, behave);
    }
  }

  /** The first listener whose reply ends the chain is the last one called. */
  lemma StopAt<V>(fs: seq<FuncRef>, i: nat, behave: FuncRef -> Reply<V>)
    requires i < |fs| && Ends(behave(fs[i]))
    requires forall j :: 0 <= j < i ==> !Ends(behave(fs[j]))
    ensures StopIndex(fs, behave) == i + 1
  {
  }

  // ---------------------------------------------------------------------------
  // The repeating-task scheduler, one tick at a time.

  function Interval(b: Bucket): nat {
    match b
    case Every1m => 60
    case Every30s => 30
    case Every10s => 10
    case Every1s => 0
  }

  function Last(s: Stamps, b: Bucket): int
    requires b != Every1s
  {
    match b
    case Every1m => s.last1m
    case Every30s => s.last30s
    case Every10s => s.last10s
  }

  /** A bucket fires when strictly more than its interval has passed since it last
      fired; the 1s bucket fires on every tick. */
  predicate Due(s: Stamps, b: Bucket, now: int) {
    b == Every1s || now - Last(s, b) > Interval(b)
  }

  /** The buckets one tick fires, in the order it runs them. */
  function Fired(s: Stamps, now: int): (r: seq<Bucket>)
    ensures |r| > 0 && r[|r| - 1] == Every1s
  {
    Timed(s, now) + [Every1s]
  }

  /** The buckets of the three timed `if` blocks that one tick fires, in order. */
  function Timed(s: Stamps, now: int): (r: seq<Bucket>)
    ensures Every1s !in r
  {
    Block(s, Every1m, now) + Later(s, now)
  }

  /** The buckets of the 30s and 10s blocks that one tick fires, in order. */
  function Later(s: Stamps, now: int): (r: seq<Bucket>)
    ensures Every1s !in r && Every1m !in r
  {
    Block(s, Every30s, now) + Block(s, Every10s, now)
  }

  /** What the `if` block of bucket `b` fires at `now`: `b` when it is due, else nothing. */
  function Block(s: Stamps, b: Bucket, now: int): (r: seq<Bucket>)
    ensures b in r <==> Due(s, b, now)
    ensures forall c :: c in r ==> c == b
  {
    if Due(s, b, now) then [b] else []
  }

  /** The stamps after one tick: a bucket's stamp becomes `now` exactly when it fires,
      so no bucket is still due at `now`. */
  function Advance(s: Stamps, now: int): (r: Stamps)
    ensures !Due(r, Every1m, now) && !Due(r, Every30s, now) && !Due(r, Every10s, now)
  {
    Stamps(
      if Due(s, Every1m, now) then now else s.last1m,
      if Due(s, Every30s, now) then now else s.last30s,
      if Due(s, Every10s, now) then now else s.last10s)
  }

  /** A tick fires exactly the due buckets, the 1s bucket last, and moves the stamp
      of exactly the buckets it fired to `now`. */
  lemma TickMeaning(s: Stamps, now: int)
    ensures forall b :: b in Fired(s, now) <==> Due(s, b, now)
    ensures Fired(s, now)[|Fired(s, now)| - 1] == Every1s
    ensures forall b :: b != Every1s ==> Last(Advance(s, now), b) == if Due(s, b, now) then now else Last(s, b)
  {
  }

  /** The stamps the loop starts from. */
  const Start: Stamps := Stamps(0, 0, 0)

  /** The stamps before tick `t` of a run whose clock readings are `times`. */
  function StampsAt(times: seq<int>, t: nat): Stamps
    requires t <= |times|
  {
    if t == 0 then Start else Advance(StampsAt(times, t - 1), times[t - 1])
  }

  /** With a clock that never goes back, a bucket's stamp at any later tick is at
      least the time of a tick at which it fired. */
  lemma {:induction false} StampNotBefore(times: seq<int>, b: Bucket, i: nat, j: nat)
    requires b != Every1s && i < j <= |times|
    requires forall x, y :: 0 <= x <= y < |times| ==> times[x] <= times[y]
    requires Due(StampsAt(times, i), b, times[i])
    ensures Last(StampsAt(times, j), b) >= times[i]
    decreases j
  {
    TickMeaning(StampsAt(times, j - 1), times[j - 1]);
    if j > i + 1 {
      StampNotBefore(times, b, i, j - 1);
    }
  }

  /** The scheduler never fires a bucket early: two firings of the 1m, 30s or 10s
      bucket are more than its interval apart. */
  lemma NeverEarly(times: seq<int>, b: Bucket, i: nat, j: nat)
    requires b != Every1s && i < j < |times|
    requires forall x, y :: 0 <= x <= y < |times| ==> times[x] <= times[y]
    requires b in Fired(StampsAt(times, i), times[i]) && b in Fired(StampsAt(times, j), times[j])
    ensures times[j] - times[i] > Interval(b)
  {
    TickMeaning(StampsAt(times, i), times[i]);
    TickMeaning(StampsAt(times, j), times[j]);
    StampNotBefore(times, b, i, j);
  }

  /** Ticks at 100, 105, 111 and 131 seconds: the first fires every bucket, the
      second only the 1s bucket, the third the 10s bucket, the fourth the 30s and
      10s buckets but not yet the 1m bucket. */
  lemma ScheduleExample()
    ensures Fired(StampsAt([100, 105, 111, 131], 0), 100) == [Every1m, Every30s, Every10s, Every1s]
    ensures Fired(StampsAt([100, 105, 111, 131], 1), 105) == [Every1s]
    ensures Fired(StampsAt([100, 105, 111, 131], 2), 111) == [Every10s, Every1s]
    ensures Fired(StampsAt([100, 105, 111, 131], 3), 131) == [Every30s, Every10s, Every1s]
  {
    var times := [100, 105, 111, 131];
    assert StampsAt(times, 1) == Stamps(100, 100, 100);
    assert StampsAt(times, 2) == Stamps(100, 100, 100);
    assert StampsAt(times, 3) == Stamps(100, 100, 111);
  }

  /** The tasks of the buckets that tick `t` of a run fires, in order. */
  function TickTasks(times: seq<int>, t: nat, tasks: map<Bucket, seq<Hook>>): seq<Hook>
    requires t < |times|
  {
    TaskList(Fired(StampsAt(times, t), times[t]), tasks)
  }

  /** Tick `t` of a run made the calls `inv` and the reports `rep`, as the stamps
      before it demand. */
  ghost predicate TickMatches(times: seq<int>, t: nat, inv: seq<(FuncRef, Args)>, rep: seq<Report>,
                              tasks: map<Bucket, seq<Hook>>, behave: (FuncRef, Args) -> Call)
    requires t < |times|
  {
    var ran := Ran(TickTasks(times, t, tasks), NoArgs, behave);
    inv == Calls(ran, NoArgs) && rep == Failures(ran, NoArgs, behave)
  }

  /** Every tick of a run so far made the calls and reports its stamps demand. */
  ghost predicate TicksMatch(times: seq<int>, invoked: seq<seq<(FuncRef, Args)>>, reported: seq<seq<Report>>,
                             tasks: map<Bucket, seq<Hook>>, behave: (FuncRef, Args) -> Call)
    requires |invoked| == |reported| <= |times|
  {
    forall u {:trigger invoked[u]} :: 0 <= u < |invoked| ==> TickMatches(times, u, invoked[u], reported[u], tasks, behave)
  }

  /** No tick of a run so far escaped, and each fired the buckets due at it. */
  ghost predicate TicksQuiet(times: seq<int>, fired: seq<seq<Bucket>>, tasks: map<Bucket, seq<Hook>>,
                             behave: (FuncRef, Args) -> Call)
    requires |fired| <= |times|
  {
    forall u {:trigger fired[u]} :: 0 <= u < |fired| ==>
      !Escapes(TickTasks(times, u, tasks), NoArgs, behave) && fired[u] == Fired(StampsAt(times, u), times[u])
  }

  /** A run so far stays matched when its next tick matches. */
  lemma TicksMatchExtend(times: seq<int>, invoked: seq<seq<(FuncRef, Args)>>, reported: seq<seq<Report>>,
                         inv: seq<(FuncRef, Args)>, rep: seq<Report>,
                         tasks: map<Bucket, seq<Hook>>, behave: (FuncRef, Args) -> Call)
    requires |invoked| == |reported| < |times|
    requires TicksMatch(times, invoked, reported, tasks, behave)
    requires TickMatches(times, |invoked|, inv, rep, tasks, behave)
    ensures TicksMatch(times, invoked + [inv], reported + [rep], tasks, behave)
  {
    forall u | 0 <= u < |invoked| + 1
      ensures TickMatches(times, u, (invoked + [inv])[u], (reported + [rep])[u], tasks, behave)
    {
      if u < |invoked| {
        assert (invoked + [inv])[u] == invoked[u] && (reported + [rep])[u] == reported[u];
      }
    }
  }

  /** A quiet run so far stays quiet when its next tick fires what is due and does
      not escape. */
  lemma TicksQuietExtend(times: seq<int>, fired: seq<seq<Bucket>>, f: seq<Bucket>,
                         tasks: map<Bucket, seq<Hook>>, behave: (FuncRef, Args) -> Call)
    requires |fired| < |times|
    requires TicksQuiet(times, fired, tasks, behave)
    requires !Escapes(TickTasks(times, |fired|, tasks), NoArgs, behave)
    requires f == Fired(StampsAt(times, |fired|), times[|fired|])
    ensures TicksQuiet(times, fired + [f], tasks, behave)
  {
    forall u | 0 <= u < |fired| + 1
      ensures !Escapes(TickTasks(times, u, tasks), NoArgs, behave)
      ensures (fired + [f])[u] == Fired(StampsAt(times, u), times[u])
    {
      if u < |fired| {
        assert (fired + [f])[u] == fired[u];
      }
    }
  }

  /** The tasks of the fired buckets, in firing order. */
  function TaskList(fired: seq<Bucket>, tasks: map<Bucket, seq<Hook>>): seq<Hook>
    decreases |fired|
  {
    if |fired| == 0 then []
    else TaskList(fired[..|fired| - 1], tasks) + TasksIn(tasks, fired[|fired| - 1])
  }

  function TasksIn(tasks: map<Bucket, seq<Hook>>, b: Bucket): seq<Hook> {
    if b in tasks then tasks[b] else []
  }

  lemma {:induction false} TaskListAppend(f: seq<Bucket>, g: seq<Bucket>, tasks: map<Bucket, seq<Hook>>)
    ensures TaskList(f + g, tasks) == TaskList(f, tasks) + TaskList(g, tasks)
    decreases |g|
  {
    if |g| == 0 {
      assert f + g == f;
    } else {
      assert (f + g)[..|f + g| - 1] == f + g[..|g| - 1];
      TaskListAppend(f, g[..|g| - 1], tasks);
    }
  }

  /** Regrouping a concatenation of buckets. */
  lemma BucketsRegroup(a: seq<Bucket>, b: seq<Bucket>, c: seq<Bucket>)
    ensures (a + b) + c == a + (b + c)
  {
  }

  /** Once a task of the buckets `done` escapes, the buckets after them change nothing. */
  lemma EscapeDecides(done: seq<Bucket>, rest: seq<Bucket>, tasks: map<Bucket, seq<Hook>>, behave: (FuncRef, Args) -> Call)
    requires Escapes(TaskList(done, tasks), NoArgs, behave)
    ensures Escapes(TaskList(done + rest, tasks), NoArgs, behave)
    ensures Ran(TaskList(done + rest, tasks), NoArgs, behave) == Ran(TaskList(done, tasks), NoArgs, behave)
  {
    TaskListAppend(done, rest, tasks);
    RanAfterExit(TaskList(done, tasks), TaskList(rest, tasks), NoArgs, behave);
  }

  /** One `if` block of the tick: when `due`, runs the tasks of bucket `b` after
      the buckets `before`, none of whose tasks escaped, extending the trace and
      the reports; otherwise leaves them as they are. When one of its tasks
      escapes, the buckets `rest` that would have followed it never run. */
  method RunBucket(due: bool, b: Bucket, before: seq<Bucket>, ghost rest: seq<Bucket>, tasks: map<Bucket, seq<Hook>>,
                   invoked0: seq<(FuncRef, Args)>, reported0: seq<Report>,
                   behave: (FuncRef, Args) -> Call)
    returns (fired: seq<Bucket>, invoked: seq<(FuncRef, Args)>, reported: seq<Report>, escaped: bool)
    requires !Escapes(TaskList(before, tasks), NoArgs, behave)
    requires invoked0 == Calls(TaskList(before, tasks), NoArgs)
    requires reported0 == Failures(TaskList(before, tasks), NoArgs, behave)
    ensures fired == before + (if due then [b] else [])
    ensures escaped == Escapes(TaskList(fired, tasks), NoArgs, behave)
    ensures !escaped ==> && invoked == Calls(TaskList(fired, tasks), NoArgs)
                         && reported == Failures(TaskList(fired, tasks), NoArgs, behave)
    ensures escaped ==> var ran := Ran(TaskList(fired + rest, tasks), NoArgs, behave);
      && Escapes(TaskList(fired + rest, tasks), NoArgs, behave)
      && invoked == Calls(ran, NoArgs)
      && reported == Failures(ran, NoArgs, behave)
  {
    if !due {
      assert before + [] == before;
      return before, invoked0, reported0, false;
    }
    var inv, rep, esc := RunHooks(TasksIn(tasks, b), NoArgs, behave);
    fired := before + [b];
    assert fired[..|before|] == before;
    var done := TaskList(before, tasks);
    RanAfterQuiet(done, TasksIn(tasks, b), NoArgs, behave);
    CallsAppend(done, Ran(TasksIn(tasks, b), NoArgs, behave), NoArgs);
    FailuresAppend(done, Ran(TasksIn(tasks, b), NoArgs, behave), NoArgs, behave);
    invoked := invoked0 + inv;
    reported := reported0 + rep;
    escaped := esc;
    if escaped {
      EscapeDecides(fired, rest, tasks, behave);
    }
  }

  // ---------------------------------------------------------------------------
  // The registry object.

  class PluginGroup {
    /** `packet_funcs`, keyed by packet id. */
    var packetFuncs: map<int, seq<FuncRef>>
    /** `_broadcast_evts`. */
    var broadcastEvts: map<string, seq<FuncRef>>
    /** `plugins_api`. */
    var pluginsApi: map<string, Plugin>
    /** `listen_packet_ids`. */
    var listenPacketIds: set<int>
    /** The ids passed on to `link_game_ctrl.add_listen_pkt`, in order. */
    ghost var forwardedIds: seq<int>
    /** `plugins_funcs`. */
    var pluginsFuncs: map<Event, seq<Hook>>
    /** `plugin_added_cache["plugin"]` and `plugin_added_cache["packets"]`. */
    var cachedPlugin: Option<Plugin>
    var cachedPackets: seq<(int, FuncRef)>
    /** `pluginAPI_added_cache`. */
    var apiCache: seq<string>
    /** `dotcs_repeat_threadings`. */
    var repeatTasks: map<Bucket, seq<Hook>>

    constructor ()
      ensures packetFuncs == map[] && broadcastEvts == map[] && pluginsApi == map[]
      ensures listenPacketIds == {} && forwardedIds == []
      ensures forall e :: e in pluginsFuncs && pluginsFuncs[e] == []
      ensures cachedPlugin == None && cachedPackets == [] && apiCache == []
      ensures forall b :: b in repeatTasks && repeatTasks[b] == []
    {
      packetFuncs := map[];
      broadcastEvts := map[];
      pluginsApi := map[];
      listenPacketIds := {};
      forwardedIds := [];
      pluginsFuncs := map[OnDef := [], OnInject := [], OnPlayerPrejoin := [], OnPlayerJoin := [],
                          OnPlayerMessage := [], OnPlayerDeath := [], OnPlayerLeave := []];
      cachedPlugin := None;
      cachedPackets := [];
      apiCache := [];
      repeatTasks := map[Every1s := [], Every10s := [], Every30s := [], Every1m := []];
      new;
      forall e ensures e in pluginsFuncs && pluginsFuncs[e] == [] {
        match e {
          case OnDef => case OnInject => case OnPlayerPrejoin => case OnPlayerJoin =>
          case OnPlayerMessage => case OnPlayerDeath => case OnPlayerLeave =>
        }
      }
      forall b ensures b in repeatTasks && repeatTasks[b] == [] {
        match b {
          case Every1s => case Every10s => case Every30s => case Every1m =>
        }
      }
    }

    /** The handlers registered for a packet id; none when the id has no list. */
    function Handlers(id: int): seq<FuncRef>
      reads this
    {
      if id in packetFuncs then packetFuncs[id] else []
    }

    function Listeners(evt: string): seq<FuncRef>
      reads this
    {
      if evt in broadcastEvts then broadcastEvts[evt] else []
    }

    function HooksOf(e: Event): seq<Hook>
      reads this
    {
      if e in pluginsFuncs then pluginsFuncs[e] else []
    }

    function TasksOf(b: Bucket): seq<Hook>
      reads this
    {
      TasksIn(repeatTasks, b)
    }

    // -- registration ---------------------------------------------------------

    /** `add_broadcast_listener(evt)(f)`: `f` goes to the end of the event's list,
        which is created when missing or empty. */
    method AddBroadcastListener(evt: string, f: FuncRef)
      modifies this`broadcastEvts
      ensures broadcastEvts == old(broadcastEvts)[evt := old(Listeners(evt)) + [f]]
    {
      if evt in broadcastEvts && broadcastEvts[evt] != [] {
        broadcastEvts := broadcastEvts[evt := broadcastEvts[evt] + [f]];
      } else {
        assert Listeners(evt) + [f] == [f];
        broadcastEvts := broadcastEvts[evt := [f]];
      }
    }

    /** `add_listen_packet_func(id, f)`: `f` goes to the end of the id's handlers. */
    method AddListenPacketFunc(id: int, f: FuncRef)
      modifies this`packetFuncs
      ensures packetFuncs == old(packetFuncs)[id := old(Handlers(id)) + [f]]
    {
      if id in packetFuncs && packetFuncs[id] != [] {
        packetFuncs := packetFuncs[id := packetFuncs[id] + [f]];
      } else {
        assert Handlers(id) + [f] == [f];
        packetFuncs := packetFuncs[id := [f]];
      }
    }

    /** `add_listen_packet_id(id)`: the id joins the interest set and is passed on
        to the game connection. */
    method AddListenPacketId(id: int)
      modifies this`listenPacketIds, this`forwardedIds
      ensures listenPacketIds == old(listenPacketIds) + {id}
      ensures forwardedIds == old(forwardedIds) + [id]
    {
      listenPacketIds := listenPacketIds + {id};
      forwardedIds := forwardedIds + [id];
    }

    /** `add_packet_listener(pktID)(f)`: one staged `(id, f)` pair per id, in order;
        the decorator hands `f` back unchanged. */
    method AddPacketListener(ids: PacketIds, f: FuncRef) returns (g: FuncRef)
      modifies this`cachedPackets
      ensures g == f
      ensures ids.Single? ==> cachedPackets == old(cachedPackets) + [(ids.id, f)]
      ensures ids.Many? ==> |cachedPackets| == |old(cachedPackets)| + |ids.ids|
      ensures ids.Many? ==> cachedPackets[..|old(cachedPackets)|] == old(cachedPackets)
      ensures ids.Many? ==> forall i :: 0 <= i < |ids.ids| ==> cachedPackets[|old(cachedPackets)| + i] == (ids.ids[i], f)
    {
      match ids {
        case Single(id) =>
          cachedPackets := cachedPackets + [(id, f)];
        case Many(list) =>
          var i := 0;
          while i < |list|
            invariant 0 <= i <= |list|
            invariant |cachedPackets| == |old(cachedPackets)| + i
            invariant cachedPackets[..|old(cachedPackets)|] == old(cachedPackets)
            invariant forall k :: 0 <= k < i ==> cachedPackets[|old(cachedPackets)| + k] == (list[k], f)
          {
            cachedPackets := cachedPackets + [(list[i], f)];
            i := i + 1;
          }
      }
      g := f;
    }

    /** `add_plugin(plugin)`: a subclass of `Plugin` is staged and returned, anything
        else raises `NotValidPluginError` and stages nothing. */
    method AddPlugin(p: Plugin) returns (r: Added)
      modifies this`cachedPlugin
      ensures r == (if p.isPluginClass then Accepted(p) else NotValidPlugin)
      ensures cachedPlugin == (if p.isPluginClass then Some(p) else old(cachedPlugin))
    {
      if !p.isPluginClass {
        return NotValidPlugin;
      }
      cachedPlugin := Some(p);
      r := Accepted(p);
    }

    /** `add_plugin_as_api(apiName)(plugin)`: as `add_plugin`, and the API name is
        staged too; but with no `TypeError` fallback, so an argument that is not a
        class raises `TypeError` and stages nothing. */
    method AddPluginAsApi(apiName: string, p: Plugin) returns (r: Added)
      modifies this`cachedPlugin, this`apiCache
      ensures r == (if !p.isClass then NotAClass else if p.isPluginClass then Accepted(p) else NotValidPlugin)
      ensures cachedPlugin == (if p.isClass && p.isPluginClass then Some(p) else old(cachedPlugin))
      ensures apiCache == (if p.isClass && p.isPluginClass then old(apiCache) + [apiName] else old(apiCache))
    {
      if !p.isClass {
        return NotAClass;
      }
      if !p.isPluginClass {
        return NotValidPlugin;
      }
      cachedPlugin := Some(p);
      apiCache := apiCache + [apiName];
      r := Accepted(p);
    }

    // -- lookup ---------------------------------------------------------------

    /** `get_plugin_api(apiName, min_version)`: a registered plugin is returned unless
        a non-empty `min_version` is lexicographically above its version. */
    function GetPluginApi(apiName: string, minVersion: Option<Version>): (r: ApiLookup)
      reads this
      ensures r.NotFound? <==> apiName !in pluginsApi
      ensures r.Found? ==> r.plugin == pluginsApi[apiName]
                           && (minVersion.None? || minVersion.value == [] || !LexBefore(r.plugin.version, minVersion.value))
      ensures r.VersionTooLow? ==> apiName in pluginsApi && minVersion == Some(r.need) && r.need != []
                                   && r.have == pluginsApi[apiName].version && LexBefore(r.have, r.need)
    {
      if apiName in pluginsApi then
        var api := pluginsApi[apiName];
        if minVersion.Some? && minVersion.value != [] then
          LessIsLexicographic(api.version, minVersion.value);
          if Less(api.version, minVersion.value) then VersionTooLow(minVersion.value, api.version) else Found(api)
        else Found(api)
      else NotFound
    }

    // -- dispatch -------------------------------------------------------------

    /** `processPacketFunc(pktID, pkt)`: handlers are tried in registration order, a
        raising handler is skipped (the bare `except:` catches every exception,
        `Exits` included), and the first truthy result stops the search. */
    method ProcessPacketFunc(id: int, behave: FuncRef -> Call) returns (handled: bool, invoked: seq<FuncRef>)
      ensures |invoked| <= |Handlers(id)| && invoked == Handlers(id)[..|invoked|]
      ensures handled <==> exists i :: 0 <= i < |Handlers(id)| && behave(Handlers(id)[i]) == Returns(true)
      ensures handled ==> |invoked| > 0 && behave(invoked[|invoked| - 1]) == Returns(true)
      ensures forall i :: 0 <= i < |invoked| - 1 ==> behave(invoked[i]) != Returns(true)
      ensures !handled ==> invoked == Handlers(id)
    {
      var d := Handlers(id);
      invoked := [];
      var i := 0;
      while i < |d|
        invariant 0 <= i <= |d|
        invariant invoked == d[..i]
        invariant forall k :: 0 <= k < i ==> behave(d[k]) != Returns(true)
      {
        invoked := invoked + [d[i]];
        if behave(d[i]) == Returns(true) {
          return true, invoked;
        }
        i := i + 1;
      }
      return false, invoked;
    }

    /** `broadcastEvt(evt)`: `None` without listeners; otherwise the listeners are
        called in order as `Publish` describes. */
    method BroadcastEvt<V>(evt: string, behave: FuncRef -> Reply<V>) returns (r: Broadcast<V>, invoked: seq<FuncRef>)
      ensures Listeners(evt) == [] ==> r == NoListeners && invoked == []
      ensures Listeners(evt) != [] ==> r == Publish(Listeners(evt), behave)
      ensures Listeners(evt) != [] ==> invoked == Listeners(evt)[..StopIndex(Listeners(evt), behave)]
    {
      var res := Listeners(evt);
      invoked := [];
      if res == [] {
        return NoListeners, invoked;
      }
      var callbacks: seq<seq<V>> := [];
      var i := 0;
      while i < |res|
        invariant 0 <= i <= |res|
        invariant invoked == res[..i]
        invariant forall j :: 0 <= j < i ==> !Ends(behave(res[j]))
        invariant Publish(res, behave) == Extend(callbacks, Publish(res[i..], behave))
      {
        PublishStep(res, i, behave);
        invoked := invoked + [res[i]];
        assert invoked == res[..i + 1];
        match behave(res[i]) {
          case Fails(e) =>
            StopAt(res, i, behave);
            return Raised(e), invoked;
          case Replies(stop, extras) =>
            if extras != [] {
              if stop {
                StopAt(res, i, behave);
                return Collected(callbacks + [extras]), invoked;
              }
              ExtendPrepend(callbacks, extras, Publish(res[i + 1..], behave));
              callbacks := callbacks + [extras];
            }
        }
        i := i + 1;
      }
      assert callbacks + [] == callbacks;
      assert invoked == res;
      r := Collected(callbacks);
    }

    /** `execute_def(onerr)`: the `on_def` hooks in order; a dependency error
        (`PluginAPINotFoundError` or `PluginAPIVersionError`) aborts with
        `SystemExit`, an exception that is not an `Exception` escapes, and in both
        cases no later hook runs; any other error goes to `onerr`. */
    method ExecuteDef(behave: (FuncRef, Args) -> Call)
      returns (invoked: seq<(FuncRef, Args)>, reported: seq<Report>, aborted: bool)
      ensures var hooks := HooksOf(OnDef); var k := FirstFatal(hooks, behave);
        && (aborted <==> k < |hooks|)
        && invoked == Calls(hooks[..if aborted then k + 1 else k], NoArgs)
        && reported == Failures(hooks[..k], NoArgs, behave)
        && forall r :: r in reported ==> r.err == OtherError
    {
      var hooks := HooksOf(OnDef);
      ghost var k := FirstFatal(hooks, behave);
      invoked := [];
      reported := [];
      var i := 0;
      while i < |hooks|
        invariant 0 <= i <= k
        invariant invoked == Calls(hooks[..i], NoArgs)
        invariant reported == Failures(hooks[..i], NoArgs, behave)
      {
        var h := hooks[i];
        HookStep(hooks, i, NoArgs, behave);
        invoked := invoked + [(h.f, NoArgs)];
        var c := behave(h.f, NoArgs);
        if Fatal(c) {
          assert i == k;
          assert invoked == Calls(hooks[..k + 1], NoArgs);
          NoFatalBefore(hooks, k, behave);
          return invoked, reported, true;
        }
        assert i < k;
        if c.Raises? {
          reported := reported + [Report(h.name, c.err)];
        }
        i := i + 1;
      }
      assert i == k;
      assert invoked == Calls(hooks[..k], NoArgs);
      NoFatalBefore(hooks, k, behave);
      aborted := false;
    }

    /** `execute_init(onerr)`: the `on_inject` hooks once each, in order, each
        `Exception` reported; one that is not an `Exception` ends the loop. */
    method ExecuteInit(behave: (FuncRef, Args) -> Call)
      returns (invoked: seq<(FuncRef, Args)>, reported: seq<Report>, escaped: bool)
      ensures invoked == Calls(Ran(HooksOf(OnInject), NoArgs, behave), NoArgs)
      ensures reported == Failures(Ran(HooksOf(OnInject), NoArgs, behave), NoArgs, behave)
      ensures escaped == Escapes(HooksOf(OnInject), NoArgs, behave)
    {
      invoked, reported, escaped := RunHooks(HooksOf(OnInject), NoArgs, behave);
    }

    method ExecutePlayerPrejoin(player: string, behave: (FuncRef, Args) -> Call)
      returns (invoked: seq<(FuncRef, Args)>, reported: seq<Report>, escaped: bool)
      ensures invoked == Calls(Ran(HooksOf(OnPlayerPrejoin), PlayerArgs(player), behave), PlayerArgs(player))
      ensures reported == Failures(Ran(HooksOf(OnPlayerPrejoin), PlayerArgs(player), behave), PlayerArgs(player), behave)
      ensures escaped == Escapes(HooksOf(OnPlayerPrejoin), PlayerArgs(player), behave)
    {
      invoked, reported, escaped := RunHooks(HooksOf(OnPlayerPrejoin), PlayerArgs(player), behave);
    }

    method ExecutePlayerJoin(player: string, behave: (FuncRef, Args) -> Call)
      returns (invoked: seq<(FuncRef, Args)>, reported: seq<Report>, escaped: bool)
      ensures invoked == Calls(Ran(HooksOf(OnPlayerJoin), PlayerArgs(player), behave), PlayerArgs(player))
      ensures reported == Failures(Ran(HooksOf(OnPlayerJoin), PlayerArgs(player), behave), PlayerArgs(player), behave)
      ensures escaped == Escapes(HooksOf(OnPlayerJoin), PlayerArgs(player), behave)
    {
      invoked, reported, escaped := RunHooks(HooksOf(OnPlayerJoin), PlayerArgs(player), behave);
    }

    /** `execute_player_message(player, msg, onerr)`: a message that starts with
        `"[<player>] "` reaches the hooks as `msg.strip(pat)`, any other message as it
        is. */
    method ExecutePlayerMessage(player: string, msg: string, behave: (FuncRef, Args) -> Call)
      returns (invoked: seq<(FuncRef, Args)>, reported: seq<Report>, escaped: bool)
      ensures var args := MessageArgs(player, MessageAsWritten(player, msg));
        && invoked == Calls(Ran(HooksOf(OnPlayerMessage), args, behave), args)
        && reported == Failures(Ran(HooksOf(OnPlayerMessage), args, behave), args, behave)
        && escaped == Escapes(HooksOf(OnPlayerMessage), args, behave)
      ensures !StartsWith(msg, ChatPrefix(player)) ==>
        var args := MessageArgs(player, msg); invoked == Calls(Ran(HooksOf(OnPlayerMessage), args, behave), args)
    {
      var body := MessageAsWritten(player, msg);
      invoked, reported, escaped := RunHooks(HooksOf(OnPlayerMessage), MessageArgs(player, body), behave);
    }

    method ExecutePlayerLeave(player: string, behave: (FuncRef, Args) -> Call)
      returns (invoked: seq<(FuncRef, Args)>, reported: seq<Report>, escaped: bool)
      ensures invoked == Calls(Ran(HooksOf(OnPlayerLeave), PlayerArgs(player), behave), PlayerArgs(player))
      ensures reported == Failures(Ran(HooksOf(OnPlayerLeave), PlayerArgs(player), behave), PlayerArgs(player), behave)
      ensures escaped == Escapes(HooksOf(OnPlayerLeave), PlayerArgs(player), behave)
    {
      invoked, reported, escaped := RunHooks(HooksOf(OnPlayerLeave), PlayerArgs(player), behave);
    }

    method ExecutePlayerDeath(player: string, killer: Option<string>, msg: string, behave: (FuncRef, Args) -> Call)
      returns (invoked: seq<(FuncRef, Args)>, reported: seq<Report>, escaped: bool)
      ensures invoked == Calls(Ran(HooksOf(OnPlayerDeath), DeathArgs(player, killer, msg), behave), DeathArgs(player, killer, msg))
      ensures reported == Failures(Ran(HooksOf(OnPlayerDeath), DeathArgs(player, killer, msg), behave), DeathArgs(player, killer, msg), behave)
      ensures escaped == Escapes(HooksOf(OnPlayerDeath), DeathArgs(player, killer, msg), behave)
    {
      invoked, reported, escaped := RunHooks(HooksOf(OnPlayerDeath), DeathArgs(player, killer, msg), behave);
    }

    // -- scheduler ------------------------------------------------------------

    /** `not any(self.dotcs_repeat_threadings.values())`. */
    predicate NoTasks()
      reads this
    {
      forall b :: TasksOf(b) == []
    }

    /** One pass of the `while 1` body at clock reading `now`: the 1m, 30s and 10s
        buckets when due, then the 1s bucket. The tasks of the fired buckets run in
        order and each `Exception` is reported; a task whose exception is not an
        `Exception` ends the pass, and with it the scheduler. */
    method RepeatTick(s: Stamps, now: int, behave: (FuncRef, Args) -> Call)
      returns (next: Stamps, fired: seq<Bucket>, invoked: seq<(FuncRef, Args)>, reported: seq<Report>, escaped: bool)
      ensures var ran := Ran(TaskList(Fired(s, now), repeatTasks), NoArgs, behave);
        && invoked == Calls(ran, NoArgs)
        && reported == Failures(ran, NoArgs, behave)
      ensures escaped == Escapes(TaskList(Fired(s, now), repeatTasks), NoArgs, behave)
      ensures !escaped ==> next == Advance(s, now) && fired == Fired(s, now)
    {
      next, fired, invoked, reported, escaped := RunTimed(s, now, behave);
      if escaped {
        EscapeDecides(Timed(s, now), [Every1s], repeatTasks, behave);
        return;
      }
      fired, invoked, reported, escaped := RunBucket(true, Every1s, fired, [], repeatTasks, invoked, reported, behave);
      assert fired == fired + [];
    }

    /** The 1m, 30s and 10s `if` blocks of one pass: each due bucket's tasks run and
        its stamp moves to `now`, until a task's exception escapes. */
    method RunTimed(s: Stamps, now: int, behave: (FuncRef, Args) -> Call)
      returns (next: Stamps, fired: seq<Bucket>, invoked: seq<(FuncRef, Args)>, reported: seq<Report>, escaped: bool)
      ensures var ran := Ran(TaskList(Timed(s, now), repeatTasks), NoArgs, behave);
        && invoked == Calls(ran, NoArgs)
        && reported == Failures(ran, NoArgs, behave)
      ensures escaped == Escapes(TaskList(Timed(s, now), repeatTasks), NoArgs, behave)
      ensures !escaped ==> next == Advance(s, now) && fired == Timed(s, now)
    {
      next := s;
      fired, invoked, reported, escaped := RunBucket(Due(s, Every1m, now), Every1m, [], Later(s, now), repeatTasks, [], [], behave);
      if escaped {
        return;
      }
      next := if Due(s, Every1m, now) then s.(last1m := now) else s;
      next, fired, invoked, reported, escaped := RunLater(s, now, next, fired, invoked, reported, behave);
    }

    /** The 30s and 10s blocks of a pass, run after the buckets `before`, none of
        whose tasks escaped: each due bucket's tasks run and its stamp moves to
        `now`, until a task's exception escapes. */
    method RunLater(s: Stamps, now: int, next0: Stamps, before: seq<Bucket>,
                    invoked0: seq<(FuncRef, Args)>, reported0: seq<Report>, behave: (FuncRef, Args) -> Call)
      returns (next: Stamps, fired: seq<Bucket>, invoked: seq<(FuncRef, Args)>, reported: seq<Report>, escaped: bool)
      requires !Escapes(TaskList(before, repeatTasks), NoArgs, behave)
      requires invoked0 == Calls(TaskList(before, repeatTasks), NoArgs)
      requires reported0 == Failures(TaskList(before, repeatTasks), NoArgs, behave)
      requires next0.last30s == s.last30s && next0.last10s == s.last10s
      ensures var ran := Ran(TaskList(before + Later(s, now), repeatTasks), NoArgs, behave);
        && invoked == Calls(ran, NoArgs)
        && reported == Failures(ran, NoArgs, behave)
      ensures escaped == Escapes(TaskList(before + Later(s, now), repeatTasks), NoArgs, behave)
      ensures !escaped ==> fired == before + Later(s, now)
      ensures !escaped ==> next == next0.(last30s := Advance(s, now).last30s, last10s := Advance(s, now).last10s)
    {
      BucketsRegroup(before, Block(s, Every30s, now), Block(s, Every10s, now));
      next := next0;
      fired, invoked, reported, escaped := RunBucket(Due(s, Every30s, now), Every30s, before, Block(s, Every10s, now), repeatTasks, invoked0, reported0, behave);
      if escaped {
        return;
      }
      next := if Due(s, Every30s, now) then next0.(last30s := now) else next0;
      next, fired, invoked, reported, escaped := RunLast(s, now, next, fired, invoked, reported, behave);
    }

    /** The 10s block of a pass, run after the buckets `before`, none of whose
        tasks escaped. */
    method RunLast(s: Stamps, now: int, next0: Stamps, before: seq<Bucket>,
                   invoked0: seq<(FuncRef, Args)>, reported0: seq<Report>, behave: (FuncRef, Args) -> Call)
      returns (next: Stamps, fired: seq<Bucket>, invoked: seq<(FuncRef, Args)>, reported: seq<Report>, escaped: bool)
      requires !Escapes(TaskList(before, repeatTasks), NoArgs, behave)
      requires invoked0 == Calls(TaskList(before, repeatTasks), NoArgs)
      requires reported0 == Failures(TaskList(before, repeatTasks), NoArgs, behave)
      requires next0.last10s == s.last10s
      ensures var ran := Ran(TaskList(before + Block(s, Every10s, now), repeatTasks), NoArgs, behave);
        && invoked == Calls(ran, NoArgs)
        && reported == Failures(ran, NoArgs, behave)
      ensures escaped == Escapes(TaskList(before + Block(s, Every10s, now), repeatTasks), NoArgs, behave)
      ensures !escaped ==> fired == before + Block(s, Every10s, now)
      ensures !escaped ==> next == next0.(last10s := Advance(s, now).last10s)
    {
      fired, invoked, reported, escaped := RunBucket(Due(s, Every10s, now), Every10s, before, [], repeatTasks, invoked0, reported0, behave);
      assert fired == fired + [];
      next := if Due(s, Every10s, now) && !escaped then next0.(last10s := now) else next0;
    }

    /** Tick `t` of a run, taken from the stamps the ticks before it left, appended
        to the history of the ticks before it. */
    method TickAt(times: seq<int>, t: nat, stamps: Stamps, fired0: seq<seq<Bucket>>,
                  invoked0: seq<seq<(FuncRef, Args)>>, reported0: seq<seq<Report>>, behave: (FuncRef, Args) -> Call)
      returns (next: Stamps, fired: seq<seq<Bucket>>, invoked: seq<seq<(FuncRef, Args)>>, reported: seq<seq<Report>>,
               escaped: bool)
      requires t < |times| && stamps == StampsAt(times, t)
      requires |fired0| == t == |invoked0| == |reported0|
      requires TicksMatch(times, invoked0, reported0, repeatTasks, behave)
      requires TicksQuiet(times, fired0, repeatTasks, behave)
      ensures |fired| == t + 1 == |invoked| == |reported| && fired[..t] == fired0
      ensures TicksMatch(times, invoked, reported, repeatTasks, behave)
      ensures escaped == Escapes(TickTasks(times, t, repeatTasks), NoArgs, behave)
      ensures !escaped ==> next == StampsAt(times, t + 1) && TicksQuiet(times, fired, repeatTasks, behave)
    {
      var f, inv, rep;
      next, f, inv, rep, escaped := RepeatTick(stamps, times[t], behave);
      TicksMatchExtend(times, invoked0, reported0, inv, rep, repeatTasks, behave);
      if !escaped {
        TicksQuietExtend(times, fired0, f, repeatTasks, behave);
      }
      fired, invoked, reported := fired0 + [f], invoked0 + [inv], reported0 + [rep];
      assert fired[..t] == fired0;
    }

    /** `run_dotcs_repeat_funcs` over the clock readings `times` of its first
        `|times|` ticks: nothing at all when every bucket is empty; otherwise the
        ticks of `RunTicks`. */
    method RunRepeatFuncs(times: seq<int>, behave: (FuncRef, Args) -> Call)
      returns (fired: seq<seq<Bucket>>, invoked: seq<seq<(FuncRef, Args)>>, reported: seq<seq<Report>>, escaped: bool)
      ensures NoTasks() ==> fired == [] && invoked == [] && reported == [] && !escaped
      ensures |fired| == |invoked| == |reported| <= |times|
      ensures !NoTasks() && !escaped ==> |invoked| == |times|
      ensures escaped ==> |invoked| > 0 && Escapes(TickTasks(times, |invoked| - 1, repeatTasks), NoArgs, behave)
      ensures TicksMatch(times, invoked, reported, repeatTasks, behave)
      ensures !escaped ==> TicksQuiet(times, fired, repeatTasks, behave)
      ensures escaped ==> TicksQuiet(times, fired[..|fired| - 1], repeatTasks, behave)
    {
      if TasksOf(Every1m) == [] && TasksOf(Every30s) == [] && TasksOf(Every10s) == [] && TasksOf(Every1s) == [] {
        forall b ensures TasksOf(b) == [] {
          match b {
            case Every1s => case Every10s => case Every30s => case Every1m =>
          }
        }
        return [], [], [], false;
      }
      fired, invoked, reported, escaped := RunTicks(times, behave);
    }

    /** The `while 1` loop over the clock readings `times`: tick `t` fires the
        buckets due against the stamps left by the ticks before it and runs their
        tasks, until a task's exception that is not an `Exception` ends the run. */
    method RunTicks(times: seq<int>, behave: (FuncRef, Args) -> Call)
      returns (fired: seq<seq<Bucket>>, invoked: seq<seq<(FuncRef, Args)>>, reported: seq<seq<Report>>, escaped: bool)
      ensures |fired| == |invoked| == |reported| <= |times|
      ensures !escaped ==> |invoked| == |times|
      ensures escaped ==> |invoked| > 0 && Escapes(TickTasks(times, |invoked| - 1, repeatTasks), NoArgs, behave)
      ensures TicksMatch(times, invoked, reported, repeatTasks, behave)
      ensures !escaped ==> TicksQuiet(times, fired, repeatTasks, behave)
      ensures escaped ==> TicksQuiet(times, fired[..|fired| - 1], repeatTasks, behave)
    {
      fired, invoked, reported := [], [], [];
      var stamps := Start;
      var t := 0;
      while t < |times|
        invariant 0 <= t <= |times|
        invariant stamps == StampsAt(times, t)
        invariant |fired| == t == |invoked| == |reported|
        invariant TicksMatch(times, invoked, reported, repeatTasks, behave)
        invariant TicksQuiet(times, fired, repeatTasks, behave)
      {
        var esc;
        stamps, fired, invoked, reported, esc := TickAt(times, t, stamps, fired, invoked, reported, behave);
        if esc {
          return fired, invoked, reported, true;
        }
        t := t + 1;
      }
      escaped := false;
    }
  }

  /** The 1s bucket's tasks run on every tick, and a failing task never stops the
      tasks after it: every task of every fired bucket is called. */
  lemma TickRunsEveryTask(s: Stamps, now: int, tasks: map<Bucket, seq<Hook>>, h: Hook)
    requires Every1s in tasks && h in tasks[Every1s]
    ensures h in TaskList(Fired(s, now), tasks)
  {
    var f := Fired(s, now);
    assert f[..|f| - 1] + [Every1s] == f;
  }
}
