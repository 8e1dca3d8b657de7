/**
 * Bcsec::Rack.use_in: registers the configured modes with the strategy
 * registry, then appends Bcsec's middleware to a Rack builder in a fixed
 * order, with the modes' own middleware before and after the core stages.
 */
module BcsecRack {
  import opened Wrappers

  /** A middleware entry on the builder. */
  datatype Middleware =
    | Setup(configuration: Configuration)
    | WardenManager
    | Authenticate
    | Logout(path: string)
    | SessionTimer
    | DefaultLogoutResponder(path: string)
      /** middleware that a mode hook or a configuration extension puts on the builder */
    | Extension(name: string)

  /**
   * A mode class as the registry holds it: its key, and the middleware its
   * `prepend_middleware` / `append_middleware` hooks add (None when the class
   * does not define the hook).
   */
  datatype ModeClass = ModeClass(key: string, prependMiddleware: Option<seq<Middleware>>, appendMiddleware: Option<seq<Middleware>>)

  /**
   * The configuration as `use_in` reads it: the interactive mode, the
   * non-interactive modes in declaration order, the registered mode classes,
   * and the middleware installed before and after authentication.
   */
  datatype Configuration = Configuration(
    uiMode: Option<string>,
    apiModes: seq<string>,
    registeredModes: seq<ModeClass>,
    beforeAuthentication: seq<Middleware>,
    afterAuthentication: seq<Middleware>)

  /** Which of the two mode hooks runs. */
  datatype HookSide = Prepend | Append

  const LogoutPath := "/logout"
  const NoConfigurationMessage :=
    "No configuration was provided and there's no global configuration.  Please set one or the other before calling use_in."
  const SessionTimeoutParameter := "session-timeout-seconds"

  /** A Rack builder: the middleware placed so far, in order. */
  class Builder {
    var stack: seq<Middleware>

    constructor ()
      ensures stack == []
    {
      stack := [];
    }

    /** `use`: places one middleware after those already placed. */
    method Use(m: Middleware)
      modifies this
      ensures stack == old(stack) + [m]
    {
      stack := stack + [m];
    }

    /** A hook or `install_middleware` calling `use` once per middleware, in order. */
    method UseAll(ms: seq<Middleware>)
      modifies this
      ensures stack == old(stack) + ms
    {
      stack := stack + ms;
    }
  }

  /** Warden's strategy registry: mode classes by key. */
  class StrategyRegistry {
    var strategies: map<string, ModeClass>

    constructor ()
      ensures strategies == map[]
    {
      strategies := map[];
    }

    /** `Warden::Strategies.add`: a later registration under the same key replaces the earlier one. */
    method Add(key: string, mode: ModeClass)
      modifies this
      ensures strategies == old(strategies)[key := mode]
    {
      strategies := strategies[key := mode];
    }
  }

  /** `Warden::Strategies[key]`: nil for an unknown key. */
  function Lookup(strategies: map<string, ModeClass>, key: Option<string>): (m: Option<ModeClass>)
    ensures m.Some? <==> key.Some? && key.value in strategies
    ensures m.Some? ==> m.value == strategies[key.value]
  {
    if key.Some? && key.value in strategies then Some(strategies[key.value]) else None
  }

  /** The registry after adding each mode under its key, in order. */
  function Installed(strategies: map<string, ModeClass>, modes: seq<ModeClass>): map<string, ModeClass>
    decreases |modes|
  {
    if modes == [] then strategies
    else
      var last := modes[|modes| - 1];
      Installed(strategies, modes[..|modes| - 1])[last.key := last]
  }

  /**
   * After installation every registered key is present and holds the last
   * mode registered under it; keys nobody registered keep their old entry.
   */
  lemma {:induction false} InstalledLookup(strategies: map<string, ModeClass>, modes: seq<ModeClass>, key: string)
    ensures var r := Installed(strategies, modes);
      && (key in r <==> key in strategies || exists i :: 0 <= i < |modes| && modes[i].key == key)
      && (forall i :: 0 <= i < |modes| && modes[i].key == key && (forall j :: i < j < |modes| ==> modes[j].key != key)
            ==> r[key] == modes[i])
      && ((forall i :: 0 <= i < |modes| ==> modes[i].key != key) && key in strategies ==> r[key] == strategies[key])
    decreases |modes|
  {
    if modes != [] {
      var n := |modes| - 1;
      var init := modes[..n];
      InstalledLookup(strategies, init, key);
      assert forall i :: 0 <= i < n ==> init[i] == modes[i];
      if modes[n].key != key {
        if exists i :: 0 <= i < |modes| && modes[i].key == key {
          var i :| 0 <= i < |modes| && modes[i].key == key;
          assert init[i].key == key;
        }
      }
    }
  }

  /** `install_modes`: adds every registered mode to the registry under its key. */
  method InstallModes(registry: StrategyRegistry, configuration: Configuration)
    modifies registry
    ensures registry.strategies == Installed(old(registry.strategies), configuration.registeredModes)
  {
    var modes := configuration.registeredModes;
    var i := 0;
    while i < |modes|
      invariant 0 <= i <= |modes|
      invariant registry.strategies == Installed(old(registry.strategies), modes[..i])
    {
      registry.Add(modes[i].key, modes[i]);
      assert modes[..i + 1][..i] == modes[..i];
      i := i + 1;
    }
    assert modes[..i] == modes;
  }

  /** The keys of the interactive mode and the non-interactive modes, flattened in declaration order. */
  function ModeKeys(configuration: Configuration): (keys: seq<Option<string>>)
    ensures |keys| == 1 + |configuration.apiModes|
    ensures keys[0] == configuration.uiMode
    ensures forall i :: 1 <= i < |keys| ==> keys[i] == Some(configuration.apiModes[i - 1])
  {
    [configuration.uiMode] + seq(|configuration.apiModes|, i requires 0 <= i < |configuration.apiModes| => Some(configuration.apiModes[i]))
  }

  /** `mode_classes`: the registry's class for each mode key, or nothing without a configuration. */
  function ModeClasses(configuration: Option<Configuration>, strategies: map<string, ModeClass>): (classes: seq<Option<ModeClass>>)
    ensures configuration.None? ==> classes == []
    ensures configuration.Some? ==>
      && |classes| == |ModeKeys(configuration.value)|
      && forall i :: 0 <= i < |classes| ==> classes[i] == Lookup(strategies, ModeKeys(configuration.value)[i])
  {
    if configuration.None? then []
    else
      var keys := ModeKeys(configuration.value);
      seq(|keys|, i requires 0 <= i < |keys| => Lookup(strategies, keys[i]))
  }

  /** The middleware one class's hook adds: nothing when the class is unknown or lacks the hook. */
  function HookOf(mode: Option<ModeClass>, side: HookSide): seq<Middleware> {
    if mode.None? then []
    else
      var hook := if side == Prepend then mode.value.prependMiddleware else mode.value.appendMiddleware;
      if hook.Some? then hook.value else []
  }

  /** The middleware the hooks of all classes add, in class order. */
  function Hooks(classes: seq<Option<ModeClass>>, side: HookSide): seq<Middleware>
    decreases |classes|
  {
    if classes == [] then []
    else Hooks(classes[..|classes| - 1], side) + HookOf(classes[|classes| - 1], side)
  }

  /** Hooks run in class order: the hooks of two runs of classes are those of the first, then the second. */
  lemma {:induction false} HooksConcat(a: seq<Option<ModeClass>>, b: seq<Option<ModeClass>>, side: HookSide)
    ensures Hooks(a + b, side) == Hooks(a, side) + Hooks(b, side)
    decreases |b|
  {
    if b == [] {
      assert a + b == a;
    } else {
      var n := |b| - 1;
      assert (a + b)[..|a + b| - 1] == a + b[..n];
      assert (a + b)[|a + b| - 1] == b[n];
      HooksConcat(a, b[..n], side);
    }
  }

  /** Classes that do not define the hook contribute nothing. */
  lemma {:induction false} HooksOnlyFromDefiningClasses(classes: seq<Option<ModeClass>>, side: HookSide)
    requires forall i :: 0 <= i < |classes| ==> HookOf(classes[i], side) == []
    ensures Hooks(classes, side) == []
    decreases |classes|
  {
    if classes != [] {
      var n := |classes| - 1;
      assert forall i :: 0 <= i < n ==> classes[..n][i] == classes[i];
      assert Hooks(classes, side) == Hooks(classes[..n], side) + HookOf(classes[n], side);
      assert HookOf(classes[n], side) == [];
      HooksOnlyFromDefiningClasses(classes[..n], side);
    }
  }

  /** Removing a class that does not define the hook leaves the hooks of the others as they were. */
  lemma HookFreeClassVanishes(a: seq<Option<ModeClass>>, c: Option<ModeClass>, b: seq<Option<ModeClass>>, side: HookSide)
    requires HookOf(c, side) == []
    ensures Hooks(a + [c] + b, side) == Hooks(a + b, side)
  {
    HooksConcat(a + [c], b, side);
    HooksConcat(a, [c], side);
    HooksConcat(a, b, side);
    assert Hooks([c], side) == Hooks([], side) + HookOf(c, side);
  }

  /** `with_mode_middlewares`, one side of its `yield`: runs each class's hook in class order. */
  method WithModeMiddlewares(builder: Builder, classes: seq<Option<ModeClass>>, side: HookSide)
    modifies builder
    ensures builder.stack == old(builder.stack) + Hooks(classes, side)
  {
    var i := 0;
    while i < |classes|
      invariant 0 <= i <= |classes|
      invariant builder.stack == old(builder.stack) + Hooks(classes[..i], side)
    {
      var mode := classes[i];
      if mode.Some? {
        var hook := if side == Prepend then mode.value.prependMiddleware else mode.value.appendMiddleware;
        if hook.Some? {
          builder.UseAll(hook.value);
        }
      }
      assert classes[..i + 1][..i] == classes[..i];
      i := i + 1;
    }
    assert classes[..i] == classes;
  }

  /** `configuration || Bcsec.configuration` */
  function Effective(configuration: Option<Configuration>, global: Option<Configuration>): (e: Option<Configuration>)
    ensures e.None? <==> configuration.None? && global.None?
    ensures configuration.Some? ==> e == configuration
    ensures configuration.None? ==> e == global
  {
    if configuration.Some? then configuration else global
  }

  /** The middleware `use_in` places, given the mode classes its hooks come from. */
  function Stages(configuration: Configuration, classes: seq<Option<ModeClass>>): seq<Middleware> {
    [Setup(configuration)]
    + Hooks(classes, Prepend)
    + configuration.beforeAuthentication
    + [WardenManager, Authenticate]
    + configuration.afterAuthentication
    + [Logout(LogoutPath), SessionTimer]
    + Hooks(classes, Append)
    + [DefaultLogoutResponder(LogoutPath)]
  }

  /**
   * The stage order: Setup first, then the prepend hooks and the
   * before-authentication middleware, the Warden manager immediately followed
   * by Authenticate, the after-authentication middleware, Logout immediately
   * followed by the session timer, the append hooks, and the default logout
   * responder last.
   */
  lemma StackOrder(configuration: Configuration, classes: seq<Option<ModeClass>>)
    ensures var s := Stages(configuration, classes);
      var pre := Hooks(classes, Prepend) + configuration.beforeAuthentication;
      var manager := 1 + |pre|;
      var logout := manager + 2 + |configuration.afterAuthentication|;
      && s[0] == Setup(configuration)
      && s[1..manager] == pre
      && s[manager] == WardenManager && s[manager + 1] == Authenticate
      && s[manager + 2..logout] == configuration.afterAuthentication
      && s[logout] == Logout(LogoutPath) && s[logout + 1] == SessionTimer
      && s[logout + 2..|s| - 1] == Hooks(classes, Append)
      && s[|s| - 1] == DefaultLogoutResponder(LogoutPath)
  {
    StageLayout(Setup(configuration), Hooks(classes, Prepend), configuration.beforeAuthentication,
      WardenManager, Authenticate, configuration.afterAuthentication,
      Logout(LogoutPath), SessionTimer, Hooks(classes, Append), DefaultLogoutResponder(LogoutPath));
  }

  /** Where each part of a ten-part stage list lands. */
  lemma StageLayout<T>(setup: T, prepends: seq<T>, before: seq<T>, manager: T, authenticate: T,
                       after: seq<T>, logout: T, timer: T, appends: seq<T>, responder: T)
    ensures var s := [setup] + prepends + before + [manager, authenticate] + after + [logout, timer] + appends + [responder];
      var m := 1 + |prepends + before|;
      var l := m + 2 + |after|;
      && s[0] == setup
      && s[1..m] == prepends + before
      && s[m] == manager && s[m + 1] == authenticate
      && s[m + 2..l] == after
      && s[l] == logout && s[l + 1] == timer
      && s[l + 2..|s| - 1] == appends
      && s[|s| - 1] == responder
  {
    var x2 := [setup] + prepends + before;
    var x4 := x2 + [manager, authenticate] + after;
    var x6 := x4 + [logout, timer] + appends;
    var s := x6 + [responder];
    assert s[..|x6|] == x6 && s[..|x4|] == x4 && s[..|x2|] == x2;
    assert x2[1..] == prepends + before;
    assert x4[|x2| + 2..] == after;
    assert x6[|x4| + 2..] == appends;
  }

  /**
   * Once a configuration's modes are installed, every mode it declares that
   * it also registers resolves to a class, so its hooks take part.
   */
  lemma {:induction false} DeclaredModesResolve(configuration: Configuration, strategies: map<string, ModeClass>, i: nat)
    requires i < |ModeKeys(configuration)|
    requires var key := ModeKeys(configuration)[i];
      key.Some? && exists j :: 0 <= j < |configuration.registeredModes| && configuration.registeredModes[j].key == key.value
    ensures var classes := ModeClasses(Some(configuration), Installed(strategies, configuration.registeredModes));
      classes[i].Some? && classes[i].value.key == ModeKeys(configuration)[i].value
  {
    var modes := configuration.registeredModes;
    var key := ModeKeys(configuration)[i].value;
    InstalledLookup(strategies, modes, key);
    var r := Installed(strategies, modes);
    var j :| 0 <= j < |modes| && modes[j].key == key;
    LastRegistration(modes, key, j);
  }

  /** Among the modes registered under a key there is a last one. */
  lemma {:induction false} LastRegistration(modes: seq<ModeClass>, key: string, j: nat)
    requires j < |modes| && modes[j].key == key
    ensures exists i :: 0 <= i < |modes| && modes[i].key == key && (forall k :: i < k < |modes| ==> modes[k].key != key)
    decreases |modes| - j
  {
    if exists k :: j < k < |modes| && modes[k].key == key {
      var k :| j < k < |modes| && modes[k].key == key;
      LastRegistration(modes, key, k);
    } else {
      assert forall k :: j < k < |modes| ==> modes[k].key != key;
    }
  }

  /**
   * The stages `use_in` places once the modes are installed: Setup, the
   * prepend hooks, the core stages `with_mode_middlewares` yields to, the
   * append hooks, and the default logout responder.
   */
  method PlaceStages(builder: Builder, configuration: Configuration, classes: seq<Option<ModeClass>>)
    modifies builder
    ensures builder.stack == old(builder.stack) + Stages(configuration, classes)
  {
    ghost var start := builder.stack;
    builder.Use(Setup(configuration));
    WithModeMiddlewares(builder, classes, Prepend);
    builder.UseAll(configuration.beforeAuthentication);
    ghost var pre := [Setup(configuration)] + Hooks(classes, Prepend) + configuration.beforeAuthentication;
    assert builder.stack == start + pre;
    builder.Use(WardenManager);
    builder.Use(Authenticate);
    builder.UseAll(configuration.afterAuthentication);
    builder.Use(Logout(LogoutPath));
    builder.Use(SessionTimer);
    ghost var core := pre + [WardenManager, Authenticate] + configuration.afterAuthentication + [Logout(LogoutPath), SessionTimer];
    assert builder.stack == start + core;
    WithModeMiddlewares(builder, classes, Append);
    builder.Use(DefaultLogoutResponder(LogoutPath));
  }

  /**
   * `use_in`: fails when neither a configuration nor a global one is given;
   * otherwise installs the modes first and then places the stack, resolving
   * mode classes in the registry as installation left it.
   */
  method UseIn(builder: Builder, registry: StrategyRegistry, configuration: Option<Configuration>, global: Option<Configuration>)
    returns (outcome: Outcome<string>)
    modifies builder, registry
    ensures Effective(configuration, global).None? ==>
      && outcome == Fail(NoConfigurationMessage)
      && builder.stack == old(builder.stack)
      && registry.strategies == old(registry.strategies)
    ensures Effective(configuration, global).Some? ==>
      var effective := Effective(configuration, global).value;
      && outcome == Pass
      && registry.strategies == Installed(old(registry.strategies), effective.registeredModes)
      && builder.stack == old(builder.stack) + Stages(effective, ModeClasses(Some(effective), registry.strategies))
  {
    var effective := Effective(configuration, global);
    if effective.None? {
      return Fail(NoConfigurationMessage);
    }
    InstallModes(registry, effective.value);
    // `mode_classes` is evaluated before and after the yield; the registry does not change in between.
    var classes := ModeClasses(effective, registry.strategies);
    PlaceStages(builder, effective.value, classes);
    return Pass;
  }

  /** The default slice: policy parameter `session-timeout-seconds` is 1800. */
  function DefaultPolicyParameters(): (parameters: map<string, int>)
    ensures SessionTimeoutParameter in parameters && parameters[SessionTimeoutParameter] == 1800
  {
    map[SessionTimeoutParameter := 1800]
  }
}
