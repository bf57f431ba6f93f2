/**
 * src/test-suite.ts: the suite name derived from a spec file's relative path,
 * and the test watcher whose routing runs the action's own bucket and then
 * the wildcard bucket.
 */
module TestSuite {
  import opened Wrappers
  import opened Actions
  import opened Watcher

  // ---- Suite names ----

  predicate EndsWith(s: string, suffix: string) {
    |suffix| <= |s| && s[|s| - |suffix|..] == suffix
  }

  /** `.replace(/\\/g, "/")`: every backslash becomes a slash. */
  function Slashes(s: string): (r: string)
    ensures |r| == |s|
    decreases |s|
  {
    if s == [] then [] else [if s[0] == '\\' then '/' else s[0]] + Slashes(s[1..])
  }

  /** `.replace(/\.spec\.ts$/, "")`: the anchored pattern only matches the suffix, once. */
  function StripSpec(s: string): (r: string)
    ensures EndsWith(s, ".spec.ts") ==> s == r + ".spec.ts"
    ensures !EndsWith(s, ".spec.ts") ==> r == s
  {
    if EndsWith(s, ".spec.ts") then s[..|s| - 8] else s
  }

  /** `.replace(/\/index$/, "/")`: a trailing `/index` becomes `/`. */
  function StripIndex(s: string): (r: string)
    ensures EndsWith(s, "/index") ==> s == r + "index" && EndsWith(r, "/")
    ensures !EndsWith(s, "/index") ==> r == s
  {
    if EndsWith(s, "/index") then s[..|s| - 6] + "/" else s
  }

  /** The name a suite is registered under, from its path relative to the source root. */
  function SuiteName(relativePath: string): (name: string)
    ensures |name| <= |relativePath|
  {
    StripIndex(StripSpec(Slashes(relativePath)))
  }

  /** Each character is kept, except a backslash, which becomes a slash. */
  lemma {:induction false} SlashesAt(s: string, i: nat)
    requires i < |s|
    ensures Slashes(s)[i] == if s[i] == '\\' then '/' else s[i]
    decreases |s|
  {
    if i > 0 {
      SlashesAt(s[1..], i - 1);
    }
  }

  lemma {:induction false} SlashesRemovesBackslashes(s: string)
    ensures '\\' !in Slashes(s)
    decreases |s|
  {
    if s != [] {
      SlashesRemovesBackslashes(s[1..]);
    }
  }

  lemma {:induction false} SlashesAppend(a: string, b: string)
    ensures Slashes(a + b) == Slashes(a) + Slashes(b)
    decreases |a|
  {
    if a == [] {
      assert a + b == b;
    } else {
      assert (a + b)[0] == a[0];
      assert (a + b)[1..] == a[1..] + b;
      SlashesAppend(a[1..], b);
    }
  }

  /** The derived name contains no backslash. */
  lemma SuiteNameHasNoBackslash(relativePath: string)
    ensures '\\' !in SuiteName(relativePath)
  {
    var s := Slashes(relativePath);
    SlashesRemovesBackslashes(relativePath);
    var t := StripSpec(s);
    assert forall c :: c in t ==> c in s;
    var u := StripIndex(t);
    assert forall c :: c in u ==> c in t || c == '/';
  }

  /**
   * The name is the slash-converted path with one of four endings removed:
   * nothing, `.spec.ts`, `index` (leaving the slash), or `index.spec.ts`.
   */
  lemma SuiteNameIsPrefix(relativePath: string)
    ensures var s, name := Slashes(relativePath), SuiteName(relativePath);
      || s == name
      || s == name + ".spec.ts"
      || s == name + "index"
      || s == name + "index.spec.ts"
  {
    var s := Slashes(relativePath);
    var t := StripSpec(s);
    var u := StripIndex(t);
    if EndsWith(s, ".spec.ts") {
      if EndsWith(t, "/index") {
        assert s == (u + "index") + ".spec.ts";
      } else {
        assert s == u + ".spec.ts";
      }
    } else {
      assert t == s;
    }
  }

  lemma EndsWithAppend(a: string, b: string)
    ensures EndsWith(a + b, b) && (a + b)[..|a|] == a
  {
    assert (a + b)[|a|..] == b;
  }

  lemma {:induction false} SlashesKeepsPlain(s: string)
    requires '\\' !in s
    ensures Slashes(s) == s
    decreases |s|
  {
    if s != [] {
      assert s[0] in s;
      assert forall c :: c in s[1..] ==> c in s;
      SlashesKeepsPlain(s[1..]);
    }
  }

  /** `.spec.ts` is removed only as a suffix and only once. */
  lemma StripSpecOnce(stem: string)
    ensures StripSpec(stem + ".spec.ts") == stem
    ensures StripSpec(stem + ".spec.ts" + ".spec.ts") == stem + ".spec.ts"
  {
    EndsWithAppend(stem, ".spec.ts");
    EndsWithAppend(stem + ".spec.ts", ".spec.ts");
  }

  lemma SpecTailSplits(d: string)
    ensures d + "/index.spec.ts" == (d + "/index") + ".spec.ts"
  {
  }

  lemma SpecTailIsPlain()
    ensures Slashes("/index.spec.ts") == "/index.spec.ts"
  {
    SlashesKeepsPlain("/index.spec.ts");
  }

  /** `x/index.spec.ts` names the suite `x/`. */
  lemma IndexSpecNamesDirectory(dir: string)
    ensures SuiteName(dir + "/index.spec.ts") == Slashes(dir) + "/"
  {
    SlashesAppend(dir, "/index.spec.ts");
    SpecTailIsPlain();
    var d := Slashes(dir);
    SpecTailSplits(d);
    EndsWithAppend(d + "/index", ".spec.ts");
    EndsWithAppend(d, "/index");
  }

  lemma SourceTailIsPlain()
    ensures Slashes("/index.ts") == "/index.ts"
  {
    SlashesKeepsPlain("/index.ts");
  }

  lemma SourceTailEndings(s: string)
    requires EndsWith(s, "/index.ts")
    ensures !EndsWith(s, ".spec.ts") && !EndsWith(s, "/index")
  {
    var n := |s|;
    assert s[n - 9..][1] == s[n - 8] == 'i';
    assert s[n - 8..][0] == s[n - 8];
    assert s[n - 9..][3] == s[n - 6] == 'd';
    assert s[n - 6..][0] == s[n - 6];
  }

  /** `x/index.ts` is not a spec file: only its slashes change. */
  lemma IndexSourceKeepsName(dir: string)
    ensures SuiteName(dir + "/index.ts") == Slashes(dir) + "/index.ts"
  {
    SlashesAppend(dir, "/index.ts");
    SourceTailIsPlain();
    EndsWithAppend(Slashes(dir), "/index.ts");
    SourceTailEndings(Slashes(dir) + "/index.ts");
  }

  // ---- The test watcher ----

  /** The buckets walked for an action: `[action.type, "_ALL"]`. */
  function SuiteRoute(registry: Registry, action: Action): seq<ReactorId> {
    Route(registry, [action.Type(), ALL])
  }

  /** The action's own reactors in registration order, then the wildcard reactors in registration order. */
  lemma SuiteRouteOrder(registry: Registry, action: Action)
    ensures SuiteRoute(registry, action) == Reactors(registry, action.Type()) + Reactors(registry, ALL)
  {
    RouteTwo(registry, action.Type(), ALL);
  }

  /** A type with no bucket contributes nothing: only the wildcard reactors run. */
  lemma UnregisteredTypeRunsWildcardOnly(registry: Registry, action: Action)
    requires action.Type() !in registry
    ensures SuiteRoute(registry, action) == Reactors(registry, ALL)
  {
    SuiteRouteOrder(registry, action);
  }

  /** An action whose own tag is `_ALL` walks the wildcard bucket twice. */
  lemma WildcardTypedActionRunsWildcardTwice(registry: Registry, action: Action)
    requires action.Type() == ALL
    ensures SuiteRoute(registry, action) == Reactors(registry, ALL) + Reactors(registry, ALL)
  {
    SuiteRouteOrder(registry, action);
  }

  /** The watcher of src/test-suite.ts. */
  class TestWatcher {
    var reactors: Registry
    /** What the overridden `store.dispatch` did, in order. */
    var events: seq<Event>
    /** The routing promise of the last dispatch, cleared once it resolved. */
    var p: Option<Outcome>

    constructor()
      ensures reactors == map[] && events == [] && p == None
    {
      reactors, events, p := map[], [], None;
    }

    /** `on(type, reactor)`, inherited from the watcher. */
    method On(tag: string, reactor: ReactorId)
      modifies this
      ensures reactors == Register(old(reactors), tag, reactor)
      ensures events == old(events) && p == old(p)
    {
      reactors := Register(reactors, tag, reactor);
    }

    /** `routeInternal`: the reactors invoked and how the routing promise settles. */
    method RouteInternal(action: Action, succeeds: Oracle) returns (invoked: seq<ReactorId>, outcome: Outcome)
      ensures invoked == Invoked(SuiteRoute(reactors, action), action, succeeds)
      ensures outcome == Settle(SuiteRoute(reactors, action), action, succeeds)
    {
      invoked, outcome := Walk(reactors, [action.Type(), ALL], action, succeeds);
    }

    /** The overridden `store.dispatch`: the original reducer dispatch first, then routing, whose promise becomes `p`. */
    method StoreDispatch(action: Action, succeeds: Oracle)
      modifies this
      ensures reactors == old(reactors)
      ensures events == old(events) + [Reduced(action)]
        + Trace(Invoked(SuiteRoute(reactors, action), action, succeeds), action)
      ensures events[|old(events)|] == Reduced(action)
      ensures p == Some(Settle(SuiteRoute(reactors, action), action, succeeds))
    {
      events := events + [Reduced(action)];
      var invoked, outcome := RouteInternal(action, succeeds);
      events := events + Trace(invoked, action);
      p := Some(outcome);
    }

    /**
     * `dispatch`: store dispatch, then await `p`, then clear it. A rejected `p`
     * ends the method at the await, so `p` stays set in that case.
     */
    method Dispatch(action: Action, succeeds: Oracle) returns (outcome: Outcome)
      modifies this
      ensures reactors == old(reactors)
      ensures events == old(events) + [Reduced(action)]
        + Trace(Invoked(SuiteRoute(reactors, action), action, succeeds), action)
      ensures outcome == Settle(SuiteRoute(reactors, action), action, succeeds)
      ensures outcome == Resolved ==> p == None
      ensures outcome.Rejected? ==> p == Some(outcome)
    {
      StoreDispatch(action, succeeds);
      outcome := p.value;
      if outcome == Resolved {
        p := None;
      }
    }
  }
}
