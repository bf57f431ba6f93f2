/**
 * src/test.ts: the test watcher whose routing runs only the action's own
 * bucket, whose store dispatch hands the action back, and which can follow an
 * action with a `tick`.
 */
module Test {
  import opened Wrappers
  import opened Actions
  import opened Watcher

  /** The buckets walked for an action: `[action.type]`, no wildcard. */
  function UnitRoute(registry: Registry, action: Action): seq<ReactorId> {
    Route(registry, [action.Type()])
  }

  /** Only the action's own reactors run, in registration order. */
  lemma UnitRouteIsOwnBucket(registry: Registry, action: Action)
    ensures UnitRoute(registry, action) == Reactors(registry, action.Type())
  {
    RouteOne(registry, action.Type());
  }

  /** A type with no bucket runs nothing. */
  lemma UnregisteredTypeRunsNothing(registry: Registry, action: Action, succeeds: Oracle)
    requires action.Type() !in registry
    ensures Invoked(UnitRoute(registry, action), action, succeeds) == []
    ensures Settle(UnitRoute(registry, action), action, succeeds) == Resolved
  {
    UnitRouteIsOwnBucket(registry, action);
  }

  /** The wildcard bucket is never consulted: changing it changes nothing. */
  lemma WildcardIgnored(registry: Registry, action: Action, wildcard: seq<ReactorId>)
    requires action.Type() != ALL
    ensures UnitRoute(registry[ALL := wildcard], action) == UnitRoute(registry, action)
  {
    UnitRouteIsOwnBucket(registry, action);
    UnitRouteIsOwnBucket(registry[ALL := wildcard], action);
  }

  /** The events one `dispatch` records: the reducer step, then the reactors that ran. */
  function DispatchEvents(registry: Registry, action: Action, succeeds: Oracle): seq<Event> {
    [Reduced(action)] + Trace(Invoked(UnitRoute(registry, action), action, succeeds), action)
  }

  /** The watcher of src/test.ts. */
  class TestWatcher {
    var reactors: Registry
    /** What the overridden `store.dispatch` did, in order. */
    var events: seq<Event>
    /** The routing promise of the last dispatch, cleared once it resolved. */
    var p: Option<Outcome>

    constructor()
      ensures reactors == map[] && events == [] && p == None
    {
      reactors, events, p := map[], [], None;
    }

    /** `on(type, reactor)`, inherited from the watcher. */
    method On(tag: string, reactor: ReactorId)
      modifies this
      ensures reactors == Register(old(reactors), tag, reactor)
      ensures events == old(events) && p == old(p)
    {
      reactors := Register(reactors, tag, reactor);
    }

    /** `routeInternal`: the reactors invoked and how the routing promise settles. */
    method RouteInternal(action: Action, succeeds: Oracle) returns (invoked: seq<ReactorId>, outcome: Outcome)
      ensures invoked == Invoked(UnitRoute(reactors, action), action, succeeds)
      ensures outcome == Settle(UnitRoute(reactors, action), action, succeeds)
    {
      invoked, outcome := Walk(reactors, [action.Type()], action, succeeds);
    }

    /**
     * The overridden `store.dispatch`: the original reducer dispatch first,
     * then routing, whose promise becomes `p`; the action itself is returned.
     */
    method StoreDispatch(action: Action, succeeds: Oracle) returns (a: Action)
      modifies this
      ensures a == action
      ensures reactors == old(reactors)
      ensures events == old(events) + DispatchEvents(reactors, action, succeeds)
      ensures events[|old(events)|] == Reduced(action)
      ensures p == Some(Settle(UnitRoute(reactors, action), action, succeeds))
    {
      events := events + [Reduced(action)];
      var invoked, outcome := RouteInternal(action, succeeds);
      events := events + Trace(invoked, action);
      p := Some(outcome);
      a := action;
    }

    /**
     * `dispatch`: store dispatch, then await `p`, then clear it. A rejected `p`
     * ends the method at the await, so `p` stays set in that case.
     */
    method Dispatch(action: Action, succeeds: Oracle) returns (outcome: Outcome)
      modifies this
      ensures reactors == old(reactors)
      ensures events == old(events) + DispatchEvents(reactors, action, succeeds)
      ensures outcome == Settle(UnitRoute(reactors, action), action, succeeds)
      ensures outcome == Resolved ==> p == None
      ensures outcome.Rejected? ==> p == Some(outcome)
    {
      var _ := StoreDispatch(action, succeeds);
      outcome := p.value;
      if outcome == Resolved {
        p := None;
      }
    }

    /**
     * `dispatchAndWaitImmediate`: dispatch the action and, once its routing
     * has resolved, a `tick`. A rejection of the first dispatch propagates
     * before the tick is dispatched. The final wait for `setImmediate` is a
     * scheduler turn and has no effect here.
     */
    method DispatchAndWaitImmediate(action: Action, succeeds: Oracle) returns (outcome: Outcome)
      modifies this
      ensures reactors == old(reactors)
      ensures var first := Settle(UnitRoute(reactors, action), action, succeeds);
        if first == Resolved then
          && events == old(events) + DispatchEvents(reactors, action, succeeds) + DispatchEvents(reactors, Tick, succeeds)
          && outcome == Settle(UnitRoute(reactors, Tick), Tick, succeeds)
        else
          && events == old(events) + DispatchEvents(reactors, action, succeeds)
          && outcome == first
      ensures outcome == Resolved ==> p == None
      ensures outcome.Rejected? ==> p == Some(outcome)
    {
      outcome := Dispatch(action, succeeds);
      if outcome == Resolved {
        outcome := Dispatch(Tick, succeeds);
      }
    }
  }

  /**
   * The log of two dispatches in a row: the reducer step of the first, its
   * reactors, the reducer step of the second, its reactors. The reducer steps
   * sit exactly at the two ends of the first run.
   */
  lemma TwoDispatchesShape(a: Action, rs: seq<ReactorId>, b: Action, ts: seq<ReactorId>)
    ensures var evs := ([Reduced(a)] + Trace(rs, a)) + ([Reduced(b)] + Trace(ts, b));
      var k := 1 + |rs|;
      && |evs| == k + 1 + |ts|
      && evs[0] == Reduced(a)
      && evs[k] == Reduced(b)
      && (forall i :: 0 < i < k ==> evs[i] == Ran(rs[i - 1], a))
      && (forall i :: 0 <= i < |evs| && evs[i].Reduced? ==> i == 0 || i == k)
  {
    var t1, t2 := Trace(rs, a), Trace(ts, b);
    var evs := ([Reduced(a)] + t1) + ([Reduced(b)] + t2);
    var k := 1 + |rs|;
    forall i | 0 < i < k ensures evs[i] == t1[i - 1] {
    }
    forall i | k < i < |evs| ensures evs[i] == t2[i - k - 1] {
    }
  }

  /**
   * The reducer sees exactly two actions in a successful
   * `dispatchAndWaitImmediate`: the given one, then `tick`, and every
   * reactor run for the first comes before the `tick` reaches the reducer.
   */
  lemma TickFollowsSettledRouting(registry: Registry, action: Action, succeeds: Oracle)
    requires Settle(UnitRoute(registry, action), action, succeeds) == Resolved
    ensures var evs := DispatchEvents(registry, action, succeeds) + DispatchEvents(registry, Tick, succeeds);
      var k := 1 + |Reactors(registry, action.Type())|;
      && evs[0] == Reduced(action)
      && |evs| > k
      && evs[k] == Reduced(Tick)
      && (forall i :: 0 < i < k ==> evs[i] == Ran(Reactors(registry, action.Type())[i - 1], action))
      && (forall i :: 0 <= i < |evs| && evs[i].Reduced? ==> i == 0 || i == k)
  {
    var plan := UnitRoute(registry, action);
    UnitRouteIsOwnBucket(registry, action);
    ResolvedIffAllSucceed(plan, action, succeeds);
    AllSucceedRunsAll(plan, action, succeeds);
    var ticks := Invoked(UnitRoute(registry, Tick), Tick, succeeds);
    TwoDispatchesShape(action, plan, Tick, ticks);
    assert DispatchEvents(registry, action, succeeds) == [Reduced(action)] + Trace(plan, action);
  }
}
