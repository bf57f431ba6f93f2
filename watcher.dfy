/**
 * The reactor registry and the routing semantics shared by both test
 * watchers. A reactor is an abstract step known by its id; whether it
 * resolves or throws on a given action is the `succeeds` oracle. Routing
 * awaits each reactor of a plan in turn, so the first one that throws ends
 * the loop and rejects the routing promise.
 */
module Watcher {
  import opened Actions

  type ReactorId = nat

  /** Action type tag to the reactors registered for it, in registration order. */
  type Registry = map<string, seq<ReactorId>>

  /**
   * Whether reactor `r` resolves (true) or throws (false) on action `a`. It is
   * the same for every dispatch, so an outcome cannot depend on store state.
   */
  type Oracle = (ReactorId, Action) -> bool

  /** The wildcard bucket's tag. */
  const ALL: string := "_ALL"

  /** `reactors[type] || []`: the bucket for a tag, empty when nothing is registered. */
  function Reactors(registry: Registry, tag: string): seq<ReactorId> {
    if tag in registry then registry[tag] else []
  }

  /** `watcher.on(tag, reactor)`: append the reactor to the tag's bucket. */
  function Register(registry: Registry, tag: string, reactor: ReactorId): (r: Registry)
    ensures Reactors(r, tag) == Reactors(registry, tag) + [reactor]
    ensures forall t :: t != tag ==> Reactors(r, t) == Reactors(registry, t)
  {
    registry[tag := Reactors(registry, tag) + [reactor]]
  }

  /** The buckets of `tags`, one after the other: what the nested routing loops walk. */
  function Route(registry: Registry, tags: seq<string>): seq<ReactorId>
    decreases |tags|
  {
    if tags == [] then []
    else Route(registry, tags[..|tags| - 1]) + Reactors(registry, tags[|tags| - 1])
  }

  /** What the router and dispatcher record, in order. */
  datatype Event =
    | Reduced(action: Action)                 // handed to the original reducer dispatch
    | Ran(reactor: ReactorId, action: Action) // a reactor was invoked (and awaited)

  /** The settled routing promise. */
  datatype Outcome = Resolved | Rejected(reactor: ReactorId)

  ghost predicate AllSucceed(rs: seq<ReactorId>, action: Action, succeeds: Oracle) {
    forall i :: 0 <= i < |rs| ==> succeeds(rs[i], action)
  }

  /** The reactors of `plan` actually invoked: all of them up to and including the first that throws. */
  function Invoked(plan: seq<ReactorId>, action: Action, succeeds: Oracle): seq<ReactorId>
    decreases |plan|
  {
    if plan == [] then []
    else if succeeds(plan[0], action) then [plan[0]] + Invoked(plan[1..], action, succeeds)
    else [plan[0]]
  }

  /** How the routing promise for `plan` settles. */
  function Settle(plan: seq<ReactorId>, action: Action, succeeds: Oracle): Outcome
    decreases |plan|
  {
    if plan == [] then Resolved
    else if succeeds(plan[0], action) then Settle(plan[1..], action, succeeds)
    else Rejected(plan[0])
  }

  /** The events recorded for invoking `rs` on `action`. */
  function Trace(rs: seq<ReactorId>, action: Action): (t: seq<Event>)
    ensures |t| == |rs|
    ensures forall i :: 0 <= i < |rs| ==> t[i] == Ran(rs[i], action)
    decreases |rs|
  {
    if rs == [] then [] else [Ran(rs[0], action)] + Trace(rs[1..], action)
  }

  /** The bucket list of `a + b` is that of `a` followed by that of `b`. */
  lemma {:induction false} RouteAppend(registry: Registry, a: seq<string>, b: seq<string>)
    ensures Route(registry, a + b) == Route(registry, a) + Route(registry, b)
    decreases |b|
  {
    if b == [] {
      assert a + b == a;
    } else {
      var b' := b[..|b| - 1];
      assert (a + b)[..|a + b| - 1] == a + b';
      assert (a + b)[|a + b| - 1] == b[|b| - 1];
      RouteAppend(registry, a, b');
    }
  }

  lemma RouteOne(registry: Registry, tag: string)
    ensures Route(registry, [tag]) == Reactors(registry, tag)
  {
    assert [tag][..0] == [];
  }

  lemma RouteTwo(registry: Registry, first: string, second: string)
    ensures Route(registry, [first, second]) == Reactors(registry, first) + Reactors(registry, second)
  {
    assert [first, second][..1] == [first];
    RouteOne(registry, first);
  }

  /**
   * The invoked reactors are a prefix of the plan, so each registration runs
   * at most once per routing and never out of order.
   */
  lemma {:induction false} InvokedIsPrefix(plan: seq<ReactorId>, action: Action, succeeds: Oracle)
    ensures |Invoked(plan, action, succeeds)| <= |plan|
    ensures Invoked(plan, action, succeeds) == plan[..|Invoked(plan, action, succeeds)|]
    decreases |plan|
  {
    if plan != [] && succeeds(plan[0], action) {
      var tail := Invoked(plan[1..], action, succeeds);
      InvokedIsPrefix(plan[1..], action, succeeds);
      assert plan[..|tail| + 1] == [plan[0]] + plan[1..][..|tail|];
    }
  }

  /** No reactor is invoked more often than it is registered in the plan. */
  lemma InvokedAtMostOnce(plan: seq<ReactorId>, action: Action, succeeds: Oracle)
    ensures multiset(Invoked(plan, action, succeeds)) <= multiset(plan)
  {
    InvokedIsPrefix(plan, action, succeeds);
    var n := |Invoked(plan, action, succeeds)|;
    assert plan == plan[..n] + plan[n..];
  }

  /** When every reactor resolves, all of them run, in order, and the promise resolves. */
  lemma {:induction false} AllSucceedRunsAll(plan: seq<ReactorId>, action: Action, succeeds: Oracle)
    requires AllSucceed(plan, action, succeeds)
    ensures Invoked(plan, action, succeeds) == plan
    ensures Settle(plan, action, succeeds) == Resolved
    decreases |plan|
  {
    if plan != [] {
      assert succeeds(plan[0], action);
      AllSucceedRunsAll(plan[1..], action, succeeds);
    }
  }

  /**
   * When the reactor at position `k` is the first to throw, the reactors up to
   * and including it run, none after it, and the promise rejects with it.
   */
  lemma {:induction false} FirstFailureStops(plan: seq<ReactorId>, k: nat, action: Action, succeeds: Oracle)
    requires k < |plan|
    requires AllSucceed(plan[..k], action, succeeds)
    requires !succeeds(plan[k], action)
    ensures Invoked(plan, action, succeeds) == plan[..k + 1]
    ensures Settle(plan, action, succeeds) == Rejected(plan[k])
    decreases k
  {
    if k > 0 {
      assert plan[..k][0] == plan[0];
      assert plan[1..][..k - 1] == plan[..k][1..];
      FirstFailureStops(plan[1..], k - 1, action, succeeds);
      assert plan[..k + 1] == [plan[0]] + plan[1..][..k];
    }
  }

  /** The routing promise resolves exactly when every reactor of the plan resolves. */
  lemma {:induction false} ResolvedIffAllSucceed(plan: seq<ReactorId>, action: Action, succeeds: Oracle)
    ensures Settle(plan, action, succeeds) == Resolved <==> AllSucceed(plan, action, succeeds)
    decreases |plan|
  {
    if plan != [] {
      ResolvedIffAllSucceed(plan[1..], action, succeeds);
      if succeeds(plan[0], action) {
        if AllSucceed(plan[1..], action, succeeds) {
          forall i | 0 <= i < |plan| ensures succeeds(plan[i], action) {
            if i > 0 { assert plan[i] == plan[1..][i - 1]; }
          }
        } else {
          var j :| 0 <= j < |plan[1..]| && !succeeds(plan[1..][j], action);
          assert plan[j + 1] == plan[1..][j];
        }
      }
    }
  }

  /**
   * A rejection names the last reactor invoked: it threw, every reactor before
   * it resolved.
   */
  lemma {:induction false} RejectedByLastInvoked(plan: seq<ReactorId>, action: Action, succeeds: Oracle)
    requires Settle(plan, action, succeeds).Rejected?
    ensures var inv := Invoked(plan, action, succeeds);
      && |inv| > 0
      && inv[|inv| - 1] == Settle(plan, action, succeeds).reactor
      && !succeeds(inv[|inv| - 1], action)
      && AllSucceed(inv[..|inv| - 1], action, succeeds)
    decreases |plan|
  {
    if succeeds(plan[0], action) {
      RejectedByLastInvoked(plan[1..], action, succeeds);
      var tail := Invoked(plan[1..], action, succeeds);
      var inv := [plan[0]] + tail;
      assert inv[..|inv| - 1] == [plan[0]] + tail[..|tail| - 1];
    }
  }

  /** Positions inside the middle part of `a + b + c`. */
  lemma MiddleSlices(a: seq<ReactorId>, b: seq<ReactorId>, c: seq<ReactorId>, j: nat)
    requires j < |b|
    ensures (a + b + c)[..|a| + j] == a + b[..j]
    ensures (a + b + c)[|a| + j] == b[j]
    ensures (a + b + c)[..|a| + j + 1] == a + b[..j + 1]
  {
    var whole := a + b + c;
    assert whole[..|a| + j + 1] == a + b[..j + 1] by {
      forall i | 0 <= i < |a| + j + 1 ensures whole[i] == (a + b[..j + 1])[i] {
        if i >= |a| { assert whole[i] == b[i - |a|]; }
      }
    }
    assert whole[..|a| + j] == whole[..|a| + j + 1][..|a| + j];
    assert (a + b[..j + 1])[..|a| + j] == a + b[..j];
  }

  /**
   * If reactor `j` of bucket `t` is the first of the plan to throw, routing
   * stops right after it.
   */
  lemma StopsInBucket(registry: Registry, tags: seq<string>, t: nat, j: nat, action: Action, succeeds: Oracle)
    requires t < |tags| && j < |Reactors(registry, tags[t])|
    requires AllSucceed(Route(registry, tags[..t]) + Reactors(registry, tags[t])[..j], action, succeeds)
    requires !succeeds(Reactors(registry, tags[t])[j], action)
    ensures Invoked(Route(registry, tags), action, succeeds)
      == Route(registry, tags[..t]) + Reactors(registry, tags[t])[..j + 1]
    ensures Settle(Route(registry, tags), action, succeeds) == Rejected(Reactors(registry, tags[t])[j])
  {
    var before, bucket := Route(registry, tags[..t]), Reactors(registry, tags[t]);
    assert tags[..t + 1][..t] == tags[..t];
    assert Route(registry, tags[..t + 1]) == before + bucket;
    assert tags == tags[..t + 1] + tags[t + 1..];
    RouteAppend(registry, tags[..t + 1], tags[t + 1..]);
    var plan := Route(registry, tags);
    var k := |before| + j;
    assert plan == before + bucket + Route(registry, tags[t + 1..]);
    MiddleSlices(before, bucket, Route(registry, tags[t + 1..]), j);
    FirstFailureStops(plan, k, action, succeeds);
  }

  /**
   * The routing loops: for each tag in turn, await each reactor of its bucket
   * in registration order; the first rejection leaves both loops.
   */
  method Walk(registry: Registry, tags: seq<string>, action: Action, succeeds: Oracle)
    returns (invoked: seq<ReactorId>, outcome: Outcome)
    ensures invoked == Invoked(Route(registry, tags), action, succeeds)
    ensures outcome == Settle(Route(registry, tags), action, succeeds)
  {
    ghost var plan := Route(registry, tags);
    invoked := [];
    var t := 0;
    while t < |tags|
      invariant 0 <= t <= |tags|
      invariant invoked == Route(registry, tags[..t])
      invariant AllSucceed(invoked, action, succeeds)
    {
      var bucket := Reactors(registry, tags[t]);
      var j := 0;
      while j < |bucket|
        invariant 0 <= j <= |bucket|
        invariant invoked == Route(registry, tags[..t]) + bucket[..j]
        invariant AllSucceed(invoked, action, succeeds)
      {
        var reactor := bucket[j];
        if !succeeds(reactor, action) {
          StopsInBucket(registry, tags, t, j, action, succeeds);
          invoked := invoked + [reactor];
          assert bucket[..j + 1] == bucket[..j] + [reactor];
          outcome := Rejected(reactor);
          return;
        }
        invoked := invoked + [reactor];
        assert bucket[..j + 1] == bucket[..j] + [reactor];
        j := j + 1;
      }
      assert bucket[..j] == bucket;
      assert tags[..t + 1][..t] == tags[..t];
      t := t + 1;
    }
    assert tags[..t] == tags;
    AllSucceedRunsAll(plan, action, succeeds);
    outcome := Resolved;
  }
}
