/** GeneralDispatcher: the handler-group registry and the dispatch loop. */
module Dispatch {
  import opened Handlers
  import opened Routing
  import opened GroupKeys

  /** handlerMap[g], or the empty slice when `g` is not a key. */
  function GroupOrEmpty(m: map<int, seq<Handler>>, g: int): seq<Handler> {
    if g in m then m[g] else []
  }

  /** Some handler of some group has identity `id`. */
  ghost predicate Registered(m: map<int, seq<Handler>>, id: HandlerId) {
    exists g, j :: g in m && 0 <= j < |m[g]| && m[g][j].id == id
  }

  /** The first index at or after `from` whose handler has identity `id`. */
  function FindInGroup(hs: seq<Handler>, id: HandlerId, from: nat): (r: Option<nat>)
    decreases |hs| - from
    ensures r.Some? ==> from <= r.value < |hs| && hs[r.value].id == id
    ensures r.Some? ==> forall j :: from <= j < r.value ==> hs[j].id != id
    ensures r.None? ==> forall j :: from <= j < |hs| ==> hs[j].id != id
  {
    if from >= |hs| then None
    else if hs[from].id == id then Some(from)
    else FindInGroup(hs, id, from + 1)
  }

  /** The handler RemoveHandler removes when the map is scanned in the order
      `scan`: the first match of the first group, in that order, that has one. */
  function FindHandler(m: map<int, seq<Handler>>, scan: seq<int>, id: HandlerId): (r: Option<(int, nat)>)
    requires InMap(scan, m)
    ensures r.Some? ==> r.value.0 in m && r.value.1 < |m[r.value.0]| && m[r.value.0][r.value.1].id == id
  {
    if scan == [] then None
    else
      assert InMap(scan[1..], m) by {
        assert forall k :: 0 <= k < |scan[1..]| ==> scan[1..][k] == scan[k + 1];
      }
      match FindInGroup(m[scan[0]], id, 0)
      case Some(i) => Some((scan[0], i))
      case None => FindHandler(m, scan[1..], id)
  }

  /** What FindHandler finds: a handler with identity `id` that is the first
      one in its group, in a group such that no group scanned before it has
      such a handler; and it finds nothing only when no scanned group has one. */
  lemma {:induction false} FindHandlerFindsFirst(m: map<int, seq<Handler>>, scan: seq<int>, id: HandlerId)
    requires InMap(scan, m)
    ensures var r := FindHandler(m, scan, id);
            r.Some? ==>
              && r.value.0 in m && r.value.1 < |m[r.value.0]| && m[r.value.0][r.value.1].id == id
              && (forall j :: 0 <= j < r.value.1 ==> m[r.value.0][j].id != id)
              && exists k :: 0 <= k < |scan| && scan[k] == r.value.0 &&
                   forall k', j :: 0 <= k' < k && 0 <= j < |m[scan[k']]| ==> m[scan[k']][j].id != id
    ensures FindHandler(m, scan, id).None? ==>
              forall k, j :: 0 <= k < |scan| && 0 <= j < |m[scan[k]]| ==> m[scan[k]][j].id != id
  {
    if scan != [] {
      var tail := scan[1..];
      assert forall k :: 0 <= k < |tail| ==> tail[k] == scan[k + 1];
      var r := FindHandler(m, scan, id);
      match FindInGroup(m[scan[0]], id, 0)
      case Some(i) =>
        assert r == Some((scan[0], i));
        assert scan[0] == r.value.0;
      case None =>
        FindHandlerFindsFirst(m, tail, id);
        assert r == FindHandler(m, tail, id);
        if r.Some? {
          var k :| 0 <= k < |tail| && tail[k] == r.value.0 &&
                   forall k', j :: 0 <= k' < k && 0 <= j < |m[tail[k']]| ==> m[tail[k']][j].id != id;
          assert scan[k + 1] == r.value.0;
          forall k', j | 0 <= k' < k + 1 && 0 <= j < |m[scan[k']]| ensures m[scan[k']][j].id != id {
            if k' > 0 {
              assert scan[k'] == tail[k' - 1];
            }
          }
        } else {
          forall k, j | 0 <= k < |scan| && 0 <= j < |m[scan[k]]| ensures m[scan[k]][j].id != id {
            if k > 0 {
              assert scan[k] == tail[k - 1];
            }
          }
        }
    }
  }

  /** Scanning from the `k`-th key: the first match in that group, else the
      scan of the keys after it. */
  lemma FindHandlerStep(m: map<int, seq<Handler>>, scan: seq<int>, k: nat, id: HandlerId)
    requires InMap(scan, m) && k < |scan|
    ensures InMap(scan[k..], m) && InMap(scan[k + 1..], m)
    ensures FindHandler(m, scan[k..], id) ==
              match FindInGroup(m[scan[k]], id, 0)
              case Some(i) => Some((scan[k], i))
              case None => FindHandler(m, scan[k + 1..], id)
  {
    assert scan[k..][1..] == scan[k + 1..];
    assert scan[k..][0] == scan[k];
  }

  /** When the scan visits every key, it finds a handler exactly when one is
      registered, whatever the order of the scan. */
  lemma FindHandlerFindsRegistered(m: map<int, seq<Handler>>, scan: seq<int>, id: HandlerId)
    requires Enumerates(scan, m)
    ensures FindHandler(m, scan, id).Some? <==> Registered(m, id)
  {
    var r := FindHandler(m, scan, id);
    FindHandlerFindsFirst(m, scan, id);
    if r.None? {
      forall g, j | g in m && 0 <= j < |m[g]| ensures m[g][j].id != id {
        var k :| 0 <= k < |scan| && scan[k] == g;
      }
    } else {
      assert m[r.value.0][r.value.1].id == id;
    }
  }

  /** The slice after `handlers[i] = handlers[len-1]` and truncation by one. */
  function SwapRemove(s: seq<Handler>, i: nat): (r: seq<Handler>)
    requires i < |s|
    ensures |r| == |s| - 1
    ensures i < |r| ==> r[i] == s[|s| - 1]
    ensures forall j :: 0 <= j < |r| && j != i ==> r[j] == s[j]
  {
    s[i := s[|s| - 1]][..|s| - 1]
  }

  /** The rest of a group after SwapRemove is the old group less the removed
      handler: exactly one occurrence of its identity is gone. */
  lemma SwapRemoveDropsOne(s: seq<Handler>, i: nat, id: HandlerId)
    requires i < |s| && s[i].id == id
    ensures CountId(SwapRemove(s, i), id) + 1 == CountId(s, id)
  {
    var r := SwapRemove(s, i);
    var last := |s| - 1;
    CountIdSplit(s[..last], [s[last]], id);
    assert s == s[..last] + [s[last]];
    if i == last {
      assert r == s[..last];
    } else {
      // r agrees with s[..last] except at i, where r holds s[last]
      assert r == s[..last][i := s[last]];
      CountIdUpdate(s[..last], i, s[last], id);
    }
  }

  /** How many handlers of `s` have identity `id`. */
  function CountId(s: seq<Handler>, id: HandlerId): nat {
    if s == [] then 0 else (if s[0].id == id then 1 else 0) + CountId(s[1..], id)
  }

  lemma {:induction false} CountIdSplit(a: seq<Handler>, b: seq<Handler>, id: HandlerId)
    ensures CountId(a + b, id) == CountId(a, id) + CountId(b, id)
    decreases |a|
  {
    if a != [] {
      assert (a + b)[1..] == a[1..] + b;
      CountIdSplit(a[1..], b, id);
    } else {
      assert a + b == b;
    }
  }

  lemma {:induction false} CountIdUpdate(s: seq<Handler>, i: nat, h: Handler, id: HandlerId)
    requires i < |s|
    ensures CountId(s[i := h], id) + (if s[i].id == id then 1 else 0)
         == CountId(s, id) + (if h.id == id then 1 else 0)
  {
    assert s == s[..i] + [s[i]] + s[i + 1..];
    assert s[i := h] == s[..i] + [h] + s[i + 1..];
    CountIdSplit(s[..i] + [s[i]], s[i + 1..], id);
    CountIdSplit(s[..i], [s[i]], id);
    CountIdSplit(s[..i] + [h], s[i + 1..], id);
    CountIdSplit(s[..i], [h], id);
  }

  /** Regrouping a concatenation. Kept as a lemma so that the fact is used
      only where it is called. */
  lemma AppendAssoc(a: seq<Event>, b: seq<Event>, c: seq<Event>)
    ensures (a + b) + c == a + (b + c)
  {
  }

  /** Bookkeeping of processUpdate for a handler that does not end its
      group: the trace so far plus the dispatch resumed at the next handler
      is still the whole trace. */
  lemma NextHandler(m: map<int, seq<Handler>>, order: seq<int>, k: nat, i: nat, u: Update, rep: Option<ErrorReporter>,
                    before: seq<Event>, step: seq<Event>, trace: seq<Event>, whole: seq<Event>)
    requires InMap(order, m) && k < |order| && i < |m[order[k]]|
    requires !Stops(m[order[k]], i, u)
    requires step == Step(order[k], m[order[k]], i, u, rep)
    requires before + Resume(m, order, k, i, u, rep) == whole
    requires trace == before + step
    ensures trace + Resume(m, order, k, i + 1, u, rep) == whole
  {
    ResumeStep(m, order, k, i, u, rep);
    AppendAssoc(before, step, Resume(m, order, k, i + 1, u, rep));
  }

  class GeneralDispatcher {
    var handlerGroups: seq<int>
    var handlerMap: map<int, seq<Handler>>
    var errorHandler: Option<ErrorReporter>

    /** The key list is sorted and names every group of the map. It may also
        name keys that are no longer in the map, and name a key twice. */
    ghost predicate Valid()
      reads this
    {
      Sorted(handlerGroups) && forall g :: g in handlerMap ==> g in handlerGroups
    }

    constructor NewDispatcher(errorHandler: Option<ErrorReporter>)
      ensures Valid()
      ensures handlerGroups == [] && handlerMap == map[] && this.errorHandler == errorHandler
    {
      handlerGroups := [];
      handlerMap := map[];
      this.errorHandler := errorHandler;
    }

    /** Appends `handler` to group `group`; a key the map does not have is
        also added to the key list, which is then re-sorted. */
    method AddHandlerToGroup(group: int, handler: Handler) returns (id: HandlerId)
      requires Valid()
      modifies this
      ensures Valid()
      ensures id == handler.id
      ensures handlerMap == old(handlerMap)[group := GroupOrEmpty(old(handlerMap), group) + [handler]]
      ensures group in old(handlerMap) ==> handlerGroups == old(handlerGroups)
      ensures group !in old(handlerMap) ==>
                && Sorted(handlerGroups)
                && multiset(handlerGroups) == multiset(old(handlerGroups) + [group])
                && handlerGroups == Insert(old(handlerGroups), group)
      ensures errorHandler == old(errorHandler)
    {
      var handlers: seq<Handler>;
      if group in handlerMap {
        handlers := handlerMap[group];
      } else {
        handlers := [];
        InsertKeepsKeys(handlerGroups, group);
        handlerGroups := Insert(handlerGroups, group);
      }
      handlers := handlers + [handler];
      handlerMap := handlerMap[group := handlers];
      id := handler.id;
    }

    /** AddHandlerToGroup on the default group 0. */
    method AddHandler(handler: Handler) returns (id: HandlerId)
      requires Valid()
      modifies this
      ensures Valid()
      ensures id == handler.id
      ensures handlerMap == old(handlerMap)[0 := GroupOrEmpty(old(handlerMap), 0) + [handler]]
      ensures 0 in old(handlerMap) ==> handlerGroups == old(handlerGroups)
      ensures 0 !in old(handlerMap) ==>
                && Sorted(handlerGroups)
                && multiset(handlerGroups) == multiset(old(handlerGroups) + [0])
                && handlerGroups == Insert(old(handlerGroups), 0)
      ensures errorHandler == old(errorHandler)
    {
      id := AddHandlerToGroup(0, handler);
    }

    /** Deletes the map entry of `group`; the key list is left as it is. */
    method RemoveGroup(group: int)
      requires Valid()
      modifies this
      ensures Valid()
      ensures handlerMap == old(handlerMap) - {group}
      ensures group !in old(handlerMap) ==> handlerMap == old(handlerMap)
      ensures handlerGroups == old(handlerGroups) && errorHandler == old(errorHandler)
    {
      handlerMap := handlerMap - {group};
    }

    /** Removes the first handler with identity `id` met while scanning the
        groups in the order `scan` (the unspecified order of a Go `range` over
        the map), by moving the group's last handler into its slot and
        truncating the group by one. */
    method RemoveHandler(id: HandlerId, scan: seq<int>) returns (found: bool)
      requires Valid()
      requires Enumerates(scan, handlerMap)
      modifies this
      ensures Valid()
      ensures found <==> Registered(old(handlerMap), id)
      ensures found == FindHandler(old(handlerMap), scan, id).Some?
      ensures !found ==> handlerMap == old(handlerMap)
      ensures found ==>
                var at := FindHandler(old(handlerMap), scan, id).value;
                handlerMap == old(handlerMap)[at.0 := SwapRemove(old(handlerMap)[at.0], at.1)]
      ensures handlerMap.Keys == old(handlerMap).Keys
      ensures handlerGroups == old(handlerGroups) && errorHandler == old(errorHandler)
    {
      FindHandlerFindsRegistered(handlerMap, scan, id);
      var gi := 0;
      while gi < |scan|
        invariant 0 <= gi <= |scan|
        invariant handlerMap == old(handlerMap) && handlerGroups == old(handlerGroups)
        invariant errorHandler == old(errorHandler)
        invariant InMap(scan[gi..], handlerMap)
        invariant FindHandler(handlerMap, scan, id) == FindHandler(handlerMap, scan[gi..], id)
      {
        var group := scan[gi];
        var handlers := handlerMap[group];
        FindHandlerStep(handlerMap, scan, gi, id);
        var i := 0;
        while i < |handlers|
          invariant 0 <= i <= |handlers|
          invariant FindInGroup(handlers, id, 0) == FindInGroup(handlers, id, i)
        {
          if handlers[i].id != id {
            i := i + 1;
            continue;
          }
          var rest := handlers[i := handlers[|handlers| - 1]];
          rest := rest[..|rest| - 1];
          handlerMap := handlerMap[group := rest];
          return true;
        }
        gi := gi + 1;
      }
      return false;
    }

    /** processUpdate: dispatches one update, visiting the groups in `order`
        (the unspecified order of a Go `range` over the map). Returns the
        events it causes. */
    method ProcessUpdate(u: Update, order: seq<int>) returns (trace: seq<Event>)
      requires Enumerates(order, handlerMap)
      ensures trace == RouteTrace(handlerMap, order, u, errorHandler)
    {
      var m, rep := handlerMap, errorHandler;
      ghost var whole := RouteTrace(m, order, u, rep);
      trace := [];
      var gi := 0;
      while gi < |order|
        invariant 0 <= gi <= |order|
        invariant InMap(order[gi..], m)
        invariant trace + RouteTrace(m, order[gi..], u, rep) == whole
      {
        var group := order[gi];
        var handlers := m[group];
        ResumeAtGroupStart(m, order, gi, u, rep);
        var i := 0;
        while i < |handlers|
          invariant 0 <= i <= |handlers|
          invariant trace + Resume(m, order, gi, i, u, rep) == whole
        {
          ghost var before := trace;
          ghost var step := Step(group, handlers, i, u, rep);
          var handler := handlers[i];
          if !handler.check(u) {
            trace := trace + [Checked(group, i)];
            NextHandler(m, order, gi, i, u, rep, before, step, trace, whole);
            i := i + 1;
            continue;
          }
          trace := trace + [Checked(group, i), Handled(group, i)];
          match Classify(handler.handle(u))
          case Success =>
            ResumeStep(m, order, gi, i, u, rep);
            break;
          case Skip =>
            ResumeStep(m, order, gi, i, u, rep);
            break;
          case End =>
            ResumeStep(m, order, gi, i, u, rep);
            return;
          case Continue =>
            NextHandler(m, order, gi, i, u, rep, before, step, trace, whole);
            i := i + 1;
          case Other(err) =>
            if rep.Some? {
              trace := trace + [Reported(rep.value, u, err)];
            } else {
              trace := trace + [Printed(err.message)];
            }
            NextHandler(m, order, gi, i, u, rep, before, step, trace, whole);
            i := i + 1;
        }
        ResumeAfterLastHandler(m, order, u, rep, gi);
        gi := gi + 1;
      }
    }

    /** Run: dispatches the updates one after another, in arrival order; the
        n-th update is routed with the group order `orders[n]`. Dispatch does
        not change the registry. */
    method Run(updates: seq<Update>, orders: seq<seq<int>>) returns (traces: seq<seq<Event>>)
      requires |orders| == |updates|
      requires forall n :: 0 <= n < |orders| ==> Enumerates(orders[n], handlerMap)
      ensures |traces| == |updates|
      ensures forall n :: 0 <= n < |updates| ==>
                Enumerates(orders[n], handlerMap) &&
                traces[n] == RouteTrace(handlerMap, orders[n], updates[n], errorHandler)
    {
      traces := [];
      var n := 0;
      while n < |updates|
        invariant 0 <= n <= |updates| && |traces| == n
        invariant forall l :: 0 <= l < n ==>
                    traces[l] == RouteTrace(handlerMap, orders[l], updates[l], errorHandler)
      {
        var trace := ProcessUpdate(updates[n], orders[n]);
        traces := traces + [trace];
        n := n + 1;
      }
    }
  }
}
