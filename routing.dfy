/** The routing algorithm of processUpdate as a pure reference definition:
    the trace of events that dispatching one update produces, for a given
    enumeration of the handler groups, and what that trace guarantees. */
module Routing {
  import opened Handlers

  /** Every group key named by `order` has a handler slice in `m`. */
  predicate InMap(order: seq<int>, m: map<int, seq<Handler>>) {
    forall j :: 0 <= j < |order| ==> order[j] in m
  }

  predicate Distinct(order: seq<int>) {
    forall j, l :: 0 <= j < l < |order| ==> order[j] != order[l]
  }

  /** `order` lists every key of `m` exactly once: one of the orders in
      which a Go `range` over the map may visit its keys. */
  predicate Enumerates(order: seq<int>, m: map<int, seq<Handler>>) {
    && Distinct(order)
    && InMap(order, m)
    && (forall g :: g in m ==> g in order)
  }

  /** The events of one group from handler `i` on, and whether a handler
      returned EndGroups there. */
  datatype GroupRun = GroupRun(events: seq<Event>, halted: bool)

  function Prepend(pre: seq<Event>, r: GroupRun): GroupRun {
    GroupRun(pre + r.events, r.halted)
  }

  /** The inner loop of processUpdate on group `g`, from handler `i` on. */
  function RunGroup(g: int, hs: seq<Handler>, i: nat, u: Update, rep: Option<ErrorReporter>): (r: GroupRun)
    decreases |hs| - i
  {
    if i >= |hs| then GroupRun([], false)
    else if !hs[i].check(u) then Prepend([Checked(g, i)], RunGroup(g, hs, i + 1, u, rep))
    else match Classify(hs[i].handle(u))
      case Success => GroupRun([Checked(g, i), Handled(g, i)], false)
      case Skip => GroupRun([Checked(g, i), Handled(g, i)], false)
      case End => GroupRun([Checked(g, i), Handled(g, i)], true)
      case Continue => Prepend([Checked(g, i), Handled(g, i)], RunGroup(g, hs, i + 1, u, rep))
      case Other(err) =>
        Prepend([Checked(g, i), Handled(g, i), ReportEvent(rep, u, err)], RunGroup(g, hs, i + 1, u, rep))
  }

  /** The whole of processUpdate for one update, visiting the groups in `order`. */
  function RouteTrace(m: map<int, seq<Handler>>, order: seq<int>, u: Update, rep: Option<ErrorReporter>): (t: seq<Event>)
    requires InMap(order, m)
  {
    if order == [] then []
    else
      var r := RunGroup(order[0], m[order[0]], 0, u, rep);
      if r.halted then r.events else r.events + RouteTrace(m, order[1..], u, rep)
  }

  /** What is left of the trace once handler `i` of the `k`-th visited group
      is about to be examined. */
  function Resume(m: map<int, seq<Handler>>, order: seq<int>, k: nat, i: nat, u: Update, rep: Option<ErrorReporter>): seq<Event>
    requires InMap(order, m) && k < |order|
  {
    var r := RunGroup(order[k], m[order[k]], i, u, rep);
    r.events + if r.halted then [] else RouteTrace(m, order[k + 1..], u, rep)
  }

  /** A Checked or Handled event names a handler that is registered. */
  predicate NamesRegistered(e: Event, m: map<int, seq<Handler>>, order: seq<int>) {
    (e.Checked? || e.Handled?) ==> e.group in order && e.group in m && e.index < |m[e.group]|
  }

  /** The event at position `q` of `t` is accounted for by its predecessor:
      HandleUpdate only runs right after CheckUpdate accepted the update, and
      a report only follows a HandleUpdate whose error wraps no sentinel, and
      goes to the configured sink. */
  predicate Explained(m: map<int, seq<Handler>>, u: Update, rep: Option<ErrorReporter>, t: seq<Event>, q: nat)
    requires q < |t|
  {
    match t[q]
    case Checked(g, j) => g in m && j < |m[g]|
    case Handled(g, j) =>
      q > 0 && t[q - 1] == Checked(g, j) && g in m && j < |m[g]| && m[g][j].check(u)
    case _ =>
      && q > 0 && t[q - 1].Handled?
      && t[q - 1].group in m && t[q - 1].index < |m[t[q - 1].group]|
      && var o := Classify(m[t[q - 1].group][t[q - 1].index].handle(u));
      && o.Other? && t[q] == ReportEvent(rep, u, o.err)
  }

  // ---------------------------------------------------------------------
  // Facts about one group

  /** The events of examining handler `i` alone. */
  function Step(g: int, hs: seq<Handler>, i: nat, u: Update, rep: Option<ErrorReporter>): seq<Event>
    requires i < |hs|
  {
    if !hs[i].check(u) then [Checked(g, i)]
    else match Classify(hs[i].handle(u))
      case Other(err) => [Checked(g, i), Handled(g, i), ReportEvent(rep, u, err)]
      case _ => [Checked(g, i), Handled(g, i)]
  }

  /** Examining handler `i` ends its group: it matched and returned nil,
      SkipCurrentGroup or EndGroups. */
  predicate Stops(hs: seq<Handler>, i: nat, u: Update)
    requires i < |hs|
  {
    hs[i].check(u) && var o := Classify(hs[i].handle(u)); o.Success? || o.Skip? || o.End?
  }

  /** RunGroup is the events of one handler after another, until one of them
      stops the group; only the first event of a step is a CheckUpdate call. */
  lemma RunGroupStep(g: int, hs: seq<Handler>, i: nat, u: Update, rep: Option<ErrorReporter>)
    requires i < |hs|
    ensures RunGroup(g, hs, i, u, rep) ==
              if Stops(hs, i, u) then GroupRun(Step(g, hs, i, u, rep), Classify(hs[i].handle(u)).End?)
              else Prepend(Step(g, hs, i, u, rep), RunGroup(g, hs, i + 1, u, rep))
    ensures var st := Step(g, hs, i, u, rep);
            && 1 <= |st| <= 3 && st[0] == Checked(g, i)
            && (forall l :: 1 <= l < |st| ==> !st[l].Checked?)
            && (forall l :: 0 <= l < |st| && st[l].Handled? ==> st[l] == Handled(g, i))
  {
  }

  lemma {:induction false} GroupEventsNamed(g: int, hs: seq<Handler>, i: nat, u: Update, rep: Option<ErrorReporter>)
    ensures var e := RunGroup(g, hs, i, u, rep).events;
            forall q :: 0 <= q < |e| && (e[q].Checked? || e[q].Handled?) ==>
              e[q].group == g && i <= e[q].index < |hs|
    decreases |hs| - i
  {
    if i < |hs| {
      RunGroupStep(g, hs, i, u, rep);
      GroupEventsNamed(g, hs, i + 1, u, rep);
      var e := RunGroup(g, hs, i, u, rep).events;
      var st := Step(g, hs, i, u, rep);
      var next := RunGroup(g, hs, i + 1, u, rep).events;
      forall q | 0 <= q < |e| && (e[q].Checked? || e[q].Handled?)
        ensures e[q].group == g && i <= e[q].index < |hs|
      {
        if q < |st| {
          assert e[q] == st[q];
        } else {
          assert e == st + next;
          assert e[q] == next[q - |st|];
        }
      }
    }
  }

  lemma {:induction false} GroupCheckedResumes(g: int, hs: seq<Handler>, i: nat, u: Update, rep: Option<ErrorReporter>, q: nat, j: nat)
    requires q < |RunGroup(g, hs, i, u, rep).events|
    requires RunGroup(g, hs, i, u, rep).events[q] == Checked(g, j)
    ensures RunGroup(g, hs, i, u, rep).events[q..] == RunGroup(g, hs, j, u, rep).events
    ensures RunGroup(g, hs, i, u, rep).halted == RunGroup(g, hs, j, u, rep).halted
    decreases |hs| - i
  {
    var r := RunGroup(g, hs, i, u, rep);
    RunGroupStep(g, hs, i, u, rep);
    var st := Step(g, hs, i, u, rep);
    if q < |st| {
      assert r.events[q] == st[q];
      assert q == 0 && j == i;
      assert r.events[0..] == r.events;
    } else {
      var next := RunGroup(g, hs, i + 1, u, rep);
      assert !Stops(hs, i, u);
      assert r.events == st + next.events && r.halted == next.halted;
      var q' := q - |st|;
      assert next.events[q'] == Checked(g, j);
      GroupCheckedResumes(g, hs, i + 1, u, rep, q', j);
      assert r.events[q..] == next.events[q'..];
    }
  }

  lemma {:induction false} ExplainedInPrefix(m: map<int, seq<Handler>>, u: Update, rep: Option<ErrorReporter>, a: seq<Event>, b: seq<Event>, q: nat)
    requires q < |a| && Explained(m, u, rep, a, q)
    ensures Explained(m, u, rep, a + b, q)
  {
    assert (a + b)[q] == a[q];
    if q > 0 {
      assert (a + b)[q - 1] == a[q - 1];
    }
  }

  lemma {:induction false} ExplainedInSuffix(m: map<int, seq<Handler>>, u: Update, rep: Option<ErrorReporter>, a: seq<Event>, b: seq<Event>, q: nat)
    requires q < |b| && Explained(m, u, rep, b, q)
    ensures Explained(m, u, rep, a + b, |a| + q)
  {
    assert (a + b)[|a| + q] == b[q];
    if q > 0 {
      assert (a + b)[|a| + q - 1] == b[q - 1];
    }
  }

  lemma StepExplained(m: map<int, seq<Handler>>, g: int, i: nat, u: Update, rep: Option<ErrorReporter>, tail: seq<Event>, q: nat)
    requires g in m && i < |m[g]| && q < |Step(g, m[g], i, u, rep)|
    ensures Explained(m, u, rep, Step(g, m[g], i, u, rep) + tail, q)
  {
    var t := Step(g, m[g], i, u, rep) + tail;
    assert t[0] == Checked(g, i);
    if q > 0 {
      assert t[1] == Handled(g, i) && m[g][i].check(u);
    }
  }

  lemma {:induction false} GroupExplained(m: map<int, seq<Handler>>, g: int, i: nat, u: Update, rep: Option<ErrorReporter>)
    requires g in m
    ensures var e := RunGroup(g, m[g], i, u, rep).events;
            forall q :: 0 <= q < |e| ==> Explained(m, u, rep, e, q)
    decreases |m[g]| - i
  {
    var hs := m[g];
    if i < |hs| {
      var e := RunGroup(g, hs, i, u, rep).events;
      var st := Step(g, hs, i, u, rep);
      var next := RunGroup(g, hs, i + 1, u, rep).events;
      RunGroupStep(g, hs, i, u, rep);
      GroupExplained(m, g, i + 1, u, rep);
      var tail := if Stops(hs, i, u) then [] else next;
      assert e == st + tail;
      forall q | 0 <= q < |e| ensures Explained(m, u, rep, e, q) {
        if q < |st| {
          StepExplained(m, g, i, u, rep, tail, q);
        } else {
          ExplainedInSuffix(m, u, rep, st, next, q - |st|);
        }
      }
    }
  }

  // ---------------------------------------------------------------------
  // Facts about the whole trace of one update

  /** RouteTrace is the events of the first visited group followed, unless
      that group ended with EndGroups, by the routing of the other groups. */
  lemma RouteTraceStep(m: map<int, seq<Handler>>, order: seq<int>, u: Update, rep: Option<ErrorReporter>)
    requires InMap(order, m) && order != []
    ensures InMap(order[1..], m)
    ensures var r := RunGroup(order[0], m[order[0]], 0, u, rep);
            RouteTrace(m, order, u, rep) ==
              r.events + if r.halted then [] else RouteTrace(m, order[1..], u, rep)
  {
    assert forall j :: 0 <= j < |order| - 1 ==> order[1..][j] == order[j + 1];
  }

  /** Dispatch only ever examines handlers that are registered, in groups of
      the enumeration: a handler that is not in the map is never consulted. */
  lemma {:induction false} RouteEventsNamed(m: map<int, seq<Handler>>, order: seq<int>, u: Update, rep: Option<ErrorReporter>)
    requires InMap(order, m)
    ensures var t := RouteTrace(m, order, u, rep);
            forall q :: 0 <= q < |t| ==> NamesRegistered(t[q], m, order)
  {
    if order != [] {
      var t := RouteTrace(m, order, u, rep);
      var r := RunGroup(order[0], m[order[0]], 0, u, rep);
      RouteTraceStep(m, order, u, rep);
      GroupEventsNamed(order[0], m[order[0]], 0, u, rep);
      RouteEventsNamed(m, order[1..], u, rep);
      var rest := RouteTrace(m, order[1..], u, rep);
      var tail := if r.halted then [] else rest;
      assert t == r.events + tail;
      forall q | 0 <= q < |t| ensures NamesRegistered(t[q], m, order) {
        if q < |r.events| {
          assert t[q] == r.events[q];
          assert order[0] in order;
        } else {
          var q' := q - |r.events|;
          assert t[q] == rest[q'];
          assert NamesRegistered(rest[q'], m, order[1..]);
          if rest[q'].Checked? || rest[q'].Handled? {
            assert rest[q'].group in order[1..];
            assert rest[q'].group in order;
          }
        }
      }
    }
  }

  /** One event of the trace, as RouteEventsNamed states for all of them. */
  lemma RouteEventNamed(m: map<int, seq<Handler>>, order: seq<int>, u: Update, rep: Option<ErrorReporter>, q: nat)
    requires InMap(order, m) && q < |RouteTrace(m, order, u, rep)|
    ensures NamesRegistered(RouteTrace(m, order, u, rep)[q], m, order)
  {
    RouteEventsNamed(m, order, u, rep);
  }

  /** Every event of the trace is accounted for by the one before it (see
      Explained). In particular a handler whose CheckUpdate is false is never
      handed the update, and every report follows the HandleUpdate call whose
      error it carries. */
  lemma {:induction false} RouteExplained(m: map<int, seq<Handler>>, order: seq<int>, u: Update, rep: Option<ErrorReporter>)
    requires InMap(order, m)
    ensures var t := RouteTrace(m, order, u, rep);
            forall q :: 0 <= q < |t| ==> Explained(m, u, rep, t, q)
  {
    if order != [] {
      var t := RouteTrace(m, order, u, rep);
      var r := RunGroup(order[0], m[order[0]], 0, u, rep);
      RouteTraceStep(m, order, u, rep);
      GroupExplained(m, order[0], 0, u, rep);
      RouteExplained(m, order[1..], u, rep);
      var rest := RouteTrace(m, order[1..], u, rep);
      var tail := if r.halted then [] else rest;
      assert t == r.events + tail;
      forall q | 0 <= q < |t| ensures Explained(m, u, rep, t, q) {
        if q < |r.events| {
          ExplainedInPrefix(m, u, rep, r.events, tail, q);
        } else {
          ExplainedInSuffix(m, u, rep, r.events, rest, q - |r.events|);
        }
      }
    }
  }

  /** A handler whose CheckUpdate rejects the update never has HandleUpdate
      called on it, and HandleUpdate always comes right after CheckUpdate. */
  lemma HandledOnlyIfMatched(m: map<int, seq<Handler>>, order: seq<int>, u: Update, rep: Option<ErrorReporter>, q: nat)
    requires InMap(order, m)
    requires q < |RouteTrace(m, order, u, rep)| && RouteTrace(m, order, u, rep)[q].Handled?
    ensures var e := RouteTrace(m, order, u, rep)[q];
            && e.group in m && e.index < |m[e.group]| && m[e.group][e.index].check(u)
            && 0 < q && RouteTrace(m, order, u, rep)[q - 1] == Checked(e.group, e.index)
  {
    RouteExplained(m, order, u, rep);
    assert Explained(m, u, rep, RouteTrace(m, order, u, rep), q);
  }

  /** Every report, to ErrorHandler or to the default sink, comes right after
      the HandleUpdate call that returned its error; that error wraps no
      sentinel, so sentinels never reach the error handler; and the report goes
      to ErrorHandler exactly when one is configured. */
  lemma ReportFollowsFailure(m: map<int, seq<Handler>>, order: seq<int>, u: Update, rep: Option<ErrorReporter>, q: nat)
    requires InMap(order, m)
    requires q < |RouteTrace(m, order, u, rep)|
    requires RouteTrace(m, order, u, rep)[q].Reported? || RouteTrace(m, order, u, rep)[q].Printed?
    ensures var t := RouteTrace(m, order, u, rep);
            && 0 < q && t[q - 1].Handled? && t[q - 1].group in m && t[q - 1].index < |m[t[q - 1].group]|
            && var result := m[t[q - 1].group][t[q - 1].index].handle(u);
            && result.Some? && result.value.wraps == {}
            && t[q] == ReportEvent(rep, u, result.value)
            && (t[q].Reported? <==> rep.Some?)
  {
    RouteExplained(m, order, u, rep);
    assert Explained(m, u, rep, RouteTrace(m, order, u, rep), q);
  }

  /** The central fact: once handler `i` of the `k`-th visited group is
      examined, the rest of the trace is the routing that resumes there. */
  lemma {:induction false} CheckedResumes(m: map<int, seq<Handler>>, order: seq<int>, u: Update, rep: Option<ErrorReporter>, k: nat, i: nat, p: nat)
    requires InMap(order, m) && Distinct(order) && k < |order|
    requires p < |RouteTrace(m, order, u, rep)| && RouteTrace(m, order, u, rep)[p] == Checked(order[k], i)
    ensures RouteTrace(m, order, u, rep)[p..] == Resume(m, order, k, i, u, rep)
  {
    var r := RunGroup(order[0], m[order[0]], 0, u, rep);
    RouteTraceStep(m, order, u, rep);
    if p < |r.events| {
      CheckedInFirstGroup(m, order, u, rep, i, p);
      assert k == 0;
    } else {
      var p' := p - |r.events|;
      CheckedInLaterGroup(m, order, u, rep, k, i, p);
      CheckedResumes(m, order[1..], u, rep, k - 1, i, p');
      ResumeShift(m, order, k, i, u, rep);
    }
  }

  /** A CheckUpdate call within the first group's events: it is on that group,
      and the trace from there on is the dispatch resumed at that handler. */
  lemma CheckedInFirstGroup(m: map<int, seq<Handler>>, order: seq<int>, u: Update, rep: Option<ErrorReporter>, i: nat, p: nat)
    requires InMap(order, m) && order != []
    requires p < |RunGroup(order[0], m[order[0]], 0, u, rep).events|
    requires p < |RouteTrace(m, order, u, rep)| && RouteTrace(m, order, u, rep)[p].Checked?
    requires RouteTrace(m, order, u, rep)[p].index == i
    ensures RouteTrace(m, order, u, rep)[p].group == order[0]
    ensures RouteTrace(m, order, u, rep)[p..] == Resume(m, order, 0, i, u, rep)
  {
    var t := RouteTrace(m, order, u, rep);
    var r := RunGroup(order[0], m[order[0]], 0, u, rep);
    RouteTraceStep(m, order, u, rep);
    var tail := if r.halted then [] else RouteTrace(m, order[1..], u, rep);
    assert t == r.events + tail;
    assert r.events[p] == t[p];
    GroupEventsNamed(order[0], m[order[0]], 0, u, rep);
    GroupCheckedResumes(order[0], m[order[0]], 0, u, rep, p, i);
    assert t[p..] == r.events[p..] + tail;
  }

  /** A CheckUpdate call after the first group's events: the first group did
      not halt, the call is on a later group, and it sits in the trace of the
      remaining groups. */
  lemma CheckedInLaterGroup(m: map<int, seq<Handler>>, order: seq<int>, u: Update, rep: Option<ErrorReporter>, k: nat, i: nat, p: nat)
    requires InMap(order, m) && Distinct(order) && k < |order|
    requires |RunGroup(order[0], m[order[0]], 0, u, rep).events| <= p < |RouteTrace(m, order, u, rep)|
    requires RouteTrace(m, order, u, rep)[p] == Checked(order[k], i)
    ensures InMap(order[1..], m) && Distinct(order[1..]) && 0 < k
    ensures var r := RunGroup(order[0], m[order[0]], 0, u, rep);
            var rest := RouteTrace(m, order[1..], u, rep);
            && !r.halted
            && p - |r.events| < |rest| && rest[p - |r.events|] == Checked(order[1..][k - 1], i)
            && RouteTrace(m, order, u, rep)[p..] == rest[p - |r.events|..]
  {
    var t := RouteTrace(m, order, u, rep);
    var r := RunGroup(order[0], m[order[0]], 0, u, rep);
    RouteTraceStep(m, order, u, rep);
    var rest := RouteTrace(m, order[1..], u, rep);
    var tail := if r.halted then [] else rest;
    assert t == r.events + tail;
    assert !r.halted;
    var p' := p - |r.events|;
    assert rest[p'] == t[p];
    RouteEventNamed(m, order[1..], u, rep, p');
    assert order[k] in order[1..];
    assert k != 0;
    assert order[1..][k - 1] == order[k];
    assert t[p..] == rest[p'..];
  }

  /** Resuming in the k-th group is the same whether or not the first group
      is dropped from the enumeration. */
  lemma ResumeShift(m: map<int, seq<Handler>>, order: seq<int>, k: nat, i: nat, u: Update, rep: Option<ErrorReporter>)
    requires InMap(order, m) && 0 < k < |order|
    ensures InMap(order[1..], m)
    ensures Resume(m, order[1..], k - 1, i, u, rep) == Resume(m, order, k, i, u, rep)
  {
    assert forall j :: 0 <= j < |order| - 1 ==> order[1..][j] == order[j + 1];
    assert order[1..][k - 1] == order[k];
    assert order[1..][k - 1 + 1..] == order[k + 1..];
  }

  /** The routing of one update starts with the first handler of the first
      visited group. */
  lemma RouteStartsAtFirstGroup(m: map<int, seq<Handler>>, order: seq<int>, u: Update, rep: Option<ErrorReporter>)
    requires InMap(order, m) && order != []
    ensures RouteTrace(m, order, u, rep) == Resume(m, order, 0, 0, u, rep)
  {
    assert order[0 + 1..] == order[1..];
  }

  /** Dispatch from the `k`-th visited group on is the routing that resumes
      at that group's first handler. */
  lemma ResumeAtGroupStart(m: map<int, seq<Handler>>, order: seq<int>, k: nat, u: Update, rep: Option<ErrorReporter>)
    requires InMap(order, m) && k < |order|
    ensures InMap(order[k..], m)
    ensures RouteTrace(m, order[k..], u, rep) == Resume(m, order, k, 0, u, rep)
  {
    var from := order[k..];
    assert forall j :: 0 <= j < |from| ==> from[j] == order[k + j];
    assert from[1..] == order[k + 1..];
  }

  /** Resuming at handler `i`: the events of that handler, then either the
      next handler of the group, the next group, or nothing (after EndGroups). */
  lemma ResumeStep(m: map<int, seq<Handler>>, order: seq<int>, k: nat, i: nat, u: Update, rep: Option<ErrorReporter>)
    requires InMap(order, m) && k < |order| && i < |m[order[k]]|
    ensures InMap(order[k + 1..], m)
    ensures Resume(m, order, k, i, u, rep) ==
              Step(order[k], m[order[k]], i, u, rep) +
              if !Stops(m[order[k]], i, u) then Resume(m, order, k, i + 1, u, rep)
              else if Classify(m[order[k]][i].handle(u)).End? then []
              else RouteTrace(m, order[k + 1..], u, rep)
  {
    var g, hs := order[k], m[order[k]];
    var later := order[k + 1..];
    assert InMap(later, m) by {
      assert forall j :: 0 <= j < |later| ==> later[j] == order[k + 1 + j];
    }
    RunGroupStep(g, hs, i, u, rep);
    var st := Step(g, hs, i, u, rep);
    if !Stops(hs, i, u) {
      var r' := RunGroup(g, hs, i + 1, u, rep);
      var tail := if r'.halted then [] else RouteTrace(m, later, u, rep);
      assert Resume(m, order, k, i, u, rep) == (st + r'.events) + tail;
      assert Resume(m, order, k, i + 1, u, rep) == r'.events + tail;
      assert (st + r'.events) + tail == st + (r'.events + tail);
    }
  }

  /** Handler `i` of a group, when there is one, starts with its CheckUpdate call. */
  lemma ResumeStartsChecked(m: map<int, seq<Handler>>, order: seq<int>, k: nat, i: nat, u: Update, rep: Option<ErrorReporter>)
    requires InMap(order, m) && k < |order| && i < |m[order[k]]|
    ensures |Resume(m, order, k, i, u, rep)| > 0 && Resume(m, order, k, i, u, rep)[0] == Checked(order[k], i)
  {
    RunGroupStep(order[k], m[order[k]], i, u, rep);
  }

  /** No group of the enumeration after the `k`-th contains group order[k]. */
  lemma LaterGroupsDiffer(m: map<int, seq<Handler>>, order: seq<int>, u: Update, rep: Option<ErrorReporter>, k: nat)
    requires InMap(order, m) && Distinct(order) && k < |order|
    ensures InMap(order[k + 1..], m)
    ensures var t := RouteTrace(m, order[k + 1..], u, rep);
            forall q :: 0 <= q < |t| && (t[q].Checked? || t[q].Handled?) ==> t[q].group != order[k]
  {
    var later := order[k + 1..];
    assert forall j :: 0 <= j < |later| ==> later[j] == order[k + 1 + j];
    var t := RouteTrace(m, later, u, rep);
    forall q | 0 <= q < |t| && (t[q].Checked? || t[q].Handled?) ensures t[q].group != order[k] {
      RouteEventNamed(m, later, u, rep, q);
      var j :| 0 <= j < |later| && later[j] == t[q].group;
      assert order[k + 1 + j] == t[q].group;
    }
  }

  /** A handler that does not match is passed over: HandleUpdate is not called
      and the next handler of the same group is examined next. */
  lemma NoMatchMovesOn(m: map<int, seq<Handler>>, order: seq<int>, u: Update, rep: Option<ErrorReporter>, k: nat, i: nat, p: nat)
    requires InMap(order, m) && Distinct(order) && k < |order| && i < |m[order[k]]|
    requires p < |RouteTrace(m, order, u, rep)| && RouteTrace(m, order, u, rep)[p] == Checked(order[k], i)
    requires !m[order[k]][i].check(u)
    ensures RouteTrace(m, order, u, rep)[p + 1..] == Resume(m, order, k, i + 1, u, rep)
  {
    var t := RouteTrace(m, order, u, rep);
    CheckedResumes(m, order, u, rep, k, i, p);
    ResumeStep(m, order, k, i, u, rep);
    assert t[p + 1..] == t[p..][1..];
  }

  /** nil and SkipCurrentGroup end the current group and nothing else: no other
      handler of that group is examined, and the remaining groups are routed
      exactly as if dispatch had started at the next group. */
  lemma SuccessOrSkipEndsGroup(m: map<int, seq<Handler>>, order: seq<int>, u: Update, rep: Option<ErrorReporter>, k: nat, i: nat, p: nat)
    requires InMap(order, m) && Distinct(order) && k < |order| && i < |m[order[k]]|
    requires p < |RouteTrace(m, order, u, rep)| && RouteTrace(m, order, u, rep)[p] == Checked(order[k], i)
    requires m[order[k]][i].check(u)
    requires Classify(m[order[k]][i].handle(u)) == Success || Classify(m[order[k]][i].handle(u)) == Skip
    ensures InMap(order[k + 1..], m)
    ensures p + 1 < |RouteTrace(m, order, u, rep)| && RouteTrace(m, order, u, rep)[p + 1] == Handled(order[k], i)
    ensures RouteTrace(m, order, u, rep)[p + 2..] == RouteTrace(m, order[k + 1..], u, rep)
    ensures var t := RouteTrace(m, order, u, rep);
            forall q :: p + 2 <= q < |t| && (t[q].Checked? || t[q].Handled?) ==> t[q].group != order[k]
  {
    var t := RouteTrace(m, order, u, rep);
    CheckedResumes(m, order, u, rep, k, i, p);
    ResumeStep(m, order, k, i, u, rep);
    var rest := RouteTrace(m, order[k + 1..], u, rep);
    assert t[p..] == [Checked(order[k], i), Handled(order[k], i)] + rest;
    assert t[p + 2..] == t[p..][2..];
    LaterGroupsDiffer(m, order, u, rep, k);
    forall q | p + 2 <= q < |t| && (t[q].Checked? || t[q].Handled?) ensures t[q].group != order[k] {
      assert t[q] == rest[q - p - 2];
    }
  }

  /** ContinueGroup moves on to the next handler of the same group, without
      any report. */
  lemma ContinueMovesOn(m: map<int, seq<Handler>>, order: seq<int>, u: Update, rep: Option<ErrorReporter>, k: nat, i: nat, p: nat)
    requires InMap(order, m) && Distinct(order) && k < |order| && i < |m[order[k]]|
    requires p < |RouteTrace(m, order, u, rep)| && RouteTrace(m, order, u, rep)[p] == Checked(order[k], i)
    requires m[order[k]][i].check(u)
    requires Classify(m[order[k]][i].handle(u)) == Continue
    ensures p + 1 < |RouteTrace(m, order, u, rep)| && RouteTrace(m, order, u, rep)[p + 1] == Handled(order[k], i)
    ensures RouteTrace(m, order, u, rep)[p + 2..] == Resume(m, order, k, i + 1, u, rep)
    ensures i + 1 < |m[order[k]]| ==>
              p + 2 < |RouteTrace(m, order, u, rep)| && RouteTrace(m, order, u, rep)[p + 2] == Checked(order[k], i + 1)
  {
    var t := RouteTrace(m, order, u, rep);
    CheckedResumes(m, order, u, rep, k, i, p);
    ResumeStep(m, order, k, i, u, rep);
    var rest := Resume(m, order, k, i + 1, u, rep);
    assert t[p..] == [Checked(order[k], i), Handled(order[k], i)] + rest;
    assert t[p + 2..] == t[p..][2..];
    if i + 1 < |m[order[k]]| {
      ResumeStartsChecked(m, order, k, i + 1, u, rep);
    }
  }

  /** Any other error is reported exactly once, to ErrorHandler when it is
      set and to the default sink otherwise, and then the next handler of the
      same group is examined. */
  lemma OtherErrorReportedThenMovesOn(m: map<int, seq<Handler>>, order: seq<int>, u: Update, rep: Option<ErrorReporter>, k: nat, i: nat, p: nat, err: HandlerError)
    requires InMap(order, m) && Distinct(order) && k < |order| && i < |m[order[k]]|
    requires p < |RouteTrace(m, order, u, rep)| && RouteTrace(m, order, u, rep)[p] == Checked(order[k], i)
    requires m[order[k]][i].check(u)
    requires Classify(m[order[k]][i].handle(u)) == Other(err)
    ensures p + 2 < |RouteTrace(m, order, u, rep)|
    ensures RouteTrace(m, order, u, rep)[p + 1] == Handled(order[k], i)
    ensures RouteTrace(m, order, u, rep)[p + 2] == ReportEvent(rep, u, err)
    ensures RouteTrace(m, order, u, rep)[p + 3..] == Resume(m, order, k, i + 1, u, rep)
    ensures i + 1 < |m[order[k]]| ==>
              p + 3 < |RouteTrace(m, order, u, rep)| && RouteTrace(m, order, u, rep)[p + 3] == Checked(order[k], i + 1)
  {
    var t := RouteTrace(m, order, u, rep);
    CheckedResumes(m, order, u, rep, k, i, p);
    ResumeStep(m, order, k, i, u, rep);
    var rest := Resume(m, order, k, i + 1, u, rep);
    assert t[p..] == [Checked(order[k], i), Handled(order[k], i), ReportEvent(rep, u, err)] + rest;
    assert t[p + 3..] == t[p..][3..];
    if i + 1 < |m[order[k]]| {
      ResumeStartsChecked(m, order, k, i + 1, u, rep);
    }
  }

  /** EndGroups stops the dispatch of this update: HandleUpdate of that
      handler is the very last event of the trace. */
  lemma EndStopsAllGroups(m: map<int, seq<Handler>>, order: seq<int>, u: Update, rep: Option<ErrorReporter>, k: nat, i: nat, p: nat)
    requires InMap(order, m) && Distinct(order) && k < |order| && i < |m[order[k]]|
    requires p < |RouteTrace(m, order, u, rep)| && RouteTrace(m, order, u, rep)[p] == Checked(order[k], i)
    requires m[order[k]][i].check(u)
    requires Classify(m[order[k]][i].handle(u)) == End
    ensures |RouteTrace(m, order, u, rep)| == p + 2
    ensures RouteTrace(m, order, u, rep)[p + 1] == Handled(order[k], i)
  {
    var t := RouteTrace(m, order, u, rep);
    CheckedResumes(m, order, u, rep, k, i, p);
    ResumeStep(m, order, k, i, u, rep);
    assert t[p..] == [Checked(order[k], i), Handled(order[k], i)];
  }

  /** Once every handler of a group has been passed over, routing goes on
      with the next group of the enumeration. */
  lemma ResumeAfterLastHandler(m: map<int, seq<Handler>>, order: seq<int>, u: Update, rep: Option<ErrorReporter>, k: nat)
    requires InMap(order, m) && k < |order|
    ensures Resume(m, order, k, |m[order[k]]|, u, rep) == RouteTrace(m, order[k + 1..], u, rep)
  {
  }
}
