/** Concrete registries and updates worked through the model. */
module Scenarios {
  import opened Handlers
  import opened Routing
  import opened Dispatch

  /** Groups {0: [A, B], 5: [C]}; only A matches and A returns nil. Whichever
      group the map visits first, B is never examined and only A is handled. */
  lemma FirstSuccessWinsItsGroup(u: Update)
    ensures var a := Handler(1, _ => true, _ => None);
            var b := Handler(2, _ => false, _ => None);
            var c := Handler(3, _ => false, _ => None);
            var m := map[0 := [a, b], 5 := [c]];
            && RouteTrace(m, [0, 5], u, None) == [Checked(0, 0), Handled(0, 0), Checked(5, 0)]
            && RouteTrace(m, [5, 0], u, None) == [Checked(5, 0), Checked(0, 0), Handled(0, 0)]
  {
    var a := Handler(1, _ => true, _ => None);
    var b := Handler(2, _ => false, _ => None);
    var c := Handler(3, _ => false, _ => None);
    var m := map[0 := [a, b], 5 := [c]];
    assert RunGroup(0, m[0], 0, u, None) == GroupRun([Checked(0, 0), Handled(0, 0)], false);
    assert RunGroup(5, m[5], 1, u, None) == GroupRun([], false);
    assert RunGroup(5, m[5], 0, u, None) == GroupRun([Checked(5, 0)], false);
    assert [0, 5][1..] == [5] && [5, 0][1..] == [0] && [5][1..] == [] && [0][1..] == [];
    assert RouteTrace(m, [5], u, None) == [Checked(5, 0)];
    assert RouteTrace(m, [0], u, None) == [Checked(0, 0), Handled(0, 0)];
  }

  /** Groups {0: [A], 5: [C]}; A matches and returns EndGroups. When group 0
      is visited first, C is never examined. */
  lemma EndGroupsHidesLaterGroups(u: Update)
    ensures var a := Handler(1, _ => true, _ => Some(HandlerError("end", {EndGroups})));
            var c := Handler(3, _ => true, _ => None);
            var m := map[0 := [a], 5 := [c]];
            RouteTrace(m, [0, 5], u, None) == [Checked(0, 0), Handled(0, 0)]
  {
  }

  /** A generic error from A is reported once to the configured ErrorHandler
      and B, the next handler of the same group, still runs; a
      ContinueGroup from B lets C run as well. */
  lemma ErrorAndContinueKeepGroupGoing(u: Update, r: ErrorReporter)
    ensures var boom := HandlerError("boom", {});
            var a := Handler(1, _ => true, _ => Some(boom));
            var b := Handler(2, _ => true, _ => Some(HandlerError("continue", {ContinueGroup})));
            var c := Handler(3, _ => true, _ => None);
            var m := map[0 := [a, b, c]];
            RouteTrace(m, [0], u, Some(r)) ==
              [Checked(0, 0), Handled(0, 0), Reported(r, u, boom),
               Checked(0, 1), Handled(0, 1), Checked(0, 2), Handled(0, 2)]
  {
    var boom := HandlerError("boom", {});
    var a := Handler(1, _ => true, _ => Some(boom));
    var b := Handler(2, _ => true, _ => Some(HandlerError("continue", {ContinueGroup})));
    var c := Handler(3, _ => true, _ => None);
    var hs := [a, b, c];
    assert Classify(b.handle(u)) == Continue;
    assert RunGroup(0, hs, 2, u, Some(r)) == GroupRun([Checked(0, 2), Handled(0, 2)], false);
    assert RunGroup(0, hs, 1, u, Some(r)).events == [Checked(0, 1), Handled(0, 1), Checked(0, 2), Handled(0, 2)];
    assert [0][1..] == [];
  }

  /** After RemoveGroup, adding to the same group again puts its key into the
      key list a second time. */
  method ReAddAfterRemoveGroup(h: Handler, h': Handler) returns (groups: seq<int>)
    ensures groups == [5, 5]
  {
    var d := new GeneralDispatcher.NewDispatcher(None);
    var first := d.AddHandlerToGroup(5, h);
    d.RemoveGroup(5);
    var second := d.AddHandlerToGroup(5, h');
    groups := d.handlerGroups;
  }

  /** A handler registered and then removed by its identity before any update
      arrives is never consulted; its emptied group stays in the map. */
  method RemovedHandlerNeverRuns(a: Handler, u: Update) returns (found: bool, trace: seq<Event>, groups: map<int, seq<Handler>>)
    ensures found && trace == [] && groups.Keys == {0} && groups[0] == []
  {
    var d := new GeneralDispatcher.NewDispatcher(None);
    var id := d.AddHandler(a);
    found := d.RemoveHandler(id, [0]);
    trace := d.ProcessUpdate(u, [0]);
    groups := d.handlerMap;
  }
}
