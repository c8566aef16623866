# GeneralDispatcher of gottbot, modelled in Dafny

The model covers `GeneralDispatcher` from `ext/dispatcher.go`. This is the update router of the
gottbot Telegram-bot framework, and it has two parts.

- **Handler-group registry.** There is a key list `handlerGroups`, which is re-sorted whenever
  a key is added, and a map `handlerMap` from each group key to an ordered slice of handlers.
  `AddHandlerToGroup`, `AddHandler`, `RemoveGroup` and `RemoveHandler` change this state.
- **Router.** `processUpdate` gives one update to the handlers of every group, one handler
  after another. What happens next depends on the value each handler returns:
  - nil ends the current group, and so does an error wrapping `SkipCurrentGroup`;
  - `EndGroups` ends the whole update;
  - `ContinueGroup` moves on to the next handler;
  - any other error is passed to `ErrorHandler` when one is set, and printed otherwise. Then the
    next handler runs.

  `Run` dispatches a stream of updates one at a time.

The project has four modules plus worked examples:

- `Handlers` (handlers.dfy) holds the values:
  - updates;
  - handlers, whose `CheckUpdate` and `HandleUpdate` are modelled as functions of the update;
  - the errors handlers return, each carrying the set of sentinels that `errors.Is` would find
    in its wrapping chain;
  - `Classify`, which turns a returned value into a routing decision using the same precedence
    as the Go code;
  - the events dispatch produces: `Checked`, `Handled`, `Reported` and `Printed`.
- `Routing` (routing.dfy) defines `RouteTrace`, a pure reference definition of the sequence of
  events `processUpdate` causes. It also proves the routing properties of that trace.
- `GroupKeys` (group_keys.dfy) models the sorted key list. `append` followed by `sort.Ints`
  on an already-sorted list is `Insert`, and `Insert` is proved to be the only sorted
  permutation of the result.
- `Dispatch` (dispatcher.dfy) has the class `GeneralDispatcher` with the fields
  `handlerGroups`, `handlerMap` and `errorHandler`, and one method per Go method. Each method
  is a loop or a state update, proved against the functions above.
- `Scenarios` (scenarios.dfy) works concrete registries through the model.

Go gives no order for `range` over a map. `processUpdate` and `RemoveHandler` range over
`handlerMap`, so both methods take the visiting order as a parameter (`order` / `scan`). The
parameter must list every key of the map exactly once (`Enumerates`), and every property is
proved for every such order.

Three behaviours of the code are easy to misread; the model follows the code:

- `processUpdate` ranges over the map, not over the sorted `handlerGroups`. So groups are
  *not* visited in ascending key order, and the sorted key list is never read by the router.
- `RemoveGroup` does not remove the key from `handlerGroups`. Adding to that group again
  appends the key a second time, so the key list can hold duplicates.
- `RemoveHandler` leaves an emptied group in the map as an empty slice.

## Model

| member | source | states |
|---|---|---|
| Handlers.Classify | ext/dispatcher.go:59-71 | nil is success, and only nil. An error is Skip exactly when it wraps SkipCurrentGroup; End exactly when it wraps EndGroups but not SkipCurrentGroup; Continue exactly when it wraps ContinueGroup but neither of the other two; and it is reported, unchanged, exactly when it wraps no sentinel. This is the order of the tests at lines 59, 63 and 65. |
| Handlers.ReportEvent | ext/dispatcher.go:67-70 | A reportable error goes to ErrorHandler, with the update and the error, exactly when one is set. With no ErrorHandler the event is the printed line carrying the error's text. |
| Routing.RunGroup | ext/dispatcher.go:53-72 | Reference definition of the inner loop over one group's handlers: the events of each examined handler in slice order, stopping after a matching handler that returns nil, SkipCurrentGroup or EndGroups, and whether EndGroups was returned. ProcessUpdate's inner loop is proved to produce exactly these events (through Resume). |
| Routing.RouteTrace | ext/dispatcher.go:52-73 | Reference definition of the whole of processUpdate for one update: the groups' events in the visiting order, with nothing after a group that returned EndGroups. ProcessUpdate is proved equal to it, and the routing lemmas below are stated about it. |
| Routing.RouteEventsNamed | ext/dispatcher.go:52-54 | Every CheckUpdate and HandleUpdate call in the trace is on a handler that is registered in a visited group. |
| Routing.RouteExplained | ext/dispatcher.go:54-71 | Every event is explained by the one before it. HandleUpdate runs only right after CheckUpdate accepted the update. A report follows only the HandleUpdate call whose error wraps no sentinel, and goes to the configured sink. |
| Routing.HandledOnlyIfMatched | ext/dispatcher.go:54-58 | A handler whose CheckUpdate is false is never handed the update. Each HandleUpdate call comes right after the CheckUpdate call of the same handler. |
| Routing.ReportFollowsFailure | ext/dispatcher.go:59-71 | Every report or print carries the error of the HandleUpdate call just before it. That error wraps no sentinel, so nil, Skip, Continue and End never reach the error sink. A report goes to ErrorHandler exactly when one is set. |
| Routing.CheckedResumes | ext/dispatcher.go:52-73 | Wherever handler i of the k-th visited group is checked, the rest of the trace is the dispatch resumed from exactly that handler. |
| Routing.ResumeStartsChecked | ext/dispatcher.go:53-54 | Examining any handler of a group begins with its CheckUpdate call. |
| Routing.LaterGroupsDiffer | ext/dispatcher.go:52 | Groups visited after the k-th never produce calls on handlers of the k-th group, because each key is visited once. |
| Routing.NoMatchMovesOn | ext/dispatcher.go:54-56 | After a failed CheckUpdate, HandleUpdate is not called and the next handler of the same group is examined. |
| Routing.SuccessOrSkipEndsGroup | ext/dispatcher.go:59-61 | After nil or SkipCurrentGroup, no further handler of that group is touched. The rest of the trace is exactly the dispatch of the remaining groups. |
| Routing.EndStopsAllGroups | ext/dispatcher.go:63-64 | After EndGroups, the trace ends: no handler in any group is examined again for this update. |
| Routing.ContinueMovesOn | ext/dispatcher.go:65-66 | After ContinueGroup, nothing is reported and the next handler of the same group is examined. |
| Routing.OtherErrorReportedThenMovesOn | ext/dispatcher.go:67-71 | Any other error is reported exactly once, to ErrorHandler or printed, and then the next handler of the same group is examined. |
| GroupKeys.Insert | ext/dispatcher.go:81-82 | Appending a key to a sorted key list and sorting gives a sorted list holding the old keys plus the new one, as a multiset. |
| GroupKeys.SortedPermutationUnique | ext/dispatcher.go:82 | Two sorted lists with the same multiset of keys are equal, so the result of sort.Ints is determined. |
| GroupKeys.InsertIsSortInts | ext/dispatcher.go:81-82 | Any sorted arrangement of the appended list is Insert of the key. |
| GroupKeys.InsertKeepsKeys | ext/dispatcher.go:81-82 | Sorting after the append loses no key: the new key and every old key are in the resulting list. |
| GroupKeys.InsertPresentKeyDuplicates | ext/dispatcher.go:78-83 | Inserting a key that is already in the list gives a list holding it twice: duplicates are not excluded. |
| Dispatch.FindInGroup | ext/dispatcher.go:102-105 | Returns the first index of a handler with the given id, and returns none exactly when no handler from that point on has it. |
| Dispatch.FindHandler | ext/dispatcher.go:101-111 | A handler that is found is registered in the map at the returned group and index and has the given id. |
| Dispatch.FindHandlerFindsFirst | ext/dispatcher.go:101-111 | The handler found is the first with that id in its group, and no group scanned earlier holds one. Nothing is found only when no scanned group has such a handler. |
| Dispatch.FindHandlerFindsRegistered | ext/dispatcher.go:100-113 | When the scan visits every key in any order, a handler is found exactly when some group holds one with that id. |
| Dispatch.SwapRemove | ext/dispatcher.go:106-108 | The group is one shorter. The former last handler sits in the removed slot, and every other position is unchanged. |
| Dispatch.SwapRemoveDropsOne | ext/dispatcher.go:106-109 | Exactly one handler with the removed id leaves the group. |
| Dispatch.GeneralDispatcher.NewDispatcher | ext/dispatcher.go:33-39 | Starts with an empty key list and an empty map, stores the given error handler, and satisfies the registry invariant. |
| Dispatch.GeneralDispatcher.AddHandlerToGroup | ext/dispatcher.go:77-87 | The group becomes its old slice, or empty, followed by the handler, and no other group changes. The key list changes only when the key was absent, and then becomes the sorted insertion of the key. The handler's id is returned. The invariant is kept: the key list is sorted and names every map key. |
| Dispatch.GeneralDispatcher.AddHandler | ext/dispatcher.go:90-92 | Exactly AddHandlerToGroup on group 0. |
| Dispatch.GeneralDispatcher.RemoveGroup | ext/dispatcher.go:95-97 | The key leaves the map. The key list and all other groups are untouched, and the call is a no-op when the key is absent. The invariant is kept. |
| Dispatch.GeneralDispatcher.RemoveHandler | ext/dispatcher.go:100-114 | Returns false exactly when no group holds a handler with the id, and then nothing changes. Otherwise the group holding the first match in the scan order is swap-removed at that match and no other group changes. Map keys are unchanged, so an emptied group stays. The invariant is kept. |
| Dispatch.GeneralDispatcher.ProcessUpdate | ext/dispatcher.go:51-74 | The nested loops with break, continue and return produce exactly the reference trace RouteTrace for the given group order. They change no state. |
| Dispatch.GeneralDispatcher.Run | ext/dispatcher.go:45-49 | Updates are dispatched in arrival order, and the n-th trace is the reference trace of the n-th update. The registry is the same for every update, because dispatch changes no state. |
| Scenarios.FirstSuccessWinsItsGroup | ext/dispatcher.go:52-61 | In either visiting order of two groups, the successful first handler hides the rest of its group, and the other group still runs. |
| Scenarios.EndGroupsHidesLaterGroups | ext/dispatcher.go:63-64 | EndGroups in the first visited group keeps the second group from being examined at all. |
| Scenarios.ErrorAndContinueKeepGroupGoing | ext/dispatcher.go:65-71 | A generic error is reported once, then the next handler runs. After ContinueGroup the handler after that runs too. |
| Scenarios.ReAddAfterRemoveGroup | ext/dispatcher.go:78-83 | Add to group 5, remove group 5, then add to group 5 again: the key list is [5, 5]. |
| Scenarios.RemovedHandlerNeverRuns | ext/dispatcher.go:100-114 | A handler added and then removed by its id is never examined, and its group stays in the map as an empty slice. |

## Left out

- The channel in `Run` is a finite sequence of updates. Blocking on the channel, closing it and goroutines are not modelled.
- `CheckUpdate`, `HandleUpdate`, `GetHandlerID` and `NewContext` are foreign code.
  - A handler is its id plus two total functions of the update.
  - The bot and the context are not modelled.
  - The update payload is an opaque value that the dispatcher never inspects.
- Handlers cannot change the registry, or anything else, while they run. Only their return value is modelled.
- `errors.Is` wrapping chains are reduced to the set of sentinels an error wraps. `Error()` is the error's message.
- `fmt.Println` output is only a `Printed` event carrying the error text. The literal prefix "An error occured:" is not modelled.
- The order of a Go `range` over a map is a parameter that lists each key once. The runtime's randomised choice of order is not modelled.
- Slices are values. Aliasing between the slice in the map and other copies is not modelled, nor is writing nil into the vacated last slot during swap-removal, because neither is observable through the model's state.
- `ErrorHandler` is an identity (`ErrorReporter`). Calling it is the `Reported` event, and its own effects are not modelled.
- Concurrency is not modelled. The Go type has no locking, and calls are modelled as sequential.
