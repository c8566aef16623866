/** Values the dispatcher works with: updates, handlers, the errors handlers
    return, and the classification of those errors into routing decisions. */
module Handlers {

  datatype Option<+T> = None | Some(value: T)

  /** One incoming update. Its payload belongs to the bot API and is never
      inspected by the dispatcher. */
  datatype Update = Update(payload: int)

  /** The identity a handler reports through GetHandlerID. */
  type HandlerId = int

  /** The three sentinel errors EndGroups, ContinueGroup and SkipCurrentGroup. */
  datatype Sentinel = EndGroups | ContinueGroup | SkipCurrentGroup

  /** A non-nil error returned by HandleUpdate: the text that Error() gives and
      the sentinels that errors.Is finds somewhere in its wrapping chain. */
  datatype HandlerError = HandlerError(message: string, wraps: set<Sentinel>)

  /** errors.Is(err, target). */
  predicate Is(err: HandlerError, target: Sentinel) {
    target in err.wraps
  }

  /** A registered handler. CheckUpdate and HandleUpdate are foreign code, so
      they are modelled as total functions of the update; HandleUpdate returns
      nil (None) or an error. */
  datatype Handler = Handler(
    id: HandlerId,
    check: Update -> bool,
    handle: Update -> Option<HandlerError>)

  /** The routing decision taken on the value HandleUpdate returned. */
  datatype Outcome =
    | Success                  // nil
    | Skip                     // wraps SkipCurrentGroup
    | End                      // wraps EndGroups
    | Continue                 // wraps ContinueGroup
    | Other(err: HandlerError) // any other error: reported

  /** Classification in the order processUpdate tests it: nil or
      SkipCurrentGroup first, then EndGroups, then ContinueGroup, and only
      then reporting. An error is reported exactly when it wraps no sentinel,
      and it is then reported unchanged. */
  function Classify(result: Option<HandlerError>): (o: Outcome)
    ensures o.Other? <==> result.Some? && result.value.wraps == {}
    ensures o.Other? ==> o.err == result.value
    ensures o.Success? <==> result.None?
    ensures o.Skip? <==> result.Some? && Is(result.value, SkipCurrentGroup)
    ensures o.End? <==> result.Some? && Is(result.value, EndGroups)
                        && !Is(result.value, SkipCurrentGroup)
    ensures o.Continue? <==> result.Some? && Is(result.value, ContinueGroup)
                             && !Is(result.value, EndGroups) && !Is(result.value, SkipCurrentGroup)
  {
    match result
    case None => Success
    case Some(err) =>
      if Is(err, SkipCurrentGroup) then Skip
      else if Is(err, EndGroups) then End
      else if Is(err, ContinueGroup) then Continue
      else
        assert forall s :: s in err.wraps ==> s == EndGroups || s == ContinueGroup || s == SkipCurrentGroup;
        Other(err)
  }

  /** The injected ErrorHandler callback; only its identity matters here. */
  datatype ErrorReporter = ErrorReporter(tag: int)

  /** The observable effects of dispatching one update, in the order they
      happen. */
  datatype Event =
    | Checked(group: int, index: nat)  // CheckUpdate called on handlerMap[group][index]
    | Handled(group: int, index: nat)  // HandleUpdate called on it
    | Reported(reporter: ErrorReporter, update: Update, err: HandlerError)  // ErrorHandler(bot, update, err)
    | Printed(message: string)         // the default line written by fmt.Println

  /** Where a reportable error goes: to ErrorHandler when one is set,
      otherwise to standard output. */
  function ReportEvent(reporter: Option<ErrorReporter>, u: Update, err: HandlerError): (e: Event)
    ensures e.Reported? <==> reporter.Some?
    ensures e.Reported? ==> e == Reported(reporter.value, u, err)
    ensures reporter.None? ==> e == Printed(err.message)
  {
    match reporter
    case Some(r) => Reported(r, u, err)
    case None => Printed(err.message)
  }
}
