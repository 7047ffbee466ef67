/**
  The error boundary: a `hasError` latch that React sets from `getDerivedStateFromError`
  when a child fails to render, and that selects the fallback heading over the children.
 */
module ErrorBoundaries {

  const FallbackMessage := "Something has gone wrong!"

  datatype BoundaryState = BoundaryState(hasError: bool)

  /** `getDerivedStateFromError`: the state to merge after any error, whatever it is. */
  function GetDerivedStateFromError<E>(error: E): (s: BoundaryState)
    ensures s.hasError
  {
    BoundaryState(true)
  }

  /**
    What can happen to the boundary: a child fails to render, and React merges the derived
    state; or React calls `componentDidCatch` with the error and the component stack.
   */
  datatype BoundaryEvent<E> = RenderError(error: E) | DidCatch(error: E, info: string)

  /** The state after one event. */
  function Step<E>(s: BoundaryState, e: BoundaryEvent<E>): BoundaryState {
    match e
    case RenderError(error) => GetDerivedStateFromError(error)
    case DidCatch(_, _) => s
  }

  /** The state after the events in order. */
  function Run<E>(s: BoundaryState, events: seq<BoundaryEvent<E>>): BoundaryState
    decreases |events|
  {
    if events == [] then s else Run(Step(s, events[0]), events[1..])
  }

  predicate SomeRenderError<E>(events: seq<BoundaryEvent<E>>) {
    exists i :: 0 <= i < |events| && events[i].RenderError?
  }

  /** What `render` returns: the fallback heading, or the children unchanged. */
  datatype BoundaryView<C> = Fallback(heading: string) | Children(children: C)

  function Render<C>(s: BoundaryState, children: C): (v: BoundaryView<C>)
    ensures v.Fallback? <==> s.hasError
    ensures v.Fallback? ==> v.heading == FallbackMessage
    ensures !s.hasError ==> v == Children(children)
  {
    if s.hasError then Fallback(FallbackMessage) else Children(children)
  }

  class ErrorBoundary {
    var hasError: bool

    function State(): BoundaryState
      reads this
    {
      BoundaryState(hasError)
    }

    constructor ()
      ensures !hasError
    {
      hasError := false;
    }

    /** React's handling of a render error below the boundary: merge the derived state. */
    method CatchError<E>(error: E)
      modifies this
      ensures State() == Step(old(State()), RenderError(error))
      ensures hasError
    {
      hasError := GetDerivedStateFromError(error).hasError;
    }

    /** `componentDidCatch` only logs the error; the state is left as it is. */
    method ComponentDidCatch<E>(error: E, info: string)
      ensures unchanged(this)
      ensures State() == Step(State(), DidCatch(error, info))
    {
    }
  }

  /**
    After any events the boundary has an error exactly when it had one before or some child
    failed to render; `componentDidCatch` alone never sets it, and nothing clears it.
   */
  lemma {:induction false} ErrorLatches<E>(s: BoundaryState, events: seq<BoundaryEvent<E>>)
    ensures Run(s, events).hasError <==> s.hasError || SomeRenderError(events)
    decreases |events|
  {
    if events != [] {
      ErrorLatches(Step(s, events[0]), events[1..]);
      if SomeRenderError(events[1..]) {
        var i :| 0 <= i < |events[1..]| && events[1..][i].RenderError?;
        assert events[i + 1].RenderError?;
      }
      if SomeRenderError(events) && !events[0].RenderError? {
        var i :| 0 <= i < |events| && events[i].RenderError?;
        assert events[1..][i - 1].RenderError?;
      }
    }
  }

  /** Calls to `componentDidCatch` alone leave the state as it is. */
  lemma {:induction false} DidCatchKeepsState<E>(s: BoundaryState, events: seq<BoundaryEvent<E>>)
    requires forall i :: 0 <= i < |events| ==> events[i].DidCatch?
    ensures Run(s, events) == s
    decreases |events|
  {
    if events != [] {
      assert forall i :: 0 <= i < |events[1..]| ==> events[1..][i] == events[i + 1];
      DidCatchKeepsState(s, events[1..]);
    }
  }
}
