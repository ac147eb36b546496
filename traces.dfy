/** Zipkin-style trace bookkeeping for one thread: a stack of trace states
    (the head of the deque, index 0 here, is the current span) and the set of
    subscribers told about every completed span. The random ids that the
    trace-state builder draws are passed in as parameters; start times,
    durations and the subscribers' own reactions are not modelled. */
module Tracing {
  import opened Wrappers

  datatype TraceState = TraceState(
    traceId: string,
    spanId: string,
    parentSpanId: Option<string>,
    operation: string)

  datatype Span = Span(
    traceId: string,
    spanId: string,
    parentSpanId: Option<string>,
    operation: string)

  datatype Subscriber = Subscriber(name: string)

  /** The current trace state: absent on an empty stack, else its head. */
  function Top(stack: seq<TraceState>): Option<TraceState>
  {
    if stack == [] then None else Some(stack[0])
  }

  /** The state a new span gets: a child of prev when there is one (same
      trace, parent = prev's span), otherwise the root of the fresh trace. */
  function ChildOf(prev: Option<TraceState>, operation: string, freshTraceId: string,
                   freshSpanId: string): TraceState
  {
    match prev
    case Some(p) => TraceState(p.traceId, freshSpanId, Some(p.spanId), operation)
    case None => TraceState(freshTraceId, freshSpanId, None, operation)
  }

  /** The span a completed trace state turns into. */
  function ToSpan(s: TraceState): Span
  {
    Span(s.traceId, s.spanId, s.parentSpanId, s.operation)
  }

  /** What forceState does as written: remove the head of the current stack
      (failing on an empty one), then append every state of the forced one. */
  function ForcedAsWritten(current: seq<TraceState>, forced: seq<TraceState>): (r: Option<seq<TraceState>>)
    ensures r.None? <==> current == []
    ensures r.Some? ==> |r.value| == |current| - 1 + |forced| && r.value[|current| - 1..] == forced
    ensures r.Some? ==> r.value[..|current| - 1] == current[1..]
  {
    if current == [] then None else Some(current[1..] + forced)
  }

  /** forceState as written does not install the forced stack: on a stack of
      two states the old second state survives, and on an empty stack it
      fails. */
  lemma ForceStateAsWrittenKeepsOldStates(a: TraceState, b: TraceState, c: TraceState)
    ensures ForcedAsWritten([a, b], [c]) == Some([b, c])
    ensures ForcedAsWritten([a, b], [c]) != Some([c])
    ensures ForcedAsWritten([], [c]).None?
  {
    assert [a, b][1..] + [c] == [b, c];
    assert [b, c] != [c];
  }

  class Traces {
    var stack: seq<TraceState>
    var subscribers: set<Subscriber>

    /** A thread that has not traced anything, with no subscribers. */
    constructor ()
      ensures stack == [] && subscribers == {}
    {
      stack := [];
      subscribers := {};
    }

    /** A copy of the stack; as a value, later changes to it or to the stack
        do not reach the other. */
    method GetCopyOfState() returns (copy: seq<TraceState>)
      ensures |copy| == |stack| && forall i :: 0 <= i < |copy| ==> copy[i] == stack[i]
    {
      copy := stack;
    }

    /** forceState as written: on a non-empty stack drops the head and appends
        forced; on an empty stack fails (ok is false) and changes nothing. */
    method ForceState(forced: seq<TraceState>) returns (ok: bool)
      modifies this`stack
      ensures ok <==> old(stack) != []
      ensures ok ==> stack == old(stack)[1..] + forced
      ensures !ok ==> stack == old(stack)
      ensures Some(stack) == ForcedAsWritten(old(stack), forced) || !ok
    {
      if stack == [] {
        ok := false;
      } else {
        stack := stack[1..];
        var i := 0;
        while i < |forced|
          invariant 0 <= i <= |forced|
          invariant stack == old(stack)[1..] + forced[..i]
        {
          stack := stack + [forced[i]];
          i := i + 1;
        }
        assert forced[..i] == forced;
        ok := true;
      }
    }

    /** The evidently intended thread-inheritance step: the stack becomes
        exactly the forced one, whatever it held. */
    method ForceStateReplacing(forced: seq<TraceState>)
      modifies this`stack
      ensures stack == forced
    {
      stack := forced;
    }

    /** The current trace state, without changing anything. */
    method GetTrace() returns (r: Option<TraceState>)
      ensures r.None? <==> stack == []
      ensures r.Some? ==> r.value == stack[0]
    {
      if stack == [] {
        r := None;
      } else {
        r := Some(stack[0]);
      }
    }

    /** Discards the thread's stack and makes state its only element. */
    method SetTrace(state: TraceState)
      modifies this`stack
      ensures stack == [state]
    {
      stack := [];
      stack := [state] + stack;
    }

    /** Pushes a child of the current state labelled with operation and
        returns it. */
    method StartSpan(operation: string, freshTraceId: string, freshSpanId: string)
      returns (newState: TraceState)
      modifies this`stack
      ensures stack == [newState] + old(stack)
      ensures newState.operation == operation && newState.spanId == freshSpanId
      ensures old(stack) != [] ==> newState.traceId == old(stack)[0].traceId
                                   && newState.parentSpanId == Some(old(stack)[0].spanId)
      ensures old(stack) == [] ==> newState.traceId == freshTraceId && newState.parentSpanId == None
    {
      var prev := GetTrace();
      newState := ChildOf(prev, operation, freshTraceId, freshSpanId);
      stack := [newState] + stack;
    }

    /** Pops the current state and turns it into a span, which every
        subscriber is handed exactly once (in no particular order); on an
        empty stack returns absent and changes nothing. */
    method CompleteSpan() returns (span: Option<Span>, notified: seq<Subscriber>)
      modifies this`stack
      ensures old(stack) == [] ==> span == None && stack == old(stack) && notified == []
      ensures old(stack) != [] ==> span == Some(ToSpan(old(stack)[0])) && stack == old(stack)[1..]
      ensures old(stack) != [] ==> (forall s :: s in notified <==> s in subscribers)
      ensures forall i, j :: 0 <= i < j < |notified| ==> notified[i] != notified[j]
    {
      notified := [];
      if stack == [] {
        span := None;
        return;
      }
      var state := stack[0];
      stack := stack[1..];
      var completed := ToSpan(state);
      var remaining := subscribers;
      while remaining != {}
        invariant stack == old(stack)[1..]
        invariant remaining <= subscribers
        invariant forall s :: s in notified <==> s in subscribers - remaining
        invariant forall i, j :: 0 <= i < j < |notified| ==> notified[i] != notified[j]
        decreases remaining
      {
        var s :| s in remaining;
        assert s !in notified;
        notified := notified + [s];
        remaining := remaining - {s};
      }
      span := Some(completed);
    }

    /** Adds subscriber; a second subscription changes nothing. */
    method Subscribe(subscriber: Subscriber)
      modifies this`subscribers
      ensures subscribers == old(subscribers) + {subscriber}
      ensures old(subscriber in subscribers) ==> subscribers == old(subscribers)
    {
      subscribers := subscribers + {subscriber};
    }

    /** Removes subscriber and no other. */
    method Unsubscribe(subscriber: Subscriber)
      modifies this`subscribers
      ensures subscriber !in subscribers
      ensures forall s :: s != subscriber ==> (s in subscribers <==> old(s in subscribers))
    {
      subscribers := subscribers - {subscriber};
    }
  }

  /** A span started and then completed on one thread: the stack is back to
      what it was, and the span reports the started state. */
  method StartAndComplete(t: Traces, operation: string, freshTraceId: string, freshSpanId: string)
    returns (started: TraceState, span: Option<Span>)
    modifies t
    ensures t.stack == old(t.stack)
    ensures span == Some(ToSpan(started)) && started.operation == operation
  {
    started := t.StartSpan(operation, freshTraceId, freshSpanId);
    var notified;
    span, notified := t.CompleteSpan();
  }

  /** Handing a thread's state to another thread with the corrected
      forceState installs exactly that state. */
  method InheritState(parent: Traces, child: Traces)
    modifies child
    ensures child.stack == parent.stack || parent == child
    ensures parent != child ==> child.stack == old(parent.stack)
  {
    var copy := parent.GetCopyOfState();
    child.ForceStateReplacing(copy);
  }
}
