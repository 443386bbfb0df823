/** The post-processing queue of `FieldConversionFailureListener`: a listener may queue actions
    on the finished record, which a flush applies in order and then forgets. */
module FailureListener {
  import opened Values

  /** A post-processing action, `Function<GenericData.Record, GenericData.Record>`. */
  type Action = Value -> Value

  /** The record after applying `actions` one after another, each to the previous result. */
  function ApplyAll(actions: seq<Action>, record: Value): Value
  {
    if |actions| == 0 then record
    else actions[|actions| - 1](ApplyAll(actions[..|actions| - 1], record))
  }

  /** Applying a queue that was extended is applying the old queue, then the new actions. */
  lemma {:induction false} ApplyAllAppend(first: seq<Action>, more: seq<Action>, record: Value)
    ensures ApplyAll(first + more, record) == ApplyAll(more, ApplyAll(first, record))
  {
    if |more| == 0 {
      assert first + more == first;
    } else {
      var init := more[..|more| - 1];
      assert (first + more)[..|first + more| - 1] == first + init;
      assert (first + more)[|first + more| - 1] == more[|more| - 1];
      ApplyAllAppend(first, init, record);
    }
  }

  /** Two queued actions run in the order they were pushed. */
  lemma TwoActionsInPushOrder(a: Action, b: Action, record: Value)
    ensures ApplyAll([a, b], record) == b(a(record))
  {
    var one := [a];
    assert [a, b][..1] == one;
    assert one[..0] == [];
    assert ApplyAll(one, record) == a(record);
  }

  class FieldConversionFailureListener {
    /** `postProcessingActions`, oldest first. */
    var actions: seq<Action>

    constructor ()
      ensures actions == []
    {
      actions := [];
    }

    /** `pushPostProcessingAction`: appends to the end of the queue. */
    method PushPostProcessingAction(action: Action)
      modifies this
      ensures actions == old(actions) + [action]
    {
      actions := actions + [action];
    }

    /** `flushPostProcessingActions`: applies every queued action in push order, then empties
        the queue. */
    method FlushPostProcessingActions(record: Value) returns (result: Value)
      modifies this
      ensures result == ApplyAll(old(actions), record)
      ensures actions == []
    {
      result := record;
      for i := 0 to |actions|
        invariant result == ApplyAll(actions[..i], record)
      {
        assert actions[..i + 1][..i] == actions[..i];
        result := actions[i](result);
      }
      assert actions[..|actions|] == actions;
      actions := [];
    }

    /** `reset`: empties the queue without applying anything. */
    method Reset()
      modifies this
      ensures actions == []
    {
      actions := [];
    }
  }

  /** A flush leaves nothing behind: flushing again returns the record unchanged, so a listener
      reused for another conversion starts from an empty queue. */
  method FlushTwice(listener: FieldConversionFailureListener, record: Value) returns (first: Value, second: Value)
    modifies listener
    ensures first == ApplyAll(old(listener.actions), record)
    ensures second == first
    ensures listener.actions == []
  {
    first := listener.FlushPostProcessingActions(record);
    second := listener.FlushPostProcessingActions(first);
  }

  /** Actions pushed after a reset are the only ones a flush applies. */
  method ResetThenPush(listener: FieldConversionFailureListener, a: Action, b: Action, record: Value)
    returns (result: Value)
    modifies listener
    ensures result == b(a(record))
    ensures listener.actions == []
  {
    listener.Reset();
    listener.PushPostProcessingAction(a);
    listener.PushPostProcessingAction(b);
    assert listener.actions == [a, b];
    TwoActionsInPushOrder(a, b, record);
    result := listener.FlushPostProcessingActions(record);
  }
}
