/**
 * registerEventsHandlers: the three properties generated for each declared
 * event, named from the event's capitalised form.
 */
module Events {
  import opened Names
  import opened Values

  function EmitName(event: string): string { "emit" + CapitalizeFirst(event) }

  function AddListenerName(event: string): string { "add" + CapitalizeFirst(event) + "Listener" }

  function RemoveListenerName(event: string): string { "remove" + CapitalizeFirst(event) + "Listener" }

  /** `config.events` when it is an array; no events otherwise. */
  function DeclaredEvents(config: Config): (events: seq<string>)
    ensures "events" in config.props && config.props["events"].StrArray? ==> events == config.props["events"].items
    ensures events != [] ==> "events" in config.props && config.props["events"] == StrArray(events)
  {
    if "events" in config.props && config.props["events"].StrArray? then config.props["events"].items else []
  }

  /** The store's properties after the events have been bound one by one, in order. */
  function WithEventHandlers(props: map<string, Value>, events: seq<string>): map<string, Value>
    decreases |events|
  {
    if events == [] then props
    else
      var e := events[|events| - 1];
      WithEventHandlers(props, events[..|events| - 1])
        [EmitName(e) := EmitFn(e)]
        [AddListenerName(e) := AddListenerFn(e)]
        [RemoveListenerName(e) := RemoveListenerFn(e)]
  }

  /** Every property name generated for a list of events. */
  function GeneratedNames(events: seq<string>): set<string> {
    (set e | e in events :: EmitName(e)) +
    (set e | e in events :: AddListenerName(e)) +
    (set e | e in events :: RemoveListenerName(e))
  }

  /**
   * The three name families never meet, and within a family two events give
   * the same name exactly when they have the same capitalised form.
   */
  lemma GeneratedNamesDistinct(a: string, b: string)
    ensures EmitName(a) != AddListenerName(b)
    ensures EmitName(a) != RemoveListenerName(b)
    ensures AddListenerName(a) != RemoveListenerName(b)
    ensures EmitName(a) == EmitName(b) <==> CapitalizeFirst(a) == CapitalizeFirst(b)
    ensures AddListenerName(a) == AddListenerName(b) <==> CapitalizeFirst(a) == CapitalizeFirst(b)
    ensures RemoveListenerName(a) == RemoveListenerName(b) <==> CapitalizeFirst(a) == CapitalizeFirst(b)
  {
    var ca, cb := CapitalizeFirst(a), CapitalizeFirst(b);
    assert EmitName(a)[0] == 'e' && AddListenerName(b)[0] == 'a' && RemoveListenerName(b)[0] == 'r';
    assert AddListenerName(a)[0] == 'a';
    assert EmitName(a)[4..] == ca && EmitName(b)[4..] == cb;
    assert AddListenerName(a)[3..3 + |ca|] == ca && AddListenerName(b)[3..3 + |cb|] == cb;
    assert RemoveListenerName(a)[6..6 + |ca|] == ca && RemoveListenerName(b)[6..6 + |cb|] == cb;
  }

  /** A generated name never starts like `dispatchToken`, so binding events never sets it. */
  lemma DispatchTokenNotGenerated(events: seq<string>)
    ensures "dispatchToken" !in GeneratedNames(events)
  {
    forall e | e in events
      ensures EmitName(e) != "dispatchToken" && AddListenerName(e) != "dispatchToken"
      ensures RemoveListenerName(e) != "dispatchToken"
    {
      assert EmitName(e)[0] == 'e' && AddListenerName(e)[0] == 'a' && RemoveListenerName(e)[0] == 'r';
    }
  }

  /** The generated names of one more event. */
  lemma GeneratedNamesStep(events: seq<string>)
    requires events != []
    ensures var e := events[|events| - 1];
            GeneratedNames(events) ==
              GeneratedNames(events[..|events| - 1]) + {EmitName(e), AddListenerName(e), RemoveListenerName(e)}
  {
  }

  /** One more event: its three names are set and nothing else changes. */
  lemma EventHandlersStep(props: map<string, Value>, events: seq<string>)
    requires events != []
    ensures var init, e := events[..|events| - 1], events[|events| - 1];
            var before, after := WithEventHandlers(props, init), WithEventHandlers(props, events);
            && after.Keys == before.Keys + {EmitName(e), AddListenerName(e), RemoveListenerName(e)}
            && after[EmitName(e)] == EmitFn(e)
            && after[AddListenerName(e)] == AddListenerFn(e)
            && after[RemoveListenerName(e)] == RemoveListenerFn(e)
            && forall k :: k in before && k != EmitName(e) && k != AddListenerName(e) && k != RemoveListenerName(e) ==>
                 after[k] == before[k]
  {
  }

  /** Binding adds exactly the generated names and keeps every other property as it was. */
  lemma {:induction false} EventHandlersTouchOnlyGenerated(props: map<string, Value>, events: seq<string>)
    ensures WithEventHandlers(props, events).Keys == props.Keys + GeneratedNames(events)
    ensures forall k :: k in props && k !in GeneratedNames(events) ==> WithEventHandlers(props, events)[k] == props[k]
    decreases |events|
  {
    if events != [] {
      EventHandlersTouchOnlyGenerated(props, events[..|events| - 1]);
      GeneratedNamesStep(events);
      EventHandlersStep(props, events);
    }
  }

  /** Event `i` is not followed by another event with the same capitalised form. */
  ghost predicate IsLastOfItsName(events: seq<string>, i: int) {
    && 0 <= i < |events|
    && forall j :: i < j < |events| ==> CapitalizeFirst(events[j]) != CapitalizeFirst(events[i])
  }

  /** The three properties of one event that no later event of the same capitalised form overrides. */
  lemma {:induction false} EventHandlersBindEvent(props: map<string, Value>, events: seq<string>, i: nat)
    requires IsLastOfItsName(events, i)
    ensures var after := WithEventHandlers(props, events);
            && EmitName(events[i]) in after && after[EmitName(events[i])] == EmitFn(events[i])
            && AddListenerName(events[i]) in after && after[AddListenerName(events[i])] == AddListenerFn(events[i])
            && RemoveListenerName(events[i]) in after && after[RemoveListenerName(events[i])] == RemoveListenerFn(events[i])
    decreases |events|
  {
    EventHandlersStep(props, events);
    var init, e := events[..|events| - 1], events[|events| - 1];
    if i < |init| {
      assert init[i] == events[i];
      assert IsLastOfItsName(init, i);
      EventHandlersBindEvent(props, init, i);
      GeneratedNamesDistinct(events[i], e);
      GeneratedNamesDistinct(e, events[i]);
    }
  }

  /**
   * The generated properties of an event emit, add a listener for and remove a
   * listener of that event; when two events share a capitalised form, the
   * later one's closures win.
   */
  lemma EventHandlersBindEachEvent(props: map<string, Value>, events: seq<string>)
    ensures forall i :: IsLastOfItsName(events, i) ==>
              var after := WithEventHandlers(props, events);
              && EmitName(events[i]) in after && after[EmitName(events[i])] == EmitFn(events[i])
              && AddListenerName(events[i]) in after && after[AddListenerName(events[i])] == AddListenerFn(events[i])
              && RemoveListenerName(events[i]) in after && after[RemoveListenerName(events[i])] == RemoveListenerFn(events[i])
  {
    forall i | IsLastOfItsName(events, i) {
      EventHandlersBindEvent(props, events, i);
    }
  }
}
