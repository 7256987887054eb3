/**
 * Store: binds the declared events, registers the action mapping with the
 * dispatcher when there is one, then copies the configuration over the store.
 */
module StoreFactory {
  import opened Wrappers
  import opened Names
  import opened Values
  import opened Actions
  import opened Events

  /** A dispatched action; `typeCode` is its `type` property. */
  datatype Action = Action(typeCode: string, payload: Value)

  /** What the store's registered callback does with one action. */
  datatype Delivery =
    | Ignored
    | Invoked(handler: Value, receiver: object, action: Action)  // actionHandler.call(store, action)
    | NotCallable(handler: Value)                                // a truthy entry that is not a function: TypeError

  /**
   * The callback registered for a store: look up the action's type in the
   * mapping and call the handler, with the store as receiver and the whole
   * action as argument, only when the entry is truthy.
   */
  function Route(receiver: object, mapping: map<string, Value>, action: Action): (d: Delivery)
    ensures d.Ignored? <==> action.typeCode !in mapping || !Truthy(mapping[action.typeCode])
    ensures d.Invoked? ==> d.handler == mapping[action.typeCode] && d.receiver == receiver && d.action == action
    ensures d.Invoked? ==> Callable(d.handler)
    ensures d.NotCallable? ==> !Callable(mapping[action.typeCode])
  {
    if action.typeCode in mapping && Truthy(mapping[action.typeCode]) then
      var handler := mapping[action.typeCode];
      if Callable(handler) then Invoked(handler, receiver, action) else NotCallable(handler)
    else Ignored
  }

  /** What the dispatcher keeps for one registered callback. */
  datatype Registration = Registration(store: Store, mapping: map<string, Value>)

  /**
   * The shared dispatcher, reduced to the registrations it records; the token
   * `register` returns is the registration's position.
   */
  class Dispatcher {
    var callbacks: seq<Registration>

    constructor()
      ensures callbacks == []
    {
      callbacks := [];
    }

    method Register(registration: Registration) returns (token: nat)
      modifies this
      ensures callbacks == old(callbacks) + [registration]
      ensures token == |old(callbacks)| && callbacks[token] == registration
    {
      token := |callbacks|;
      callbacks := callbacks + [registration];
    }

  }

  /** The store's properties after a construction that does not throw, `token` being what `register` returns. */
  function ConstructedProps(initial: map<string, Value>, actionTypes: map<string, string>, config: Config,
                            production: bool, token: nat): Result<map<string, Value>, Error>
    requires config.Valid()
  {
    var withEvents := WithEventHandlers(initial, DeclaredEvents(config));
    match MappingAfter(actionTypes, config.props, production, config.keys)
    case Failure(e) => Failure(e)
    case Success(None) => Success(withEvents + config.props)
    case Success(Some(_)) => Success(withEvents["dispatchToken" := Token(token)] + config.props)
  }

  /** The object a store is built on: its own properties. */
  class Store {
    var props: map<string, Value>

    constructor()
      ensures props == map[]
    {
      props := map[];
    }

    /** registerEventsHandlers: nothing when `events` is not an array or is empty. */
    method RegisterEventsHandlers(config: Config)
      modifies this
      ensures props == WithEventHandlers(old(props), DeclaredEvents(config))
    {
      if !("events" in config.props && config.props["events"].StrArray?) || config.props["events"].items == [] {
        return;
      }
      var events := config.props["events"].items;
      var i := 0;
      while i < |events|
        invariant 0 <= i <= |events|
        invariant props == WithEventHandlers(old(props), events[..i])
      {
        var event := events[i];
        var name := CapitalizeFirst(event);
        props := props["emit" + name := EmitFn(event)];
        props := props["add" + name + "Listener" := AddListenerFn(event)];
        props := props["remove" + name + "Listener" := RemoveListenerFn(event)];
        assert events[..i + 1][..i] == events[..i];
        i := i + 1;
      }
      assert events[..i] == events;
    }

    /** registerStoreInDispatcher: records the callback and keeps the token as `dispatchToken`. */
    method RegisterInDispatcher(dispatcher: Dispatcher, mapping: map<string, Value>)
      modifies this, dispatcher
      ensures dispatcher.callbacks == old(dispatcher.callbacks) + [Registration(this, mapping)]
      ensures props == old(props)["dispatchToken" := Token(|old(dispatcher.callbacks)|)]
    {
      var token := dispatcher.Register(Registration(this, mapping));
      props := props["dispatchToken" := Token(token)];
    }

    /**
     * The `Store` constructor's body on this object. When the mapping throws,
     * the events are already bound and the dispatcher is untouched.
     */
    method Init(dispatcher: Dispatcher, actionTypes: map<string, string>, config: Config, production: bool)
      returns (outcome: Outcome<Error>)
      requires config.Valid()
      modifies this, dispatcher
      ensures var built := MappingAfter(actionTypes, config.props, production, config.keys);
              var constructed := ConstructedProps(old(props), actionTypes, config, production, |old(dispatcher.callbacks)|);
              && (constructed.Failure? ==> outcome == Fail(constructed.error))
              && (constructed.Success? ==> outcome == Pass && props == constructed.value)
              && (outcome.Fail? ==> props == WithEventHandlers(old(props), DeclaredEvents(config)))
              && (if built.Success? && built.value.Some?
                  then dispatcher.callbacks == old(dispatcher.callbacks) + [Registration(this, built.value.value)]
                  else dispatcher.callbacks == old(dispatcher.callbacks))
    {
      RegisterEventsHandlers(config);
      var mapping := GetActionMapping(actionTypes, config, production);
      if mapping.Failure? {
        return Fail(mapping.error);
      }
      if mapping.value.Some? {
        RegisterInDispatcher(dispatcher, mapping.value.value);
      }
      props := props + config.props;
      outcome := Pass;
    }
  }

  /**
   * A store gets `dispatchToken` exactly when some configuration key passes the
   * `on<Name>` gate (unless the configuration itself sets that property), and
   * then it holds the token the dispatcher returned.
   */
  lemma DispatchTokenIffHandler(initial: map<string, Value>, actionTypes: map<string, string>, config: Config,
                                production: bool, token: nat)
    requires config.Valid()
    requires ConstructedProps(initial, actionTypes, config, production, token).Success?
    requires "dispatchToken" !in initial && "dispatchToken" !in config.props
    ensures var p := ConstructedProps(initial, actionTypes, config, production, token).value;
            && ("dispatchToken" in p <==> exists i :: 0 <= i < |config.keys| && IsValidActionName(config.keys[i]))
            && ("dispatchToken" in p ==> p["dispatchToken"] == Token(token))
  {
    var events := DeclaredEvents(config);
    EventHandlersTouchOnlyGenerated(initial, events);
    DispatchTokenNotGenerated(events);
    MappingNullIffNoHandler(actionTypes, config.props, production, config.keys);
  }

  /** The properties a store has just before the configuration is copied over it. */
  function PropsBeforeAssign(initial: map<string, Value>, actionTypes: map<string, string>, config: Config,
                             production: bool, token: nat): (before: map<string, Value>)
    requires config.Valid()
    requires ConstructedProps(initial, actionTypes, config, production, token).Success?
    ensures ConstructedProps(initial, actionTypes, config, production, token).value == before + config.props
    ensures forall k :: k != "dispatchToken" && k in WithEventHandlers(initial, DeclaredEvents(config)) ==>
              k in before && before[k] == WithEventHandlers(initial, DeclaredEvents(config))[k]
  {
    var withEvents := WithEventHandlers(initial, DeclaredEvents(config));
    if MappingAfter(actionTypes, config.props, production, config.keys).value.Some?
    then withEvents["dispatchToken" := Token(token)]
    else withEvents
  }

  /**
   * Configuration properties are copied last and win over generated ones;
   * anything else the object had before construction is kept.
   */
  lemma ConfigPropsWin(initial: map<string, Value>, actionTypes: map<string, string>, config: Config,
                       production: bool, token: nat)
    requires config.Valid()
    requires ConstructedProps(initial, actionTypes, config, production, token).Success?
    ensures var p := ConstructedProps(initial, actionTypes, config, production, token).value;
            && (forall k :: k in config.props ==> k in p && p[k] == config.props[k])
            && (forall k :: k in initial && k !in GeneratedNames(DeclaredEvents(config)) &&
                             k !in config.props && k != "dispatchToken" ==>
                               k in p && p[k] == initial[k])
  {
    var before := PropsBeforeAssign(initial, actionTypes, config, production, token);
    EventHandlersTouchOnlyGenerated(initial, DeclaredEvents(config));
  }

  /** A generated event property survives construction unless the configuration has a property of that name. */
  lemma GeneratedEventPropsSurvive(initial: map<string, Value>, actionTypes: map<string, string>, config: Config,
                                   production: bool, token: nat)
    requires config.Valid()
    requires ConstructedProps(initial, actionTypes, config, production, token).Success?
    ensures var p := ConstructedProps(initial, actionTypes, config, production, token).value;
            var events := DeclaredEvents(config);
            forall i :: IsLastOfItsName(events, i) ==>
              && (EmitName(events[i]) !in config.props ==>
                    EmitName(events[i]) in p && p[EmitName(events[i])] == EmitFn(events[i]))
              && (AddListenerName(events[i]) !in config.props ==>
                    AddListenerName(events[i]) in p && p[AddListenerName(events[i])] == AddListenerFn(events[i]))
              && (RemoveListenerName(events[i]) !in config.props ==>
                    RemoveListenerName(events[i]) in p && p[RemoveListenerName(events[i])] == RemoveListenerFn(events[i]))
  {
    var events := DeclaredEvents(config);
    var before := PropsBeforeAssign(initial, actionTypes, config, production, token);
    EventHandlersBindEachEvent(initial, events);
    forall i | 0 <= i < |events|
      ensures EmitName(events[i]) != "dispatchToken" && AddListenerName(events[i]) != "dispatchToken"
      ensures RemoveListenerName(events[i]) != "dispatchToken"
    {
      DispatchTokenNotGenerated(events);
      assert events[i] in events;
    }
  }

  /** A handler the registered callback calls is the configured method of a gated key with that type key. */
  lemma RoutedHandlerIsConfigured(actionTypes: map<string, string>, config: Config, production: bool,
                                  mapping: map<string, Value>, receiver: object, action: Action)
    requires config.Valid()
    requires MappingAfter(actionTypes, config.props, production, config.keys) == Success(Some(mapping))
    requires Route(receiver, mapping, action).Invoked?
    ensures exists i :: && WinsTypeKey(actionTypes, config.keys, i)
                        && TypeKeyOf(actionTypes, config.keys[i]) == action.typeCode
                        && Route(receiver, mapping, action).handler == config.props[config.keys[i]]
  {
    MappingContents(actionTypes, config, production, mapping);
  }

  /** An action with a handler's type key calls that handler once, on the store, with the whole action. */
  lemma HandlerReceivesItsAction(actionTypes: map<string, string>, config: Config, production: bool,
                                 mapping: map<string, Value>, receiver: object, i: nat, payload: Value)
    requires config.Valid()
    requires MappingAfter(actionTypes, config.props, production, config.keys) == Success(Some(mapping))
    requires WinsTypeKey(actionTypes, config.keys, i) && Callable(config.props[config.keys[i]])
    ensures var action := Action(TypeKeyOf(actionTypes, config.keys[i]), payload);
            Route(receiver, mapping, action) == Invoked(config.props[config.keys[i]], receiver, action)
  {
    MappingContents(actionTypes, config, production, mapping);
  }

  /** An action whose type is no handler's type key is ignored by the store. */
  lemma UnmatchedActionIgnored(actionTypes: map<string, string>, config: Config, production: bool,
                               mapping: map<string, Value>, receiver: object, action: Action)
    requires config.Valid()
    requires MappingAfter(actionTypes, config.props, production, config.keys) == Success(Some(mapping))
    requires forall i :: 0 <= i < |config.keys| && IsValidActionName(config.keys[i]) ==>
               TypeKeyOf(actionTypes, config.keys[i]) != action.typeCode
    ensures Route(receiver, mapping, action) == Ignored
  {
    MappingContents(actionTypes, config, production, mapping);
  }
}
