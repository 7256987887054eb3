/**
 * getActionMapping: the table from type codes to the handler methods of a
 * store configuration, built from the keys that pass the `on<Name>` gate.
 */
module Actions {
  import opened Wrappers
  import opened Names
  import opened Values

  /** The errors store construction can throw. */
  datatype Error =
    | NoNameParts(methodName: string)                     // `match` found nothing: TypeError on `.map`
    | UnknownActionType(action: string, methodName: string) // 'Unknown action type: <action> (from method <methodName>)'

  /**
   * The property key the handler is stored under: `actionTypes[action]`, or
   * the key "undefined" when the action is missing from the table.
   */
  function TypeKey(actionTypes: map<string, string>, action: string): string {
    if action in actionTypes then actionTypes[action] else "undefined"
  }

  /** The type key of a gated handler name. */
  function TypeKeyOf(actionTypes: map<string, string>, methodName: string): string
    requires IsValidActionName(methodName)
  {
    TypeKey(actionTypes, ActionOf(methodName))
  }

  /** One turn of the `forEach` body, on the mapping built so far (`None` is `null`). */
  function AddHandler(actionTypes: map<string, string>, props: map<string, Value>, production: bool,
                      mapping: Option<map<string, Value>>, methodName: string): Result<Option<map<string, Value>>, Error>
    requires methodName in props
  {
    if !IsValidActionName(methodName) then Success(mapping)
    else match ActionFromName(methodName)
      case None => Failure(NoNameParts(methodName))
      case Some(action) =>
        if !production && action !in actionTypes then Failure(UnknownActionType(action, methodName))
        else Success(Some(mapping.GetOr(map[])[TypeKey(actionTypes, action) := props[methodName]]))
  }

  /** The outcome after the `forEach` has visited `keys`: the first throw ends it. */
  function MappingAfter(actionTypes: map<string, string>, props: map<string, Value>, production: bool,
                        keys: seq<string>): Result<Option<map<string, Value>>, Error>
    requires forall k :: k in keys ==> k in props
    decreases |keys|
  {
    if keys == [] then Success(None)
    else
      var prev := MappingAfter(actionTypes, props, production, keys[..|keys| - 1]);
      if prev.Failure? then prev
      else AddHandler(actionTypes, props, production, prev.value, keys[|keys| - 1])
  }

  /** Once a key has thrown, the keys after it change nothing. */
  lemma {:induction false} FailureIsFinal(actionTypes: map<string, string>, props: map<string, Value>,
                                          production: bool, keys: seq<string>, n: nat)
    requires forall k :: k in keys ==> k in props
    requires n <= |keys|
    requires MappingAfter(actionTypes, props, production, keys[..n]).Failure?
    ensures MappingAfter(actionTypes, props, production, keys) == MappingAfter(actionTypes, props, production, keys[..n])
    decreases |keys|
  {
    if n < |keys| {
      var init := keys[..|keys| - 1];
      assert init[..n] == keys[..n];
      FailureIsFinal(actionTypes, props, production, init, n);
    } else {
      assert keys[..n] == keys;
    }
  }

  /**
   * getActionMapping, as the source writes it: a scan of the configuration's
   * keys that fills a lazily created mapping, throwing on the first gated key
   * whose action identifier is not in `actionTypes` (outside production).
   */
  method GetActionMapping(actionTypes: map<string, string>, config: Config, production: bool)
    returns (r: Result<Option<map<string, Value>>, Error>)
    requires config.Valid()
    ensures r == MappingAfter(actionTypes, config.props, production, config.keys)
  {
    var keys := config.keys;
    var mapping: map<string, Value> := map[];
    var somethingAdded := false;
    var i := 0;
    while i < |keys|
      invariant 0 <= i <= |keys|
      invariant MappingAfter(actionTypes, config.props, production, keys[..i])
                == Success(if somethingAdded then Some(mapping) else None)
    {
      var methodName := keys[i];
      assert keys[..i + 1][..i] == keys[..i];
      if IsValidActionName(methodName) {
        // The gate puts an upper-case letter at index 2, so the match is never null here.
        var action := ActionOf(methodName);
        if !production && action !in actionTypes {
          r := Failure(UnknownActionType(action, methodName));
          FailureIsFinal(actionTypes, config.props, production, keys, i + 1);
          return;
        }
        if !somethingAdded {
          mapping := map[];
          somethingAdded := true;
        }
        mapping := mapping[TypeKey(actionTypes, action) := config.props[methodName]];
      }
      i := i + 1;
    }
    assert keys[..i] == keys;
    r := Success(if somethingAdded then Some(mapping) else None);
  }

  /** A gated key whose action identifier is missing from the table while validation is on. */
  predicate IsUnknownAction(actionTypes: map<string, string>, production: bool, methodName: string) {
    IsValidActionName(methodName) && !production && ActionOf(methodName) !in actionTypes
  }

  /**
   * Construction fails exactly when, outside production, some gated key's
   * action identifier is not in the table; the error names the first such key
   * and its identifier.
   */
  lemma {:induction false} MappingFailsOnFirstUnknown(actionTypes: map<string, string>, props: map<string, Value>,
                                                      production: bool, keys: seq<string>)
    requires forall k :: k in keys ==> k in props
    ensures MappingAfter(actionTypes, props, production, keys).Failure? <==>
              exists i :: 0 <= i < |keys| && IsUnknownAction(actionTypes, production, keys[i])
    ensures MappingAfter(actionTypes, props, production, keys).Failure? ==>
              exists i :: && 0 <= i < |keys| && IsUnknownAction(actionTypes, production, keys[i])
                          && MappingAfter(actionTypes, props, production, keys).error
                             == UnknownActionType(ActionOf(keys[i]), keys[i])
                          && forall j :: 0 <= j < i ==> !IsUnknownAction(actionTypes, production, keys[j])
    decreases |keys|
  {
    if keys != [] {
      var init, last := keys[..|keys| - 1], keys[|keys| - 1];
      MappingFailsOnFirstUnknown(actionTypes, props, production, init);
      assert forall i :: 0 <= i < |init| ==> init[i] == keys[i];
      if IsValidActionName(last) {
        GatedNameHasAction(last);
      }
      if MappingAfter(actionTypes, props, production, init).Success? {
        assert forall i :: 0 <= i < |init| ==> !IsUnknownAction(actionTypes, production, init[i]);
      }
    }
  }

  /** In production mode the mapping is always built. */
  lemma ProductionNeverFails(actionTypes: map<string, string>, props: map<string, Value>, keys: seq<string>)
    requires forall k :: k in keys ==> k in props
    ensures MappingAfter(actionTypes, props, true, keys).Success?
  {
  }

  /** The mapping stays `null` exactly when no key passes the gate. */
  lemma {:induction false} MappingNullIffNoHandler(actionTypes: map<string, string>, props: map<string, Value>,
                                                   production: bool, keys: seq<string>)
    requires forall k :: k in keys ==> k in props
    requires MappingAfter(actionTypes, props, production, keys).Success?
    ensures MappingAfter(actionTypes, props, production, keys).value.None? <==>
              forall i :: 0 <= i < |keys| ==> !IsValidActionName(keys[i])
    decreases |keys|
  {
    if keys != [] {
      var init := keys[..|keys| - 1];
      MappingNullIffNoHandler(actionTypes, props, production, init);
      assert forall i :: 0 <= i < |init| ==> init[i] == keys[i];
    }
  }

  /** Key `i` is a handler that no later handler with the same type key overrides. */
  ghost predicate WinsTypeKey(actionTypes: map<string, string>, keys: seq<string>, i: int) {
    && 0 <= i < |keys|
    && IsValidActionName(keys[i])
    && forall j :: i < j < |keys| && IsValidActionName(keys[j]) ==>
         TypeKeyOf(actionTypes, keys[j]) != TypeKeyOf(actionTypes, keys[i])
  }

  /** The entries built so far (`null` reads as no entries). */
  function EntriesAfter(actionTypes: map<string, string>, props: map<string, Value>, production: bool,
                        keys: seq<string>): map<string, Value>
    requires forall k :: k in keys ==> k in props
    requires MappingAfter(actionTypes, props, production, keys).Success?
  {
    MappingAfter(actionTypes, props, production, keys).value.GetOr(map[])
  }

  /** One step of the scan on the entries: a gated key adds or overwrites its own type key. */
  lemma EntriesStep(actionTypes: map<string, string>, props: map<string, Value>, production: bool,
                    keys: seq<string>)
    requires keys != []
    requires forall k :: k in keys ==> k in props
    requires MappingAfter(actionTypes, props, production, keys).Success?
    ensures MappingAfter(actionTypes, props, production, keys[..|keys| - 1]).Success?
    ensures var init, last := keys[..|keys| - 1], keys[|keys| - 1];
            EntriesAfter(actionTypes, props, production, keys) ==
              if IsValidActionName(last)
              then EntriesAfter(actionTypes, props, production, init)[TypeKeyOf(actionTypes, last) := props[last]]
              else EntriesAfter(actionTypes, props, production, init)
  {
  }

  /** Every handler's type key is an entry of the mapping. */
  lemma {:induction false} EntriesHaveEveryHandler(actionTypes: map<string, string>, props: map<string, Value>,
                                                   production: bool, keys: seq<string>)
    requires forall k :: k in keys ==> k in props
    requires MappingAfter(actionTypes, props, production, keys).Success?
    ensures forall i :: 0 <= i < |keys| && IsValidActionName(keys[i]) ==>
              TypeKeyOf(actionTypes, keys[i]) in EntriesAfter(actionTypes, props, production, keys)
    decreases |keys|
  {
    if keys != [] {
      var init := keys[..|keys| - 1];
      EntriesStep(actionTypes, props, production, keys);
      EntriesHaveEveryHandler(actionTypes, props, production, init);
      assert forall i :: 0 <= i < |init| ==> init[i] == keys[i];
    }
  }

  /** Each entry holds the value of the last handler with that type key: a later key overwrites an earlier one. */
  lemma {:induction false} EntriesHoldLastHandler(actionTypes: map<string, string>, props: map<string, Value>,
                                                  production: bool, keys: seq<string>)
    requires forall k :: k in keys ==> k in props
    requires MappingAfter(actionTypes, props, production, keys).Success?
    ensures forall i :: WinsTypeKey(actionTypes, keys, i) ==>
              TypeKeyOf(actionTypes, keys[i]) in EntriesAfter(actionTypes, props, production, keys) &&
              EntriesAfter(actionTypes, props, production, keys)[TypeKeyOf(actionTypes, keys[i])] == props[keys[i]]
    decreases |keys|
  {
    if keys != [] {
      var init, last := keys[..|keys| - 1], keys[|keys| - 1];
      EntriesStep(actionTypes, props, production, keys);
      EntriesHoldLastHandler(actionTypes, props, production, init);
      assert forall i :: 0 <= i < |init| ==> init[i] == keys[i];
      forall i | WinsTypeKey(actionTypes, keys, i) && i < |init|
        ensures WinsTypeKey(actionTypes, init, i)
      {
      }
    }
  }

  /** Every entry comes from some handler: keys that fail the gate contribute nothing. */
  lemma {:induction false} EntriesComeFromHandlers(actionTypes: map<string, string>, props: map<string, Value>,
                                                   production: bool, keys: seq<string>)
    requires forall k :: k in keys ==> k in props
    requires MappingAfter(actionTypes, props, production, keys).Success?
    ensures forall t :: t in EntriesAfter(actionTypes, props, production, keys) ==>
              exists i :: WinsTypeKey(actionTypes, keys, i) && TypeKeyOf(actionTypes, keys[i]) == t
    decreases |keys|
  {
    if keys != [] {
      var init, last := keys[..|keys| - 1], keys[|keys| - 1];
      EntriesStep(actionTypes, props, production, keys);
      EntriesComeFromHandlers(actionTypes, props, production, init);
      assert forall i :: 0 <= i < |init| ==> init[i] == keys[i];
      forall t | t in EntriesAfter(actionTypes, props, production, keys)
        ensures exists i :: WinsTypeKey(actionTypes, keys, i) && TypeKeyOf(actionTypes, keys[i]) == t
      {
        if IsValidActionName(last) && t == TypeKeyOf(actionTypes, last) {
          assert WinsTypeKey(actionTypes, keys, |init|);
        } else {
          var i :| WinsTypeKey(actionTypes, init, i) && TypeKeyOf(actionTypes, init[i]) == t;
          assert WinsTypeKey(actionTypes, keys, i);
        }
      }
    }
  }

  /** The entries of a non-null mapping, for a well-formed configuration. */
  lemma MappingContents(actionTypes: map<string, string>, config: Config, production: bool,
                        m: map<string, Value>)
    requires config.Valid()
    requires MappingAfter(actionTypes, config.props, production, config.keys) == Success(Some(m))
    ensures forall i :: 0 <= i < |config.keys| && IsValidActionName(config.keys[i]) ==>
              TypeKeyOf(actionTypes, config.keys[i]) in m
    ensures forall i :: WinsTypeKey(actionTypes, config.keys, i) ==>
              m[TypeKeyOf(actionTypes, config.keys[i])] == config.props[config.keys[i]]
    ensures forall t :: t in m ==>
              exists i :: WinsTypeKey(actionTypes, config.keys, i) && TypeKeyOf(actionTypes, config.keys[i]) == t
  {
    assert EntriesAfter(actionTypes, config.props, production, config.keys) == m;
    EntriesHaveEveryHandler(actionTypes, config.props, production, config.keys);
    EntriesHoldLastHandler(actionTypes, config.props, production, config.keys);
    EntriesComeFromHandlers(actionTypes, config.props, production, config.keys);
  }
}
