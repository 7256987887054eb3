# flux-store-base: the store convention layer, modelled in Dafny

`index.js` turns a plain configuration object into a Flux store. Events
declared in `config.events` get generated `emit<Name>`, `add<Name>Listener`
and `remove<Name>Listener` properties. Every key of the form `on<Name>` is a
handler for the action type `NAME_IN_UPPER_SNAKE_CASE`, looked up in an
`actionTypes` table. These handlers are collected into a mapping from type
code to handler. When the mapping is non-null, one callback is registered
with the dispatcher and its token is kept as `dispatchToken`. Finally the
configuration is copied over the store.

Modules:

- `Names` (`names.dfy`): `getNameFromEvent`, the `^on[A-Z]` gate, the scan
  that `/[A-Z][^A-Z]*/g` performs, and `getActionFromName`. All pure; ASCII
  case only.
- `Values` (`values.dfy`): JavaScript values (truthiness, callability) and
  the configuration object as its `Object.keys` order plus a property map.
- `Actions` (`actions.dfy`): `getActionMapping` as a loop method proved equal
  to a left fold over the keys (`MappingAfter`), with lemmas on when it throws,
  when it is `null` and what its entries are.
- `Events` (`events.dfy`): the generated property names and the fold
  `WithEventHandlers` that `registerEventsHandlers` performs.
- `StoreFactory` (`store.dfy`): the `Store` object (a class over its property
  map), the dispatcher (a class recording registrations; a token is the
  registration's position), the registered callback `Route`, and the
  construction order.

Thrown errors are values: `Actions.Error` is either `UnknownActionType(action,
methodName)` (the message names both) or `NoNameParts(methodName)` (the
TypeError of calling `.map` on a `null` match, proved impossible for gated
keys). `process.env.NODE_ENV === 'production'` is the `production` parameter.

The handler receives the whole action object (index.js:90). A missing action
in production mode stores the handler under the key `"undefined"`
(index.js:80). index.js has no `displayName`, no generic `emit/on/off` and no
`dispatch<Name>` methods, so the model has none either.

## Model

| member | source | states |
|---|---|---|
| Names.ToUpper | index.js:54 | ASCII upper-casing: the result is never a lower-case letter, a lower-case letter becomes the upper-case letter at the same alphabet position, every other character is unchanged |
| Names.UpperString | index.js:53-55 | `part.toUpperCase()`: same length, each character upper-cased |
| Names.IsValidActionName | index.js:49 | the gate `^on[A-Z]` as a predicate; its consequences are in `GatedNameHasAction` and `GatedNamePartsCover` |
| Names.CapitalizeFirst | index.js:11-13 | `getNameFromEvent` keeps the length, upper-cases the first character and keeps the rest |
| Names.CapitalizeFirstIdempotent | index.js:11-13 | capitalising a capitalised event name changes nothing |
| Names.CapitalizeFirstFixed | index.js:11-13 | an event name is returned unchanged exactly when it is empty or does not start with a lower-case letter |
| Names.CapitalizeFirstCollision | index.js:11-13 | two event names get the same generated suffix exactly when they differ at most in the case of their first letter |
| Names.NonUpperPrefixLength | index.js:50 | the `[^A-Z]*` run: no upper-case letter inside it, and it stops at an upper-case letter or at the end |
| Names.IsSegment | index.js:50 | the shape of one match of `/[A-Z][^A-Z]*/`: an upper-case letter followed by no other upper-case letter |
| Names.NameParts | index.js:50 | every match of `/[A-Z][^A-Z]*/g` is an upper-case letter followed by no other upper-case letter |
| Names.NamePartsCover | index.js:50 | the matches, concatenated, are the name from its first upper-case letter on: nothing is lost, and what comes before is skipped |
| Names.NamePartsEmptyIff | index.js:57 | `match` finds nothing (returns `null`) exactly when the name has no upper-case letter |
| Names.NonUpperPrefixLengthAppend | index.js:50 | a run with no upper-case letters is consumed whole by `[^A-Z]*` |
| Names.NamePartsSkip | index.js:50 | leading characters without an upper-case letter produce no match |
| Names.NamePartsSegment | index.js:50 | a segment followed by the end or by an upper-case letter is exactly one match |
| Names.NamePartsOfSegments | index.js:50 | a concatenation of segments is split back into exactly those segments |
| Names.Join | index.js:57 | `join('_')` as a definition; what it keeps is stated in `JoinChars` and used in `ActionOfUserLoggedIn` |
| Names.ActionFromName | index.js:51-58 | `getActionFromName`: no identifier (the `null` match, on which `.map` throws) exactly when the name has no upper-case letter; otherwise, for every gated name, the upper-cased capitalised words after `on` joined with `_` (`ActionOfWords`, `ActionHasNoLowercase`) |
| Names.GatedNameHasAction | index.js:49-57 | a name passing `^on[A-Z]` has an action identifier, so `getActionFromName` never throws on gated keys |
| Names.GatedNamePartsCover | index.js:49-57 | for a gated name there is at least one segment and the segments are exactly the text after `on` |
| Names.ActionOf | index.js:51-58 | the action identifier of a gated name is what `getActionFromName` returns |
| Names.UpperParts | index.js:57 | `.map(mapPart)`: one upper-cased string per segment, in order |
| Names.JoinChars | index.js:57 | every character of `join('_')` is `_` or a character of one of the parts |
| Names.ActionHasNoLowercase | index.js:51-58 | an action identifier contains no lower-case ASCII letter |
| Names.OnWordsParts | index.js:50 | the scan of `on` followed by segments finds exactly those segments |
| Names.ActionOfWords | index.js:49-58 | `on` followed by capitalised words W1…Wn gives the upper-cased words joined with `_` |
| Names.ActionOfUserLoggedIn | index.js:49-58 | `onUserLoggedIn` gives `USER_LOGGED_IN` |
| Actions.TypeKey | index.js:80 | the property key a handler is stored under: `actionTypes[action]`, or `"undefined"` when the action is missing |
| Actions.TypeKeyOf | index.js:70-80 | the type key of a key that passes the gate, via its action identifier |
| Actions.AddHandler | index.js:66-80 | one turn of the `forEach` body as a definition: skip a non-gated key, throw on an unknown action outside production, else create the mapping if needed and set the entry; its effect is stated in `EntriesStep` |
| Actions.MappingAfter | index.js:65-83 | the whole scan as a left fold of `AddHandler` stopping at the first throw; its properties are in `FailureIsFinal`, `MappingFailsOnFirstUnknown`, `ProductionNeverFails`, `MappingNullIffNoHandler` and `MappingContents` |
| Actions.GetActionMapping | index.js:60-84 | the loop over `Object.keys(config)` with the lazily created mapping returns exactly the left fold of the per-key step, including the first throw |
| Actions.FailureIsFinal | index.js:72-74 | once a key throws, the later keys change nothing |
| Actions.MappingFailsOnFirstUnknown | index.js:65-74 | the mapping throws exactly when, outside production, a gated key's action is missing from `actionTypes`; the error names the first such key and its action |
| Actions.ProductionNeverFails | index.js:72 | in production mode `getActionMapping` never throws |
| Actions.MappingNullIffNoHandler | index.js:62-64 | the result is `null` exactly when no key passes the gate, and a mapping otherwise (lines 76-79, 83) |
| Actions.EntriesStep | index.js:76-80 | a gated key sets its type key to its handler; any other key leaves the mapping unchanged |
| Actions.EntriesHaveEveryHandler | index.js:65-81 | every gated key's type key `actionTypes[action]` is an entry of the mapping |
| Actions.EntriesHoldLastHandler | index.js:80 | each entry holds the handler of the last gated key with that type key: a later key overwrites an earlier one |
| Actions.EntriesComeFromHandlers | index.js:65-81 | every entry is the type key of some gated key: keys that fail the gate contribute nothing |
| Actions.MappingContents | index.js:65-81 | the three facts above for a non-null mapping of a well-formed configuration |
| Events.DeclaredEvents | index.js:16-21 | when `config.events` is an array, its entries are the declared events; a non-empty list always comes from that property, so anything else declares none |
| Events.EmitName | index.js:31 | the name `'emit' + getNameFromEvent(event)`; its distinctness is in `GeneratedNamesDistinct` |
| Events.AddListenerName | index.js:35 | the name `'add' + getNameFromEvent(event) + 'Listener'`; see `GeneratedNamesDistinct` |
| Events.RemoveListenerName | index.js:39 | the name `'remove' + getNameFromEvent(event) + 'Listener'`; see `GeneratedNamesDistinct` |
| Events.WithEventHandlers | index.js:28-42 | the `forEach` over the events as a left fold setting three properties per event; its properties are in `EventHandlersTouchOnlyGenerated` and `EventHandlersBindEachEvent` |
| Events.GeneratedNamesDistinct | index.js:29-41 | `emit…`, `add…Listener` and `remove…Listener` names never collide, and one family's names collide exactly when the capitalised event names are equal |
| Events.DispatchTokenNotGenerated | index.js:31-41 | no generated event property is named `dispatchToken` |
| Events.GeneratedNamesStep | index.js:28-42 | one more event adds its three names to the generated set |
| Events.EventHandlersStep | index.js:28-42 | one more event sets its three properties to its emit, add and remove closures and changes nothing else |
| Events.EventHandlersTouchOnlyGenerated | index.js:28-42 | binding events adds exactly the generated names and leaves every other property as it was |
| Events.EventHandlersBindEvent | index.js:28-42 | an event not followed by one with the same capitalised name ends up with its own three closures |
| Events.EventHandlersBindEachEvent | index.js:28-42 | the same for every declared event |
| Values.Truthy | index.js:89 | JavaScript truthiness of a value, the test on `actionHandler` |
| Values.Callable | index.js:90 | the values `.call` can be applied to |
| StoreFactory.ConstructedProps | index.js:99-108 | the store's properties after a construction: events bound, `dispatchToken` when the mapping is non-null, configuration copied last, or the mapping's error; its properties are in `DispatchTokenIffHandler`, `ConfigPropsWin` and `GeneratedEventPropsSurvive` |
| StoreFactory.Route | index.js:87-92 | the registered callback ignores an action when `mapping[action.type]` is missing or falsy; otherwise it calls that handler with the store as receiver and the whole action, or fails when the entry is not callable |
| StoreFactory.Dispatcher.Register | index.js:87 | `register` records the callback and returns its token |
| StoreFactory.Store.RegisterEventsHandlers | index.js:15-43 | the store's properties become the fold of the declared events over the old ones; nothing changes when `events` is not an array or is empty |
| StoreFactory.Store.RegisterInDispatcher | index.js:86-93 | the dispatcher gains one registration for this store's mapping and the store's `dispatchToken` is the returned token |
| StoreFactory.Store.Init | index.js:99-108 | events are bound first; a throwing mapping leaves the events bound and the dispatcher untouched; a `null` mapping registers nothing; otherwise one registration and `dispatchToken`; the configuration is copied last |
| StoreFactory.DispatchTokenIffHandler | index.js:102-107 | a store has `dispatchToken` exactly when some key passes the gate (unless the configuration sets that property), holding the dispatcher's token |
| StoreFactory.ConfigPropsWin | index.js:107 | configuration properties are copied last and override generated ones; other properties the object had are kept |
| StoreFactory.GeneratedEventPropsSurvive | index.js:100-107 | a generated event property survives construction unless the configuration has a property of that name |
| StoreFactory.RoutedHandlerIsConfigured | index.js:87-92 | a handler the callback calls is the configured method of a gated key whose type key is the action's type |
| StoreFactory.HandlerReceivesItsAction | index.js:87-92 | an action carrying a handler's type key calls that handler on the store with the whole action |
| StoreFactory.UnmatchedActionIgnored | index.js:87-92 | an action whose type is no handler's type key is ignored |

## Left out

- `inject` (index.js:110-114): it only partially applies `Store` to a dispatcher and a table; `Init` takes all arguments at once.
- The `EventEmitter` (index.js:23-26, 32-40): listener storage, `emit`, `setMaxListeners` and `maxListeners` are not modelled. The generated closures are the tags `EmitFn`, `AddListenerFn` and `RemoveListenerFn`, which name the event but not the store's private emitter.
- The dispatcher's own `register` and `dispatch` mechanics: it is reduced to a list of registrations, and the token is the registration's position.
- Entries of `config.events` that are not strings: `getNameFromEvent` would throw a TypeError part-way through the loop. The model only has arrays of strings.
- Unicode: `toUpperCase` is modelled on ASCII letters only. Other characters keep their case, and some would change length under JavaScript's `toUpperCase`.
- Prototype-chain lookups and writes: `action in actionTypes` and `mapping[action.type]` also see inherited `Object.prototype` properties, so an action type such as `"toString"` would find a function. Derived action identifiers have no lower-case letters, so the `in` test cannot hit an inherited name. The mapping lookup with such a type is not modelled. On the write side, a type code of `"__proto__"` makes `mapping[...] = handler` (index.js:80) set the mapping's prototype instead of adding an entry; the model adds an ordinary entry.
- Type codes are strings: `actionTypes` values that are not strings become property keys through JavaScript's string conversion, which is not modelled. The same holds for `action.type` (index.js:88): `Action.typeCode` is always a string. An action with no `type` looks up the key `"undefined"`, where production mode stores the handlers of unknown actions; such an action is modelled only as one whose `typeCode` is `"undefined"`.
- `NaN` is not a modelled value (it is falsy in JavaScript).
- `Object.keys` puts integer-like keys first. The model takes the key order as given; gated keys start with `on`, so their relative order is unaffected.
- What a handler does when called, and exceptions it throws, are outside this layer: `Route` reports the call as a `Delivery`.
- `object-assign` is modelled as map union with the configuration winning, as a plain object with only own enumerable properties would give.
