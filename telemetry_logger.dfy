/**
 * Telemetry event shaping: how a logger turns the events it is given into the
 * events its sink receives. Events are flat property maps (an absent key is an
 * undefined property); numbers are integers here, and the host's clock, stack
 * capture and performance marks are parameters.
 */
module TelemetryLogger {
  import opened Wrappers

  const NamespaceSeparator := ":"

  /** The classification tags of `TelemetryDataTag`. */
  const CodeArtifact := "CodeArtifact"
  const UserData := "UserData"
  /** The tag older callers use for what is now `CodeArtifact`. */
  const PackageData := "PackageData"

  const RedactedUserData := "REDACTED (UserData)"
  const RedactedUnknownTag := "REDACTED (unknown tag)"

  /** A primitive property value. */
  datatype Prim = Str(s: string) | Num(n: int) | Bool(b: bool)

  /** A property as it is logged: plain, or a value with a classification tag. */
  datatype Property = Plain(value: Prim) | Tagged(value: Prim, tag: string)

  type Props = map<string, Property>

  /**
   * A telemetry event: its name and its other properties (`category` among them).
   * The name lives in its own field; a "eventName" key in `props` is not excluded,
   * but no operation here adds one, since `IsDefined` always counts that key as set.
   */
  datatype Event = Event(eventName: string, props: Props)

  function StrProp(s: string): Property {
    Plain(Str(s))
  }

  /** `event[key] !== undefined`. */
  predicate IsDefined(e: Event, key: string) {
    key == "eventName" || key in e.props
  }

  // ---------------------------------------------------------------------------
  // Package names

  /** Index of the first occurrence of `c` in `s`. */
  function IndexOf(s: string, c: char): (r: Option<nat>)
    ensures r.None? <==> c !in s
    ensures r.Some? ==> r.value < |s| && s[r.value] == c && c !in s[..r.value]
  {
    if s == [] then None
    else if s[0] == c then Some(0)
    else
      match IndexOf(s[1..], c)
      case None => None
      case Some(i) =>
        assert s[..i + 1] == [s[0]] + s[1..][..i];
        Some(i + 1)
  }

  /** `s.replace(c, rep)` with a one-character pattern: only the first occurrence is replaced. */
  function ReplaceFirst(s: string, c: char, rep: string): (r: string)
    ensures c !in s ==> r == s
    ensures c in s ==> exists i | 0 <= i < |s| :: s[i] == c && c !in s[..i] && r == s[..i] + rep + s[i + 1..]
  {
    match IndexOf(s, c)
    case None => s
    case Some(i) => s[..i] + rep + s[i + 1..]
  }

  /** `sanitizePkgName`: drops the first "@" and turns the first "/" into "-". */
  function SanitizePkgName(name: string): (r: string)
    ensures '@' in name ==> |r| == |name| - 1
    ensures '@' !in name ==> |r| == |name|
  {
    ReplaceFirst(ReplaceFirst(name, '@', ""), '/', "-")
  }

  /** The first `c` of `a + [c] + b` is the one after `a` when `a` has none. */
  lemma IndexOfAfter(a: string, c: char, b: string)
    requires c !in a
    ensures IndexOf(a + [c] + b, c) == Some(|a|)
  {
    var s := a + [c] + b;
    assert s[|a|] == c && s[..|a|] == a;
  }

  /** A scoped package name "@scope/name" becomes "scope-name"; later slashes stay. */
  lemma SanitizeScopedName(scope: string, name: string)
    requires '@' !in scope && '/' !in scope
    ensures SanitizePkgName("@" + scope + "/" + name) == scope + "-" + name
  {
    var s := "@" + scope + "/" + name;
    IndexOfAfter([], '@', scope + "/" + name);
    assert [] + ['@'] + (scope + "/" + name) == s;
    var t := ReplaceFirst(s, '@', "");
    assert t == scope + "/" + name by {
      assert s[1..] == scope + "/" + name;
    }
    IndexOfAfter(scope, '/', name);
    assert scope + ['/'] + name == t;
    assert t[..|scope|] == scope && t[|scope| + 1..] == name;
  }

  /** A name without "@" or "/" is kept as it is. */
  lemma SanitizePlainName(name: string)
    requires '@' !in name && '/' !in name
    ensures SanitizePkgName(name) == name
  {
  }

  // ---------------------------------------------------------------------------
  // Property bags

  /** A bag entry: a value (possibly undefined) or a getter evaluated when the entry is applied. */
  datatype BagEntry = Direct(v: Option<Property>) | Getter(get: () -> Option<Property>)

  type Bag = map<string, BagEntry>

  /** The `all` bag is added to every event; the `error` bag only to error events. */
  datatype PropertyBags = PropertyBags(all: Option<Bag>, error: Option<Bag>)

  /** `typeof v === "function" ? v() : v`. */
  function Resolve(entry: BagEntry): Option<Property> {
    match entry
    case Direct(v) => v
    case Getter(get) => get()
  }

  /** The bag's entries whose keys are in `keys`. */
  function Restricted(bag: Bag, keys: set<string>): (r: Bag)
    ensures r.Keys == bag.Keys * keys
  {
    map k | k in bag && k in keys :: bag[k]
  }

  /** A bag of plain values. */
  function DirectBag(p: Props): (r: Bag)
    ensures r.Keys == p.Keys
  {
    map k | k in p :: Direct(Some(p[k]))
  }

  /**
   * The event extended with one bag: every key the event leaves undefined takes the
   * bag's value when that value is defined; nothing the event defines changes.
   */
  function Fill(e: Event, bag: Bag): (r: Event)
    ensures r.eventName == e.eventName
    ensures forall k :: k in e.props ==> k in r.props && r.props[k] == e.props[k]
    ensures forall k :: k in r.props && k !in e.props ==>
                          k in bag && k != "eventName" && Resolve(bag[k]) == Some(r.props[k])
    ensures forall k :: k in bag && !IsDefined(e, k) && Resolve(bag[k]).Some? ==> k in r.props
  {
    Event(e.eventName,
          e.props + map k | k in bag && !IsDefined(e, k) && Resolve(bag[k]).Some? :: Resolve(bag[k]).value)
  }

  /** Adding one more key of the bag that the event defines, or that the bag leaves undefined, changes nothing. */
  lemma FillSkip(e: Event, bag: Bag, done: set<string>, key: string)
    requires key in bag && key !in done
    requires IsDefined(e, key) || Resolve(bag[key]).None?
    ensures Fill(e, Restricted(bag, done + {key})) == Fill(e, Restricted(bag, done))
  {
    var before := Fill(e, Restricted(bag, done));
    var after := Fill(e, Restricted(bag, done + {key}));
    assert after.props.Keys == before.props.Keys;
  }

  /** Adding one more key that the event leaves undefined and the bag defines sets that key. */
  lemma FillAdd(e: Event, bag: Bag, done: set<string>, key: string)
    requires key in bag && key !in done
    requires !IsDefined(e, key) && Resolve(bag[key]).Some?
    ensures var before := Fill(e, Restricted(bag, done));
            !IsDefined(before, key)
            && Fill(e, Restricted(bag, done + {key})).props == before.props[key := Resolve(bag[key]).value]
  {
    var before := Fill(e, Restricted(bag, done));
    var after := Fill(e, Restricted(bag, done + {key}));
    assert after.props.Keys == before.props.Keys + {key};
  }

  /** The bag restricted to none of its keys, and to all of them. */
  lemma RestrictedEnds(bag: Bag)
    ensures Restricted(bag, bag.Keys - bag.Keys) == map[]
    ensures Restricted(bag, bag.Keys - {}) == bag
  {
  }

  /** The loop of `extendProperties` over one bag. */
  method ExtendWithBag(e: Event, bag: Bag) returns (r: Event)
    ensures r == Fill(e, bag)
  {
    r := e;
    var todo := bag.Keys;
    RestrictedEnds(bag);
    assert Fill(e, map[]) == e;
    while todo != {}
      invariant todo <= bag.Keys
      invariant r == Fill(e, Restricted(bag, bag.Keys - todo))
      decreases todo
    {
      var key :| key in todo;
      ghost var done := bag.Keys - todo;
      assert bag.Keys - (todo - {key}) == done + {key};
      if IsDefined(e, key) || Resolve(bag[key]).None? {
        FillSkip(e, bag, done, key);
      } else {
        FillAdd(e, bag, done, key);
      }
      if !IsDefined(r, key) {
        var value := Resolve(bag[key]);
        if value.Some? {
          r := r.(props := r.props[key := value.value]);
        }
      }
      todo := todo - {key};
    }
  }

  /** The event extended with each present bag of the list in turn. */
  function FillAll(e: Event, bags: seq<Option<Bag>>): (r: Event)
    ensures r.eventName == e.eventName
    ensures forall k :: k in e.props ==> k in r.props && r.props[k] == e.props[k]
    decreases |bags|
  {
    if bags == [] then e
    else
      var before := FillAll(e, bags[..|bags| - 1]);
      match bags[|bags| - 1]
      case None => before
      case Some(bag) => Fill(before, bag)
  }

  /** The bags `extendProperties` applies, in order: `all`, then `error` for error events. */
  function BagsToApply(properties: Option<PropertyBags>, includeErrorProps: bool): seq<Option<Bag>> {
    match properties
    case None => []
    case Some(bags) => [bags.all] + (if includeErrorProps then [bags.error] else [])
  }

  /** The event `extendProperties` returns. */
  function Extended(properties: Option<PropertyBags>, e: Event, includeErrorProps: bool): Event {
    FillAll(e, BagsToApply(properties, includeErrorProps))
  }

  /** `extendProperties(toExtend, includeErrorProps)`. */
  method ExtendProperties(properties: Option<PropertyBags>, e: Event, includeErrorProps: bool) returns (r: Event)
    ensures r == Extended(properties, e, includeErrorProps)
    ensures r.eventName == e.eventName
    ensures forall k :: k in e.props ==> k in r.props && r.props[k] == e.props[k]
  {
    r := e;
    var bags := BagsToApply(properties, includeErrorProps);
    for i := 0 to |bags|
      invariant r == FillAll(e, bags[..i])
    {
      assert bags[..i + 1][..i] == bags[..i];
      if bags[i].Some? {
        r := ExtendWithBag(r, bags[i].value);
      }
    }
    assert bags[..|bags|] == bags;
  }

  /** The `error` bag is used only when the event asks for error properties. */
  lemma ErrorBagOnlyForErrors(bags: PropertyBags, e: Event)
    ensures Extended(Some(bags), e, false) == FillAll(e, [bags.all])
    ensures Extended(Some(bags), e, false) == (if bags.all.Some? then Fill(e, bags.all.value) else e)
  {
    assert [bags.all][..0] == [];
  }

  /**
   * A key undefined on the event that the `all` bag defines takes its value from
   * `all`, even when the `error` bag defines it too.
   */
  lemma AllBagWins(all: Bag, error: Option<Bag>, e: Event, key: string)
    requires key in all && !IsDefined(e, key) && Resolve(all[key]).Some?
    ensures var r := Extended(Some(PropertyBags(Some(all), error)), e, true);
            key in r.props && r.props[key] == Resolve(all[key]).value
  {
    var bags := [Some(all), error];
    assert bags[..1] == [Some(all)];
    assert bags[..1][..0] == [];
    assert FillAll(e, bags[..1]) == Fill(e, all);
  }

  /** A key undefined on the event and absent from `all` is taken from the `error` bag. */
  lemma ErrorBagFills(all: Option<Bag>, error: Bag, e: Event, key: string)
    requires key in error && !IsDefined(e, key) && Resolve(error[key]).Some?
    requires all.Some? ==> key !in all.value
    ensures var r := Extended(Some(PropertyBags(all, Some(error))), e, true);
            key in r.props && r.props[key] == Resolve(error[key]).value
  {
    var bags := [all, Some(error)];
    assert bags[..1] == [all];
    assert bags[..1][..0] == [];
    assert FillAll(e, bags[..1]) == if all.Some? then Fill(e, all.value) else e;
  }

  // ---------------------------------------------------------------------------
  // Preparing events

  /** The name an event gets from a logger with namespace `namespace`. */
  function Namespaced(namespace: Option<string>, name: string): (r: string)
    ensures namespace.None? ==> r == name
    ensures namespace.Some? ==> |r| == |namespace.value| + 1 + |name|
                                && r[..|namespace.value|] == namespace.value
                                && r[|namespace.value|] == ':' && r[|namespace.value| + 1..] == name
  {
    match namespace
    case None => name
    case Some(ns) => ns + NamespaceSeparator + name
  }

  /** `event.category === "error" || event.error !== undefined`. */
  predicate IncludeErrorProps(e: Event) {
    ("category" in e.props && e.props["category"] == StrProp("error")) || "error" in e.props
  }

  /** The event `prepareEvent` returns. */
  function Prepared(namespace: Option<string>, properties: Option<PropertyBags>, e: Event): Event {
    Extended(properties, Event(Namespaced(namespace, e.eventName), e.props), IncludeErrorProps(e))
  }

  /** `prepareEvent`: prefix the namespace, then extend with the logger's bags. */
  method PrepareEvent(namespace: Option<string>, properties: Option<PropertyBags>, e: Event) returns (r: Event)
    ensures r == Prepared(namespace, properties, e)
    ensures r.eventName == if namespace.Some? then namespace.value + NamespaceSeparator + e.eventName else e.eventName
    ensures forall k :: k in e.props ==> k in r.props && r.props[k] == e.props[k]
  {
    var includeErrorProps := IncludeErrorProps(e);
    var newEvent := e;
    if namespace.Some? {
      newEvent := newEvent.(eventName := namespace.value + NamespaceSeparator + newEvent.eventName);
    }
    r := ExtendProperties(properties, newEvent, includeErrorProps);
  }

  // ---------------------------------------------------------------------------
  // Error objects

  /**
   * What is read off an error object: its log-safe message, type and stack, and
   * the telemetry properties of a logging error (None for other errors).
   */
  datatype ErrorInfo = ErrorInfo(message: string, errorType: Option<string>, stack: Option<string>,
                                 telemetryProps: Option<Props>)

  /** `props[key] = value`, where an undefined value removes the key. */
  function SetOrRemove(p: Props, key: string, value: Option<string>): (r: Props)
    ensures key in r <==> value.Some?
    ensures value.Some? ==> r[key] == StrProp(value.value)
    ensures forall k :: k != key ==> (k in r <==> k in p) && (k in r ==> r[k] == p[k])
  {
    if value.Some? then p[key := StrProp(value.value)] else p - {key}
  }

  /** The event once `stack`, `error` (the message) and `errorType` are copied from the error. */
  function WithErrorFields(e: Event, err: ErrorInfo): Event {
    Event(e.eventName,
          SetOrRemove(SetOrRemove(SetOrRemove(e.props, "stack", err.stack), "error", Some(err.message)),
                      "errorType", err.errorType))
  }

  /** A key the event leaves undefined is, after the logging error's properties fill it, theirs or still undefined. */
  lemma FilledKey(copied: Event, telemetryProps: Option<Props>, key: string)
    ensures var filled := if telemetryProps.Some? then Fill(copied, DirectBag(telemetryProps.value)) else copied;
            key != "eventName" && key !in copied.props ==>
              if telemetryProps.Some? && key in telemetryProps.value
              then key in filled.props && filled.props[key] == telemetryProps.value[key]
              else key !in filled.props
  {
  }

  /** The event after `prepareErrorObject(event, error, fetchStack)`; `generatedStack` is what `generateStack()` returns. */
  function ErrorPrepared(e: Event, err: ErrorInfo, fetchStack: bool, generatedStack: Option<string>): (r: Event)
    ensures r.eventName == e.eventName
    ensures "error" in r.props && r.props["error"] == StrProp(err.message)
    ensures err.errorType.Some? ==> "errorType" in r.props && r.props["errorType"] == StrProp(err.errorType.value)
    ensures err.stack.Some? ==> "stack" in r.props && r.props["stack"] == StrProp(err.stack.value)
    ensures err.errorType.None? ==>
              if err.telemetryProps.Some? && "errorType" in err.telemetryProps.value
              then "errorType" in r.props && r.props["errorType"] == err.telemetryProps.value["errorType"]
              else "errorType" !in r.props
    ensures err.stack.None? ==>
              if err.telemetryProps.Some? && "stack" in err.telemetryProps.value
              then "stack" in r.props && r.props["stack"] == err.telemetryProps.value["stack"]
              else if fetchStack && generatedStack.Some?
              then "stack" in r.props && r.props["stack"] == StrProp(generatedStack.value)
              else "stack" !in r.props
    ensures forall k :: k in r.props ==>
              k in e.props || k == "error" || k == "errorType" || k == "stack"
              || (err.telemetryProps.Some? && k in err.telemetryProps.value)
    ensures forall k :: k in e.props && k != "stack" && k != "error" && k != "errorType" ==>
                          k in r.props && r.props[k] == e.props[k]
  {
    var copied := WithErrorFields(e, err);
    var filled := if err.telemetryProps.Some? then Fill(copied, DirectBag(err.telemetryProps.value)) else copied;
    FilledKey(copied, err.telemetryProps, "errorType");
    FilledKey(copied, err.telemetryProps, "stack");
    if "stack" !in filled.props && fetchStack then Event(filled.eventName, SetOrRemove(filled.props, "stack", generatedStack))
    else filled
  }

  /** `prepareErrorObject`. */
  method PrepareErrorObject(e: Event, err: ErrorInfo, fetchStack: bool, generatedStack: Option<string>)
    returns (r: Event)
    ensures r == ErrorPrepared(e, err, fetchStack, generatedStack)
  {
    r := WithErrorFields(e, err);
    if err.telemetryProps.Some? {
      r := ExtendWithBag(r, DirectBag(err.telemetryProps.value));
    }
    if "stack" !in r.props && fetchStack {
      r := Event(r.eventName, SetOrRemove(r.props, "stack", generatedStack));
    }
  }

  /**
   * The telemetry properties of a logging error fill only what is still undefined:
   * they never replace the copied message, nor a property the event already had.
   */
  lemma TelemetryPropsDoNotOverwrite(e: Event, err: ErrorInfo, fetchStack: bool, generatedStack: Option<string>,
                                     key: string)
    requires err.telemetryProps.Some? && key in err.telemetryProps.value
    requires key != "eventName"
    ensures var r := ErrorPrepared(e, err, fetchStack, generatedStack);
            key in r.props
            && (key in WithErrorFields(e, err).props ==> r.props[key] == WithErrorFields(e, err).props[key])
            && (key !in WithErrorFields(e, err).props ==>
                  r.props[key] == err.telemetryProps.value[key])
  {
  }

  /** A stack is generated only when asked for and when neither the error nor its properties had one. */
  lemma StackGeneratedOnlyWhenMissing(e: Event, err: ErrorInfo, fetchStack: bool, generatedStack: Option<string>)
    ensures fetchStack && err.stack.None? && (err.telemetryProps.None? || "stack" !in err.telemetryProps.value)
            ==> ("stack" in ErrorPrepared(e, err, fetchStack, generatedStack).props <==> generatedStack.Some?)
    ensures fetchStack && generatedStack.Some? && err.stack.None?
            && (err.telemetryProps.None? || "stack" !in err.telemetryProps.value)
            ==> ErrorPrepared(e, err, fetchStack, generatedStack).props["stack"] == StrProp(generatedStack.value)
    ensures !fetchStack || err.stack.Some? ==>
            ErrorPrepared(e, err, fetchStack, generatedStack) == ErrorPrepared(e, err, false, None)
  {
  }

  // ---------------------------------------------------------------------------
  // Sending events

  /** `{ ...event, category: event.category ?? category }`. */
  function WithDefaultCategory(e: Event, category: string): (r: Event)
    ensures r.eventName == e.eventName && "category" in r.props
    ensures "category" in e.props ==> r == e
    ensures "category" !in e.props ==> r.props == e.props[("category") := StrProp(category)]
  {
    if "category" in e.props then e else Event(e.eventName, e.props["category" := StrProp(category)])
  }

  /** The event `sendTelemetryEventCore` hands to `send`: the error, if any, copied on. */
  function SentCore(e: Event, error: Option<ErrorInfo>): Event {
    if error.Some? then ErrorPrepared(e, error.value, false, None) else e
  }

  /** The event `sendTelemetryEvent` hands to `send`: category "generic" unless the event has one. */
  function SendTelemetryEvent(e: Event, error: Option<ErrorInfo>): (r: Event)
    ensures r.eventName == e.eventName && "category" in r.props
    ensures "category" in e.props ==> r.props["category"] == e.props["category"]
    ensures "category" !in e.props ==> r.props["category"] == StrProp("generic")
    ensures error.None? ==> forall k :: k in e.props ==> k in r.props && r.props[k] == e.props[k]
  {
    SentCore(WithDefaultCategory(e, "generic"), error)
  }

  /**
   * The event `sendErrorEvent` hands to `send`: category "error", and an `error`
   * property that is the error's message, else the event's own, else the event name.
   */
  function SendErrorEvent(e: Event, error: Option<ErrorInfo>): (r: Event)
    ensures r.eventName == e.eventName
    ensures "category" in r.props && r.props["category"] == StrProp("error")
    ensures "error" in r.props
    ensures error.Some? ==> r.props["error"] == StrProp(error.value.message)
    ensures error.None? && "error" in e.props ==> r.props["error"] == e.props["error"]
    ensures error.None? && "error" !in e.props ==> r.props["error"] == StrProp(e.eventName)
  {
    var withError := if "error" in e.props then e.props else e.props["error" := StrProp(e.eventName)];
    SentCore(Event(e.eventName, withError["category" := StrProp("error")]), error)
  }

  /** The event `sendPerformanceEvent` hands to `send`: category "performance" unless the event has one. */
  function SendPerformanceEvent(e: Event, error: Option<ErrorInfo>): (r: Event)
    ensures r.eventName == e.eventName && "category" in r.props
    ensures "category" in e.props ==> r.props["category"] == e.props["category"]
    ensures "category" !in e.props ==> r.props["category"] == StrProp("performance")
  {
    SentCore(WithDefaultCategory(e, "performance"), error)
  }

  // ---------------------------------------------------------------------------
  // Loggers

  /** Loggers events can be sent to. */
  datatype Logger =
    | NullLogger
    | TelemetryNullLogger
    | Sink(name: string)
    | ChildLogger(base: Logger, namespace: Option<string>, properties: Option<PropertyBags>)

  /** What a `ChildLogger` sends to its base logger for `event`. */
  function ChildSent(logger: Logger, e: Event): (r: Event)
    requires logger.ChildLogger?
    ensures r.eventName == Namespaced(logger.namespace, e.eventName)
    ensures forall k :: k in e.props ==> k in r.props && r.props[k] == e.props[k]
    ensures logger.properties.None? ==> r.props == e.props
  {
    Prepared(logger.namespace, logger.properties, e)
  }

  /** A child logger's base is never itself a child logger. */
  predicate Flat(logger: Logger) {
    logger.ChildLogger? ==> !logger.base.ChildLogger?
  }

  /** `{ ...acc, ...extra }` when `extra` is defined. */
  function MergeBag(acc: Option<Bag>, extra: Option<Bag>): Option<Bag> {
    match extra
    case None => acc
    case Some(b) => Some(acc.GetOr(map[]) + b)
  }

  /** The bags `create` combines from the listed ones, later ones overriding earlier ones. */
  function CombineAll(list: seq<Option<PropertyBags>>): PropertyBags
    decreases |list|
  {
    if list == [] then PropertyBags(None, None)
    else
      var acc := CombineAll(list[..|list| - 1]);
      match list[|list| - 1]
      case None => acc
      case Some(b) => PropertyBags(MergeBag(acc.all, b.all), MergeBag(acc.error, b.error))
  }

  /** The namespace of a child created under a child logger. */
  function CombineNamespaces(base: Option<string>, child: Option<string>): Option<string> {
    if base.None? then child
    else if child.None? then base
    else Some(base.value + NamespaceSeparator + child.value)
  }

  /** The logger `ChildLogger.create(baseLogger, namespace, properties)` returns. */
  function Created(base: Option<Logger>, namespace: Option<string>, properties: Option<PropertyBags>): Logger {
    if base.Some? && base.value.ChildLogger? then
      ChildLogger(base.value.base, CombineNamespaces(base.value.namespace, namespace),
                  Some(CombineAll([base.value.properties, properties])))
    else
      ChildLogger(if base.Some? then base.value else NullLogger, namespace, properties)
  }

  /** `ChildLogger.create`: a child of a child is flattened into one child of the inner base. */
  method Create(base: Option<Logger>, namespace: Option<string>, properties: Option<PropertyBags>)
    returns (r: Logger)
    ensures r == Created(base, namespace, properties)
    ensures r.ChildLogger?
    ensures base.None? || Flat(base.value) ==> Flat(r)
  {
    if base.Some? && base.value.ChildLogger? {
      var list := [base.value.properties, properties];
      var combined := PropertyBags(None, None);
      for i := 0 to |list|
        invariant combined == CombineAll(list[..i])
      {
        assert list[..i + 1][..i] == list[..i];
        var extended := list[i];
        if extended.Some? {
          if extended.value.all.Some? {
            combined := combined.(all := Some(combined.all.GetOr(map[]) + extended.value.all.value));
          }
          if extended.value.error.Some? {
            combined := combined.(error := Some(combined.error.GetOr(map[]) + extended.value.error.value));
          }
        }
      }
      assert list[..|list|] == list;
      var ns := base.value.namespace;
      var combinedNamespace := if ns.None? then namespace
                               else if namespace.None? then ns
                               else Some(ns.value + NamespaceSeparator + namespace.value);
      return ChildLogger(base.value.base, combinedNamespace, Some(combined));
    }
    return ChildLogger(if base.Some? then base.value else NullLogger, namespace, properties);
  }

  /** `createChildLogger(props)`: no props give a null logger. */
  method CreateChildLogger(props: Option<(Option<Logger>, Option<string>, Option<PropertyBags>)>) returns (r: Logger)
    ensures props.None? ==> r == TelemetryNullLogger
    ensures props.Some? ==> r == Created(props.value.0, props.value.1, props.value.2)
  {
    if props.None? {
      return TelemetryNullLogger;
    }
    r := Create(props.value.0, props.value.1, props.value.2);
  }

  /**
   * Within `all` and within `error`, the child's properties override the base's,
   * and the base's other properties are kept.
   */
  lemma ChildOverridesBase(base: Option<PropertyBags>, child: Option<PropertyBags>, key: string)
    ensures var c := CombineAll([base, child]);
            (child.Some? && child.value.all.Some? && key in child.value.all.value ==>
               c.all.Some? && key in c.all.value && c.all.value[key] == child.value.all.value[key])
            && (child.Some? && child.value.error.Some? && key in child.value.error.value ==>
               c.error.Some? && key in c.error.value && c.error.value[key] == child.value.error.value[key])
            && (base.Some? && base.value.all.Some? && key in base.value.all.value
                && !(child.Some? && child.value.all.Some? && key in child.value.all.value) ==>
               c.all.Some? && key in c.all.value && c.all.value[key] == base.value.all.value[key])
            && (base.Some? && base.value.error.Some? && key in base.value.error.value
                && !(child.Some? && child.value.error.Some? && key in child.value.error.value) ==>
               c.error.Some? && key in c.error.value && c.error.value[key] == base.value.error.value[key])
  {
    var list := [base, child];
    assert list[..1] == [base];
    assert list[..1][..0] == [];
  }

  /** The combined namespace names events as the nested loggers would. */
  lemma NamespaceFlattening(base: Option<string>, child: Option<string>, name: string)
    ensures Namespaced(CombineNamespaces(base, child), name) == Namespaced(base, Namespaced(child, name))
  {
  }

  /** Nested loggers: the inner child's `error` bag sets "k" first, and the outer base's `all` bag does not override it. */
  lemma NestedBagOrder(allBag: Bag, errBag: Bag, e: Event)
    requires allBag == map["k" := Direct(Some(StrProp("base")))]
    requires errBag == map["k" := Direct(Some(StrProp("child")))]
    requires e == Event("A", map["category" := StrProp("error")])
    ensures var nested := Prepared(None, Some(PropertyBags(Some(allBag), None)),
                                   Prepared(None, Some(PropertyBags(None, Some(errBag))), e));
            "k" in nested.props && nested.props["k"] == StrProp("child")
  {
    var inner := Prepared(None, Some(PropertyBags(None, Some(errBag))), e);
    ErrorBagFills(None, errBag, e, "k");
    assert inner.props["k"] == StrProp("child");
    ErrorBagOnlyForErrors(PropertyBags(Some(allBag), None), inner);
  }

  /** Combined loggers: the base's `all` bag is applied before the child's `error` bag, so "k" takes the base's value. */
  lemma FlatBagOrder(allBag: Bag, errBag: Bag, e: Event)
    requires allBag == map["k" := Direct(Some(StrProp("base")))]
    requires errBag == map["k" := Direct(Some(StrProp("child")))]
    requires e == Event("A", map["category" := StrProp("error")])
    ensures var flat := Prepared(None, Some(CombineAll([Some(PropertyBags(Some(allBag), None)),
                                                        Some(PropertyBags(None, Some(errBag)))])), e);
            "k" in flat.props && flat.props["k"] == StrProp("base")
  {
    var list := [Some(PropertyBags(Some(allBag), None)), Some(PropertyBags(None, Some(errBag)))];
    assert list[..1] == [list[0]];
    assert list[..1][..0] == [];
    assert map[] + allBag == allBag && map[] + errBag == errBag;
    assert CombineAll(list[..1]) == PropertyBags(Some(allBag), None);
    assert CombineAll(list) == PropertyBags(Some(allBag), Some(errBag));
    AllBagWins(allBag, Some(errBag), e, "k");
  }

  /**
   * Flattening does not keep the nested precedence of bags: a key that the inner
   * child's `error` bag and the outer base's `all` bag both give takes the inner
   * child's value when the loggers are nested, but the base's when they are combined.
   */
  lemma FlatteningReordersBags()
    ensures var base := Some(PropertyBags(Some(map["k" := Direct(Some(StrProp("base")))]), None));
            var child := Some(PropertyBags(None, Some(map["k" := Direct(Some(StrProp("child")))])));
            var e := Event("A", map["category" := StrProp("error")]);
            var nested := Prepared(None, base, Prepared(None, child, e));
            var flat := Prepared(None, Some(CombineAll([base, child])), e);
            "k" in nested.props && nested.props["k"] == StrProp("child")
            && "k" in flat.props && flat.props["k"] == StrProp("base")
  {
    var allBag := map["k" := Direct(Some(StrProp("base")))];
    var errBag := map["k" := Direct(Some(StrProp("child")))];
    var e := Event("A", map["category" := StrProp("error")]);
    NestedBagOrder(allBag, errBag, e);
    FlatBagOrder(allBag, errBag, e);
  }

  /**
   * The test example: a child logger with namespace "errorTypeTestNamespace" sends "errorTypeTestNamespace:A",
   * and the error's telemetry property `message` arrives with the event.
   */
  lemma NamespacedErrorEvent(message: string, errorType: string)
    ensures var logger := Created(Some(Sink("mock")), Some("errorTypeTestNamespace"), None);
            var err := ErrorInfo(message, Some(errorType), None, Some(map["message" := StrProp(message)]));
            var sent := ChildSent(logger, SendErrorEvent(Event("A", map[]), Some(err)));
            sent.eventName == "errorTypeTestNamespace:A"
            && sent.props["category"] == StrProp("error")
            && sent.props["message"] == StrProp(message)
            && sent.props["error"] == StrProp(message)
            && sent.props["errorType"] == StrProp(errorType)
  {
  }

  // ---------------------------------------------------------------------------
  // Tags

  /** The logged value of a property: safe tags pass through, user data and unknown tags are redacted. */
  function RedactProperty(p: Property): (r: Prim)
    ensures r == p.value <== p.Plain? || p.tag == CodeArtifact || p.tag == PackageData
    ensures p.Tagged? && p.tag == UserData ==> r == Str(RedactedUserData)
    ensures p.Tagged? && p.tag != UserData && p.tag != CodeArtifact && p.tag != PackageData
            ==> r == Str(RedactedUnknownTag)
  {
    match p
    case Plain(v) => v
    case Tagged(v, tag) =>
      if tag == PackageData || tag == CodeArtifact then v
      else if tag == UserData then Str(RedactedUserData)
      else Str(RedactedUnknownTag)
  }

  /** The event `TaggedLoggerAdapter` forwards: every property untagged, redacted as its tag demands. */
  function Redacted(e: Event): (r: Event)
    ensures r.eventName == e.eventName && r.props.Keys == e.props.Keys
    ensures forall k :: k in r.props ==> r.props[k].Plain?
  {
    Event(e.eventName, map k | k in e.props :: Plain(RedactProperty(e.props[k])))
  }

  /** `TaggedLoggerAdapter.send`: the loop over the event's keys. */
  method RedactTags(e: Event) returns (r: Event)
    ensures r == Redacted(e)
  {
    r := Event(e.eventName, if "category" in e.props then map["category" := e.props["category"]] else map[]);
    var todo := e.props.Keys;
    while todo != {}
      invariant todo <= e.props.Keys && r.eventName == e.eventName
      invariant forall k :: k in r.props <==> k in e.props && (k !in todo || k == "category")
      invariant forall k :: k in e.props && k !in todo ==> r.props[k] == Plain(RedactProperty(e.props[k]))
      invariant "category" in todo && "category" in e.props ==> r.props["category"] == e.props["category"]
      decreases todo
    {
      var key :| key in todo;
      var value := RedactProperty(e.props[key]);
      r := r.(props := r.props[key := Plain(value)]);
      todo := todo - {key};
    }
  }

  /** Redaction leaves nothing to redact. */
  lemma RedactIdempotent(e: Event)
    ensures Redacted(Redacted(e)) == Redacted(e)
  {
  }

  /** `tagData(tag, values)`: the defined values, each tagged with `tag`. */
  function TagData(tag: string, values: map<string, Option<Prim>>): (r: Props)
    ensures forall k :: k in r <==> k in values && values[k].Some?
    ensures forall k :: k in r ==> r[k].Tagged? && r[k].tag == tag && Some(r[k].value) == values[k]
  {
    map k | k in values && values[k].Some? :: Tagged(values[k].value, tag)
  }

  /** `tagCodeArtifacts(values)`. */
  function TagCodeArtifacts(values: map<string, Option<Prim>>): (r: Props)
    ensures forall k :: k in r ==> r[k].Tagged? && r[k].tag == CodeArtifact
  {
    TagData(CodeArtifact, values)
  }

  /** Code artifacts reach the sink with their values; user data never does. */
  lemma RedactTaggedData(name: string, values: map<string, Option<Prim>>)
    ensures var r := Redacted(Event(name, TagCodeArtifacts(values)));
            forall k :: k in r.props ==> k in values && Some(r.props[k].value) == values[k]
    ensures var r := Redacted(Event(name, TagData(UserData, values)));
            forall k :: k in r.props ==> r.props[k] == StrProp(RedactedUserData)
  {
  }

  // ---------------------------------------------------------------------------
  // Performance events

  /** The category of the event a cancel reports. */
  datatype CancelCategory = GenericCancel | ErrorCancel

  function CategoryName(c: CancelCategory): string {
    match c
    case GenericCancel => "generic"
    case ErrorCancel => "error"
  }

  /** Which of the start, end and cancel events a performance event reports. */
  datatype Markers = Markers(start: bool, end: bool, cancel: Option<CancelCategory>)

  const DefaultMarkers := Markers(false, true, Some(GenericCancel))

  /** One `sendPerformanceEvent(event, error)` call on the logger. */
  datatype Report = Report(event: Event, error: Option<ErrorInfo>)

  /** A `window.performance.measure(name, startMark, endMark)` call. */
  datatype Measure = Measure(name: string, startMark: string, endMark: string)

  /** `{ ...event, ...props }`: the properties override the event's, `eventName` included. */
  function Spread(e: Event, p: Props): (r: Event)
    ensures forall k :: k in p && k != "eventName" ==> k in r.props && r.props[k] == p[k]
    ensures forall k :: k in e.props && k !in p && k != "eventName" ==> k in r.props && r.props[k] == e.props[k]
    ensures forall k :: k in r.props ==> k in e.props || k in p
    ensures "eventName" !in p ==> r.eventName == e.eventName
  {
    var name := if "eventName" in p && p["eventName"].Plain? && p["eventName"].value.Str?
                then p["eventName"].value.s else e.eventName;
    Event(name, (e.props + p) - {"eventName"})
  }

  /** The event reported for `suffix`; `duration` is the elapsed time, None for the start event. */
  function Reported(e: Event, suffix: string, props: Props, duration: Option<int>): (r: Event)
    ensures "eventName" !in props ==> r.eventName == e.eventName + "_" + suffix
    ensures duration.Some? ==> "duration" in r.props && r.props["duration"] == Plain(Num(duration.value))
    ensures forall k :: k in props && k != "eventName" && k != "duration" ==> k in r.props && r.props[k] == props[k]
  {
    var spread := Spread(e, props);
    Event(spread.eventName + "_" + suffix,
          if duration.Some? then spread.props["duration" := Plain(Num(duration.value))] else spread.props)
  }

  /** The measure `performanceEndMark` takes: one when both the start mark and the event are still there. */
  function EndMeasure(event: Option<Event>, startMark: Option<string>): (r: seq<Measure>)
    ensures |r| <= 1
    ensures r != [] <==> event.Some? && startMark.Some?
    ensures r != [] ==> r[0].name == event.value.eventName && r[0].startMark == startMark.value
  {
    if startMark.Some? && event.Some? then
      [Measure(event.value.eventName, startMark.value, event.value.eventName + "-end")]
    else []
  }

  class PerformanceEvent {
    /** The event being timed; None once it has ended or been cancelled. */
    var event: Option<Event>
    const markers: Markers
    /** The clock reading at the start. */
    const startTime: int
    var startMark: Option<string>
    /** The calls made on the logger, oldest first. */
    var reports: seq<Report>
    /** The measures taken with the host's performance marks. */
    var measures: seq<Measure>

    /** `PerformanceEvent.start`; `hasMarks` tells whether the host offers performance marks. */
    constructor(e: Event, markers: Option<Markers>, now: int, hasMarks: bool)
      ensures this.markers == markers.GetOr(DefaultMarkers) && startTime == now
      ensures event == Some(e) && measures == []
      ensures reports == if this.markers.start then [Report(Reported(e, "start", map[], None), None)] else []
      ensures startMark == if hasMarks then Some(e.eventName + "-start") else None
    {
      this.markers := markers.GetOr(DefaultMarkers);
      startTime := now;
      event := Some(e);
      startMark := None;
      reports := [];
      measures := [];
      new;
      if this.markers.start {
        ReportEvent("start", map[], None, now);
      }
      if hasMarks {
        startMark := Some(e.eventName + "-start");
      }
    }

    /** Whether the event has ended or been cancelled. */
    predicate Done()
      reads this
    {
      event.None?
    }

    /** `reportEvent(suffix, props, error)` at clock reading `now`: nothing once done. */
    method ReportEvent(suffix: string, props: Props, error: Option<ErrorInfo>, now: int)
      modifies this
      ensures event == old(event) && startMark == old(startMark) && measures == old(measures)
      ensures old(event).None? ==> reports == old(reports)
      ensures old(event).Some? ==>
                reports == old(reports) + [Report(Reported(old(event).value, suffix, props,
                                                           if suffix == "start" then None else Some(now - startTime)),
                                                  error)]
    {
      if event.None? {
        return;
      }
      var reported := Spread(event.value, props);
      reported := reported.(eventName := reported.eventName + "_" + suffix);
      if suffix != "start" {
        reported := reported.(props := reported.props["duration" := Plain(Num(now - startTime))]);
      }
      reports := reports + [Report(reported, error)];
    }

    /** `reportProgress(props, suffix)`; the source's default suffix is "update", which callers pass here explicitly. */
    method ReportProgress(props: Props, suffix: string, now: int)
      modifies this
      ensures event == old(event) && startMark == old(startMark) && measures == old(measures)
      ensures old(event).None? ==> reports == old(reports)
      ensures old(event).Some? ==>
                reports == old(reports) + [Report(Reported(old(event).value, suffix, props,
                                                           if suffix == "start" then None else Some(now - startTime)),
                                                  None)]
    {
      ReportEvent(suffix, props, None, now);
    }

    /** `performanceEndMark`: measure from the start mark, once. */
    method PerformanceEndMark()
      modifies this
      ensures event == old(event) && reports == old(reports)
      ensures measures == old(measures) + EndMeasure(old(event), old(startMark))
      ensures startMark == if old(event).Some? then None else old(startMark)
    {
      if startMark.Some? && event.Some? {
        var endMark := event.value.eventName + "-end";
        measures := measures + [Measure(event.value.eventName, startMark.value, endMark)];
        startMark := None;
      }
    }

    /** `end(props)`: report the end event (if not done yet) and finish. */
    method End(props: Props, now: int)
      modifies this
      ensures Done()
      ensures measures == old(measures) + EndMeasure(old(event), old(startMark))
      ensures startMark == if old(event).Some? then None else old(startMark)
      ensures old(event).None? ==> reports == old(reports)
      ensures old(event).Some? ==>
                reports == old(reports) + [Report(Reported(old(event).value, "end", props, Some(now - startTime)), None)]
    {
      ReportEvent("end", props, None, now);
      PerformanceEndMark();
      event := None;
    }

    /** `autoEnd()`: report the end event if still running and the end marker is on, and finish. */
    method AutoEnd(now: int)
      modifies this
      ensures Done()
      ensures measures == old(measures) + EndMeasure(old(event), old(startMark))
      ensures startMark == if old(event).Some? then None else old(startMark)
      ensures old(event).Some? && markers.end ==>
                reports == old(reports) + [Report(Reported(old(event).value, "end", map[], Some(now - startTime)), None)]
      ensures old(event).None? || !markers.end ==> reports == old(reports)
    {
      if event.Some? && markers.end {
        ReportEvent("end", map[], None, now);
      }
      PerformanceEndMark();
      event := None;
    }

    /** `cancel(props, error)`: report a cancel event only when the cancel marker is set, and finish. */
    method Cancel(props: Props, error: Option<ErrorInfo>, now: int)
      modifies this
      ensures Done() && startMark == old(startMark) && measures == old(measures)
      ensures markers.cancel.None? || old(event).None? ==> reports == old(reports)
      ensures markers.cancel.Some? && old(event).Some? ==>
                var cancelProps := map["category" := StrProp(CategoryName(markers.cancel.value))] + props;
                reports == old(reports) + [Report(Reported(old(event).value, "cancel", cancelProps, Some(now - startTime)),
                                                  error)]
    {
      if markers.cancel.Some? {
        ReportEvent("cancel", map["category" := StrProp(CategoryName(markers.cancel.value))] + props, error, now);
      }
      event := None;
    }
  }

  /** The report a cancel makes carries the cancel marker's category unless the props give another. */
  lemma CancelCategoryReported(e: Event, c: CancelCategory, props: Props, duration: int)
    requires "category" !in props
    ensures var r := Reported(e, "cancel", map["category" := StrProp(CategoryName(c))] + props, Some(duration));
            "category" in r.props && r.props["category"] == StrProp(CategoryName(c))
  {
  }
}
