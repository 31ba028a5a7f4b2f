/** Push rule conditions and actions, converted between the SDK and its foreign
    bindings. SDK integers are those of JSON, up to 2^53 - 1; foreign ones have 64 bits. */
module PushConditions {
  import opened Wrappers

  const MAX_SAFE: int := 0x1f_ffff_ffff_ffff

  type Int = x: int | -0x1f_ffff_ffff_ffff <= x <= 0x1f_ffff_ffff_ffff
  type UInt = x: int | 0 <= x <= 0x1f_ffff_ffff_ffff
  type I64 = x: int | -0x8000_0000_0000_0000 <= x < 0x8000_0000_0000_0000
  type U64 = x: int | 0 <= x < 0x1_0000_0000_0000_0000

  datatype Json<I> = Null | Bool(b: bool) | Integer(i: I) | String(s: string)

  datatype Operator = Eq | Lt | Gt | Ge | Le

  datatype Condition<I, U> =
    | EventMatch(key: string, pattern: string)
    | ContainsDisplayName
    | RoomMemberCount(prefix: Operator, count: U)
    | SenderNotificationPermission(key: string)
    | EventPropertyIs(key: string, value: Json<I>)
    | EventPropertyContains(key: string, value: Json<I>)
    | Unsupported(text: string)

  /** The SDK knows other conditions, the foreign side does not. */
  type SdkCondition = Condition<Int, UInt>
  type FfiCondition = c: Condition<I64, U64> | !c.Unsupported? witness ContainsDisplayName

  // --- Conversions -----------------------------------------------------------------------

  /** `Int::new(..).unwrap_or_default()`. */
  function ToInt(i: I64): Int {
    if -MAX_SAFE <= i <= MAX_SAFE then i else 0
  }

  function ToUInt(u: U64): UInt {
    if u <= MAX_SAFE then u else 0
  }

  function JsonToSdk(v: Json<I64>): Json<Int> {
    match v
    case Null => Null
    case Bool(b) => Bool(b)
    case Integer(i) => Integer(ToInt(i))
    case String(s) => String(s)
  }

  function JsonToFfi(v: Json<Int>): Json<I64> {
    match v
    case Null => Null
    case Bool(b) => Bool(b)
    case Integer(i) => Integer(i as I64)
    case String(s) => String(s)
  }

  function ToSdk(c: FfiCondition): SdkCondition {
    match c
    case EventMatch(key, pattern) => EventMatch(key, pattern)
    case ContainsDisplayName => ContainsDisplayName
    case RoomMemberCount(prefix, count) => RoomMemberCount(prefix, ToUInt(count))
    case SenderNotificationPermission(key) => SenderNotificationPermission(key)
    case EventPropertyIs(key, value) => EventPropertyIs(key, JsonToSdk(value))
    case EventPropertyContains(key, value) => EventPropertyContains(key, JsonToSdk(value))
  }

  /** `None` is the error for a condition the bindings do not know. */
  function ToFfi(c: SdkCondition): Option<FfiCondition> {
    match c
    case EventMatch(key, pattern) => Some(EventMatch(key, pattern))
    case ContainsDisplayName => Some(ContainsDisplayName)
    case RoomMemberCount(prefix, count) => Some(RoomMemberCount(prefix, count as U64))
    case SenderNotificationPermission(key) => Some(SenderNotificationPermission(key))
    case EventPropertyIs(key, value) => Some(EventPropertyIs(key, JsonToFfi(value)))
    case EventPropertyContains(key, value) => Some(EventPropertyContains(key, JsonToFfi(value)))
    case Unsupported(_) => None
  }

  // --- Meaning ---------------------------------------------------------------------------

  datatype Property = Value(value: Json<Int>) | Values(values: seq<Json<Int>>)

  /** What a condition is checked against. Matching patterns and the display name are
      left to the surroundings. */
  datatype Context = Context(properties: map<string, Property>, members: UInt, namesUser: bool, permitted: set<string>,
                             matching: set<(string, string)>)

  predicate Compares(op: Operator, a: int, b: int) {
    match op
    case Eq => a == b
    case Lt => a < b
    case Gt => a > b
    case Ge => a >= b
    case Le => a <= b
  }

  predicate SameValue<I(==)>(a: Json<Int>, b: Json<I>, number: I -> int) {
    match (a, b)
    case (Null, Null) => true
    case (Bool(x), Bool(y)) => x == y
    case (Integer(x), Integer(y)) => x == number(y)
    case (String(x), String(y)) => x == y
    case _ => false
  }

  /** When a condition of a push rule holds, as the Matrix Client-Server API says. */
  predicate Holds<I(==), U>(c: Condition<I, U>, number: I -> int, amount: U -> int, at: Context) {
    match c
    case EventMatch(key, pattern) => (key, pattern) in at.matching
    case ContainsDisplayName => at.namesUser
    case RoomMemberCount(prefix, count) => Compares(prefix, at.members, amount(count))
    case SenderNotificationPermission(key) => key in at.permitted
    case EventPropertyIs(key, value) =>
      key in at.properties && at.properties[key].Value? && SameValue(at.properties[key].value, value, number)
    case EventPropertyContains(key, value) =>
      && key in at.properties && at.properties[key].Values?
      && exists i :: 0 <= i < |at.properties[key].values| && SameValue(at.properties[key].values[i], value, number)
    case Unsupported(_) => false
  }

  predicate SdkHolds(c: SdkCondition, at: Context) {
    Holds(c, (i: Int) => i as int, (u: UInt) => u as int, at)
  }

  predicate FfiHolds(c: FfiCondition, at: Context) {
    Holds(c, (i: I64) => i as int, (u: U64) => u as int, at)
  }

  // --- What is preserved -----------------------------------------------------------------

  predicate SafeJson(v: Json<I64>) {
    v.Integer? ==> -MAX_SAFE <= v.i <= MAX_SAFE
  }

  predicate Safe(c: FfiCondition) {
    match c
    case RoomMemberCount(_, count) => count <= MAX_SAFE
    case EventPropertyIs(_, value) => SafeJson(value)
    case EventPropertyContains(_, value) => SafeJson(value)
    case _ => true
  }

  /** From the SDK and back nothing changes; exactly the unknown conditions are refused. */
  lemma SdkRoundTrip(c: SdkCondition)
    ensures ToFfi(c).None? <==> c.Unsupported?
    ensures ToFfi(c).Some? ==> Safe(ToFfi(c).value) && ToSdk(ToFfi(c).value) == c
  {
  }

  lemma FfiRoundTripIff(c: FfiCondition)
    ensures ToFfi(ToSdk(c)).Some? && (ToFfi(ToSdk(c)) == Some(c) <==> Safe(c))
  {
  }

  lemma SafeMeansTheSame(c: FfiCondition, at: Context)
    requires Safe(c)
    ensures SdkHolds(ToSdk(c), at) <==> FfiHolds(c, at)
  {
    if c.EventPropertyContains? && c.key in at.properties && at.properties[c.key].Values? {
      var vs := at.properties[c.key].values;
      assert forall i | 0 <= i < |vs| ::
          SameValue(vs[i], JsonToSdk(c.value), (i: Int) => i as int) <==>
              SameValue(vs[i], c.value, (i: I64) => i as int);
    }
  }

  /** An event that tells a condition from its conversion. */
  function Witness(c: FfiCondition): Context {
    var members := if c.RoomMemberCount? && !c.prefix.Eq? then 1 else 0;
    var properties := if c.EventPropertyIs? then map[c.key := Value(Integer(0))]
                      else if c.EventPropertyContains? then map[c.key := Values([Integer(0)])] else map[];
    Context(properties, members, false, {}, {})
  }

  lemma UnsafeMeansOther(c: FfiCondition)
    requires !Safe(c)
    ensures SdkHolds(ToSdk(c), Witness(c)) != FfiHolds(c, Witness(c))
  {
    if c.EventPropertyContains? {
      var vs := Witness(c).properties[c.key].values;
      assert vs == [Integer(0)] && SameValue(vs[0], JsonToSdk(c.value), (i: Int) => i as int);
    }
  }

  /** The conversion keeps the meaning of a condition, on every event, if and only if its
      integer is within range; otherwise that integer becomes 0. */
  lemma MeaningKeptIff(c: FfiCondition)
    ensures (forall at :: SdkHolds(ToSdk(c), at) <==> FfiHolds(c, at)) <==> Safe(c)
    ensures c.RoomMemberCount? && !Safe(c) ==> ToSdk(c) == RoomMemberCount(c.prefix, 0)
    ensures (c.EventPropertyIs? || c.EventPropertyContains?) && !Safe(c) ==> ToSdk(c).value == Integer(0)
  {
    hide SdkHolds, FfiHolds;
    if Safe(c) {
      forall at ensures SdkHolds(ToSdk(c), at) <==> FfiHolds(c, at) { SafeMeansTheSame(c, at); }
    } else {
      UnsafeMeansOther(c);
    }
  }

  // --- Custom rules ----------------------------------------------------------------------

  datatype Tweak = Sound(sound: string) | Highlight(on: bool) | Custom(name: string, json: string)
  datatype Action = Notify | SetTweak(tweak: Tweak)
  datatype SdkTweak = SdkSound(sound: string) | SdkHighlight(on: bool) | SdkCustom(name: string, json: string)
  datatype SdkAction = SdkNotify | SdkSetTweak(tweak: SdkTweak)
  datatype Result<T> = Ok(value: T) | Err(error: string)

  /** `custom` is the JSON parser together with the constructor of custom tweaks. */
  function TweakToSdk(t: Tweak, custom: (string, string) -> Result<SdkTweak>): Result<SdkTweak> {
    match t
    case Sound(sound) => Ok(SdkSound(sound))
    case Highlight(on) => Ok(SdkHighlight(on))
    case Custom(name, json) => custom(name, json)
  }

  function ActionToSdk(a: Action, custom: (string, string) -> Result<SdkTweak>): Result<SdkAction> {
    match a
    case Notify => Ok(SdkNotify)
    case SetTweak(tweak) =>
      match TweakToSdk(tweak, custom)
      case Ok(t) => Ok(SdkSetTweak(t))
      case Err(e) => Err("Failed to convert tweak: " + e)
  }

  /** What an action becomes: the same thing on the other side. */
  predicate IsAction(a: Action, custom: (string, string) -> Result<SdkTweak>, r: Result<SdkAction>) {
    match a
    case Notify => r == Ok(SdkNotify)
    case SetTweak(Sound(sound)) => r.Ok? && r.value.SdkSetTweak? && r.value.tweak.SdkSound?
        && r.value.tweak.sound == sound
    case SetTweak(Highlight(on)) => r.Ok? && r.value.SdkSetTweak? && r.value.tweak.SdkHighlight?
        && r.value.tweak.on == on
    case SetTweak(Custom(name, json)) =>
      var t := custom(name, json);
      && r.Ok? == t.Ok? && (t.Ok? ==> r.value == SdkSetTweak(t.value))
      && (t.Err? ==> r.error == "Failed to convert tweak: " + t.error)
  }

  lemma ActionIs(a: Action, custom: (string, string) -> Result<SdkTweak>)
    ensures IsAction(a, custom, ActionToSdk(a, custom))
  {
  }

  datatype Rule = Rule(id: string, actions: seq<SdkAction>, conditions: seq<SdkCondition>)

  /** A custom rule is created with every action and condition, in order, or not at all:
      the first action that does not convert is reported, or else what `create`, the call
      to the server, says is wrong with the rule. */
  method SetCustomPushRule(rules: seq<Rule>, id: string, actions: seq<Action>, conditions: seq<FfiCondition>,
                           custom: (string, string) -> Result<SdkTweak>, create: Rule -> Option<string>)
    returns (rules': seq<Rule>, error: Option<string>)
    ensures error.Some? ==> rules' == rules
    ensures (exists i :: 0 <= i < |actions| && ActionToSdk(actions[i], custom).Err?) ==>
              exists i :: 0 <= i < |actions| && error.Some? && ActionToSdk(actions[i], custom) == Err(error.value)
                          && forall j | 0 <= j < i :: ActionToSdk(actions[j], custom).Ok?
    ensures (forall i | 0 <= i < |actions| :: ActionToSdk(actions[i], custom).Ok?) ==>
              exists rule :: IsConverted(rule, id, actions, conditions, custom) && error == create(rule)
                             && (error.None? ==> rules' == rules + [rule])
  {
    hide ActionToSdk, ToSdk, IsAction;
    var converted: seq<SdkAction> := [];
    var n := 0;
    while n < |actions|
      invariant 0 <= n <= |actions| && |converted| == n
      invariant forall i | 0 <= i < n :: ActionToSdk(actions[i], custom) == Ok(converted[i])
    {
      match ActionToSdk(actions[n], custom) {
        case Err(e) => return rules, Some(e);
        case Ok(a) => converted := converted + [a];
      }
      n := n + 1;
    }
    var all := seq(|conditions|, i requires 0 <= i < |conditions| => ToSdk(conditions[i]));
    var rule := Rule(id, converted, all);
    forall i | 0 <= i < |actions| ensures IsAction(actions[i], custom, Ok(rule.actions[i])) {
      ActionIs(actions[i], custom);
    }
    assert IsConverted(rule, id, actions, conditions, custom);
    error := create(rule);
    rules' := if error.None? then rules + [rule] else rules;
  }

  /** The rule that the arguments describe. */
  ghost predicate IsConverted(rule: Rule, id: string, actions: seq<Action>, conditions: seq<FfiCondition>,
                              custom: (string, string) -> Result<SdkTweak>)
  {
    && rule.id == id && |rule.actions| == |actions| && |rule.conditions| == |conditions|
    && (forall i | 0 <= i < |actions| :: Ok(rule.actions[i]) == ActionToSdk(actions[i], custom))
    && (forall i | 0 <= i < |actions| :: IsAction(actions[i], custom, Ok(rule.actions[i])))
    && (forall i | 0 <= i < |conditions| :: rule.conditions[i] == ToSdk(conditions[i]))
  }
}
