/** Join rules, converted between the SDK and its foreign bindings. The JSON codec is given
    by its two functions. */
module JoinRules {
  import opened Wrappers

  datatype SdkAllow<J> = RoomMembership(room: string) | CustomAllow(json: J) | UnknownAllow
  datatype SdkRule<J> =
    | Public | Invite | Knock | Private
    | Restricted(allow: seq<SdkAllow<J>>) | KnockRestricted(allow: seq<SdkAllow<J>>)
    | CustomRule(name: string, json: J) | UnknownRule

  datatype FfiAllow = FfiRoomMembership(room: string) | FfiCustomAllow(json: string)
  datatype FfiRule =
    | FfiPublic | FfiInvite | FfiKnock | FfiPrivate
    | FfiRestricted(rules: seq<FfiAllow>) | FfiKnockRestricted(rules: seq<FfiAllow>)
    | FfiCustomRule(repr: string)

  datatype Codec<!J> = Codec(roomId: string -> bool, write: J -> Option<string>,
                             parseAllow: string -> Option<SdkAllow<J>>, parseRule: string -> Option<SdkRule<J>>)

  function AllowToFfi<J>(codec: Codec<J>, a: SdkAllow<J>): Option<FfiAllow> {
    match a
    case RoomMembership(room) => Some(FfiRoomMembership(room))
    case CustomAllow(json) => (match codec.write(json) case None => None case Some(text) => Some(FfiCustomAllow(text)))
    case UnknownAllow => None
  }

  function AllowToSdk<J>(codec: Codec<J>, a: FfiAllow): Option<SdkAllow<J>> {
    match a
    case FfiRoomMembership(room) => if codec.roomId(room) then Some(RoomMembership(room)) else None
    case FfiCustomAllow(json) => codec.parseAllow(json)
  }

  function RulesToFfi<J>(codec: Codec<J>, rules: seq<SdkAllow<J>>): Option<seq<FfiAllow>> {
    All(a => AllowToFfi(codec, a), rules)
  }

  function RulesToSdk<J>(codec: Codec<J>, rules: seq<FfiAllow>): Option<seq<SdkAllow<J>>> {
    All(a => AllowToSdk(codec, a), rules)
  }

  function ToFfi<J>(codec: Codec<J>, r: SdkRule<J>): Option<FfiRule> {
    match r
    case Public => Some(FfiPublic)
    case Invite => Some(FfiInvite)
    case Knock => Some(FfiKnock)
    case Private => Some(FfiPrivate)
    case Restricted(allow) =>
      (match RulesToFfi(codec, allow) case None => None case Some(rules) => Some(FfiRestricted(rules)))
    case KnockRestricted(allow) =>
      (match RulesToFfi(codec, allow) case None => None case Some(rules) => Some(FfiKnockRestricted(rules)))
    case CustomRule(name, _) => Some(FfiCustomRule(name))
    case UnknownRule => None
  }

  function ToSdk<J>(codec: Codec<J>, r: FfiRule): Option<SdkRule<J>> {
    match r
    case FfiPublic => Some(Public)
    case FfiInvite => Some(Invite)
    case FfiKnock => Some(Knock)
    case FfiPrivate => Some(Private)
    case FfiRestricted(rules) =>
      (match RulesToSdk(codec, rules) case None => None case Some(allow) => Some(Restricted(allow)))
    case FfiKnockRestricted(rules) =>
      (match RulesToSdk(codec, rules) case None => None case Some(allow) => Some(KnockRestricted(allow)))
    case FfiCustomRule(repr) => codec.parseRule(repr)
  }

  /** Which kind a rule is shown as, and what of it. */
  predicate IsShown<J>(codec: Codec<J>, r: SdkRule<J>, shown: FfiRule) {
    && r.Public? == shown.FfiPublic? && r.Invite? == shown.FfiInvite? && r.Knock? == shown.FfiKnock?
    && r.Private? == shown.FfiPrivate? && r.Restricted? == shown.FfiRestricted?
    && r.KnockRestricted? == shown.FfiKnockRestricted? && r.CustomRule? == shown.FfiCustomRule?
    && (r.Restricted? || r.KnockRestricted? ==>
          |shown.rules| == |r.allow| && forall i | 0 <= i < |r.allow| ::
              IsAllowShown(codec, r.allow[i], shown.rules[i]))
    && (r.CustomRule? ==> shown.repr == r.name)
  }

  predicate IsAllowShown<J>(codec: Codec<J>, a: SdkAllow<J>, shown: FfiAllow) {
    match a
    case RoomMembership(room) => shown.FfiRoomMembership? && shown.room == room
    case CustomAllow(json) => shown.FfiCustomAllow? && codec.write(json) == Some(shown.json)
    case UnknownAllow => false
  }

  predicate CanBeShown<J>(codec: Codec<J>, a: SdkAllow<J>) {
    a.RoomMembership? || (a.CustomAllow? && codec.write(a.json).Some?)
  }

  /** Every rule is shown as what it is, unless nobody knows it, or one of what it allows
      cannot be. */
  lemma ShownIff<J>(codec: Codec<J>, r: SdkRule<J>)
    ensures ToFfi(codec, r).None? <==>
            || r.UnknownRule?
            || ((r.Restricted? || r.KnockRestricted?) && exists i ::
                0 <= i < |r.allow| && !CanBeShown(codec, r.allow[i]))
    ensures ToFfi(codec, r).Some? ==> IsShown(codec, r, ToFfi(codec, r).value)
  {
    var f := a => AllowToFfi(codec, a);
    if r.Restricted? || r.KnockRestricted? {
      assert forall i | 0 <= i < |r.allow| :: f(r.allow[i]).Some? <==> CanBeShown(codec, r.allow[i]);
    }
  }

  /** What is written parses to what it was, and room identifiers of the SDK are valid. */
  ghost predicate Faithful<J>(codec: Codec<J>, a: SdkAllow<J>) {
    match a
    case RoomMembership(room) => codec.roomId(room)
    case CustomAllow(json) => codec.write(json).Some? ==> codec.parseAllow(codec.write(json).value) == Some(a)
    case UnknownAllow => true
  }

  ghost predicate FaithfulRule<J>(codec: Codec<J>, r: SdkRule<J>) {
    r.Restricted? || r.KnockRestricted? ==> forall i | 0 <= i < |r.allow| :: Faithful(codec, r.allow[i])
  }

  lemma AllowRulesRoundTrip<J>(codec: Codec<J>, rules: seq<SdkAllow<J>>)
    requires RulesToFfi(codec, rules).Some? && forall i | 0 <= i < |rules| :: Faithful(codec, rules[i])
    ensures |RulesToFfi(codec, rules).value| == |rules|
    ensures RulesToSdk(codec, RulesToFfi(codec, rules).value) == Some(rules)
  {
    var ffi := RulesToFfi(codec, rules).value;
    forall i | 0 <= i < |rules| ensures AllowToSdk(codec, ffi[i]) == Some(rules[i]) {
      assert AllowToFfi(codec, rules[i]) == Some(ffi[i]);
    }
    assert RulesToSdk(codec, ffi).value == rules;
  }

  /** The JSON text of a custom rule is an object that has the name as one of its strings. */
  ghost predicate NamesAreInside<J(!new)>(codec: Codec<J>) {
    forall text, name, json :: codec.parseRule(text) == Some(CustomRule(name, json)) ==> |name| < |text|
  }

  /** A rule that the bindings can show comes back unchanged, allow list and all, if and only
      if it is not a custom one: of that only the name is kept, and read as if it were JSON. */
  lemma RoundTrip<J(!new)>(codec: Codec<J>, r: SdkRule<J>)
    requires NamesAreInside(codec) && FaithfulRule(codec, r) && ToFfi(codec, r).Some?
    ensures ToSdk(codec, ToFfi(codec, r).value) == Some(r) <==> !r.CustomRule?
  {
    hide RulesToFfi, RulesToSdk;
    if r.Restricted? || r.KnockRestricted? { AllowRulesRoundTrip(codec, r.allow); }
  }

  /** A codec with one custom rule, whose JSON has no more than the name. */
  function Quoted(name: string): string {
    "{\"join_rule\":\"" + name + "\"}"
  }

  function OneRuleCodec(name: string): Codec<()> {
    Codec(_ => true, _ => None, _ => None, text => if text == Quoted(name) then Some(CustomRule(name, ())) else None)
  }

  /** The SDK reads such a rule, shows it to the bindings, and refuses it from there. */
  lemma CustomRuleIsRefused(name: string)
    ensures var codec, r := OneRuleCodec(name), CustomRule(name, ());
            && NamesAreInside(codec) && codec.parseRule(Quoted(name)) == Some(r)
            && ToFfi(codec, r).Some? && ToSdk(codec, ToFfi(codec, r).value) == None
  {
    assert |Quoted(name)| > |name|;
  }

  /** One rule that does not convert fails the whole list; otherwise all do, in order. */
  lemma AllOrNothing<J>(codec: Codec<J>, rules: seq<FfiAllow>)
    ensures ToSdk(codec, FfiRestricted(rules)).None? <==>
            exists i :: 0 <= i < |rules| && AllowToSdk(codec, rules[i]).None?
    ensures ToSdk(codec, FfiKnockRestricted(rules)).None? <==>
            exists i :: 0 <= i < |rules| && AllowToSdk(codec, rules[i]).None?
    ensures ToSdk(codec, FfiRestricted(rules)).Some? ==>
              var r := ToSdk(codec, FfiRestricted(rules)).value;
              r.Restricted? && |r.allow| == |rules| && forall i | 0 <= i < |rules| ::
                  AllowToSdk(codec, rules[i]) == Some(r.allow[i])
    ensures ToSdk(codec, FfiKnockRestricted(rules)).Some? ==>
              var r := ToSdk(codec, FfiKnockRestricted(rules)).value;
              r.KnockRestricted? && |r.allow| == |rules| && forall i | 0 <= i < |rules| ::
                  AllowToSdk(codec, rules[i]) == Some(r.allow[i])
  {
    hide AllowToSdk;
    var f := a => AllowToSdk(codec, a);
    assert forall i | 0 <= i < |rules| :: f(rules[i]) == AllowToSdk(codec, rules[i]);
  }
}
