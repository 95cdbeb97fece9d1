/** Application settings as the portal reads them: a map from setting key to
    a JSON value, the accessors that read the portal switches out of it, and
    the admin form schema that validates portal settings before they are
    saved. JSON numbers are integers here. */
module Settings {
  import opened Envelope

  /** A JSON value. An object's members play no part in any decision here,
      so they are not kept. */
  datatype JsonValue =
    | JNull
    | JBool(b: bool)
    | JNumber(n: int)
    | JString(s: string)
    | JArray(items: seq<JsonValue>)
    | JObject

  type SettingsMap = map<string, JsonValue>

  const PortalEnabledKey: string := "app.portal_enabled"
  const PortalDefaultInboxKey: string := "app.portal_default_inbox_id"
  const OrganizationsEnabledKey: string := "app.organizations_enabled"

  /** A key's value, read as JSON null when the key is missing. */
  function Lookup(s: SettingsMap, key: string): (v: JsonValue)
    ensures key in s ==> v == s[key]
    ensures key !in s ==> v == JNull
  {
    if key in s then s[key] else JNull
  }

  /** `settings["app.portal_enabled"].(bool)` with the failed assertion
      ignored: a missing key or a value of another type reads as false
      (cmd/portal.go:45). */
  function PortalEnabled(s: SettingsMap): (on: bool)
    ensures on <==> PortalEnabledKey in s && s[PortalEnabledKey] == JBool(true)
  {
    match Lookup(s, PortalEnabledKey)
    case JBool(b) => b
    case _ => false
  }

  /** `settings["app.portal_default_inbox_id"].(float64)` with the failed
      assertion ignored: anything but a number reads as 0 (cmd/portal.go:436). */
  function PortalDefaultInboxID(s: SettingsMap): (id: int)
    ensures PortalDefaultInboxKey in s && s[PortalDefaultInboxKey].JNumber? ==> id == s[PortalDefaultInboxKey].n
    ensures !(PortalDefaultInboxKey in s && s[PortalDefaultInboxKey].JNumber?) ==> id == 0
  {
    match Lookup(s, PortalDefaultInboxKey)
    case JNumber(n) => n
    case _ => 0
  }

  // ---------------------------------------------------------------------------
  // The portal settings form (frontend/src/features/admin/portal/portalFormSchema.js)

  /** The two validated portal settings. */
  datatype PortalForm = PortalForm(portalEnabled: bool, defaultInboxID: int)

  /** Validation either yields the settings or the paths of the fields
      reported as wrong. */
  datatype FormResult = Accepted(form: PortalForm) | Rejected(paths: seq<string>)

  const EnabledField: string := "portal_enabled"
  const InboxField: string := "portal_default_inbox_id"

  /** The boolean field: optional, false when missing, and of no other type. */
  function EnabledFieldValue(v: Option<JsonValue>): (r: Option<bool>)
    ensures v.None? ==> r == Some(false)
    ensures v.Some? ==> (r.Some? <==> v.value.JBool?)
    ensures v.Some? && v.value.JBool? ==> r == Some(v.value.b)
  {
    match v
    case None => Some(false)
    case Some(JBool(b)) => Some(b)
    case Some(_) => None
  }

  /** JavaScript's Number() on a JSON value; None stands for NaN. How a
      string reads as a number is `numberOf`'s answer. Null reads as 0 and
      booleans as 1 and 0. An array is first turned into its text, the
      elements joined by commas with null as "": the empty array reads as 0,
      an array of two or more elements has a comma and is NaN, and a
      one-element array reads as its element's text does, which for a boolean
      is "true" or "false" and so NaN. An object's text is
      "[object Object]", which is NaN. */
  function JsNumber(v: JsonValue, numberOf: string -> Option<int>): (r: Option<int>)
    ensures v.JNumber? ==> r == Some(v.n)
    ensures v.JString? ==> r == numberOf(v.s)
    ensures v.JNull? || v == JArray([]) ==> r == Some(0)
    ensures v.JObject? ==> r.None?
    ensures v.JArray? && |v.items| >= 2 ==> r.None?
    decreases v
  {
    match v
    case JNull => Some(0)
    case JBool(b) => Some(if b then 1 else 0)
    case JNumber(n) => Some(n)
    case JString(s) => numberOf(s)
    case JObject => None
    case JArray(items) =>
      if |items| == 0 then Some(0)
      else if |items| >= 2 then None
      else
        assert items[0] in items;
        match items[0]
        case JNull => Some(0)
        case JBool(_) => None
        case _ => JsNumber(items[0], numberOf)
  }

  /** Wrapping a value in a one-element array does not change the number it
      reads as, except for a boolean, whose text is not numeric. */
  lemma SingletonArrayReadsAsElement(v: JsonValue, numberOf: string -> Option<int>)
    ensures !v.JBool? ==> JsNumber(JArray([v]), numberOf) == JsNumber(v, numberOf)
    ensures v.JBool? ==> JsNumber(JArray([v]), numberOf).None?
  {
  }

  /** The number field: optional, 0 when missing, and otherwise coerced to a
      number the way JavaScript's Number() does; NaN is refused. */
  function InboxFieldValue(v: Option<JsonValue>, numberOf: string -> Option<int>): (r: Option<int>)
    ensures v.None? ==> r == Some(0)
    ensures v == Some(JNull) ==> r == Some(0)
    ensures v.Some? && v.value.JNumber? ==> r == Some(v.value.n)
    ensures v.Some? && v.value.JBool? ==> r == Some(if v.value.b then 1 else 0)
    ensures v.Some? && v.value.JString? ==> r == numberOf(v.value.s)
    ensures v.Some? ==> r == JsNumber(v.value, numberOf)
    ensures v == Some(JObject) ==> r.None?
  {
    match v
    case None => Some(0)
    case Some(x) => JsNumber(x, numberOf)
  }

  /** An empty array or an array holding one number is accepted as a number:
      `[]` reads as 0 and `[7]` as 7. */
  lemma ArraysCoerce(n: int, numberOf: string -> Option<int>)
    ensures InboxFieldValue(Some(JArray([])), numberOf) == Some(0)
    ensures InboxFieldValue(Some(JArray([JNumber(n)])), numberOf) == Some(n)
    ensures ValidatePortalForm(None, Some(JArray([])), numberOf) == Accepted(PortalForm(false, 0))
  {
  }

  /** The form rule: a disabled portal needs nothing, an enabled one needs a
      positive default inbox. */
  predicate PortalRule(f: PortalForm) {
    !f.portalEnabled || f.defaultInboxID > 0
  }

  /** createPortalFormSchema: the fields are parsed first; only when both
      parse is the rule checked, and its failure is reported on the inbox
      field. */
  function ValidatePortalForm(enabled: Option<JsonValue>, inbox: Option<JsonValue>,
                              numberOf: string -> Option<int>): (r: FormResult)
    ensures r.Accepted? <==>
      && EnabledFieldValue(enabled).Some? && InboxFieldValue(inbox, numberOf).Some?
      && PortalRule(PortalForm(EnabledFieldValue(enabled).value, InboxFieldValue(inbox, numberOf).value))
    ensures r.Accepted? ==>
      r.form == PortalForm(EnabledFieldValue(enabled).value, InboxFieldValue(inbox, numberOf).value)
      && PortalRule(r.form)
    ensures r.Rejected? ==> r.paths != [] && forall p :: p in r.paths ==> p == EnabledField || p == InboxField
    ensures r.Rejected? && EnabledFieldValue(enabled).Some? ==> r.paths == [InboxField]
  {
    var e := EnabledFieldValue(enabled);
    var n := InboxFieldValue(inbox, numberOf);
    if e.None? || n.None? then
      Rejected((if e.None? then [EnabledField] else []) + (if n.None? then [InboxField] else []))
    else
      var f := PortalForm(e.value, n.value);
      if PortalRule(f) then Accepted(f) else Rejected([InboxField])
  }

  /** An empty form is valid: the portal is off and the inbox is 0. */
  lemma EmptyFormAccepted(numberOf: string -> Option<int>)
    ensures ValidatePortalForm(None, None, numberOf) == Accepted(PortalForm(false, 0))
  {
  }

  /** Enabling the portal without a positive inbox is refused on the inbox
      field; a positive inbox, even one given as a numeric string, passes. */
  lemma EnabledNeedsPositiveInbox(inbox: Option<JsonValue>, numberOf: string -> Option<int>)
    requires InboxFieldValue(inbox, numberOf).Some?
    ensures ValidatePortalForm(Some(JBool(true)), inbox, numberOf).Accepted?
        <==> InboxFieldValue(inbox, numberOf).value > 0
    ensures InboxFieldValue(inbox, numberOf).value <= 0 ==>
      ValidatePortalForm(Some(JBool(true)), inbox, numberOf) == Rejected([InboxField])
  {
  }

  /** What the form accepts is what the server side needs to create portal
      conversations: a saved, enabled portal reads back with a non-zero
      default inbox. */
  lemma AcceptedFormSatisfiesPortal(enabled: Option<JsonValue>, inbox: Option<JsonValue>,
                                    numberOf: string -> Option<int>, s: SettingsMap)
    requires ValidatePortalForm(enabled, inbox, numberOf).Accepted?
    requires
      var f := ValidatePortalForm(enabled, inbox, numberOf).form;
      s == map[PortalEnabledKey := JBool(f.portalEnabled), PortalDefaultInboxKey := JNumber(f.defaultInboxID)]
    ensures PortalEnabled(s) ==> PortalDefaultInboxID(s) > 0
  {
  }
}
