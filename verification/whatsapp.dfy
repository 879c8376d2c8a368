/**
 The WhatsApp component: its catalog of 5 actions, its one boolean field and
 its declared inputs. Fields are sent under their own names.
 */
module WhatsApp {
  import opened Wrappers
  import opened Py
  import opened Composio

  /** `_actions_data`, in declaration order. */
  const Catalog: seq<ActionEntry> := [
    ActionEntry("WHATSAPP_SEND_CONTACTS", "Send Contacts", ["contacts", "to_number"]),
    ActionEntry("WHATSAPP_SEND_LOCATION", "Send Location", ["address", "latitude", "longitude", "name", "to_number"]),
    ActionEntry("WHATSAPP_SEND_MEDIA", "Send Media", ["caption", "link", "media_type", "to_number"]),
    ActionEntry("WHATSAPP_SEND_MESSAGE", "Send Message", ["message_id", "preview_url", "text", "to_number"]),
    ActionEntry("WHATSAPP_SEND_TEMPLATE_MESSAGE", "Send Template Message", ["language_code", "template_name", "to_number"])
  ]

  /** `_bool_variables`. */
  const BoolFields: set<string> := {"preview_url"}

  /** The component's own `inputs`, in declaration order. */
  const Inputs: seq<InputDecl> := [
    InputDecl("contacts", MessageTextInput, true),
    InputDecl("to_number", MessageTextInput, true),
    InputDecl("address", MessageTextInput, true),
    InputDecl("latitude", MessageTextInput, true),
    InputDecl("longitude", MessageTextInput, true),
    InputDecl("name", MessageTextInput, true),
    InputDecl("caption", MessageTextInput, false),
    InputDecl("link", MessageTextInput, true),
    InputDecl("media_type", MessageTextInput, true),
    InputDecl("message_id", MessageTextInput, false),
    InputDecl("preview_url", BoolInput, false),
    InputDecl("text", MessageTextInput, true),
    InputDecl("language_code", MessageTextInput, false),
    InputDecl("template_name", MessageTextInput, true)
  ]

  /** `set_default_tools`. */
  const DefaultTools: set<string> := {"WHATSAPP_SEND_MESSAGE", "WHATSAPP_SEND_MEDIA"}

  const Integration: Component := Component(Catalog, BoolFields, Identity)

  /**
   The names of `inputs`, in order. The list repeats `Inputs` on purpose: the
   facts about declared names are proved over this plain list of strings, which
   the solver handles far more cheaply, and `InputNamesInOrder` ties it to `Inputs`.
   */
  const InputNames: seq<string> := [
    "contacts", "to_number", "address", "latitude", "longitude", "name", "caption", "link",
    "media_type", "message_id", "preview_url", "text", "language_code", "template_name"
  ]

  /** No two actions share a display name, so the display-to-key map is the inverse of the catalog. */
  lemma DisplayNamesDistinct()
    ensures DistinctDisplayNames(Catalog)
  {
    forall i, j | 0 <= i < j < |Catalog|
      ensures Catalog[i].displayName != Catalog[j].displayName
    {
      var a, b := Catalog[i].displayName, Catalog[j].displayName;
      assert |a| != |b| || a != b;
    }
  }

  lemma KeysDistinct()
    ensures DistinctKeys(Catalog)
  {
    forall i, j | 0 <= i < j < |Catalog|
      ensures Catalog[i].key != Catalog[j].key
    {
      var a, b := Catalog[i].key, Catalog[j].key;
      assert |a| != |b| || a != b;
    }
  }

  /** Both default tools are catalog keys. */
  lemma DefaultToolsAreKeys()
    ensures forall t | t in DefaultTools :: IsKey(Catalog, t)
  {
    assert Catalog[2].key == "WHATSAPP_SEND_MEDIA";
    assert Catalog[3].key == "WHATSAPP_SEND_MESSAGE";
  }

  lemma InputNamesInOrder()
    ensures NamedInOrder(Inputs, InputNames)
  {
  }

  /** Every action field is one of the input names. */
  lemma FieldsCovered()
    ensures forall i, j | 0 <= i < |Catalog| && 0 <= j < |Catalog[i].fields| :: Catalog[i].fields[j] in InputNames
  {
  }

  /** Every field of every action has a declared input. */
  lemma AllFieldsDeclared()
    ensures FieldsDeclaredExcept(Catalog, Inputs, {})
  {
    InputNamesInOrder();
    DeclaredByList(Inputs, InputNames);
    FieldsCovered();
  }

  /** Every key is non-empty, so the `if not action_key` test never rejects a catalog row. */
  lemma KeysNonEmpty()
    ensures forall i | 0 <= i < |Catalog| :: |Catalog[i].key| > 0
  {
  }

  /**
   When every declared input can be read, whatever other attributes can be,
   every action the SDK knows reaches the one remote call: no field read fails.
   */
  lemma EveryActionReachesRemote<E>(i: int, actions: map<string, E>, remote: (E, map<string, Value>) -> Reply, values: map<string, Value>)
    requires 0 <= i < |Catalog|
    requires DeclaredReadable(Inputs, values)
    requires Catalog[i].key in actions
    ensures BuildParams(Integration, Catalog[i].key, values).Ok?
    ensures Execute(Integration, actions, remote, Text(Catalog[i].displayName), values)
              == match remote(actions[Catalog[i].key], BuildParams(Integration, Catalog[i].key, values).value)
                 case Returned(envelope) => Ok(Unwrap(envelope))
                 case Raised(m) => Err(Failed(Catalog[i].displayName, RemoteError(m)))
  {
    DisplayNamesDistinct();
    KeysDistinct();
    KeysNonEmpty();
    AllFieldsDeclared();
    DeclaredActionsReachRemote(Integration, Inputs, actions, remote, i, values);
  }

  /** `preview_url` is declared as a boolean input. */
  lemma PreviewUrlIsBool()
    ensures IsDeclaredAs(Inputs, "preview_url", BoolInput)
  {
    assert Inputs[10].name == "preview_url" && Inputs[10].kind == BoolInput;
  }

  /** Every action lists `to_number`. */
  lemma ToNumberEverywhere()
    ensures forall i | 0 <= i < |Catalog| :: "to_number" in Catalog[i].fields
  {
  }

  /**
   The payload's keys are exactly the selected action's fields whose value is
   neither `None` nor "", each with its coerced value.
   */
  lemma PayloadFields(i: int, values: map<string, Value>, p: map<string, Value>)
    requires 0 <= i < |Catalog|
    requires BuildParams(Integration, Catalog[i].key, values) == Ok(p)
    ensures forall k :: k in p <==> k in Catalog[i].fields && k in values && !IsBlank(values[k])
    ensures forall k | k in p :: p[k] == Coerce(BoolFields, k, values[k])
  {
    KeysDistinct();
    BuildParamsDescribes(Integration, i, values);
    KeptNamesPayload(Integration, Catalog[i].key, Catalog[i].fields, values, p);
  }

  /** Whatever the action, a `to_number` that is neither `None` nor "" is sent unchanged. */
  lemma ToNumberSent(i: int, values: map<string, Value>, p: map<string, Value>)
    requires 0 <= i < |Catalog|
    requires BuildParams(Integration, Catalog[i].key, values) == Ok(p)
    requires "to_number" in values && !IsBlank(values["to_number"])
    ensures "to_number" in p && p["to_number"] == values["to_number"]
  {
    ToNumberEverywhere();
    KeysDistinct();
    IdentityRowSends(Integration, i, values, p, "to_number");
    assert "to_number" !in BoolFields;
  }

  /** The "Send Message" row, the only one with `preview_url`. */
  lemma SendMessageRow()
    ensures Catalog[3] == ActionEntry("WHATSAPP_SEND_MESSAGE", "Send Message", ["message_id", "preview_url", "text", "to_number"])
  {
  }

  /**
   "Send Message" sends `preview_url` as `bool(value)`, and a `False` value is
   still sent: only `None` and "" are skipped.
   */
  lemma PreviewUrlSent(values: map<string, Value>, p: map<string, Value>)
    requires BuildParams(Integration, Catalog[3].key, values) == Ok(p)
    requires "preview_url" in values && !IsBlank(values["preview_url"])
    ensures "preview_url" in p && p["preview_url"] == Bool(Truthy(values["preview_url"]))
    ensures values["preview_url"] == Bool(false) ==> p["preview_url"] == Bool(false)
  {
    SendMessageRow();
    KeysDistinct();
    IdentityRowSends(Integration, 3, values, p, "preview_url");
  }
}
