/**
 The Notion component: its catalog of 23 actions, its boolean fields and its
 declared inputs. Fields are sent under their own names.
 */
module Notion {
  import opened Wrappers
  import opened Py
  import opened Composio

  /** `_actions_data`, in declaration order. */
  const Catalog: seq<ActionEntry> := [
    ActionEntry("NOTION_ADD_PAGE_CONTENT", "Add Page Content", ["after", "content_block", "parent_block_id"]),
    ActionEntry("NOTION_APPEND_BLOCK_CHILDREN", "Append Block Children", ["after", "block_id", "children"]),
    ActionEntry("NOTION_ARCHIVE_NOTION_PAGE", "Archive Notion Page", ["archive", "page_id"]),
    ActionEntry("NOTION_CREATE_COMMENT", "Create Comment", ["comment", "discussion_id", "parent_page_id"]),
    ActionEntry("NOTION_CREATE_DATABASE", "Create Database", ["parent_id", "properties", "title"]),
    ActionEntry("NOTION_CREATE_NOTION_PAGE", "Create Notion Page", ["cover", "icon", "parent_id", "title"]),
    ActionEntry("NOTION_DELETE_BLOCK", "Delete Block", ["block_id"]),
    ActionEntry("NOTION_DUPLICATE_PAGE", "Duplicate Page", ["page_id", "parent_id", "title"]),
    ActionEntry("NOTION_FETCH_COMMENTS", "Fetch Comments", ["block_id", "page_size", "start_cursor"]),
    ActionEntry("NOTION_FETCH_DATABASE", "Fetch Database", ["database_id"]),
    ActionEntry("NOTION_FETCH_NOTION_BLOCK", "Fetch Notion Block", ["block_id"]),
    ActionEntry("NOTION_FETCH_NOTION_CHILD_BLOCK", "Fetch Notion Child Block", ["block_id", "page_size", "start_cursor"]),
    ActionEntry("NOTION_FETCH_ROW", "Fetch Row", ["page_id"]),
    ActionEntry("NOTION_GET_ABOUT_ME", "Get About Me", []),
    ActionEntry("NOTION_GET_ABOUT_USER", "Get About User", ["user_id"]),
    ActionEntry("NOTION_GET_PAGE_PROPERTY_ACTION", "Get Page Property", ["page_id", "page_size", "property_id", "start_cursor"]),
    ActionEntry("NOTION_INSERT_ROW_DATABASE", "Insert Row Database", ["child_blocks", "cover", "database_id", "icon", "properties"]),
    ActionEntry("NOTION_LIST_USERS", "List Users", ["page_size", "start_cursor"]),
    ActionEntry("NOTION_NOTION_UPDATE_BLOCK", "Update Block", ["additional_properties", "block_id", "block_type", "content"]),
    ActionEntry("NOTION_QUERY_DATABASE", "Query Database", ["database_id", "page_size", "sorts", "start_cursor"]),
    ActionEntry("NOTION_SEARCH_NOTION_PAGE", "Search Notion Page", ["direction", "filter_property", "filter_value", "page_size", "query", "start_cursor", "timestamp"]),
    ActionEntry("NOTION_UPDATE_ROW_DATABASE", "Update Row Database", ["cover", "delete_row", "icon", "properties", "row_id"]),
    ActionEntry("NOTION_UPDATE_SCHEMA_DATABASE", "Update Schema Database", ["database_id", "description", "properties", "title"])
  ]

  /** `_bool_variables`. */
  const BoolFields: set<string> := {"archive", "delete_row"}

  /** The component's own `inputs`, in declaration order. */
  const Inputs: seq<InputDecl> := [
    InputDecl("after", MessageTextInput, false),
    InputDecl("content_block", MessageTextInput, true),
    InputDecl("parent_block_id", MessageTextInput, true),
    InputDecl("block_id", MessageTextInput, true),
    InputDecl("children", MessageTextInput, true),
    InputDecl("archive", BoolInput, false),
    InputDecl("page_id", MessageTextInput, true),
    InputDecl("comment", MessageTextInput, true),
    InputDecl("discussion_id", MessageTextInput, false),
    InputDecl("parent_page_id", MessageTextInput, false),
    InputDecl("parent_id", MessageTextInput, true),
    InputDecl("properties", MessageTextInput, true),
    InputDecl("title", MessageTextInput, true),
    InputDecl("cover", MessageTextInput, false),
    InputDecl("icon", MessageTextInput, false),
    InputDecl("database_id", MessageTextInput, true),
    InputDecl("child_blocks", MessageTextInput, false),
    InputDecl("page_size", IntInput, false),
    InputDecl("start_cursor", MessageTextInput, false),
    InputDecl("user_id", MessageTextInput, true),
    InputDecl("property_id", MessageTextInput, true),
    InputDecl("sorts", MessageTextInput, false),
    InputDecl("direction", MessageTextInput, false),
    InputDecl("filter_property", MessageTextInput, false),
    InputDecl("filter_value", MessageTextInput, false),
    InputDecl("query", MessageTextInput, false),
    InputDecl("timestamp", MessageTextInput, false),
    InputDecl("delete_row", BoolInput, false),
    InputDecl("row_id", MessageTextInput, true),
    InputDecl("additional_properties", MessageTextInput, false),
    InputDecl("block_type", MessageTextInput, true),
    InputDecl("content", MessageTextInput, true),
    InputDecl("description", MessageTextInput, false)
  ]

  /** `set_default_tools`. */
  const DefaultTools: set<string> := {"NOTION_CREATE_NOTION_PAGE", "NOTION_SEARCH_NOTION_PAGE"}

  const Integration: Component := Component(Catalog, BoolFields, Identity)

  /**
   The names of `inputs`, in order. The list repeats `Inputs` on purpose: the
   facts about declared names are proved over this plain list of strings, which
   the solver handles far more cheaply, and `InputNamesInOrder` ties it to `Inputs`.
   */
  const InputNames: seq<string> := [
    "after", "content_block", "parent_block_id", "block_id", "children", "archive", "page_id",
    "comment", "discussion_id", "parent_page_id", "parent_id", "properties", "title", "cover",
    "icon", "database_id", "child_blocks", "page_size", "start_cursor", "user_id", "property_id",
    "sorts", "direction", "filter_property", "filter_value", "query", "timestamp", "delete_row",
    "row_id", "additional_properties", "block_type", "content", "description"
  ]

  /** No two actions share a display name, so the display-to-key map is the inverse of the catalog. */
  lemma DisplayNamesDistinct()
    ensures DistinctDisplayNames(Catalog)
  {
    forall i, j | 0 <= i < j < |Catalog|
      ensures Catalog[i].displayName != Catalog[j].displayName
    {
      var a, b := Catalog[i].displayName, Catalog[j].displayName;
      assert |a| != |b| || a != b;
    }
  }

  lemma KeysDistinct()
    ensures DistinctKeys(Catalog)
  {
    forall i, j | 0 <= i < j < |Catalog|
      ensures Catalog[i].key != Catalog[j].key
    {
      var a, b := Catalog[i].key, Catalog[j].key;
      assert |a| != |b| || a != b;
    }
  }

  /** Both default tools are catalog keys. */
  lemma DefaultToolsAreKeys()
    ensures forall t | t in DefaultTools :: IsKey(Catalog, t)
  {
    assert Catalog[5].key == "NOTION_CREATE_NOTION_PAGE";
    assert Catalog[20].key == "NOTION_SEARCH_NOTION_PAGE";
  }

  lemma InputNamesInOrder()
    ensures NamedInOrder(Inputs, InputNames)
  {
  }

  /** Every action field is one of the input names. */
  lemma FieldsCovered()
    ensures forall i, j | 0 <= i < |Catalog| && 0 <= j < |Catalog[i].fields| :: Catalog[i].fields[j] in InputNames
  {
  }

  /** Every field of every action has a declared input. */
  lemma AllFieldsDeclared()
    ensures FieldsDeclaredExcept(Catalog, Inputs, {})
  {
    InputNamesInOrder();
    DeclaredByList(Inputs, InputNames);
    FieldsCovered();
  }

  /** Every key is non-empty, so the `if not action_key` test never rejects a catalog row. */
  lemma KeysNonEmpty()
    ensures forall i | 0 <= i < |Catalog| :: |Catalog[i].key| > 0
  {
  }

  /**
   When every declared input can be read, whatever other attributes can be,
   every action the SDK knows reaches the one remote call: no field read fails.
   */
  lemma EveryActionReachesRemote<E>(i: int, actions: map<string, E>, remote: (E, map<string, Value>) -> Reply, values: map<string, Value>)
    requires 0 <= i < |Catalog|
    requires DeclaredReadable(Inputs, values)
    requires Catalog[i].key in actions
    ensures BuildParams(Integration, Catalog[i].key, values).Ok?
    ensures Execute(Integration, actions, remote, Text(Catalog[i].displayName), values)
              == match remote(actions[Catalog[i].key], BuildParams(Integration, Catalog[i].key, values).value)
                 case Returned(envelope) => Ok(Unwrap(envelope))
                 case Raised(m) => Err(Failed(Catalog[i].displayName, RemoteError(m)))
  {
    DisplayNamesDistinct();
    KeysDistinct();
    KeysNonEmpty();
    AllFieldsDeclared();
    DeclaredActionsReachRemote(Integration, Inputs, actions, remote, i, values);
  }

  /** `archive` and `delete_row` are declared as boolean inputs, `page_size` as an integer input. */
  lemma InputKinds()
    ensures forall f | f in BoolFields :: IsDeclaredAs(Inputs, f, BoolInput)
    ensures IsDeclaredAs(Inputs, "page_size", IntInput)
  {
    assert Inputs[5].name == "archive" && Inputs[5].kind == BoolInput;
    assert Inputs[27].name == "delete_row" && Inputs[27].kind == BoolInput;
    assert Inputs[17].name == "page_size" && Inputs[17].kind == IntInput;
  }

  /**
   The payload's keys are exactly the selected action's fields whose value is
   neither `None` nor "", each with its coerced value.
   */
  lemma PayloadFields(i: int, values: map<string, Value>, p: map<string, Value>)
    requires 0 <= i < |Catalog|
    requires BuildParams(Integration, Catalog[i].key, values) == Ok(p)
    ensures forall k :: k in p <==> k in Catalog[i].fields && k in values && !IsBlank(values[k])
    ensures forall k | k in p :: p[k] == Coerce(BoolFields, k, values[k])
  {
    KeysDistinct();
    BuildParamsDescribes(Integration, i, values);
    KeptNamesPayload(Integration, Catalog[i].key, Catalog[i].fields, values, p);
  }

  /** The "Get About Me" row. */
  lemma GetAboutMeRow()
    ensures Catalog[13] == ActionEntry("NOTION_GET_ABOUT_ME", "Get About Me", [])
  {
  }

  /** "Get About Me" has no fields, so it always succeeds in building an empty payload. */
  lemma GetAboutMePayload(values: map<string, Value>)
    ensures BuildParams(Integration, Catalog[13].key, values) == Ok(map[])
  {
    GetAboutMeRow();
    KeysDistinct();
    EmptyRowPayload(Integration, 13, values);
  }

  /**
   Selecting "Get About Me" makes the remote call with an empty payload,
   whatever the attribute state, and returns its unwrapped envelope.
   */
  lemma GetAboutMeSendsNothing<E>(actions: map<string, E>, remote: (E, map<string, Value>) -> Reply, values: map<string, Value>)
    requires Catalog[13].key in actions
    ensures Execute(Integration, actions, remote, Text(Catalog[13].displayName), values)
              == match remote(actions[Catalog[13].key], map[])
                 case Returned(envelope) => Ok(Unwrap(envelope))
                 case Raised(m) => Err(Failed(Catalog[13].displayName, RemoteError(m)))
  {
    GetAboutMeRow();
    DisplayNamesDistinct();
    KeysDistinct();
    EmptyRowExecute(Integration, actions, remote, 13, values);
  }
}
