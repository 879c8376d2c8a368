/**
 The Confluence component: its catalog of 23 actions, its boolean fields, its
 declared inputs, and the one field it renames (`confluence_status` is sent as
 `status`).
 */
module Confluence {
  import opened Wrappers
  import opened Py
  import opened Composio

  const Catalog: seq<ActionEntry> := [
    ActionEntry("CONFLUENCE_CHECK_SITE_ACCESS_FOR_A_LIST_OF_EMAILS", "Check Site Access For Emails", ["emails"]),
    ActionEntry("CONFLUENCE_CONVERT_CONTENT_IDS_TO_CONTENT_TYPES", "Convert Content IDs To Types", ["contentIds"]),
    ActionEntry("CONFLUENCE_CREATE_BLOG_POST", "Create Blog Post", ["body", "createdAt", "private", "spaceId", "confluence_status", "title"]),
    ActionEntry("CONFLUENCE_CREATE_BULK_USER_LOOKUP_USING_IDS", "Bulk User Lookup By IDs", ["accountIds"]),
    ActionEntry("CONFLUENCE_CREATE_CONTENT_PROPERTY_FOR_ATTACHMENT", "Create Content Property For Attachment", ["attachment__id", "key", "value"]),
    ActionEntry("CONFLUENCE_CREATE_CONTENT_PROPERTY_FOR_BLOG_POST", "Create Content Property For Blog Post", ["blogpost__id", "key", "value"]),
    ActionEntry("CONFLUENCE_CREATE_CONTENT_PROPERTY_FOR_COMMENT", "Create Content Property For Comment", ["comment__id", "key", "value"]),
    ActionEntry("CONFLUENCE_CREATE_CONTENT_PROPERTY_FOR_CUSTOM_CONTENT", "Create Content Property For Custom Content", ["custom__content__id", "key", "value"]),
    ActionEntry("CONFLUENCE_CREATE_CONTENT_PROPERTY_FOR_DATABASE", "Create Content Property For Database", ["id", "key", "value"]),
    ActionEntry("CONFLUENCE_CREATE_CONTENT_PROPERTY_FOR_FOLDER", "Create Content Property For Folder", ["id", "key", "value"]),
    ActionEntry("CONFLUENCE_CREATE_CONTENT_PROPERTY_FOR_PAGE", "Create Content Property For Page", ["key", "page__id", "value"]),
    ActionEntry("CONFLUENCE_CREATE_CONTENT_PROPERTY_FOR_SMART_LINK_IN_THE_CONTENT_TREE", "Create Content Property For Smart Link", ["id", "key", "value"]),
    ActionEntry("CONFLUENCE_CREATE_CONTENT_PROPERTY_FOR_WHITEBOARD", "Create Content Property For Whiteboard", ["id", "key", "value"]),
    ActionEntry("CONFLUENCE_CREATE_CUSTOM_CONTENT", "Create Custom Content", ["blogPostId", "body", "customContentId", "pageId", "spaceId", "confluence_status", "title", "type"]),
    ActionEntry("CONFLUENCE_CREATE_DATABASE", "Create Database", ["parentId", "private", "spaceId", "title"]),
    ActionEntry("CONFLUENCE_CREATE_FOLDER", "Create Folder", ["parentId", "spaceId", "title"]),
    ActionEntry("CONFLUENCE_CREATE_FOOTER_COMMENT", "Create Footer Comment", ["attachmentId", "blogPostId", "body", "customContentId", "pageId", "parentCommentId"]),
    ActionEntry("CONFLUENCE_CREATE_INLINE_COMMENT", "Create Inline Comment", ["blogPostId", "body", "inlineCommentProperties__textSelection", "inlineCommentProperties__textSelectionMatchCount", "inlineCommentProperties__textSelectionMatchIndex", "pageId", "parentCommentId"]),
    ActionEntry("CONFLUENCE_CREATE_PAGE", "Create Page", ["body", "embedded", "parentId", "private", "root__level", "spaceId", "confluence_status", "title"]),
    ActionEntry("CONFLUENCE_CREATE_SMART_LINK_IN_THE_CONTENT_TREE", "Create Smart Link In Content Tree", ["embedUrl", "parentId", "spaceId", "title"]),
    ActionEntry("CONFLUENCE_CREATE_SPACE", "Create Space", ["alias", "description__representation", "description__value", "key", "name", "roleAssignments__principal__principalId", "roleAssignments__principal__principalType", "roleAssignments__roleId", "roleAssignments__roleId"]),
    ActionEntry("CONFLUENCE_CREATE_SPACE_PROPERTY_IN_SPACE", "Create Space Property In Space", ["key", "space__id", "value"]),
    ActionEntry("CONFLUENCE_CREATE_WHITEBOARD", "Create Whiteboard", ["locale", "parentId", "private", "spaceId", "templateKey", "title"])
  ]

  /** `_bool_variables`. */
  const BoolFields: set<string> := {"private", "embedded", "root__level"}

  /** The component's own `inputs`, in declaration order (`key` is declared twice). */
  const Inputs: seq<InputDecl> := [
    InputDecl("emails", MessageTextInput, true),
    InputDecl("contentIds", MessageTextInput, true),
    InputDecl("body", MessageTextInput, true),
    InputDecl("createdAt", MessageTextInput, false),
    InputDecl("private", BoolInput, false),
    InputDecl("spaceId", MessageTextInput, true),
    InputDecl("confluence_status", MessageTextInput, false),
    InputDecl("title", MessageTextInput, false),
    InputDecl("accountIds", MessageTextInput, true),
    InputDecl("attachment__id", MessageTextInput, true),
    InputDecl("key", MessageTextInput, false),
    InputDecl("value", MessageTextInput, false),
    InputDecl("blogpost__id", MessageTextInput, true),
    InputDecl("comment__id", MessageTextInput, true),
    InputDecl("custom__content__id", MessageTextInput, true),
    InputDecl("id", MessageTextInput, true),
    InputDecl("page__id", MessageTextInput, true),
    InputDecl("embedUrl", MessageTextInput, false),
    InputDecl("parentId", MessageTextInput, false),
    InputDecl("alias", MessageTextInput, false),
    InputDecl("description__representation", MessageTextInput, false),
    InputDecl("description__value", MessageTextInput, false),
    InputDecl("key", MessageTextInput, false),
    InputDecl("name", MessageTextInput, true),
    InputDecl("roleAssignments__principal__principalId", MessageTextInput, false),
    InputDecl("roleAssignments__principal__principalType", MessageTextInput, false),
    InputDecl("roleAssignments__roleId", MessageTextInput, false),
    InputDecl("locale", MessageTextInput, false),
    InputDecl("templateKey", MessageTextInput, false),
    InputDecl("embedded", BoolInput, false),
    InputDecl("root__level", BoolInput, false)
  ]

  /** `set_default_tools`. */
  const DefaultTools: set<string> := {"CONFLUENCE_CREATE_PAGE", "CONFLUENCE_SEARCH_CONTENT"}

  const Integration: Component := Component(Catalog, BoolFields, Alias("confluence_status", "status"))

  /** The action fields that no input declares. */
  const Undeclared: set<string> := {
    "blogPostId", "customContentId", "pageId", "type", "attachmentId", "parentCommentId",
    "inlineCommentProperties__textSelection", "inlineCommentProperties__textSelectionMatchCount",
    "inlineCommentProperties__textSelectionMatchIndex", "space__id"
  }

  /** No two actions share a display name, so the display-to-key map is the inverse of the catalog. */
  lemma DisplayNamesDistinct()
    ensures DistinctDisplayNames(Catalog)
  {
    forall i, j | 0 <= i < j < |Catalog|
      ensures Catalog[i].displayName != Catalog[j].displayName
    {
      var a, b := Catalog[i].displayName, Catalog[j].displayName;
      assert |a| != |b| || a != b;
    }
  }

  lemma KeysDistinct()
    ensures DistinctKeys(Catalog)
  {
    forall i, j | 0 <= i < j < |Catalog|
      ensures Catalog[i].key != Catalog[j].key
    {
      var a, b := Catalog[i].key, Catalog[j].key;
      assert |a| != |b| || a != b;
    }
  }

  /** Of the two default tools only `CONFLUENCE_CREATE_PAGE` is a catalog key. */
  lemma DefaultToolsMembership()
    ensures IsKey(Catalog, "CONFLUENCE_CREATE_PAGE")
    ensures !IsKey(Catalog, "CONFLUENCE_SEARCH_CONTENT")
  {
    assert Catalog[18].key == "CONFLUENCE_CREATE_PAGE";
    forall i | 0 <= i < |Catalog|
      ensures Catalog[i].key != "CONFLUENCE_SEARCH_CONTENT"
    {
      var a := Catalog[i].key;
      assert |a| != |"CONFLUENCE_SEARCH_CONTENT"| || a != "CONFLUENCE_SEARCH_CONTENT";
    }
  }

  /**
   The names of `inputs`, in order (`key` is declared twice). The list repeats
   `Inputs` on purpose: the facts about declared names are proved over this
   plain list of strings, which the solver handles far more cheaply, and
   `InputNamesInOrder` ties it to `Inputs`.
   */
  const InputNames: seq<string> := [
    "emails", "contentIds", "body", "createdAt", "private", "spaceId", "confluence_status",
    "title", "accountIds", "attachment__id", "key", "value", "blogpost__id", "comment__id",
    "custom__content__id", "id", "page__id", "embedUrl", "parentId", "alias",
    "description__representation", "description__value", "key", "name",
    "roleAssignments__principal__principalId", "roleAssignments__principal__principalType",
    "roleAssignments__roleId", "locale", "templateKey", "embedded", "root__level"
  ]

  lemma InputNamesInOrder()
    ensures NamedInOrder(Inputs, InputNames)
  {
  }

  /** The four actions that read a field no input declares. */
  lemma UndeclaredRows()
    ensures Catalog[13] == ActionEntry("CONFLUENCE_CREATE_CUSTOM_CONTENT", "Create Custom Content",
                                       ["blogPostId", "body", "customContentId", "pageId", "spaceId", "confluence_status", "title", "type"])
    ensures Catalog[16] == ActionEntry("CONFLUENCE_CREATE_FOOTER_COMMENT", "Create Footer Comment",
                                       ["attachmentId", "blogPostId", "body", "customContentId", "pageId", "parentCommentId"])
    ensures Catalog[17] == ActionEntry("CONFLUENCE_CREATE_INLINE_COMMENT", "Create Inline Comment",
                                       ["blogPostId", "body", "inlineCommentProperties__textSelection", "inlineCommentProperties__textSelectionMatchCount",
                                        "inlineCommentProperties__textSelectionMatchIndex", "pageId", "parentCommentId"])
    ensures Catalog[21] == ActionEntry("CONFLUENCE_CREATE_SPACE_PROPERTY_IN_SPACE", "Create Space Property In Space", ["key", "space__id", "value"])
  {
  }

  /** No input declares the ids a comment or custom content is attached to. */
  lemma TargetIdsUndeclared()
    ensures !IsDeclared(Inputs, "blogPostId")
    ensures !IsDeclared(Inputs, "customContentId")
    ensures !IsDeclared(Inputs, "pageId")
  {
  }

  /** No input declares `type`, `attachmentId` or `parentCommentId`. */
  lemma CommentFieldsUndeclared()
    ensures !IsDeclared(Inputs, "type")
    ensures !IsDeclared(Inputs, "attachmentId")
    ensures !IsDeclared(Inputs, "parentCommentId")
  {
  }

  /** No input declares the inline comment's text-selection fields. */
  lemma InlineSelectionUndeclared()
    ensures !IsDeclared(Inputs, "inlineCommentProperties__textSelection")
    ensures !IsDeclared(Inputs, "inlineCommentProperties__textSelectionMatchCount")
    ensures !IsDeclared(Inputs, "inlineCommentProperties__textSelectionMatchIndex")
  {
  }

  /** No input declares `space__id`, while `key` is declared. */
  lemma SpaceIdUndeclared()
    ensures IsDeclared(Inputs, "key") && !IsDeclared(Inputs, "space__id")
  {
    assert Inputs[10].name == "key";
  }

  /** Every action field is an input name or one of the ten undeclared names. */
  lemma FieldsCovered()
    ensures forall i, j | 0 <= i < |Catalog| && 0 <= j < |Catalog[i].fields| ::
              Catalog[i].fields[j] in InputNames || Catalog[i].fields[j] in Undeclared
  {
  }

  /** Every other action field has a declared input. */
  lemma OtherFieldsDeclared()
    ensures FieldsDeclaredExcept(Catalog, Inputs, Undeclared)
  {
    InputNamesInOrder();
    DeclaredByList(Inputs, InputNames);
    FieldsCovered();
  }

  /** The three boolean fields are declared as boolean inputs. */
  lemma BoolFieldsAreBoolInputs()
    ensures forall f | f in BoolFields :: IsDeclaredAs(Inputs, f, BoolInput)
  {
    assert Inputs[4].name == "private" && Inputs[4].kind == BoolInput;
    assert Inputs[29].name == "embedded" && Inputs[29].kind == BoolInput;
    assert Inputs[30].name == "root__level" && Inputs[30].kind == BoolInput;
  }

  /** No action has a field named `status`, so the renamed `confluence_status` cannot collide with another field. */
  lemma NoFieldNamedStatus()
    ensures forall i | 0 <= i < |Catalog| :: "status" !in Catalog[i].fields
  {
    forall i, j | 0 <= i < |Catalog| && 0 <= j < |Catalog[i].fields|
      ensures Catalog[i].fields[j] != "status"
    {
      var a := Catalog[i].fields[j];
      assert |a| != 6 || a != "status";
    }
  }

  /** The alias facts the payload lemmas below rest on, for any action. */
  lemma AliasApplies(i: int, values: map<string, Value>, p: map<string, Value>)
    requires 0 <= i < |Catalog|
    requires BuildParams(Integration, Catalog[i].key, values) == Ok(p)
    ensures Describes(Integration, Catalog[i].key, Catalog[i].fields, values, p)
    ensures "status" !in Catalog[i].fields
  {
    KeysDistinct();
    BuildParamsDescribes(Integration, i, values);
    NoFieldNamedStatus();
  }

  lemma StatusNotBool()
    ensures "confluence_status" !in BoolFields && "status" !in BoolFields
  {
  }

  /**
   `confluence_status` is never sent under its own name; `status` is sent
   exactly when the action lists `confluence_status` and its value is neither
   `None` nor "", and then carries that value unchanged.
   */
  lemma StatusSentAsStatus(i: int, values: map<string, Value>, p: map<string, Value>)
    requires 0 <= i < |Catalog|
    requires BuildParams(Integration, Catalog[i].key, values) == Ok(p)
    ensures "confluence_status" !in p
    ensures "status" in p <==> "confluence_status" in Catalog[i].fields && "confluence_status" in values && !IsBlank(values["confluence_status"])
    ensures "status" in p ==> p["status"] == values["confluence_status"]
  {
    AliasApplies(i, values, p);
    AliasPayload(Integration, Catalog[i].key, Catalog[i].fields, values, p);
    if "status" in p {
      StatusNotBool();
      var v := values["confluence_status"];
      assert Coerce(BoolFields, "confluence_status", v) == v;
    }
  }

  /**
   Apart from `status`, the payload's keys are exactly the selected action's
   fields whose value is neither `None` nor "", each under its own name and
   with its coerced value; no field of another action appears.
   */
  lemma PayloadKeys(i: int, values: map<string, Value>, p: map<string, Value>)
    requires 0 <= i < |Catalog|
    requires BuildParams(Integration, Catalog[i].key, values) == Ok(p)
    ensures forall k | k in p && k != "status" ::
              k in Catalog[i].fields && k in values && !IsBlank(values[k]) && p[k] == Coerce(BoolFields, k, values[k])
    ensures forall k | k in Catalog[i].fields && k != "confluence_status" && k in values && !IsBlank(values[k]) :: k in p
  {
    AliasApplies(i, values, p);
    AliasPayload(Integration, Catalog[i].key, Catalog[i].fields, values, p);
  }

  /** `private`, `embedded` and `root__level`, when sent, carry `bool(value)`. */
  lemma BoolFieldsCoerced(i: int, values: map<string, Value>, p: map<string, Value>)
    requires 0 <= i < |Catalog|
    requires BuildParams(Integration, Catalog[i].key, values) == Ok(p)
    ensures forall k | k in p && k in BoolFields :: k in values && p[k] == Bool(Truthy(values[k]))
  {
    PayloadKeys(i, values, p);
    StatusNotBool();
  }

  /** The "Create Space" row. */
  lemma CreateSpaceRow()
    ensures Catalog[20].key == "CONFLUENCE_CREATE_SPACE"
    ensures Catalog[20].fields == ["alias", "description__representation", "description__value", "key", "name",
                                   "roleAssignments__principal__principalId", "roleAssignments__principal__principalType",
                                   "roleAssignments__roleId", "roleAssignments__roleId"]
  {
  }

  /** The keys "Create Space" can send, given what the payload lemmas say of its row. */
  lemma CreateSpaceKeys(fields: seq<string>, values: map<string, Value>, p: map<string, Value>)
    requires fields == ["alias", "description__representation", "description__value", "key", "name",
                        "roleAssignments__principal__principalId", "roleAssignments__principal__principalType",
                        "roleAssignments__roleId", "roleAssignments__roleId"]
    requires forall k | k in p && k != "status" ::
               k in fields && k in values && !IsBlank(values[k]) && p[k] == Coerce(BoolFields, k, values[k])
    requires forall k | k in fields && k != "confluence_status" && k in values && !IsBlank(values[k]) :: k in p
    requires "status" in p ==> "confluence_status" in fields
    ensures "roleAssignments__roleId" in values && !IsBlank(values["roleAssignments__roleId"]) ==>
              "roleAssignments__roleId" in p && p["roleAssignments__roleId"] == values["roleAssignments__roleId"]
    ensures p.Keys <= {"alias", "description__representation", "description__value", "key", "name",
                       "roleAssignments__principal__principalId", "roleAssignments__principal__principalType", "roleAssignments__roleId"}
  {
    assert "confluence_status" !in fields;
    assert "roleAssignments__roleId" in fields;
    assert "roleAssignments__roleId" !in BoolFields;
  }

  /**
   "Create Space" lists `roleAssignments__roleId` twice; the payload still has
   one entry for it, holding that field's value, and its keys are among the
   eight distinct field names.
   */
  lemma CreateSpaceSendsRoleOnce(values: map<string, Value>, p: map<string, Value>)
    requires BuildParams(Integration, "CONFLUENCE_CREATE_SPACE", values) == Ok(p)
    ensures "roleAssignments__roleId" in values && !IsBlank(values["roleAssignments__roleId"]) ==>
              "roleAssignments__roleId" in p && p["roleAssignments__roleId"] == values["roleAssignments__roleId"]
    ensures p.Keys <= {"alias", "description__representation", "description__value", "key", "name",
                       "roleAssignments__principal__principalId", "roleAssignments__principal__principalType", "roleAssignments__roleId"}
  {
    CreateSpaceRow();
    PayloadKeys(20, values, p);
    StatusSentAsStatus(20, values, p);
    CreateSpaceKeys(Catalog[20].fields, values, p);
  }

  /** The rows of `UndeclaredRows`, each with the position of its first undeclared field. */
  predicate FailsAt(i: int, m: int) {
    (i == 13 && m == 0) || (i == 16 && m == 0) || (i == 17 && m == 0) || (i == 21 && m == 1)
  }

  /** What `UndeclaredActionsFail` needs of the catalog and the inputs. */
  lemma FailurePremises()
    ensures DistinctDisplayNames(Catalog) && DistinctKeys(Catalog)
    ensures forall i, m | FailsAt(i, m) ::
              0 <= m < |Catalog[i].fields| && !IsDeclared(Inputs, Catalog[i].fields[m])
              && forall j | 0 <= j < m :: IsDeclared(Inputs, Catalog[i].fields[j])
  {
    DisplayNamesDistinct();
    KeysDistinct();
    UndeclaredRows();
    TargetIdsUndeclared();
    CommentFieldsUndeclared();
    SpaceIdUndeclared();
  }

  /**
   When an action field can be read exactly when it has a declared input (no
   other attribute carries one of the ten undeclared names), the four actions
   of `UndeclaredRows` always fail, before the remote call, on the first field
   that no input provides.
   */
  lemma UndeclaredActionsFail<E>(i: int, m: int, actions: map<string, E>, remote: (E, map<string, Value>) -> Reply, values: map<string, Value>)
    requires FailsAt(i, m)
    requires FieldsReadableAsDeclared(Catalog, Inputs, values)
    requires Catalog[i].key in actions
    ensures Execute(Integration, actions, remote, Text(Catalog[i].displayName), values)
              == Err(Failed(Catalog[i].displayName, MissingAttribute(Catalog[i].fields[m])))
  {
    FailurePremises();
    UndeclaredFieldFails(Integration, Inputs, actions, remote, i, m, values);
  }

  // ---------------------------------------------------------------------------
  // The inputs the catalog evidently expects

  /** The ten names of `Undeclared` as a list, so that `DeclaredByList` can be applied to the corrected inputs. */
  const MissingNames: seq<string> := [
    "blogPostId", "customContentId", "pageId", "type", "attachmentId", "parentCommentId",
    "inlineCommentProperties__textSelection", "inlineCommentProperties__textSelectionMatchCount",
    "inlineCommentProperties__textSelectionMatchIndex", "space__id"
  ]

  /** Text inputs for the ten undeclared fields. */
  const Supplied: seq<InputDecl> := [
    InputDecl("blogPostId", MessageTextInput, false),
    InputDecl("customContentId", MessageTextInput, false),
    InputDecl("pageId", MessageTextInput, false),
    InputDecl("type", MessageTextInput, false),
    InputDecl("attachmentId", MessageTextInput, false),
    InputDecl("parentCommentId", MessageTextInput, false),
    InputDecl("inlineCommentProperties__textSelection", MessageTextInput, false),
    InputDecl("inlineCommentProperties__textSelectionMatchCount", MessageTextInput, false),
    InputDecl("inlineCommentProperties__textSelectionMatchIndex", MessageTextInput, false),
    InputDecl("space__id", MessageTextInput, false)
  ]

  /** `inputs` with a declaration for every field the catalog reads. */
  const CorrectedInputs: seq<InputDecl> := Inputs + Supplied

  lemma SuppliedInOrder()
    ensures NamedInOrder(Supplied, MissingNames)
  {
  }

  lemma UndeclaredListed()
    ensures forall f | f in Undeclared :: f in MissingNames
  {
  }

  /** With the added declarations every field of every action has an input. */
  lemma CorrectedFieldsDeclared()
    ensures FieldsDeclaredExcept(Catalog, CorrectedInputs, {})
  {
    InputNamesInOrder();
    SuppliedInOrder();
    NamedInOrderConcat(Inputs, InputNames, Supplied, MissingNames);
    DeclaredByList(CorrectedInputs, InputNames + MissingNames);
    FieldsCovered();
    UndeclaredListed();
  }

  /** Every key is non-empty, so the `if not action_key` test never rejects a catalog row. */
  lemma KeysNonEmpty()
    ensures forall i | 0 <= i < |Catalog| :: |Catalog[i].key| > 0
  {
  }

  /**
   With the corrected inputs all readable, every action the SDK knows, the
   four of `UndeclaredRows` included, reaches the one remote call, whatever
   other attributes can be read.
   */
  lemma CorrectedActionsReachRemote<E>(i: int, actions: map<string, E>, remote: (E, map<string, Value>) -> Reply, values: map<string, Value>)
    requires 0 <= i < |Catalog|
    requires DeclaredReadable(CorrectedInputs, values)
    requires Catalog[i].key in actions
    ensures BuildParams(Integration, Catalog[i].key, values).Ok?
    ensures Execute(Integration, actions, remote, Text(Catalog[i].displayName), values)
              == match remote(actions[Catalog[i].key], BuildParams(Integration, Catalog[i].key, values).value)
                 case Returned(envelope) => Ok(Unwrap(envelope))
                 case Raised(m) => Err(Failed(Catalog[i].displayName, RemoteError(m)))
  {
    DisplayNamesDistinct();
    KeysDistinct();
    KeysNonEmpty();
    CorrectedFieldsDeclared();
    DeclaredActionsReachRemote(Integration, CorrectedInputs, actions, remote, i, values);
  }
}
