/**
 The YouTube component: its catalog of 11 actions, its boolean fields and its
 declared inputs. Each field is sent as `field.replace(action_key + "_", "")`.
 */
module YouTube {
  import opened Wrappers
  import opened Py
  import opened Composio

  /** `_actions_data`, in declaration order. */
  const Catalog: seq<ActionEntry> := [
    ActionEntry("YOUTUBE_GET_CHANNEL_ID_BY_HANDLE", "Get Channel ID by Handle", ["channel_handle"]),
    ActionEntry("YOUTUBE_LIST_CAPTION_TRACK", "List Caption Track", ["part", "videoId"]),
    ActionEntry("YOUTUBE_LIST_CHANNEL_VIDEOS", "List Channel Videos", ["channelId", "maxResults", "pageToken", "part"]),
    ActionEntry("YOUTUBE_LIST_USER_PLAYLISTS", "List User Playlists", ["maxResults", "pageToken", "part"]),
    ActionEntry("YOUTUBE_LIST_USER_SUBSCRIPTIONS", "List User Subscriptions", ["maxResults", "pageToken", "part"]),
    ActionEntry("YOUTUBE_LOAD_CAPTIONS", "Load Captions", ["id", "tfmt"]),
    ActionEntry("YOUTUBE_SEARCH_YOU_TUBE", "Search YouTube", ["maxResults", "pageToken", "part", "q", "type"]),
    ActionEntry("YOUTUBE_SUBSCRIBE_CHANNEL", "Subscribe Channel", ["channelId"]),
    ActionEntry("YOUTUBE_UPDATE_THUMBNAIL", "Update Thumbnail", ["thumbnailUrl", "videoId"]),
    ActionEntry("YOUTUBE_UPDATE_VIDEO", "Update Video", ["categoryId", "description", "privacyStatus", "tags", "title", "videoId"]),
    ActionEntry("YOUTUBE_VIDEO_DETAILS", "Video Details", ["id", "part"])
  ]

  /** `_bool_variables`: two names that no action lists. */
  const BoolFields: set<string> := {"YOUTUBE_SEARCH_VIDEOS_video_embeddable", "YOUTUBE_SEARCH_VIDEOS_video_syndicated"}

  /** The component's own `inputs`, in declaration order (`id` and `part` are declared twice). */
  const Inputs: seq<InputDecl> := [
    InputDecl("channel_handle", MessageTextInput, true),
    InputDecl("part", MessageTextInput, false),
    InputDecl("videoId", MessageTextInput, true),
    InputDecl("channelId", MessageTextInput, true),
    InputDecl("maxResults", IntInput, false),
    InputDecl("pageToken", MessageTextInput, false),
    InputDecl("id", MessageTextInput, true),
    InputDecl("tfmt", MessageTextInput, false),
    InputDecl("q", MessageTextInput, true),
    InputDecl("type", MessageTextInput, false),
    InputDecl("thumbnailUrl", MessageTextInput, true),
    InputDecl("categoryId", MessageTextInput, false),
    InputDecl("description", MessageTextInput, false),
    InputDecl("privacyStatus", MessageTextInput, false),
    InputDecl("tags", MessageTextInput, false),
    InputDecl("title", MessageTextInput, false),
    InputDecl("id", MessageTextInput, true),
    InputDecl("part", MessageTextInput, false)
  ]

  /** `set_default_tools`. */
  const DefaultTools: set<string> := {"YOUTUBE_SEARCH_VIDEOS", "YOUTUBE_GET_VIDEO_DETAILS"}

  const Integration: Component := Component(Catalog, BoolFields, DropKeyInfix)

  /**
   The names of `inputs`, in order. The list repeats `Inputs` on purpose: the
   facts about declared names are proved over this plain list of strings, which
   the solver handles far more cheaply, and `InputNamesInOrder` ties it to `Inputs`.
   */
  const InputNames: seq<string> := [
    "channel_handle", "part", "videoId", "channelId", "maxResults", "pageToken", "id", "tfmt", "q",
    "type", "thumbnailUrl", "categoryId", "description", "privacyStatus", "tags", "title", "id",
    "part"
  ]

  /** No two actions share a display name, so the display-to-key map is the inverse of the catalog. */
  lemma DisplayNamesDistinct()
    ensures DistinctDisplayNames(Catalog)
  {
    forall i, j | 0 <= i < j < |Catalog|
      ensures Catalog[i].displayName != Catalog[j].displayName
    {
      var a, b := Catalog[i].displayName, Catalog[j].displayName;
      assert |a| != |b| || a != b;
    }
  }

  lemma KeysDistinct()
    ensures DistinctKeys(Catalog)
  {
    forall i, j | 0 <= i < j < |Catalog|
      ensures Catalog[i].key != Catalog[j].key
    {
      var a, b := Catalog[i].key, Catalog[j].key;
      assert |a| != |b| || a != b;
    }
  }

  /**
   Neither default tool is a catalog key: the catalog's search and details
   actions are `YOUTUBE_SEARCH_YOU_TUBE` and `YOUTUBE_VIDEO_DETAILS`.
   */
  lemma DefaultToolsNotKeys()
    ensures forall t | t in DefaultTools :: !IsKey(Catalog, t)
    ensures Catalog[6].key == "YOUTUBE_SEARCH_YOU_TUBE" && Catalog[10].key == "YOUTUBE_VIDEO_DETAILS"
  {
    forall i | 0 <= i < |Catalog|
      ensures Catalog[i].key != "YOUTUBE_SEARCH_VIDEOS" && Catalog[i].key != "YOUTUBE_GET_VIDEO_DETAILS"
    {
      var a := Catalog[i].key;
      assert |a| != 21 || a != "YOUTUBE_SEARCH_VIDEOS";
      assert |a| != 25 || a != "YOUTUBE_GET_VIDEO_DETAILS";
    }
  }

  /** Every field name is at most 14 characters long, every key at least 20. */
  lemma FieldAndKeyLengths()
    ensures forall i, j | 0 <= i < |Catalog| && 0 <= j < |Catalog[i].fields| :: |Catalog[i].fields[j]| <= 14
    ensures forall i | 0 <= i < |Catalog| :: |Catalog[i].key| >= 20
  {
  }

  /** The rename never changes a catalog field: no field is long enough to contain its action's key. */
  lemma RenameKeepsFieldNames()
    ensures forall i | 0 <= i < |Catalog| :: KeepsNames(DropKeyInfix, Catalog[i].key, Catalog[i].fields)
  {
    FieldAndKeyLengths();
    forall i | 0 <= i < |Catalog|
      ensures KeepsNames(DropKeyInfix, Catalog[i].key, Catalog[i].fields)
    {
      ShortFieldsKeepNames(Catalog[i].key, Catalog[i].fields);
    }
  }

  /** The boolean set names no action field, so coercion never applies. */
  lemma BoolFieldsUnused()
    ensures forall f | f in BoolFields :: !IsActionField(Catalog, f)
  {
    FieldAndKeyLengths();
    assert forall f | f in BoolFields :: |f| == 38;
  }

  /**
   The payload's keys are exactly the selected action's fields whose value is
   neither `None` nor "", under their own names and with their values unchanged.
   */
  lemma PayloadFields(i: int, values: map<string, Value>, p: map<string, Value>)
    requires 0 <= i < |Catalog|
    requires BuildParams(Integration, Catalog[i].key, values) == Ok(p)
    ensures forall k :: k in p <==> k in Catalog[i].fields && k in values && !IsBlank(values[k])
    ensures forall k | k in p :: p[k] == values[k]
  {
    KeysDistinct();
    RenameKeepsFieldNames();
    BuildParamsDescribes(Integration, i, values);
    KeptNamesPayload(Integration, Catalog[i].key, Catalog[i].fields, values, p);
    BoolFieldsUnused();
  }

  lemma InputNamesInOrder()
    ensures NamedInOrder(Inputs, InputNames)
  {
  }

  /** Every action field is one of the input names. */
  lemma FieldsCovered()
    ensures forall i, j | 0 <= i < |Catalog| && 0 <= j < |Catalog[i].fields| :: Catalog[i].fields[j] in InputNames
  {
  }

  /** Every field of every action has a declared input. */
  lemma AllFieldsDeclared()
    ensures FieldsDeclaredExcept(Catalog, Inputs, {})
  {
    InputNamesInOrder();
    DeclaredByList(Inputs, InputNames);
    FieldsCovered();
  }

  /** Every key is non-empty, so the `if not action_key` test never rejects a catalog row. */
  lemma KeysNonEmpty()
    ensures forall i | 0 <= i < |Catalog| :: |Catalog[i].key| > 0
  {
  }

  /**
   When every declared input can be read, whatever other attributes can be,
   every action the SDK knows reaches the one remote call: no field read fails.
   */
  lemma EveryActionReachesRemote<E>(i: int, actions: map<string, E>, remote: (E, map<string, Value>) -> Reply, values: map<string, Value>)
    requires 0 <= i < |Catalog|
    requires DeclaredReadable(Inputs, values)
    requires Catalog[i].key in actions
    ensures BuildParams(Integration, Catalog[i].key, values).Ok?
    ensures Execute(Integration, actions, remote, Text(Catalog[i].displayName), values)
              == match remote(actions[Catalog[i].key], BuildParams(Integration, Catalog[i].key, values).value)
                 case Returned(envelope) => Ok(Unwrap(envelope))
                 case Raised(m) => Err(Failed(Catalog[i].displayName, RemoteError(m)))
  {
    DisplayNamesDistinct();
    KeysDistinct();
    KeysNonEmpty();
    AllFieldsDeclared();
    DeclaredActionsReachRemote(Integration, Inputs, actions, remote, i, values);
  }

  /** `maxResults` is declared as an integer input. */
  lemma MaxResultsIsInt()
    ensures IsDeclaredAs(Inputs, "maxResults", IntInput)
  {
    assert Inputs[4].name == "maxResults" && Inputs[4].kind == IntInput;
  }
}
