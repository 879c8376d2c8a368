# Composio integration components

A Dafny model of four langflow components that expose Composio actions in a flow:
- Confluence
- Notion
- YouTube
- WhatsApp

Each component declares three pieces of constant data:
- `_actions_data`, a catalog mapping each action key to a display name and an ordered list of fields;
- `_bool_variables`, a set of fields coerced to booleans;
- `inputs`, the attributes a user can set.

Each component has the same `execute_action`, which works in these steps:
1. Take the selected display name.
2. Resolve it to an action key.
3. Build a parameter payload from the field values:
   - skip `None` and "";
   - coerce the boolean fields;
   - apply the component's rename.
4. Make one remote call.
5. Unwrap the `{successful, data, error}` envelope.
6. Report an exception raised after the toolset is built as `Failed to execute <name>: <message>`. Two exceptions are raised again unwrapped: the `KeyError` of a selection list whose first item has no "name", and the `TypeError` of one whose first item is not a mapping (not modelled).

Files:
- `wrappers.dfy` (`Wrappers`): `Option` and `Result`.
- `py_value.dfy` (`Py`): the Python values involved, their truth test, `dict.get` and `str.replace`.
- `composio_base.dfy` (`Composio`): the shared dispatcher (`BuildParams`, `Unwrap`, `Execute`) and generic lemmas about it.
- `confluence.dfy`, `notion.dfy`, `youtube.dfy`, `whatsapp.dfy`: each component's constant data, stated exactly as the source declares it, and the properties proved of it.

Renames:
- Confluence sends `confluence_status` as `status`.
- Notion and WhatsApp send every field under its own name.
- YouTube sends `field.replace(action_key + "_", "")`.

The YouTube rename follows Python's `str.replace`: it removes every occurrence, not just a leading one. `RenameKeepsFieldNames` proves it changes no catalog field.

Modelling choices:
- **Attribute reads.** `getattr(self, field)` becomes a map from field names to values. The map may hold more than the component's own inputs, such as the inputs it inherits from `ComposioBaseComponent` (`action` among them).
- **Unreadable attributes.** An attribute that cannot be read is not skipped: `getattr(self, field)` (confluence_composio.py:171) raises, so the loop fails there and the failure is wrapped.
- **Selection.** `self.action` is modelled as one of three things:
  - unset, reported as "None";
  - a display name;
  - a list of records. An empty list raises a `TypeError` when used as a dictionary key. A first record without "name" raises a `KeyError` again inside the handler, so it escapes unwrapped. `ItemsLikeText` shows that a list whose first record has a "name" behaves exactly like that name given directly.
- **Display-to-key map.** It comes from `ComposioBaseComponent`, which this model leaves out. It is modelled as the first catalog row carrying the display name. `KeyOfInverse` shows this is the inverse of the display-name column, because every catalog has distinct display names.
- **SDK enum and remote call.** The enum lookup `getattr(Action, key)` is a partial map `actions`. The remote call is a function parameter `remote` that returns an envelope or raises.

## Model

| member | source | states |
|---|---|---|
| Composio.KeyOf | src/backend/base/langflow/components/composio/confluence_composio.py:161-166 | The display-to-key lookup yields nothing exactly when no catalog row carries the name; otherwise it yields the key of a row that carries it. |
| Composio.KeyOfInverse | src/backend/base/langflow/components/composio/confluence_composio.py:163 | When display names are distinct, each row's display name resolves to that row's own key, so the lookup is the inverse of the display-name column. |
| Composio.FieldsOf | src/backend/base/langflow/components/composio/confluence_composio.py:169-171 | The field list of a key is absent exactly when the key is not in the catalog; otherwise it is the field list of a row with that key. |
| Composio.FieldsOfRow | src/backend/base/langflow/components/composio/confluence_composio.py:169-171 | When keys are distinct, each row's key finds that row's field list. |
| Composio.Coerce | src/backend/base/langflow/components/composio/confluence_composio.py:176-177 | A field in the boolean set is sent as a boolean equal to the value's Python truthiness; any other field is sent unchanged. |
| Composio.Collect | src/backend/base/langflow/components/composio/confluence_composio.py:169-182 | The field loop succeeds exactly when every field can be read. A failure names the first unreadable field. Every payload key comes from a field whose value is neither None nor "". |
| Composio.CollectDescribes | src/backend/base/langflow/components/composio/confluence_composio.py:169-182 | The loop's payload has a key for every renamed field that is neither None nor "". Each key holds the coerced value of the last such field sent under it. |
| Composio.BuildParams | src/backend/base/langflow/components/composio/confluence_composio.py:169-182 | A key outside the catalog gets the empty payload. Failures are missing attributes of catalog fields. Every key is the renamed name of a readable field that is not blank. |
| Composio.BuildParamsDescribes | src/backend/base/langflow/components/composio/confluence_composio.py:169-182 | For a catalog row, the payload is built exactly when the row's fields are all readable, and it is then the payload that CollectDescribes specifies. |
| Composio.ParamName | src/backend/base/langflow/components/composio/confluence_composio.py:179-182 | The rename a component applies. Without renaming a field keeps its name. An alias is the sent name exactly for its own field and for a field already carrying the alias name, and every other field keeps its name. The key-infix drop of youtube_composio.py:246 never lengthens a name. |
| Composio.FalseAndZeroAreSent | src/backend/base/langflow/components/composio/confluence_composio.py:173-174 | A field holding False or 0 is not skipped: its renamed name is a payload key. |
| Composio.BlankIsNotSent | src/backend/base/langflow/components/composio/confluence_composio.py:173-174 | A field holding None or "" adds no key that only it could produce. |
| Composio.KeptNamesPayload | src/backend/base/langflow/components/composio/notion_composio.py:170-180 | When no field is renamed, the payload keys are exactly the fields that are readable and not blank, each holding its coerced value. |
| Composio.AliasPayload | src/backend/base/langflow/components/composio/confluence_composio.py:179-182 | With one aliased field, the alias is a key exactly when that field is listed and not blank, and it carries that field's coerced value. The field's own name is never a key. Every other key is a non-blank field under its own name. |
| Composio.ShortFieldsKeepNames | src/backend/base/langflow/components/composio/youtube_composio.py:246 | A field shorter than `action_key + "_"` is left unchanged by `field.replace(action_key + "_", "")`. |
| Composio.EmptyRowPayload | src/backend/base/langflow/components/composio/notion_composio.py:170-180 | An action with no fields builds the empty payload whatever the attribute state. |
| Composio.IdentityRowSends | src/backend/base/langflow/components/composio/whatsapp_composio.py:83-93 | Without renaming, a readable field of the selected action that is not blank is sent under its own name with its coerced value. |
| Composio.EmptyRowExecute | src/backend/base/langflow/components/composio/notion_composio.py:168-189 | Selecting an action with no fields, whose key the SDK's `Action` enum knows, makes the remote call with the empty payload and returns the unwrapped envelope, or the remote's error wrapped under the display name. |
| Composio.UndeclaredFieldFails | src/backend/base/langflow/components/composio/confluence_composio.py:169-175 | When an action field can be read exactly when it has a declared input, whatever other attributes can be read, an action whose key the SDK's `Action` enum knows and that reaches an undeclared field before any other unreadable field fails on that field, before the remote call. |
| Composio.DeclaredActionsReachRemote | src/backend/base/langflow/components/composio/confluence_composio.py:169-191 | When every field has a declared input and every declared input can be read, whatever else can be read, every action the SDK knows reaches the remote call with its specified payload. |
| Composio.DeclaredByList | src/backend/base/langflow/components/composio/confluence_composio.py:120-153 | A list that names the inputs in order makes "declared" and "listed" the same thing, in both directions. |
| Composio.Prepare | src/backend/base/langflow/components/composio/confluence_composio.py:160-183 | Everything before the remote call. A selection that yields no name always fails. A success is exactly the resolution of the selected name, shown under that name. |
| Composio.SelectedName | src/backend/base/langflow/components/composio/confluence_composio.py:161 | The name looked up: `action[0]["name"]` for a non-empty list, the text itself otherwise. When there is one, the handler reports the same name. When there is none, the handler reports "None" or "[]", or raises the `KeyError` itself. |
| Composio.Label | src/backend/base/langflow/components/composio/confluence_composio.py:194 | The name the handler reports. Unset is shown as "None". There is none, and the `KeyError` escapes, exactly for a non-empty list whose first item has no "name". |
| Composio.Detail | src/backend/base/langflow/components/composio/confluence_composio.py:164 | The cause's text is fixed exactly for an invalid action, an empty selection list and a remote error. An invalid action reads `Invalid action: ` followed by the name, and a remote error reads as the remote's own message. |
| Composio.Message | src/backend/base/langflow/components/composio/confluence_composio.py:195 | The raised text is known exactly when its cause's text is, or for the escaping `KeyError`. A wrapped error reads `Failed to execute `, then the shown name, then `: ` and the cause's text. |
| Composio.Unwrap | src/backend/base/langflow/components/composio/confluence_composio.py:188-191 | A missing or falsy `successful` gives `{"error": error}`, with "No response" only when `error` is absent. Otherwise the result is `data`, or `[]` when `data` is absent. |
| Composio.Resolve | src/backend/base/langflow/components/composio/confluence_composio.py:162-182 | A name outside the catalog fails as an invalid action. A success comes only from a catalog name. Every failure is wrapped under the shown name. |
| Composio.Execute | src/backend/base/langflow/components/composio/confluence_composio.py:155-196 | A selection that yields no name always fails. An unknown name fails as an invalid action. Other failures are wrapped under the selection's label, except a first list item with no "name", which escapes unwrapped. A success is the unwrapped envelope of a remote call on the built payload. |
| Composio.UnknownNameFailsBeforeRemote | src/backend/base/langflow/components/composio/confluence_composio.py:161-196 | An unknown display name gives the same outcome whatever the remote does. Its message is `Failed to execute <name>: Invalid action: <name>`. |
| Composio.ItemsLikeText | src/backend/base/langflow/components/composio/confluence_composio.py:161-163 | A selection list whose first item has a "name" gives the same outcome as selecting that name directly: same lookup, payload, remote call and failure label. |
| Composio.PrepareFailureIgnoresRemote | src/backend/base/langflow/components/composio/confluence_composio.py:160-184 | Any failure before the remote call makes the outcome independent of the remote. |
| Composio.ExecuteRow | src/backend/base/langflow/components/composio/confluence_composio.py:160-191 | When a row's fields are all readable and its key is known to the SDK, selecting its display name sends the specified payload once and returns the unwrapped envelope, or the remote's error wrapped under that name. |
| Py.IsBlank | src/backend/base/langflow/components/composio/confluence_composio.py:173 | The skip test `value is None or value == ""`. A blank value is falsy, but no boolean, integer, list or dict is blank, so False and 0 pass it. A string is blank exactly when it is empty. |
| Py.ToBool | src/backend/base/langflow/components/composio/confluence_composio.py:176-177 | The result of `bool(v)` is a boolean, leaves booleans as they are, and is true for strings and integers exactly when they are non-empty or non-zero. |
| Py.Replace | src/backend/base/langflow/components/composio/youtube_composio.py:246 | Replacing with "" never lengthens the string, and a replacement of the same length keeps the length. |
| Py.ReplaceWithoutOccurrence | src/backend/base/langflow/components/composio/youtube_composio.py:246 | A string that does not contain the pattern is returned unchanged. |
| Py.ReplaceStripsPrefix | src/backend/base/langflow/components/composio/youtube_composio.py:246 | A leading occurrence of the pattern is deleted when the rest does not contain it. |
| Confluence.DisplayNamesDistinct | src/backend/base/langflow/components/composio/confluence_composio.py:21-115 | The 23 display names are pairwise distinct. |
| Confluence.KeysDistinct | src/backend/base/langflow/components/composio/confluence_composio.py:21-115 | The 23 action keys are pairwise distinct. |
| Confluence.DefaultToolsMembership | src/backend/base/langflow/components/composio/confluence_composio.py:201-205 | `CONFLUENCE_CREATE_PAGE` is a catalog key and `CONFLUENCE_SEARCH_CONTENT` is not. |
| Confluence.UndeclaredRows | src/backend/base/langflow/components/composio/confluence_composio.py:74-109 | The catalog rows of Create Custom Content, Create Footer Comment, Create Inline Comment and Create Space Property In Space. |
| Confluence.TargetIdsUndeclared | src/backend/base/langflow/components/composio/confluence_composio.py:120-153 | No input declares `blogPostId`, `customContentId` or `pageId`. |
| Confluence.CommentFieldsUndeclared | src/backend/base/langflow/components/composio/confluence_composio.py:120-153 | No input declares `type`, `attachmentId` or `parentCommentId`. |
| Confluence.InlineSelectionUndeclared | src/backend/base/langflow/components/composio/confluence_composio.py:120-153 | No input declares any of the three inline-comment text-selection fields. |
| Confluence.SpaceIdUndeclared | src/backend/base/langflow/components/composio/confluence_composio.py:106-109 | `key` is declared but `space__id`, read by Create Space Property In Space, is not. |
| Confluence.OtherFieldsDeclared | src/backend/base/langflow/components/composio/confluence_composio.py:120-153 | Every action field outside the ten undeclared names has a declared input. |
| Confluence.BoolFieldsAreBoolInputs | src/backend/base/langflow/components/composio/confluence_composio.py:118-152 | `private`, `embedded` and `root__level` are declared as boolean inputs. |
| Confluence.NoFieldNamedStatus | src/backend/base/langflow/components/composio/confluence_composio.py:21-115 | No action lists a field named `status`, so the renamed `confluence_status` cannot collide with another field. |
| Confluence.StatusSentAsStatus | src/backend/base/langflow/components/composio/confluence_composio.py:179-182 | `confluence_status` is never a key. `status` is a key exactly when the action lists `confluence_status` and its value is not blank, and it then carries that value unchanged. |
| Confluence.PayloadKeys | src/backend/base/langflow/components/composio/confluence_composio.py:169-182 | Apart from `status`, the keys are exactly the selected action's non-blank fields under their own names, with their coerced values. No other action's field appears. |
| Confluence.BoolFieldsCoerced | src/backend/base/langflow/components/composio/confluence_composio.py:176-177 | `private`, `embedded` and `root__level` are sent as `bool(value)`. |
| Confluence.CreateSpaceSendsRoleOnce | src/backend/base/langflow/components/composio/confluence_composio.py:102-105 | The doubled `roleAssignments__roleId` gives one entry holding its value, and the keys are among the eight distinct field names. |
| Confluence.UndeclaredActionsFail | src/backend/base/langflow/components/composio/confluence_composio.py:169-175 | When an action field can be read exactly when it is declared (no other attribute carries one of the ten undeclared names), the four actions of UndeclaredRows, when the SDK's `Action` enum knows their keys, always fail on their first undeclared field, before the remote call. |
| Confluence.CorrectedFieldsDeclared | src/backend/base/langflow/components/composio/confluence_composio.py:120-153 | Once the ten missing inputs are added, every action field has a declared input. |
| Confluence.CorrectedActionsReachRemote | src/backend/base/langflow/components/composio/confluence_composio.py:169-191 | With every corrected input readable, whatever else can be read, every action the SDK knows, the four failing ones included, reaches the remote call. |
| Notion.DisplayNamesDistinct | src/backend/base/langflow/components/composio/notion_composio.py:21-114 | The 23 display names are pairwise distinct. |
| Notion.KeysDistinct | src/backend/base/langflow/components/composio/notion_composio.py:21-114 | The 23 action keys are pairwise distinct. |
| Notion.DefaultToolsAreKeys | src/backend/base/langflow/components/composio/notion_composio.py:199-203 | Both default tools are catalog keys. |
| Notion.AllFieldsDeclared | src/backend/base/langflow/components/composio/notion_composio.py:119-154 | Every field of every action has a declared input. |
| Notion.InputKinds | src/backend/base/langflow/components/composio/notion_composio.py:117-148 | `archive` and `delete_row` are boolean inputs and `page_size` is an integer input. |
| Notion.PayloadFields | src/backend/base/langflow/components/composio/notion_composio.py:170-180 | The keys are exactly the selected action's non-blank fields, with no renaming, each holding its coerced value. |
| Notion.GetAboutMeRow | src/backend/base/langflow/components/composio/notion_composio.py:74-77 | Get About Me has an empty field list. |
| Notion.GetAboutMePayload | src/backend/base/langflow/components/composio/notion_composio.py:74-77 | The payload of Get About Me is always the empty map. |
| Notion.GetAboutMeSendsNothing | src/backend/base/langflow/components/composio/notion_composio.py:168-189 | When the SDK's `Action` enum knows its key, selecting Get About Me calls the remote with the empty payload whatever the attribute state. |
| Notion.EveryActionReachesRemote | src/backend/base/langflow/components/composio/notion_composio.py:168-189 | When every declared input can be read, whatever else can be read, every action whose key the SDK's `Action` enum knows reaches the remote call and no field read fails. |
| YouTube.DisplayNamesDistinct | src/backend/base/langflow/components/composio/youtube_composio.py:21-66 | The 11 display names are pairwise distinct. |
| YouTube.KeysDistinct | src/backend/base/langflow/components/composio/youtube_composio.py:21-66 | The 11 action keys are pairwise distinct. |
| YouTube.DefaultToolsNotKeys | src/backend/base/langflow/components/composio/youtube_composio.py:266-270 | Neither default tool is a catalog key. The catalog's own actions are `YOUTUBE_SEARCH_YOU_TUBE` and `YOUTUBE_VIDEO_DETAILS`. |
| YouTube.FieldAndKeyLengths | src/backend/base/langflow/components/composio/youtube_composio.py:21-66 | Every field name has at most 14 characters and every key at least 20. |
| YouTube.RenameKeepsFieldNames | src/backend/base/langflow/components/composio/youtube_composio.py:246 | The rename leaves every catalog field unchanged. |
| YouTube.BoolFieldsUnused | src/backend/base/langflow/components/composio/youtube_composio.py:69-72 | Neither name in the boolean set is an action field, so coercion never applies. |
| YouTube.PayloadFields | src/backend/base/langflow/components/composio/youtube_composio.py:236-247 | The keys are exactly the selected action's non-blank fields, each holding its value unchanged. |
| YouTube.AllFieldsDeclared | src/backend/base/langflow/components/composio/youtube_composio.py:74-220 | Every field of every action has a declared input. |
| YouTube.MaxResultsIsInt | src/backend/base/langflow/components/composio/youtube_composio.py:108-114 | `maxResults` is an integer input. |
| YouTube.EveryActionReachesRemote | src/backend/base/langflow/components/composio/youtube_composio.py:234-256 | When every declared input can be read, whatever else can be read, every action whose key the SDK's `Action` enum knows reaches the remote call. |
| WhatsApp.DisplayNamesDistinct | src/backend/base/langflow/components/composio/whatsapp_composio.py:20-41 | The 5 display names are pairwise distinct. |
| WhatsApp.KeysDistinct | src/backend/base/langflow/components/composio/whatsapp_composio.py:20-41 | The 5 action keys are pairwise distinct. |
| WhatsApp.DefaultToolsAreKeys | src/backend/base/langflow/components/composio/whatsapp_composio.py:112-116 | Both default tools are catalog keys. |
| WhatsApp.AllFieldsDeclared | src/backend/base/langflow/components/composio/whatsapp_composio.py:46-67 | Every field of every action has a declared input. |
| WhatsApp.PreviewUrlIsBool | src/backend/base/langflow/components/composio/whatsapp_composio.py:62 | `preview_url` is a boolean input. |
| WhatsApp.ToNumberEverywhere | src/backend/base/langflow/components/composio/whatsapp_composio.py:20-41 | Every action lists `to_number`. |
| WhatsApp.PayloadFields | src/backend/base/langflow/components/composio/whatsapp_composio.py:83-93 | The keys are exactly the selected action's non-blank fields, with no renaming, each holding its coerced value. |
| WhatsApp.ToNumberSent | src/backend/base/langflow/components/composio/whatsapp_composio.py:83-93 | Whatever the action, a `to_number` that is not blank is sent unchanged. |
| WhatsApp.SendMessageRow | src/backend/base/langflow/components/composio/whatsapp_composio.py:33-36 | The Send Message row and its four fields. |
| WhatsApp.PreviewUrlSent | src/backend/base/langflow/components/composio/whatsapp_composio.py:87-93 | On Send Message, a `preview_url` that is not blank is sent as `bool(value)`, and False is still sent. |
| WhatsApp.EveryActionReachesRemote | src/backend/base/langflow/components/composio/whatsapp_composio.py:81-102 | When every declared input can be read, whatever else can be read, every action whose key the SDK's `Action` enum knows reaches the remote call. |

## Left out

- **I/O.**
  - `_build_wrapper` and the Composio SDK call are network I/O. The remote call is a parameter of `Execute`.
  - The logging in the exception handler is left out.
- **Base class.** `ComposioBaseComponent` is not part of this model:
  - `_build_action_maps`;
  - `_base_inputs`;
  - `update_build_config`.

  Its display-to-key map is assumed to be the inverse of the display-name column.
- **The SDK's `Action` enum.** It is an abstract partial map. A key missing from it fails with `UnknownActionEnum`, whose message text is not modelled.
- **Error wording.**
  - The wording of the framework's `AttributeError` for an unreadable field is not modelled.
  - Neither is the wording of the enum lookup's error.
  - `Message` gives no text for these two causes.
- **Class-attribute collisions.** `getattr` can find class attributes such as Notion's `icon` and `description`, and YouTube's `description`, which its Update Video action lists as a field (youtube_composio.py:16, :60). These are not modelled: the values map holds only what the caller supplies.
- **Value types.** Floats and other object types are not modelled. Only None, booleans, integers, strings, lists and string-keyed dicts are.
- **Dict order.** The payload is a map, so the insertion order of the Python dict is not modelled.
- **Widget metadata.** `info`, `show`, `advanced`, `display_name` and the `required` flag are declaration data that `execute_action` never reads. The `required` flag is recorded in `InputDecl` but not enforced. Default `value`s only set the initial attribute values that `getattr(self, field)` returns for an input left alone, such as Notion's `archive` (True) or YouTube's `maxResults` (5). The model takes the attribute values as an arbitrary map, so every property holds whatever the defaults are. This also covers an input declared twice with different defaults, such as YouTube's `part`.
- **`set_default_tools`.** It is modelled as each component's `DefaultTools` constant. What the framework does with that set is outside the components.
- **Py.Replace.** Its contract states only length bounds. What it computes is given by `ReplaceWithoutOccurrence` and `ReplaceStripsPrefix`.
- **Selection shapes.** A list whose first element is not a mapping, such as a string, raises a `TypeError` at confluence_composio.py:161, and the handler raises it again at :194, so it escapes unwrapped like the missing-"name" case. A "name" that is not a string is formatted with `str()`. `Selection` holds only lists of string-valued records, so neither case is modelled.
- **Confluence.UndeclaredActionsFail.** It assumes that no attribute other than a declared input carries one of the ten undeclared names. The inherited inputs of `ComposioBaseComponent` are not part of this model, so this cannot be checked here.
- **Confluence.CreateSpaceSendsRoleOnce.** It names the action by its key rather than its display name, and bounds the payload's keys from above rather than listing them exactly. `PayloadKeys` gives the exact keys for every action.

## Findings

| source | as written | input that shows it | evidently intended | confidence | as-written member | corrected member |
|---|---|---|---|---|---|---|
| src/backend/base/langflow/components/composio/confluence_composio.py:120-153 | Four actions list fields that no input declares: Create Custom Content, Create Footer Comment, Create Inline Comment and Create Space Property In Space. There are ten such fields in all, including `space__id`, where `spaceId` is declared. `getattr(self, field)` then fails before the remote call. | Select "Create Space Property In Space" with every declared input set. Reading `space__id` raises, and the call fails with `Failed to execute Create Space Property In Space: …`. | Every field an action lists has a declared input, so every action can reach the remote call. | medium (the inputs inherited from `ComposioBaseComponent`, which this model leaves out, could carry one of the ten names); not executed | Confluence.UndeclaredActionsFail | Confluence.CorrectedActionsReachRemote |
