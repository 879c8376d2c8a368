/**
 The dispatcher shared by every Composio integration component.

 What `execute_action` reads of a component is its constant action catalog,
 its set of fields coerced to booleans and the way it renames a field before
 sending it; the declared inputs and default tools are separate constants of
 each component module. `Execute` follows `execute_action`: pick the selected display
 name, resolve it to a catalog key, resolve the key to the SDK's action, build
 the parameter payload from the field values, make one remote call and unwrap
 its `{successful, data, error}` envelope; every failure on the way becomes
 `Failed to execute <name>: <cause>`, other than a selection list whose first
 item has no "name", whose `KeyError` the handler raises again, or one whose
 first item is not a mapping, whose `TypeError` it raises again too (such
 lists are not modelled).
 */
module Composio {
  import opened Wrappers
  import opened Py

  /** One row of `_actions_data`: the action key, its display name and its ordered field list. */
  datatype ActionEntry = ActionEntry(key: string, displayName: string, fields: seq<string>)

  /** The widget class an input is declared with. */
  datatype InputKind = MessageTextInput | BoolInput | IntInput

  /** One element of `inputs`. */
  datatype InputDecl = InputDecl(name: string, kind: InputKind, required: bool)

  /** How a field name becomes the parameter name sent to the remote action. */
  datatype Renaming =
    | Identity                         // the field name is sent as it is
    | Alias(from: string, to: string)  // exactly one field is sent under another name
    | DropKeyInfix                     // `field.replace(action_key + "_", "")`

  /** The constant data of one integration component that `execute_action` reads. */
  datatype Component = Component(catalog: seq<ActionEntry>, boolFields: set<string>, renaming: Renaming)

  /**
   The user's choice as stored in `self.action`: unset, a plain display name, or
   a list whose elements are string-keyed records of strings. Lists of other
   elements and non-string names are not modelled.
   */
  datatype Selection = Unset | Text(name: string) | Items(items: seq<map<string, string>>)

  /** The exception raised inside the `try` block. */
  datatype Cause =
    | InvalidAction(name: string)      // the display name resolves to no action key
    | UnhashableName                   // an empty selection list used as a dictionary key
    | MissingAttribute(field: string)  // `getattr(self, field)` found no such attribute
    | UnknownActionEnum(key: string)   // `getattr(Action, key)` found no SDK action
    | RemoteError(message: string)     // the remote call raised

  /** What `execute_action` raises. */
  datatype ExecError =
    | Failed(shown: string, cause: Cause)  // the wrapped `ValueError`
    | SelectionKeyError                    // `KeyError('name')`, raised again by the handler itself

  /** The resolved SDK action and the payload for the one remote call. */
  datatype Request<E> = Request(action: E, params: map<string, Value>, shown: string)

  /** What the remote call did: returned an envelope or raised with a message. */
  datatype Reply = Returned(envelope: map<string, Value>) | Raised(message: string)

  // ---------------------------------------------------------------------------
  // Catalog facts

  ghost predicate DistinctDisplayNames(catalog: seq<ActionEntry>) {
    forall i, j | 0 <= i < j < |catalog| :: catalog[i].displayName != catalog[j].displayName
  }

  ghost predicate DistinctKeys(catalog: seq<ActionEntry>) {
    forall i, j | 0 <= i < j < |catalog| :: catalog[i].key != catalog[j].key
  }

  predicate IsKey(catalog: seq<ActionEntry>, key: string) {
    exists i | 0 <= i < |catalog| :: catalog[i].key == key
  }

  predicate IsDisplayName(catalog: seq<ActionEntry>, name: string) {
    exists i | 0 <= i < |catalog| :: catalog[i].displayName == name
  }

  /** Some action of the catalog lists the field. */
  predicate IsActionField(catalog: seq<ActionEntry>, field: string) {
    exists i | 0 <= i < |catalog| :: field in catalog[i].fields
  }

  /** Some input is declared under the name. */
  predicate IsDeclared(inputs: seq<InputDecl>, name: string) {
    exists i | 0 <= i < |inputs| :: inputs[i].name == name
  }

  /** Some input is declared under the name with the given widget class. */
  predicate IsDeclaredAs(inputs: seq<InputDecl>, name: string, kind: InputKind) {
    exists i | 0 <= i < |inputs| :: inputs[i].name == name && inputs[i].kind == kind
  }

  /** Every field of every action, outside `except`, has a declared input. */
  ghost predicate FieldsDeclaredExcept(catalog: seq<ActionEntry>, inputs: seq<InputDecl>, except: set<string>) {
    forall i, j | 0 <= i < |catalog| && 0 <= j < |catalog[i].fields| ::
      catalog[i].fields[j] in except || IsDeclared(inputs, catalog[i].fields[j])
  }

  /** The inputs are declared under the listed names, in order. */
  ghost predicate NamedInOrder(inputs: seq<InputDecl>, names: seq<string>) {
    |inputs| == |names| && forall k | 0 <= k < |inputs| :: inputs[k].name == names[k]
  }

  /** When the list names the inputs in order, a name is declared exactly when it is listed. */
  lemma DeclaredByList(inputs: seq<InputDecl>, names: seq<string>)
    requires NamedInOrder(inputs, names)
    ensures forall f :: IsDeclared(inputs, f) <==> f in names
  {
    forall f | f in names
      ensures IsDeclared(inputs, f)
    {
      var k :| 0 <= k < |names| && names[k] == f;
      assert inputs[k].name == f;
    }
  }

  /** Every declared input can be read; other attributes, such as the base class's inputs, may be readable too. */
  ghost predicate DeclaredReadable(inputs: seq<InputDecl>, values: map<string, Value>) {
    forall f | IsDeclared(inputs, f) :: f in values
  }

  /**
   An action field can be read exactly when it has a declared input: no other
   attribute, such as one of the base class's inputs, carries an action field's name.
   */
  ghost predicate FieldsReadableAsDeclared(catalog: seq<ActionEntry>, inputs: seq<InputDecl>, values: map<string, Value>) {
    forall f | IsActionField(catalog, f) :: f in values <==> IsDeclared(inputs, f)
  }

  // ---------------------------------------------------------------------------
  // Step 1: display name to action key, and key to field list

  /**
   The display-to-key map built from the catalog: the key of the first row with
   that display name. Under distinct display names it is the exact inverse of
   the display-name column (`KeyOfInverse`).
   */
  function KeyOf(catalog: seq<ActionEntry>, name: string): (r: Option<string>)
    ensures r.None? <==> !IsDisplayName(catalog, name)
    ensures r.Some? ==> exists i | 0 <= i < |catalog| :: catalog[i].displayName == name && catalog[i].key == r.value
  {
    if |catalog| == 0 then None
    else if catalog[0].displayName == name then Some(catalog[0].key)
    else
      var r := KeyOf(catalog[1..], name);
      assert forall i | 1 <= i < |catalog| :: catalog[i] == catalog[1..][i - 1];
      r
  }

  /** `_actions_data[key]["action_fields"]` when the key is present. */
  function FieldsOf(catalog: seq<ActionEntry>, key: string): (r: Option<seq<string>>)
    ensures r.None? <==> !IsKey(catalog, key)
    ensures r.Some? ==> exists i | 0 <= i < |catalog| :: catalog[i].key == key && catalog[i].fields == r.value
  {
    if |catalog| == 0 then None
    else if catalog[0].key == key then Some(catalog[0].fields)
    else
      var r := FieldsOf(catalog[1..], key);
      assert forall i | 1 <= i < |catalog| :: catalog[i] == catalog[1..][i - 1];
      r
  }

  /** Every row's display name resolves to that row's key. */
  lemma KeyOfInverse(catalog: seq<ActionEntry>, i: int)
    requires DistinctDisplayNames(catalog)
    requires 0 <= i < |catalog|
    ensures KeyOf(catalog, catalog[i].displayName) == Some(catalog[i].key)
  {
    var r := KeyOf(catalog, catalog[i].displayName);
    var j :| 0 <= j < |catalog| && catalog[j].displayName == catalog[i].displayName && catalog[j].key == r.value;
    assert i == j;
  }

  /** Every row's key finds that row's field list. */
  lemma FieldsOfRow(catalog: seq<ActionEntry>, i: int)
    requires DistinctKeys(catalog)
    requires 0 <= i < |catalog|
    ensures FieldsOf(catalog, catalog[i].key) == Some(catalog[i].fields)
  {
    var r := FieldsOf(catalog, catalog[i].key);
    var j :| 0 <= j < |catalog| && catalog[j].key == catalog[i].key && catalog[j].fields == r.value;
    assert i == j;
  }

  // ---------------------------------------------------------------------------
  // Step 3: the parameter payload

  /**
   The parameter name a field is sent under. An alias is taken only by its own
   field and by a field already carrying the alias; the key-infix drop never
   lengthens a name.
   */
  function ParamName(renaming: Renaming, key: string, field: string): (r: string)
    ensures renaming.Identity? ==> r == field
    ensures renaming.Alias? ==> (r == renaming.to <==> field == renaming.from || field == renaming.to)
    ensures renaming.Alias? && field != renaming.from ==> r == field
    ensures renaming.DropKeyInfix? ==> |r| <= |field|
  {
    match renaming
    case Identity => field
    case Alias(from, to) => if field == from then to else field
    case DropKeyInfix => Replace(field, key + "_", "")
  }

  /** A field of the boolean set is sent as `bool(value)`; any other field as it is. */
  function Coerce(boolFields: set<string>, field: string, v: Value): (r: Value)
    ensures field in boolFields ==> r.Bool? && (r.b <==> Truthy(v))
    ensures field !in boolFields ==> r == v
  {
    if field in boolFields then ToBool(v) else v
  }

  /** Field `i` of the list can be read and its value is neither `None` nor "". */
  predicate Contributes(fields: seq<string>, values: map<string, Value>, i: int) {
    0 <= i < |fields| && fields[i] in values && !IsBlank(values[fields[i]])
  }

  /** Field `i` is the last contributing field sent under parameter name `k`, so its value is the one kept. */
  ghost predicate LastWriter(c: Component, key: string, fields: seq<string>, values: map<string, Value>, k: string, i: int) {
    && Contributes(fields, values, i)
    && ParamName(c.renaming, key, fields[i]) == k
    && forall j | i < j < |fields| && Contributes(fields, values, j) :: ParamName(c.renaming, key, fields[j]) != k
  }

  /**
   The payload the loop promises: its keys are exactly the renamed names of the
   contributing fields, and each key holds the coerced value of the last
   contributing field sent under it.
   */
  ghost predicate Describes(c: Component, key: string, fields: seq<string>, values: map<string, Value>, p: map<string, Value>) {
    && (forall i | Contributes(fields, values, i) :: ParamName(c.renaming, key, fields[i]) in p)
    && (forall k | k in p ::
          exists i :: LastWriter(c, key, fields, values, k, i) && p[k] == Coerce(c.boolFields, fields[i], values[fields[i]]))
  }

  /** Every field of the list can be read. */
  predicate AllReadable(fields: seq<string>, values: map<string, Value>) {
    forall i | 0 <= i < |fields| :: fields[i] in values
  }

  /** Field `i` is the first field of the list that cannot be read. */
  predicate FirstUnreadable(fields: seq<string>, values: map<string, Value>, i: int) {
    0 <= i < |fields| && fields[i] !in values && AllReadable(fields[..i], values)
  }

  /**
   The field loop of `execute_action`: reads the fields in order, stops at the
   first one that cannot be read, skips `None` and "", coerces boolean fields,
   renames, and stores into the payload, a later field overwriting an earlier
   one under the same name.
   */
  function Collect(c: Component, key: string, fields: seq<string>, values: map<string, Value>): (r: Result<map<string, Value>, Cause>)
    ensures r.Ok? <==> AllReadable(fields, values)
    ensures r.Err? ==> exists i :: FirstUnreadable(fields, values, i) && r.error == MissingAttribute(fields[i])
    ensures r.Ok? ==> forall k | k in r.value :: exists i :: Contributes(fields, values, i) && ParamName(c.renaming, key, fields[i]) == k
    decreases |fields|
  {
    if |fields| == 0 then Ok(map[])
    else
      var n := |fields| - 1;
      var front := fields[..n];
      var f := fields[n];
      assert forall i | 0 <= i < n :: front[i] == fields[i];
      assert fields[..n][..n] == front;
      match Collect(c, key, front, values)
      case Err(e) =>
        ghost var i :| FirstUnreadable(front, values, i) && e == MissingAttribute(front[i]);
        assert fields[..i] == front[..i];
        assert FirstUnreadable(fields, values, i);
        Err(e)
      case Ok(p) =>
        if f !in values then
          assert FirstUnreadable(fields, values, n);
          Err(MissingAttribute(f))
        else if IsBlank(values[f]) then
          assert forall i | Contributes(front, values, i) :: Contributes(fields, values, i);
          Ok(p)
        else
          assert Contributes(fields, values, n);
          assert forall i | Contributes(front, values, i) :: Contributes(fields, values, i);
          Ok(p[ParamName(c.renaming, key, f) := Coerce(c.boolFields, f, values[f])])
  }

  /** One step of the loop: the payload of the whole list is the payload of all but its last field, updated by that field. */
  lemma CollectStep(c: Component, key: string, fields: seq<string>, values: map<string, Value>)
    requires |fields| > 0 && AllReadable(fields, values)
    ensures AllReadable(fields[..|fields| - 1], values)
    ensures var n := |fields| - 1;
            var p := Collect(c, key, fields[..n], values).value;
            Collect(c, key, fields, values).value
              == if IsBlank(values[fields[n]]) then p
                 else p[ParamName(c.renaming, key, fields[n]) := Coerce(c.boolFields, fields[n], values[fields[n]])]
  {
    var n := |fields| - 1;
    assert forall i | 0 <= i < n :: fields[..n][i] == fields[i];
  }

  /** A field contributing in the front of the list contributes at the same index in the whole list. */
  lemma ContributesInFront(fields: seq<string>, values: map<string, Value>, n: int, i: int)
    requires 0 <= n <= |fields|
    ensures Contributes(fields[..n], values, i) <==> (i < n && Contributes(fields, values, i))
  {
  }

  /** Every contributing field is sent, under its renamed name. */
  lemma {:induction false} CollectCoversContributors(c: Component, key: string, fields: seq<string>, values: map<string, Value>)
    requires AllReadable(fields, values)
    ensures forall i | Contributes(fields, values, i) :: ParamName(c.renaming, key, fields[i]) in Collect(c, key, fields, values).value
    decreases |fields|
  {
    if |fields| == 0 {
      return;
    }
    var n := |fields| - 1;
    var front := fields[..n];
    CollectStep(c, key, fields, values);
    CollectCoversContributors(c, key, front, values);
    var q := Collect(c, key, fields, values).value;
    forall i | Contributes(fields, values, i)
      ensures ParamName(c.renaming, key, fields[i]) in q
    {
      if i < n {
        ContributesInFront(fields, values, n, i);
        assert front[i] == fields[i];
      }
    }
  }

  /** A last writer in the front of the list stays the last writer when the last field is sent under another name. */
  lemma LastWriterExtends(c: Component, key: string, fields: seq<string>, values: map<string, Value>, k: string, i: int)
    requires |fields| > 0
    requires LastWriter(c, key, fields[..|fields| - 1], values, k, i)
    requires Contributes(fields, values, |fields| - 1) ==> ParamName(c.renaming, key, fields[|fields| - 1]) != k
    ensures LastWriter(c, key, fields, values, k, i)
  {
    var n := |fields| - 1;
    var front := fields[..n];
    ContributesInFront(fields, values, n, i);
    assert front[i] == fields[i];
    forall j | i < j < |fields| && Contributes(fields, values, j)
      ensures ParamName(c.renaming, key, fields[j]) != k
    {
      if j < n {
        ContributesInFront(fields, values, n, j);
        assert front[j] == fields[j];
      }
    }
  }

  /** Every key of the payload holds the coerced value of the last contributing field sent under it. */
  lemma {:induction false} CollectKeepsLastWriter(c: Component, key: string, fields: seq<string>, values: map<string, Value>)
    requires AllReadable(fields, values)
    ensures var q := Collect(c, key, fields, values).value;
            forall k | k in q ::
              exists i :: LastWriter(c, key, fields, values, k, i) && q[k] == Coerce(c.boolFields, fields[i], values[fields[i]])
    decreases |fields|
  {
    if |fields| == 0 {
      return;
    }
    var n := |fields| - 1;
    var front := fields[..n];
    var f := fields[n];
    CollectStep(c, key, fields, values);
    CollectKeepsLastWriter(c, key, front, values);
    var p := Collect(c, key, front, values).value;
    var q := Collect(c, key, fields, values).value;
    var name := ParamName(c.renaming, key, f);
    forall k | k in q
      ensures exists i :: LastWriter(c, key, fields, values, k, i) && q[k] == Coerce(c.boolFields, fields[i], values[fields[i]])
    {
      if !IsBlank(values[f]) && k == name {
        assert LastWriter(c, key, fields, values, k, n);
      } else {
        assert k in p && q[k] == p[k];
        var i :| LastWriter(c, key, front, values, k, i) && p[k] == Coerce(c.boolFields, front[i], values[front[i]]);
        LastWriterExtends(c, key, fields, values, k, i);
      }
    }
  }

  /** The payload `Collect` builds is the one `Describes` specifies. */
  lemma CollectDescribes(c: Component, key: string, fields: seq<string>, values: map<string, Value>)
    requires AllReadable(fields, values)
    ensures Describes(c, key, fields, values, Collect(c, key, fields, values).value)
  {
    CollectCoversContributors(c, key, fields, values);
    CollectKeepsLastWriter(c, key, fields, values);
  }

  /**
   `BuildParams`: the payload for a catalog key. A key outside the catalog gets
   the empty payload, as the `if action_key in self._actions_data` guard gives.
   */
  function BuildParams(c: Component, key: string, values: map<string, Value>): (r: Result<map<string, Value>, Cause>)
    ensures !IsKey(c.catalog, key) ==> r == Ok(map[])
    ensures r.Err? ==> r.error.MissingAttribute? && IsActionField(c.catalog, r.error.field) && r.error.field !in values
    ensures r.Ok? ==> forall k | k in r.value :: exists f :: IsActionField(c.catalog, f) && f in values && !IsBlank(values[f]) && ParamName(c.renaming, key, f) == k
  {
    match FieldsOf(c.catalog, key)
    case None => Ok(map[])
    case Some(fields) =>
      var r := Collect(c, key, fields, values);
      if r.Err? then
        ghost var i :| FirstUnreadable(fields, values, i) && r.error == MissingAttribute(fields[i]);
        ghost var j :| 0 <= j < |c.catalog| && c.catalog[j].key == key && c.catalog[j].fields == fields;
        assert fields[i] in c.catalog[j].fields;
        r
      else
        ghost var j :| 0 <= j < |c.catalog| && c.catalog[j].key == key && c.catalog[j].fields == fields;
        assert forall i | 0 <= i < |fields| :: fields[i] in c.catalog[j].fields;
        r
  }

  /** For a catalog row, a successful `BuildParams` returns exactly the payload `Describes` specifies for that row's fields. */
  lemma BuildParamsDescribes(c: Component, i: int, values: map<string, Value>)
    requires DistinctKeys(c.catalog)
    requires 0 <= i < |c.catalog|
    ensures var r := BuildParams(c, c.catalog[i].key, values);
            r.Ok? <==> AllReadable(c.catalog[i].fields, values)
    ensures var r := BuildParams(c, c.catalog[i].key, values);
            r.Ok? ==> Describes(c, c.catalog[i].key, c.catalog[i].fields, values, r.value)
  {
    FieldsOfRow(c.catalog, i);
    if AllReadable(c.catalog[i].fields, values) {
      CollectDescribes(c, c.catalog[i].key, c.catalog[i].fields, values);
    }
  }

  /** The renaming sends every field of the list under its own name. */
  ghost predicate KeepsNames(renaming: Renaming, key: string, fields: seq<string>) {
    forall j | 0 <= j < |fields| :: ParamName(renaming, key, fields[j]) == fields[j]
  }

  /**
   `field.replace(key + "_", "")` leaves a field shorter than `key + "_"`
   unchanged, so a list of such fields keeps its names.
   */
  lemma ShortFieldsKeepNames(key: string, fields: seq<string>)
    requires forall j | 0 <= j < |fields| :: |fields[j]| <= |key|
    ensures KeepsNames(DropKeyInfix, key, fields)
  {
    forall j | 0 <= j < |fields|
      ensures ParamName(DropKeyInfix, key, fields[j]) == fields[j]
    {
      LongPatternAbsent(fields[j], key + "_");
      ReplaceWithoutOccurrence(fields[j], key + "_", "");
    }
  }

  /**
   When the renaming keeps every name of the list, the payload's keys are
   exactly the fields whose value is neither `None` nor "", and each holds that
   field's coerced value.
   */
  lemma KeptNamesPayload(c: Component, key: string, fields: seq<string>, values: map<string, Value>, p: map<string, Value>)
    requires KeepsNames(c.renaming, key, fields)
    requires Describes(c, key, fields, values, p)
    ensures forall k :: k in p <==> k in fields && k in values && !IsBlank(values[k])
    ensures forall k | k in p :: p[k] == Coerce(c.boolFields, k, values[k])
  {
    forall k | k in fields && k in values && !IsBlank(values[k])
      ensures k in p
    {
      var i :| 0 <= i < |fields| && fields[i] == k;
      assert Contributes(fields, values, i);
    }
    forall k | k in p
      ensures k in fields && k in values && !IsBlank(values[k]) && p[k] == Coerce(c.boolFields, k, values[k])
    {
      var i :| LastWriter(c, key, fields, values, k, i) && p[k] == Coerce(c.boolFields, fields[i], values[fields[i]]);
    }
  }

  /** `False` and `0` are not blank: a field holding either is sent. */
  lemma FalseAndZeroAreSent(c: Component, key: string, fields: seq<string>, values: map<string, Value>, p: map<string, Value>, i: int)
    requires Describes(c, key, fields, values, p)
    requires 0 <= i < |fields| && fields[i] in values
    requires values[fields[i]] == Bool(false) || values[fields[i]] == Int(0)
    ensures ParamName(c.renaming, key, fields[i]) in p
  {
    assert Contributes(fields, values, i);
  }

  /** An action without fields always builds the empty payload, whatever the attribute state. */
  lemma EmptyRowPayload(c: Component, i: int, values: map<string, Value>)
    requires DistinctKeys(c.catalog)
    requires 0 <= i < |c.catalog| && c.catalog[i].fields == []
    ensures BuildParams(c, c.catalog[i].key, values) == Ok(map[])
  {
    FieldsOfRow(c.catalog, i);
  }

  /**
   Without renaming, a readable field of the selected action whose value is
   neither `None` nor "" is sent under its own name with its coerced value.
   */
  lemma IdentityRowSends(c: Component, i: int, values: map<string, Value>, p: map<string, Value>, f: string)
    requires DistinctKeys(c.catalog) && c.renaming == Identity
    requires 0 <= i < |c.catalog|
    requires BuildParams(c, c.catalog[i].key, values) == Ok(p)
    requires f in c.catalog[i].fields && f in values && !IsBlank(values[f])
    ensures f in p && p[f] == Coerce(c.boolFields, f, values[f])
  {
    BuildParamsDescribes(c, i, values);
    KeptNamesPayload(c, c.catalog[i].key, c.catalog[i].fields, values, p);
  }

  /**
   Selecting an action without fields makes the remote call with the empty
   payload, whatever the attribute state.
   */
  lemma EmptyRowExecute<E>(c: Component, actions: map<string, E>, remote: (E, map<string, Value>) -> Reply, i: int, values: map<string, Value>)
    requires DistinctDisplayNames(c.catalog) && DistinctKeys(c.catalog)
    requires 0 <= i < |c.catalog| && c.catalog[i].fields == []
    requires c.catalog[i].key != "" && c.catalog[i].key in actions
    ensures Execute(c, actions, remote, Text(c.catalog[i].displayName), values)
              == match remote(actions[c.catalog[i].key], map[])
                 case Returned(envelope) => Ok(Unwrap(envelope))
                 case Raised(m) => Err(Failed(c.catalog[i].displayName, RemoteError(m)))
  {
    EmptyRowPayload(c, i, values);
    ExecuteRow(c, actions, remote, i, values);
  }

  /** A field holding `None` or "" is sent under no name that only it could produce. */
  lemma BlankIsNotSent(c: Component, key: string, fields: seq<string>, values: map<string, Value>, p: map<string, Value>, i: int)
    requires Describes(c, key, fields, values, p)
    requires 0 <= i < |fields| && fields[i] in values && IsBlank(values[fields[i]])
    requires forall j | Contributes(fields, values, j) :: ParamName(c.renaming, key, fields[j]) != ParamName(c.renaming, key, fields[i])
    ensures ParamName(c.renaming, key, fields[i]) !in p
  {
  }

  /** With one aliased field, the aliased name is never a key and the alias holds that field's coerced value exactly when it is sent. */
  lemma AliasEntry(c: Component, key: string, fields: seq<string>, values: map<string, Value>, p: map<string, Value>)
    requires c.renaming.Alias? && c.renaming.from != c.renaming.to
    requires c.renaming.to !in fields
    requires Describes(c, key, fields, values, p)
    ensures c.renaming.from !in p
    ensures c.renaming.to in p <==> c.renaming.from in fields && c.renaming.from in values && !IsBlank(values[c.renaming.from])
    ensures c.renaming.to in p ==> p[c.renaming.to] == Coerce(c.boolFields, c.renaming.from, values[c.renaming.from])
  {
    var from, to := c.renaming.from, c.renaming.to;
    if from in fields && from in values && !IsBlank(values[from]) {
      var i :| 0 <= i < |fields| && fields[i] == from;
      assert Contributes(fields, values, i);
    }
    if to in p {
      var j :| LastWriter(c, key, fields, values, to, j) && p[to] == Coerce(c.boolFields, fields[j], values[fields[j]]);
      assert fields[j] == from;
    }
  }

  /** With one aliased field, every other contributing field is sent under its own name with its coerced value, and nothing else. */
  lemma AliasOthers(c: Component, key: string, fields: seq<string>, values: map<string, Value>, p: map<string, Value>)
    requires c.renaming.Alias? && c.renaming.from != c.renaming.to
    requires c.renaming.to !in fields
    requires Describes(c, key, fields, values, p)
    ensures forall k | k in p && k != c.renaming.to :: k in fields && k in values && !IsBlank(values[k]) && p[k] == Coerce(c.boolFields, k, values[k])
    ensures forall k | k in fields && k != c.renaming.from && k in values && !IsBlank(values[k]) :: k in p
  {
    var from, to := c.renaming.from, c.renaming.to;
    forall k | k in p && k != to
      ensures k in fields && k in values && !IsBlank(values[k]) && p[k] == Coerce(c.boolFields, k, values[k])
    {
      var i :| LastWriter(c, key, fields, values, k, i) && p[k] == Coerce(c.boolFields, fields[i], values[fields[i]]);
    }
    forall k | k in fields && k != from && k in values && !IsBlank(values[k])
      ensures k in p
    {
      var i :| 0 <= i < |fields| && fields[i] == k;
      assert Contributes(fields, values, i);
    }
  }

  /**
   With one aliased field the payload holds the alias instead of the field's
   own name, and every other contributing field under its own name, each with
   its coerced value; the aliased name itself is never a key.
   */
  lemma AliasPayload(c: Component, key: string, fields: seq<string>, values: map<string, Value>, p: map<string, Value>)
    requires c.renaming.Alias? && c.renaming.from != c.renaming.to
    requires c.renaming.to !in fields
    requires Describes(c, key, fields, values, p)
    ensures c.renaming.from !in p
    ensures c.renaming.to in p <==> c.renaming.from in fields && c.renaming.from in values && !IsBlank(values[c.renaming.from])
    ensures c.renaming.to in p ==> p[c.renaming.to] == Coerce(c.boolFields, c.renaming.from, values[c.renaming.from])
    ensures forall k | k in p && k != c.renaming.to :: k in fields && k in values && !IsBlank(values[k]) && p[k] == Coerce(c.boolFields, k, values[k])
    ensures forall k | k in fields && k != c.renaming.from && k in values && !IsBlank(values[k]) :: k in p
    ensures forall k | k in p :: k == c.renaming.to || k in fields
  {
    AliasEntry(c, key, fields, values, p);
    AliasOthers(c, key, fields, values, p);
  }

  /**
   When an action field can be read exactly when it is declared, an action
   whose field list reaches an undeclared field before any other unreadable one
   always fails with that field's missing attribute, before the remote call.
   */
  lemma UndeclaredFieldFails<E>(c: Component, inputs: seq<InputDecl>, actions: map<string, E>, remote: (E, map<string, Value>) -> Reply,
                                i: int, m: int, values: map<string, Value>)
    requires DistinctDisplayNames(c.catalog) && DistinctKeys(c.catalog)
    requires 0 <= i < |c.catalog|
    requires c.catalog[i].key != "" && c.catalog[i].key in actions
    requires 0 <= m < |c.catalog[i].fields|
    requires forall j | 0 <= j < m :: IsDeclared(inputs, c.catalog[i].fields[j])
    requires !IsDeclared(inputs, c.catalog[i].fields[m])
    requires FieldsReadableAsDeclared(c.catalog, inputs, values)
    ensures Execute(c, actions, remote, Text(c.catalog[i].displayName), values)
              == Err(Failed(c.catalog[i].displayName, MissingAttribute(c.catalog[i].fields[m])))
  {
    var row := c.catalog[i];
    KeyOfInverse(c.catalog, i);
    FieldsOfRow(c.catalog, i);
    var r := Collect(c, row.key, row.fields, values);
    assert row.fields[m] in c.catalog[i].fields;
    assert row.fields[m] !in values;
    var n :| FirstUnreadable(row.fields, values, n) && r.error == MissingAttribute(row.fields[n]);
    assert forall k | 0 <= k < n :: row.fields[..n][k] == row.fields[k];
    assert n <= m;
    assert row.fields[n] in c.catalog[i].fields;
    assert n == m;
  }

  // ---------------------------------------------------------------------------
  // Step 5: the envelope

  /** The remote call reported success: `successful` is present and truthy. */
  predicate Succeeded(envelope: map<string, Value>) {
    "successful" in envelope && Truthy(envelope["successful"])
  }

  /**
   Unwraps the envelope: a missing or falsy `successful` gives `{"error": error}`,
   with "No response" only when `error` is absent; otherwise `data`, or `[]`
   when `data` is absent.
   */
  function Unwrap(envelope: map<string, Value>): (r: Value)
    ensures !Succeeded(envelope) ==> r.Dict? && r.entries.Keys == {"error"}
    ensures !Succeeded(envelope) && "error" in envelope ==> r.entries["error"] == envelope["error"]
    ensures !Succeeded(envelope) && "error" !in envelope ==> r.entries["error"] == Str("No response")
    ensures Succeeded(envelope) && "data" in envelope ==> r == envelope["data"]
    ensures Succeeded(envelope) && "data" !in envelope ==> r == List([])
  {
    if !Truthy(Get(envelope, "successful", Null)) then
      Dict(map["error" := Get(envelope, "error", Str("No response"))])
    else
      Get(envelope, "data", List([]))
  }

  // ---------------------------------------------------------------------------
  // Steps 1-4 and 6: the dispatcher

  /**
   From a display name to the request: resolve the key (a missing or empty key
   is an invalid action), resolve the SDK action, build the payload. `shown`
   names the action in the wrapped error.
   */
  function Resolve<E>(c: Component, actions: map<string, E>, name: string, shown: string, values: map<string, Value>): (r: Result<Request<E>, ExecError>)
    ensures !IsDisplayName(c.catalog, name) ==> r == Err(Failed(shown, InvalidAction(name)))
    ensures r.Ok? ==> IsDisplayName(c.catalog, name) && r.value.shown == shown
    ensures r.Err? ==> r.error.Failed? && r.error.shown == shown
    ensures r.Ok? ==> && KeyOf(c.catalog, name).Some?
                      && KeyOf(c.catalog, name).value in actions
                      && r.value.action == actions[KeyOf(c.catalog, name).value]
                      && BuildParams(c, KeyOf(c.catalog, name).value, values) == Ok(r.value.params)
  {
    match KeyOf(c.catalog, name)
    case None => Err(Failed(shown, InvalidAction(name)))
    case Some(key) =>
      if key == "" then Err(Failed(shown, InvalidAction(name)))
      else if key !in actions then Err(Failed(shown, UnknownActionEnum(key)))
      else
        match BuildParams(c, key, values)
        case Err(cause) => Err(Failed(shown, cause))
        case Ok(params) => Ok(Request(actions[key], params, shown))
  }

  /** Everything before the remote call: the selected display name, then `Resolve`. */
  function Prepare<E>(c: Component, actions: map<string, E>, sel: Selection, values: map<string, Value>): (r: Result<Request<E>, ExecError>)
    ensures SelectedName(sel).None? ==> r.Err?
    ensures r.Ok? ==> SelectedName(sel).Some? && r == Resolve(c, actions, SelectedName(sel).value, SelectedName(sel).value, values)
  {
    match sel
    case Unset => Err(Failed("None", InvalidAction("None")))
    case Text(name) => Resolve(c, actions, name, name, values)
    case Items(items) =>
      if |items| == 0 then Err(Failed("[]", UnhashableName))
      else if "name" !in items[0] then Err(SelectionKeyError)
      else Resolve(c, actions, items[0]["name"], items[0]["name"], values)
  }

  /** The display name the handler reports: `action[0]["name"]` for a non-empty list, `str(action)` otherwise. */
  function Label(sel: Selection): (r: Option<string>)
    ensures sel.Unset? ==> r == Some("None")
    ensures r.None? <==> sel.Items? && |sel.items| > 0 && "name" !in sel.items[0]
  {
    match sel
    case Unset => Some("None")
    case Text(name) => Some(name)
    case Items(items) =>
      if |items| == 0 then Some("[]")
      else if "name" in items[0] then Some(items[0]["name"])
      else None
  }

  /** The display name looked up in the catalog, when the selection yields a hashable string. */
  function SelectedName(sel: Selection): (r: Option<string>)
    ensures r.Some? ==> Label(sel) == r
    ensures r.None? ==> Label(sel).None? || Label(sel).value == "None" || Label(sel).value == "[]"
  {
    match sel
    case Text(name) => Some(name)
    case Items(items) => if |items| > 0 && "name" in items[0] then Some(items[0]["name"]) else None
    case Unset => None
  }

  /**
   `execute_action`: prepare, make the one remote call, unwrap the envelope.
   Every failure other than a selection list whose first item has no "name"
   is reported as `Failed` under the selection's label.
   */
  function Execute<E>(c: Component, actions: map<string, E>, remote: (E, map<string, Value>) -> Reply, sel: Selection, values: map<string, Value>): (r: Result<Value, ExecError>)
    ensures r.Err? && Label(sel).Some? ==> r.error.Failed? && r.error.shown == Label(sel).value
    ensures r.Err? && Label(sel).None? ==> r.error == SelectionKeyError
    ensures SelectedName(sel).None? ==> r.Err?
    ensures SelectedName(sel).Some? && !IsDisplayName(c.catalog, SelectedName(sel).value) ==>
              r == Err(Failed(SelectedName(sel).value, InvalidAction(SelectedName(sel).value)))
    ensures r.Ok? ==> SelectedName(sel).Some? && exists key, envelope ::
              && KeyOf(c.catalog, SelectedName(sel).value) == Some(key)
              && key in actions
              && BuildParams(c, key, values).Ok?
              && remote(actions[key], BuildParams(c, key, values).value) == Returned(envelope)
              && r.value == Unwrap(envelope)
  {
    match Prepare(c, actions, sel, values)
    case Err(e) => Err(e)
    case Ok(req) =>
      match remote(req.action, req.params)
      case Raised(message) => Err(Failed(req.shown, RemoteError(message)))
      case Returned(envelope) => Ok(Unwrap(envelope))
  }

  /** `str(e)` of the cause, where its wording is fixed by the component or by Python itself. */
  function Detail(cause: Cause): (r: Option<string>)
    ensures r.None? <==> cause.MissingAttribute? || cause.UnknownActionEnum?
    ensures cause.InvalidAction? ==> r.Some? && |r.value| == 16 + |cause.name| && r.value[..16] == "Invalid action: " && r.value[16..] == cause.name
    ensures cause.RemoteError? ==> r == Some(cause.message)
  {
    match cause
    case InvalidAction(name) => Some("Invalid action: " + name)
    case UnhashableName => Some("unhashable type: 'list'")
    case RemoteError(message) => Some(message)
    case MissingAttribute(_) => None
    case UnknownActionEnum(_) => None
  }

  /** The text of the raised error, where it is fixed by the component or by Python itself. */
  function Message(e: ExecError): (r: Option<string>)
    ensures r.Some? <==> e.SelectionKeyError? || Detail(e.cause).Some?
    ensures e.Failed? && r.Some? ==>
              && |r.value| == 20 + |e.shown| + |Detail(e.cause).value|
              && r.value[..18] == "Failed to execute "
              && r.value[18..18 + |e.shown|] == e.shown
              && r.value[18 + |e.shown|..] == ": " + Detail(e.cause).value
  {
    match e
    case SelectionKeyError => Some("'name'")
    case Failed(shown, cause) =>
      match Detail(cause)
      case None => None
      case Some(d) => Some("Failed to execute " + shown + ": " + d)
  }

  /**
   A display name outside the catalog fails as an invalid action, whatever the
   remote would have answered: no remote call takes part in the outcome.
   */
  lemma UnknownNameFailsBeforeRemote<E>(c: Component, actions: map<string, E>, remote1: (E, map<string, Value>) -> Reply,
                                        remote2: (E, map<string, Value>) -> Reply, name: string, values: map<string, Value>)
    requires !IsDisplayName(c.catalog, name)
    ensures Execute(c, actions, remote1, Text(name), values) == Execute(c, actions, remote2, Text(name), values)
    ensures var r := Execute(c, actions, remote1, Text(name), values);
            r.Err? && Message(r.error) == Some("Failed to execute " + name + ": Invalid action: " + name)
  {
    assert "Failed to execute " + name + ": " + ("Invalid action: " + name)
        == "Failed to execute " + name + ": Invalid action: " + name;
  }

  /** Input lists named in order concatenate to a list named in order. */
  lemma NamedInOrderConcat(a: seq<InputDecl>, an: seq<string>, b: seq<InputDecl>, bn: seq<string>)
    requires NamedInOrder(a, an) && NamedInOrder(b, bn)
    ensures NamedInOrder(a + b, an + bn)
  {
    forall k | 0 <= k < |a + b|
      ensures (a + b)[k].name == (an + bn)[k]
    {
      if k >= |a| {
        assert (a + b)[k] == b[k - |a|];
        assert (an + bn)[k] == bn[k - |a|];
      }
    }
  }

  /**
   When every field of every action has a declared input and every declared
   input can be read, selecting any action the SDK knows reaches the one
   remote call, with the payload `Describes` specifies.
   */
  lemma DeclaredActionsReachRemote<E>(c: Component, inputs: seq<InputDecl>, actions: map<string, E>, remote: (E, map<string, Value>) -> Reply,
                                      i: int, values: map<string, Value>)
    requires DistinctDisplayNames(c.catalog) && DistinctKeys(c.catalog)
    requires FieldsDeclaredExcept(c.catalog, inputs, {})
    requires DeclaredReadable(inputs, values)
    requires 0 <= i < |c.catalog|
    requires c.catalog[i].key != "" && c.catalog[i].key in actions
    ensures var row := c.catalog[i];
            var p := BuildParams(c, row.key, values);
            && p.Ok?
            && Describes(c, row.key, row.fields, values, p.value)
            && Execute(c, actions, remote, Text(row.displayName), values)
                 == match remote(actions[row.key], p.value)
                    case Returned(envelope) => Ok(Unwrap(envelope))
                    case Raised(m) => Err(Failed(row.displayName, RemoteError(m)))
  {
    assert AllReadable(c.catalog[i].fields, values);
    ExecuteRow(c, actions, remote, i, values);
  }

  /**
   A selection list whose first item has a "name" behaves exactly as selecting
   that name directly: the lookup, the payload, the remote call and the label
   of a failure are all the same.
   */
  lemma ItemsLikeText<E>(c: Component, actions: map<string, E>, remote: (E, map<string, Value>) -> Reply,
                         items: seq<map<string, string>>, values: map<string, Value>)
    requires |items| > 0 && "name" in items[0]
    ensures Execute(c, actions, remote, Items(items), values) == Execute(c, actions, remote, Text(items[0]["name"]), values)
  {
  }

  /** Every failure before the remote call leaves the remote out of the outcome. */
  lemma PrepareFailureIgnoresRemote<E>(c: Component, actions: map<string, E>, remote1: (E, map<string, Value>) -> Reply,
                                       remote2: (E, map<string, Value>) -> Reply, sel: Selection, values: map<string, Value>)
    requires Prepare(c, actions, sel, values).Err?
    ensures Execute(c, actions, remote1, sel, values) == Execute(c, actions, remote2, sel, values) == Err(Prepare(c, actions, sel, values).error)
  {
  }

  /**
   The successful dispatch of a catalog row: selecting its display name, with
   every field of the row readable and the key known to the SDK, sends one
   request carrying the payload `Describes` specifies for the row and returns
   the unwrapped envelope, or reports the remote's exception under that name.
   */
  lemma ExecuteRow<E>(c: Component, actions: map<string, E>, remote: (E, map<string, Value>) -> Reply, i: int, values: map<string, Value>)
    requires DistinctDisplayNames(c.catalog) && DistinctKeys(c.catalog)
    requires 0 <= i < |c.catalog|
    requires c.catalog[i].key != "" && c.catalog[i].key in actions
    requires AllReadable(c.catalog[i].fields, values)
    ensures var row := c.catalog[i];
            var p := BuildParams(c, row.key, values);
            && p.Ok?
            && Describes(c, row.key, row.fields, values, p.value)
            && Execute(c, actions, remote, Text(row.displayName), values)
                 == match remote(actions[row.key], p.value)
                    case Returned(envelope) => Ok(Unwrap(envelope))
                    case Raised(m) => Err(Failed(row.displayName, RemoteError(m)))
  {
    KeyOfInverse(c.catalog, i);
    BuildParamsDescribes(c, i, values);
  }
}
