/**
 * The schema builder's save handler: compiles an ordered list of field definitions into a
 * JSON-Schema-like document and a UI-hint document, and stores them as a marksheet schema.
 */
module SchemaBuilder {
  import opened Wrappers
  import opened Seqs
  import opened Records
  import opened Db

  /** The field types the builder offers. */
  datatype FieldType = StringField | NumberField | BooleanField

  function TypeName(t: FieldType): (name: string)
    ensures name in {"string", "number", "boolean"}
  {
    match t
    case StringField => "string"
    case NumberField => "number"
    case BooleanField => "boolean"
  }

  /** The widgets the builder offers besides the empty "(auto)" choice. */
  const WidgetOptions: seq<string> := ["text", "updown", "checkbox"]

  datatype FieldDef = FieldDef(key: string, labelText: string, typ: FieldType, required: bool, widget: Option<string>)

  datatype SchemaFormValues = SchemaFormValues(name: string, fields: seq<FieldDef>)

  /** `if (field.widget)`: a widget that is set and not the empty string. */
  predicate HasWidget(f: FieldDef) { f.widget.Some? && f.widget.value != "" }

  predicate IsRequired(f: FieldDef) { f.required }

  function KeySeq(fields: seq<FieldDef>): (r: seq<string>)
    ensures |r| == |fields| && forall i :: 0 <= i < |fields| ==> r[i] == fields[i].key
  {
    seq(|fields|, i requires 0 <= i < |fields| => fields[i].key)
  }

  /** The `properties` map after the loop has written each field in turn. */
  function PropertiesOf(fields: seq<FieldDef>): (r: map<string, PropDef>)
    ensures forall i :: 0 <= i < |fields| ==> fields[i].key in r
    ensures forall k :: k in r ==> r[k].typ in {"string", "number", "boolean"}
  {
    if fields == [] then map[]
    else
      var last := fields[|fields| - 1];
      PropertiesOf(fields[..|fields| - 1])[last.key := PropDef(TypeName(last.typ))]
  }

  /** The `required` list after the loop: the keys of the required fields, in order. */
  function RequiredOf(fields: seq<FieldDef>): (r: seq<string>)
    ensures |r| <= |fields|
    ensures forall j :: 0 <= j < |r| ==> exists i :: 0 <= i < |fields| && fields[i].required && fields[i].key == r[j]
  {
    var chosen := Filter(fields, IsRequired);
    assert forall j :: 0 <= j < |chosen| ==> chosen[j] in chosen;
    KeySeq(chosen)
  }

  /** The UI-hint map after the loop. */
  function UiOf(fields: seq<FieldDef>): (r: UiSchema)
    ensures forall k :: k in r ==> r[k].Keys == {UiWidget} && r[k][UiWidget] != ""
  {
    if fields == [] then map[]
    else
      var last := fields[|fields| - 1];
      var before := UiOf(fields[..|fields| - 1]);
      if HasWidget(last) then before[last.key := map[UiWidget := last.widget.value]] else before
  }

  /** The stored schema document: `required` is dropped when it would be empty. */
  function SchemaOf(fields: seq<FieldDef>): (r: SchemaDoc)
    ensures r.typ == "object" && r.properties == Some(PropertiesOf(fields))
    ensures r.required != Some([])
  {
    var required := RequiredOf(fields);
    SchemaDoc("object", Some(PropertiesOf(fields)), if required == [] then None else Some(required))
  }

  /** `i` is the last position of a field with key `k`. */
  ghost predicate LastWithKey(fields: seq<FieldDef>, k: string, i: int)
  {
    && 0 <= i < |fields| && fields[i].key == k
    && forall j :: i < j < |fields| ==> fields[j].key != k
  }

  /** `i` is the last position of a field with key `k` that sets a widget. */
  ghost predicate LastWidgetFor(fields: seq<FieldDef>, k: string, i: int)
  {
    && 0 <= i < |fields| && fields[i].key == k && HasWidget(fields[i])
    && forall j :: i < j < |fields| && fields[j].key == k ==> !HasWidget(fields[j])
  }

  /** The keys of `properties` are exactly the field keys. */
  lemma {:induction false} PropertiesKeys(fields: seq<FieldDef>)
    ensures PropertiesOf(fields).Keys == set f | f in fields :: f.key
  {
    if fields != [] {
      var init := fields[..|fields| - 1];
      PropertiesKeys(init);
      assert fields == init + [fields[|fields| - 1]];
    }
  }

  /** Among fields sharing a key, the last one's type is the one stored. */
  lemma {:induction false} PropertiesLastWins(fields: seq<FieldDef>, k: string, i: int)
    requires LastWithKey(fields, k, i)
    ensures k in PropertiesOf(fields) && PropertiesOf(fields)[k] == PropDef(TypeName(fields[i].typ))
  {
    if i < |fields| - 1 {
      var init := fields[..|fields| - 1];
      assert init[i] == fields[i];
      PropertiesLastWins(init, k, i);
    }
  }

  /** The UI map has an entry exactly for the keys of fields that set a non-empty widget. */
  lemma {:induction false} UiKeys(fields: seq<FieldDef>)
    ensures UiOf(fields).Keys == set f | f in fields && HasWidget(f) :: f.key
  {
    if fields != [] {
      var init := fields[..|fields| - 1];
      UiKeys(init);
      assert fields == init + [fields[|fields| - 1]];
    }
  }

  /** Among fields sharing a key, the last one that sets a widget gives the entry. */
  lemma {:induction false} UiLastWidgetWins(fields: seq<FieldDef>, k: string, i: int)
    requires LastWidgetFor(fields, k, i)
    ensures k in UiOf(fields) && UiOf(fields)[k] == map[UiWidget := fields[i].widget.value]
  {
    if i < |fields| - 1 {
      var init := fields[..|fields| - 1];
      assert init[i] == fields[i];
      UiLastWidgetWins(init, k, i);
    }
  }

  /**
   * `required` lists the key of every required field, in input order, once per field:
   * `idx` gives the position of the field each entry comes from.
   */
  lemma RequiredInInputOrder(fields: seq<FieldDef>) returns (idx: seq<nat>)
    ensures |idx| == |RequiredOf(fields)|
    ensures forall j :: 0 <= j < |idx| ==>
      idx[j] < |fields| && fields[idx[j]].required && RequiredOf(fields)[j] == fields[idx[j]].key
    ensures forall j, k :: 0 <= j < k < |idx| ==> idx[j] < idx[k]
    ensures forall i :: 0 <= i < |fields| ==> (fields[i].required <==> i in idx)
  {
    idx := FilterPositions(fields, IsRequired);
  }

  /** The `required` list is empty exactly when no field is required. */
  lemma RequiredEmpty(fields: seq<FieldDef>)
    ensures RequiredOf(fields) == [] <==> forall i :: 0 <= i < |fields| ==> !fields[i].required
  {
    var idx := RequiredInInputOrder(fields);
    if RequiredOf(fields) == [] {
      forall i | 0 <= i < |fields| ensures !fields[i].required {
        assert fields[i].required ==> i in idx;
      }
    } else {
      assert fields[idx[0]].required;
    }
  }

  lemma KeySeqAppend(a: seq<FieldDef>, b: seq<FieldDef>)
    ensures KeySeq(a + b) == KeySeq(a) + KeySeq(b)
  {
  }

  /** One more field extends `required` by its key exactly when it is required. */
  lemma RequiredStep(fields: seq<FieldDef>, i: nat)
    requires i < |fields|
    ensures RequiredOf(fields[..i + 1]) ==
      RequiredOf(fields[..i]) + if fields[i].required then [fields[i].key] else []
  {
    assert fields[..i + 1] == fields[..i] + [fields[i]];
    FilterAppend(fields[..i], [fields[i]], IsRequired);
    assert Filter([fields[i]], IsRequired) == if fields[i].required then [fields[i]] else [];
    KeySeqAppend(Filter(fields[..i], IsRequired), Filter([fields[i]], IsRequired));
  }

  /**
   * The loop of the save handler: writes `{type}` for each key, pushes the keys of required
   * fields, sets a `ui:widget` entry for each field with a widget, then drops an empty
   * `required` list.
   */
  method CompileFields(fields: seq<FieldDef>) returns (schemaJson: SchemaDoc, uiSchemaJson: UiSchema)
    ensures schemaJson == SchemaOf(fields) && uiSchemaJson == UiOf(fields)
    ensures schemaJson.typ == "object"
    ensures schemaJson.properties.Some?
    ensures schemaJson.properties.value.Keys == set f | f in fields :: f.key
    ensures schemaJson.required.None? <==> forall i :: 0 <= i < |fields| ==> !fields[i].required
    ensures uiSchemaJson.Keys == set f | f in fields && HasWidget(f) :: f.key
  {
    var properties: map<string, PropDef> := map[];
    var required: seq<string> := [];
    uiSchemaJson := map[];
    for i := 0 to |fields|
      invariant properties == PropertiesOf(fields[..i])
      invariant required == RequiredOf(fields[..i])
      invariant uiSchemaJson == UiOf(fields[..i])
    {
      var field := fields[i];
      assert fields[..i + 1][..i] == fields[..i];
      RequiredStep(fields, i);
      properties := properties[field.key := PropDef(TypeName(field.typ))];
      if field.required {
        required := required + [field.key];
      }
      if HasWidget(field) {
        uiSchemaJson := uiSchemaJson[field.key := map[UiWidget := field.widget.value]];
      }
    }
    assert fields[..|fields|] == fields;
    PropertiesKeys(fields);
    UiKeys(fields);
    RequiredEmpty(fields);
    schemaJson := SchemaDoc("object", Some(properties), if required == [] then None else Some(required));
  }

  /** The builder component: its `classId` prop and the invocations of its `onSaved` prop. */
  class SchemaBuilderPage {
    const store: SchoolDb
    const classId: int
    var onSavedCalls: nat

    constructor (store: SchoolDb, classId: int)
      ensures this.store == store && this.classId == classId && onSavedCalls == 0
    {
      this.store := store;
      this.classId := classId;
      onSavedCalls := 0;
    }

    /** Save: one new schema carrying `classId`, the entered name and both compiled documents. */
    method HandleSave(values: SchemaFormValues, freshId: int)
      requires store.Valid() && FreshKey(store.marksheetSchemas, SchemaKey, freshId)
      modifies this, store
      ensures store.Valid()
      ensures store.State() == old(store.State()).(marksheetSchemas := old(store.marksheetSchemas) +
        [MarksheetSchema(freshId, classId, values.name, SchemaOf(values.fields), Some(UiOf(values.fields)))])
      ensures onSavedCalls == old(onSavedCalls) + 1
    {
      var schemaJson, uiSchemaJson := CompileFields(values.fields);
      store.AddSchema(MarksheetSchema(freshId, classId, values.name, schemaJson, Some(uiSchemaJson)));
      onSavedCalls := onSavedCalls + 1;
    }
  }
}
