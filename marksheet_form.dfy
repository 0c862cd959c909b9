/**
 * The marksheet form page: loads a schema, removes UI widgets that do not fit their
 * property's type, and on submit stores one student record.
 */
module MarksheetForm {
  import opened Wrappers
  import opened Seqs
  import opened Records
  import opened Db
  import SchemaBuilder

  /** The widgets the form accepts for each property type; other types have no list. */
  function ValidWidgets(typ: string): (r: Option<seq<string>>)
    ensures r.Some? <==> typ in {"string", "number", "boolean"}
    ensures r.Some? ==> |r.value| >= 2 && "" !in r.value
  {
    if typ == "string" then Some(["text", "textarea", "password"])
    else if typ == "number" then Some(["updown", "range"])
    else if typ == "boolean" then Some(["checkbox", "radio"])
    else None
  }

  /** `validWidgets[type]?.includes(widget)` is truthy. */
  predicate Allowed(typ: string, w: string): (b: bool)
    ensures b ==> w != ""
  {
    ValidWidgets(typ).Some? && w in ValidWidgets(typ).value
  }

  /** The entry has a truthy widget that its type does not allow. */
  predicate Rejects(typ: string, entry: UiEntry)
  {
    UiWidget in entry && entry[UiWidget] != "" && !Allowed(typ, entry[UiWidget])
  }

  function PropsOrEmpty(properties: Option<map<string, PropDef>>): map<string, PropDef>
  {
    properties.GetOr(map[])
  }

  function UiOrEmpty(ui: Option<UiSchema>): UiSchema
  {
    ui.GetOr(map[])
  }

  /** The cleaned copy of the UI-hint document, for the schema's properties. */
  function CleanUi(properties: Option<map<string, PropDef>>, ui: Option<UiSchema>): (r: UiSchema)
    // every entry stays, and at most its `ui:widget` attribute goes
    ensures r.Keys == UiOrEmpty(ui).Keys
    ensures forall k :: k in r ==> r[k] - {UiWidget} == UiOrEmpty(ui)[k] - {UiWidget}
    ensures forall k :: k in r ==> r[k].Keys <= UiOrEmpty(ui)[k].Keys
    // an entry either stays as it is or loses only its widget, and only when that widget is
    // truthy and not allowed for the property's type
    ensures forall k :: k in r ==> r[k] == UiOrEmpty(ui)[k] || r[k] == UiOrEmpty(ui)[k] - {UiWidget}
    ensures var props, u := PropsOrEmpty(properties), UiOrEmpty(ui);
      forall k :: (k in r && r[k] != u[k]) ==> k in props && Rejects(props[k].typ, u[k])
    // entries for keys without a property are untouched
    ensures forall k :: k in r && k !in PropsOrEmpty(properties) ==> r[k] == UiOrEmpty(ui)[k]
    // a truthy widget left on a property of a listed type is in that type's list
    ensures var props := PropsOrEmpty(properties);
      forall k :: (k in r && k in props && UiWidget in r[k] && r[k][UiWidget] != "" &&
                   ValidWidgets(props[k].typ).Some?) ==> Allowed(props[k].typ, r[k][UiWidget])
    // an allowed widget is kept, with the whole entry
    ensures var props, u := PropsOrEmpty(properties), UiOrEmpty(ui);
      forall k :: (k in r && k in props && UiWidget in u[k] && Allowed(props[k].typ, u[k][UiWidget])) ==>
        r[k] == u[k]
    // a property whose type has no list keeps no truthy widget
    ensures var props := PropsOrEmpty(properties);
      forall k :: (k in r && k in props && ValidWidgets(props[k].typ).None?) ==>
        (UiWidget !in r[k] || r[k][UiWidget] == "")
    // no properties, no change
    ensures PropsOrEmpty(properties) == map[] ==> r == UiOrEmpty(ui)
  {
    var props := PropsOrEmpty(properties);
    var u := UiOrEmpty(ui);
    map k | k in u :: if k in props && Rejects(props[k].typ, u[k]) then u[k] - {UiWidget} else u[k]
  }

  /** Cleaning twice removes nothing more than cleaning once. */
  lemma CleanIdempotent(properties: Option<map<string, PropDef>>, ui: Option<UiSchema>)
    ensures CleanUi(properties, Some(CleanUi(properties, ui))) == CleanUi(properties, ui)
  {
    var once := CleanUi(properties, ui);
    var twice := CleanUi(properties, Some(once));
    forall k | k in once ensures twice[k] == once[k] {
      var props := PropsOrEmpty(properties);
      if k in props && Rejects(props[k].typ, UiOrEmpty(ui)[k]) {
        assert UiWidget !in once[k];
      }
    }
  }

  /**
   * The `forEach` over the schema's properties: for each one, drops the entry's widget when it
   * is truthy and not allowed for the property's type. The order of the keys does not matter.
   */
  method CleanUiSchema(schemaJson: SchemaDoc, uiSchemaJson: Option<UiSchema>) returns (cleaned: UiSchema)
    ensures cleaned == CleanUi(schemaJson.properties, uiSchemaJson)
  {
    var original := UiOrEmpty(uiSchemaJson);
    cleaned := original;
    var properties := PropsOrEmpty(schemaJson.properties);
    var pending := properties.Keys;
    while pending != {}
      invariant pending <= properties.Keys
      invariant cleaned.Keys == original.Keys
      invariant forall k :: k in cleaned ==>
        cleaned[k] == (if k in properties && k !in pending && Rejects(properties[k].typ, original[k])
                       then original[k] - {UiWidget} else original[k])
      decreases pending
    {
      var key :| key in pending;
      var typ := properties[key].typ;
      if key in cleaned && UiWidget in cleaned[key] {
        var widget := cleaned[key][UiWidget];
        if widget != "" && !Allowed(typ, widget) {
          cleaned := cleaned[key := cleaned[key] - {UiWidget}];
        }
      }
      pending := pending - {key};
    }
  }

  /** The builder's widget and type pairs that the form's lists accept. */
  predicate BuilderMatch(t: SchemaBuilder.FieldType, w: string)
  {
    || (t == SchemaBuilder.StringField && w == "text")
    || (t == SchemaBuilder.NumberField && w == "updown")
    || (t == SchemaBuilder.BooleanField && w == "checkbox")
  }

  /**
   * For a schema saved by the builder, the widget on key `k` (from the last field with `k`
   * that sets one) survives cleaning exactly when it matches the type stored for `k` (from the
   * last field with `k`).
   */
  lemma BuilderWidgetSurvives(fields: seq<SchemaBuilder.FieldDef>, k: string, i: int, j: int)
    requires SchemaBuilder.LastWithKey(fields, k, i) && SchemaBuilder.LastWidgetFor(fields, k, j)
    requires fields[j].widget.value in SchemaBuilder.WidgetOptions
    ensures var doc := SchemaBuilder.SchemaOf(fields);
      var cleaned := CleanUi(doc.properties, Some(SchemaBuilder.UiOf(fields)));
      k in cleaned && (UiWidget in cleaned[k] <==> BuilderMatch(fields[i].typ, fields[j].widget.value))
  {
    SchemaBuilder.PropertiesLastWins(fields, k, i);
    SchemaBuilder.UiLastWidgetWins(fields, k, j);
  }

  /** The page state: the loaded schema and the submitted form data. */
  class MarksheetFormPage {
    const store: SchoolDb
    const schemaId: int
    var schemaData: Option<MarksheetSchema>
    var formData: Option<map<string, Json>>

    constructor (store: SchoolDb, schemaId: int)
      ensures this.store == store && this.schemaId == schemaId
      ensures schemaData.None? && formData.None?
    {
      this.store := store;
      this.schemaId := schemaId;
      schemaData := None;
      formData := None;
    }

    /** Loading: the schema stored under the route's id, if any. */
    method LoadSchema()
      modifies this
      ensures schemaData == Find(store.marksheetSchemas, SchemaKey, schemaId)
      ensures formData == old(formData)
    {
      schemaData := Find(store.marksheetSchemas, SchemaKey, schemaId);
    }

    /**
     * Rendering: nothing while no schema is loaded; otherwise the cleaned UI-hint document.
     * The copy is shallow, so the loaded schema's own entries lose the same widgets.
     */
    method PrepareUiSchema() returns (ui: Option<UiSchema>)
      modifies this
      ensures old(schemaData).None? ==> ui.None? && schemaData == old(schemaData)
      ensures old(schemaData).Some? ==>
        var s := old(schemaData).value;
        && ui == Some(CleanUi(s.schemaJson.properties, s.uiSchemaJson))
        && schemaData == Some(s.(uiSchemaJson := if s.uiSchemaJson.Some? then ui else None))
      ensures formData == old(formData)
    {
      if schemaData.None? {
        return None;
      }
      var s := schemaData.value;
      var cleaned := CleanUiSchema(s.schemaJson, s.uiSchemaJson);
      if s.uiSchemaJson.Some? {
        schemaData := Some(s.(uiSchemaJson := Some(cleaned)));
      }
      ui := Some(cleaned);
    }

    /** Submit: with a loaded schema, one new student holding the form data; otherwise nothing. */
    method HandleSubmit(submitted: map<string, Json>, freshId: int)
      requires store.Valid() && FreshKey(store.students, StudentKey, freshId)
      modifies this, store
      ensures store.Valid()
      ensures schemaData == old(schemaData)
      ensures old(schemaData).None? ==> store.State() == old(store.State()) && formData == old(formData)
      ensures old(schemaData).Some? ==>
        && store.State() == old(store.State()).(students := old(store.students) +
             [Student(freshId, old(schemaData).value.classId, schemaId, submitted, map[])])
        && formData == Some(submitted)
    {
      if schemaData.None? {
        return;
      }
      store.AddStudent(Student(freshId, schemaData.value.classId, schemaId, submitted, map[]));
      formData := Some(submitted);
    }
  }
}
