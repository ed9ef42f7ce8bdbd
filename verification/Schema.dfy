/** The JSON schema subset tools and outputs are checked against. */
module Schema {
  import opened Common
  import opened JsonValues

  const TYPES: seq<string> := ["object", "array", "string", "integer", "number", "boolean", "null"]

  /** A field of an object; nothing for another value or a missing key. */
  function Get(v: Json, key: string): (f: Option<Json>)
    ensures f.Some? ==> v.Object? && f.value < v
  {
    if v.Object? && key in v.fields then Some(v.fields[key]) else None
  }

  predicate HasType(name: string, v: Json) {
    match name
    case "object" => v.Object?
    case "array" => v.Array?
    case "string" => v.Str?
    case "integer" => v.Integer?
    case "number" => v.Integer? || v.Float?
    case "boolean" => v.Bool?
    case "null" => v.Null?
    case _ => false
  }

  // ----- what a schema means -----

  /** The names of a value's types; an integer is a number too. */
  function TypesOf(v: Json): seq<string> {
    match v
    case Object(_) => ["object"]
    case Array(_) => ["array"]
    case Str(_) => ["string"]
    case Integer(_) => ["integer", "number"]
    case Float(_) => ["number"]
    case Bool(_) => ["boolean"]
    case Null => ["null"]
  }

  lemma HasTypeIff(name: string, v: Json)
    ensures HasType(name, v) <==> name in TypesOf(v)
  {
    if v.Integer? {
      assert TypesOf(v)[0] == "integer" && TypesOf(v)[1] == "number";
    } else {
      assert TypesOf(v)[0] in TypesOf(v);
    }
  }

  predicate TypeAllows(schema: Json, v: Json) {
    var t := Get(schema, "type");
    t.Some? && t.value.Str? ==> t.value.s in TypesOf(v)
  }

  predicate EnumAllows(schema: Json, v: Json) {
    var e := Get(schema, "enum");
    e.Some? && e.value.Array? ==> v in e.value.items
  }

  predicate RequiredPresent(schema: Json, fields: map<string, Json>) {
    var r := Get(schema, "required");
    r.Some? && r.value.Array? ==> forall k :: k in r.value.items && k.Str? ==> k.s in fields
  }

  /** The schema of a property, when the properties list it. */
  function PropertySchema(schema: Json, key: string): (p: Option<Json>)
    ensures p.Some? ==> p.value < schema
  {
    var properties := Get(schema, "properties");
    if properties.Some? then Get(properties.value, key) else None
  }

  /** A value satisfies a schema: its type, its enumeration, its required and allowed properties, and its parts. */
  ghost predicate Satisfies(schema: Json, v: Json)
    decreases v
  {
    && TypeAllows(schema, v)
    && EnumAllows(schema, v)
    && (v.Object? ==>
          && RequiredPresent(schema, v.fields)
          && forall key :: key in v.fields ==>
               if PropertySchema(schema, key).Some? then Satisfies(PropertySchema(schema, key).value, v.fields[key])
               else Get(schema, "additionalProperties") != Some(Bool(false)))
    && (v.Array? && Get(schema, "items").Some? ==>
          forall i :: 0 <= i < |v.items| ==> Satisfies(Get(schema, "items").value, v.items[i]))
  }

  /** What a schema's own fields ask of a value, and what they leave to the schemas of its parts. */
  lemma SatisfiesIff(fields: map<string, Json>, v: Json)
    ensures Satisfies(Object(fields), v) <==>
              && ("type" in fields && fields["type"].Str? ==> fields["type"].s in TypesOf(v))
              && ("enum" in fields && fields["enum"].Array? ==> v in fields["enum"].items)
              && (v.Object? && "required" in fields && fields["required"].Array? ==>
                    forall k :: k in fields["required"].items && k.Str? ==> k.s in v.fields)
              && (v.Object? ==>
                    forall key :: key in v.fields ==>
                      if "properties" in fields && fields["properties"].Object? && key in fields["properties"].fields
                      then Satisfies(fields["properties"].fields[key], v.fields[key])
                      else "additionalProperties" !in fields || fields["additionalProperties"] != Bool(false))
              && (v.Array? && "items" in fields ==>
                    forall i :: 0 <= i < |v.items| ==> Satisfies(fields["items"], v.items[i]))
  {
    hide TypesOf;
  }

  // ----- checking a schema -----

  /** What the runtime asks of a schema before it accepts it. */
  predicate Checked(schema: Json)
    decreases schema
  {
    && schema.Object?
    && (var t := Get(schema, "type"); t.Some? ==> t.value.Str? && t.value.s in TYPES)
    && (var r := Get(schema, "required"); r.Some? ==> r.value.Array? && forall k :: k in r.value.items ==> k.Str?)
    && (var e := Get(schema, "enum"); e.Some? ==> e.value.Array?)
    && (var p := Get(schema, "properties"); p.Some? ==>
          p.value.Object? && forall key :: key in p.value.fields ==> Checked(p.value.fields[key]))
    && (var i := Get(schema, "items"); i.Some? ==> Checked(i.value))
  }

  lemma PropertyChecked(schema: Json, key: string)
    requires Checked(schema) && PropertySchema(schema, key).Some?
    ensures Checked(PropertySchema(schema, key).value)
  {
  }

  lemma ItemsChecked(schema: Json)
    requires Checked(schema) && Get(schema, "items").Some?
    ensures Checked(Get(schema, "items").value)
  {
  }

  /** A part of a schema: itself, or a part of the schema of a property or of the items. */
  ghost predicate IsPart(part: Json, schema: Json)
    decreases schema
  {
    || part == schema
    || (exists key :: PropertySchema(schema, key).Some? && IsPart(part, PropertySchema(schema, key).value))
    || (Get(schema, "items").Some? && IsPart(part, Get(schema, "items").value))
  }

  /** A schema is well formed by itself: what it says of types, names, values and properties has the right shape. */
  ghost predicate IsShaped(schema: Json) {
    && schema.Object?
    && (var t := Get(schema, "type"); t.Some? ==> t.value.Str? && exists v :: t.value.s in TypesOf(v))
    && (var r := Get(schema, "required"); r.Some? ==>
          r.value.Array? && forall i :: 0 <= i < |r.value.items| ==> r.value.items[i].Str?)
    && (var e := Get(schema, "enum"); e.Some? ==> e.value.Array?)
    && (var p := Get(schema, "properties"); p.Some? ==> p.value.Object?)
  }

  lemma TypeNames(name: string)
    ensures name in TYPES <==> exists v :: name in TypesOf(v)
  {
    var samples := [Object(map[]), Array([]), Str(""), Integer(0), Float(""), Bool(true), Null];
    assert forall i :: 0 <= i < 7 ==> TYPES[i] == TypesOf(samples[i])[0];
    if name in TYPES {
      var i :| 0 <= i < 7 && name == TYPES[i];
      assert TypesOf(samples[i])[0] in TypesOf(samples[i]);
    }
    assert TYPES[0] == "object" && TYPES[1] == "array" && TYPES[2] == "string" && TYPES[3] == "integer"
        && TYPES[4] == "number" && TYPES[5] == "boolean" && TYPES[6] == "null";
  }

  lemma ShapedIff(schema: Json)
    ensures Checked(schema) <==>
              && IsShaped(schema)
              && (forall key :: PropertySchema(schema, key).Some? ==> Checked(PropertySchema(schema, key).value))
              && (Get(schema, "items").Some? ==> Checked(Get(schema, "items").value))
  {
    hide TypesOf, TYPES;
    var t := Get(schema, "type");
    if t.Some? && t.value.Str? {
      TypeNames(t.value.s);
    }
    var p := Get(schema, "properties");
    if p.Some? && p.value.Object? {
      assert forall key :: key in p.value.fields ==> PropertySchema(schema, key) == Some(p.value.fields[key]);
    }
  }

  /** A schema is checked exactly when every part of it is well formed by itself. */
  lemma {:induction false} CheckedIff(schema: Json)
    ensures Checked(schema) <==> forall part :: IsPart(part, schema) ==> IsShaped(part)
    decreases schema
  {
    hide Checked, IsShaped, PropertySchema, Get;
    ShapedIff(schema);
    forall key | PropertySchema(schema, key).Some?
      ensures Checked(PropertySchema(schema, key).value)
              <==> forall part :: IsPart(part, PropertySchema(schema, key).value) ==> IsShaped(part)
    {
      CheckedIff(PropertySchema(schema, key).value);
    }
    if Get(schema, "items").Some? {
      CheckedIff(Get(schema, "items").value);
    }
    assert IsPart(schema, schema);
    if forall part :: IsPart(part, schema) ==> IsShaped(part) {
      forall key | PropertySchema(schema, key).Some?
        ensures Checked(PropertySchema(schema, key).value)
      {
        forall part | IsPart(part, PropertySchema(schema, key).value)
          ensures IsShaped(part)
        {
          assert IsPart(part, schema);
        }
      }
    }
  }

  // ----- validating a value -----

  datatype SchemaError =
    | UnsupportedType(name: string)
    | InvalidRequired
    | WrongType
    | NotInEnum
    | MissingProperty(key: string)
    | UnexpectedProperty(key: string)
  {
    /** The schema is at fault, not the value. */
    predicate IsSchemaFault() {
      UnsupportedType? || InvalidRequired?
    }
  }

  method ValidateRequired(names: seq<Json>, fields: map<string, Json>) returns (result: Result<(), SchemaError>)
    ensures result.Ok? <==> forall k :: k in names ==> k.Str? && k.s in fields
    ensures result.Err? && (forall k :: k in names ==> k.Str?) ==> !result.error.IsSchemaFault()
  {
    var i := 0;
    while i < |names|
      invariant 0 <= i <= |names| && forall j :: 0 <= j < i ==> names[j].Str? && names[j].s in fields
    {
      if !names[i].Str? {
        return Err(InvalidRequired);
      }
      if names[i].s !in fields {
        return Err(MissingProperty(names[i].s));
      }
      i := i + 1;
    }
    result := Ok(());
  }

  predicate PropertyAllowed(schema: Json, key: string) {
    PropertySchema(schema, key).Some? || Get(schema, "additionalProperties") != Some(Bool(false))
  }

  ghost predicate PropertyFails(schema: Json, v: Json, key: string) {
    if PropertySchema(schema, key).Some? then !Satisfies(PropertySchema(schema, key).value, v)
    else Get(schema, "additionalProperties") == Some(Bool(false))
  }

  /**
   Validates a value. On a checked schema this decides satisfaction for every value, and no failure is the schema's
   fault; on any schema, what passes satisfies it.
   */
  method Validate(schema: Json, v: Json) returns (result: Result<(), SchemaError>)
    ensures result.Ok? ==> Satisfies(schema, v)
    ensures Checked(schema) ==> (result.Ok? <==> Satisfies(schema, v))
    ensures Checked(schema) && result.Err? ==> !result.error.IsSchemaFault()
    decreases v, 1
  {
    hide Checked, HasType, TypesOf;
    var t := Get(schema, "type");
    if t.Some? && t.value.Str? {
      TypeIsKnown(schema);
      if t.value.s !in TYPES {
        return Err(UnsupportedType(t.value.s));
      }
      HasTypeIff(t.value.s, v);
      if !HasType(t.value.s, v) {
        return Err(WrongType);
      }
    }
    var e := Get(schema, "enum");
    if e.Some? && e.value.Array? && v !in e.value.items {
      return Err(NotInEnum);
    }
    if v.Object? {
      var required := Get(schema, "required");
      if required.Some? && required.value.Array? {
        RequiredAreStrings(schema);
        result := ValidateRequired(required.value.items, v.fields);
        if result.Err? {
          return;
        }
      }
      result := ValidateProperties(schema, v);
      if result.Err? {
        return;
      }
    }
    var items := Get(schema, "items");
    if items.Some? && v.Array? {
      if Checked(schema) {
        ItemsChecked(schema);
      }
      var i := 0;
      while i < |v.items|
        invariant 0 <= i <= |v.items| && forall j :: 0 <= j < i ==> Satisfies(items.value, v.items[j])
      {
        result := Validate(items.value, v.items[i]);
        if result.Err? {
          return;
        }
        i := i + 1;
      }
    }
    result := Ok(());
  }

  /** The loop over the properties of an object, in any order. */
  method ValidateProperties(schema: Json, v: Json) returns (result: Result<(), SchemaError>)
    requires v.Object?
    ensures result.Ok? ==> forall key :: key in v.fields ==>
              PropertyAllowed(schema, key)
              && (PropertySchema(schema, key).Some? ==> Satisfies(PropertySchema(schema, key).value, v.fields[key]))
    ensures Checked(schema) && result.Err? ==> !result.error.IsSchemaFault()
    ensures Checked(schema) && result.Err? ==> exists key :: key in v.fields && PropertyFails(schema, v.fields[key], key)
    decreases v, 0
  {
    hide Checked, Satisfies;
    var left := v.fields.Keys;
    while left != {}
      invariant left <= v.fields.Keys
      invariant forall key :: key in v.fields && key !in left ==>
                  PropertyAllowed(schema, key)
                  && (PropertySchema(schema, key).Some? ==> Satisfies(PropertySchema(schema, key).value, v.fields[key]))
      decreases |left|
    {
      var key :| key in left;
      var property := PropertySchema(schema, key);
      if property.Some? {
        if Checked(schema) {
          PropertyChecked(schema, key);
        }
        result := Validate(property.value, v.fields[key]);
        if result.Err? {
          return;
        }
      } else if Get(schema, "additionalProperties") == Some(Bool(false)) {
        return Err(UnexpectedProperty(key));
      }
      left := left - {key};
    }
    result := Ok(());
  }

  lemma TypeIsKnown(schema: Json)
    ensures var t := Get(schema, "type");
            && (Checked(schema) && t.Some? ==> t.value.Str? && t.value.s in TYPES)
            && (t.Some? && t.value.Str? && t.value.s !in TYPES ==> forall v :: t.value.s !in TypesOf(v))
  {
    assert TYPES[0] == "object" && TYPES[1] == "array" && TYPES[2] == "string" && TYPES[3] == "integer"
        && TYPES[4] == "number" && TYPES[5] == "boolean" && TYPES[6] == "null";
  }

  lemma RequiredAreStrings(schema: Json)
    ensures var r := Get(schema, "required"); Checked(schema) && r.Some? ==> forall k :: k in r.value.items ==> k.Str?
  {
  }
}
