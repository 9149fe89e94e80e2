/**
 * The request-body validator of backend/auth.py (validate_user_input): a
 * schema maps each field to its rules, and every field is checked in schema
 * order; a field's error message is the last check that failed for it.
 */
module Auth {
  import opened Wrappers
  import opened Text

  /** A JSON value as request.json delivers it; floats carry no payload here. */
  datatype Value = Null | Bool(b: bool) | Int(i: int) | Float | Str(s: string) | Array(items: seq<Value>) | Object

  /**
   * The rules of one field: `required` is the truth of rules['required']
   * (false when absent); the other keys are optional.
   */
  datatype Rules = Rules(required: bool, fieldType: Option<string>, minLength: Option<nat>, maxLength: Option<nat>)

  type Schema = seq<(string, Rules)>
  type Data = map<string, Value>

  const Required := "Это поле обязательно"
  const NotString := "Значение должно быть строкой"
  const NotInteger := "Значение должно быть целым числом"
  const NotArray := "Значение должно быть массивом"

  function TooShort(n: nat): string { "Минимальная длина: " + NatToString(n) + " символов" }
  function TooLong(n: nat): string { "Максимальная длина: " + NatToString(n) + " символов" }

  /** isinstance(v, int) also holds for booleans, bool being a subclass of int. */
  predicate IsInteger(v: Value) { v.Int? || v.Bool? }

  /** The field's value, unless it is absent or None. */
  function Lookup(data: Data, field: string): Option<Value> {
    if field in data && data[field] != Null then Some(data[field]) else None
  }

  /** The type check: a message for a string, integer or array field whose value is of another type. */
  function TypeError(fieldType: Option<string>, v: Value): Option<string> {
    if fieldType == Some("string") && !v.Str? then Some(NotString)
    else if fieldType == Some("integer") && !IsInteger(v) then Some(NotInteger)
    else if fieldType == Some("array") && !v.Array? then Some(NotArray)
    else None
  }

  /** The error of one field after its checks, applied in the source's order, each overwriting the last. */
  function FieldError(rules: Rules, v: Option<Value>): Option<string> {
    if v.None? then (if rules.required then Some(Required) else None)
    else
      var afterType := TypeError(rules.fieldType, v.value);
      var afterMin :=
        if rules.minLength.Some? && v.value.Str? && |v.value.s| < rules.minLength.value
        then Some(TooShort(rules.minLength.value)) else afterType;
      if rules.maxLength.Some? && v.value.Str? && |v.value.s| > rules.maxLength.value
      then Some(TooLong(rules.maxLength.value)) else afterMin
  }

  /** The errors dictionary after the first |schema| fields. */
  function Errors(schema: Schema, data: Data): map<string, string> {
    if schema == [] then map[]
    else
      var (field, rules) := schema[|schema| - 1];
      var before := Errors(schema[..|schema| - 1], data);
      match FieldError(rules, Lookup(data, field))
      case Some(msg) => before[field := msg]
      case None => before
  }

  /** The schema's field names are distinct, as the keys of a dict are. */
  predicate DistinctFields(schema: Schema) {
    forall i, j :: 0 <= i < j < |schema| ==> schema[i].0 != schema[j].0
  }

  /** The per-field loop of the wrapper. */
  method CollectErrors(schema: Schema, data: Data) returns (errors: map<string, string>)
    ensures errors == Errors(schema, data)
  {
    errors := map[];
    for i := 0 to |schema|
      invariant errors == Errors(schema[..i], data)
    {
      assert schema[..i + 1][..i] == schema[..i];
      var (field, rules) := schema[i];
      var v := Lookup(data, field);
      if rules.required && v.None? {
        errors := errors[field := Required];
        continue;
      }
      if v.None? {
        continue;
      }
      var value := v.value;
      if rules.fieldType.Some? {
        if rules.fieldType.value == "string" && !value.Str? {
          errors := errors[field := NotString];
        } else if rules.fieldType.value == "integer" && !IsInteger(value) {
          errors := errors[field := NotInteger];
        } else if rules.fieldType.value == "array" && !value.Array? {
          errors := errors[field := NotArray];
        }
      }
      if rules.minLength.Some? && value.Str? && |value.s| < rules.minLength.value {
        errors := errors[field := TooShort(rules.minLength.value)];
      }
      if rules.maxLength.Some? && value.Str? && |value.s| > rules.maxLength.value {
        errors := errors[field := TooLong(rules.maxLength.value)];
      }
    }
    assert schema[..|schema|] == schema;
  }

  /** What the wrapper does: a 400 with the errors, or a call to the wrapped view. */
  datatype Outcome = BadRequest(errors: map<string, string>) | Proceed

  /** The wrapper: the view runs exactly when no field has an error. */
  method ValidateUserInput(schema: Schema, data: Data) returns (r: Outcome)
    ensures r.Proceed? <==> Errors(schema, data) == map[]
    ensures r.BadRequest? ==> r.errors == Errors(schema, data) && r.errors != map[]
  {
    var errors := CollectErrors(schema, data);
    if errors != map[] {
      return BadRequest(errors);
    }
    return Proceed;
  }

  /** Every error key is a schema field. */
  lemma {:induction false} ErrorKeysInSchema(schema: Schema, data: Data, key: string)
    requires key in Errors(schema, data)
    ensures exists i :: 0 <= i < |schema| && schema[i].0 == key
  {
    var n := |schema| - 1;
    var (field, rules) := schema[n];
    if key != field || FieldError(rules, Lookup(data, field)).None? {
      ErrorKeysInSchema(schema[..n], data, key);
      var i :| 0 <= i < n && schema[..n][i].0 == key;
      assert schema[i].0 == key;
    }
  }

  /**
   * With distinct fields, a field is in the errors exactly when its own
   * checks fail, and its message is theirs.
   */
  lemma {:induction false} ErrorsPerField(schema: Schema, data: Data, k: nat)
    requires DistinctFields(schema) && k < |schema|
    ensures schema[k].0 in Errors(schema, data) <==> FieldError(schema[k].1, Lookup(data, schema[k].0)).Some?
    ensures schema[k].0 in Errors(schema, data) ==>
              Errors(schema, data)[schema[k].0] == FieldError(schema[k].1, Lookup(data, schema[k].0)).value
  {
    var n := |schema| - 1;
    var prefix := schema[..n];
    if k < n {
      assert DistinctFields(prefix);
      ErrorsPerField(prefix, data, k);
      assert prefix[k] == schema[k];
      assert schema[n].0 != schema[k].0;
    } else if schema[k].0 in Errors(prefix, data) {
      // a field of the prefix would repeat the last one
      ErrorKeysInSchema(prefix, data, schema[k].0);
      assert false;
    }
  }

  /**
   * The order of the checks: a missing required field reports only that it
   * is required; a missing optional field reports nothing; a present value
   * that is not a string is judged by its type alone; on a string the
   * length checks come after the type check and a failing maximum wins.
   */
  lemma FieldErrorRules(rules: Rules, v: Option<Value>)
    ensures v.None? && rules.required ==> FieldError(rules, v) == Some(Required)
    ensures v.None? && !rules.required ==> FieldError(rules, v) == None
    ensures v.Some? && !v.value.Str? ==> FieldError(rules, v) == TypeError(rules.fieldType, v.value)
    ensures v.Some? && v.value.Str? && rules.maxLength.Some? && |v.value.s| > rules.maxLength.value ==>
              FieldError(rules, v) == Some(TooLong(rules.maxLength.value))
    ensures v.Some? && v.value.Str? && rules.minLength.Some? && |v.value.s| < rules.minLength.value &&
            !(rules.maxLength.Some? && |v.value.s| > rules.maxLength.value) ==>
              FieldError(rules, v) == Some(TooShort(rules.minLength.value))
    ensures v.Some? && v.value.Str? && rules.fieldType == Some("string") &&
            !(rules.minLength.Some? && |v.value.s| < rules.minLength.value) &&
            !(rules.maxLength.Some? && |v.value.s| > rules.maxLength.value) ==>
              FieldError(rules, v) == None
  {
  }

  /** The type check rejects exactly the values of another type. */
  lemma TypeErrorExact(fieldType: Option<string>, v: Value)
    ensures fieldType == Some("string") ==> (TypeError(fieldType, v).Some? <==> !v.Str?)
    ensures fieldType == Some("integer") ==> (TypeError(fieldType, v).Some? <==> !(v.Int? || v.Bool?))
    ensures fieldType == Some("array") ==> (TypeError(fieldType, v).Some? <==> !v.Array?)
    ensures fieldType.None? ==> TypeError(fieldType, v).None?
    ensures fieldType.Some? && fieldType.value !in {"string", "integer", "array"} ==> TypeError(fieldType, v).None?
  {
  }
}
