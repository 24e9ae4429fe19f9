/**
 The validation schema of the form and an abstract view of the schema-validation
 library it is checked with.

 The library's rule evaluation is not modelled: a validator is any function from
 (object, sub-schema, abortEarly) to a list of error details. What the schema's
 visible bounds say is transcribed as `Violates`, and `Honours` states when a
 validator agrees with them. Email syntax and string-to-number coercion stay
 uninterpreted, as the two functions of an `Oracle`.
 */
module Validation {
  import opened Wrappers

  /** One entry of the library's `error.details`: its `path[0]` and its `message`. */
  datatype Detail = Detail(field: string, message: string)

  /** A field rule: a string or number rule with optional bounds, and `.required()`. */
  datatype Rule =
    | StringRule(minLength: Option<nat>, maxLength: Option<nat>, email: bool, required: bool)
    | NumberRule(min: Option<real>, max: Option<real>, required: bool)

  type Schema = map<string, Rule>

  /** The library's validate call: object, schema, abortEarly; the result is the error details. */
  type Validator = (map<string, string>, Schema, bool) -> seq<Detail>

  const NameField: string := "name"
  const EmailField: string := "email"
  const AgeField: string := "age"

  /** The `name` attributes of the three inputs. */
  const FieldNames: set<string> := {NameField, EmailField, AgeField}

  /** The form's schema: the name is 2 to 20 characters (the code's `min(2)`), the email a
      syntactically valid address, the age a number from 1 to 100; all three are required. */
  const FormSchema: Schema := map[
    NameField := StringRule(Some(2), Some(20), false, true),
    EmailField := StringRule(None, None, true, true),
    AgeField := NumberRule(Some(1.0), Some(100.0), true)
  ]

  /** The schema covers exactly the three inputs, and every rule is `.required()`. */
  lemma SchemaCoversFields()
    ensures FormSchema.Keys == FieldNames
    ensures forall f :: f in FormSchema ==> FormSchema[f].required
    ensures FormSchema[NameField].StringRule? && FormSchema[NameField].minLength == Some(2)
  {
  }

  /** The parts of the library's behaviour that are not modelled: email syntax and the
      conversion of a string to a number (`None` when it is not numeric). */
  datatype Oracle = Oracle(isEmail: string -> bool, toNumber: string -> Option<real>)

  /** Does a value (`None` when the key is absent) break the rule? An empty string is
      never accepted. */
  predicate Violates(rule: Rule, value: Option<string>, oracle: Oracle)
    ensures value == Some("") ==> Violates(rule, value, oracle)
    ensures value == None ==> (Violates(rule, value, oracle) <==> rule.required)
  {
    match value
    case None => rule.required
    case Some(s) =>
      s == "" ||
      match rule
      case StringRule(minLength, maxLength, email, _) =>
        || (minLength.Some? && |s| < minLength.value)
        || (maxLength.Some? && |s| > maxLength.value)
        || (email && !oracle.isEmail(s))
      case NumberRule(min, max, _) =>
        var n := oracle.toNumber(s);
        || n.None?
        || (min.Some? && n.value < min.value)
        || (max.Some? && n.value > max.value)
  }

  function Lookup(obj: map<string, string>, key: string): Option<string>
  {
    if key in obj then Some(obj[key]) else None
  }

  /** Does field `f` fail validation of `obj` against `schema`?  A key the schema does not
      know is an error too. */
  predicate FieldFails(obj: map<string, string>, schema: Schema, f: string, oracle: Oracle)
  {
    f !in schema || Violates(schema[f], Lookup(obj, f), oracle)
  }

  /** Every field of the object or the schema that fails validation. */
  function FailingFields(obj: map<string, string>, schema: Schema, oracle: Oracle): (r: set<string>)
    ensures forall f :: f in r <==> (f in schema || f in obj) && FieldFails(obj, schema, f, oracle)
  {
    set f | f in schema.Keys + obj.Keys && FieldFails(obj, schema, f, oracle)
  }

  /** The fields named by a list of details. */
  function Fields(details: seq<Detail>): (r: set<string>)
    ensures forall f :: f in r <==> exists i :: 0 <= i < |details| && details[i].field == f
  {
    set i | 0 <= i < |details| :: details[i].field
  }

  /** What a validator must answer for one call: no details exactly when nothing fails,
      only failing fields reported, at most one detail when aborting early, every failing
      field when collecting all, and never an empty message. */
  ghost predicate Answers(obj: map<string, string>, schema: Schema, abortEarly: bool,
                          details: seq<Detail>, oracle: Oracle)
  {
    var failing := FailingFields(obj, schema, oracle);
    && (details == [] <==> failing == {})
    && Fields(details) <= failing
    && (abortEarly ==> |details| <= 1)
    && (!abortEarly ==> Fields(details) == failing)
    && (forall i :: 0 <= i < |details| ==> details[i].message != "")
  }

  /** The validator agrees with the transcribed rules on every call. */
  ghost predicate Honours(validator: Validator, oracle: Oracle)
  {
    forall obj, schema, abortEarly ::
      Answers(obj, schema, abortEarly, validator(obj, schema, abortEarly), oracle)
  }

}
