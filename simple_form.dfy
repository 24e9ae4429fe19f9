/**
 The state bookkeeping of the `SimpleForm` component: the user record, the table of
 inline validation errors, single-field validation on every change and the error
 summary built on submit.
 */
module SimpleForm {
  import opened Wrappers
  import opened Validation

  /** The form values, keyed by the inputs' `name` attribute. */
  type Record = map<string, string>

  /** Inline error messages, keyed by field; no entry means no error shown. */
  type ErrorTable = map<string, string>

  const UserInitialState: Record := map[NameField := "", EmailField := "", AgeField := ""]

  // ---------------------------------------------------------------------------
  // Record update (the `setUser` updater)
  // ---------------------------------------------------------------------------

  /** `{ ...user, [name]: value }`: a new record, the old one is a value and stays as it was. */
  function SetField(user: Record, name: string, value: string): (r: Record)
    ensures name in r && r[name] == value
    ensures r.Keys == user.Keys + {name}
    ensures forall k :: k in user && k != name ==> r[k] == user[k]
  {
    user[name := value]
  }

  /** One change event of an input: its `name` attribute and its new value. */
  datatype Change = Change(name: string, value: string)

  /** The record after a sequence of change events, applied in order. */
  function ApplyChanges(user: Record, changes: seq<Change>): Record
    decreases changes
  {
    if changes == [] then user
    else ApplyChanges(SetField(user, changes[0].name, changes[0].value), changes[1..])
  }

  /** Starting from the initial record, changes that only come from the three inputs never
      add or remove a key. */
  lemma {:induction false} KeySetPreserved(user: Record, changes: seq<Change>)
    requires user.Keys == FieldNames
    requires forall i :: 0 <= i < |changes| ==> changes[i].name in FieldNames
    ensures ApplyChanges(user, changes).Keys == FieldNames
  {
    if changes != [] {
      KeySetPreserved(SetField(user, changes[0].name, changes[0].value), changes[1..]);
    }
  }

  /** The initial record has exactly the three field names as keys. */
  lemma InitialStateKeys()
    ensures UserInitialState.Keys == FieldNames && |FieldNames| == 3
  {
    assert NameField != EmailField && NameField != AgeField && EmailField != AgeField;
  }

  /** A record reachable from the initial state by input changes has exactly the three keys. */
  lemma ReachableRecordKeys(changes: seq<Change>)
    requires forall i :: 0 <= i < |changes| ==> changes[i].name in FieldNames
    ensures ApplyChanges(UserInitialState, changes).Keys == FieldNames
  {
    InitialStateKeys();
    KeySetPreserved(UserInitialState, changes);
  }

  // ---------------------------------------------------------------------------
  // Error-table update (the `setValidationErrors` updater)
  // ---------------------------------------------------------------------------

  /** JavaScript truthiness of the `validate` result: `null` and `""` are false. */
  predicate Truthy(errorMessage: Option<string>)
  {
    errorMessage.Some? && errorMessage.value != ""
  }

  /** The error table after one field's validation result: the message is stored under the
      field if it is truthy, otherwise the field's entry is removed. */
  function ErrorsAfter(errors: ErrorTable, name: string, errorMessage: Option<string>): (r: ErrorTable)
    ensures name in r <==> Truthy(errorMessage)
    ensures name in r ==> r[name] == errorMessage.value
    ensures r.Keys - {name} == errors.Keys - {name}
    ensures forall k :: k in errors && k != name ==> k in r && r[k] == errors[k]
  {
    if Truthy(errorMessage) then errors[name := errorMessage.value] else errors - {name}
  }

  /** The updater: copy the table, then assign or delete the field's entry in the copy. */
  method ApplyFieldResult(validationErrors: ErrorTable, name: string, errorMessage: Option<string>)
    returns (newValidationErrors: ErrorTable)
    ensures Truthy(errorMessage) ==> name in newValidationErrors && newValidationErrors[name] == errorMessage.value
    ensures !Truthy(errorMessage) ==> name !in newValidationErrors
    ensures forall k :: k != name ==>
      (k in newValidationErrors <==> k in validationErrors) &&
      (k in validationErrors ==> newValidationErrors[k] == validationErrors[k])
    ensures newValidationErrors == ErrorsAfter(validationErrors, name, errorMessage)
  {
    newValidationErrors := validationErrors;
    if Truthy(errorMessage) {
      newValidationErrors := newValidationErrors[name := errorMessage.value];
    } else {
      newValidationErrors := newValidationErrors - {name};
    }
  }

  /** Applying the same field result twice leaves the table as applying it once. */
  lemma ErrorsAfterIdempotent(errors: ErrorTable, name: string, errorMessage: Option<string>)
    ensures ErrorsAfter(ErrorsAfter(errors, name, errorMessage), name, errorMessage)
         == ErrorsAfter(errors, name, errorMessage)
  {
  }

  /** Results for two different fields do not interfere: the order they arrive in does not matter. */
  lemma ErrorsAfterCommute(errors: ErrorTable, a: string, ma: Option<string>, b: string, mb: Option<string>)
    requires a != b
    ensures ErrorsAfter(ErrorsAfter(errors, a, ma), b, mb) == ErrorsAfter(ErrorsAfter(errors, b, mb), a, ma)
  {
  }

  // ---------------------------------------------------------------------------
  // Single-field validation (`validate`)
  // ---------------------------------------------------------------------------

  /** Validate one field alone: the object `{ [name]: value }` against the sub-schema
      `{ [name]: schema[name] }`, aborting at the first error; the first detail's message,
      or `None` for `null` when there is no error. The ensures only spell out that
      conditional over the abstract library; `ValidateMatchesRule` says what it means. */
  function Validate(validator: Validator, name: string, value: string): (r: Option<string>)
    requires name in FormSchema
    ensures r.Some? <==> validator(map[name := value], map[name := FormSchema[name]], true) != []
    ensures r.Some? ==> r.value == validator(map[name := value], map[name := FormSchema[name]], true)[0].message
  {
    var details := validator(map[name := value], map[name := FormSchema[name]], true);
    if details != [] then Some(details[0].message) else None
  }

  /** Against a validator that honours the rules, a field's message is present, and truthy,
      exactly when its value breaks the field's rule. */
  lemma ValidateMatchesRule(validator: Validator, oracle: Oracle, name: string, value: string)
    requires Honours(validator, oracle)
    requires name in FormSchema
    ensures Validate(validator, name, value).Some? <==> Violates(FormSchema[name], Some(value), oracle)
    ensures Truthy(Validate(validator, name, value)) <==> Violates(FormSchema[name], Some(value), oracle)
  {
    var obj, schema := map[name := value], map[name := FormSchema[name]];
    var details := validator(obj, schema, true);
    assert Answers(obj, schema, true, details, oracle);
    assert FieldFails(obj, schema, name, oracle) <==> Violates(FormSchema[name], Some(value), oracle);
    assert name in FailingFields(obj, schema, oracle) <==> Violates(FormSchema[name], Some(value), oracle);
    assert FailingFields(obj, schema, oracle) <= {name};
    if details != [] {
      assert details[0].message != "";
    }
  }

  /** The name field is accepted exactly when it has 2 to 20 characters (`min(2)`, not 1). */
  lemma NameLengthBounds(validator: Validator, oracle: Oracle, value: string)
    requires Honours(validator, oracle)
    ensures Validate(validator, NameField, value) == None <==> 2 <= |value| <= 20
  {
    ValidateMatchesRule(validator, oracle, NameField, value);
  }

  /** One character is an error for the name, two are not. */
  lemma NameMinimumIsTwo(validator: Validator, oracle: Oracle)
    requires Honours(validator, oracle)
    ensures Validate(validator, NameField, "a").Some?
    ensures Validate(validator, NameField, "ab") == None
  {
    NameLengthBounds(validator, oracle, "a");
    NameLengthBounds(validator, oracle, "ab");
  }

  /** The email field accepts exactly what the email-syntax check accepts, and never "". */
  lemma EmailFollowsSyntax(validator: Validator, oracle: Oracle, value: string)
    requires Honours(validator, oracle)
    ensures Validate(validator, EmailField, value) == None <==> value != "" && oracle.isEmail(value)
  {
    ValidateMatchesRule(validator, oracle, EmailField, value);
  }

  /** The age field accepts a numeric value from 1 to 100 inclusive, and nothing else. */
  lemma AgeRange(validator: Validator, oracle: Oracle, value: string)
    requires Honours(validator, oracle)
    ensures Validate(validator, AgeField, value) == None <==>
      value != "" && oracle.toNumber(value).Some? && 1.0 <= oracle.toNumber(value).value <= 100.0
  {
    ValidateMatchesRule(validator, oracle, AgeField, value);
  }

  // ---------------------------------------------------------------------------
  // Submit aggregation (`handlerOnSubmit`)
  // ---------------------------------------------------------------------------

  /** Detail `i` is the last one that names field `k`. */
  ghost predicate IsLast(details: seq<Detail>, i: int, k: string)
  {
    0 <= i < |details| && details[i].field == k &&
    forall j :: i < j < |details| ==> details[j].field != k
  }

  /** The loop over `error.details`: each detail's message is stored under its field, a
      later detail overwriting an earlier one for the same field. */
  method CollectErrors(details: seq<Detail>) returns (errorData: ErrorTable)
    ensures errorData.Keys == Fields(details)
    ensures forall k :: k in errorData ==>
      exists i :: IsLast(details, i, k) && details[i].message == errorData[k]
  {
    errorData := map[];
    ghost var lastAt: map<string, int> := map[];
    for n := 0 to |details|
      invariant errorData.Keys == Fields(details[..n])
      invariant lastAt.Keys == errorData.Keys
      invariant forall k :: k in lastAt ==>
        IsLast(details[..n], lastAt[k], k) && details[lastAt[k]].message == errorData[k]
    {
      var item := details[n];
      assert details[..n + 1] == details[..n] + [item];
      errorData := errorData[item.field := item.message];
      lastAt := lastAt[item.field := n];
    }
    assert details[..|details|] == details;
  }

  /** A field is named by at most one last detail, so the summary is determined. */
  lemma LastIsUnique(details: seq<Detail>, i: int, j: int, k: string)
    requires IsLast(details, i, k) && IsLast(details, j, k)
    ensures i == j
  {
  }

  /** The outcome of a submit: the accepted record, or the per-field error summary. */
  datatype SubmitOutcome = Accepted(record: Record) | Rejected(errorData: ErrorTable)

  /** On the initial (all-empty) record an honouring validator reports every one of the three
      fields, so the submit summary has three entries. */
  lemma InitialRecordFailsEveryField(validator: Validator, oracle: Oracle)
    requires Honours(validator, oracle)
    ensures Fields(validator(UserInitialState, FormSchema, false)) == FieldNames
  {
    var details := validator(UserInitialState, FormSchema, false);
    assert Answers(UserInitialState, FormSchema, false, details, oracle);
    InitialStateKeys();
    assert FormSchema.Keys == FieldNames;
    forall f | f in FieldNames
      ensures f in FailingFields(UserInitialState, FormSchema, oracle)
    {
      assert Lookup(UserInitialState, f) == Some("");
    }
  }

  /** Collect-all validation of a three-key record reports exactly the fields whose value
      breaks its rule, and reports nothing exactly when every field keeps its rule. */
  lemma RecordValidationMatchesRules(validator: Validator, oracle: Oracle, user: Record)
    requires Honours(validator, oracle)
    requires user.Keys == FieldNames
    ensures Fields(validator(user, FormSchema, false)) ==
      set f | f in FieldNames && Violates(FormSchema[f], Some(user[f]), oracle)
    ensures validator(user, FormSchema, false) == [] <==>
      forall f :: f in FieldNames ==> !Violates(FormSchema[f], Some(user[f]), oracle)
  {
    var details := validator(user, FormSchema, false);
    assert Answers(user, FormSchema, false, details, oracle);
    SchemaCoversFields();
    forall f | f in FieldNames
      ensures Lookup(user, f) == Some(user[f])
    {
    }
  }

  /** A record with a valid name, email and age passes whole-record validation. */
  lemma ValidRecordAccepted(validator: Validator, oracle: Oracle)
    requires Honours(validator, oracle)
    requires oracle.isEmail("tony@stark.com")
    requires oracle.toNumber("45") == Some(45.0)
    ensures validator(map[NameField := "Tony", EmailField := "tony@stark.com", AgeField := "45"],
                      FormSchema, false) == []
  {
    var user := map[NameField := "Tony", EmailField := "tony@stark.com", AgeField := "45"];
    RecordValidationMatchesRules(validator, oracle, user);
  }

  // ---------------------------------------------------------------------------
  // The component's state
  // ---------------------------------------------------------------------------

  /** The component's two pieces of state and its two handlers. */
  class Form {
    const validator: Validator
    var user: Record
    var validationErrors: ErrorTable

    /** The record keeps its three keys, and every inline error is the message `validate`
        gives for the field's current value: no entry is stale. */
    ghost predicate Valid()
      reads this
    {
      && user.Keys == FieldNames
      && forall k :: k in validationErrors ==>
           k in FormSchema && k in user &&
           validationErrors[k] != "" &&
           Validate(validator, k, user[k]) == Some(validationErrors[k])
    }

    constructor (validator: Validator)
      ensures Valid()
      ensures this.validator == validator
      ensures user == UserInitialState && validationErrors == map[]
    {
      this.validator := validator;
      user := UserInitialState;
      validationErrors := map[];
      new;
      InitialStateKeys();
    }

    /** An input's change event: store the value, validate the field, update its inline error. */
    method HandlerOnChange(name: string, value: string)
      requires Valid()
      requires name in FieldNames
      modifies this
      ensures Valid()
      ensures user == SetField(old(user), name, value)
      ensures validationErrors == ErrorsAfter(old(validationErrors), name, Validate(validator, name, value))
    {
      user := SetField(user, name, value);
      var errorMessage := Validate(validator, name, value);
      validationErrors := ApplyFieldResult(validationErrors, name, errorMessage);
    }

    /** Submit: validate the whole record collecting every error. It never touches the inline
        error table (there is no `modifies` clause). */
    method HandlerOnSubmit() returns (outcome: SubmitOutcome)
      ensures outcome.Accepted? <==> validator(user, FormSchema, false) == []
      ensures outcome.Accepted? ==> outcome.record == user
      ensures outcome.Rejected? ==>
        outcome.errorData.Keys == Fields(validator(user, FormSchema, false))
      ensures outcome.Rejected? ==> forall k :: k in outcome.errorData ==>
        exists i :: IsLast(validator(user, FormSchema, false), i, k) &&
          validator(user, FormSchema, false)[i].message == outcome.errorData[k]
    {
      var details := validator(user, FormSchema, false);
      if details == [] {
        outcome := Accepted(user);
      } else {
        var errorData := CollectErrors(details);
        outcome := Rejected(errorData);
      }
    }
  }

  /** With an honouring validator, every inline error belongs to a field whose current value
      breaks its rule. */
  lemma InlineErrorsAreViolations(form: Form, oracle: Oracle)
    requires form.Valid()
    requires Honours(form.validator, oracle)
    ensures forall k :: k in form.validationErrors ==>
      Violates(FormSchema[k], Some(form.user[k]), oracle)
  {
    forall k | k in form.validationErrors
      ensures Violates(FormSchema[k], Some(form.user[k]), oracle)
    {
      ValidateMatchesRule(form.validator, oracle, k, form.user[k]);
    }
  }

  /** After a change of field `name`, its inline error is shown exactly when the new value
      breaks the rule. */
  lemma ChangedFieldErrorMatchesRule(validator: Validator, oracle: Oracle, errors: ErrorTable,
                                     name: string, value: string)
    requires Honours(validator, oracle)
    requires name in FormSchema
    ensures name in ErrorsAfter(errors, name, Validate(validator, name, value)) <==>
      Violates(FormSchema[name], Some(value), oracle)
  {
    ValidateMatchesRule(validator, oracle, name, value);
  }

}
