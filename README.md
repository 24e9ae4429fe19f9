# SimpleForm: form state and validation-error bookkeeping

A model of the state logic of the `SimpleForm` React component: a sign-up form with
three inputs (`name`, `email`, `age`) whose values live in a user record, whose
per-field validation messages live in an error table, and whose submit handler
validates the whole record and summarises every error by field.

- `wrappers.dfy` — `Option`, standing for JavaScript's `null`.
- `validation.dfy` (module `Validation`) — the schema's visible rules (`FormSchema`:
  name length 2 to 20, a syntactically valid email, an age from 1 to 100, all required)
  and the schema-validation library as an abstract `Validator`: a function from
  (object, sub-schema, abortEarly) to the list of error details, where no details means
  `error` is `null`. `Honours(validator, oracle)` states when a validator agrees with the
  transcribed rules. Email syntax and string-to-number coercion are the two uninterpreted
  functions of an `Oracle`.
- `simple_form.dfy` (module `SimpleForm`) — the record updater (`SetField`), the
  error-table updater (`ErrorsAfter`, carried out by the copy-then-mutate method
  `ApplyFieldResult`), single-field validation (`Validate`), the submit loop
  (`CollectErrors`), and the component's state as the class `Form`, whose invariant says
  that the record keeps exactly its three keys and that no inline error is stale.

Points where the code is easy to misread; the model follows the code:

- The comment at line 14 of `src/components/SimpleForm.js` says the name needs at least
  one character, but the rule is `min(2)`; so is `FormSchema` (`NameMinimumIsTwo`).
- Submitting never calls `setValidationErrors`, so it leaves the inline error table as it
  was. `Form.HandlerOnSubmit` has no `modifies` clause, so the table cannot change.
- The error-table updater tests the message for JavaScript truthiness, so an empty
  message would delete the entry rather than store it (`Truthy`).

## Model

| member | source | states |
|---|---|---|
| Validation.SchemaCoversFields | src/components/SimpleForm.js:12-18 | the schema has a rule for exactly the three inputs, every rule is required, and the name's minimum length is 2 |
| Validation.Violates | src/components/SimpleForm.js:15-17 | the transcribed rules: an empty value always breaks a rule, a missing one exactly when the rule is required; otherwise the length, email and numeric-range bounds decide |
| SimpleForm.SetField | src/components/SimpleForm.js:66-71 | the updated field holds the new value, the key set gains at most that key, every other key keeps its old value |
| SimpleForm.KeySetPreserved | src/components/SimpleForm.js:66-71 | updates whose keys are among the three input names keep a three-key record's key set exactly `{name, email, age}` |
| SimpleForm.InitialStateKeys | src/components/SimpleForm.js:5-9 | the initial record has exactly the three keys `name`, `email`, `age` |
| SimpleForm.ReachableRecordKeys | src/components/SimpleForm.js:5-9 | every record reached from the initial one by input change events has exactly the three keys |
| SimpleForm.ApplyFieldResult | src/components/SimpleForm.js:79-99 | a truthy message is stored under the field, otherwise the field's entry is gone; every other entry is unchanged; the result equals `ErrorsAfter` (the old table cannot change because Dafny maps are values, which models the shallow copy) |
| SimpleForm.ErrorsAfter | src/components/SimpleForm.js:79-99 | the field has an entry exactly when the message is truthy, and then holds that message; every other key and value is as before |
| SimpleForm.ErrorsAfterIdempotent | src/components/SimpleForm.js:79-99 | applying the same field result twice gives the same table as applying it once |
| SimpleForm.ErrorsAfterCommute | src/components/SimpleForm.js:79-99 | results for two different fields give the same table in either order |
| SimpleForm.ChangedFieldErrorMatchesRule | src/components/SimpleForm.js:76-99 | after a change, the field has an inline error exactly when its new value breaks its rule |
| SimpleForm.Validate | src/components/SimpleForm.js:102-129 | the single-field call returns the first detail's message when the validator reports an error, and `null` otherwise |
| SimpleForm.ValidateMatchesRule | src/components/SimpleForm.js:110-128 | with a validator that honours the rules, `validate` returns a (non-empty) message exactly when the value breaks the field's rule |
| SimpleForm.NameLengthBounds | src/components/SimpleForm.js:15 | the name field is accepted exactly when it has 2 to 20 characters |
| SimpleForm.NameMinimumIsTwo | src/components/SimpleForm.js:14-15 | the rule is `min(2)`, not the comment's minimum of one: "a" is rejected, "ab" accepted |
| SimpleForm.EmailFollowsSyntax | src/components/SimpleForm.js:16 | the email field is accepted exactly when it is non-empty and syntactically an email |
| SimpleForm.AgeRange | src/components/SimpleForm.js:17 | the age field is accepted exactly when it is numeric and between 1 and 100 inclusive |
| SimpleForm.CollectErrors | src/components/SimpleForm.js:143-151 | the summary's keys are exactly the fields of the details, and each holds the message of the last detail for that field |
| SimpleForm.LastIsUnique | src/components/SimpleForm.js:147-151 | the last detail for a field is unique, so the summary is fully determined by the details |
| SimpleForm.InitialRecordFailsEveryField | src/components/SimpleForm.js:136 | submitting the all-empty initial record reports all three fields |
| SimpleForm.RecordValidationMatchesRules | src/components/SimpleForm.js:136-139 | for every three-key record, collect-all validation reports exactly the fields whose value breaks its rule, and nothing exactly when all three keep their rules |
| SimpleForm.ValidRecordAccepted | src/components/SimpleForm.js:136-141 | the record Tony / tony@stark.com / "45" is accepted, given that the email check accepts the address and "45" converts to 45 |
| SimpleForm.Form.constructor | src/components/SimpleForm.js:29-42 | the component starts from the initial record and an empty error table, with its invariant established |
| SimpleForm.Form.HandlerOnChange | src/components/SimpleForm.js:49-100 | the record is updated by `SetField` and the error table by the field's `validate` result; both keep the invariant (three keys, no stale error) |
| SimpleForm.Form.HandlerOnSubmit | src/components/SimpleForm.js:134-157 | accepted exactly when collect-all validation reports nothing; otherwise the summary has one entry per reported field holding its last message; the inline error table is not modified |
| SimpleForm.InlineErrorsAreViolations | src/components/SimpleForm.js:171-195 | with a validator that honours the rules, every inline error shown belongs to a field whose current value breaks its rule |

## Left out

- The validation library's own rule evaluation, its message texts, its email syntax check
  and its string-to-number conversion for the age: the library is a parameter
  (`Validator`) and the two checks are uninterpreted (`Oracle`); `Honours` is the only link
  to the transcribed rules.
- String length is counted in characters of `seq<char>`, not in UTF-16 code units.
- Error details carry only `path[0]`: the schema is flat, so nested paths do not occur.
- SimpleForm.Validate: requires the field name to be one of the schema's keys; a name
  outside the schema (never produced by the three inputs) would look up an undefined
  sub-schema, which is not modelled.
- React's `useState` machinery and the batching of updaters: the updaters run at once, in
  program order, as plain state transitions.
- The unused `error` state: it is created and never read or written.
- Console logging, `alert`, `event.preventDefault` and the JSON text of the submit summary:
  they are output, not state.
- The JSX markup and CSS modules (presentation), `src/App.js` (it only renders environment
  strings and mounts the form) and `my-practice-app/src/components/objectDemo.js` (a
  console demonstration of computed keys and `delete`, the same map operations the error
  table uses).
