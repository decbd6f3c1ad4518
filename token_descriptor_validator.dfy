/**
 * TokenDescriptorValidator: five FluentValidation rules over the descriptor,
 * one per field, all evaluated (the default cascade mode continues past a
 * failing rule), so the failures name every failing field.
 */
module TokenDescriptorValidator {
  import opened Wrappers
  import opened TokenDescriptor
  import Library

  datatype Field = Audience | Issuer | Expires | Subject | SecretKey

  /** The FluentValidation rule that failed: NotEmpty, or Length(min, max). */
  datatype Rule = NotEmpty | Length(min: nat, max: nat)

  /** One entry of ValidationResult.Errors. */
  datatype ValidationFailure = ValidationFailure(field: Field, rule: Rule)

  /** The characters char.IsWhiteSpace accepts. */
  predicate IsWhiteSpace(c: char) {
    var n := c as int;
    (0x09 <= n <= 0x0D) || n == 0x20 || n == 0x85 || n == 0xA0 || n == 0x1680
    || (0x2000 <= n <= 0x200A) || n == 0x2028 || n == 0x2029 || n == 0x202F
    || n == 0x205F || n == 0x3000
  }

  /** NotEmpty on a string: not null, not empty, and not made only of white space. */
  predicate NotEmptyString(s: Option<string>) {
    s.Some? && exists i :: 0 <= i < |s.value| && !IsWhiteSpace(s.value[i])
  }

  /** Length(32, 32) on a string: a null string passes, any other must have 32 characters. */
  predicate HasLength32(s: Option<string>) {
    s.None? || |s.value| == 32
  }

  const SecretKeyLength: nat := 32

  /** The descriptor passes all five rules. NotBefore is never examined. */
  predicate IsValid(d: Descriptor) {
    NotEmptyString(d.audience)
    && NotEmptyString(d.issuer)
    && d.expires.Some?
    && d.subject.Some?
    && d.secretKey.Some? && |d.secretKey.value| == SecretKeyLength && NotEmptyString(d.secretKey)
  }

  /** The fields in the order their rules are declared. */
  const Fields: seq<Field> := [Audience, Issuer, Expires, Subject, SecretKey]

  /** Whether the rules of field `f` hold. */
  predicate FieldPasses(d: Descriptor, f: Field) {
    match f
    case Audience => NotEmptyString(d.audience)
    case Issuer => NotEmptyString(d.issuer)
    case Expires => d.expires.Some?
    case Subject => d.subject.Some?
    case SecretKey => HasLength32(d.secretKey) && NotEmptyString(d.secretKey)
  }

  /** The failures of one field's rules, in the order the rules are chained. */
  function FieldFailures(d: Descriptor, f: Field): (r: seq<ValidationFailure>)
    ensures r == [] <==> FieldPasses(d, f)
    ensures forall i :: 0 <= i < |r| ==> r[i].field == f
  {
    match f
    case Audience => if NotEmptyString(d.audience) then [] else [ValidationFailure(Audience, NotEmpty)]
    case Issuer => if NotEmptyString(d.issuer) then [] else [ValidationFailure(Issuer, NotEmpty)]
    case Expires => if d.expires.Some? then [] else [ValidationFailure(Expires, NotEmpty)]
    case Subject => if d.subject.Some? then [] else [ValidationFailure(Subject, NotEmpty)]
    case SecretKey =>
      (if HasLength32(d.secretKey) then [] else [ValidationFailure(SecretKey, Length(SecretKeyLength, SecretKeyLength))])
      + (if NotEmptyString(d.secretKey) then [] else [ValidationFailure(SecretKey, NotEmpty)])
  }

  /** Some failure in `errors` names field `f`. */
  predicate Mentions(errors: seq<ValidationFailure>, f: Field) {
    exists i :: 0 <= i < |errors| && errors[i].field == f
  }

  lemma MentionsConcat(a: seq<ValidationFailure>, b: seq<ValidationFailure>, f: Field)
    ensures Mentions(a + b, f) <==> Mentions(a, f) || Mentions(b, f)
  {
    if Mentions(a + b, f) {
      var i :| 0 <= i < |a + b| && (a + b)[i].field == f;
      if i >= |a| { assert b[i - |a|].field == f; }
    }
    if Mentions(b, f) {
      var i :| 0 <= i < |b| && b[i].field == f;
      assert (a + b)[|a| + i] == b[i];
    }
    if Mentions(a, f) {
      var i :| 0 <= i < |a| && a[i].field == f;
      assert (a + b)[i] == a[i];
    }
  }

  /** The descriptor is valid exactly when every field's rules hold. */
  lemma ValidIffAllFieldsPass(d: Descriptor)
    ensures IsValid(d) <==> forall f: Field :: FieldPasses(d, f)
  {
    if !IsValid(d) {
      assert !FieldPasses(d, Audience) || !FieldPasses(d, Issuer) || !FieldPasses(d, Expires)
        || !FieldPasses(d, Subject) || !FieldPasses(d, SecretKey);
    }
  }

  /** The failures of the rules of `fs`, field after field. */
  function FailuresOf(d: Descriptor, fs: seq<Field>): (errors: seq<ValidationFailure>)
    ensures forall f: Field :: Mentions(errors, f) <==> f in fs && !FieldPasses(d, f)
  {
    if fs == [] then []
    else
      var head, rest := FieldFailures(d, fs[0]), FailuresOf(d, fs[1..]);
      assert forall f: Field :: Mentions(head + rest, f) <==> f in fs && !FieldPasses(d, f) by {
        forall f: Field ensures Mentions(head + rest, f) <==> f in fs && !FieldPasses(d, f) {
          MentionsConcat(head, rest, f);
          assert Mentions(head, f) <==> f == fs[0] && !FieldPasses(d, f) by {
            if f == fs[0] && !FieldPasses(d, f) { assert head[0].field == f; }
          }
          assert f in fs <==> f == fs[0] || f in fs[1..];
        }
      }
      head + rest
  }

  /** Validate(descriptor).Errors: every failing rule, in declaration order. */
  function Validate(d: Descriptor): (errors: seq<ValidationFailure>)
    ensures forall f: Field :: Mentions(errors, f) <==> !FieldPasses(d, f)
    ensures errors == [] <==> IsValid(d)
  {
    var errors := FailuresOf(d, Fields);
    ValidIffAllFieldsPass(d);
    assert errors != [] ==> Mentions(errors, errors[0].field);
    errors
  }

  /** The fields among `fs` whose rules fail, in order. */
  function FailingAmong(d: Descriptor, fs: seq<Field>): (fields: seq<Field>)
    ensures forall f: Field :: f in fields <==> f in fs && !FieldPasses(d, f)
    ensures |fields| <= |fs|
  {
    if fs == [] then []
    else (if FieldPasses(d, fs[0]) then [] else [fs[0]]) + FailingAmong(d, fs[1..])
  }

  /** The names of the failing fields, in declaration order. */
  function FailingFields(d: Descriptor): (fields: seq<Field>)
    ensures forall f: Field :: f in fields <==> !FieldPasses(d, f)
    ensures fields == [] <==> IsValid(d)
  {
    var fields := FailingAmong(d, Fields);
    ValidIffAllFieldsPass(d);
    assert fields != [] ==> fields[0] in fields;
    fields
  }

  /** A secret key of 32 white-space characters fails NotEmpty, though PostConfigure accepts it. */
  lemma WhiteSpaceKeyRejected(d: Descriptor)
    requires d.secretKey.Some? && |d.secretKey.value| == 32
    requires forall i :: 0 <= i < 32 ==> d.secretKey.value[i] == ' '
    ensures FieldFailures(d, SecretKey) == [ValidationFailure(SecretKey, NotEmpty)]
    ensures !IsValid(d)
  {
  }

  /** An empty secret key fails both of its rules, Length first. */
  lemma EmptyKeyFailsBothRules(d: Descriptor)
    requires d.secretKey == Some("")
    ensures FieldFailures(d, SecretKey) == [ValidationFailure(SecretKey, Length(32, 32)), ValidationFailure(SecretKey, NotEmpty)]
  {
  }

  /** A null secret key passes Length (which skips null values) and fails only NotEmpty. */
  lemma NullKeyFailsOnlyNotEmpty(d: Descriptor)
    requires d.secretKey.None?
    ensures FieldFailures(d, SecretKey) == [ValidationFailure(SecretKey, NotEmpty)]
  {
  }

  /** No rule reads NotBefore, so changing it changes no failure. */
  lemma {:induction false} NotBeforeNeverChecked(d: Descriptor, notBefore: Option<Library.Timestamp>, fs: seq<Field>)
    ensures FailuresOf(d.(notBefore := notBefore), fs) == FailuresOf(d, fs)
  {
    if fs != [] {
      NotBeforeNeverChecked(d, notBefore, fs[1..]);
    }
  }

  /** Validity does not depend on NotBefore, nor on any ordering of NotBefore, Expires and the clock. */
  lemma ValidityIgnoresNotBefore(d: Descriptor, notBefore: Option<Library.Timestamp>)
    ensures Validate(d.(notBefore := notBefore)) == Validate(d)
    ensures IsValid(d.(notBefore := notBefore)) <==> IsValid(d)
  {
    NotBeforeNeverChecked(d, notBefore, Fields);
  }
}
