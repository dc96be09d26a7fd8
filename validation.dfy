/**
 * The part of go-playground's struct validator that the services rely on: the `required`
 * and `min` tags on string, integer and slice fields. A struct is given as the list of its
 * tagged fields in declaration order; untagged fields are never inspected.
 */
module Validation {
  import opened Wrappers

  datatype Rule = Required | Min(bound: int)

  /**
   * The value of one field as the validator sees it. A slice is `List(nil, len)`: `nil` tells a
   * nil slice from an empty one, and only an empty slice can be nil.
   */
  datatype Value = Text(s: string) | Number(n: int) | List(nil: bool, len: nat)

  datatype Field = Field(name: string, value: Value, rules: seq<Rule>)

  /** One reported failure: the field and the first tag it broke. */
  datatype FieldError = FieldError(field: string, tag: Rule)

  function TagName(r: Rule): string {
    match r
    case Required => "required"
    case Min(_) => "min"
  }

  /**
   * `required` rejects an empty string, a zero number and a nil slice (an empty but non-nil
   * slice has a value); `min` bounds a number, or the length of a string or slice.
   */
  predicate Holds(v: Value, r: Rule) {
    match r
    case Required =>
      (match v
       case Text(s) => s != ""
       case Number(n) => n != 0
       case List(nil, _) => !nil)
    case Min(b) =>
      (match v
       case Text(s) => |s| >= b
       case Number(n) => n >= b
       case List(_, len) => len >= b)
  }

  predicate Passes(f: Field) {
    forall r :: r in f.rules ==> Holds(f.value, r)
  }

  /** The first tag of `rules` that `v` breaks: the validator stops at it. */
  function FirstBroken(v: Value, rules: seq<Rule>): (r: Option<Rule>)
    ensures r.None? <==> forall x :: x in rules ==> Holds(v, x)
    ensures r.Some? ==> r.value in rules && !Holds(v, r.value)
    ensures r.Some? ==> exists i :: 0 <= i < |rules| && rules[i] == r.value && forall j :: 0 <= j < i ==> Holds(v, rules[j])
  {
    if rules == [] then None
    else if !Holds(v, rules[0]) then Some(rules[0])
    else FirstBroken(v, rules[1..])
  }

  /** What the validator reports for one field: nothing, or the first tag it broke. */
  function Report(f: Field): (errs: seq<FieldError>)
    ensures errs == [] <==> Passes(f)
    ensures |errs| <= 1
    ensures forall e :: e in errs ==> e.field == f.name && FirstBroken(f.value, f.rules) == Some(e.tag)
  {
    match FirstBroken(f.value, f.rules)
    case None => []
    case Some(r) => [FieldError(f.name, r)]
  }

  /**
   * All failures of a struct, one per failing field, in field order. The struct is valid
   * exactly when this is empty.
   */
  function Check(fields: seq<Field>): (errs: seq<FieldError>)
    ensures errs == [] <==> forall i :: 0 <= i < |fields| ==> Passes(fields[i])
    ensures |errs| <= |fields|
    ensures forall e :: e in errs ==> exists i :: 0 <= i < |fields| && e.field == fields[i].name && e.tag in fields[i].rules && !Holds(fields[i].value, e.tag)
  {
    if fields == [] then []
    else
      assert forall i :: 1 <= i < |fields| ==> fields[1..][i - 1] == fields[i];
      Report(fields[0]) + Check(fields[1..])
  }

  predicate DistinctNames(fields: seq<Field>) {
    forall i, j :: 0 <= i < j < |fields| ==> fields[i].name != fields[j].name
  }

  /** With distinct names, nothing the later fields report names the first field. */
  lemma RestNeverNamesFirst(fields: seq<Field>)
    requires fields != [] && DistinctNames(fields)
    ensures forall e :: e in Check(fields[1..]) ==> e.field != fields[0].name
  {
    var rest := fields[1..];
    forall e | e in Check(rest)
      ensures e.field != fields[0].name
    {
      var i :| 0 <= i < |rest| && e.field == rest[i].name && e.tag in rest[i].rules && !Holds(rest[i].value, e.tag);
      assert rest[i] == fields[i + 1];
    }
  }

  /** With distinct names, a field is reported exactly when it fails, on its first broken tag. */
  lemma {:induction false} CheckReportsFailing(fields: seq<Field>)
    requires DistinctNames(fields)
    ensures forall i :: 0 <= i < |fields| ==>
      (!Passes(fields[i]) <==> exists e :: e in Check(fields) && e.field == fields[i].name)
    ensures forall i, e :: 0 <= i < |fields| && e in Check(fields) && e.field == fields[i].name ==>
      FirstBroken(fields[i].value, fields[i].rules) == Some(e.tag)
  {
    if fields != [] {
      var rest := fields[1..];
      assert DistinctNames(rest) by {
        forall i, j | 0 <= i < j < |rest| ensures rest[i].name != rest[j].name {
          assert rest[i] == fields[i + 1] && rest[j] == fields[j + 1];
        }
      }
      CheckReportsFailing(rest);
      RestNeverNamesFirst(fields);
      var head := Report(fields[0]);
      var errs := Check(fields);
      assert errs == head + Check(rest);
      forall i | 0 <= i < |fields|
        ensures !Passes(fields[i]) <==> exists e :: e in errs && e.field == fields[i].name
      {
        if i == 0 {
          if !Passes(fields[0]) {
            assert head[0] in errs;
          }
        } else {
          assert fields[i] == rest[i - 1];
          assert fields[i].name != fields[0].name;
          if !Passes(fields[i]) {
            var e :| e in Check(rest) && e.field == rest[i - 1].name;
            assert e in errs;
          }
        }
      }
      forall i, e | 0 <= i < |fields| && e in errs && e.field == fields[i].name
        ensures FirstBroken(fields[i].value, fields[i].rules) == Some(e.tag)
      {
        if i != 0 {
          assert fields[i] == rest[i - 1];
          assert fields[i].name != fields[0].name;
        }
      }
    }
  }

  /** With distinct names, no field is reported twice. */
  lemma {:induction false} CheckReportsOnce(fields: seq<Field>)
    requires DistinctNames(fields)
    ensures forall k, l :: 0 <= k < l < |Check(fields)| ==> Check(fields)[k].field != Check(fields)[l].field
  {
    if fields != [] {
      var rest := fields[1..];
      assert DistinctNames(rest) by {
        forall i, j | 0 <= i < j < |rest| ensures rest[i].name != rest[j].name {
          assert rest[i] == fields[i + 1] && rest[j] == fields[j + 1];
        }
      }
      CheckReportsOnce(rest);
      RestNeverNamesFirst(fields);
      var head := Report(fields[0]);
      var errs := Check(fields);
      assert errs == head + Check(rest);
      forall k, l | 0 <= k < l < |errs|
        ensures errs[k].field != errs[l].field
      {
        if l >= |head| {
          assert errs[l] == Check(rest)[l - |head|];
          if k >= |head| {
            assert errs[k] == Check(rest)[k - |head|];
          } else {
            assert errs[k] in head;
            assert errs[l] in Check(rest);
          }
        }
      }
    }
  }

  /** A struct of two tagged fields reports field by field. */
  lemma CheckTwo(a: Field, b: Field)
    ensures Check([a, b]) == Report(a) + Report(b)
  {
    assert [a, b][1..] == [b] && [b][1..] == [];
    assert Check([b]) == Report(b);
  }

  /** A struct of three tagged fields reports field by field. */
  lemma CheckThree(a: Field, b: Field, c: Field)
    ensures Check([a, b, c]) == Report(a) + Report(b) + Report(c)
  {
    assert [a, b, c][1..] == [b, c] && [b, c][1..] == [c] && [c][1..] == [];
    assert Check([c]) == Report(c);
    assert Check([b, c]) == Report(b) + Report(c);
  }

  predicate Valid(fields: seq<Field>) {
    Check(fields) == []
  }

  /** The validator's message for one failure of struct `structName`. */
  function FieldMessage(structName: string, e: FieldError): string {
    "Key: '" + structName + "." + e.field + "' Error:Field validation for '" + e.field + "' failed on the '" + TagName(e.tag) + "' tag"
  }

  /** The validator's message for all failures: one line per failure, in order, without a trailing newline. */
  function Describe(structName: string, errs: seq<FieldError>): (text: string)
    ensures text == "" <==> errs == []
    ensures errs != [] ==>
      var first := FieldMessage(structName, errs[0]);
      |first| <= |text| && text[..|first|] == first
    ensures |errs| > 1 ==>
      var first := FieldMessage(structName, errs[0]);
      |first| < |text| && text[|first|] == '\n' && text[|first| + 1..] == Describe(structName, errs[1..])
  {
    if errs == [] then ""
    else if |errs| == 1 then FieldMessage(structName, errs[0])
    else FieldMessage(structName, errs[0]) + "\n" + Describe(structName, errs[1..])
  }
}
