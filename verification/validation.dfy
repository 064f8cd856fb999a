/** The part of go-playground/validator's struct validation the requests rely
    on, and `isValidRequest`, which turns its errors into one message.

    A request field is a pointer: absent (nil) or a value. Fields are checked in
    declaration order and each field reports at most one error:
    - a nil field passes when it has no tags or its first tag is `omitempty`,
      and otherwise fails on its first tag with the pointer kind;
    - a present field fails on its first tag that does not hold of the value,
      with the kind of the value. */
module Validation {
  import opened Base
  import Text

  /** The value a non-nil request field points to. */
  datatype Value = Str(s: string) | Float(f: real) | Int(i: int)

  /** The reflect.Kind a field error reports (`err.Type().Kind()`). */
  datatype Kind = PtrKind | StringKind | Float64Kind | IntKind

  /** The validation tags the requests use; numeric parameters are kept as numbers. */
  datatype Tag =
    | Required
    | Omitempty
    | Uuid
    | Numeric
    | Gt(bound: int)
    | Min(bound: int)
    | Max(bound: int)
    | OneOf(options: seq<string>)

  /** One struct field: its Go name and its `validate` tags in written order. */
  datatype FieldRule = FieldRule(name: string, tags: seq<Tag>)

  /** One entry of validator.ValidationErrors. */
  datatype Violation = Violation(field: string, tag: Tag, kind: Kind)

  const InternalServerError: string := "internal server error"

  function KindOf(v: Value): Kind
  {
    match v
    case Str(_) => StringKind
    case Float(_) => Float64Kind
    case Int(_) => IntKind
  }

  /** The `numeric` pattern ^[-+]?[0-9]+(?:\.[0-9]+)?$ on strings. */
  predicate IsNumericText(s: string)
  {
    var body := if |s| > 0 && (s[0] == '-' || s[0] == '+') then s[1..] else s;
    exists k :: 0 < k <= |body| && Text.AllDigits(body[..k]) &&
      (k == |body| || (body[k] == '.' && k + 1 < |body| && Text.AllDigits(body[k + 1..])))
  }

  /** Whether one tag accepts a present value. Strings are measured in
      characters by gt/min/max; `oneof` on an integer compares its decimal
      text with the options; `oneof` on a float is not supported (the library
      panics) and is reported as a violation here. */
  predicate Holds(isUuid: string -> bool, t: Tag, v: Value)
  {
    match t
    case Required => true
    case Omitempty => true
    case Uuid => v.Str? && isUuid(v.s)
    case Numeric => v.Str? ==> IsNumericText(v.s)
    case Gt(b) => Measure(v) > b as real
    case Min(b) => Measure(v) >= b as real
    case Max(b) => Measure(v) <= b as real
    case OneOf(options) =>
      match v
      case Str(s) => s in options
      case Float(_) => false
      case Int(i) => Text.FormatInt(i) in options
  }

  /** What gt/min/max compare with their parameter: the length of a string,
      the number itself otherwise. */
  function Measure(v: Value): real
  {
    match v
    case Str(s) => |s| as real
    case Float(f) => f
    case Int(i) => i as real
  }

  /** The first tag in `tags` that rejects `v`. */
  function FirstFailing(isUuid: string -> bool, tags: seq<Tag>, v: Value): (r: Option<nat>)
    ensures r.None? <==> forall i :: 0 <= i < |tags| ==> Holds(isUuid, tags[i], v)
    ensures r.Some? ==> r.value < |tags| && !Holds(isUuid, tags[r.value], v)
    ensures r.Some? ==> forall j :: 0 <= j < r.value ==> Holds(isUuid, tags[j], v)
    decreases |tags|
  {
    if |tags| == 0 then None
    else if !Holds(isUuid, tags[0], v) then Some(0)
    else
      match FirstFailing(isUuid, tags[1..], v)
      case None => None
      case Some(k) => Some(k + 1)
  }

  /** The error one field contributes, if any. */
  function CheckField(isUuid: string -> bool, rule: FieldRule, v: Option<Value>): (r: Option<Violation>)
    ensures r.Some? ==> r.value.field == rule.name
    ensures v.None? ==> (r.None? <==> |rule.tags| == 0 || rule.tags[0] == Omitempty)
    ensures v.None? && r.Some? ==> r.value == Violation(rule.name, rule.tags[0], PtrKind)
    ensures v.Some? ==> (r.None? <==> forall i :: 0 <= i < |rule.tags| ==> Holds(isUuid, rule.tags[i], v.value))
    ensures v.Some? && r.Some? ==> r.value.kind == KindOf(v.value) && !Holds(isUuid, r.value.tag, v.value)
    ensures v.Some? && r.Some? ==>
      exists k :: 0 <= k < |rule.tags| && r.value.tag == rule.tags[k] && !Holds(isUuid, rule.tags[k], v.value)
        && forall j :: 0 <= j < k ==> Holds(isUuid, rule.tags[j], v.value)
  {
    match v
    case None =>
      if |rule.tags| == 0 || rule.tags[0] == Omitempty then None
      else Some(Violation(rule.name, rule.tags[0], PtrKind))
    case Some(x) =>
      match FirstFailing(isUuid, rule.tags, x)
      case None => None
      case Some(k) => Some(Violation(rule.name, rule.tags[k], KindOf(x)))
  }

  /** validate.Struct: the errors of all fields, in declaration order. */
  function StructErrors(isUuid: string -> bool, rules: seq<FieldRule>, values: seq<Option<Value>>): (errs: seq<Violation>)
    requires |rules| == |values|
    ensures |errs| <= |rules|
    decreases |rules|
  {
    if |rules| == 0 then []
    else
      var rest := StructErrors(isUuid, rules[1..], values[1..]);
      match CheckField(isUuid, rules[0], values[0])
      case None => rest
      case Some(e) => [e] + rest
  }

  /** Struct validation fails exactly when some field has an error, and then
      its first error is the one of the first such field. */
  lemma {:induction false} StructErrorsFirst(isUuid: string -> bool, rules: seq<FieldRule>, values: seq<Option<Value>>)
    requires |rules| == |values|
    ensures var errs := StructErrors(isUuid, rules, values);
      && (|errs| == 0 <==> forall i :: 0 <= i < |rules| ==> CheckField(isUuid, rules[i], values[i]).None?)
      && (|errs| > 0 ==> exists i :: 0 <= i < |rules| && CheckField(isUuid, rules[i], values[i]) == Some(errs[0]) &&
                                  forall j :: 0 <= j < i ==> CheckField(isUuid, rules[j], values[j]).None?)
    decreases |rules|
  {
    if |rules| > 0 {
      StructErrorsFirst(isUuid, rules[1..], values[1..]);
      assert forall i :: 1 <= i < |rules| ==> rules[i] == rules[1..][i - 1] && values[i] == values[1..][i - 1];
      var rest := StructErrors(isUuid, rules[1..], values[1..]);
      if CheckField(isUuid, rules[0], values[0]).None? && |rest| > 0 {
        var i :| 0 <= i < |rules| - 1 && CheckField(isUuid, rules[1..][i], values[1..][i]) == Some(rest[0]) &&
                 forall j :: 0 <= j < i ==> CheckField(isUuid, rules[1..][j], values[1..][j]).None?;
        assert CheckField(isUuid, rules[i + 1], values[i + 1]) == Some(rest[0]);
      }
    }
  }

  /** Every error struct validation reports is the error of one of the fields. */
  lemma {:induction false} ErrorsComeFromFields(isUuid: string -> bool, rules: seq<FieldRule>, values: seq<Option<Value>>)
    requires |rules| == |values|
    ensures forall e :: e in StructErrors(isUuid, rules, values) ==>
      exists i :: 0 <= i < |rules| && CheckField(isUuid, rules[i], values[i]) == Some(e)
    decreases |rules|
  {
    if |rules| > 0 {
      ErrorsComeFromFields(isUuid, rules[1..], values[1..]);
      forall e | e in StructErrors(isUuid, rules, values)
        ensures exists i :: 0 <= i < |rules| && CheckField(isUuid, rules[i], values[i]) == Some(e)
      {
        if CheckField(isUuid, rules[0], values[0]) != Some(e) {
          assert e in StructErrors(isUuid, rules[1..], values[1..]);
          var i :| 0 <= i < |rules| - 1 && CheckField(isUuid, rules[1..][i], values[1..][i]) == Some(e);
          assert rules[1..][i] == rules[i + 1] && values[1..][i] == values[i + 1];
        }
      }
    }
  }

  /** The parameter text of a tag, as `err.Param()` reports it. */
  function Param(t: Tag): string
  {
    match t
    case Gt(b) => Text.FormatInt(b)
    case Min(b) => Text.FormatInt(b)
    case Max(b) => Text.FormatInt(b)
    case OneOf(options) => Text.Join(options, " ")
    case _ => ""
  }

  // The message texts of isValidRequest, one per tag.
  function MissingText(f: string): string { "field " + f + " missing" }
  function GtText(f: string, p: string): string { "field " + f + " should be > " + p }
  function UuidText(f: string): string { "field " + f + " should be uuid" }
  function InText(f: string, p: string): string { "field " + f + " should be in [" + p + "]" }
  function GeText(f: string, p: string): string { "field " + f + " should be >= " + p }
  function LeText(f: string, p: string): string { "field " + f + " should be <= " + p }

  /** The user-facing message for one error; tag/kind pairs the handler does
      not expect become the generic internal error. */
  function Message(v: Violation): (m: string)
    ensures |m| > 0
    ensures !Expressible(v.tag, v.kind) ==> m == InternalServerError
  {
    var f := v.field;
    match v.tag
    case Required => MissingText(f)
    case Gt(_) => if v.kind == Float64Kind then GtText(f, Param(v.tag)) else InternalServerError
    case Uuid => UuidText(f)
    case OneOf(_) => InText(f, Param(v.tag))
    case Min(_) => if v.kind == IntKind then GeText(f, Param(v.tag)) else InternalServerError
    case Max(_) => if v.kind == IntKind then LeText(f, Param(v.tag)) else InternalServerError
    case _ => InternalServerError
  }

  /** The tag/kind pairs for which the handler has a field message. */
  predicate Expressible(t: Tag, k: Kind)
  {
    match t
    case Required => true
    case Uuid => true
    case OneOf(_) => true
    case Gt(_) => k == Float64Kind
    case Min(_) => k == IntKind
    case Max(_) => k == IntKind
    case Omitempty => false
    case Numeric => false
  }

  /** isValidRequest: valid with an empty message when there are no errors,
      otherwise invalid with the message of the first error. */
  function IsValidRequest(errs: seq<Violation>): (r: (bool, string))
    ensures r.0 <==> |errs| == 0
    ensures !r.0 ==> r.1 == Message(errs[0])
  {
    if |errs| == 0 then (true, "") else (false, Message(errs[0]))
  }

  /** isValidRequest over a struct reports the first field that has an error,
      or else whatever the remaining fields give. */
  lemma ValidateFieldByField(isUuid: string -> bool, rules: seq<FieldRule>, values: seq<Option<Value>>)
    requires |rules| == |values| > 0
    ensures IsValidRequest(StructErrors(isUuid, rules, values)) ==
      match CheckField(isUuid, rules[0], values[0])
      case Some(e) => (false, Message(e))
      case None => IsValidRequest(StructErrors(isUuid, rules[1..], values[1..]))
  {
  }

  /** ValidateFieldByField for the fields from position `k` on. */
  lemma ValidateFromField(isUuid: string -> bool, rules: seq<FieldRule>, values: seq<Option<Value>>, k: nat)
    requires k < |rules| == |values|
    ensures IsValidRequest(StructErrors(isUuid, rules[k..], values[k..])) ==
      match CheckField(isUuid, rules[k], values[k])
      case Some(e) => (false, Message(e))
      case None => IsValidRequest(StructErrors(isUuid, rules[k + 1..], values[k + 1..]))
  {
    ValidateFieldByField(isUuid, rules[k..], values[k..]);
    assert rules[k..][1..] == rules[k + 1..] && values[k..][1..] == values[k + 1..];
  }

  /** A message names its field exactly when the tag/kind pair is expressible;
      every other error surfaces as the generic internal error. */
  lemma MessageInternalIffInexpressible(v: Violation)
    ensures Message(v) == InternalServerError <==> !Expressible(v.tag, v.kind)
    ensures Expressible(v.tag, v.kind) ==> Message(v)[..|"field " + v.field|] == "field " + v.field
  {
    var f := "field " + v.field;
    if Expressible(v.tag, v.kind) {
      var m := Message(v);
      assert m[..|f|] == f;
      assert m[0] == 'f' != InternalServerError[0];
    }
  }

  /** Valid with an empty message exactly when struct validation reported nothing. */
  lemma ValidIffNoErrors(errs: seq<Violation>)
    ensures IsValidRequest(errs).0 <==> |errs| == 0
    ensures IsValidRequest(errs).0 ==> IsValidRequest(errs).1 == ""
    ensures !IsValidRequest(errs).0 ==> IsValidRequest(errs).1 != ""
  {
    if |errs| > 0 {
      var v := errs[0];
      MessageInternalIffInexpressible(v);
      if Expressible(v.tag, v.kind) {
        assert |Message(v)| >= |"field "|;
      }
    }
  }

  /** Only the first error decides the outcome; later ones are ignored. */
  lemma OnlyFirstErrorCounts(e: Violation, rest1: seq<Violation>, rest2: seq<Violation>)
    ensures IsValidRequest([e] + rest1) == IsValidRequest([e] + rest2) == (false, Message(e))
  {
  }
}
