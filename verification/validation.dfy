/**
  The rule interpreter behind the handlers' Joi schemas, run with
  `abortEarly: false`. A schema is a table of field rules in declared order,
  plus, for the update handlers, an "at least one field" rule. Validation
  visits every field, reports at most one failure per field, and keeps the
  failures in declared order.
*/
module Validation {
  import opened Wrappers
  import opened Payload
  import Patterns

  /**
    The text of one failure. `JoiDefault` stands for a message the handlers
    do not override, so its text is Joi's own and is not modelled.
  */
  datatype Message = Text(text: string) | JoiDefault(code: string)

  /** One entry of the response's `details` list. */
  datatype Detail = Detail(field: string, error: Message)

  /** The three regular expressions of the rule tables. */
  datatype Regex = Cnpj | Telefone | Cep

  /** The check a present, non-empty string must pass. */
  datatype Check =
    | MinLength(n: nat)                  // `.min(n)`
    | Pattern(re: Regex, format: string) // `.pattern(re)`, with the format quoted in its message

  /**
    One line of a schema: `Joi.string()`, then its check, then `.required()`
    or not; `onEmpty` is what the empty string reports (`string.empty`).
  */
  datatype FieldRule = FieldRule(name: string, required: bool, check: Check, onEmpty: Message)

  /**
    A schema: its fields, and for the update handlers the message of the
    `.or(...)` rule over all of them.
  */
  datatype Schema = Schema(fields: seq<FieldRule>, missing: Option<string>)

  /** The `field` the handlers report for a failure that has no path (the `.or` rule). */
  const RequestField: string := "Requisição"

  /** Joi's default `string.empty` message, which only `numero` overrides. */
  const DefaultEmpty: Message := JoiDefault("string.empty")

  function RequiredMessage(f: string): string {
    "O campo '" + f + "' é obrigatório."
  }

  function TypeMessage(f: string): string {
    "O campo '" + f + "' deve ser string."
  }

  function MinMessage(f: string, n: nat): string {
    "O campo '" + f + "' deve conter no mínimo " + NatText(n) + " caracteres."
  }

  function FormatMessage(f: string, format: string): string {
    "O campo '" + f + "' deve estar no formato " + format
  }

  /** Decimal rendering of `n`, as a template literal `${n}` prints it. */
  function NatText(n: nat): string {
    var digit := "0123456789"[n % 10];
    if n < 10 then [digit] else NatText(n / 10) + [digit]
  }

  predicate Matches(re: Regex, s: string) {
    match re
    case Cnpj => Patterns.CnpjMatches(s)
    case Telefone => Patterns.TelefoneMatches(s)
    case Cep => Patterns.CepMatches(s)
  }

  predicate Satisfies(c: Check, s: string) {
    match c
    case MinLength(n) => |s| >= n
    case Pattern(re, _) => Matches(re, s)
  }

  function CheckMessage(f: string, c: Check): string {
    match c
    case MinLength(n) => MinMessage(f, n)
    case Pattern(_, format) => FormatMessage(f, format)
  }

  /**
    The values a rule lets through: an absent optional field, or a
    non-empty string that passes the rule's check.
  */
  predicate Accepts(rule: FieldRule, v: Value) {
    || (v.Absent? && !rule.required)
    || (v.Str? && v.s != "" && Satisfies(rule.check, v.s))
  }

  /**
    The single failure Joi reports for one field, if any. The type check
    comes first, and the empty-string check comes before the rule's own
    check, so a field never reports two failures.
  */
  function FieldFailure(rule: FieldRule, v: Value): (r: Option<Detail>)
    ensures r.None? <==> Accepts(rule, v)
    ensures r.Some? ==> r.value.field == rule.name
    ensures v.NonStr? ==> r == Some(Detail(rule.name, Text(TypeMessage(rule.name))))
    ensures v.Absent? && rule.required ==> r == Some(Detail(rule.name, Text(RequiredMessage(rule.name))))
  {
    match v
    case Absent =>
      if rule.required then Some(Detail(rule.name, Text(RequiredMessage(rule.name)))) else None
    case NonStr =>
      Some(Detail(rule.name, Text(TypeMessage(rule.name))))
    case Str(s) =>
      if s == "" then Some(Detail(rule.name, rule.onEmpty))
      else if Satisfies(rule.check, s) then None
      else Some(Detail(rule.name, Text(CheckMessage(rule.name, rule.check))))
  }

  /** The failure of field `rule`, given the whole payload. */
  function FailureIn(rule: FieldRule, p: Payload): Option<Detail> {
    FieldFailure(rule, Get(p, rule.name))
  }

  /** Every field's failures, in declared order, without stopping at the first. */
  function FieldErrors(rules: seq<FieldRule>, p: Payload): (r: seq<Detail>)
    ensures |r| <= |rules|
    ensures r == [] <==> forall i :: 0 <= i < |rules| ==> Accepts(rules[i], Get(p, rules[i].name))
  {
    if rules == [] then []
    else ToSeq(FailureIn(rules[0], p)) + FieldErrors(rules[1..], p)
  }

  /** No declared field is present at all (what Joi's `.or(...)` rejects). */
  predicate NoneSupplied(rules: seq<FieldRule>, p: Payload) {
    forall i :: 0 <= i < |rules| ==> Get(p, rules[i].name).Absent?
  }

  /** The `details` of a failed validation; empty when the payload is valid. */
  function Validate(schema: Schema, p: Payload): (r: seq<Detail>)
    ensures r == [] <==>
      && (forall i :: 0 <= i < |schema.fields| ==> Accepts(schema.fields[i], Get(p, schema.fields[i].name)))
      && !(schema.missing.Some? && NoneSupplied(schema.fields, p))
    ensures |r| <= |schema.fields| + 1
  {
    var missing :=
      match schema.missing
      case Some(msg) => if NoneSupplied(schema.fields, p) then [Detail(RequestField, Text(msg))] else []
      case None => [];
    FieldErrors(schema.fields, p) + missing
  }

  /** The same rules with `.required()` dropped, as in the update schemas. */
  function Optional(rules: seq<FieldRule>): (r: seq<FieldRule>)
    ensures |r| == |rules|
    ensures forall i :: 0 <= i < |r| ==> r[i] == rules[i].(required := false)
  {
    seq(|rules|, i requires 0 <= i < |rules| => rules[i].(required := false))
  }

  predicate DistinctNames(rules: seq<FieldRule>) {
    forall i, j :: 0 <= i < j < |rules| ==> rules[i].name != rules[j].name
  }

  /** The entries of `ds` reported under field `f`, in order. */
  function DetailsOf(ds: seq<Detail>, f: string): (r: seq<Detail>)
    ensures |r| <= |ds|
    ensures forall d :: d in r ==> d in ds && d.field == f
  {
    if ds == [] then []
    else (if ds[0].field == f then [ds[0]] else []) + DetailsOf(ds[1..], f)
  }

  /**
    Selection by field keeps every entry under `f` and no other; a list
    wholly under `f` is kept whole and one with nothing under `f` gives
    nothing, which together with `DetailsOfAppend` fixes the order.
  */
  lemma {:induction false} DetailsOfExact(ds: seq<Detail>, f: string)
    ensures forall k :: 0 <= k < |ds| && ds[k].field == f ==> ds[k] in DetailsOf(ds, f)
    ensures (forall k :: 0 <= k < |ds| ==> ds[k].field == f) ==> DetailsOf(ds, f) == ds
    ensures (forall k :: 0 <= k < |ds| ==> ds[k].field != f) ==> DetailsOf(ds, f) == []
  {
    if ds != [] {
      DetailsOfExact(ds[1..], f);
      assert forall k :: 1 <= k < |ds| ==> ds[k] == ds[1..][k - 1];
    }
  }

  lemma {:induction false} DetailsOfAppend(a: seq<Detail>, b: seq<Detail>, f: string)
    ensures DetailsOf(a + b, f) == DetailsOf(a, f) + DetailsOf(b, f)
  {
    if a == [] {
      assert a + b == b;
    } else {
      assert (a + b)[1..] == a[1..] + b;
      DetailsOfAppend(a[1..], b, f);
    }
  }

  /**
    Declared order: the failures of a table are those of its first part
    followed by those of the rest, so every failure of an earlier field comes
    before every failure of a later one.
  */
  lemma {:induction false} FieldErrorsAppend(a: seq<FieldRule>, b: seq<FieldRule>, p: Payload)
    ensures FieldErrors(a + b, p) == FieldErrors(a, p) + FieldErrors(b, p)
  {
    if a == [] {
      assert a + b == b;
    } else {
      assert (a + b)[1..] == a[1..] + b;
      FieldErrorsAppend(a[1..], b, p);
    }
  }

  /** A field whose name no rule declares reports nothing. */
  lemma {:induction false} FieldErrorsUndeclared(rules: seq<FieldRule>, p: Payload, f: string)
    requires forall i :: 0 <= i < |rules| ==> rules[i].name != f
    ensures DetailsOf(FieldErrors(rules, p), f) == []
  {
    if rules != [] {
      DetailsOfAppend(ToSeq(FailureIn(rules[0], p)), FieldErrors(rules[1..], p), f);
      FieldErrorsUndeclared(rules[1..], p, f);
    }
  }

  /**
    Exactly one failure or none per field: in a table with distinct names,
    the failures reported under field `rules[i].name` are precisely that
    field's own failure. A non-string value therefore reports the type
    message alone, never a length or pattern message besides.
  */
  lemma {:induction false} FieldErrorsPerField(rules: seq<FieldRule>, p: Payload, i: nat)
    requires DistinctNames(rules) && i < |rules|
    ensures DetailsOf(FieldErrors(rules, p), rules[i].name) == ToSeq(FailureIn(rules[i], p))
  {
    var f := rules[i].name;
    var head := ToSeq(FailureIn(rules[0], p));
    DetailsOfAppend(head, FieldErrors(rules[1..], p), f);
    if i == 0 {
      FieldErrorsUndeclared(rules[1..], p, f);
      assert DetailsOf(head, f) == head;
    } else {
      FieldErrorsPerField(rules[1..], p, i - 1);
      assert DetailsOf(head, f) == [];
    }
  }

  /**
    When every field fails, validation reports one failure per field, in
    declared order: the failure list is as long as the table and its k-th
    entry is the k-th field's failure.
  */
  lemma {:induction false} FieldErrorsAllFail(rules: seq<FieldRule>, p: Payload)
    requires forall i :: 0 <= i < |rules| ==> FailureIn(rules[i], p).Some?
    ensures |FieldErrors(rules, p)| == |rules|
    ensures forall k :: 0 <= k < |rules| ==> FieldErrors(rules, p)[k] == FailureIn(rules[k], p).value
  {
    if rules != [] {
      FieldErrorsAllFail(rules[1..], p);
    }
  }

  /**
    The per-field reading of a whole validation: in a schema with distinct
    names, none of them `Requisição`, the failures reported under a field are
    exactly that field's own failure, zero or one.
  */
  lemma ValidatePerField(schema: Schema, p: Payload, i: nat)
    requires DistinctNames(schema.fields) && i < |schema.fields|
    requires RequestField != schema.fields[i].name
    ensures DetailsOf(Validate(schema, p), schema.fields[i].name) == ToSeq(FailureIn(schema.fields[i], p))
  {
    var f := schema.fields[i].name;
    var tail :=
      match schema.missing
      case Some(msg) => if NoneSupplied(schema.fields, p) then [Detail(RequestField, Text(msg))] else []
      case None => [];
    DetailsOfAppend(FieldErrors(schema.fields, p), tail, f);
    FieldErrorsPerField(schema.fields, p, i);
    assert DetailsOf(tail, f) == [];
  }

  /** A non-string value reports exactly the type message for that field. */
  lemma NonStringReportsTypeOnly(schema: Schema, p: Payload, i: nat)
    requires DistinctNames(schema.fields) && i < |schema.fields|
    requires RequestField != schema.fields[i].name
    requires Get(p, schema.fields[i].name) == NonStr
    ensures var f := schema.fields[i].name;
      DetailsOf(Validate(schema, p), f) == [Detail(f, Text(TypeMessage(f)))]
  {
    ValidatePerField(schema, p, i);
  }

  /**
    A non-empty string shorter than a field's minimum reports the minimum
    message for that field, and nothing else under it.
  */
  lemma TooShortReportsMinimum(schema: Schema, p: Payload, i: nat, n: nat)
    requires DistinctNames(schema.fields) && i < |schema.fields|
    requires RequestField != schema.fields[i].name
    requires schema.fields[i].check == MinLength(n)
    requires Get(p, schema.fields[i].name).Str?
    requires 0 < |Get(p, schema.fields[i].name).s| < n
    ensures var f := schema.fields[i].name;
      DetailsOf(Validate(schema, p), f) == [Detail(f, Text(MinMessage(f, n)))]
  {
    ValidatePerField(schema, p, i);
  }

  /**
    A non-empty string is accepted by a pattern field exactly when it
    matches; otherwise that field reports its format message alone.
  */
  lemma PatternReport(schema: Schema, p: Payload, i: nat, re: Regex, format: string)
    requires DistinctNames(schema.fields) && i < |schema.fields|
    requires RequestField != schema.fields[i].name
    requires schema.fields[i].check == Pattern(re, format)
    requires Get(p, schema.fields[i].name).Str? && Get(p, schema.fields[i].name).s != ""
    ensures var f := schema.fields[i].name;
      DetailsOf(Validate(schema, p), f) ==
        if Matches(re, Get(p, f).s) then [] else [Detail(f, Text(FormatMessage(f, format)))]
  {
    ValidatePerField(schema, p, i);
  }

  /** The "required" failures of the required fields of a table, in declared order. */
  function RequiredDetails(rules: seq<FieldRule>): seq<Detail> {
    if rules == [] then []
    else
      var own := if rules[0].required then [Detail(rules[0].name, Text(RequiredMessage(rules[0].name)))] else [];
      own + RequiredDetails(rules[1..])
  }

  /**
    A payload with none of the declared fields reports, in declared order,
    that each required field is required, and nothing for the optional ones.
  */
  lemma {:induction false} NoneSuppliedReportsRequired(rules: seq<FieldRule>, p: Payload)
    requires NoneSupplied(rules, p)
    ensures FieldErrors(rules, p) == RequiredDetails(rules)
  {
    if rules != [] {
      NoneSuppliedReportsRequired(rules[1..], p);
    }
  }

  /**
    An update schema given no declared field reports exactly one failure,
    under `Requisição`, carrying the `.or` message.
  */
  lemma NothingToUpdate(rules: seq<FieldRule>, msg: string, p: Payload)
    requires NoneSupplied(rules, p)
    ensures Validate(Schema(Optional(rules), Some(msg)), p) == [Detail(RequestField, Text(msg))]
  {
    var opt := Optional(rules);
    assert forall i :: 0 <= i < |opt| ==> Accepts(opt[i], Get(p, opt[i].name));
  }

  /**
    Once an update payload validates, every declared field that is present
    holds a non-empty string, so "overwrite when truthy" overwrites exactly
    the fields supplied.
  */
  lemma ValidUpdateFieldsTruthy(rules: seq<FieldRule>, msg: string, p: Payload, i: nat)
    requires Validate(Schema(Optional(rules), Some(msg)), p) == [] && i < |rules|
    ensures !Get(p, rules[i].name).Absent? ==> Truthy(Get(p, rules[i].name))
  {
    var opt := Optional(rules);
    assert Accepts(opt[i], Get(p, opt[i].name));
  }

  /** Once a create payload validates, every required field holds a non-empty string. */
  lemma ValidCreateFieldsTruthy(rules: seq<FieldRule>, p: Payload, i: nat)
    requires Validate(Schema(rules, None), p) == [] && i < |rules| && rules[i].required
    ensures Truthy(Get(p, rules[i].name))
  {
    assert Accepts(rules[i], Get(p, rules[i].name));
  }
}
