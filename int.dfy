/** ValidatableInt: the validator of Go's signed and unsigned integer types, with its rule
    chain LT and GT. */
module Ints {
  import opened Wrappers
  import opened Text
  import opened RuleChain
  import opened Values

  /** A rule attached to the chain, with its parameter and optional explicit message. */
  datatype IntRule =
    | LT(max: int, msg: seq<string>)
    | GT(min: int, msg: seq<string>)

  /** LT rejects only a value above max and GT only a value below min, so both accept the
      bound itself. */
  predicate Holds(rule: IntRule, value: int)
  {
    match rule
    case LT(max, _) => !(value > max)
    case GT(min, _) => !(value < min)
  }

  /** The message of a failing rule: "failed <T> validation for <LT(n)>", tag-prefixed when a
      tag is set, unless an explicit message was given. */
  function Message(kind: IntKind, rule: IntRule, tag: Option<string>): (m: string)
    ensures |rule.msg| > 0 ==> m == rule.msg[0]
    ensures |rule.msg| == 0 && tag.Some? ==> "<" + tag.value + "> " <= m
  {
    var t := TypeName(kind);
    match rule
    case LT(max, msg) =>
      var g := RuleText(t, "LT(" + IntToString(max) + ")"); Resolve(msg, tag, g, g)
    case GT(min, msg) =>
      var g := RuleText(t, "GT(" + IntToString(min) + ")"); Resolve(msg, tag, g, g)
  }

  /** Calling one rule's closure: nil when it passes, its message when it fails. */
  function Check(kind: IntKind, rule: IntRule, value: int, tag: Option<string>): Option<string>
  {
    if Holds(rule, value) then None else Some(Message(kind, rule, tag))
  }

  /** The outcome of every rule of the chain, in attachment order. */
  function Outcomes(kind: IntKind, rules: seq<IntRule>, value: int, tag: Option<string>): seq<Option<string>>
  {
    seq(|rules|, i requires 0 <= i < |rules| => Check(kind, rules[i], value, tag))
  }

  /** The positions of the rules that reject the value. */
  ghost function FailingRules(rules: seq<IntRule>, value: int): set<int>
  {
    set i | 0 <= i < |rules| && !Holds(rules[i], value)
  }

  /** The chain reports one message per failing rule, and none exactly when every rule holds. */
  lemma OutcomesCount(kind: IntKind, rules: seq<IntRule>, value: int, tag: Option<string>)
    ensures |Collect(Outcomes(kind, rules, value, tag))| == |FailingRules(rules, value)|
    ensures Collect(Outcomes(kind, rules, value, tag)) == [] <==> forall i :: 0 <= i < |rules| ==> Holds(rules[i], value)
  {
    var os := Outcomes(kind, rules, value, tag);
    CollectCount(os);
    CollectEmptyIff(os);
    assert Failing(os) == FailingRules(rules, value);
    assert forall i :: 0 <= i < |os| ==> (os[i].None? <==> Holds(rules[i], value));
  }

  /** The fields of a ValidatableInt. */
  datatype IntState = IntState(kind: IntKind, tag: Option<string>, value: int, rules: seq<IntRule>, errors: seq<string>)

  /** The exact-type check data.(T). */
  predicate Accepts(kind: IntKind, data: Value)
  {
    data.VInt? && data.kind == kind
  }

  /** The condition under which Validate returns nil. */
  predicate Passes(st: IntState, data: Value)
  {
    Accepts(st.kind, data) && st.errors == [] &&
    forall i :: 0 <= i < |st.rules| ==> Holds(st.rules[i], data.n)
  }

  /** One call of Validate: the new fields and the returned error (None for nil). */
  function Run(st: IntState, data: Value, tags: seq<string>): (out: (IntState, Option<string>))
    ensures out.0.kind == st.kind && out.0.rules == st.rules
    ensures out.0.tag == if |tags| > 0 then Some(tags[0]) else st.tag
    ensures st.errors <= out.0.errors
    ensures !Accepts(st.kind, data) ==>
      out.0.errors == st.errors && out.0.value == 0 &&
      out.1 == Some(Resolve([], out.0.tag, MismatchText(TypeName(st.kind)), MismatchText(TypeName(st.kind))))
    ensures Accepts(st.kind, data) ==>
      out.0.value == data.n &&
      |out.0.errors| == |st.errors| + |FailingRules(st.rules, data.n)| &&
      out.1 == (if out.0.errors == [] then None else Some(Join(out.0.errors, ", ")))
    ensures out.1.None? <==> Passes(st, data)
    ensures WellTyped(data) ==> InRange(st.kind, out.0.value)
  {
    var tag := if |tags| > 0 then Some(tags[0]) else st.tag;
    if !Accepts(st.kind, data) then
      var t := TypeName(st.kind);
      (st.(tag := tag, value := 0), Some(Resolve([], tag, MismatchText(t), MismatchText(t))))
    else
      OutcomesCount(st.kind, st.rules, data.n, tag);
      var errors := st.errors + Collect(Outcomes(st.kind, st.rules, data.n, tag));
      (st.(tag := tag, value := data.n, errors := errors), Report(errors))
  }

  /** LT(n) and GT(n) accept n itself, and the chain [GT(lo), LT(hi)] accepts exactly the
      values of the closed interval [lo, hi]. */
  lemma {:induction false} BoundsAreInclusive(kind: IntKind, lo: int, hi: int, value: int, tag: Option<string>, m1: seq<string>, m2: seq<string>)
    ensures Check(kind, LT(hi, m1), hi, tag) == None && Check(kind, GT(lo, m2), lo, tag) == None
    ensures Collect(Outcomes(kind, [GT(lo, m1), LT(hi, m2)], value, tag)) == [] <==> lo <= value <= hi
  {
    var os := Outcomes(kind, [GT(lo, m1), LT(hi, m2)], value, tag);
    CollectEmptyIff(os);
  }

  class ValidatableInt {
    const kind: IntKind
    var tag: Option<string>
    var value: int
    var rules: seq<IntRule>
    var errors: seq<string>

    function State(): IntState
      reads this
    {
      IntState(kind, tag, value, rules, errors)
    }

    /** Int(), Int8(), ..., Int64() and this file's Uint(), ..., Uint64(): a validator of the
        given type with no tag, the zero value, no rules and no errors. */
    constructor (kind: IntKind)
      ensures State() == IntState(kind, None, 0, [], [])
    {
      this.kind := kind;
      tag, value, rules, errors := None, 0, [], [];
    }

    method Validate(data: Value, tags: seq<string>) returns (r: Option<string>)
      modifies this
      ensures State() == Run(old(State()), data, tags).0
      ensures r == Run(old(State()), data, tags).1
    {
      if |tags| > 0 {
        tag := Some(tags[0]);
      }
      if !Accepts(kind, data) {
        value := 0;
        var t := TypeName(kind);
        return Some(Resolve([], tag, MismatchText(t), MismatchText(t)));
      }
      value := data.n;
      RunRules();
      if |errors| > 0 {
        r := Some(Join(errors, ", "));
      } else {
        r := None;
      }
    }

    /** The loop of Validate: every rule runs, in attachment order, and each failure appends its
        message to errors. */
    method RunRules()
      modifies this`errors
      ensures errors == old(errors) + Collect(Outcomes(kind, rules, value, tag))
    {
      ghost var os := Outcomes(kind, rules, value, tag);
      for i := 0 to |rules|
        invariant errors == old(errors) + Collect(os[..i])
      {
        var err := Check(kind, rules[i], value, tag);
        assert err == os[i];
        CollectStep(os, i);
        if err.Some? {
          errors := errors + [err.value];
        }
      }
      assert os[..|rules|] == os;
    }

    /** Each attacher appends exactly one rule, leaves the other fields alone and returns the
        receiver. Its parameter has the validator's type T. */
    method LT(max: int, msg: seq<string>) returns (r: ValidatableInt)
      requires InRange(kind, max)
      modifies this`rules
      ensures r == this && rules == old(rules) + [IntRule.LT(max, msg)]
    {
      rules := rules + [IntRule.LT(max, msg)];
      r := this;
    }

    method GT(min: int, msg: seq<string>) returns (r: ValidatableInt)
      requires InRange(kind, min)
      modifies this`rules
      ensures r == this && rules == old(rules) + [IntRule.GT(min, msg)]
    {
      rules := rules + [IntRule.GT(min, msg)];
      r := this;
    }
  }
}
