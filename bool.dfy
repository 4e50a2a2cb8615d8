/** ValidatableBool: the validator of Go bools, with its rule chain True and False. */
module Bools {
  import opened Wrappers
  import opened Text
  import opened RuleChain
  import opened Values

  /** A rule attached to the chain, with its optional explicit message. */
  datatype BoolRule =
    | True(msg: seq<string>)
    | False(msg: seq<string>)

  /** True accepts only true, False only false. */
  predicate Holds(rule: BoolRule, value: bool)
  {
    match rule
    case True(_) => value == true
    case False(_) => value == false
  }

  /** The message of a failing rule: "failed <Bool> validation for <True>" (or <False>),
      tag-prefixed when a tag is set, unless an explicit message was given. */
  function Message(rule: BoolRule, tag: Option<string>): (m: string)
    ensures |rule.msg| > 0 ==> m == rule.msg[0]
    ensures |rule.msg| == 0 && tag.Some? ==> "<" + tag.value + "> " <= m
  {
    match rule
    case True(msg) => var g := RuleText("Bool", "True"); Resolve(msg, tag, g, g)
    case False(msg) => var g := RuleText("Bool", "False"); Resolve(msg, tag, g, g)
  }

  /** Calling one rule's closure: nil when it passes, its message when it fails. */
  function Check(rule: BoolRule, value: bool, tag: Option<string>): Option<string>
  {
    if Holds(rule, value) then None else Some(Message(rule, tag))
  }

  /** The outcome of every rule of the chain, in attachment order. */
  function Outcomes(rules: seq<BoolRule>, value: bool, tag: Option<string>): seq<Option<string>>
  {
    seq(|rules|, i requires 0 <= i < |rules| => Check(rules[i], value, tag))
  }

  /** The positions of the rules that reject the value. */
  ghost function FailingRules(rules: seq<BoolRule>, value: bool): set<int>
  {
    set i | 0 <= i < |rules| && !Holds(rules[i], value)
  }

  /** The chain reports one message per failing rule, and none exactly when every rule holds. */
  lemma OutcomesCount(rules: seq<BoolRule>, value: bool, tag: Option<string>)
    ensures |Collect(Outcomes(rules, value, tag))| == |FailingRules(rules, value)|
    ensures Collect(Outcomes(rules, value, tag)) == [] <==> forall i :: 0 <= i < |rules| ==> Holds(rules[i], value)
  {
    var os := Outcomes(rules, value, tag);
    CollectCount(os);
    CollectEmptyIff(os);
    assert Failing(os) == FailingRules(rules, value);
    assert forall i :: 0 <= i < |os| ==> (os[i].None? <==> Holds(rules[i], value));
  }

  /** The fields of a ValidatableBool. */
  datatype BoolState = BoolState(tag: Option<string>, value: bool, rules: seq<BoolRule>, errors: seq<string>)

  /** The exact-type check data.(bool). */
  predicate Accepts(data: Value)
  {
    data.VBool?
  }

  /** The condition under which Validate returns nil. */
  predicate Passes(st: BoolState, data: Value)
  {
    Accepts(data) && st.errors == [] &&
    forall i :: 0 <= i < |st.rules| ==> Holds(st.rules[i], data.b)
  }

  /** One call of Validate: the new fields and the returned error (None for nil). */
  function Run(st: BoolState, data: Value, tags: seq<string>): (out: (BoolState, Option<string>))
    ensures out.0.rules == st.rules
    ensures out.0.tag == if |tags| > 0 then Some(tags[0]) else st.tag
    ensures st.errors <= out.0.errors
    ensures !Accepts(data) ==>
      out.0.errors == st.errors && out.0.value == false &&
      out.1 == Some(Resolve([], out.0.tag, MismatchText("Bool"), MismatchText("Bool")))
    ensures Accepts(data) ==>
      out.0.value == data.b &&
      |out.0.errors| == |st.errors| + |FailingRules(st.rules, data.b)| &&
      out.1 == (if out.0.errors == [] then None else Some(Join(out.0.errors, ", ")))
    ensures out.1.None? <==> Passes(st, data)
  {
    var tag := if |tags| > 0 then Some(tags[0]) else st.tag;
    if !Accepts(data) then
      (st.(tag := tag, value := false), Some(Resolve([], tag, MismatchText("Bool"), MismatchText("Bool"))))
    else
      OutcomesCount(st.rules, data.b, tag);
      var errors := st.errors + Collect(Outcomes(st.rules, data.b, tag));
      (st.(tag := tag, value := data.b, errors := errors), Report(errors))
  }

  /** With both True and False attached, in either order, every bool fails exactly one of
      them: one call of Validate on a bool adds exactly one message, the one of the rule the
      value contradicts. */
  lemma {:induction false} TrueAndFalseAddOne(st: BoolState, data: Value, tags: seq<string>, m1: seq<string>, m2: seq<string>)
    requires (st.rules == [True(m1), False(m2)] || st.rules == [False(m2), True(m1)]) && data.VBool?
    ensures var out := Run(st, data, tags);
      out.0.errors == st.errors + [Message(if data.b then False(m2) else True(m1), out.0.tag)]
  {
    var tag := Run(st, data, tags).0.tag;
    var os := Outcomes(st.rules, data.b, tag);
    assert os[..1][..0] == [];
    assert Collect(os[..1]) == Emit(os[0]);
    assert Collect(os) == Emit(os[0]) + Emit(os[1]);
  }

  class ValidatableBool {
    var tag: Option<string>
    var value: bool
    var rules: seq<BoolRule>
    var errors: seq<string>

    function State(): BoolState
      reads this
    {
      BoolState(tag, value, rules, errors)
    }

    /** Bool(): a validator with no tag, the value false, no rules and no errors. */
    constructor ()
      ensures State() == BoolState(None, false, [], [])
    {
      tag, value, rules, errors := None, false, [], [];
    }

    method Validate(data: Value, tags: seq<string>) returns (r: Option<string>)
      modifies this
      ensures State() == Run(old(State()), data, tags).0
      ensures r == Run(old(State()), data, tags).1
    {
      if |tags| > 0 {
        tag := Some(tags[0]);
      }
      if !Accepts(data) {
        value := false;
        return Some(Resolve([], tag, MismatchText("Bool"), MismatchText("Bool")));
      }
      value := data.b;
      RunRules();
      if |errors| > 0 {
        r := Some(Join(errors, ", "));
      } else {
        r := None;
      }
    }

    /** The loop of Validate: every rule runs, in attachment order, and each failure appends its
        message to errors. */
    method RunRules()
      modifies this`errors
      ensures errors == old(errors) + Collect(Outcomes(rules, value, tag))
    {
      ghost var os := Outcomes(rules, value, tag);
      for i := 0 to |rules|
        invariant errors == old(errors) + Collect(os[..i])
      {
        var err := Check(rules[i], value, tag);
        assert err == os[i];
        CollectStep(os, i);
        if err.Some? {
          errors := errors + [err.value];
        }
      }
      assert os[..|rules|] == os;
    }

    /** Each attacher appends exactly one rule, leaves the other fields alone and returns the
        receiver. */
    method True(msg: seq<string>) returns (r: ValidatableBool)
      modifies this`rules
      ensures r == this && rules == old(rules) + [BoolRule.True(msg)]
    {
      rules := rules + [BoolRule.True(msg)];
      r := this;
    }

    method False(msg: seq<string>) returns (r: ValidatableBool)
      modifies this`rules
      ensures r == this && rules == old(rules) + [BoolRule.False(msg)]
    {
      rules := rules + [BoolRule.False(msg)];
      r := this;
    }
  }
}
