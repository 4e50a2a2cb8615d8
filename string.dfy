/** ValidatableString: the validator of Go strings, with its rule chain Min, Max, Email, Regex
    and Custom. */
module Strings {
  import opened Wrappers
  import opened Text
  import opened RuleChain
  import opened Values

  /** The two library calls the string rules make, given as functions: net/mail's ParseAddress
      (Some(address) on success, None on error) and regexp's MatchString of a compiled pattern. */
  datatype Library = Library(parseAddress: string -> Option<string>, matchString: (string, string) -> bool)

  /** A rule attached to the chain, with its parameter and optional explicit message. */
  datatype StringRule =
    | Min(min: int, msg: seq<string>)
    | Max(max: int, msg: seq<string>)
    | Email(msg: seq<string>)
    | Regex(pattern: string, msg: seq<string>)
    | Custom(pred: string -> bool, msg: seq<string>)

  /** The pass condition of each rule. Min and Max compare the byte length strictly; Email needs
      the parser to succeed and to give back exactly the input. */
  predicate Holds(lib: Library, rule: StringRule, value: string)
  {
    match rule
    case Min(min, _) => ByteLength(value) > min
    case Max(max, _) => ByteLength(value) < max
    case Email(_) =>
      var a := lib.parseAddress(value);
      a.Some? && a.value == value
    case Regex(pattern, _) => lib.matchString(pattern, value)
    case Custom(pred, _) => pred(value)
  }

  /** The message of a failing rule: "failed <String> validation for <Rule>", tag-prefixed when
      a tag is set, unless an explicit message was given. */
  function Message(rule: StringRule, tag: Option<string>): (m: string)
    ensures |rule.msg| > 0 ==> m == rule.msg[0]
    ensures |rule.msg| == 0 && tag.Some? ==> "<" + tag.value + "> " <= m
  {
    match rule
    case Min(min, msg) =>
      var g := RuleText("String", "Min(" + IntToString(min) + ")"); Resolve(msg, tag, g, g)
    case Max(max, msg) =>
      var g := RuleText("String", "Max(" + IntToString(max) + ")"); Resolve(msg, tag, g, g)
    case Email(msg) =>
      var g := RuleText("String", "Email"); Resolve(msg, tag, g, g)
    case Regex(pattern, msg) =>
      var g := RuleText("String", "Regex(" + pattern + ")"); Resolve(msg, tag, g, g)
    case Custom(_, msg) =>
      var g := RuleText("String", "Custom"); Resolve(msg, tag, g, g)
  }

  /** Calling one rule's closure: nil when it passes, its message when it fails. */
  function Check(lib: Library, rule: StringRule, value: string, tag: Option<string>): Option<string>
  {
    if Holds(lib, rule, value) then None else Some(Message(rule, tag))
  }

  /** The outcome of every rule of the chain, in attachment order. */
  function Outcomes(lib: Library, rules: seq<StringRule>, value: string, tag: Option<string>): seq<Option<string>>
  {
    seq(|rules|, i requires 0 <= i < |rules| => Check(lib, rules[i], value, tag))
  }

  /** The positions of the rules that reject the value. */
  ghost function FailingRules(lib: Library, rules: seq<StringRule>, value: string): set<int>
  {
    set i | 0 <= i < |rules| && !Holds(lib, rules[i], value)
  }

  /** The chain reports one message per failing rule, and none exactly when every rule holds. */
  lemma OutcomesCount(lib: Library, rules: seq<StringRule>, value: string, tag: Option<string>)
    ensures |Collect(Outcomes(lib, rules, value, tag))| == |FailingRules(lib, rules, value)|
    ensures Collect(Outcomes(lib, rules, value, tag)) == [] <==> forall i :: 0 <= i < |rules| ==> Holds(lib, rules[i], value)
  {
    var os := Outcomes(lib, rules, value, tag);
    CollectCount(os);
    CollectEmptyIff(os);
    assert Failing(os) == FailingRules(lib, rules, value);
    assert forall i :: 0 <= i < |os| ==> (os[i].None? <==> Holds(lib, rules[i], value));
  }

  /** The fields of a ValidatableString. */
  datatype StringState = StringState(tag: Option<string>, value: string, rules: seq<StringRule>, errors: seq<string>)

  /** The exact-type check data.(string). */
  predicate Accepts(data: Value)
  {
    data.VString?
  }

  /** The condition under which Validate returns nil. */
  predicate Passes(lib: Library, st: StringState, data: Value)
  {
    Accepts(data) && st.errors == [] &&
    forall i :: 0 <= i < |st.rules| ==> Holds(lib, st.rules[i], data.s)
  }

  /** One call of Validate: the new fields and the returned error (None for nil). */
  function Run(lib: Library, st: StringState, data: Value, tags: seq<string>): (out: (StringState, Option<string>))
    ensures out.0.rules == st.rules
    ensures out.0.tag == if |tags| > 0 then Some(tags[0]) else st.tag
    ensures st.errors <= out.0.errors
    ensures !Accepts(data) ==>
      out.0.errors == st.errors && out.0.value == "" &&
      out.1 == Some(Resolve([], out.0.tag, MismatchText("String"), MismatchText("String")))
    ensures Accepts(data) ==>
      out.0.value == data.s &&
      |out.0.errors| == |st.errors| + |FailingRules(lib, st.rules, data.s)| &&
      out.1 == (if out.0.errors == [] then None else Some(Join(out.0.errors, ", ")))
    ensures out.1.None? <==> Passes(lib, st, data)
  {
    var tag := if |tags| > 0 then Some(tags[0]) else st.tag;
    if !Accepts(data) then
      (st.(tag := tag, value := ""), Some(Resolve([], tag, MismatchText("String"), MismatchText("String"))))
    else
      OutcomesCount(lib, st.rules, data.s, tag);
      var errors := st.errors + Collect(Outcomes(lib, st.rules, data.s, tag));
      (st.(tag := tag, value := data.s, errors := errors), Report(errors))
  }

  /** The chain [Min(lo), Max(hi)] accepts exactly the strings whose byte length lies strictly
      between lo and hi; so Min(n) together with Max(n + 1) rejects every string. */
  lemma {:induction false} LengthWindow(lib: Library, lo: int, hi: int, value: string, tag: Option<string>, m1: seq<string>, m2: seq<string>)
    ensures Collect(Outcomes(lib, [Min(lo, m1), Max(hi, m2)], value, tag)) == [] <==> lo < ByteLength(value) < hi
    ensures hi == lo + 1 ==> Collect(Outcomes(lib, [Min(lo, m1), Max(hi, m2)], value, tag)) != []
  {
    var os := Outcomes(lib, [Min(lo, m1), Max(hi, m2)], value, tag);
    CollectEmptyIff(os);
  }

  /** A failing Regex rule without an explicit message names its pattern. */
  lemma {:induction false} RegexMessageNamesPattern(pattern: string, tag: Option<string>)
    ensures Contains(Message(Regex(pattern, []), tag), pattern)
  {
    var name := "Regex(" + pattern + ")";
    ContainsSelf(pattern);
    ContainsWithin("Regex(", pattern, ")", pattern);
    var g := RuleText("String", name);
    ContainsWithin("failed <" + "String" + "> validation for <", name, ">", pattern);
    if tag.Some? {
      ContainsWithin("<" + tag.value + "> ", g, "", pattern);
      assert "<" + tag.value + "> " + g + "" == "<" + tag.value + "> " + g;
    }
  }

  class ValidatableString {
    var tag: Option<string>
    var value: string
    var rules: seq<StringRule>
    var errors: seq<string>

    function State(): StringState
      reads this
    {
      StringState(tag, value, rules, errors)
    }

    /** String(): a validator with no tag, the empty value, no rules and no errors. */
    constructor ()
      ensures State() == StringState(None, "", [], [])
    {
      tag, value, rules, errors := None, "", [], [];
    }

    method Validate(lib: Library, data: Value, tags: seq<string>) returns (r: Option<string>)
      modifies this
      ensures State() == Run(lib, old(State()), data, tags).0
      ensures r == Run(lib, old(State()), data, tags).1
    {
      if |tags| > 0 {
        tag := Some(tags[0]);
      }
      if !Accepts(data) {
        value := "";
        return Some(Resolve([], tag, MismatchText("String"), MismatchText("String")));
      }
      value := data.s;
      RunRules(lib);
      if |errors| > 0 {
        r := Some(Join(errors, ", "));
      } else {
        r := None;
      }
    }

    /** The loop of Validate: every rule runs, in attachment order, and each failure appends its
        message to errors. */
    method RunRules(lib: Library)
      modifies this`errors
      ensures errors == old(errors) + Collect(Outcomes(lib, rules, value, tag))
    {
      ghost var os := Outcomes(lib, rules, value, tag);
      for i := 0 to |rules|
        invariant errors == old(errors) + Collect(os[..i])
      {
        var err := Check(lib, rules[i], value, tag);
        CollectStep(os, i);
        if err.Some? {
          errors := errors + [err.value];
        }
      }
      assert os[..|rules|] == os;
    }

    /** Each attacher appends exactly one rule, leaves the other fields alone and returns the
        receiver. Go's int parameters are 64 bits wide. */
    method Min(min: int, msg: seq<string>) returns (r: ValidatableString)
      requires InRange(Int, min)
      modifies this`rules
      ensures r == this && rules == old(rules) + [StringRule.Min(min, msg)]
    {
      rules := rules + [StringRule.Min(min, msg)];
      r := this;
    }

    method Max(max: int, msg: seq<string>) returns (r: ValidatableString)
      requires InRange(Int, max)
      modifies this`rules
      ensures r == this && rules == old(rules) + [StringRule.Max(max, msg)]
    {
      rules := rules + [StringRule.Max(max, msg)];
      r := this;
    }

    method Email(msg: seq<string>) returns (r: ValidatableString)
      modifies this`rules
      ensures r == this && rules == old(rules) + [StringRule.Email(msg)]
    {
      rules := rules + [StringRule.Email(msg)];
      r := this;
    }

    method Regex(pattern: string, msg: seq<string>) returns (r: ValidatableString)
      modifies this`rules
      ensures r == this && rules == old(rules) + [StringRule.Regex(pattern, msg)]
    {
      rules := rules + [StringRule.Regex(pattern, msg)];
      r := this;
    }

    method Custom(pred: string -> bool, msg: seq<string>) returns (r: ValidatableString)
      modifies this`rules
      ensures r == this && rules == old(rules) + [StringRule.Custom(pred, msg)]
    {
      rules := rules + [StringRule.Custom(pred, msg)];
      r := this;
    }
  }
}
