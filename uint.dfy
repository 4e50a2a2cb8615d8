/** ValidatableUint: the validator of Go's unsigned integer types, with its rule chain
    Lt, Gt, Lte, Gte, Eq, NotEq and NonZero. */
module Uints {
  import opened Wrappers
  import opened Text
  import opened RuleChain
  import opened Values

  /** The type parameter T of ValidatableUint[T]: one of uint, uint8, uint16, uint32, uint64. */
  type UintKind = k: IntKind | IsUnsigned(k) witness Uint

  /** A rule attached to the chain: its kind, its parameter and the optional explicit message
      (Go's variadic `msg ...string`, of which only msg[0] is ever used). */
  datatype UintRule =
    | Lt(max: int, msg: seq<string>)
    | Gt(min: int, msg: seq<string>)
    | Lte(max: int, msg: seq<string>)
    | Gte(min: int, msg: seq<string>)
    | Eq(to: int, msg: seq<string>)
    | NotEq(to: int, msg: seq<string>)
    | NonZero(msg: seq<string>)

  /** The pass condition of each rule: one comparison against the current value. */
  predicate Holds(rule: UintRule, value: int)
  {
    match rule
    case Lt(max, _) => value < max
    case Gt(min, _) => value > min
    case Lte(max, _) => value <= max
    case Gte(min, _) => value >= min
    case Eq(to, _) => value == to
    case NotEq(to, _) => value != to
    case NonZero(_) => value != 0
  }

  /** The message of a failing rule. Every rule uses the generated "failed <T> validation for
      <Rule(n)>" both tagged and untagged, except Gte, whose untagged text is
      "<T> failed validation for <Gte(n)>". */
  function Message(kind: UintKind, rule: UintRule, tag: Option<string>): (m: string)
    ensures |rule.msg| > 0 ==> m == rule.msg[0]
    ensures |rule.msg| == 0 && tag.Some? ==> "<" + tag.value + "> " <= m
  {
    var t := TypeName(kind);
    match rule
    case Lt(max, msg) =>
      var g := RuleText(t, "Lt(" + IntToString(max) + ")"); Resolve(msg, tag, g, g)
    case Gt(min, msg) =>
      var g := RuleText(t, "Gt(" + IntToString(min) + ")"); Resolve(msg, tag, g, g)
    case Lte(max, msg) =>
      var g := RuleText(t, "Lte(" + IntToString(max) + ")"); Resolve(msg, tag, g, g)
    case Gte(min, msg) =>
      var g := RuleText(t, "Gte(" + IntToString(min) + ")");
      Resolve(msg, tag, g, "<" + t + "> failed validation for <Gte(" + IntToString(min) + ")>")
    case Eq(to, msg) =>
      var g := RuleText(t, "Eq(" + IntToString(to) + ")"); Resolve(msg, tag, g, g)
    case NotEq(to, msg) =>
      var g := RuleText(t, "NotEq(" + IntToString(to) + ")"); Resolve(msg, tag, g, g)
    case NonZero(msg) =>
      var g := RuleText(t, "NonZero"); Resolve(msg, tag, g, g)
  }

  /** Calling one rule's closure: nil when it passes, its message when it fails. */
  function Check(kind: UintKind, rule: UintRule, value: int, tag: Option<string>): Option<string>
  {
    if Holds(rule, value) then None else Some(Message(kind, rule, tag))
  }

  /** The outcome of every rule of the chain, in attachment order. */
  function Outcomes(kind: UintKind, rules: seq<UintRule>, value: int, tag: Option<string>): seq<Option<string>>
  {
    seq(|rules|, i requires 0 <= i < |rules| => Check(kind, rules[i], value, tag))
  }

  /** The positions of the rules that reject the value. */
  ghost function FailingRules(rules: seq<UintRule>, value: int): set<int>
  {
    set i | 0 <= i < |rules| && !Holds(rules[i], value)
  }

  /** The chain reports one message per failing rule, and none exactly when every rule holds. */
  lemma OutcomesCount(kind: UintKind, rules: seq<UintRule>, value: int, tag: Option<string>)
    ensures |Collect(Outcomes(kind, rules, value, tag))| == |FailingRules(rules, value)|
    ensures Collect(Outcomes(kind, rules, value, tag)) == [] <==> forall i :: 0 <= i < |rules| ==> Holds(rules[i], value)
  {
    var os := Outcomes(kind, rules, value, tag);
    CollectCount(os);
    CollectEmptyIff(os);
    assert Failing(os) == FailingRules(rules, value);
    assert forall i :: 0 <= i < |os| ==> (os[i].None? <==> Holds(rules[i], value));
  }

  /** The fields of a ValidatableUint. */
  datatype UintState = UintState(kind: UintKind, tag: Option<string>, value: int, rules: seq<UintRule>, errors: seq<string>)

  /** The exact-type check data.(T). */
  predicate Accepts(kind: UintKind, data: Value)
  {
    data.VInt? && data.kind == kind
  }

  /** The condition under which Validate returns nil. */
  predicate Passes(st: UintState, data: Value)
  {
    Accepts(st.kind, data) && st.errors == [] &&
    forall i :: 0 <= i < |st.rules| ==> Holds(st.rules[i], data.n)
  }

  /** One call of Validate: the new fields and the returned error (None for nil). */
  function Run(st: UintState, data: Value, tags: seq<string>): (out: (UintState, Option<string>))
    ensures out.0.kind == st.kind && out.0.rules == st.rules
    ensures out.0.tag == if |tags| > 0 then Some(tags[0]) else st.tag
    ensures st.errors <= out.0.errors
    ensures !Accepts(st.kind, data) ==>
      out.0.errors == st.errors && out.0.value == 0 &&
      out.1 == Some(Resolve([], out.0.tag, MismatchText(TypeName(st.kind)), MismatchText(TypeName(st.kind))))
    ensures Accepts(st.kind, data) ==>
      out.0.value == data.n &&
      |out.0.errors| == |st.errors| + |FailingRules(st.rules, data.n)| &&
      out.1 == (if out.0.errors == [] then None else Some(Join(out.0.errors, ", ")))
    ensures out.1.None? <==> Passes(st, data)
    ensures WellTyped(data) ==> InRange(st.kind, out.0.value)
  {
    var tag := if |tags| > 0 then Some(tags[0]) else st.tag;
    if !Accepts(st.kind, data) then
      var t := TypeName(st.kind);
      (st.(tag := tag, value := 0), Some(Resolve([], tag, MismatchText(t), MismatchText(t))))
    else
      OutcomesCount(st.kind, st.rules, data.n, tag);
      var errors := st.errors + Collect(Outcomes(st.kind, st.rules, data.n, tag));
      (st.(tag := tag, value := data.n, errors := errors), Report(errors))
  }

  /** A rule and its complement: exactly one of Lt(n) and Gte(n), Gt(n) and Lte(n), Eq(n) and
      NotEq(n) rejects any value, so a chain holding such a pair always reports one message. */
  lemma {:induction false} ComplementaryPairs(kind: UintKind, n: int, value: int, tag: Option<string>, m1: seq<string>, m2: seq<string>)
    ensures |Collect(Outcomes(kind, [Lt(n, m1), Gte(n, m2)], value, tag))| == 1
    ensures |Collect(Outcomes(kind, [Gt(n, m1), Lte(n, m2)], value, tag))| == 1
    ensures |Collect(Outcomes(kind, [Eq(n, m1), NotEq(n, m2)], value, tag))| == 1
  {
    var a := Outcomes(kind, [Lt(n, m1), Gte(n, m2)], value, tag);
    var b := Outcomes(kind, [Gt(n, m1), Lte(n, m2)], value, tag);
    var c := Outcomes(kind, [Eq(n, m1), NotEq(n, m2)], value, tag);
    assert a[..1] == [a[0]] && b[..1] == [b[0]] && c[..1] == [c[0]];
  }

  /** A validator that has recorded a failure returns an error from every later call, whatever
      the value: errors is never cleared. */
  lemma {:induction false} FailureIsSticky(st: UintState, data: Value, tags: seq<string>)
    requires st.errors != []
    ensures Run(st, data, tags).1.Some?
    ensures Run(Run(st, data, tags).0, data, tags).1.Some?
  {
  }

  class ValidatableUint {
    const kind: UintKind
    var tag: Option<string>
    var value: int
    var rules: seq<UintRule>
    var errors: seq<string>

    function State(): UintState
      reads this
    {
      UintState(kind, tag, value, rules, errors)
    }

    /** Uint(), Uint8(), ..., Uint64(): a validator of the given width with no tag, the zero
        value, no rules and no errors. */
    constructor (kind: UintKind)
      ensures State() == UintState(kind, None, 0, [], [])
    {
      this.kind := kind;
      tag, value, rules, errors := None, 0, [], [];
    }

    method Validate(data: Value, tags: seq<string>) returns (r: Option<string>)
      modifies this
      ensures State() == Run(old(State()), data, tags).0
      ensures r == Run(old(State()), data, tags).1
    {
      if |tags| > 0 {
        tag := Some(tags[0]);
      }
      if !Accepts(kind, data) {
        value := 0;
        var t := TypeName(kind);
        return Some(Resolve([], tag, MismatchText(t), MismatchText(t)));
      }
      value := data.n;
      RunRules();
      if |errors| > 0 {
        r := Some(Join(errors, ", "));
      } else {
        r := None;
      }
    }

    /** The loop of Validate: every rule runs, in attachment order, and each failure appends its
        message to errors. */
    method RunRules()
      modifies this`errors
      ensures errors == old(errors) + Collect(Outcomes(kind, rules, value, tag))
    {
      ghost var os := Outcomes(kind, rules, value, tag);
      for i := 0 to |rules|
        invariant errors == old(errors) + Collect(os[..i])
      {
        var err := Check(kind, rules[i], value, tag);
        assert err == os[i];
        CollectStep(os, i);
        if err.Some? {
          errors := errors + [err.value];
        }
      }
      assert os[..|rules|] == os;
    }

    /** Each attacher appends exactly one rule, leaves the other fields alone and returns the
        receiver. Its parameter has the validator's type T. */
    method Lt(max: int, msg: seq<string>) returns (r: ValidatableUint)
      requires InRange(kind, max)
      modifies this`rules
      ensures r == this && rules == old(rules) + [UintRule.Lt(max, msg)]
    {
      rules := rules + [UintRule.Lt(max, msg)];
      r := this;
    }

    method Gt(min: int, msg: seq<string>) returns (r: ValidatableUint)
      requires InRange(kind, min)
      modifies this`rules
      ensures r == this && rules == old(rules) + [UintRule.Gt(min, msg)]
    {
      rules := rules + [UintRule.Gt(min, msg)];
      r := this;
    }

    method Lte(max: int, msg: seq<string>) returns (r: ValidatableUint)
      requires InRange(kind, max)
      modifies this`rules
      ensures r == this && rules == old(rules) + [UintRule.Lte(max, msg)]
    {
      rules := rules + [UintRule.Lte(max, msg)];
      r := this;
    }

    method Gte(min: int, msg: seq<string>) returns (r: ValidatableUint)
      requires InRange(kind, min)
      modifies this`rules
      ensures r == this && rules == old(rules) + [UintRule.Gte(min, msg)]
    {
      rules := rules + [UintRule.Gte(min, msg)];
      r := this;
    }

    method Eq(to: int, msg: seq<string>) returns (r: ValidatableUint)
      requires InRange(kind, to)
      modifies this`rules
      ensures r == this && rules == old(rules) + [UintRule.Eq(to, msg)]
    {
      rules := rules + [UintRule.Eq(to, msg)];
      r := this;
    }

    method NotEq(to: int, msg: seq<string>) returns (r: ValidatableUint)
      requires InRange(kind, to)
      modifies this`rules
      ensures r == this && rules == old(rules) + [UintRule.NotEq(to, msg)]
    {
      rules := rules + [UintRule.NotEq(to, msg)];
      r := this;
    }

    method NonZero(msg: seq<string>) returns (r: ValidatableUint)
      modifies this`rules
      ensures r == this && rules == old(rules) + [UintRule.NonZero(msg)]
    {
      rules := rules + [UintRule.NonZero(msg)];
      r := this;
    }
  }
}
