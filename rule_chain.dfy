/** The machinery every scalar validator shares: resolving a failing rule's message, collecting
    the failures of a rule chain in attachment order, and turning the error list into the
    value that Validate returns. */
module RuleChain {
  import opened Wrappers
  import opened Text

  /** The generated text of a rule failure, "failed <T> validation for <Rule>". */
  function RuleText(typeName: string, ruleName: string): string
  {
    "failed <" + typeName + "> validation for <" + ruleName + ">"
  }

  /** The text of a type mismatch, "failed validation for <T>". */
  function MismatchText(typeName: string): string
  {
    "failed validation for <" + typeName + ">"
  }

  /** A failing rule's message: the explicit message msg[0] when one was given; otherwise the
      generated text prefixed with "<tag> " when a tag is set; otherwise the untagged text. */
  function Resolve(msg: seq<string>, tag: Option<string>, generated: string, untagged: string): (r: string)
    ensures |msg| > 0 ==> r == msg[0]
    ensures |msg| == 0 && tag.Some? ==> r == "<" + tag.value + "> " + generated
    ensures |msg| == 0 && tag.None? ==> r == untagged
  {
    if |msg| > 0 then msg[0]
    else if tag.Some? then "<" + tag.value + "> " + generated
    else untagged
  }

  /** What one rule contributes to the error list: its message if it failed, nothing if it passed. */
  function Emit(outcome: Option<string>): seq<string>
  {
    match outcome
    case Some(m) => [m]
    case None => []
  }

  /** The messages of the failing outcomes, in order: the effect of running the rule chain. */
  function Collect(outcomes: seq<Option<string>>): (msgs: seq<string>)
    ensures |msgs| <= |outcomes|
  {
    if outcomes == [] then []
    else Collect(outcomes[..|outcomes| - 1]) + Emit(outcomes[|outcomes| - 1])
  }

  /** Running one more rule appends what that rule emits. */
  lemma CollectStep(outcomes: seq<Option<string>>, i: nat)
    requires i < |outcomes|
    ensures Collect(outcomes[..i + 1]) == Collect(outcomes[..i]) + Emit(outcomes[i])
  {
    assert outcomes[..i + 1][..i] == outcomes[..i];
  }

  /** The positions of the failing outcomes. */
  ghost function Failing(outcomes: seq<Option<string>>): set<int>
  {
    set i | 0 <= i < |outcomes| && outcomes[i].Some?
  }

  /** Running two chains one after the other reports the first chain's failures, then the second's. */
  lemma {:induction false} CollectConcat(a: seq<Option<string>>, b: seq<Option<string>>)
    ensures Collect(a + b) == Collect(a) + Collect(b)
    decreases |b|
  {
    if b == [] {
      assert a + b == a;
    } else {
      var n := |b| - 1;
      assert b == b[..n] + [b[n]];
      assert a + b == (a + b[..n]) + [b[n]];
      CollectConcat(a, b[..n]);
      CollectSnoc(a + b[..n], b[n]);
      CollectSnoc(b[..n], b[n]);
    }
  }

  /** Appending one rule's outcome extends the report by that outcome's message, if any. */
  lemma CollectSnoc(outcomes: seq<Option<string>>, o: Option<string>)
    ensures Collect(outcomes + [o]) == Collect(outcomes) + Emit(o)
  {
    assert (outcomes + [o])[..|outcomes|] == outcomes;
  }

  /** Running one rule before a chain reports that rule's message first. */
  lemma CollectCons(o: Option<string>, rest: seq<Option<string>>)
    ensures Collect([o] + rest) == Emit(o) + Collect(rest)
  {
    CollectConcat([o], rest);
    CollectSnoc([], o);
    assert [] + [o] == [o];
  }

  /** No message is reported exactly when every rule passes. */
  lemma {:induction false} CollectEmptyIff(outcomes: seq<Option<string>>)
    ensures Collect(outcomes) == [] <==> forall i :: 0 <= i < |outcomes| ==> outcomes[i].None?
  {
    if outcomes != [] {
      var n := |outcomes| - 1;
      CollectEmptyIff(outcomes[..n]);
      assert forall i :: 0 <= i < n ==> outcomes[..n][i] == outcomes[i];
    }
  }

  /** Each failing rule adds exactly one message: the number of messages is the number of failures. */
  lemma {:induction false} CollectCount(outcomes: seq<Option<string>>)
    ensures |Collect(outcomes)| == |Failing(outcomes)|
  {
    if outcomes == [] {
      assert Failing(outcomes) == {};
    } else {
      var n := |outcomes| - 1;
      CollectCount(outcomes[..n]);
      if outcomes[n].Some? {
        assert Failing(outcomes) == Failing(outcomes[..n]) + {n};
      } else {
        assert Failing(outcomes) == Failing(outcomes[..n]);
      }
    }
  }

  /** The k-th message of the chain is the message of the k-th failing rule: when every rule
      fails, the messages are those of the rules, in attachment order. */
  lemma {:induction false} CollectAllFailing(outcomes: seq<Option<string>>)
    requires forall i :: 0 <= i < |outcomes| ==> outcomes[i].Some?
    ensures |Collect(outcomes)| == |outcomes|
    ensures forall i :: 0 <= i < |outcomes| ==> Collect(outcomes)[i] == outcomes[i].value
  {
    if outcomes != [] {
      var n := |outcomes| - 1;
      CollectAllFailing(outcomes[..n]);
    }
  }

  /** What Validate returns for an error list: nil when it is empty, otherwise its elements
      joined by ", ". */
  function Report(errors: seq<string>): (r: Option<string>)
    ensures r.None? <==> errors == []
    ensures |errors| == 1 ==> r == Some(errors[0])
  {
    if |errors| > 0 then Some(Join(errors, ", ")) else None
  }
}
