/** internal.ValidationErrors: an ordered, immutable list of failure messages with three
    accessors. Each accessor panics on an empty list, which is modelled as its precondition. */
module Internal {
  import opened Text

  datatype ValidationErrors = ValidationErrors(errors: seq<string>)
  {
    /** The first message; it is where the joined form begins. */
    function One(): (m: string)
      requires |errors| > 0
      ensures m == All()[0]
      ensures m <= Error()
    {
      JoinStartsWithFirst(errors, " | ");
      errors[0]
    }

    /** Every message, unchanged and in order. */
    function All(): (ms: seq<string>)
      requires |errors| > 0
      ensures |ms| == |errors| && forall i :: 0 <= i < |ms| ==> ms[i] == errors[i]
    {
      errors
    }

    /** The messages joined by " | ": a single message is its own joined form, and every
        message occurs in it. */
    function Error(): (s: string)
      requires |errors| > 0
      ensures |errors| == 1 ==> s == errors[0]
      ensures forall i :: 0 <= i < |errors| ==> Contains(s, errors[i])
    {
      forall i | 0 <= i < |errors| ensures Contains(Join(errors, " | "), errors[i]) {
        JoinContainsEach(errors, " | ", i);
      }
      Join(errors, " | ")
    }
  }

  /** NewValidationErrors(errs...): wraps the messages as they are, so All gives them back. */
  function NewValidationErrors(errs: seq<string>): (e: ValidationErrors)
    ensures e.errors == errs
    ensures |errs| > 0 ==> e.All() == errs && e.One() == errs[0]
  {
    ValidationErrors(errs)
  }

  /** The joined form of two lists put together is the two joined forms with " | " between. */
  lemma ErrorOfConcat(a: seq<string>, b: seq<string>)
    requires |a| > 0 && |b| > 0
    ensures ValidationErrors(a + b).Error() == ValidationErrors(a).Error() + " | " + ValidationErrors(b).Error()
  {
    JoinConcat(a, b, " | ");
  }
}
