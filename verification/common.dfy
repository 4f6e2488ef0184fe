/** Vocabulary shared by every component of the wellness client: the three-way
    risk/intensity scale, optional values, and the outcome of a call into one of
    the hosted-model services (which either returns a value or throws). */
module Common {

  /** The 'low' | 'medium' | 'high' string union used both for the
      questionnaire risk level and for the chat-analysis intensity. */
  datatype Level = Low | Medium | High

  /** The style variants of the UI kit's badge component. */
  datatype BadgeVariant = Default | Secondary | Destructive | Outline

  datatype Option<+T> = None | Some(value: T)

  /** The settled state of an awaited service call: a value, or a rejection
      carrying the error's `message` (possibly empty). */
  datatype Outcome<+T> = Ok(value: T) | Failed(message: string)

  /** Sum of a sequence of integers, as `reduce((sum, val) => sum + val, 0)`. */
  function Sum(xs: seq<int>): int
  {
    if |xs| == 0 then 0 else Sum(xs[..|xs| - 1]) + xs[|xs| - 1]
  }

  /** A sum of values each in [lo, hi] lies in [lo * |xs|, hi * |xs|]. */
  lemma {:induction false} SumBounds(xs: seq<int>, lo: int, hi: int)
    requires forall i :: 0 <= i < |xs| ==> lo <= xs[i] <= hi
    ensures lo * |xs| <= Sum(xs) <= hi * |xs|
  {
    if |xs| > 0 {
      var init := xs[..|xs| - 1];
      SumBounds(init, lo, hi);
      assert lo * |xs| == lo * |init| + lo;
      assert hi * |xs| == hi * |init| + hi;
    }
  }
}
