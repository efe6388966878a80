/** The FAQ accordion of the service detail page: at most one answer is expanded, the first
    one to begin with, and a click on a question toggles it. */
module ServiceDetail {
  import opened Wrappers
  import Toggle

  /** The questions among the first `n` whose answer is expanded when the state is `openFaq`. */
  function Expanded(openFaq: Option<int>, n: int): set<int> {
    set i | 0 <= i < n && openFaq == Some(i)
  }

  /** At most one answer is expanded: none when the state is `null`, otherwise just the open one. */
  lemma AtMostOneExpanded(openFaq: Option<int>, n: int)
    ensures |Expanded(openFaq, n)| <= 1
    ensures openFaq.None? ==> Expanded(openFaq, n) == {}
    ensures openFaq.Some? && 0 <= openFaq.value < n ==> Expanded(openFaq, n) == {openFaq.value}
  {
    if openFaq.Some? && 0 <= openFaq.value < n {
      assert Expanded(openFaq, n) == {openFaq.value};
    } else {
      assert Expanded(openFaq, n) == {};
    }
  }

  /** The accordion's state. */
  class FaqAccordion {
    var openFaq: Option<int>

    constructor ()
      ensures openFaq == Some(0)
    {
      openFaq := Some(0);
    }

    /** Whether answer `i` is shown. */
    predicate IsExpanded(i: int)
      reads this
    {
      openFaq == Some(i)
    }

    /** `toggleFaq(index)`. */
    method ToggleFaq(index: int)
      modifies this
      ensures openFaq == Toggle.Toggled(old(openFaq), index)
    {
      openFaq := if openFaq == Some(index) then None else Some(index);
    }
  }
}
