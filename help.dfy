/** The help centre's FAQ accordion: at most one answer is expanded, and clicking a question toggles it. */
module Help {
  import opened Common

  /** `openFaq === index ? null : index`. */
  function Toggled(openFaq: Option<int>, index: int): (r: Option<int>)
    ensures openFaq == Some(index) ==> r.None?
    ensures openFaq != Some(index) ==> r == Some(index)
  {
    if openFaq == Some(index) then None else Some(index)
  }

  /** Toggling a question twice restores the accordion when no other answer was open before; when another one
      was, the second click closes everything instead of reopening it. */
  lemma ToggleTwice(openFaq: Option<int>, index: int)
    ensures openFaq == None || openFaq == Some(index) ==> Toggled(Toggled(openFaq, index), index) == openFaq
    ensures openFaq.Some? && openFaq.value != index ==> Toggled(Toggled(openFaq, index), index) == None
  {
  }

  /** Whatever is open, a click on question `index` leaves exactly that one open or none: the answer shown is
      never one the user did not just click. */
  lemma ToggleOpensOnlyClicked(openFaq: Option<int>, index: int, j: int)
    ensures Toggled(openFaq, index) == Some(j) ==> j == index
    ensures Toggled(openFaq, index).None? <==> openFaq == Some(index)
  {
  }

  class Accordion {
    var openFaq: Option<int>

    /** Question `i`'s answer is rendered. */
    predicate IsOpen(i: int)
      reads this
    {
      openFaq == Some(i)
    }

    constructor()
      ensures forall i :: !IsOpen(i)
    {
      openFaq := None;
    }

    /** `toggleFaq`: closes question `index` if it is the open one, otherwise opens it and so closes any other. */
    method ToggleFaq(index: int)
      modifies this
      ensures openFaq == Toggled(old(openFaq), index)
      ensures forall i :: IsOpen(i) <==> i == index && old(openFaq) != Some(index)
    {
      openFaq := if openFaq == Some(index) then None else Some(index);
    }
  }
}
