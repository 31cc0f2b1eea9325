/**
 * The public attributes `RadioField` adds to the base field, with their
 * declared defaults. The class has no methods of its own.
 */
module Radio {
  import opened Php

  datatype RadioAttributes = RadioAttributes(
    choices: Value,
    otherChoice: Value,
    saveOtherChoice: Value,
    layout: Value)

  /** The property names, in declaration order. */
  const Names: seq<Bytes> := ["choices", "other_choice", "save_other_choice", "layout"]

  /**
   * The declared defaults of a fresh radio field. `layout` is the integer
   * 0 as declared, although its documentation names 'vertical'.
   */
  const Defaults: RadioAttributes := RadioAttributes(
    choices := Arr([]),
    otherChoice := Int(0),
    saveOtherChoice := Int(0),
    layout := Int(0))

  /** The radio properties as name/value pairs, in declaration order. */
  function Entries(r: RadioAttributes): (e: Entries)
    ensures Keys(e) == Names
  {
    [("choices", r.choices), ("other_choice", r.otherChoice),
     ("save_other_choice", r.saveOtherChoice), ("layout", r.layout)]
  }

  /** A fresh radio field has no choices, both flags 0, and the integer 0 as layout. */
  lemma DefaultValues()
    ensures Defaults.choices == Arr([])
    ensures Defaults.otherChoice == Int(0) && Defaults.saveOtherChoice == Int(0)
    ensures Defaults.layout == Int(0) && Defaults.layout != Str("vertical")
  {
  }

  /** None of the defaults is null, so every one of them passes `isset`. */
  lemma DefaultsAreSet()
    ensures forall i :: 0 <= i < |Entries(Defaults)| ==> IsSet(Entries(Defaults)[i].1)
  {
  }
}
