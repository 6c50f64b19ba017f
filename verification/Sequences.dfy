/** Facts about sequences that do not belong to any one component. */
module Sequences {

  lemma {:induction false} ConcatIsAssociative<X>(a: seq<X>, b: seq<X>, c: seq<X>)
    ensures (a + b) + c == a + (b + c)
  {
  }
}
