/** Facts about sequence concatenation that the proofs invoke explicitly. */
module Sequences {

  /** Concatenation is associative; stating it at a call site saves the prover a search. */
  lemma Associative<T>(a: seq<T>, b: seq<T>, c: seq<T>)
    ensures (a + b) + c == a + (b + c)
  {
  }

  /** An empty prefix changes nothing. */
  lemma EmptyPrefix<T>(e: seq<T>, s: seq<T>)
    requires e == []
    ensures e + s == s
  {
  }
}
