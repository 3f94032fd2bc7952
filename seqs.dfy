/** Concatenating the pieces a function gives for each element of a sequence. */
module Seqs {

  function ConcatMap<A, B>(f: A -> seq<B>, xs: seq<A>): seq<B>
    decreases |xs|
  {
    if xs == [] then [] else f(xs[0]) + ConcatMap(f, xs[1..])
  }

  lemma {:induction false} ConcatMapSnoc<A, B>(f: A -> seq<B>, xs: seq<A>, x: A)
    ensures ConcatMap(f, xs + [x]) == ConcatMap(f, xs) + f(x)
    decreases |xs|
  {
    if xs == [] {
      assert [x][1..] == [];
    } else {
      assert (xs + [x])[0] == xs[0];
      assert (xs + [x])[1..] == xs[1..] + [x];
      ConcatMapSnoc(f, xs[1..], x);
    }
  }

  /**
   * Prover hint: re-associates a concatenation. Stated over a generic element
   * type so that the solver does not unfold the elements of a concrete one.
   */
  lemma AppendAssoc<A>(a: seq<A>, b: seq<A>, c: seq<A>)
    ensures (a + b) + c == a + (b + c)
  {
  }

  /** Prover hint: dropping a prefix from a concatenation leaves the rest. */
  lemma DropPrefix<A>(a: seq<A>, t: seq<A>)
    ensures (a + t)[|a|..] == t
  {
  }
}
