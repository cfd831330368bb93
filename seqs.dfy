/** Regrouping facts about sequence concatenation, used by the proofs about
    joined lines and appended association entries. */
module Seqs {

  lemma AppendAssociative<T>(a: seq<T>, b: seq<T>, c: seq<T>)
    ensures a + (b + c) == a + b + c
  {
  }

  lemma PrependTwo<T>(x: T, y: T, l: seq<T>, z: seq<T>)
    ensures [x] + ([y] + (l + z)) == [x, y] + l + z
  {
  }

  lemma Regroup<T>(a: seq<T>, sep: seq<T>, b: seq<T>, c: seq<T>)
    ensures a + sep + b + sep + c + sep == a + sep + (b + sep + (c + sep))
  {
  }
}
