/** Small facts about sequences. */
module Sequences {

  lemma Regroup<T>(a: seq<T>, b: seq<T>, c: seq<T>)
    ensures (a + b) + c == a + (b + c)
  {
  }

  lemma Holds<T>(s: seq<T>, i: nat)
    requires i < |s|
    ensures s[i] in s
  {
  }
}
