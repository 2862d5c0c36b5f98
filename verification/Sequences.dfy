/** Sequences of sequences. */
module Sequences {
  function Flatten<T>(ms: seq<seq<T>>): seq<T> {
    if ms == [] then [] else ms[0] + Flatten(ms[1..])
  }

  lemma {:induction false} FlattenAppend<T>(ms: seq<seq<T>>, m: seq<T>)
    ensures Flatten(ms + [m]) == Flatten(ms) + m
  {
    if ms == [] {
      assert [] + [m] == [m] && [m][1..] == [];
    } else {
      FlattenAppend(ms[1..], m);
      assert (ms + [m])[1..] == ms[1..] + [m];
      assert Flatten(ms) + m == ms[0] + (Flatten(ms[1..]) + m);
    }
  }

  lemma Flatten1<T>(a: seq<T>)
    ensures Flatten([a]) == a
  {
    assert [a][1..] == [];
  }

  lemma Flatten2<T>(a: seq<T>, b: seq<T>)
    ensures Flatten([a, b]) == a + b
  {
    assert [a, b][1..] == [b];
    Flatten1(b);
  }
}
