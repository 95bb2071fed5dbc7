/** Facts about sequences that more than one module needs. */
module Sequences {

  /** Chaining two balances, "what was there and came in is what went out and is there now". */
  lemma Chain<T>(start: seq<T>, in0: seq<T>, out0: seq<T>, mid: seq<T>, in1: seq<T>, out1: seq<T>, end: seq<T>)
    requires start + in0 == out0 + mid && mid + in1 == out1 + end
    ensures start + (in0 + in1) == (out0 + out1) + end
  {
    calc {
      start + (in0 + in1);
      (start + in0) + in1;
      (out0 + mid) + in1;
      out0 + (mid + in1);
      out0 + (out1 + end);
      (out0 + out1) + end;
    }
  }

  lemma MultisetConcat<T>(a: seq<T>, b: seq<T>)
    ensures multiset(a + b) == multiset(a) + multiset(b)
  {
  }

  lemma MultisetCancel<T>(a: multiset<T>, s: seq<T>, b: multiset<T>)
    requires a + b == a + multiset(s) + b
    ensures s == []
  {
    forall x: T ensures multiset(s)[x] == 0 {
      assert (a + b)[x] == (a + multiset(s) + b)[x];
    }
    assert |s| == |multiset(s)|;
  }

  /** The same for balances that do not keep the order and have two ways out. */
  lemma MultisetChain<T>(start: multiset<T>, in0: multiset<T>, out0: multiset<T>, lost0: multiset<T>,
                         mid: multiset<T>, in1: multiset<T>, out1: multiset<T>, lost1: multiset<T>, end: multiset<T>)
    requires start + in0 == out0 + lost0 + mid && mid + in1 == out1 + lost1 + end
    ensures start + (in0 + in1) == (out0 + out1) + (lost0 + lost1) + end
  {
    forall x: T ensures (start + (in0 + in1))[x] == ((out0 + out1) + (lost0 + lost1) + end)[x] {
      assert (start + in0)[x] == (out0 + lost0 + mid)[x];
      assert (mid + in1)[x] == (out1 + lost1 + end)[x];
    }
  }
}
