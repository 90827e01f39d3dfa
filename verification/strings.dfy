/** String utilities: the recursive reversal of src/string.ts. */
module Strings {

  /** Reverses a sequence by moving its head behind the reversed tail. */
  function Reversed<T>(s: seq<T>): (r: seq<T>)
    ensures |r| == |s|
    ensures forall i :: 0 <= i < |s| ==> r[i] == s[|s| - 1 - i]
  {
    if s == [] then [] else Reversed(s[1..]) + [s[0]]
  }

  /** The empty string is its own reversal. */
  lemma ReversedEmpty<T>()
    ensures Reversed<T>([]) == []
  {
  }

  /** Reversing twice gives the input back. */
  lemma {:induction false} ReversedInvolution<T>(s: seq<T>)
    ensures Reversed(Reversed(s)) == s
  {
    var r := Reversed(Reversed(s));
    assert forall i :: 0 <= i < |s| ==> r[i] == s[i] by {
      forall i | 0 <= i < |s|
        ensures r[i] == s[i]
      {
        assert r[i] == Reversed(s)[|s| - 1 - i];
      }
    }
  }

  /** Reversal turns a concatenation around. */
  lemma {:induction false} ReversedConcat<T>(a: seq<T>, b: seq<T>)
    ensures Reversed(a + b) == Reversed(b) + Reversed(a)
  {
    var l := Reversed(a + b);
    var r := Reversed(b) + Reversed(a);
    assert |l| == |r|;
    forall i | 0 <= i < |l|
      ensures l[i] == r[i]
    {
      if i < |b| {
        assert r[i] == b[|b| - 1 - i];
      } else {
        assert r[i] == Reversed(a)[i - |b|];
      }
    }
  }

  /** Reversal keeps exactly the elements it is given. */
  lemma {:induction false} ReversedElements<T>(s: seq<T>)
    ensures forall x :: x in Reversed(s) <==> x in s
  {
    var r := Reversed(s);
    forall x
      ensures x in r <==> x in s
    {
      if x in r {
        var i :| 0 <= i < |r| && r[i] == x;
        assert s[|s| - 1 - i] == x;
      }
      if x in s {
        var j :| 0 <= j < |s| && s[j] == x;
        assert r[|s| - 1 - j] == x;
      }
    }
  }
}
