/** There is always another name: what "a new id" rests on when a run is built. */
module Naming {
  lemma {:induction false} LongestName(taken: set<string>) returns (n: nat)
    ensures forall x :: x in taken ==> |x| <= n
  {
    if taken == {} {
      n := 0;
    } else {
      var x :| x in taken;
      n := LongestName(taken - {x});
      n := if |x| > n then |x| else n;
    }
  }

  function Repeated(n: nat): string {
    seq(n, _ => 'a')
  }

  lemma NewName(taken: set<string>) returns (name: string)
    ensures name !in taken && name != "" && forall i :: 0 <= i < |name| ==> name[i] == 'a'
  {
    var n := LongestName(taken);
    name := Repeated(n + 1);
  }

  lemma {:induction false} NewNumber(taken: set<int>) returns (n: int)
    ensures forall x :: x in taken ==> x < n
    decreases |taken|
  {
    n := 0;
    if x :| x in taken {
      var m := NewNumber(taken - {x});
      n := if x >= m then x + 1 else m;
      forall y | y in taken ensures y < n {
        assert y != x ==> y in taken - {x};
      }
    }
  }
}
