/** Finite sets of integers: picking members and putting them in order. */
module Collections {

  lemma EmptyOrHasMember(s: set<int>)
    ensures s == {} || exists x :: x in s
  {
    if !exists x :: x in s {
      assert s == {};
    }
  }

  method Smallest(s: set<int>) returns (m: int)
    requires s != {}
    ensures m in s && forall t :: t in s ==> m <= t
  {
    EmptyOrHasMember(s);
    m :| m in s;
    var rest := s - {m};
    while rest != {}
      invariant m in s && rest <= s
      invariant forall t :: t in s ==> t in rest || m <= t
      decreases rest
    {
      EmptyOrHasMember(rest);
      var t :| t in rest;
      if t < m {
        m := t;
      }
      rest := rest - {t};
    }
  }

  ghost predicate Increasing(s: seq<int>) { forall i, j :: 0 <= i < j < |s| ==> s[i] < s[j] }

  /** The members of a set, in order. */
  method InOrder(members: set<int>) returns (sorted: seq<int>)
    ensures Increasing(sorted) && forall t :: t in sorted <==> t in members
  {
    sorted := [];
    var rest := members;
    while rest != {}
      invariant Increasing(sorted) && rest <= members
      invariant forall t :: t in sorted <==> t in members && t !in rest
      invariant forall t, u :: t in sorted && u in rest ==> t < u
      decreases rest
    {
      var least := Smallest(rest);
      assert forall i :: 0 <= i < |sorted| ==> sorted[i] in sorted;
      sorted := sorted + [least];
      rest := rest - {least};
    }
  }
}
