// Small vocabulary shared by the other modules.
module Common {

  datatype Option<+T> = None | Some(value: T)

  // No element occurs twice.
  ghost predicate NoDuplicates<T>(s: seq<T>) {
    forall i, j :: 0 <= i < j < |s| ==> s[i] != s[j]
  }

  // vals is obtained from history by leaving out elements, keeping the order.
  ghost predicate SubsequenceOf<T>(vals: seq<T>, history: seq<T>) {
    exists idx: seq<nat> :: SelectedBy(vals, history, idx)
  }

  ghost predicate SelectedBy<T>(vals: seq<T>, history: seq<T>, idx: seq<nat>) {
    && |idx| == |vals|
    && (forall i, j :: 0 <= i < j < |idx| ==> idx[i] < idx[j])
    && (forall i :: 0 <= i < |idx| ==> idx[i] < |history| && history[idx[i]] == vals[i])
  }

  // Position of the first occurrence of x, or |s|.
  function IndexOf<T(==)>(s: seq<T>, x: T): (i: nat)
    ensures i <= |s|
    ensures i < |s| ==> s[i] == x
    ensures x !in s[..i]
    ensures i == |s| <==> x !in s
  {
    if s == [] then 0
    else if s[0] == x then 0
    else 1 + IndexOf(s[1..], x)
  }

  lemma NothingIn<T>(s: set<T>)
    requires forall x :: x !in s
    ensures s == {}
  {
  }

  // An element of a set that is not empty.
  lemma Pick<T>(s: set<T>) returns (x: T)
    requires s != {}
    ensures x in s
  {
    if forall y :: y !in s {
      NothingIn(s);
    }
    x :| x in s;
  }

  lemma {:induction false} SubsetSize<T>(a: set<T>, b: set<T>)
    requires a <= b
    ensures |a| <= |b|
  {
    if a == {} {
    } else {
      var x := Pick(a);
      SubsetSize(a - {x}, b - {x});
    }
  }
}
