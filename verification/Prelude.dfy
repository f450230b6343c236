/** Vocabulary shared by the models of the individual source files. */
module Prelude {
  datatype Option<+T> = None | Some(value: T) {
    function GetOr(default: T): T {
      match this
      case None => default
      case Some(v) => v
    }
  }

  function Max(a: int, b: int): int {
    if a >= b then a else b
  }

  function Min(a: int, b: int): int {
    if a <= b then a else b
  }

  /** A node number: one to ten digits. */
  predicate Numeric(s: string) {
    1 <= |s| <= 10 && forall i :: 0 <= i < |s| ==> '0' <= s[i] <= '9'
  }

  lemma SizeOfSubmap<K, V>(a: map<K, V>, b: map<K, V>)
    requires a.Keys <= b.Keys
    ensures |a| <= |b|
  {
    SizeOfSubset(a.Keys, b.Keys);
    assert |a| == |a.Keys| && |b| == |b.Keys|;
  }

  lemma {:induction false} SizeOfSubset<T>(a: set<T>, b: set<T>)
    requires a <= b
    ensures |a| <= |b|
    decreases a
  {
    if a != {} {
      var x :| x in a;
      SizeOfSubset(a - {x}, b - {x});
    }
  }

  lemma GrowsByOne<K, V>(a: map<K, V>, key: K, value: V)
    ensures |a[key := value]| == if key in a then |a| else |a| + 1
  {
    var more := a[key := value];
    assert |more| == |more.Keys| && |a| == |a.Keys|;
    assert more.Keys == a.Keys + {key};
    if key in a {
      assert more.Keys == a.Keys;
    }
  }
}
