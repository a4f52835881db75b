/** Lists of request and group numbers, as the kernel's linked lists hold them. */
module Lists {

  datatype Option<T> = None | Some(value: T)

  /** list_del */
  function Without(l: seq<nat>, r: nat): (m: seq<nat>)
    ensures forall x :: x in m <==> x in l && x != r
    ensures |m| <= |l|
  {
    if l == [] then [] else if l[0] == r then Without(l[1..], r) else [l[0]] + Without(l[1..], r)
  }

  ghost predicate NoDup(l: seq<nat>) { forall i, j :: 0 <= i < j < |l| ==> l[i] != l[j] }

  lemma {:induction false} WithoutNoDup(l: seq<nat>, r: nat)
    requires NoDup(l)
    ensures NoDup(Without(l, r))
    ensures r !in l ==> Without(l, r) == l
    ensures l != [] && l[0] == r ==> Without(l, r) == l[1..]
  {
    if l != [] {
      WithoutNoDup(l[1..], r);
      if l[0] == r {
        assert r !in l[1..];
      } else {
        assert l == [l[0]] + l[1..];
        assert l[0] !in Without(l[1..], r);
      }
    }
  }
}
