/** Many-to-many membership as the serializers build it: `relation.add(x)` appends a
    member that is not already present and leaves the relation unchanged otherwise.
    Members are kept in the order they were added. */
module Memberships {

  predicate Distinct<T(==,!new)>(s: seq<T>) {
    forall i, j :: 0 <= i < j < |s| ==> s[i] != s[j]
  }

  /** `relation.add(x)`. */
  function AddMember<T(==,!new)>(members: seq<T>, x: T): (r: seq<T>)
    ensures forall y :: y in r <==> y in members || y == x
    ensures Distinct(members) ==> Distinct(r)
    ensures |members| <= |r| && r[..|members|] == members
  {
    if x in members then members else members + [x]
  }

  /** `for x in xs: relation.add(x)`. */
  function AddAll<T(==,!new)>(members: seq<T>, xs: seq<T>): (r: seq<T>)
    ensures forall y :: y in r <==> y in members || y in xs
    ensures Distinct(members) ==> Distinct(r)
    ensures |members| <= |r| && r[..|members|] == members
    ensures forall i :: |members| <= i < |r| ==> r[i] !in members && r[i] in xs
    decreases |xs|
  {
    if |xs| == 0 then members
    else
      var added := AddMember(members, xs[0]);
      var r := AddAll(added, xs[1..]);
      assert forall y :: y in xs <==> y == xs[0] || y in xs[1..];
      assert forall i :: |members| <= i < |r| ==> r[i] !in members && r[i] in xs by {
        forall i | |members| <= i < |r|
          ensures r[i] !in members && r[i] in xs
        {
          if i < |added| {
            assert r[i] == added[i];
          }
        }
      }
      r
  }

  /** Adding what is already there changes nothing. */
  lemma {:induction false} AddAllPresent<T(!new)>(members: seq<T>, xs: seq<T>)
    requires forall x :: x in xs ==> x in members
    ensures AddAll(members, xs) == members
    decreases |xs|
  {
    if |xs| > 0 {
      assert xs[0] in members;
      AddAllPresent(members, xs[1..]);
    }
  }

  /** A relation filled from empty by `xs` and then `ys`: each member exactly once. */
  function Fresh<T(==,!new)>(xs: seq<T>, ys: seq<T>): (r: seq<T>)
    ensures forall y :: y in r <==> y in xs || y in ys
    ensures Distinct(r)
  {
    AddAll(AddAll([], xs), ys)
  }

  /** The elements that pass `keep`, in their order: a queryset filter. */
  function Keep<T(!new)>(s: seq<T>, keep: T -> bool): (r: seq<T>)
    ensures forall x :: x in r <==> x in s && keep(x)
    ensures |r| <= |s|
    decreases |s|
  {
    if |s| == 0 then []
    else if keep(s[0]) then [s[0]] + Keep(s[1..], keep)
    else Keep(s[1..], keep)
  }

  /** Filtering a concatenation filters each part. */
  lemma {:induction false} KeepAppend<T(!new)>(a: seq<T>, b: seq<T>, keep: T -> bool)
    ensures Keep(a + b, keep) == Keep(a, keep) + Keep(b, keep)
    decreases |a|
  {
    if |a| > 0 {
      assert (a + b)[1..] == a[1..] + b;
      KeepAppend(a[1..], b, keep);
    } else {
      assert a + b == b;
    }
  }

  /** A filter every element passes keeps the whole sequence. */
  lemma {:induction false} KeepAll<T(!new)>(s: seq<T>, keep: T -> bool)
    requires forall x :: x in s ==> keep(x)
    ensures Keep(s, keep) == s
    decreases |s|
  {
    if |s| > 0 {
      assert forall x :: x in s[1..] ==> x in s;
      KeepAll(s[1..], keep);
    }
  }

  /** A filter no element passes keeps nothing. */
  lemma {:induction false} KeepNone<T(!new)>(s: seq<T>, keep: T -> bool)
    requires forall i :: 0 <= i < |s| ==> !keep(s[i])
    ensures Keep(s, keep) == []
    decreases |s|
  {
    if |s| > 0 {
      KeepNone(s[1..], keep);
    }
  }

  /** Filtering keeps a sequence free of duplicates. */
  lemma {:induction false} KeepDistinct<T(!new)>(s: seq<T>, keep: T -> bool)
    requires Distinct(s)
    ensures Distinct(Keep(s, keep))
    decreases |s|
  {
    if |s| > 0 {
      KeepDistinct(s[1..], keep);
      assert s[0] !in s[1..];
    }
  }
}
