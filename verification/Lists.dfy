/**
  The kernel's intrusive lists (include/kernel/lists.h) read as sequences, head first.

  DLIST_ADD_TAIL appends, DLIST_REM_HEAD drops the first element, DLIST_REM_ENTRY
  is `Without`, and CIRCLEQ_FORWARD is `Forward`.
 */
module Lists {

  datatype Option<+T> = None | Some(value: T)

  ghost predicate NoDup<T>(s: seq<T>) {
    forall i, j :: 0 <= i < j < |s| ==> s[i] != s[j]
  }

  /** DLIST_REM_ENTRY / CIRCLEQ_REM_ENTRY: the list with one entry unlinked. */
  function Without<T(==,!new)>(s: seq<T>, x: T): (r: seq<T>)
    ensures forall y :: y in r <==> y in s && y != x
    ensures NoDup(s) ==> NoDup(r)
    ensures x !in s ==> r == s
    ensures |r| <= |s|
    ensures x in s ==> |r| < |s|
  {
    if s == [] then []
    else if s[0] == x then Without(s[1..], x)
    else
      assert NoDup(s) ==> s[0] !in s[1..];
      [s[0]] + Without(s[1..], x)
  }

  /** CIRCLEQ_FORWARD: the ring advanced by one entry. */
  function Forward<T(!new)>(s: seq<T>): (r: seq<T>)
    ensures |r| == |s|
    ensures forall y :: y in r <==> y in s
    ensures NoDup(s) ==> NoDup(r)
  {
    if s == [] then [] else s[1..] + [s[0]]
  }

  /** Unlinking the head is DLIST_REM_HEAD. */
  lemma WithoutHead<T(!new)>(s: seq<T>)
    requires NoDup(s) && s != []
    ensures Without(s, s[0]) == s[1..]
  {
    assert s[0] !in s[1..];
  }

  /** Unlinking an entry leaves the others in their order. */
  lemma {:induction false} WithoutAt<T(!new)>(s: seq<T>, i: nat)
    requires NoDup(s) && i < |s|
    ensures Without(s, s[i]) == s[..i] + s[i + 1..]
    decreases i
  {
    if i == 0 {
      WithoutHead(s);
      assert s[..0] + s[1..] == s[1..];
    } else {
      NoDupTail(s);
      WithoutAt(s[1..], i - 1);
      assert s[1..][..i - 1] == s[1..i] && s[1..][i..] == s[i + 1..];
      assert [s[0]] + (s[1..i] + s[i + 1..]) == s[..i] + s[i + 1..];
    }
  }

  lemma NoDupAppend<T>(s: seq<T>, x: T)
    requires NoDup(s) && x !in s
    ensures NoDup(s + [x])
  {
  }

  lemma NoDupTail<T(!new)>(s: seq<T>)
    requires NoDup(s) && s != []
    ensures NoDup(s[1..]) && s[0] !in s[1..]
    ensures forall x :: x in s <==> x == s[0] || x in s[1..]
  {
    assert s == [s[0]] + s[1..];
  }

  lemma Differ<T>(q: seq<T>, i: nat, j: nat)
    requires NoDup(q) && i < j < |q|
    ensures q[i] in q && q[j] in q && q[i] != q[j]
  {
  }

  lemma AtMostOne<T>(q: seq<T>, x: T)
    requires NoDup(q) && forall y :: y in q ==> y == x
    ensures q == if x in q then [x] else []
  {
    assert q != [] ==> q[0] in q;
    if |q| > 1 {
      Differ(q, 0, 1);
    }
  }
}
