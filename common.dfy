/** Value helpers shared by every part of the model: the optional value of
    TypeScript's `?:` fields (and Java's null), and the array combinators the
    pages and the store use (`map`, `filter`, `reduce` with `+`, `new Set(...)`). */
module Common {

  /** An optional value: `undefined` / `null` is `None`. */
  datatype Option<+T> = None | Some(value: T) {

    /** `o ?? fallback` */
    function GetOr(fallback: T): T {
      match this
      case Some(v) => v
      case None => fallback
    }
  }

  /** `s.map(f)` */
  function Map<T, U>(s: seq<T>, f: T -> U): (r: seq<U>)
    ensures |r| == |s|
    ensures forall i :: 0 <= i < |s| ==> r[i] == f(s[i])
  {
    if s == [] then [] else [f(s[0])] + Map(s[1..], f)
  }

  /** `r` is obtained from `s` by deleting elements, keeping the order of the rest. */
  ghost predicate IsSubsequence<T>(r: seq<T>, s: seq<T>)
    decreases |s|
  {
    r == [] || (s != [] && ((r[0] == s[0] && IsSubsequence(r[1..], s[1..])) || IsSubsequence(r, s[1..])))
  }

  /** Deleting nothing keeps the whole sequence. */
  lemma {:induction false} SubsequenceOfItself<T>(s: seq<T>)
    ensures IsSubsequence(s, s)
    decreases |s|
  {
    if s != [] {
      SubsequenceOfItself(s[1..]);
    }
  }

  /** `s.filter(p)`: exactly the elements satisfying `p`, in their original order. */
  function Filter<T(!new)>(s: seq<T>, p: T -> bool): (r: seq<T>)
    ensures |r| <= |s|
    ensures forall x :: x in r <==> x in s && p(x)
    ensures forall i :: 0 <= i < |r| ==> p(r[i])
    ensures IsSubsequence(r, s)
    ensures (forall i :: 0 <= i < |s| ==> p(s[i])) ==> r == s
  {
    if s == [] then []
    else
      var rest := Filter(s[1..], p);
      assert forall x :: x in s <==> x == s[0] || x in s[1..];
      if p(s[0]) then
        assert ([s[0]] + rest)[1..] == rest;
        [s[0]] + rest
      else rest
  }

  /** `s.filter(p).length` */
  function Count<T(!new)>(s: seq<T>, p: T -> bool): nat {
    |Filter(s, p)|
  }

  /** `s.reduce((sum, x) => sum + f(x), 0)` over exact reals. */
  function SumOf<T>(s: seq<T>, f: T -> real): real {
    if s == [] then 0.0 else f(s[0]) + SumOf(s[1..], f)
  }

  /** `new Set(s.map(f))`, as a set. */
  function Image<T(==), U>(s: seq<T>, f: T -> U): set<U> {
    set x | x in s :: f(x)
  }

  /** A set built from a list is never larger than the list. */
  lemma {:induction false} ImageSize<T, U>(s: seq<T>, f: T -> U)
    ensures |Image(s, f)| <= |s|
  {
    if s != [] {
      ImageSize(s[1..], f);
      assert forall x :: x in s <==> x == s[0] || x in s[1..];
      assert Image(s, f) == {f(s[0])} + Image(s[1..], f);
    }
  }

  /** No element occurs twice. */
  predicate NoDuplicates<T(==)>(s: seq<T>) {
    forall i, j :: 0 <= i < j < |s| ==> s[i] != s[j]
  }

  /** Without duplicates, every element occurs at most once. */
  lemma {:induction false} CountAtMostOne<T>(s: seq<T>, x: T)
    requires NoDuplicates(s)
    ensures multiset(s)[x] <= 1
  {
    if s != [] {
      assert s == [s[0]] + s[1..];
      CountAtMostOne(s[1..], x);
      if s[0] == x {
        assert x !in s[1..];
      }
    }
  }

  /** Reordering a list without duplicates yields a list without duplicates. */
  lemma PermutationKeepsNoDuplicates<T>(s: seq<T>, r: seq<T>)
    requires multiset(r) == multiset(s) && NoDuplicates(s)
    ensures NoDuplicates(r)
  {
    forall i, j | 0 <= i < j < |r| ensures r[i] != r[j] {
      if r[i] == r[j] {
        assert r == r[..j] + r[j..];
        assert r[..j][i] == r[i] && r[j..][0] == r[i];
        assert multiset(r)[r[i]] == multiset(r[..j])[r[i]] + multiset(r[j..])[r[i]];
        CountAtMostOne(s, r[i]);
      }
    }
  }

  /** `s.indexOf(x)` for an element of `s`: the position of its first occurrence. */
  function FirstIndex<T(==)>(s: seq<T>, x: T): (r: nat)
    requires x in s
    ensures r < |s| && s[r] == x
    ensures forall j :: 0 <= j < r ==> s[j] != x
  {
    if s[0] == x then 0
    else
      assert forall j :: 1 <= j < |s| ==> s[j] == s[1..][j - 1];
      1 + FirstIndex(s[1..], x)
  }

  /** An element already in a prefix first occurs where it first occurs in the prefix. */
  lemma FirstIndexInPrefix<T>(s: seq<T>, k: nat)
    requires k <= |s|
    ensures forall x :: x in s[..k] ==> FirstIndex(s, x) == FirstIndex(s[..k], x)
  {
    forall x | x in s[..k] ensures FirstIndex(s, x) == FirstIndex(s[..k], x) {
      var a, b := FirstIndex(s[..k], x), FirstIndex(s, x);
      assert s[a] == s[..k][a];
    }
  }

  /** `[...new Set(s)]`: the distinct elements of `s`, in order of first appearance. */
  function Distinct<T(==,!new)>(s: seq<T>): (r: seq<T>)
    ensures forall x :: x in r <==> x in s
    ensures NoDuplicates(r)
    ensures forall i, j :: 0 <= i < j < |r| ==> FirstIndex(s, r[i]) < FirstIndex(s, r[j])
    ensures |r| <= |s|
  {
    if s == [] then []
    else
      var p, x := s[..|s| - 1], s[|s| - 1];
      var d := Distinct(p);
      assert s == p + [x];
      FirstIndexInPrefix(s, |s| - 1);
      if x in p then d
      else
        var r := d + [x];
        assert forall j :: 0 <= j < |d| ==> r[j] == d[j];
        assert FirstIndex(s, x) == |p|;
        r
  }

  /** `[...new Set(s)]` lists the elements in order of first appearance: every
      occurrence of a later entry is preceded by an occurrence of an earlier one. */
  lemma DistinctInOrder<T(!new)>(s: seq<T>)
    ensures var r := Distinct(s);
            forall i, j, b :: 0 <= i < j < |r| && 0 <= b < |s| && s[b] == r[j] ==>
              exists a :: 0 <= a < b && s[a] == r[i]
  {
    var r := Distinct(s);
    forall i, j, b | 0 <= i < j < |r| && 0 <= b < |s| && s[b] == r[j]
      ensures exists a :: 0 <= a < b && s[a] == r[i]
    {
      var a := FirstIndex(s, r[i]);
      assert s[a] == r[i];
    }
  }

  /** The `filter` / `reduce` pair of the dashboards: summing over the kept
      elements is summing `f` where `p` holds and 0 elsewhere. */
  lemma {:induction false} SumOfFilter<T(!new)>(s: seq<T>, p: T -> bool, f: T -> real)
    ensures SumOf(Filter(s, p), f) == SumOf(s, x => if p(x) then f(x) else 0.0)
  {
    if s != [] {
      SumOfFilter(s[1..], p, f);
      if p(s[0]) {
        assert ([s[0]] + Filter(s[1..], p))[1..] == Filter(s[1..], p);
      }
    }
  }

  /** Two predicates that never hold together select at most the whole list between them. */
  lemma {:induction false} DisjointCounts<T(!new)>(s: seq<T>, p: T -> bool, q: T -> bool)
    requires forall x :: !(p(x) && q(x))
    ensures Count(s, p) + Count(s, q) <= |s|
  {
    if s != [] {
      DisjointCounts(s[1..], p, q);
    }
  }

  /** Splitting a sequence by a predicate loses nothing. */
  lemma {:induction false} CountComplement<T(!new)>(s: seq<T>, p: T -> bool)
    ensures Count(s, p) + Count(s, x => !p(x)) == |s|
  {
    if s != [] {
      CountComplement(s[1..], p);
    }
  }
}

/** The signed-in user of the frontend (`User` of src/contexts/AuthContext.tsx). */
module Auth {
  import opened Common

  datatype UserRole = Admin | Donor | Recipient | Analyst

  datatype User = User(id: string, name: string, email: string, role: Option<UserRole>,
                       organizationName: Option<string>)

  /** `user?.id || ''` */
  function IdOrEmpty(user: Option<User>): (r: string)
    ensures user.Some? ==> r == user.value.id
    ensures user.None? ==> r == ""
  {
    match user
    case Some(u) => u.id
    case None => ""
  }

  /** `user?.id` */
  function IdOf(user: Option<User>): (r: Option<string>)
    ensures r.Some? <==> user.Some?
    ensures user.Some? ==> r.value == user.value.id
  {
    match user
    case Some(u) => Some(u.id)
    case None => None
  }

  /** `user?.organizationName`: absent without a user and for a user without one. */
  function OrganizationOf(user: Option<User>): (r: Option<string>)
    ensures user.None? ==> r.None?
    ensures user.Some? ==> r == user.value.organizationName
  {
    match user
    case Some(u) => u.organizationName
    case None => None
  }

  /** `user?.organizationName || user?.name || ''`: JavaScript's `||` also skips the empty string. */
  function DisplayName(user: Option<User>): (r: string)
    ensures user.None? ==> r == ""
    ensures user.Some? && user.value.organizationName.Some? && user.value.organizationName.value != "" ==>
              r == user.value.organizationName.value
    ensures user.Some? && (user.value.organizationName.None? || user.value.organizationName.value == "") ==>
              r == user.value.name
  {
    match user
    case None => ""
    case Some(u) =>
      if u.organizationName.Some? && u.organizationName.value != "" then u.organizationName.value
      else u.name
  }
}
