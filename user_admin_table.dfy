/** The user administration table (src/components/ExampleUserAdminTable.tsx):
    the search filter over the fixed user list, the in-place sort by the
    chosen column and direction, and row deletion. `toLowerCase` is modelled
    on ASCII letters. */
module UserAdminTable {
  import opened Common

  datatype AdminUser = AdminUser(
    id: string, name: string, email: string, role: string, totalDonations: int, createdAt: string)

  /** `allUsers` */
  const AllUsers: seq<AdminUser> := [
    AdminUser("1", "John Doe", "john@example.com", "DONOR", 5, "2024-01-15"),
    AdminUser("2", "Jane Smith", "jane@example.com", "CLAIMANT", 0, "2024-01-20"),
    AdminUser("3", "Admin User", "admin@example.com", "ADMIN", 3, "2024-01-01"),
    AdminUser("4", "Alice Johnson", "alice@example.com", "DONOR", 12, "2024-01-10"),
    AdminUser("5", "Bob Wilson", "bob@example.com", "CLAIMANT", 2, "2024-01-18")
  ]

  // ------------------------------------------------------------ strings

  function LowerChar(c: char): char {
    if 'A' <= c <= 'Z' then (c as int + 32) as char else c
  }

  /** `s.toLowerCase()` on ASCII letters. */
  function Lower(s: string): (r: string)
    ensures |r| == |s|
    ensures forall i :: 0 <= i < |s| ==> r[i] == LowerChar(s[i])
  {
    if s == [] then [] else [LowerChar(s[0])] + Lower(s[1..])
  }

  /** `q` occurs in `s` from position `i` on. */
  predicate OccursAt(s: string, q: string, i: int) {
    0 <= i && i + |q| <= |s| && s[i..i + |q|] == q
  }

  /** `s.includes(q)` */
  predicate Includes(s: string, q: string) {
    exists i :: 0 <= i <= |s| && OccursAt(s, q, i)
  }

  /** JavaScript's `x < y` on strings: a proper prefix comes first, otherwise the
      first differing character decides. */
  predicate LexLess(x: string, y: string)
    decreases |x|
  {
    if x == [] then y != []
    else if y == [] then false
    else if x[0] != y[0] then x[0] < y[0]
    else LexLess(x[1..], y[1..])
  }

  lemma {:induction false} LexIrreflexive(x: string)
    ensures !LexLess(x, x)
    decreases |x|
  {
    if x != [] {
      LexIrreflexive(x[1..]);
    }
  }

  lemma {:induction false} LexAsymmetric(x: string, y: string)
    ensures !(LexLess(x, y) && LexLess(y, x))
    decreases |x|
  {
    if x != [] && y != [] && x[0] == y[0] {
      LexAsymmetric(x[1..], y[1..]);
    }
  }

  lemma {:induction false} LexTransitive(x: string, y: string, z: string)
    requires LexLess(x, y) && LexLess(y, z)
    ensures LexLess(x, z)
    decreases |x|
  {
    if x != [] && x[0] == y[0] && y[0] == z[0] {
      LexTransitive(x[1..], y[1..], z[1..]);
    }
  }

  lemma {:induction false} LexTotal(x: string, y: string)
    ensures x == y || LexLess(x, y) || LexLess(y, x)
    decreases |x|
  {
    if x != [] && y != [] && x[0] == y[0] {
      LexTotal(x[1..], y[1..]);
      if x[1..] == y[1..] {
        assert x == [x[0]] + x[1..] && y == [y[0]] + y[1..];
      }
    }
  }

  // ------------------------------------------------------------ filter

  /** The search: the lower-cased name or email contains the lower-cased query. */
  predicate Matches(u: AdminUser, query: string) {
    Includes(Lower(u.name), Lower(query)) || Includes(Lower(u.email), Lower(query))
  }

  /** `allUsers.filter(...)`: the matching users, in list order. */
  function FilterUsers(users: seq<AdminUser>, query: string): (r: seq<AdminUser>)
    ensures forall u :: u in r <==> u in users && Matches(u, query)
    ensures IsSubsequence(r, users)
    ensures query == "" ==> r == users
  {
    assert query == "" ==> forall u :: Matches(u, query) by {
      if query == "" {
        forall u ensures Matches(u, query) {
          assert OccursAt(Lower(u.name), Lower(query), 0);
        }
      }
    }
    Filter(users, (u: AdminUser) => Matches(u, query))
  }

  /** Case does not matter to the search. */
  lemma LowerIdempotent(s: string)
    ensures Lower(Lower(s)) == Lower(s)
  {
  }

  // ------------------------------------------------------------ sort

  datatype SortField = Name | Email | TotalDonations | CreatedAt
  datatype SortOrder = Asc | Desc

  /** The value compared for a column: lower-cased text, or the donation count. */
  datatype Key = Text(text: string) | Number(n: int)

  function KeyOf(u: AdminUser, f: SortField): Key {
    match f
    case Name => Text(Lower(u.name))
    case Email => Text(Lower(u.email))
    case TotalDonations => Number(u.totalDonations)
    case CreatedAt => Text(Lower(u.createdAt))
  }

  /** `aVal < bVal` */
  predicate KeyLess(a: Key, b: Key) {
    match (a, b)
    case (Text(x), Text(y)) => LexLess(x, y)
    case (Number(m), Number(n)) => m < n
    case _ => false
  }

  /** The comparator passed to `filtered.sort`. */
  function Compare(a: AdminUser, b: AdminUser, f: SortField, o: SortOrder): int {
    if KeyLess(KeyOf(a, f), KeyOf(b, f)) then (if o == Asc then -1 else 1)
    else if KeyLess(KeyOf(b, f), KeyOf(a, f)) then (if o == Asc then 1 else -1)
    else 0
  }

  /** `a` may stay before `b`. */
  predicate InOrder(a: AdminUser, b: AdminUser, f: SortField, o: SortOrder) {
    Compare(a, b, f, o) <= 0
  }

  /** Ordered as the comparator asks. */
  predicate SortedBy(s: seq<AdminUser>, f: SortField, o: SortOrder) {
    forall i, j :: 0 <= i < j < |s| ==> InOrder(s[i], s[j], f, o)
  }

  /** In the source's own terms: ascending means no later key is smaller,
      descending means no later key is larger. */
  lemma InOrderMeans(a: AdminUser, b: AdminUser, f: SortField, o: SortOrder)
    ensures o == Asc ==> (InOrder(a, b, f, o) <==> !KeyLess(KeyOf(b, f), KeyOf(a, f)))
    ensures o == Desc ==> (InOrder(a, b, f, o) <==> !KeyLess(KeyOf(a, f), KeyOf(b, f)))
  {
    KeysAsymmetric(KeyOf(a, f), KeyOf(b, f));
  }

  lemma KeysAsymmetric(a: Key, b: Key)
    ensures !(KeyLess(a, b) && KeyLess(b, a))
  {
    if a.Text? && b.Text? {
      LexAsymmetric(a.text, b.text);
    }
  }

  /** Out of order one way is in order the other way. */
  lemma InOrderTotal(a: AdminUser, b: AdminUser, f: SortField, o: SortOrder)
    ensures InOrder(a, b, f, o) || InOrder(b, a, f, o)
  {
    KeysAsymmetric(KeyOf(a, f), KeyOf(b, f));
  }

  /** "Not smaller" is transitive on keys of one kind. */
  lemma NotLessTransitive(x: Key, y: Key, z: Key)
    requires (x.Text? && y.Text? && z.Text?) || (x.Number? && y.Number? && z.Number?)
    requires !KeyLess(y, x) && !KeyLess(z, y)
    ensures !KeyLess(z, x)
  {
    if x.Text? && KeyLess(z, x) {
      LexTotal(x.text, y.text);
      if LexLess(x.text, y.text) {
        LexTransitive(z.text, x.text, y.text);
      }
    }
  }

  lemma InOrderTransitive(a: AdminUser, b: AdminUser, c: AdminUser, f: SortField, o: SortOrder)
    requires InOrder(a, b, f, o) && InOrder(b, c, f, o)
    ensures InOrder(a, c, f, o)
  {
    InOrderMeans(a, b, f, o);
    InOrderMeans(b, c, f, o);
    InOrderMeans(a, c, f, o);
    if o == Asc {
      NotLessTransitive(KeyOf(a, f), KeyOf(b, f), KeyOf(c, f));
    } else {
      NotLessTransitive(KeyOf(c, f), KeyOf(b, f), KeyOf(a, f));
    }
  }

  /** The first `n` entries are in order. */
  ghost predicate SortedUpTo(s: seq<AdminUser>, n: int, f: SortField, o: SortOrder)
    requires 0 <= n <= |s|
  {
    forall k, l :: 0 <= k < l < n ==> InOrder(s[k], s[l], f, o)
  }

  /** While entry `j` moves down into the first `i + 1`: every other pair there is
      in order, and entry `j` is in order with everything after it. */
  ghost predicate Sinking(s: seq<AdminUser>, i: int, j: int, f: SortField, o: SortOrder)
    requires 0 <= j <= i < |s|
  {
    (forall k, l :: 0 <= k < l <= i && k != j && l != j ==> InOrder(s[k], s[l], f, o)) &&
    (forall l :: j < l <= i ==> InOrder(s[j], s[l], f, o))
  }

  /** Entry `i` starts to sink below a sorted prefix of length `i`. */
  lemma StartSinking(s: seq<AdminUser>, i: int, f: SortField, o: SortOrder)
    requires 0 <= i < |s| && SortedUpTo(s, i, f, o)
    ensures Sinking(s, i, i, f, o)
  {
  }

  /** Swapping two neighbours keeps the same users. */
  lemma SwapKeepsUsers(s: seq<AdminUser>, j: int)
    requires 0 < j < |s|
    ensures multiset(s[j - 1 := s[j]][j := s[j - 1]]) == multiset(s)
  {
  }

  /** Swapping entry `j` with the one before it, when those two are out of order. */
  lemma SwapDown(s: seq<AdminUser>, i: int, j: int, f: SortField, o: SortOrder)
    requires 0 < j <= i < |s| && Sinking(s, i, j, f, o) && !InOrder(s[j - 1], s[j], f, o)
    ensures Sinking(s[j - 1 := s[j]][j := s[j - 1]], i, j - 1, f, o)
  {
    InOrderTotal(s[j - 1], s[j], f, o);
  }

  /** Once entry `j` is in order with the one before it, the first `i + 1` are sorted. */
  lemma Settled(s: seq<AdminUser>, i: int, j: int, f: SortField, o: SortOrder)
    requires 0 <= j <= i < |s| && Sinking(s, i, j, f, o)
    requires j == 0 || InOrder(s[j - 1], s[j], f, o)
    ensures SortedUpTo(s, i + 1, f, o)
  {
    forall k | 0 <= k < j
      ensures InOrder(s[k], s[j], f, o)
    {
      if k < j - 1 {
        InOrderTransitive(s[k], s[j - 1], s[j], f, o);
      }
    }
  }

  /** One pass of the insertion sort: entry `i` sinks into the sorted prefix
      before it, so that the first `i + 1` entries are sorted. */
  method SinkInto(a: array<AdminUser>, i: int, f: SortField, o: SortOrder)
    requires 0 <= i < a.Length && SortedUpTo(a[..], i, f, o)
    modifies a
    ensures SortedUpTo(a[..], i + 1, f, o)
    ensures multiset(a[..]) == multiset(old(a[..]))
  {
    var j := i;
    StartSinking(a[..], i, f, o);
    while j > 0 && !InOrder(a[j - 1], a[j], f, o)
      invariant 0 <= j <= i
      invariant Sinking(a[..], i, j, f, o)
      invariant multiset(a[..]) == multiset(old(a[..]))
      decreases j
    {
      ghost var s := a[..];
      SwapDown(s, i, j, f, o);
      SwapKeepsUsers(s, j);
      a[j - 1], a[j] := a[j], a[j - 1];
      assert a[..] == s[j - 1 := s[j]][j := s[j - 1]];
      j := j - 1;
    }
    Settled(a[..], i, j, f, o);
  }

  /** `filtered.sort(compare)`, as an insertion sort by adjacent swaps: the array
      ends ordered by the comparator and holds the same users. */
  method SortInPlace(a: array<AdminUser>, f: SortField, o: SortOrder)
    modifies a
    ensures SortedBy(a[..], f, o)
    ensures multiset(a[..]) == multiset(old(a[..]))
  {
    var i := 0;
    while i < a.Length
      invariant 0 <= i <= a.Length
      invariant SortedUpTo(a[..], i, f, o)
      invariant multiset(a[..]) == multiset(old(a[..]))
    {
      SinkInto(a, i, f, o);
      i := i + 1;
    }
  }

  /** `applyFiltersAndSort` over the component's user list `all` (`AllUsers`): the
      matching users; kept in list order without a sort column, otherwise the
      same users ordered by that column. */
  method ApplyFiltersAndSort(all: seq<AdminUser>, query: string, field: Option<SortField>, order: SortOrder)
    returns (users: seq<AdminUser>)
    ensures field.None? ==> users == FilterUsers(all, query)
    ensures multiset(users) == multiset(FilterUsers(all, query))
    ensures forall u :: u in users <==> u in all && Matches(u, query)
    ensures field.Some? ==> SortedBy(users, field.value, order)
  {
    var filtered := FilterUsers(all, query);
    if field.None? {
      return filtered;
    }
    var a := new AdminUser[|filtered|](k requires 0 <= k < |filtered| => filtered[k]);
    assert a[..] == filtered;
    SortInPlace(a, field.value, order);
    users := a[..];
    forall u ensures u in users <==> u in filtered {
      assert u in multiset(users) <==> u in multiset(filtered);
    }
  }

  /** `handleDelete(userId)`: once the `confirm` dialog is answered yes (`confirmed`),
      the rows with that id go and the rest keep their order; answered no, nothing changes. */
  function DeleteUser(users: seq<AdminUser>, id: string, confirmed: bool): (r: seq<AdminUser>)
    ensures !confirmed ==> r == users
    ensures confirmed ==> forall u :: u in r <==> u in users && u.id != id
    ensures IsSubsequence(r, users)
    ensures (forall i :: 0 <= i < |users| ==> users[i].id != id) ==> r == users
  {
    if confirmed then Filter(users, (u: AdminUser) => u.id != id)
    else SubsequenceOfItself(users); users
  }
}
