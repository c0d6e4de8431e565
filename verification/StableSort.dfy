/** `Array.prototype.filter`, and `Array.prototype.sort` with a comparator: ordered, and
    stable. What a sort returns is determined by these two properties alone. */
module StableSort {

  /** `leq(a, b)` stands for a comparator's result that is not positive. */
  ghost predicate TotalPreorder<A(!new)>(leq: (A, A) -> bool) {
    && (forall a, b :: leq(a, b) || leq(b, a))
    && (forall a, b, c :: leq(a, b) && leq(b, c) ==> leq(a, c))
  }

  /** `Array.prototype.filter`. */
  function Select<A(!new)>(items: seq<A>, keep: A -> bool): (r: seq<A>)
    ensures forall item :: item in r <==> item in items && keep(item)
  {
    if items == [] then []
    else (if keep(items[0]) then [items[0]] else []) + Select(items[1..], keep)
  }

  function Insert<A>(leq: (A, A) -> bool, e: A, sorted: seq<A>): seq<A> {
    if sorted == [] || leq(e, sorted[0]) then [e] + sorted else [sorted[0]] + Insert(leq, e, sorted[1..])
  }

  function Sort<A>(leq: (A, A) -> bool, items: seq<A>): (r: seq<A>)
    ensures |r| == |items|
  {
    if items == [] then []
    else
      InsertLength(leq, items[0], Sort(leq, items[1..]));
      Insert(leq, items[0], Sort(leq, items[1..]))
  }

  lemma {:induction false} InsertLength<A>(leq: (A, A) -> bool, e: A, sorted: seq<A>)
    ensures |Insert(leq, e, sorted)| == |sorted| + 1
  {
    if sorted != [] && !leq(e, sorted[0]) {
      InsertLength(leq, e, sorted[1..]);
    }
  }

  ghost predicate Ordered<A>(leq: (A, A) -> bool, s: seq<A>) {
    forall i, j :: 0 <= i < j < |s| ==> leq(s[i], s[j])
  }

  /** The items of `s` that compare equal to `x`, in order. */
  function Class<A>(leq: (A, A) -> bool, s: seq<A>, x: A): seq<A> {
    if s == [] then []
    else Own(leq, s[0], x) + Class(leq, s[1..], x)
  }

  /** `s` is ordered and keeps equal items of `items` in their order. */
  ghost predicate StablyOrders<A(!new)>(leq: (A, A) -> bool, items: seq<A>, s: seq<A>) {
    Ordered(leq, s) && forall x :: Class(leq, s, x) == Class(leq, items, x)
  }

  lemma {:induction false} InsertMembers<A>(leq: (A, A) -> bool, e: A, sorted: seq<A>)
    ensures multiset(Insert(leq, e, sorted)) == multiset{e} + multiset(sorted)
  {
    if sorted != [] && !leq(e, sorted[0]) {
      InsertMembers(leq, e, sorted[1..]);
      assert sorted == [sorted[0]] + sorted[1..];
    }
  }

  lemma {:induction false} SortIsPermutation<A>(leq: (A, A) -> bool, items: seq<A>)
    ensures multiset(Sort(leq, items)) == multiset(items)
  {
    if items != [] {
      SortIsPermutation(leq, items[1..]);
      InsertMembers(leq, items[0], Sort(leq, items[1..]));
      assert items == [items[0]] + items[1..];
    }
  }

  lemma {:induction false} InsertOrders<A(!new)>(leq: (A, A) -> bool, e: A, sorted: seq<A>)
    requires TotalPreorder(leq) && Ordered(leq, sorted)
    ensures Ordered(leq, Insert(leq, e, sorted))
  {
    var r := Insert(leq, e, sorted);
    if sorted != [] && !leq(e, sorted[0]) {
      var rest := Insert(leq, e, sorted[1..]);
      InsertOrders(leq, e, sorted[1..]);
      InsertMembers(leq, e, sorted[1..]);
      forall j | 0 <= j < |rest|
        ensures leq(sorted[0], rest[j])
      {
        assert rest[j] in multiset(rest);
        assert rest[j] == e || rest[j] in sorted[1..];
      }
    }
  }

  /** The item alone, when it compares equal to `x`. */
  function Own<A>(leq: (A, A) -> bool, e: A, x: A): seq<A> {
    if leq(e, x) && leq(x, e) then [e] else []
  }

  lemma ClassCons<A>(leq: (A, A) -> bool, e: A, rest: seq<A>, x: A)
    ensures Class(leq, [e] + rest, x) == Own(leq, e, x) + Class(leq, rest, x)
  {
    assert ([e] + rest)[1..] == rest;
  }

  lemma {:induction false} InsertKeepsClass<A(!new)>(leq: (A, A) -> bool, e: A, sorted: seq<A>, x: A)
    requires TotalPreorder(leq)
    ensures Class(leq, Insert(leq, e, sorted), x) == Own(leq, e, x) + Class(leq, sorted, x)
  {
    if sorted == [] || leq(e, sorted[0]) {
      ClassCons(leq, e, sorted, x);
    } else {
      var first, rest := sorted[0], sorted[1..];
      InsertKeepsClass(leq, e, rest, x);
      ClassCons(leq, first, Insert(leq, e, rest), x);
      ClassCons(leq, first, rest, x);
      assert sorted == [first] + rest;
      Exchange(Own(leq, first, x), Own(leq, e, x), Class(leq, rest, x));
    }
  }

  lemma Exchange<A>(a: seq<A>, b: seq<A>, c: seq<A>)
    requires a == [] || b == []
    ensures a + (b + c) == b + (a + c)
  {
  }

  lemma {:induction false} SortStablyOrders<A(!new)>(leq: (A, A) -> bool, items: seq<A>)
    requires TotalPreorder(leq)
    ensures StablyOrders(leq, items, Sort(leq, items))
  {
    if items != [] {
      var rest := Sort(leq, items[1..]);
      SortStablyOrders(leq, items[1..]);
      InsertOrders(leq, items[0], rest);
      forall x
        ensures Class(leq, Sort(leq, items), x) == Class(leq, items, x)
      {
        InsertKeepsClass(leq, items[0], rest, x);
      }
    }
  }

  lemma {:induction false} ClassMembers<A>(leq: (A, A) -> bool, s: seq<A>, x: A, y: A)
    ensures y in Class(leq, s, x) <==> y in s && leq(y, x) && leq(x, y)
  {
    if s != [] {
      ClassMembers(leq, s[1..], x, y);
    }
  }

  /** Any two stable orderings of the same items are the same, so the result of a stable
      sort does not depend on how it works. */
  lemma {:induction false} OrderedByClasses<A(!new)>(leq: (A, A) -> bool, s: seq<A>, t: seq<A>)
    requires TotalPreorder(leq) && Ordered(leq, s) && Ordered(leq, t)
    requires forall x :: Class(leq, s, x) == Class(leq, t, x)
    ensures s == t
  {
    if s != [] {
      ClassMembers(leq, s, s[0], s[0]);
      ClassMembers(leq, t, s[0], s[0]);
      SameHead(leq, s, t);
      forall x
        ensures Class(leq, s[1..], x) == Class(leq, t[1..], x)
      {
        var head := Own(leq, s[0], x);
        assert Class(leq, s, x) == head + Class(leq, s[1..], x);
        assert Class(leq, t, x) == head + Class(leq, t[1..], x);
        assert Class(leq, s[1..], x) == Class(leq, s, x)[|head|..];
      }
      OrderedByClasses(leq, s[1..], t[1..]);
      assert s == [s[0]] + s[1..] && t == [t[0]] + t[1..];
    } else if t != [] {
      ClassMembers(leq, t, t[0], t[0]);
      ClassMembers(leq, s, t[0], t[0]);
    }
  }

  lemma SameHead<A(!new)>(leq: (A, A) -> bool, s: seq<A>, t: seq<A>)
    requires TotalPreorder(leq) && Ordered(leq, s) && Ordered(leq, t) && s != [] && t != []
    requires forall x :: Class(leq, s, x) == Class(leq, t, x)
    ensures s[0] == t[0]
  {
    ClassMembers(leq, t, s[0], s[0]);
    ClassMembers(leq, s, s[0], s[0]);
    ClassMembers(leq, s, t[0], t[0]);
    ClassMembers(leq, t, t[0], t[0]);
    assert leq(s[0], t[0]) && leq(t[0], s[0]);
    assert Class(leq, s, s[0])[0] == s[0];
    assert Class(leq, t, s[0])[0] == t[0];
  }

  lemma SortIsTheStableOrder<A(!new)>(leq: (A, A) -> bool, items: seq<A>, s: seq<A>)
    requires TotalPreorder(leq)
    ensures StablyOrders(leq, items, s) <==> s == Sort(leq, items)
  {
    SortStablyOrders(leq, items);
    if StablyOrders(leq, items, s) {
      OrderedByClasses(leq, s, Sort(leq, items));
    }
  }
}
