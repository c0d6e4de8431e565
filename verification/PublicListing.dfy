/** The public listing that answers the catalogue's requests, apps/api/src/public-catalogue.ts
    and apps/api/src/in-memory-challenges.ts: pages by keyset over the rows of a category.
    Against it the catalogue's runs need no assumption at all. */
module PublicListing {
  import opened Text
  import opened StableSort
  import opened PublicCatalogue

  /** A row that is open and visible. Its key is what a cursor encodes. */
  datatype Row = Row(key: string, category: string)

  /** The rows; `before` stands for a negative result of `comparePublicChallenges`, and
      `fold` for the lower case of a category. */
  datatype Store = Store(rows: seq<Row>, before: (string, string) -> bool, fold: string -> string, pageSize: nat)

  /** A comparator that tells the keys of all rows apart. */
  ghost predicate Valid(store: Store) {
    && store.pageSize > 0
    && (forall a :: !store.before(a, a))
    && (forall a, b, c :: store.before(a, b) && store.before(b, c) ==> store.before(a, c))
    && (forall a, b, c :: store.before(a, b) ==> store.before(a, c) || store.before(c, b))
    && (forall i, j :: 0 <= i < j < |store.rows| ==>
          store.before(store.rows[i].key, store.rows[j].key) || store.before(store.rows[j].key, store.rows[i].key))
    && (forall i :: 0 <= i < |store.rows| ==> store.rows[i].key != "")
  }

  /** The client leaves out an empty category. */
  predicate InCategory(store: Store, category: string, row: Row) {
    category == "" || store.fold(Trim(row.category)) == store.fold(Trim(category))
  }

  function Keys(rows: seq<Row>): seq<Item> {
    seq(|rows|, i requires 0 <= i < |rows| => rows[i].key)
  }

  function NotAfter(store: Store): (Row, Row) -> bool {
    (a: Row, b: Row) => !store.before(b.key, a.key)
  }

  /** All rows of a category, in the order of the listing. */
  function Listed(store: Store, category: string): seq<Row> {
    Sort(NotAfter(store), Select(store.rows, (row: Row) => InCategory(store, category, row)))
  }

  function Take(rows: seq<Row>, k: nat): seq<Row> {
    if k <= |rows| then rows[..k] else rows
  }

  /** The page of a list of rows, with one row more to decide whether there is another. */
  function PageOf(rows: seq<Row>, size: nat): Page {
    var page := Take(rows, size + 1);
    var items := Take(page, size);
    Page(Keys(items), if |page| > size && items != [] then Some(items[|items| - 1].key) else None)
  }

  function AfterCursor(store: Store, rows: seq<Row>, cursor: Option<Cursor>): seq<Row> {
    match cursor
    case None => rows
    case Some(key) => Select(rows, (row: Row) => store.before(key, row.key))
  }

  /** `list`. */
  function ListPage(store: Store, category: string, cursor: Option<Cursor>): Page {
    PageOf(AfterCursor(store, Listed(store, category), cursor), store.pageSize)
  }

  function ServerOf(store: Store): Server {
    (category: string, cursor: Option<Cursor>) => ListPage(store, category, cursor)
  }

  // ----- The order of the listing -----

  ghost predicate Ascending(store: Store, rows: seq<Row>) {
    forall i, j :: 0 <= i < j < |rows| ==> store.before(rows[i].key, rows[j].key)
  }

  /** Of any two rows at different places one comes before the other. */
  ghost predicate Apart(store: Store, rows: seq<Row>) {
    forall i, j :: 0 <= i < j < |rows| ==>
      store.before(rows[i].key, rows[j].key) || store.before(rows[j].key, rows[i].key)
  }

  lemma {:induction false} FilterMembers(rows: seq<Row>, keep: Row -> bool, row: Row)
    ensures multiset(Select(rows, keep))[row] == if keep(row) then multiset(rows)[row] else 0
  {
    if rows != [] {
      FilterMembers(rows[1..], keep, row);
      assert rows == [rows[0]] + rows[1..];
    }
  }

  /** Apartness in terms of members, so that it does not depend on their order. */
  ghost predicate ApartMembers(store: Store, rows: multiset<Row>) {
    forall a, b :: a in rows && b in rows ==>
      (a == b ==> rows[a] == 1) && (a != b ==> store.before(a.key, b.key) || store.before(b.key, a.key))
  }

  lemma Twice<T>(s: seq<T>, i: nat, j: nat)
    requires i < j < |s| && s[i] == s[j]
    ensures multiset(s)[s[i]] >= 2
  {
    assert s == s[..j] + ([s[j]] + s[j + 1..]);
    assert s[i] in s[..j];
  }

  lemma {:induction false} OncePerPlace(store: Store, rows: seq<Row>)
    requires Valid(store) && Apart(store, rows)
    ensures ApartMembers(store, multiset(rows))
  {
    if rows != [] {
      var first, rest := rows[0], rows[1..];
      forall i, j | 0 <= i < j < |rest|
        ensures store.before(rest[i].key, rest[j].key) || store.before(rest[j].key, rest[i].key)
      {
        assert rest[i] == rows[i + 1] && rest[j] == rows[j + 1];
      }
      OncePerPlace(store, rest);
      assert rows == [first] + rest;
      forall b | b in rest
        ensures store.before(first.key, b.key) || store.before(b.key, first.key)
      {
        var k :| 0 <= k < |rest| && rest[k] == b;
        assert rows[k + 1] == b;
      }
      assert first !in rest;
    }
  }

  lemma NotAfterIsPreorder(store: Store)
    requires Valid(store)
    ensures TotalPreorder(NotAfter(store))
  {
    var leq := NotAfter(store);
    forall a, b
      ensures leq(a, b) || leq(b, a)
    {
      assert store.before(a.key, b.key) && store.before(b.key, a.key) ==> store.before(a.key, a.key);
    }
    forall a, b, c | leq(a, b) && leq(b, c)
      ensures leq(a, c)
    {
      assert store.before(c.key, a.key) ==> store.before(c.key, b.key) || store.before(b.key, a.key);
    }
  }

  lemma ListedMembers(store: Store, category: string, row: Row)
    ensures multiset(Listed(store, category))[row] ==
            if InCategory(store, category, row) then multiset(store.rows)[row] else 0
  {
    var keep := (row: Row) => InCategory(store, category, row);
    SortIsPermutation(NotAfter(store), Select(store.rows, keep));
    FilterMembers(store.rows, keep, row);
  }

  lemma ListedAscends(store: Store, category: string)
    requires Valid(store)
    ensures Ascending(store, Listed(store, category))
    ensures forall row :: row in Listed(store, category) <==> row in store.rows && InCategory(store, category, row)
  {
    var listed := Listed(store, category);
    forall row
      ensures row in listed <==> row in store.rows && InCategory(store, category, row)
    {
      ListedMembers(store, category, row);
      assert row in listed <==> row in multiset(listed);
      assert row in store.rows <==> row in multiset(store.rows);
    }
    ListedNotAfter(store, category);
    OncePerPlace(store, store.rows);
    forall i, j | 0 <= i < j < |listed|
      ensures store.before(listed[i].key, listed[j].key)
    {
      ListedMembers(store, category, listed[i]);
      assert listed[i] in multiset(listed) && listed[j] in listed;
      if listed[i] == listed[j] {
        Twice(listed, i, j);
      }
    }
  }

  /** The listing holds exactly the rows of the category, without regard to case or to space
      around it, or all rows when none is asked for; each once, in strict order. */
  lemma ListedInOrder(store: Store, category: string)
    requires Valid(store)
    ensures forall i, j :: 0 <= i < j < |Listed(store, category)| ==>
              store.before(Listed(store, category)[i].key, Listed(store, category)[j].key)
    ensures forall row :: row in Listed(store, category) <==>
              row in store.rows &&
              (category == "" || store.fold(Trim(row.category)) == store.fold(Trim(category)))
  {
    ListedAscends(store, category);
  }

  lemma ListedNotAfter(store: Store, category: string)
    requires Valid(store)
    ensures var listed := Listed(store, category);
            forall i, j :: 0 <= i < j < |listed| ==> !store.before(listed[j].key, listed[i].key)
  {
    NotAfterIsPreorder(store);
    SortStablyOrders(NotAfter(store), Select(store.rows, (row: Row) => InCategory(store, category, row)));
    var listed := Listed(store, category);
    assert Ordered(NotAfter(store), listed);
    forall i, j | 0 <= i < j < |listed|
      ensures !store.before(listed[j].key, listed[i].key)
    {
      assert NotAfter(store)(listed[i], listed[j]);
    }
  }

  // ----- Pages are slices of the listing -----

  /** How many rows come at or before the cursor. */
  function Skipped(store: Store, rows: seq<Row>, key: Cursor): (k: nat)
    ensures k <= |rows|
  {
    if rows == [] || store.before(key, rows[0].key) then 0 else 1 + Skipped(store, rows[1..], key)
  }

  lemma {:induction false} AllAfter(store: Store, rows: seq<Row>, key: Cursor)
    requires forall row :: row in rows ==> store.before(key, row.key)
    ensures AfterCursor(store, rows, Some(key)) == rows
  {
    if rows != [] {
      AllAfter(store, rows[1..], key);
      assert rows == [rows[0]] + rows[1..];
    }
  }

  lemma {:induction false} AfterIsSuffix(store: Store, rows: seq<Row>, key: Cursor)
    requires Valid(store) && Ascending(store, rows)
    ensures AfterCursor(store, rows, Some(key)) == rows[Skipped(store, rows, key)..]
  {
    if rows != [] {
      if store.before(key, rows[0].key) {
        forall row | row in rows
          ensures store.before(key, row.key)
        {
          var i :| 0 <= i < |rows| && rows[i] == row;
        }
        AllAfter(store, rows, key);
      } else {
        AfterIsSuffix(store, rows[1..], key);
      }
    }
  }

  /** After the key of a row come the rows behind it. */
  lemma {:induction false} SkippedToRow(store: Store, rows: seq<Row>, i: nat)
    requires Valid(store) && Ascending(store, rows) && i < |rows|
    ensures Skipped(store, rows, rows[i].key) == i + 1
  {
    if i == 0 {
      assert |rows| > 1 ==> store.before(rows[0].key, rows[1].key);
    } else {
      assert store.before(rows[0].key, rows[i].key);
      SkippedToRow(store, rows[1..], i - 1);
    }
  }

  function Min(a: nat, b: nat): nat {
    if a <= b then a else b
  }

  /** Where the page at a cursor starts. */
  function From(store: Store, category: string, cursor: Option<Cursor>): (k: nat)
    ensures k <= |Listed(store, category)|
  {
    match cursor
    case None => 0
    case Some(key) => Skipped(store, Listed(store, category), key)
  }

  lemma AfterIsFrom(store: Store, category: string, cursor: Option<Cursor>)
    requires Valid(store)
    ensures var rows := Listed(store, category);
            AfterCursor(store, rows, cursor) == rows[From(store, category, cursor)..]
  {
    if cursor.Some? {
      ListedAscends(store, category);
      AfterIsSuffix(store, Listed(store, category), cursor.value);
    }
  }

  /** Row `from` and those behind it, as far as a page goes. */
  function Slice(rows: seq<Row>, from: nat, size: nat): Page
    requires from <= |rows| && size > 0
  {
    var to := Min(from + size, |rows|);
    Page(Keys(rows)[from..to], if to < |rows| then Some(rows[to - 1].key) else None)
  }

  lemma PageFromRow(rows: seq<Row>, from: nat, size: nat)
    requires from <= |rows| && size > 0
    ensures PageOf(rows[from..], size) == Slice(rows, from, size)
  {
  }

  /** Every page that the listing returns is the slice of the category's rows that follows
      the cursor, and its cursor leads on to the row behind it. */
  lemma PageIsSlice(store: Store, category: string, cursor: Option<Cursor>)
    requires Valid(store)
    ensures ListPage(store, category, cursor) ==
            Slice(Listed(store, category), From(store, category, cursor), store.pageSize)
  {
    AfterIsFrom(store, category, cursor);
    PageFromRow(Listed(store, category), From(store, category, cursor), store.pageSize);
  }

  // ----- The catalogue against this listing -----

  /** The items are a stretch of the rows that starts at row a, and the cursor leads on to
      the row behind it, if there is one. */
  ghost predicate IsStretch(rows: seq<Row>, a: nat, items: seq<Item>, next: Option<Cursor>) {
    var b := a + |items|;
    && b <= |rows| && items == Keys(rows)[a..b]
    && (b < |rows| ==> a < b && next == Some(rows[b - 1].key))
    && (b == |rows| ==> next == None)
  }

  /** The list is a stretch of the category's rows that starts at row `from`. Before any
      page has arrived there is no such row, and the cursor in hand may be anything. */
  ghost predicate Stretch(store: Store, s: State, from: Option<nat>) {
    match from
    case None => s.items == []
    case Some(a) => IsStretch(Listed(store, s.activeCategory), a, s.items, s.nextCursor)
  }

  /** Where the list starts after one more event. */
  function StartAfter(store: Store, from: Option<nat>, s: State, event: Event): Option<nat> {
    if event.SubmitFilter? || event.ClearFilter? then None
    else if Lands(s, event) then
      var cursor := s.outstanding[event.generation].cursor;
      if from.None? || cursor.None? then Some(From(store, s.activeCategory, cursor)) else from
    else from
  }

  lemma PageIsStretch(rows: seq<Row>, a: nat, size: nat)
    requires a <= |rows| && size > 0
    ensures IsStretch(rows, a, Slice(rows, a, size).items, Slice(rows, a, size).next)
  {
  }

  lemma StretchGrows(rows: seq<Row>, a: nat, items: seq<Item>, next: Option<Cursor>, size: nat)
    requires IsStretch(rows, a, items, next) && size > 0
    ensures var page := Slice(rows, a + |items|, size);
            IsStretch(rows, a, items + page.items, page.next)
  {
  }

  lemma GrownBy(rows: seq<Row>, a: nat, items: seq<Item>, next: Option<Cursor>, size: nat, page: Page)
    requires IsStretch(rows, a, items, next) && size > 0 && page == Slice(rows, a + |items|, size)
    ensures IsStretch(rows, a, items + page.items, page.next)
  {
    StretchGrows(rows, a, items, next, size);
  }

  lemma StretchLeadsOn(rows: seq<Row>, a: nat, items: seq<Item>, next: Option<Cursor>)
    requires IsStretch(rows, a, items, next) && next.Some?
    ensures 0 < a + |items| < |rows| && next == Some(rows[a + |items| - 1].key)
  {
  }

  lemma NextPage(store: Store, category: string, b: nat)
    requires Valid(store) && 0 < b < |Listed(store, category)|
    ensures ListPage(store, category, Some(Listed(store, category)[b - 1].key)) ==
            Slice(Listed(store, category), b, store.pageSize)
  {
    var rows := Listed(store, category);
    ListedAscends(store, category);
    SkippedToRow(store, rows, b - 1);
    PageIsSlice(store, category, Some(rows[b - 1].key));
  }

  lemma FirstStretch(store: Store, category: string, cursor: Option<Cursor>)
    requires Valid(store)
    ensures var page := ListPage(store, category, cursor);
            IsStretch(Listed(store, category), From(store, category, cursor), page.items, page.next)
  {
    PageIsSlice(store, category, cursor);
    PageIsStretch(Listed(store, category), From(store, category, cursor), store.pageSize);
  }

  lemma NextStretch(store: Store, category: string, a: nat, items: seq<Item>, next: Option<Cursor>)
    requires Valid(store) && IsStretch(Listed(store, category), a, items, next) && next.Some?
    ensures var page := ListPage(store, category, next);
            IsStretch(Listed(store, category), a, items + page.items, page.next)
  {
    var rows := Listed(store, category);
    StretchLeadsOn(rows, a, items, next);
    NextPage(store, category, a + |items|);
    GrownBy(rows, a, items, next, store.pageSize, ListPage(store, category, next));
  }

  /** What a reply does that still counts. */
  lemma LandedState(store: Store, s: State, p: Progress, event: Event)
    requires Inv(s, p, ServerOf(store)) && Enabled(s, event) && Lands(s, event)
    ensures var t, cursor := Step(s, event, ServerOf(store)), s.outstanding[event.generation].cursor;
            var page := ListPage(store, s.activeCategory, cursor);
            t.activeCategory == s.activeCategory && t.nextCursor == page.next &&
            t.items == (if cursor.Some? then s.items + page.items else page.items) &&
            (cursor.Some? ==> cursor == s.nextCursor)
  {
    assert s.mounted;
  }

  lemma LandingStretch(store: Store, s: State, p: Progress, from: Option<nat>, event: Event)
    requires Valid(store) && Inv(s, p, ServerOf(store)) && Stretch(store, s, from)
    requires Enabled(s, event) && Lands(s, event)
    ensures Stretch(store, Step(s, event, ServerOf(store)), StartAfter(store, from, s, event))
  {
    var cursor := s.outstanding[event.generation].cursor;
    LandedState(store, s, p, event);
    if from.None? || cursor.None? {
      FirstStretch(store, s.activeCategory, cursor);
      assert [] + ListPage(store, s.activeCategory, cursor).items == ListPage(store, s.activeCategory, cursor).items;
    } else {
      NextStretch(store, s.activeCategory, from.value, s.items, s.nextCursor);
    }
  }

  lemma StepStretch(store: Store, s: State, p: Progress, from: Option<nat>, event: Event)
    requires Valid(store) && Inv(s, p, ServerOf(store)) && Stretch(store, s, from) && Enabled(s, event)
    ensures Stretch(store, Step(s, event, ServerOf(store)), StartAfter(store, from, s, event))
  {
    if Lands(s, event) {
      LandingStretch(store, s, p, from, event);
    }
  }

  function StartOf(store: Store, from: Option<nat>, s: State, events: seq<Event>): Option<nat>
    requires Possible(s, events, ServerOf(store))
    decreases |events|
  {
    if events == [] then from
    else StartOf(store, StartAfter(store, from, s, events[0]), Step(s, events[0], ServerOf(store)), events[1..])
  }

  lemma {:induction false} RunStretch(store: Store, s: State, p: Progress, from: Option<nat>, events: seq<Event>)
    requires Valid(store) && Inv(s, p, ServerOf(store)) && Stretch(store, s, from)
    requires Possible(s, events, ServerOf(store))
    ensures Stretch(store, Run(s, events, ServerOf(store)), StartOf(store, from, s, events))
    decreases |events|
  {
    if events != [] {
      var next := Step(s, events[0], ServerOf(store));
      StepInv(s, p, events[0], ServerOf(store));
      StepStretch(store, s, p, from, events[0]);
      RunStretch(store, next, Progressed(p, s, events[0]), StartAfter(store, from, s, events[0]), events[1..]);
    }
  }

  /** In every run the list is a stretch of the category's rows, without a gap or a repeat,
      and the cursor leads on to the row behind it. */
  lemma ListIsStretch(store: Store, events: seq<Event>)
    requires Valid(store) && Possible(Initial(), events, ServerOf(store))
    ensures Stretch(store, Run(Initial(), events, ServerOf(store)), StartOf(store, None, Initial(), events))
  {
    InitialInv(ServerOf(store));
    RunStretch(store, Initial(), Progress(None, 0), None, events);
  }

  /** The list shows the first rows of its category, some or all or none. */
  predicate ShowsFirstRows(store: Store, s: State) {
    s.items <= Keys(Listed(store, s.activeCategory))
  }

  lemma {:induction false} ArrivedStartsAtTop(store: Store, arrived: bool, from: Option<nat>, s: State,
                                              events: seq<Event>)
    requires Possible(s, events, ServerOf(store)) && (arrived ==> from == Some(0))
    ensures FirstPageArrived(arrived, s, events, ServerOf(store)) ==> StartOf(store, from, s, events) == Some(0)
    decreases |events|
  {
    if events != [] {
      ArrivedStartsAtTop(store, FirstPageArrives(arrived, s, events[0]), StartAfter(store, from, s, events[0]),
                         Step(s, events[0], ServerOf(store)), events[1..]);
    }
  }

  /** Once a first page has arrived, the list shows the category's first rows, and it shows
      all of them exactly when no more are offered. */
  lemma WholeCategoryIsShown(store: Store, events: seq<Event>)
    requires Valid(store) && Possible(Initial(), events, ServerOf(store))
    requires FirstPageArrived(false, Initial(), events, ServerOf(store))
    ensures var s := Run(Initial(), events, ServerOf(store));
            ShowsFirstRows(store, s) &&
            (s.nextCursor == None <==> s.items == Keys(Listed(store, s.activeCategory)))
  {
    ListIsStretch(store, events);
    ArrivedStartsAtTop(store, false, None, Initial(), events);
  }

  // ----- Exactly when rows are skipped -----

  /** Some rows of the category come at or before the cursor, and some after it. */
  predicate SkipsRows(store: Store, category: string, cursor: Option<Cursor>) {
    0 < From(store, category, cursor) < |Listed(store, category)|
  }

  /** In terms of the rows themselves. */
  lemma SkipsRowsExactly(store: Store, category: string, key: Cursor)
    requires Valid(store)
    ensures SkipsRows(store, category, Some(key)) <==>
            (exists row :: row in Listed(store, category) && !store.before(key, row.key)) &&
            (exists row :: row in Listed(store, category) && store.before(key, row.key))
  {
    ListedAscends(store, category);
    SkipsAmid(store, Listed(store, category), key);
  }

  lemma SkipsAmid(store: Store, rows: seq<Row>, key: Cursor)
    requires Valid(store) && Ascending(store, rows)
    ensures 0 < Skipped(store, rows, key) < |rows| <==>
            (exists row :: row in rows && !store.before(key, row.key)) &&
            (exists row :: row in rows && store.before(key, row.key))
  {
    var k := Skipped(store, rows, key);
    if 0 < k < |rows| {
      SkippedExactly(store, rows, key, 0);
      SkippedExactly(store, rows, key, k);
      assert rows[0] in rows && rows[k] in rows;
    }
    if row :| row in rows && !store.before(key, row.key) {
      var i :| 0 <= i < |rows| && rows[i] == row;
      SkippedExactly(store, rows, key, i);
    }
    if row :| row in rows && store.before(key, row.key) {
      var i :| 0 <= i < |rows| && rows[i] == row;
      SkippedExactly(store, rows, key, i);
    }
  }

  lemma {:induction false} SkippedExactly(store: Store, rows: seq<Row>, key: Cursor, i: nat)
    requires Valid(store) && Ascending(store, rows) && i < |rows|
    ensures store.before(key, rows[i].key) <==> Skipped(store, rows, key) <= i
  {
    if i == 0 {
    } else if store.before(key, rows[0].key) {
      assert store.before(rows[0].key, rows[i].key);
    } else {
      SkippedExactly(store, rows[1..], key, i - 1);
    }
  }

  /** A reply to "load more" that lands on an empty list, with a cursor amid the rows of the
      category, skips rows, until the filter changes or a first page arrives. */
  predicate RowsSkipped(store: Store, skipped: bool, s: State, event: Event) {
    if event.SubmitFilter? || event.ClearFilter? then false
    else if Lands(s, event) then
      var cursor := s.outstanding[event.generation].cursor;
      cursor.Some? && (skipped || (s.items == [] && SkipsRows(store, s.activeCategory, cursor)))
    else skipped
  }

  predicate RowsMissing(store: Store, skipped: bool, s: State, events: seq<Event>)
    requires Possible(s, events, ServerOf(store))
    decreases |events|
  {
    if events == [] then skipped
    else RowsMissing(store, RowsSkipped(store, skipped, s, events[0]), Step(s, events[0], ServerOf(store)), events[1..])
  }

  predicate StartsBelowTop(s: State, from: Option<nat>) {
    from.Some? && from.value > 0 && s.items != []
  }

  lemma StepSkips(store: Store, skipped: bool, s: State, p: Progress, from: Option<nat>, event: Event)
    requires Valid(store) && Inv(s, p, ServerOf(store)) && Stretch(store, s, from) && Enabled(s, event)
    requires skipped <==> StartsBelowTop(s, from)
    ensures RowsSkipped(store, skipped, s, event) <==>
            StartsBelowTop(Step(s, event, ServerOf(store)), StartAfter(store, from, s, event))
  {
    if Lands(s, event) {
      LandedState(store, s, p, event);
      LandingStretch(store, s, p, from, event);
    }
  }

  lemma {:induction false} RunSkips(store: Store, skipped: bool, s: State, p: Progress, from: Option<nat>,
                                    events: seq<Event>)
    requires Valid(store) && Inv(s, p, ServerOf(store)) && Stretch(store, s, from)
    requires Possible(s, events, ServerOf(store)) && (skipped <==> StartsBelowTop(s, from))
    ensures RowsMissing(store, skipped, s, events) <==>
            StartsBelowTop(Run(s, events, ServerOf(store)), StartOf(store, from, s, events))
    decreases |events|
  {
    if events != [] {
      StepInv(s, p, events[0], ServerOf(store));
      StepStretch(store, s, p, from, events[0]);
      StepSkips(store, skipped, s, p, from, events[0]);
      RunSkips(store, RowsSkipped(store, skipped, s, events[0]), Step(s, events[0], ServerOf(store)),
               Progressed(p, s, events[0]), StartAfter(store, from, s, events[0]), events[1..]);
    }
  }

  lemma TopStretch(store: Store, rows: seq<Row>, a: nat, items: seq<Item>, next: Option<Cursor>)
    requires Valid(store) && Ascending(store, rows) && IsStretch(rows, a, items, next)
    ensures items <= Keys(rows) <==> a == 0 || items == []
  {
    if a > 0 && items != [] {
      assert items[0] == rows[a].key;
      assert store.before(rows[0].key, rows[a].key);
    }
  }

  /** In every run, without any assumption: the list shows the first rows of the category
      if and only if no "load more" on an empty list has skipped any. */
  lemma FirstRowsAreShownExactly(store: Store, events: seq<Event>)
    requires Valid(store) && Possible(Initial(), events, ServerOf(store))
    ensures var s := Run(Initial(), events, ServerOf(store));
            ShowsFirstRows(store, s) <==> !RowsMissing(store, false, Initial(), events)
  {
    var s, from := Run(Initial(), events, ServerOf(store)), StartOf(store, None, Initial(), events);
    ListIsStretch(store, events);
    InitialInv(ServerOf(store));
    RunSkips(store, false, Initial(), Progress(None, 0), None, events);
    ListedAscends(store, s.activeCategory);
    if from.Some? {
      TopStretch(store, Listed(store, s.activeCategory), from.value, s.items, s.nextCursor);
    }
  }

  /** And before pressing: in every reachable state that shows first rows, or none, "load
      more" and its reply keep that if and only if the list is not empty or the cursor in
      hand is not amid the rows of the category. */
  lemma LoadMoreKeepsFirstRowsExactly(store: Store, events: seq<Event>)
    requires Valid(store) && Possible(Initial(), events, ServerOf(store))
    requires var s := Run(Initial(), events, ServerOf(store));
             Enabled(s, LoadMore) && ShowsFirstRows(store, s)
    ensures var s := Run(Initial(), events, ServerOf(store));
            var t := Step(s, LoadMore, ServerOf(store));
            Enabled(t, Respond(t.generation, Success)) &&
            (ShowsFirstRows(store, Step(t, Respond(t.generation, Success), ServerOf(store))) <==>
             s.items != [] || !SkipsRows(store, s.activeCategory, s.nextCursor))
  {
    var s, from := Run(Initial(), events, ServerOf(store)), StartOf(store, None, Initial(), events);
    var p := ProgressOf(Progress(None, 0), Initial(), events, ServerOf(store));
    var rows := Listed(store, s.activeCategory);
    InitialInv(ServerOf(store));
    RunInv(Initial(), Progress(None, 0), events, ServerOf(store));
    ListIsStretch(store, events);
    ListedAscends(store, s.activeCategory);
    PressAndReply(store, s, p, from);
  }

  lemma PressAndReply(store: Store, s: State, p: Progress, from: Option<nat>)
    requires Valid(store) && Inv(s, p, ServerOf(store)) && Stretch(store, s, from) && Enabled(s, LoadMore)
    requires Ascending(store, Listed(store, s.activeCategory)) && ShowsFirstRows(store, s)
    ensures var t := Step(s, LoadMore, ServerOf(store));
            Enabled(t, Respond(t.generation, Success)) &&
            (ShowsFirstRows(store, Step(t, Respond(t.generation, Success), ServerOf(store))) <==>
             s.items != [] || !SkipsRows(store, s.activeCategory, s.nextCursor))
  {
    var rows, t := Listed(store, s.activeCategory), Step(s, LoadMore, ServerOf(store));
    var reply := Respond(t.generation, Success);
    var u := Step(t, reply, ServerOf(store));
    StepInv(s, p, LoadMore, ServerOf(store));
    LandedState(store, t, p, reply);
    LandingStretch(store, t, p, from, reply);
    var at := StartAfter(store, from, t, reply);
    TopStretch(store, rows, at.value, u.items, u.nextCursor);
    if from.Some? {
      TopStretch(store, rows, from.value, s.items, s.nextCursor);
    }
  }

  // ----- Rows that are skipped -----

  lemma CursorsAreNotEmpty(store: Store, category: string, cursor: Option<Cursor>)
    requires Valid(store)
    ensures ListPage(store, category, cursor).next.Some? ==> Truthy(ListPage(store, category, cursor).next)
  {
    PageIsSlice(store, category, cursor);
    ListedAscends(store, category);
    var rows := Listed(store, category);
    forall i | 0 <= i < |rows|
      ensures rows[i].key != ""
    {
      assert rows[i] in rows;
      var j :| 0 <= j < |store.rows| && store.rows[j] == rows[i];
    }
  }

  /** The filter is applied after the first page of all challenges has arrived, and its own
      first page fails. */
  lemma FilterFails(store: Store, typed: string) returns (s: State)
    requires Valid(store) && ListPage(store, "", None).next.Some?
    ensures var events := [Respond(1, Success), SubmitFilter(typed), Respond(2, Failure("offline"))];
            Possible(Initial(), events, ServerOf(store)) && Run(Initial(), events, ServerOf(store)) == s
    ensures s.items == [] && s.activeCategory == Trim(typed) && s.nextCursor == ListPage(store, "", None).next
    ensures Enabled(s, LoadMore) && s.generation == 2
  {
    var e1, e2, e3 := Respond(1, Success), SubmitFilter(typed), Respond(2, Failure("offline"));
    var server := ServerOf(store);
    CursorsAreNotEmpty(store, "", None);
    var s1 := Step(Initial(), e1, server);
    assert s1.nextCursor == ListPage(store, "", None).next && s1.mounted;
    var s2 := Step(s1, e2, server);
    s := Step(s2, e3, server);
    RunCons(s2, e3, [], server);
    RunCons(s1, e2, [e3], server);
    RunCons(Initial(), e1, [e2, e3], server);
    assert [e3] == [e3] + [] && [e2, e3] == [e2] + [e3] && [e1, e2, e3] == [e1] + [e2, e3];
  }

  /** Whatever the rows: if the first page of all challenges ends amid the rows of the
      category, this is a run after which the list lacks the category's first rows. */
  lemma FailedFilterSkipsRows(store: Store, typed: string)
    requires Valid(store) && SkipsRows(store, Trim(typed), ListPage(store, "", None).next)
    ensures var events := [Respond(1, Success), SubmitFilter(typed), Respond(2, Failure("offline"))];
            Possible(Initial(), events, ServerOf(store)) &&
            Enabled(Run(Initial(), events, ServerOf(store)), LoadMore) &&
            var t := Step(Run(Initial(), events, ServerOf(store)), LoadMore, ServerOf(store));
            Enabled(t, Respond(3, Success)) &&
            !ShowsFirstRows(store, Step(t, Respond(3, Success), ServerOf(store)))
  {
    var s := FilterFails(store, typed);
    LoadMoreKeepsFirstRowsExactly(store, [Respond(1, Success), SubmitFilter(typed), Respond(2, Failure("offline"))]);
  }

  /** Two rows of one category, longer keys first, a row a page. */
  const TWO_ROWS := Store([Row("bb", "energy"), Row("a", "energy")], (a: string, b: string) => |a| > |b|,
                          (s: string) => s, 1)

  lemma TwoRowsListed(category: string)
    requires category == "" || category == "energy"
    ensures Listed(TWO_ROWS, category) == [Row("bb", "energy"), Row("a", "energy")]
  {
    var first, second := Row("bb", "energy"), Row("a", "energy");
    var keep := (row: Row) => InCategory(TWO_ROWS, category, row);
    var leq := NotAfter(TWO_ROWS);
    assert keep(first) && keep(second);
    assert Select([second], keep) == [second] by {
      assert [second][1..] == [];
    }
    assert [first, second][1..] == [second];
    assert Select([first, second], keep) == [first] + [second];
    assert [second][1..] == [] && Sort(leq, [second]) == [second];
    assert leq(first, second);
    assert Sort(leq, [first, second]) == Insert(leq, first, [second]) == [first, second];
  }

  lemma TwoRowsAreValid()
    ensures Valid(TWO_ROWS)
  {
  }

  lemma TwoRowsPage()
    ensures ListPage(TWO_ROWS, "", None).next == Some("bb")
  {
    TwoRowsListed("");
    PageFromRow(Listed(TWO_ROWS, ""), 0, 1);
    assert Listed(TWO_ROWS, "")[0..] == Listed(TWO_ROWS, "");
  }

  /** There are such rows. */
  lemma TwoRowsAreSkipped()
    ensures Valid(TWO_ROWS) && SkipsRows(TWO_ROWS, Trim("energy"), ListPage(TWO_ROWS, "", None).next)
  {
    TwoRowsAreValid();
    TwoRowsListed("energy");
    TwoRowsPage();
    EnergyIsTrimmed();
    ListedAscends(TWO_ROWS, "energy");
    SkippedToRow(TWO_ROWS, Listed(TWO_ROWS, "energy"), 0);
  }
}
