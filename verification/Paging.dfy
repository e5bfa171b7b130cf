/** Keyset paging over a store that may change between pages. A row is known by its key, the time it
    arrived and its identifier, which never change; everything else about it may. */
module Paging {
  import opened Domain
  import opened Listing
  import opened Storage

  datatype Key = Key(at: int, id: int)

  /** `a` is listed before `b`: newest first, the larger identifier first on a tie. */
  predicate Before(a: Key, b: Key) {
    b.at < a.at || (b.at == a.at && b.id < a.id)
  }

  type Store<T> = map<Key, T>

  function Matching<T>(store: Store<T>, matches: (Key, T) -> bool): set<Key> {
    set k | k in store && matches(k, store[k])
  }

  /** What is left to read: everything, or what comes strictly after a cursor. */
  function After(keys: set<Key>, cursor: Option<Key>): set<Key> {
    if cursor.None? then keys
    else set k | k in keys && (k.at < cursor.value.at || (k.at == cursor.value.at && k.id < cursor.value.id))
  }

  // ---------- The sorted list ----------

  ghost predicate Descends(list: seq<Key>) {
    forall i, j :: 0 <= i < j < |list| ==> Before(list[i], list[j])
  }

  ghost predicate ListsKeys(list: seq<Key>, s: set<Key>) {
    Descends(list) && forall k :: k in list <==> k in s
  }

  predicate IsNewest(m: Key, s: set<Key>) {
    m in s && forall k :: k in s && k != m ==> Before(m, k)
  }

  lemma NewerOfTwo(a: Key, b: Key, s: set<Key>) returns (m: Key)
    requires a in s && IsNewest(b, s - {a})
    ensures IsNewest(m, s)
  {
    m := if Before(a, b) then a else b;
    forall k | k in s && k != m ensures Before(m, k) {
      if k != a {
        assert k in s - {a};
      }
    }
  }

  lemma {:induction false} NewestExists(s: set<Key>)
    requires s != {}
    ensures exists m :: IsNewest(m, s)
  {
    hide Before;
    var a := Pick(s);
    if s - {a} == {} {
      assert s == {a};
      assert IsNewest(a, s);
    } else {
      NewestExists(s - {a});
      hide IsNewest;
      var b :| IsNewest(b, s - {a});
      var m := NewerOfTwo(a, b, s);
    }
  }

  function Newest(s: set<Key>): (m: Key)
    requires s != {}
    ensures IsNewest(m, s)
  {
    NewestExists(s);
    var m :| IsNewest(m, s);
    m
  }

  /** The plain list in (arrival, identifier) descending order. */
  function Descending(s: set<Key>): seq<Key> {
    if s == {} then [] else [Newest(s)] + Descending(s - {Newest(s)})
  }

  lemma FrontListsKeys(m: Key, list: seq<Key>, rest: set<Key>)
    requires ListsKeys(list, rest) && forall k :: k in rest ==> Before(m, k)
    ensures ListsKeys([m] + list, rest + {m})
  {}

  lemma {:induction false} DescendingLists(s: set<Key>)
    ensures ListsKeys(Descending(s), s)
  {
    if s != {} {
      var m, rest := Newest(s), s - {Newest(s)};
      DescendingLists(rest);
      FrontListsKeys(m, Descending(rest), rest);
      assert s == rest + {m};
    }
  }

  lemma EmptyListsNothing(a: seq<Key>, s: set<Key>)
    requires ListsKeys(a, s)
    ensures a == [] <==> s == {}
  {
    if a != [] {
      assert a[0] in s;
    }
  }

  /** A descending list is determined by its elements. */
  lemma {:induction false} DescendingIsUnique(a: seq<Key>, b: seq<Key>, s: set<Key>)
    requires ListsKeys(a, s) && ListsKeys(b, s)
    ensures a == b
  {
    EmptyListsNothing(a, s);
    EmptyListsNothing(b, s);
    if s != {} {
      assert a[0] in b && b[0] in a;
      var i :| 0 <= i < |b| && b[i] == a[0];
      var j :| 0 <= j < |a| && a[j] == b[0];
      assert a[0] == b[0];
      TailListsKeys(a, s);
      TailListsKeys(b, s);
      DescendingIsUnique(a[1..], b[1..], s - {a[0]});
    }
  }

  lemma TailListsKeys(a: seq<Key>, s: set<Key>)
    requires a != [] && ListsKeys(a, s)
    ensures ListsKeys(a[1..], s - {a[0]})
  {}

  lemma RestListsKeys(list: seq<Key>, s: set<Key>, i: nat)
    requires ListsKeys(list, s) && i < |list|
    ensures ListsKeys(list[i + 1..], After(s, Some(list[i])))
  {}

  /** Resuming after the element at `i` lists exactly the rest. */
  lemma ResumingListsTheRest(s: set<Key>, i: nat)
    requires i < |Descending(s)|
    ensures Descending(After(s, Some(Descending(s)[i]))) == Descending(s)[i + 1..]
  {
    hide ListsKeys;
    var rest := After(s, Some(Descending(s)[i]));
    DescendingLists(s);
    DescendingLists(rest);
    RestListsKeys(Descending(s), s, i);
    DescendingIsUnique(Descending(rest), Descending(s)[i + 1..], rest);
  }

  // ---------- One page ----------

  datatype Page = Page(items: seq<Key>, next: Option<Key>)

  function Take(list: seq<Key>, n: nat): seq<Key> { list[..Min(n, |list|)] }

  /** Reads one row more than asked for, which is how the next cursor is known to exist. */
  function PageOf<T>(store: Store<T>, matches: (Key, T) -> bool, limit: nat, cursor: Option<Key>): Page {
    var rows := Take(Descending(After(Matching(store, matches), cursor)), limit + 1);
    var items := Take(rows, limit);
    Page(items, if |rows| > limit && items != [] then Some(items[|items| - 1]) else None)
  }

  /** A page is the front of what is left, and its cursor is absent exactly when nothing more is. */
  lemma PageIsTheFront<T>(store: Store<T>, matches: (Key, T) -> bool, limit: nat, cursor: Option<Key>)
    requires limit >= 1
    ensures var left, page := Descending(After(Matching(store, matches), cursor)), PageOf(store, matches, limit, cursor);
      && page.items == Take(left, limit)
      && (page.next.None? <==> |left| <= limit)
      && (page.next.Some? ==> page.next.value == left[limit - 1] && |page.items| == limit)
  {}

  // ---------- Following the cursor over a fixed store ----------

  function Follow<T>(store: Store<T>, matches: (Key, T) -> bool, limit: nat, cursor: Option<Key>): seq<Key>
    requires limit >= 1
    decreases |Descending(After(Matching(store, matches), cursor))|
  {
    var page := PageOf(store, matches, limit, cursor);
    PageShrinksTheRest(store, matches, limit, cursor);
    page.items + if page.next.None? then [] else Follow(store, matches, limit, page.next)
  }

  lemma PageShrinksTheRest<T>(store: Store<T>, matches: (Key, T) -> bool, limit: nat, cursor: Option<Key>)
    requires limit >= 1
    ensures var keys, page := Matching(store, matches), PageOf(store, matches, limit, cursor);
      page.next.Some? ==>
        && |Descending(After(keys, page.next))| < |Descending(After(keys, cursor))|
        && Descending(After(keys, page.next)) == Descending(After(keys, cursor))[limit..]
  {
    var keys, page := Matching(store, matches), PageOf(store, matches, limit, cursor);
    PageIsTheFront(store, matches, limit, cursor);
    if page.next.Some? {
      var left := After(keys, cursor);
      DescendingLists(left);
      assert page.next.value in Descending(left);
      ResumingListsTheRest(left, limit - 1);
      assert After(left, page.next) == After(keys, page.next);
    }
  }

  lemma {:induction false} FollowingReadsTheRest<T>(
    store: Store<T>, matches: (Key, T) -> bool, limit: nat, cursor: Option<Key>)
    requires limit >= 1
    ensures Follow(store, matches, limit, cursor) == Descending(After(Matching(store, matches), cursor))
    decreases |Descending(After(Matching(store, matches), cursor))|
  {
    var left := Descending(After(Matching(store, matches), cursor));
    var page := PageOf(store, matches, limit, cursor);
    PageIsTheFront(store, matches, limit, cursor);
    PageShrinksTheRest(store, matches, limit, cursor);
    if page.next.Some? {
      FollowingReadsTheRest(store, matches, limit, page.next);
      assert left == left[..limit] + left[limit..];
    }
  }

  /** Followed to the end over a fixed store, pages of any size are the whole filtered list. */
  lemma PagingRefinesTheList<T>(store: Store<T>, matches: (Key, T) -> bool, limit: nat)
    requires limit >= 1
    ensures Follow(store, matches, limit, None) == Descending(Matching(store, matches))
    ensures ListsKeys(Descending(Matching(store, matches)), Matching(store, matches))
    ensures var read := Follow(store, matches, limit, None);
      && (forall k :: k in read <==> k in store && matches(k, store[k]))
      && (forall i, j :: 0 <= i < j < |read| ==>
            read[j].at < read[i].at || (read[j].at == read[i].at && read[j].id < read[i].id))
  {
    FollowingReadsTheRest(store, matches, limit, None);
    DescendingLists(Matching(store, matches));
  }

  // ---------- Following the cursor while the store changes ----------

  /** What a reader collects, one page per store as it stood at that moment. */
  function Read<T>(stores: seq<Store<T>>, matches: (Key, T) -> bool, limit: nat, cursor: Option<Key>): seq<Key>
    decreases |stores|
  {
    if stores == [] then []
    else
      var page := PageOf(stores[0], matches, limit, cursor);
      page.items + if page.next.None? then [] else Read(stores[1..], matches, limit, page.next)
  }

  /** The reader was handed a last page before it ran out of moments. */
  predicate ReadToTheEnd<T>(stores: seq<Store<T>>, matches: (Key, T) -> bool, limit: nat, cursor: Option<Key>)
    decreases |stores|
  {
    stores != [] &&
    var page := PageOf(stores[0], matches, limit, cursor);
    page.next.None? || ReadToTheEnd(stores[1..], matches, limit, page.next)
  }

  predicate Follows(cursor: Option<Key>, k: Key) { cursor.None? || Before(cursor.value, k) }

  ghost predicate DescendsFrom(cursor: Option<Key>, list: seq<Key>) {
    Descends(list) && forall k :: k in list ==> Follows(cursor, k)
  }

  /** A page is strictly descending, every row of it after the cursor it was asked for with. */
  lemma PageDescends<T>(store: Store<T>, matches: (Key, T) -> bool, limit: nat, cursor: Option<Key>)
    requires limit >= 1
    ensures DescendsFrom(cursor, PageOf(store, matches, limit, cursor).items)
  {
    var left := After(Matching(store, matches), cursor);
    PageIsTheFront(store, matches, limit, cursor);
    DescendingLists(left);
    var items := PageOf(store, matches, limit, cursor).items;
    assert items == Descending(left)[..|items|];
    forall k | k in items ensures Follows(cursor, k) {
      assert k in Descending(left);
    }
  }

  /** Whatever is inserted, removed or changed between pages, no row appears twice: the keys read are
      strictly descending, all after the cursor. */
  lemma {:induction false} NoRowAppearsTwice<T>(
    stores: seq<Store<T>>, matches: (Key, T) -> bool, limit: nat, cursor: Option<Key>)
    requires limit >= 1
    ensures DescendsFrom(cursor, Read(stores, matches, limit, cursor))
    decreases |stores|
  {
    if stores != [] {
      var page := PageOf(stores[0], matches, limit, cursor);
      PageDescends(stores[0], matches, limit, cursor);
      if page.next.Some? {
        PageIsTheFront(stores[0], matches, limit, cursor);
        hide PageOf, Descending;
        NoRowAppearsTwice(stores[1..], matches, limit, page.next);
        JoinDescends(cursor, page.items, Read(stores[1..], matches, limit, page.next));
      } else {
        assert page.items + [] == page.items;
      }
    }
  }

  /** A descending list followed by one that starts after its last element descends. */
  lemma JoinDescends(cursor: Option<Key>, a: seq<Key>, b: seq<Key>)
    requires a != [] && DescendsFrom(cursor, a) && DescendsFrom(Some(a[|a| - 1]), b)
    ensures DescendsFrom(cursor, a + b)
  {
    assert a[|a| - 1] in a;
    forall i, j | 0 <= i < j < |a + b| ensures Before((a + b)[i], (a + b)[j]) {
      if j >= |a| {
        assert b[j - |a|] in b;
        if i < |a| - 1 {
          assert Before(a[i], a[|a| - 1]);
        }
      }
    }
  }

  /** A row present and matching at every moment is read, and so exactly once. */
  lemma {:induction false} NoRowIsSkipped<T>(
    stores: seq<Store<T>>, matches: (Key, T) -> bool, limit: nat, cursor: Option<Key>, k: Key)
    requires limit >= 1 && ReadToTheEnd(stores, matches, limit, cursor) && Follows(cursor, k)
    requires forall i :: 0 <= i < |stores| ==> k in stores[i] && matches(k, stores[i][k])
    ensures k in Read(stores, matches, limit, cursor)
    decreases |stores|
  {
    var left := After(Matching(stores[0], matches), cursor);
    var page := PageOf(stores[0], matches, limit, cursor);
    PageIsTheFront(stores[0], matches, limit, cursor);
    DescendingLists(left);
    assert k in left;
    var i :| 0 <= i < |Descending(left)| && Descending(left)[i] == k;
    if i < |page.items| {
      assert page.items[i] == k;
    } else {
      assert Before(Descending(left)[limit - 1], Descending(left)[i]);
      NoRowIsSkipped(stores[1..], matches, limit, page.next, k);
    }
  }

  ghost predicate Once(list: seq<Key>, k: Key) {
    exists i :: 0 <= i < |list| && list[i] == k && forall j :: 0 <= j < |list| && list[j] == k ==> j == i
  }

  lemma DescendingHoldsOnce(list: seq<Key>, k: Key)
    requires Descends(list) && k in list
    ensures Once(list, k)
  {
    var i :| 0 <= i < |list| && list[i] == k;
    assert forall j :: 0 <= j < |list| && list[j] == k ==> !(j < i) && !(i < j);
  }

  /** Both at once, from the first page on. */
  lemma ReadingIsExactlyOnce<T>(stores: seq<Store<T>>, matches: (Key, T) -> bool, limit: nat, k: Key)
    requires limit >= 1 && ReadToTheEnd(stores, matches, limit, None)
    requires forall i :: 0 <= i < |stores| ==> k in stores[i] && matches(k, stores[i][k])
    ensures Once(Read(stores, matches, limit, None), k)
  {
    NoRowIsSkipped(stores, matches, limit, None, k);
    hide Read, ReadToTheEnd;
    NoRowAppearsTwice(stores, matches, limit, None);
    DescendingHoldsOnce(Read(stores, matches, limit, None), k);
  }

  // ---------- The two lists that are paged ----------

  datatype IncidentRow = IncidentRow(dagId: string, taskId: string, status: Status)

  /** What a caller may ask of incidents; `since` is inclusive and `until` is not. */
  datatype IncidentFilter = IncidentFilter(
    dagId: Option<string>, taskId: Option<string>, status: Option<Status>,
    since: Option<int>, until: Option<int>)
  {
    predicate Matches(k: Key, row: IncidentRow) {
      && (dagId.Some? ==> row.dagId == dagId.value)
      && (taskId.Some? ==> row.taskId == taskId.value)
      && (status.Some? ==> row.status == status.value)
      && (since.Some? ==> k.at >= since.value)
      && (until.Some? ==> k.at < until.value)
    }
  }

  /** Which incidents a caller gets to read, filter by filter. */
  lemma AnIncidentIsListedExactlyWhen(store: Store<IncidentRow>, f: IncidentFilter, limit: nat, k: Key)
    requires limit >= 1
    ensures k in Follow(store, f.Matches, limit, None) <==>
      && k in store
      && f.dagId in {None, Some(store[k].dagId)}
      && f.taskId in {None, Some(store[k].taskId)}
      && f.status in {None, Some(store[k].status)}
      && (f.since.None? || f.since.value <= k.at)
      && (f.until.None? || k.at < f.until.value)
  {
    PagingRefinesTheList(store, f.Matches, limit);
    hide Follow, Descending;
  }

  /** Two windows that meet at an instant page, one after the other, through what the joined window
      does: no incident falls between them and none is in both. */
  lemma AdjacentWindowsJoin(store: Store<IncidentRow>, f: IncidentFilter, instant: int, limit: nat)
    requires limit >= 1
    requires f.since.None? || f.since.value <= instant
    requires f.until.None? || instant <= f.until.value
    ensures Follow(store, f.Matches, limit, None)
         == Follow(store, f.(since := Some(instant)).Matches, limit, None)
          + Follow(store, f.(until := Some(instant)).Matches, limit, None)
  {
    hide Follow, Descending, ListsKeys;
    var late, early := f.(since := Some(instant)), f.(until := Some(instant));
    PagingRefinesTheList(store, f.Matches, limit);
    PagingRefinesTheList(store, late.Matches, limit);
    PagingRefinesTheList(store, early.Matches, limit);
    var all := Matching(store, f.Matches);
    var newer, older := Matching(store, late.Matches), Matching(store, early.Matches);
    assert all == newer + older;
    assert forall k, l :: k in newer && l in older ==> Before(k, l);
    ListsJoin(Descending(newer), Descending(older), newer, older);
    DescendingIsUnique(Descending(all), Descending(newer) + Descending(older), all);
  }

  lemma ListsJoin(a: seq<Key>, b: seq<Key>, s: set<Key>, t: set<Key>)
    requires ListsKeys(a, s) && ListsKeys(b, t)
    requires forall k, l :: k in s && l in t ==> Before(k, l)
    ensures ListsKeys(a + b, s + t)
  {}

  datatype DiagnosedRow = DiagnosedRow(
    category: Category, dagId: Option<string>, confidence: int, verdict: Option<bool>)

  datatype DiagnosisFilter = DiagnosisFilter(
    category: Option<Category>, dagId: Option<string>, minConfidence: Option<int>,
    reviewed: Option<bool>, since: Option<int>)
  {
    predicate Matches(k: Key, row: DiagnosedRow) {
      && (category.Some? ==> row.category == category.value)
      && (dagId.Some? ==> row.dagId == dagId)
      && (minConfidence.Some? ==> row.confidence >= minConfidence.value)
      && (reviewed.Some? ==> row.verdict.Some? == reviewed.value)
      && (since.Some? ==> k.at >= since.value)
    }
  }

  /** Which diagnoses a caller gets to read, filter by filter; a verdict either way counts as reviewed. */
  lemma ADiagnosisIsListedExactlyWhen(store: Store<DiagnosedRow>, f: DiagnosisFilter, limit: nat, k: Key)
    requires limit >= 1
    ensures k in Follow(store, f.Matches, limit, None) <==>
      && k in store
      && f.category in {None, Some(store[k].category)}
      && (f.dagId.None? || store[k].dagId == f.dagId)
      && (f.minConfidence.None? || f.minConfidence.value <= store[k].confidence)
      && (f.reviewed == Some(true) ==> store[k].verdict != None)
      && (f.reviewed == Some(false) ==> store[k].verdict == None)
      && (f.since.None? || f.since.value <= k.at)
  {
    PagingRefinesTheList(store, f.Matches, limit);
    hide Follow, Descending;
  }

  /** Every listed diagnosis is in exactly one of the two reviewed lists, whatever its verdict was:
      a diagnosis judged wrong is not an unjudged one. */
  lemma ReviewedSplitsTheList(store: Store<DiagnosedRow>, f: DiagnosisFilter, k: Key, limit: nat)
    requires limit >= 1 && f.reviewed.None?
    ensures var judged := k in Follow(store, f.(reviewed := Some(true)).Matches, limit, None);
            var unjudged := k in Follow(store, f.(reviewed := Some(false)).Matches, limit, None);
      && (k in Follow(store, f.Matches, limit, None) <==> judged || unjudged)
      && !(judged && unjudged)
  {
    hide Follow, Descending, Descends;
    PagingRefinesTheList(store, f.Matches, limit);
    PagingRefinesTheList(store, f.(reviewed := Some(true)).Matches, limit);
    PagingRefinesTheList(store, f.(reviewed := Some(false)).Matches, limit);
  }
}
