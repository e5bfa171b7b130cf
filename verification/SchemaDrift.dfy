/** Diffing a table against its baseline: what counts as drift, which columns look renamed, and the
    write-once store the baselines live in. */
module SchemaDrift {
  import opened Domain
  import opened Listing

  datatype Column = Column(name: Name, kind: string, nullable: bool)

  /** Column types by name; a later duplicate replaces an earlier one. */
  function Types(columns: seq<Column>): map<Name, string> {
    if columns == [] then map[]
    else
      var last := columns[|columns| - 1];
      Types(columns[..|columns| - 1])[last.name := last.kind]
  }

  datatype Rename = Rename(likelyFrom: Name, likelyTo: Name, kind: string)

  datatype Diff = Diff(
    added: seq<Name>,
    removed: seq<Name>,
    changed: seq<Name>,
    renames: seq<Rename>,
    hasDrift: bool,
    baselineCreated: bool,
    baselineTooRecent: bool)

  // ---------- Rename pairing ----------

  /** Every listed name is a column. */
  predicate Known(types: map<Name, string>, names: seq<Name>) {
    forall i :: 0 <= i < |names| ==> names[i] in types
  }

  /** The first available name of a given type, if any. */
  function FirstOfKind(now: map<Name, string>, available: seq<Name>, kind: string): (i: nat)
    requires Known(now, available)
    ensures i <= |available|
    ensures i < |available| ==> now[available[i]] == kind
    ensures forall j :: 0 <= j < i ==> now[available[j]] != kind
  {
    if available == [] then 0
    else
      if now[available[0]] == kind then 0 else 1 + FirstOfKind(now, available[1..], kind)
  }

  /** Pairs each removed column, in order, with the first added column of its type still free. */
  method LikelyRenames(was: map<Name, string>, now: map<Name, string>, added: seq<Name>, removed: seq<Name>)
    returns (renames: seq<Rename>)
    requires Known(was, removed)
    requires Known(now, added)
    ensures renames == Paired(was, now, added, removed)
  {
    renames := [];
    var available := added;
    for k := 0 to |removed|
      invariant Known(now, available)
      invariant renames + Paired(was, now, available, removed[k..]) == Paired(was, now, added, removed)
    {
      var gone := removed[k];
      var kind := was[gone];
      var i := FirstOfKind(now, available, kind);
      assert removed[k..][0] == gone && removed[k..][1..] == removed[k + 1..];
      if i < |available| {
        renames := renames + [Rename(gone, available[i], kind)];
        available := Without(available, i);
      }
    }
  }

  function Without<T>(list: seq<T>, i: nat): seq<T>
    requires i < |list|
  {
    list[..i] + list[i + 1..]
  }

  function Paired(was: map<Name, string>, now: map<Name, string>, available: seq<Name>, removed: seq<Name>): seq<Rename>
    requires Known(was, removed)
    requires Known(now, available)
    decreases |removed|
  {
    if removed == [] then []
    else
      var gone, kind := removed[0], was[removed[0]];
      var i := FirstOfKind(now, available, kind);
      if i < |available|
      then [Rename(gone, available[i], kind)] + Paired(was, now, Without(available, i), removed[1..])
      else Paired(was, now, available, removed[1..])
  }

  /** How many columns of each type a list holds. */
  function Kinds(types: map<Name, string>, names: seq<Name>): multiset<string>
    requires Known(types, names)
  {
    if names == [] then multiset{}
    else
      multiset{types[names[0]]} + Kinds(types, names[1..])
  }

  function RenameKinds(renames: seq<Rename>): multiset<string> {
    if renames == [] then multiset{} else multiset{renames[0].kind} + RenameKinds(renames[1..])
  }

  function Froms(renames: seq<Rename>): seq<Name> {
    seq(|renames|, i requires 0 <= i < |renames| => renames[i].likelyFrom)
  }

  function Tos(renames: seq<Rename>): seq<Name> {
    seq(|renames|, i requires 0 <= i < |renames| => renames[i].likelyTo)
  }

  predicate Distinct<T(==)>(list: seq<T>) {
    forall i, j :: 0 <= i < j < |list| ==> list[i] != list[j]
  }

  /** Distinct removed columns paired with distinct added columns of the same type. */
  ghost predicate Pairing(
    was: map<Name, string>, now: map<Name, string>, added: seq<Name>, removed: seq<Name>, renames: seq<Rename>)
  {
    && Distinct(Froms(renames)) && Distinct(Tos(renames))
    && forall r :: r in renames ==>
         && r.likelyFrom in removed && r.likelyFrom in was && was[r.likelyFrom] == r.kind
         && r.likelyTo in added && r.likelyTo in now && now[r.likelyTo] == r.kind
  }

  lemma FrontOfKinds(types: map<Name, string>, names: seq<Name>)
    requires names != [] && Known(types, names)
    ensures Kinds(types, names) == multiset{types[names[0]]} + Kinds(types, names[1..])
  {}

  lemma {:induction false} KindsWithout(types: map<Name, string>, names: seq<Name>, i: nat)
    requires i < |names| && Known(types, names)
    ensures Kinds(types, names) == multiset{types[names[i]]} + Kinds(types, Without(names, i))
  {
    hide Kinds;
    FrontOfKinds(types, names);
    if i == 0 {
      assert Without(names, 0) == names[1..];
    } else {
      KindsWithout(types, names[1..], i - 1);
      assert Without(names, i)[0] == names[0] && Without(names, i)[1..] == Without(names[1..], i - 1);
      FrontOfKinds(types, Without(names, i));
    }
  }

  lemma {:induction false} NoneOfKind(types: map<Name, string>, names: seq<Name>, kind: string)
    requires Known(types, names)
    requires forall j :: 0 <= j < |names| ==> types[names[j]] != kind
    ensures Kinds(types, names)[kind] == 0
  {
    if names != [] {
      NoneOfKind(types, names[1..], kind);
    }
  }

  lemma CommonKind(k: string, a: multiset<string>, b: multiset<string>)
    ensures (multiset{k} + a) * (multiset{k} + b) == multiset{k} + a * b
    ensures b[k] == 0 ==> (multiset{k} + a) * b == a * b
  {}

  /** For every type, as many renames are found as the smaller of the removed and added counts. */
  lemma {:induction false} PairedUsesEveryKind(
    was: map<Name, string>, now: map<Name, string>, available: seq<Name>, removed: seq<Name>)
    requires Known(was, removed) && Known(now, available)
    ensures RenameKinds(Paired(was, now, available, removed)) == Kinds(was, removed) * Kinds(now, available)
    decreases |removed|
  {
    if removed == [] {
    } else {
      hide Kinds, Paired, RenameKinds, FirstOfKind;
      var kind, rest := was[removed[0]], removed[1..];
      PairedFront(was, now, available, removed);
      var i := FirstOfKind(now, available, kind);
      if i < |available| {
        KindsWithout(now, available, i);
        PairedUsesEveryKind(was, now, Without(available, i), rest);
        FrontKind(Rename(removed[0], available[i], kind), Paired(was, now, Without(available, i), rest));
        CommonKind(kind, Kinds(was, rest), Kinds(now, Without(available, i)));
      } else {
        NoneOfKind(now, available, kind);
        PairedUsesEveryKind(was, now, available, rest);
        CommonKind(kind, Kinds(was, rest), Kinds(now, available));
      }
    }
  }

  lemma PairedFront(was: map<Name, string>, now: map<Name, string>, available: seq<Name>, removed: seq<Name>)
    requires Known(was, removed) && Known(now, available) && removed != []
    ensures Kinds(was, removed) == multiset{was[removed[0]]} + Kinds(was, removed[1..])
    ensures var kind := was[removed[0]];
      var i := FirstOfKind(now, available, kind);
      Paired(was, now, available, removed) ==
        if i < |available|
        then [Rename(removed[0], available[i], kind)] + Paired(was, now, Without(available, i), removed[1..])
        else Paired(was, now, available, removed[1..])
  {}

  lemma FrontKind(r: Rename, renames: seq<Rename>)
    ensures RenameKinds([r] + renames) == multiset{r.kind} + RenameKinds(renames)
  {}

  lemma {:induction false} KindsCount(renames: seq<Rename>)
    ensures |RenameKinds(renames)| == |renames|
  {
    if renames != [] {
      KindsCount(renames[1..]);
    }
  }

  // ---------- The pairing is valid and maximum ----------

  lemma {:induction false} PairedIsAPairing(
    was: map<Name, string>, now: map<Name, string>, available: seq<Name>, removed: seq<Name>)
    requires Known(was, removed) && Known(now, available) && Distinct(removed) && Distinct(available)
    ensures Pairing(was, now, available, removed, Paired(was, now, available, removed))
    decreases |removed|
  {
    if removed != [] {
      var i := FirstOfKind(now, available, was[removed[0]]);
      if i < |available| {
        PairedIsAPairing(was, now, Without(available, i), removed[1..]);
        FrontPairing(was, now, available, removed, i, Paired(was, now, Without(available, i), removed[1..]));
      } else {
        PairedIsAPairing(was, now, available, removed[1..]);
      }
    }
  }

  lemma FrontPairing(
    was: map<Name, string>, now: map<Name, string>, available: seq<Name>, removed: seq<Name>, i: nat,
    rest: seq<Rename>)
    requires removed != [] && i < |available| && Known(was, removed) && Known(now, available)
    requires Distinct(removed) && Distinct(available) && now[available[i]] == was[removed[0]]
    requires Pairing(was, now, Without(available, i), removed[1..], rest)
    ensures Pairing(was, now, available, removed, [Rename(removed[0], available[i], was[removed[0]])] + rest)
  {
    var all := [Rename(removed[0], available[i], was[removed[0]])] + rest;
    forall k | 0 <= k < |rest|
      ensures rest[k].likelyFrom != removed[0] && rest[k].likelyTo != available[i]
      ensures rest[k].likelyFrom in removed && rest[k].likelyTo in available
    {
      assert rest[k] in rest;
      var j :| 0 <= j < |removed[1..]| && removed[1..][j] == rest[k].likelyFrom;
      assert removed[j + 1] == rest[k].likelyFrom;
      var m :| 0 <= m < |Without(available, i)| && Without(available, i)[m] == rest[k].likelyTo;
      assert Without(available, i)[m] == available[if m < i then m else m + 1];
    }
    assert Froms(all) == [removed[0]] + Froms(rest);
    assert Tos(all) == [available[i]] + Tos(rest);
  }

  lemma {:induction false} FewerNamesFewerKinds(types: map<Name, string>, picks: seq<Name>, names: seq<Name>)
    requires Known(types, picks) && Known(types, names) && Distinct(picks)
    requires forall k :: 0 <= k < |picks| ==> picks[k] in names
    ensures Kinds(types, picks) <= Kinds(types, names)
    decreases |picks|
  {
    if picks != [] {
      var i :| 0 <= i < |names| && names[i] == picks[0];
      forall k | 0 <= k < |picks[1..]| ensures picks[1..][k] in Without(names, i) {
        var j :| 0 <= j < |names| && names[j] == picks[k + 1];
        assert j != i;
        assert Without(names, i)[if j < i then j else j - 1] == picks[k + 1];
      }
      FewerNamesFewerKinds(types, picks[1..], Without(names, i));
      KindsWithout(types, names, i);
    }
  }

  lemma {:induction false} PairingKinds(
    was: map<Name, string>, now: map<Name, string>, added: seq<Name>, removed: seq<Name>, renames: seq<Rename>)
    requires Pairing(was, now, added, removed, renames)
    ensures Known(was, Froms(renames)) && Known(now, Tos(renames))
    ensures RenameKinds(renames) == Kinds(was, Froms(renames)) == Kinds(now, Tos(renames))
  {
    forall k | 0 <= k < |renames| ensures Froms(renames)[k] in was && Tos(renames)[k] in now {
      assert renames[k] in renames;
    }
    if renames != [] {
      var rest := renames[1..];
      assert renames[0] in renames;
      assert Froms(renames)[1..] == Froms(rest) && Tos(renames)[1..] == Tos(rest);
      forall i, j | 0 <= i < j < |rest| ensures Froms(rest)[i] != Froms(rest)[j] && Tos(rest)[i] != Tos(rest)[j] {
        assert Froms(renames)[i + 1] != Froms(renames)[j + 1] && Tos(renames)[i + 1] != Tos(renames)[j + 1];
      }
      PairingKinds(was, now, added, removed, rest);
    }
  }

  lemma SmallerMultiset(a: multiset<string>, b: multiset<string>)
    requires a <= b
    ensures |a| <= |b|
  {
    assert b == a + (b - a);
  }

  /** The renames found form a valid pairing, and no valid pairing of the same columns is larger. Its
      size is the sum, over types, of the smaller of the removed and added counts. */
  lemma RenamesAreAMaximumPairing(
    was: map<Name, string>, now: map<Name, string>, added: seq<Name>, removed: seq<Name>, other: seq<Rename>)
    requires Known(was, removed) && Known(now, added) && Distinct(removed) && Distinct(added)
    requires Pairing(was, now, added, removed, other)
    ensures var found := Paired(was, now, added, removed);
      && Pairing(was, now, added, removed, found)
      && |found| == |Kinds(was, removed) * Kinds(now, added)|
      && |other| <= |found|
  {
    hide Paired, Kinds, RenameKinds;
    var found := Paired(was, now, added, removed);
    PairedIsAPairing(was, now, added, removed);
    PairedUsesEveryKind(was, now, added, removed);
    KindsCount(found);
    KindsCount(other);
    PairingKinds(was, now, added, removed, other);
    forall k | 0 <= k < |other| ensures Froms(other)[k] in removed && Tos(other)[k] in added {
      assert other[k] in other;
    }
    FewerNamesFewerKinds(was, Froms(other), removed);
    FewerNamesFewerKinds(now, Tos(other), added);
    SmallerMultiset(RenameKinds(other), Kinds(was, removed) * Kinds(now, added));
  }

  // ---------- The diff ----------

  function Changed(was: map<Name, string>, now: map<Name, string>, names: seq<Name>): seq<Name>
    requires Known(was, names) && Known(now, names)
  {
    if names == [] then []
    else (if was[names[0]] != now[names[0]] then [names[0]] else []) + Changed(was, now, names[1..])
  }

  /** The listed columns have the same type on both sides. */
  predicate Agree(was: map<Name, string>, now: map<Name, string>, names: seq<Name>)
    requires Known(was, names) && Known(now, names)
  {
    forall i :: 0 <= i < |names| ==> was[names[i]] == now[names[i]]
  }

  predicate AgreeWhereCommon<K(!new)>(was: map<K, string>, now: map<K, string>) {
    forall x :: x in was && x in now ==> was[x] == now[x]
  }

  lemma {:induction false} ChangedIsEmptyExactlyWhen(was: map<Name, string>, now: map<Name, string>, names: seq<Name>)
    requires Known(was, names) && Known(now, names)
    ensures Changed(was, now, names) == [] <==> Agree(was, now, names)
  {
    if names != [] {
      ChangedIsEmptyExactlyWhen(was, now, names[1..]);
      assert forall i :: 0 < i < |names| ==> names[i] == names[1..][i - 1];
    }
  }

  function SortedKnown(s: set<Name>, types: map<Name, string>): (names: seq<Name>)
    requires s <= types.Keys
    ensures Known(types, names) && Lists(names, s) && Distinct(names)
  {
    SortedListsTheSet(s);
    var names := Sorted(s);
    assert forall i :: 0 <= i < |names| ==> names[i] in names;
    names
  }

  /** Compares two column lists by name and type. Nullability is not compared. */
  function DiffOf(baseline: seq<Column>, current: seq<Column>): Diff {
    DiffTypes(Types(baseline), Types(current))
  }

  function DiffTypes(was: map<Name, string>, now: map<Name, string>): Diff {
    var added := SortedKnown(now.Keys - was.Keys, now);
    var removed := SortedKnown(was.Keys - now.Keys, was);
    var common := SortedKnown(was.Keys * now.Keys, was);
    assert forall i :: 0 <= i < |common| ==> common[i] in common;
    var changed := Changed(was, now, common);
    Diff(added, removed, changed, Paired(was, now, added, removed),
         added != [] || removed != [] || changed != [], false, false)
  }

  /** There is drift exactly when the two name-to-type maps differ. */
  lemma DriftExactlyWhenTypesDiffer(was: map<Name, string>, now: map<Name, string>)
    ensures DiffTypes(was, now).hasDrift <==> was != now
  {
    hide Lists, Paired, Changed, Sorted, Agree, AgreeWhereCommon;
    var added := SortedKnown(now.Keys - was.Keys, now);
    var removed := SortedKnown(was.Keys - now.Keys, was);
    var common := SortedKnown(was.Keys * now.Keys, was);
    EmptyExactlyWhen(added, now.Keys - was.Keys);
    EmptyExactlyWhen(removed, was.Keys - now.Keys);
    CommonNames(common, was, now);
    ChangedIsEmptyExactlyWhen(was, now, common);
    if added == [] && removed == [] {
      SameColumns(was, now);
    }
  }

  lemma SameColumns<K(!new)>(was: map<K, string>, now: map<K, string>)
    requires now.Keys - was.Keys == {} && was.Keys - now.Keys == {}
    ensures AgreeWhereCommon(was, now) <==> was == now
  {}

  lemma EmptyExactlyWhen(names: seq<Name>, s: set<Name>)
    requires Lists(names, s)
    ensures names == [] <==> s == {}
  {}

  lemma CommonNames(names: seq<Name>, was: map<Name, string>, now: map<Name, string>)
    requires Lists(names, was.Keys * now.Keys)
    ensures Known(was, names) && Known(now, names)
    ensures Agree(was, now, names) <==> AgreeWhereCommon(was, now)
  {
    assert forall i :: 0 <= i < |names| ==> names[i] in names;
    if Agree(was, now, names) {
      forall x | x in was && x in now ensures was[x] == now[x] {
        assert x in names;
        var i :| 0 <= i < |names| && names[i] == x;
      }
    }
  }

  lemma {:induction false} ChangedHolds(was: map<Name, string>, now: map<Name, string>, names: seq<Name>, x: Name)
    requires Known(was, names) && Known(now, names)
    ensures x in Changed(was, now, names) <==> exists i :: 0 <= i < |names| && names[i] == x && was[names[i]] != now[names[i]]
  {
    if names != [] {
      ChangedHolds(was, now, names[1..], x);
      assert forall i :: 0 < i < |names| ==> names[i] == names[1..][i - 1];
      if i :| 0 <= i < |names| && names[i] == x && was[names[i]] != now[names[i]] && i > 0 {
        assert names[1..][i - 1] == x;
      }
    }
  }

  /** The diff names each column that came, went or changed type, and no other, and its renames pair
      columns that went with columns that came. */
  lemma DiffNamesEveryDifference(was: map<Name, string>, now: map<Name, string>, x: Name)
    ensures var d := DiffTypes(was, now);
      && (x in d.added <==> x in now.Keys && x !in was.Keys)
      && (x in d.removed <==> x in was.Keys && x !in now.Keys)
      && (x in d.changed <==> x in was && x in now && was[x] != now[x])
      && Pairing(was, now, d.added, d.removed, d.renames)
  {
    hide Paired, Changed, Sorted, Pairing;
    var added := SortedKnown(now.Keys - was.Keys, now);
    var removed := SortedKnown(was.Keys - now.Keys, was);
    var common := SortedKnown(was.Keys * now.Keys, was);
    CommonNames(common, was, now);
    ChangedHolds(was, now, common, x);
    if x in was && x in now {
      assert x in common;
      var i :| 0 <= i < |common| && common[i] == x;
    }
    PairedIsAPairing(was, now, added, removed);
  }

  // ---------- The diff, said of the two column lists ----------

  predicate IsColumn(columns: seq<Column>, x: Name) {
    exists i :: 0 <= i < |columns| && columns[i].name == x
  }

  /** The type of a column is that of the last one of its name. */
  predicate TypeIs(columns: seq<Column>, x: Name, kind: string) {
    exists i :: (0 <= i < |columns| && columns[i].name == x && columns[i].kind == kind
      && forall j :: i < j < |columns| ==> columns[j].name != x)
  }

  /** The type of a column is not what it was. */
  predicate TypeMoved(baseline: seq<Column>, current: seq<Column>, x: Name) {
    exists i, j :: (0 <= i < |baseline| && 0 <= j < |current| && baseline[i].name == x && current[j].name == x
      && baseline[i].kind != current[j].kind
      && TypeIs(baseline, x, baseline[i].kind) && TypeIs(current, x, current[j].kind))
  }

  ghost predicate Ascends(names: seq<Name>) {
    forall i, j :: 0 <= i < j < |names| ==> names[i] < names[j]
  }

  /** The diff says of each column what became of it from the baseline to now, in name order, and each
      suspected rename goes from a column that is gone to one that is new, both of the type it gives. */
  ghost predicate Describes(d: Diff, baseline: seq<Column>, current: seq<Column>) {
    && (forall x :: x in d.added <==> IsColumn(current, x) && !IsColumn(baseline, x))
    && (forall x :: x in d.removed <==> IsColumn(baseline, x) && !IsColumn(current, x))
    && (forall x :: x in d.changed <==> TypeMoved(baseline, current, x))
    && Ascends(d.added) && Ascends(d.removed) && Ascends(d.changed)
    && (d.hasDrift <==> d.added != [] || d.removed != [] || d.changed != [])
    && (forall k :: 0 <= k < |d.renames| ==>
          var r := d.renames[k];
          && r.likelyFrom in d.removed && TypeIs(baseline, r.likelyFrom, r.kind)
          && r.likelyTo in d.added && TypeIs(current, r.likelyTo, r.kind))
    && Distinct(Froms(d.renames)) && Distinct(Tos(d.renames))
    && !d.baselineCreated && !d.baselineTooRecent
  }

  lemma {:induction false} TypesTell(columns: seq<Column>, x: Name)
    ensures x in Types(columns).Keys <==> IsColumn(columns, x)
    ensures x in Types(columns).Keys ==> TypeIs(columns, x, Types(columns)[x])
  {
    if columns != [] {
      var front, last := columns[..|columns| - 1], columns[|columns| - 1];
      TypesTell(front, x);
      if last.name == x {
        assert columns[|columns| - 1].name == x;
      } else if x in Types(front).Keys {
        var i :| 0 <= i < |front| && front[i].name == x && front[i].kind == Types(front)[x]
          && forall j :: i < j < |front| ==> front[j].name != x;
        assert columns[i] == front[i];
      }
    }
  }

  lemma TypeIsUnique(columns: seq<Column>, x: Name, a: string, b: string)
    requires TypeIs(columns, x, a) && TypeIs(columns, x, b)
    ensures a == b
  {}

  lemma MovedExactlyWhen(baseline: seq<Column>, current: seq<Column>, x: Name)
    ensures TypeMoved(baseline, current, x) <==>
      x in Types(baseline).Keys && x in Types(current).Keys && Types(baseline)[x] != Types(current)[x]
  {
    TypesTell(baseline, x);
    TypesTell(current, x);
    if TypeMoved(baseline, current, x) {
      var i, j :| 0 <= i < |baseline| && 0 <= j < |current| && baseline[i].name == x && current[j].name == x
        && baseline[i].kind != current[j].kind
        && TypeIs(baseline, x, baseline[i].kind) && TypeIs(current, x, current[j].kind);
      TypeIsUnique(baseline, x, baseline[i].kind, Types(baseline)[x]);
      TypeIsUnique(current, x, current[j].kind, Types(current)[x]);
    } else if x in Types(baseline).Keys && x in Types(current).Keys {
      var i :| 0 <= i < |baseline| && baseline[i].name == x && baseline[i].kind == Types(baseline)[x];
      var j :| 0 <= j < |current| && current[j].name == x && current[j].kind == Types(current)[x];
    }
  }

  lemma {:induction false} ChangedAscends(was: map<Name, string>, now: map<Name, string>, names: seq<Name>)
    requires Known(was, names) && Known(now, names) && Ascends(names)
    ensures Ascends(Changed(was, now, names))
    ensures forall k :: 0 <= k < |Changed(was, now, names)| ==> names != [] && names[0] <= Changed(was, now, names)[k]
  {
    if names != [] {
      var rest := names[1..];
      assert forall i :: 0 <= i < |rest| ==> rest[i] == names[i + 1];
      ChangedAscends(was, now, rest);
    }
  }

  lemma DiffAscends(was: map<Name, string>, now: map<Name, string>)
    ensures var d := DiffTypes(was, now); Ascends(d.added) && Ascends(d.removed) && Ascends(d.changed)
  {
    hide Paired, Changed, Sorted;
    var common := SortedKnown(was.Keys * now.Keys, was);
    CommonNames(common, was, now);
    ChangedAscends(was, now, common);
  }

  lemma RenamesAreTyped(baseline: seq<Column>, current: seq<Column>, r: Rename)
    requires r in DiffOf(baseline, current).renames
    ensures var d := DiffOf(baseline, current);
      && r.likelyFrom in d.removed && TypeIs(baseline, r.likelyFrom, r.kind)
      && r.likelyTo in d.added && TypeIs(current, r.likelyTo, r.kind)
  {
    DiffNamesEveryDifference(Types(baseline), Types(current), r.likelyFrom);
    hide DiffTypes;
    TypesTell(baseline, r.likelyFrom);
    TypesTell(current, r.likelyTo);
  }

  /** A comparison of two column lists says just what the columns say. */
  lemma TheDiffDescribes(baseline: seq<Column>, current: seq<Column>)
    ensures Describes(DiffOf(baseline, current), baseline, current)
  {
    var was, now := Types(baseline), Types(current);
    var d := DiffOf(baseline, current);
    DiffAscends(was, now);
    DiffFlags(was, now);
    DiffNamesEveryDifference(was, now, 0);
    hide DiffTypes, IsColumn, TypeIs, TypeMoved, Types, Ascends, Distinct;
    forall x
      ensures x in d.added <==> IsColumn(current, x) && !IsColumn(baseline, x)
      ensures x in d.removed <==> IsColumn(baseline, x) && !IsColumn(current, x)
      ensures x in d.changed <==> TypeMoved(baseline, current, x)
    {
      DiffNamesEveryDifference(was, now, x);
      TypesTell(baseline, x);
      TypesTell(current, x);
      MovedExactlyWhen(baseline, current, x);
    }
    forall k | 0 <= k < |d.renames|
      ensures var r := d.renames[k];
        && r.likelyFrom in d.removed && TypeIs(baseline, r.likelyFrom, r.kind)
        && r.likelyTo in d.added && TypeIs(current, r.likelyTo, r.kind)
    {
      RenamesAreTyped(baseline, current, d.renames[k]);
    }
  }

  lemma DiffFlags(was: map<Name, string>, now: map<Name, string>)
    ensures var d := DiffTypes(was, now);
      && (d.hasDrift <==> d.added != [] || d.removed != [] || d.changed != [])
      && !d.baselineCreated && !d.baselineTooRecent
  {}

  /** No pairing of gone with new columns of one type is larger than the renames a diff suspects. */
  lemma TheDiffPairsAsManyAsPossible(baseline: seq<Column>, current: seq<Column>, other: seq<Rename>)
    requires Distinct(Froms(other)) && Distinct(Tos(other))
    requires forall r :: r in other ==>
      && TypeIs(baseline, r.likelyFrom, r.kind) && !IsColumn(current, r.likelyFrom)
      && TypeIs(current, r.likelyTo, r.kind) && !IsColumn(baseline, r.likelyTo)
    ensures |other| <= |DiffOf(baseline, current).renames|
  {
    var was, now := Types(baseline), Types(current);
    var added := SortedKnown(now.Keys - was.Keys, now);
    var removed := SortedKnown(was.Keys - now.Keys, was);
    hide Types, Paired, Sorted, Changed;
    forall r | r in other
      ensures r.likelyFrom in removed && r.likelyFrom in was && was[r.likelyFrom] == r.kind
      ensures r.likelyTo in added && r.likelyTo in now && now[r.likelyTo] == r.kind
    {
      TypesTell(baseline, r.likelyFrom);
      TypesTell(current, r.likelyFrom);
      TypesTell(baseline, r.likelyTo);
      TypesTell(current, r.likelyTo);
      TypeIsUnique(baseline, r.likelyFrom, r.kind, was[r.likelyFrom]);
      TypeIsUnique(current, r.likelyTo, r.kind, now[r.likelyTo]);
    }
    RenamesAreAMaximumPairing(was, now, added, removed, other);
  }

  /** Renames are taken in name order: each goes to the first new column of its type that is not taken,
      and no earlier gone column of the type is left out. */
  ghost predicate TakenInOrder(
    was: map<Name, string>, now: map<Name, string>, available: seq<Name>, removed: seq<Name>, renames: seq<Rename>)
    requires Known(was, removed) && Known(now, available)
  {
    && (forall k, i | 0 <= k < |renames| && 0 <= i < |available| ::
          now[available[i]] == renames[k].kind && available[i] < renames[k].likelyTo ==> available[i] in Tos(renames[..k]))
    && (forall k, i | 0 <= k < |renames| && 0 <= i < |removed| ::
          was[removed[i]] == renames[k].kind && removed[i] < renames[k].likelyFrom ==> removed[i] in Froms(renames[..k]))
  }

  lemma {:induction false} PairedInOrder(
    was: map<Name, string>, now: map<Name, string>, available: seq<Name>, removed: seq<Name>)
    requires Known(was, removed) && Known(now, available) && Ascends(removed) && Ascends(available)
    ensures TakenInOrder(was, now, available, removed, Paired(was, now, available, removed))
    decreases |removed|
  {
    if removed != [] {
      var i := FirstOfKind(now, available, was[removed[0]]);
      if i < |available| {
        PairedInOrder(was, now, Without(available, i), removed[1..]);
        PairedIsAPairing(was, now, Without(available, i), removed[1..]);
        hide Paired;
        TakesTheFirst(was, now, available, removed, i, Paired(was, now, Without(available, i), removed[1..]));
        hide TakenInOrder;
        PairedFront(was, now, available, removed);
      } else {
        PairedInOrder(was, now, available, removed[1..]);
        PairedIsAPairing(was, now, available, removed[1..]);
        hide Paired;
        TakesNone(was, now, available, removed, Paired(was, now, available, removed[1..]));
        hide TakenInOrder;
        PairedFront(was, now, available, removed);
      }
    }
  }

  lemma TakesTheFirst(
    was: map<Name, string>, now: map<Name, string>, available: seq<Name>, removed: seq<Name>, i: nat,
    rest: seq<Rename>)
    requires removed != [] && Known(was, removed) && Known(now, available) && Ascends(removed) && Ascends(available)
    requires i == FirstOfKind(now, available, was[removed[0]]) < |available|
    requires TakenInOrder(was, now, Without(available, i), removed[1..], rest)
    ensures TakenInOrder(was, now, available, removed, [Rename(removed[0], available[i], was[removed[0]])] + rest)
  {
    var first := Rename(removed[0], available[i], was[removed[0]]);
    var all := [first] + rest;
    forall k, a | 0 <= k < |all| && 0 <= a < |available| && now[available[a]] == all[k].kind
        && available[a] < all[k].likelyTo
      ensures available[a] in Tos(all[..k])
    {
      if k > 0 {
        assert all[..k] == [first] + rest[..k - 1];
        assert Tos(all[..k]) == [available[i]] + Tos(rest[..k - 1]);
        if a != i {
          assert Without(available, i)[if a < i then a else a - 1] == available[a];
        }
      }
    }
    forall k, g | 0 <= k < |all| && 0 <= g < |removed| && was[removed[g]] == all[k].kind
        && removed[g] < all[k].likelyFrom
      ensures removed[g] in Froms(all[..k])
    {
      if k > 0 {
        assert all[..k] == [first] + rest[..k - 1];
        assert Froms(all[..k]) == [removed[0]] + Froms(rest[..k - 1]);
        if g > 0 {
          assert removed[1..][g - 1] == removed[g];
        }
      }
    }
  }

  lemma TakesNone(
    was: map<Name, string>, now: map<Name, string>, available: seq<Name>, removed: seq<Name>, rest: seq<Rename>)
    requires removed != [] && Known(was, removed) && Known(now, available)
    requires FirstOfKind(now, available, was[removed[0]]) == |available|
    requires TakenInOrder(was, now, available, removed[1..], rest)
    requires Pairing(was, now, available, removed[1..], rest)
    ensures TakenInOrder(was, now, available, removed, rest)
  {
    forall k, g | 0 <= k < |rest| && 0 <= g < |removed| && was[removed[g]] == rest[k].kind
        && removed[g] < rest[k].likelyFrom
      ensures removed[g] in Froms(rest[..k])
    {
      assert rest[k] in rest;
      if g > 0 {
        assert removed[1..][g - 1] == removed[g];
      }
    }
  }

  /** So the renames a diff suspects pair columns first come, first served. */
  lemma TheDiffPairsInOrder(baseline: seq<Column>, current: seq<Column>)
    ensures var was, now, d := Types(baseline), Types(current), DiffOf(baseline, current);
      Known(was, d.removed) && Known(now, d.added) && TakenInOrder(was, now, d.added, d.removed, d.renames)
  {
    var was, now := Types(baseline), Types(current);
    hide Types, Paired, Sorted, Changed, TakenInOrder;
    PairedInOrder(was, now, SortedKnown(now.Keys - was.Keys, now), SortedKnown(was.Keys - now.Keys, was));
  }

  /** A column that only changes nullability is not drift, although the diff is described as seeing it. */
  lemma {:induction false} NullabilityIsNotDrift(baseline: seq<Column>, current: seq<Column>)
    requires |baseline| == |current|
    requires forall i :: 0 <= i < |baseline| ==>
               baseline[i].name == current[i].name && baseline[i].kind == current[i].kind
    ensures Types(baseline) == Types(current) && !DiffOf(baseline, current).hasDrift
  {
    if baseline != [] {
      NullabilityIsNotDrift(baseline[..|baseline| - 1], current[..|current| - 1]);
    }
    DriftExactlyWhenTypesDiffer(Types(baseline), Types(current));
  }

  // ---------- The snapshot store ----------

  datatype Table = Table(connection: string, name: string)

  datatype Snapshot = Snapshot(table: Table, columns: seq<Column>, capturedAt: int)

  /** Snapshots are only ever added, whatever else the agent does. */
  datatype Operation =
    | Compare(table: Table, asOf: Option<int>, current: seq<Column>, at: int)
    | Record(table: Table, columns: seq<Column>, at: int)

  function Of(snapshots: seq<Snapshot>, table: Table): seq<Snapshot> {
    if snapshots == [] then []
    else
      var last := snapshots[|snapshots| - 1];
      Of(snapshots[..|snapshots| - 1], table) + if last.table == table then [last] else []
  }

  /** The more recent of the best so far and one more snapshot, if it is of the table and in time. */
  function Newer(best: Option<Snapshot>, last: Snapshot, table: Table, asOf: Option<int>): Option<Snapshot> {
    if last.table == table && (asOf.None? || last.capturedAt <= asOf.value)
       && (best.None? || last.capturedAt > best.value.capturedAt)
    then Some(last) else best
  }

  /** The most recent snapshot of a table at or before a moment. */
  function Latest(snapshots: seq<Snapshot>, table: Table, asOf: Option<int>): Option<Snapshot> {
    if snapshots == [] then None
    else Newer(Latest(snapshots[..|snapshots| - 1], table, asOf), snapshots[|snapshots| - 1], table, asOf)
  }

  const CREATED := Diff([], [], [], [], false, true, false)
  const TOO_RECENT := Diff([], [], [], [], false, false, true)

  /** What a comparison reports, and the store it leaves. */
  function Compared(snapshots: seq<Snapshot>, op: Operation): (seq<Snapshot>, Diff)
    requires op.Compare?
  {
    var baseline := Latest(snapshots, op.table, op.asOf);
    if baseline.Some? then (snapshots, DiffOf(baseline.value.columns, op.current))
    else if Of(snapshots, op.table) != [] then (snapshots, TOO_RECENT)
    else (snapshots + [Snapshot(op.table, op.current, op.at)], CREATED)
  }

  function Apply(snapshots: seq<Snapshot>, op: Operation): seq<Snapshot> {
    match op
    case Compare(_, _, _, _) => Compared(snapshots, op).0
    case Record(table, columns, at) => snapshots + [Snapshot(table, columns, at)]
  }

  function RunOperations(snapshots: seq<Snapshot>, ops: seq<Operation>): seq<Snapshot>
    decreases |ops|
  {
    if ops == [] then snapshots else RunOperations(Apply(snapshots, ops[0]), ops[1..])
  }

  /** Some snapshot of the table was captured at or before the moment. */
  predicate InTime(snapshots: seq<Snapshot>, table: Table, asOf: Option<int>) {
    exists s :: s in Of(snapshots, table) && (asOf.None? || s.capturedAt <= asOf.value)
  }

  /** No snapshot of the table that is in time was captured later. */
  ghost predicate MostRecent(snapshots: seq<Snapshot>, table: Table, asOf: Option<int>, best: Snapshot) {
    && best in Of(snapshots, table) && (asOf.None? || best.capturedAt <= asOf.value)
    && forall s :: s in Of(snapshots, table) && (asOf.None? || s.capturedAt <= asOf.value) ==>
         s.capturedAt <= best.capturedAt
  }

  /** The store as the agent's database holds it. */
  class SnapshotStore {
    var snapshots: seq<Snapshot>

    constructor ()
      ensures snapshots == []
    {
      snapshots := [];
    }

    method RecordSnapshot(table: Table, columns: seq<Column>, at: int)
      modifies this
      ensures snapshots == old(snapshots) + [Snapshot(table, columns, at)]
    {
      snapshots := snapshots + [Snapshot(table, columns, at)];
    }

    method CompareSchema(table: Table, asOf: Option<int>, current: seq<Column>, at: int) returns (diff: Diff)
      modifies this
      ensures (snapshots, diff) == Compared(old(snapshots), Compare(table, asOf, current, at))
      ensures diff.baselineCreated <==> Of(old(snapshots), table) == []
      ensures !diff.baselineCreated ==> snapshots == old(snapshots)
      ensures diff.baselineCreated ==> snapshots == old(snapshots) + [Snapshot(table, current, at)]
      ensures InTime(old(snapshots), table, asOf) ==>
                exists best :: MostRecent(old(snapshots), table, asOf, best) && Describes(diff, best.columns, current)
      ensures diff.baselineTooRecent <==> Of(old(snapshots), table) != [] && !InTime(old(snapshots), table, asOf)
      ensures diff.baselineCreated || diff.baselineTooRecent ==>
                !diff.hasDrift && diff.added == diff.removed == diff.changed == [] && diff.renames == []
    {
      LatestIsOfTheTable(snapshots, table, asOf);
      LatestIsMostRecent(snapshots, table, asOf);
      hide DiffTypes, Describes;
      var baseline := Latest(snapshots, table, asOf);
      if baseline.None? {
        if Of(snapshots, table) != [] {
          return TOO_RECENT;
        }
        RecordSnapshot(table, current, at);
        return CREATED;
      }
      TheDiffDescribes(baseline.value.columns, current);
      DiffFlags(Types(baseline.value.columns), Types(current));
      diff := DiffOf(baseline.value.columns, current);
    }
  }

  lemma OfAppends(snapshots: seq<Snapshot>, s: Snapshot, table: Table)
    ensures Of(snapshots + [s], table) == Of(snapshots, table) + if s.table == table then [s] else []
  {}

  /** A baseline is one of the table's own snapshots, found among all or among those alone. */
  ghost predicate OwnBaseline(snapshots: seq<Snapshot>, mine: seq<Snapshot>, table: Table, asOf: Option<int>) {
    var best := Latest(snapshots, table, asOf);
    && best == Latest(mine, table, asOf)
    && (best.Some? ==> best.value in mine)
    && (asOf.None? ==> (best.None? <==> mine == []))
  }

  lemma OneMoreSnapshot(front: seq<Snapshot>, last: Snapshot, mine: seq<Snapshot>, table: Table, asOf: Option<int>)
    requires OwnBaseline(front, mine, table, asOf)
    ensures last.table == table ==> OwnBaseline(front + [last], mine + [last], table, asOf)
    ensures last.table != table ==> OwnBaseline(front + [last], mine, table, asOf)
  {}

  lemma NoSnapshots(table: Table, asOf: Option<int>)
    ensures OwnBaseline([], [], table, asOf)
  {}

  /** A baseline found is one of the table's own, and an unbounded look finds one if there is any. */
  lemma {:induction false} LatestIsOfTheTable(snapshots: seq<Snapshot>, table: Table, asOf: Option<int>)
    ensures OwnBaseline(snapshots, Of(snapshots, table), table, asOf)
  {
    hide OwnBaseline, Latest;
    if snapshots == [] {
      NoSnapshots(table, asOf);
    } else {
      var front, last := snapshots[..|snapshots| - 1], snapshots[|snapshots| - 1];
      LatestIsOfTheTable(front, table, asOf);
      OneMoreSnapshot(front, last, Of(front, table), table, asOf);
      assert snapshots == front + [last];
      assert Of(front, table) + [] == Of(front, table);
    }
  }

  /** Over any run of comparisons and explicit recordings elsewhere, snapshots are never altered, a
      table that has one gets no more, and a table that has none gets at most one. */
  lemma {:induction false} ABaselineIsNeverLost(snapshots: seq<Snapshot>, ops: seq<Operation>, table: Table)
    requires forall op :: op in ops ==> op.Record? ==> op.table != table
    ensures snapshots <= RunOperations(snapshots, ops)
    ensures var mine, after := Of(snapshots, table), Of(RunOperations(snapshots, ops), table);
      && (mine != [] ==> after == mine)
      && (mine == [] ==> |after| <= 1)
    decreases |ops|
  {
    if ops != [] {
      var op, next := ops[0], Apply(snapshots, ops[0]);
      if next != snapshots {
        OfAppends(snapshots, next[|snapshots|], table);
        assert next == snapshots + [next[|snapshots|]];
      }
      ABaselineIsNeverLost(next, ops[1..], table);
    }
  }

  lemma {:induction false} LatestIsMostRecent(snapshots: seq<Snapshot>, table: Table, asOf: Option<int>)
    ensures var best := Latest(snapshots, table, asOf);
      && (best.Some? ==> MostRecent(snapshots, table, asOf, best.value))
      && (best.None? ==> forall s :: s in Of(snapshots, table) ==> asOf.Some? && s.capturedAt > asOf.value)
  {
    if snapshots != [] {
      LatestIsMostRecent(snapshots[..|snapshots| - 1], table, asOf);
    }
  }

  /** After any comparisons and recordings, recordings of this very table included, a comparison diffs
      against the most recently captured snapshot in time, if there is one, and changes nothing. */
  lemma AComparisonUsesTheMostRecent(
    snapshots: seq<Snapshot>, ops: seq<Operation>, table: Table, asOf: Option<int>, current: seq<Column>, at: int)
    ensures var later := RunOperations(snapshots, ops);
      var (after, diff) := Compared(later, Compare(table, asOf, current, at));
      if InTime(later, table, asOf) then
        after == later &&
        exists best :: MostRecent(later, table, asOf, best) && diff == DiffOf(best.columns, current)
                       && Describes(diff, best.columns, current)
      else if Of(later, table) != [] then after == later && diff == TOO_RECENT
      else after == later + [Snapshot(table, current, at)] && diff == CREATED
  {
    hide RunOperations, DiffOf, Latest, Of;
    LatestIsMostRecent(RunOperations(snapshots, ops), table, asOf);
    var best := Latest(RunOperations(snapshots, ops), table, asOf);
    if best.Some? {
      TheDiffDescribes(best.value.columns, current);
    }
    hide Describes;
  }

  /** A baseline recorded explicitly, later than every other of its table, is the one from then on. */
  lemma ARecordingBecomesTheBaseline(
    snapshots: seq<Snapshot>, table: Table, columns: seq<Column>, at: int, ops: seq<Operation>,
    current: seq<Column>, now: int)
    requires forall s :: s in Of(snapshots, table) ==> s.capturedAt < at
    requires forall op :: op in ops ==> op.Record? ==> op.table != table
    ensures var later := RunOperations(Apply(snapshots, Record(table, columns, at)), ops);
      Compared(later, Compare(table, None, current, now)) == (later, DiffOf(columns, current))
  {
    hide RunOperations, DiffOf;
    var recorded := Snapshot(table, columns, at);
    OfAppends(snapshots, recorded, table);
    var store := snapshots + [recorded];
    LatestIsMostRecent(store, table, None);
    assert recorded in Of(store, table);
    DriftKeepsBeingReported(store, ops, table, current, now);
    var best := Latest(store, table, None).value;
    assert best in Of(snapshots, table) || best == recorded;
  }

  /** However many comparisons ran in between, with whatever moments, drift from the baseline is still
      reported by an unbounded comparison, until the table's types are the baseline's again. */
  lemma DriftKeepsBeingReported(
    snapshots: seq<Snapshot>, ops: seq<Operation>, table: Table, current: seq<Column>, at: int)
    requires forall op :: op in ops ==> op.Record? ==> op.table != table
    requires Of(snapshots, table) != []
    ensures Latest(snapshots, table, None).Some?
    ensures var baseline := Latest(snapshots, table, None).value;
      var (after, diff) := Compared(RunOperations(snapshots, ops), Compare(table, None, current, at));
      && after == RunOperations(snapshots, ops)
      && diff == DiffOf(baseline.columns, current)
      && (diff.hasDrift <==> Types(baseline.columns) != Types(current))
  {
    hide RunOperations, DiffOf;
    var later := RunOperations(snapshots, ops);
    ABaselineIsNeverLost(snapshots, ops, table);
    LatestIsOfTheTable(snapshots, table, None);
    LatestIsOfTheTable(later, table, None);
    DriftOfDiff(Latest(snapshots, table, None).value.columns, current);
  }

  lemma DriftOfDiff(baseline: seq<Column>, current: seq<Column>)
    ensures DiffOf(baseline, current).hasDrift <==> Types(baseline) != Types(current)
  {
    DriftExactlyWhenTypesDiffer(Types(baseline), Types(current));
  }
}
