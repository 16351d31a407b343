/**
 Canonical JSON (src/blueprint/evidence.ts): recursive key sorting before printing, and why the
 printed text is a normal form of a value up to the order of object keys.
 */
module Canonical {
  import opened Text
  import opened Json
  import opened JsonRoundTrip

  /** The order of JavaScript's `<` on strings. */
  predicate Less(a: string, b: string)
  {
    b != "" && (a == "" || a[0] < b[0] || (a[0] == b[0] && Less(a[1..], b[1..])))
  }

  function InsertByKey(m: Member, sorted: seq<Member>): seq<Member>
  {
    if sorted == [] || Less(m.key, sorted[0].key) then [m] + sorted
    else [sorted[0]] + InsertByKey(m, sorted[1..])
  }

  function SortByKey(members: seq<Member>): seq<Member>
  {
    if members == [] then [] else InsertByKey(members[0], SortByKey(members[1..]))
  }

  /** Sorts the keys of every object in the tree; arrays keep their order. */
  function SortKeys(v: Value): Value
    decreases v, 1
  {
    match v
    case Arr(items) => Arr(SortItems(items))
    case Obj(members) => Obj(SortByKey(SortValues(members)))
    case _ => v
  }

  function SortItems(items: seq<Value>): (r: seq<Value>)
    ensures |r| == |items|
    decreases items, 0
  {
    if items == [] then [] else [SortKeys(items[0])] + SortItems(items[1..])
  }

  function SortValues(members: seq<Member>): (r: seq<Member>)
    ensures |r| == |members|
    decreases members, 0
  {
    if members == [] then []
    else [Member(members[0].key, SortKeys(members[0].value))] + SortValues(members[1..])
  }

  function Canonicalize(v: Value): string
  {
    Print(SortKeys(v))
  }

  // ---------------------------------------------------------------------
  // Values up to key order
  // ---------------------------------------------------------------------

  predicate Distinct(members: seq<Member>)
  {
    forall i, j :: 0 <= i < j < |members| ==> members[i].key != members[j].key
  }

  /** No object of the tree repeats a key, as no JavaScript object does. */
  predicate UniqueKeys(v: Value)
    decreases v, 1
  {
    match v
    case Arr(items) => forall x | x in items :: UniqueKeys(x)
    case Obj(members) => Distinct(members) && forall m | m in members :: UniqueKeys(m.value)
    case _ => true
  }

  /** Equal as JavaScript values: arrays item by item, objects key by key. */
  predicate Same(a: Value, b: Value)
    decreases a, 1
  {
    match a
    case Arr(xs) =>
      b.Arr? && |xs| == |b.items| && forall i :: 0 <= i < |xs| ==> Same(xs[i], b.items[i])
    case Obj(ms) =>
      && b.Obj?
      && (forall m | m in ms :: InAsSame(m, b.members))
      && (forall n | n in b.members :: HasSame(ms, n))
    case _ => a == b
  }

  predicate InAsSame(m: Member, ns: seq<Member>)
    decreases m, 2
  {
    exists n | n in ns :: m.key == n.key && Same(m.value, n.value)
  }

  predicate HasSame(ms: seq<Member>, n: Member)
    decreases ms, 0
  {
    exists m | m in ms :: m.key == n.key && Same(m.value, n.value)
  }

  // ---------------------------------------------------------------------
  // Sorting
  // ---------------------------------------------------------------------

  lemma {:induction false} LessTotal(a: string, b: string)
    ensures Less(a, b) || Less(b, a) || a == b
    ensures !(Less(a, b) && Less(b, a)) && !Less(a, a)
  {
    if a != "" {
      LessTotal(a[1..], a[1..]);
      if b != "" && a[0] == b[0] {
        LessTotal(a[1..], b[1..]);
        assert a == [a[0]] + a[1..] && b == [b[0]] + b[1..];
      }
    }
  }

  lemma {:induction false} LessTransitive(a: string, b: string, c: string)
    requires Less(a, b) && Less(b, c)
    ensures Less(a, c)
  {
    if a != "" && a[0] == b[0] == c[0] {
      LessTransitive(a[1..], b[1..], c[1..]);
    }
  }

  /** Strictly ascending keys. */
  ghost predicate Ascending(members: seq<Member>)
  {
    members == []
    || ((forall m | m in members[1..] :: Less(members[0].key, m.key)) && Ascending(members[1..]))
  }

  lemma {:induction false} InsertSorts(m: Member, sorted: seq<Member>)
    requires Ascending(sorted) && forall x | x in sorted :: x.key != m.key
    ensures Ascending(InsertByKey(m, sorted)) && |InsertByKey(m, sorted)| == |sorted| + 1
    ensures forall x :: x in InsertByKey(m, sorted) <==> x == m || x in sorted
  {
    if sorted == [] {
    } else if Less(m.key, sorted[0].key) {
      assert ([m] + sorted)[1..] == sorted;
      forall x | x in sorted ensures Less(m.key, x.key) {
        if x != sorted[0] {
          assert x in sorted[1..];
          LessTransitive(m.key, sorted[0].key, x.key);
        }
      }
    } else {
      LessTotal(m.key, sorted[0].key);
      InsertSorts(m, sorted[1..]);
      var r := [sorted[0]] + InsertByKey(m, sorted[1..]);
      assert r[1..] == InsertByKey(m, sorted[1..]);
      assert sorted == [sorted[0]] + sorted[1..];
    }
  }

  lemma {:induction false} SortSorts(members: seq<Member>)
    requires Distinct(members)
    ensures Ascending(SortByKey(members)) && |SortByKey(members)| == |members|
    ensures forall x :: x in SortByKey(members) <==> x in members
  {
    if members != [] {
      var tail := members[1..];
      assert forall i :: 0 <= i < |tail| ==> tail[i] == members[i + 1];
      SortSorts(tail);
      InsertSorts(members[0], SortByKey(tail));
      assert members == [members[0]] + tail;
    }
  }

  lemma FirstIsMember(members: seq<Member>)
    requires members != []
    ensures exists x :: x in members
  {
    assert members[0] in members;
  }

  /** An ascending list is determined by its members. */
  lemma {:induction false} AscendingUnique(a: seq<Member>, b: seq<Member>)
    requires Ascending(a) && Ascending(b) && forall x :: x in a <==> x in b
    ensures a == b
  {
    if a == [] {
      if b != [] { FirstIsMember(b); }
    } else {
      assert a[0] in b;
      assert b[0] in a;
      LessTotal(a[0].key, b[0].key);
      assert a[0] == b[0];
      TailsAgree(a, b);
      AscendingUnique(a[1..], b[1..]);
      assert a == [a[0]] + a[1..] && b == [b[0]] + b[1..];
    }
  }

  lemma TailsAgree(a: seq<Member>, b: seq<Member>)
    requires Ascending(a) && Ascending(b) && a != [] && b != [] && a[0] == b[0]
    requires forall x :: x in a <==> x in b
    ensures forall x :: x in a[1..] <==> x in b[1..]
  {
    LessTotal(a[0].key, a[0].key);
    assert a == [a[0]] + a[1..] && b == [b[0]] + b[1..];
    forall x ensures x in a[1..] <==> x in b[1..] {
      assert x in a <==> x == a[0] || x in a[1..];
      assert x in b <==> x == b[0] || x in b[1..];
      assert x in a[1..] || x in b[1..] ==> Less(a[0].key, x.key);
    }
  }

  lemma {:induction false} SortValuesAt(members: seq<Member>, i: nat)
    requires i < |members|
    ensures SortValues(members)[i] == Member(members[i].key, SortKeys(members[i].value))
  {
    if i > 0 {
      SortValuesAt(members[1..], i - 1);
    }
  }

  lemma {:induction false} SortItemsAt(items: seq<Value>, i: nat)
    requires i < |items|
    ensures SortItems(items)[i] == SortKeys(items[i])
  {
    if i > 0 {
      SortItemsAt(items[1..], i - 1);
    }
  }

  lemma SortValuesDistinct(members: seq<Member>)
    requires Distinct(members)
    ensures Distinct(SortValues(members))
  {
    forall i, j | 0 <= i < j < |members| ensures SortValues(members)[i].key != SortValues(members)[j].key {
      SortValuesAt(members, i);
      SortValuesAt(members, j);
    }
  }

  // ---------------------------------------------------------------------
  // The normal form
  // ---------------------------------------------------------------------

  /** Values equal up to key order sort to one tree, and only they do. */
  lemma {:induction false} SortDecides(a: Value, b: Value)
    requires UniqueKeys(a) && UniqueKeys(b)
    ensures SortKeys(a) == SortKeys(b) <==> Same(a, b)
    decreases a, 1
  {
    match a
    case Arr(xs) =>
      if b.Arr? { ItemsDecide(xs, b.items); }
    case Obj(ms) =>
      if b.Obj? { MembersDecide(ms, b.members); }
    case _ =>
  }

  lemma {:induction false} ItemsDecide(xs: seq<Value>, ys: seq<Value>)
    requires (forall x | x in xs :: UniqueKeys(x)) && (forall y | y in ys :: UniqueKeys(y))
    ensures SortItems(xs) == SortItems(ys) <==> |xs| == |ys| && forall i :: 0 <= i < |xs| ==> Same(xs[i], ys[i])
    decreases xs, 0
  {
    forall i | 0 <= i < |xs| && |xs| == |ys|
      ensures SortItems(xs)[i] == SortItems(ys)[i] <==> Same(xs[i], ys[i])
    {
      SortItemsAt(xs, i);
      SortItemsAt(ys, i);
      SortDecides(xs[i], ys[i]);
    }
  }

  /** Sorted lists agree exactly when they have the same members. */
  lemma SortAgrees(a: seq<Member>, b: seq<Member>)
    requires Distinct(a) && Distinct(b)
    ensures SortByKey(a) == SortByKey(b) <==> forall x :: x in a <==> x in b
  {
    SortSorts(a);
    SortSorts(b);
    if forall x :: x in a <==> x in b {
      AscendingUnique(SortByKey(a), SortByKey(b));
    }
    if SortByKey(a) == SortByKey(b) {
      forall x ensures x in a <==> x in b {
        assert x in SortByKey(a) <==> x in a;
        assert x in SortByKey(b) <==> x in b;
      }
    }
  }

  lemma SortedIn(x: Member, members: seq<Member>)
    ensures x in SortValues(members) <==> exists m | m in members :: x == Member(m.key, SortKeys(m.value))
  {
    var s := SortValues(members);
    if x in s {
      var j :| 0 <= j < |s| && s[j] == x;
      SortValuesAt(members, j);
      assert members[j] in members;
    }
    if m: Member :| m in members && x == Member(m.key, SortKeys(m.value)) {
      var j :| 0 <= j < |members| && members[j] == m;
      SortValuesAt(members, j);
      assert s[j] == x;
    }
  }

  lemma {:induction false} MembersDecide(ms: seq<Member>, ns: seq<Member>)
    requires UniqueKeys(Obj(ms)) && UniqueKeys(Obj(ns))
    ensures SortByKey(SortValues(ms)) == SortByKey(SortValues(ns)) <==> Same(Obj(ms), Obj(ns))
    decreases ms, 0
  {
    SortValuesDistinct(ms);
    SortValuesDistinct(ns);
    SortAgrees(SortValues(ms), SortValues(ns));
    forall m, n | m in ms && n in ns
      ensures SortKeys(m.value) == SortKeys(n.value) <==> Same(m.value, n.value)
    {
      SortDecides(m.value, n.value);
    }
    if Same(Obj(ms), Obj(ns)) {
      SameMembersSorted(ms, ns);
    }
    if forall x :: x in SortValues(ms) <==> x in SortValues(ns) {
      SortedMembersSame(ms, ns);
    }
  }

  lemma SameMembersSorted(ms: seq<Member>, ns: seq<Member>)
    requires Same(Obj(ms), Obj(ns))
    requires forall m, n | m in ms && n in ns :: SortKeys(m.value) == SortKeys(n.value) <==> Same(m.value, n.value)
    ensures forall x :: x in SortValues(ms) <==> x in SortValues(ns)
  {
    forall x ensures x in SortValues(ms) <==> x in SortValues(ns) {
      SortedIn(x, ms);
      SortedIn(x, ns);
      if x in SortValues(ms) {
        var m :| m in ms && x == Member(m.key, SortKeys(m.value));
        assert InAsSame(m, ns);
      }
      if x in SortValues(ns) {
        var n :| n in ns && x == Member(n.key, SortKeys(n.value));
        assert HasSame(ms, n);
      }
    }
  }

  lemma SortedMembersSame(ms: seq<Member>, ns: seq<Member>)
    requires forall x :: x in SortValues(ms) <==> x in SortValues(ns)
    requires forall m, n | m in ms && n in ns :: SortKeys(m.value) == SortKeys(n.value) <==> Same(m.value, n.value)
    ensures Same(Obj(ms), Obj(ns))
  {
    forall m | m in ms ensures InAsSame(m, ns) {
      SortedIn(Member(m.key, SortKeys(m.value)), ms);
      SortedIn(Member(m.key, SortKeys(m.value)), ns);
    }
    forall n | n in ns ensures HasSame(ms, n) {
      SortedIn(Member(n.key, SortKeys(n.value)), ms);
      SortedIn(Member(n.key, SortKeys(n.value)), ns);
    }
  }

  lemma {:induction false} SortKeepsForm(v: Value)
    requires WellFormed(v) && UniqueKeys(v)
    ensures WellFormed(SortKeys(v)) && UniqueKeys(SortKeys(v)) && Same(SortKeys(v), v)
    decreases v
  {
    match v
    case Arr(items) =>
      forall i | 0 <= i < |items|
        ensures WellFormed(SortItems(items)[i]) && UniqueKeys(SortItems(items)[i])
        ensures Same(SortItems(items)[i], items[i])
      {
        SortItemsAt(items, i);
        SortKeepsForm(items[i]);
      }
    case Obj(members) =>
      var sorted := SortByKey(SortValues(members));
      SortValuesDistinct(members);
      SortSorts(SortValues(members));
      AscendingDistinct(sorted);
      forall i | 0 <= i < |members|
        ensures SortValues(members)[i].key == members[i].key
        ensures var x := SortValues(members)[i].value; WellFormed(x) && UniqueKeys(x) && Same(x, members[i].value)
      {
        SortValuesAt(members, i);
        SortKeepsForm(members[i].value);
      }
      SameBySort(sorted, SortValues(members), members);
    case _ =>
  }

  lemma SameBySort(sorted: seq<Member>, mapped: seq<Member>, members: seq<Member>)
    requires |mapped| == |members| && forall x :: x in sorted <==> x in mapped
    requires forall i :: 0 <= i < |members| ==>
               mapped[i].key == members[i].key && Same(mapped[i].value, members[i].value)
    ensures Same(Obj(sorted), Obj(members))
  {
    forall x | x in sorted ensures InAsSame(x, members) {
      var i :| 0 <= i < |mapped| && mapped[i] == x;
      assert members[i] in members;
    }
    forall n | n in members ensures HasSame(sorted, n) {
      var j :| 0 <= j < |members| && members[j] == n;
      assert mapped[j] in sorted;
    }
  }

  lemma {:induction false} AscendingDistinct(members: seq<Member>)
    requires Ascending(members)
    ensures Distinct(members)
  {
    if members != [] {
      AscendingDistinct(members[1..]);
      forall j | 0 < j < |members| ensures members[0].key != members[j].key {
        assert members[j] in members[1..];
        LessTotal(members[0].key, members[0].key);
      }
      assert forall j :: 0 < j < |members| ==> members[j] == members[1..][j - 1];
    }
  }

  /** Two values print to the same canonical text exactly when they are equal up to key order. */
  lemma CanonicalDecides(a: Value, b: Value)
    requires WellFormed(a) && UniqueKeys(a) && WellFormed(b) && UniqueKeys(b)
    ensures Canonicalize(a) == Canonicalize(b) <==> Same(a, b)
  {
    SortKeepsForm(a);
    SortKeepsForm(b);
    SortDecides(a, b);
    if Canonicalize(a) == Canonicalize(b) {
      PrintInjective(SortKeys(a), SortKeys(b));
    }
  }

  /** Reading canonical text gives a value equal to the input, and canonicalizing it changes nothing. */
  lemma CanonicalIsStable(v: Value)
    requires WellFormed(v) && UniqueKeys(v)
    ensures Parse(Canonicalize(v)) == Some(SortKeys(v)) && Same(SortKeys(v), v)
    ensures Canonicalize(SortKeys(v)) == Canonicalize(v)
  {
    SortKeepsForm(v);
    RoundTrip(SortKeys(v));
    SortDecides(SortKeys(v), v);
  }
}
