/**
 `sortProjects`: the default key returns its input as is; the `name`, `date`
 and `complexity` keys sort a copy with `Array.prototype.sort`, which is
 stable. The model sorts with a stable insertion sort and proves that every
 sorted, stable arrangement of the input is that same sequence, so the result
 does not depend on the sorting algorithm the engine uses.
 */
module Sorting {
  import opened Text
  import opened Catalog

  datatype SortKey = Unsorted | ByName | ByDate | ByComplexity

  /** The `<select>` value that picks each key; every unrecognised value reaches the default branch. */
  function KeyName(k: SortKey): string {
    match k
    case Unsorted => "default"
    case ByName => "name"
    case ByDate => "date"
    case ByComplexity => "complexity"
  }

  /** The `switch` on the sort value: exactly the three key names select a sort. */
  function ParseSortKey(sortBy: string): (k: SortKey)
    ensures k != Unsorted ==> KeyName(k) == sortBy
    ensures k == Unsorted ==> forall key: SortKey | key != Unsorted :: KeyName(key) != sortBy
  {
    if sortBy == "name" then ByName
    else if sortBy == "date" then ByDate
    else if sortBy == "complexity" then ByComplexity
    else Unsorted
  }

  /** The complexity levels from easiest to hardest. */
  const Levels: seq<Complexity> := [Beginner, Intermediate, Advanced]

  /** The `complexityOrder` table: a level's rank is its 1-based place among the levels. */
  function Rank(c: Complexity): (r: nat)
    ensures 1 <= r <= |Levels| && Levels[r - 1] == c
  {
    match c
    case Beginner => 1
    case Intermediate => 2
    case Advanced => 3
  }

  /** A calendar date: a month from 1 to 12 and a day from 1 to 31. */
  predicate ValidDate(d: Date) {
    1 <= d.month <= 12 && 1 <= d.day <= 31
  }

  /**
   A number that grows with the calendar on valid dates, standing in for the
   time value `new Date(...)` yields: each month takes 32 slots and each
   year 13 months' worth, so no two valid dates collide and later dates get
   larger numbers.
   */
  function DayStamp(d: Date): nat {
    d.year * 416 + d.month * 32 + d.day
  }

  /** `a` is on or before `b` in the calendar: field by field, year first. */
  predicate DateLe(a: Date, b: Date): (r: bool)
    ensures ValidDate(a) && ValidDate(b) ==> (r <==> DayStamp(a) <= DayStamp(b))
  {
    || a.year < b.year
    || (a.year == b.year && (a.month < b.month || (a.month == b.month && a.day <= b.day)))
  }

  /**
   The comparator each key passes to `sort`, as a number: titles through
   the title order (negative, zero or positive), dates as the difference of
   the later and the earlier stamp, ranks as a difference.
   */
  function Compare(k: SortKey, a: Project, b: Project): int {
    match k
    case Unsorted => 0
    case ByName => if a.title == b.title then 0 else if LexLe(a.title, b.title) then -1 else 1
    case ByDate => DayStamp(b.date) - DayStamp(a.date)
    case ByComplexity => Rank(a.complexity) - Rank(b.complexity)
  }

  /**
   `a` may be placed before `b`: the comparator does not put `a` strictly
   after `b`. Titles ascend, dates descend (newest first), ranks ascend.
   */
  predicate Before(k: SortKey, a: Project, b: Project): (r: bool)
    ensures k != ByDate || (ValidDate(a.date) && ValidDate(b.date)) ==> (r <==> Compare(k, a, b) <= 0)
  {
    // Reflexivity of the title order: equal titles compare as 0 and may precede each other.
    LexLeTotal(a.title, a.title);
    match k
    case Unsorted => true
    case ByName => LexLe(a.title, b.title)
    case ByDate => DateLe(b.date, a.date)
    case ByComplexity => Rank(a.complexity) <= Rank(b.complexity)
  }

  lemma BeforeTotal(k: SortKey, a: Project, b: Project)
    ensures Before(k, a, b) || Before(k, b, a)
  {
    if k == ByName {
      LexLeTotal(a.title, b.title);
    }
  }

  lemma BeforeTransitive(k: SortKey, a: Project, b: Project, c: Project)
    requires Before(k, a, b) && Before(k, b, c)
    ensures Before(k, a, c)
  {
    if k == ByName {
      LexLeTransitive(a.title, b.title, c.title);
    }
  }

  /** Neither project goes strictly after the other: the comparator returns 0. */
  predicate Tied(k: SortKey, a: Project, b: Project) {
    Before(k, a, b) && Before(k, b, a)
  }

  /** Ties are exactly equal titles, equal dates, or equal complexity ranks. */
  lemma TiedIff(k: SortKey, a: Project, b: Project)
    ensures k == ByName ==> (Tied(k, a, b) <==> a.title == b.title)
    ensures k == ByDate ==> (Tied(k, a, b) <==> a.date == b.date)
    ensures k == ByComplexity ==> (Tied(k, a, b) <==> a.complexity == b.complexity)
  {
    if k == ByName && Tied(k, a, b) {
      LexLeAntisymmetric(a.title, b.title);
    }
    if k == ByName && a.title == b.title {
      // Reflexivity of the title order: equal titles compare as 0 and may precede each other.
    LexLeTotal(a.title, a.title);
    }
  }

  ghost predicate Sorted(k: SortKey, s: seq<Project>) {
    forall i, j | 0 <= i < j < |s| :: Before(k, s[i], s[j])
  }

  /** The elements of `s` tied with `x`, in the order `s` has them. */
  ghost function Peers(k: SortKey, x: Project, s: seq<Project>): seq<Project> {
    if s == [] then []
    else (if Tied(k, x, s[0]) then [s[0]] else []) + Peers(k, x, s[1..])
  }

  /** Every group of tied elements appears in `r` in the same order as in `s`. */
  ghost predicate Stable(k: SortKey, r: seq<Project>, s: seq<Project>) {
    forall x :: Peers(k, x, r) == Peers(k, x, s)
  }

  lemma {:induction false} PeersConcat(k: SortKey, x: Project, a: seq<Project>, b: seq<Project>)
    ensures Peers(k, x, a + b) == Peers(k, x, a) + Peers(k, x, b)
    decreases |a|
  {
    if a == [] {
      assert a + b == b;
    } else {
      assert (a + b)[0] == a[0];
      assert (a + b)[1..] == a[1..] + b;
      PeersConcat(k, x, a[1..], b);
    }
  }

  lemma {:induction false} PeersMembers(k: SortKey, x: Project, s: seq<Project>)
    ensures forall y :: y in Peers(k, x, s) ==> y in s
    ensures x in s ==> x in Peers(k, x, s)
    decreases |s|
  {
    if s != [] {
      PeersMembers(k, x, s[1..]);
      BeforeTotal(k, x, x);
    }
  }

  /** Nothing in `s` ties with `y` when `y` ties with `x` and all of `s` goes strictly after `x`. */
  lemma {:induction false} PeersNoneAfter(k: SortKey, x: Project, y: Project, s: seq<Project>)
    requires Tied(k, y, x)
    requires forall i | 0 <= i < |s| :: !Before(k, s[i], x)
    ensures Peers(k, y, s) == []
    decreases |s|
  {
    if s != [] {
      if Tied(k, y, s[0]) {
        BeforeTransitive(k, s[0], y, x);
      }
      PeersNoneAfter(k, x, y, s[1..]);
    }
  }

  lemma SortedTail(k: SortKey, s: seq<Project>)
    requires Sorted(k, s) && s != []
    ensures Sorted(k, s[1..])
  {
    forall i, j | 0 <= i < j < |s[1..]|
      ensures Before(k, s[1..][i], s[1..][j])
    {
      assert s[1..][i] == s[i + 1] && s[1..][j] == s[j + 1];
    }
  }

  /** Places `x` after every element it does not go strictly before, and before the rest. */
  function Insert(k: SortKey, x: Project, s: seq<Project>): (r: seq<Project>)
    ensures multiset(r) == multiset(s) + multiset{x}
  {
    if s == [] then [x]
    else if !Before(k, s[0], x) then [x] + s
    else
      assert s == [s[0]] + s[1..];
      [s[0]] + Insert(k, x, s[1..])
  }

  lemma {:induction false} InsertSorted(k: SortKey, x: Project, s: seq<Project>)
    requires Sorted(k, s)
    ensures Sorted(k, Insert(k, x, s))
    decreases |s|
  {
    var r := Insert(k, x, s);
    if s != [] {
      if !Before(k, s[0], x) {
        BeforeTotal(k, s[0], x);
        forall j | 0 < j < |r|
          ensures Before(k, x, r[j])
        {
          if j > 1 {
            BeforeTransitive(k, x, s[0], r[j]);
          }
        }
      } else {
        SortedTail(k, s);
        InsertSorted(k, x, s[1..]);
        var t := Insert(k, x, s[1..]);
        forall j | 0 <= j < |t|
          ensures Before(k, s[0], t[j])
        {
          assert t[j] in multiset(t);
          assert t[j] == x || t[j] in s[1..];
        }
        assert r == [s[0]] + t;
      }
    }
  }

  /** The contribution of a one-element sequence to a group of ties. */
  lemma PeersSingleton(k: SortKey, y: Project, x: Project)
    ensures Peers(k, y, [x]) == if Tied(k, y, x) then [x] else []
  {
    assert Peers(k, y, [x]) == (if Tied(k, y, x) then [x] else []) + Peers(k, y, []);
  }

  lemma {:induction false} InsertPeers(k: SortKey, x: Project, s: seq<Project>, y: Project)
    requires Sorted(k, s)
    ensures Peers(k, y, Insert(k, x, s)) == Peers(k, y, s) + (if Tied(k, y, x) then [x] else [])
    decreases |s|
  {
    PeersSingleton(k, y, x);
    if s == [] {
    } else if !Before(k, s[0], x) {
      InsertPeersInFront(k, x, s, y);
    } else {
      SortedTail(k, s);
      InsertPeers(k, x, s[1..], y);
      ConsPeers(k, y, s[0], Insert(k, x, s[1..]), s[1..], if Tied(k, y, x) then [x] else []);
      assert s == [s[0]] + s[1..];
    }
  }

  /** Putting the same element in front of both sides keeps a ties equation. */
  lemma ConsPeers(k: SortKey, y: Project, h: Project, t: seq<Project>, u: seq<Project>, e: seq<Project>)
    requires Peers(k, y, t) == Peers(k, y, u) + e
    ensures Peers(k, y, [h] + t) == Peers(k, y, [h] + u) + e
  {
    PeersConcat(k, y, [h], t);
    PeersConcat(k, y, [h], u);
  }

  /** When `x` lands in front, nothing after it ties with anything `x` ties with. */
  lemma InsertPeersInFront(k: SortKey, x: Project, s: seq<Project>, y: Project)
    requires Sorted(k, s) && s != [] && !Before(k, s[0], x)
    ensures Peers(k, y, [x] + s) == Peers(k, y, s) + (if Tied(k, y, x) then [x] else [])
  {
    PeersConcat(k, y, [x], s);
    PeersSingleton(k, y, x);
    if Tied(k, y, x) {
      forall i | 0 <= i < |s|
        ensures !Before(k, s[i], x)
      {
        if i > 0 && Before(k, s[i], x) {
          BeforeTransitive(k, s[0], s[i], x);
        }
      }
      PeersNoneAfter(k, x, y, s);
    }
  }

  lemma InsertStable(k: SortKey, x: Project, sorted: seq<Project>, s: seq<Project>)
    requires Sorted(k, sorted) && Stable(k, sorted, s)
    ensures Stable(k, Insert(k, x, sorted), s + [x])
  {
    forall y
      ensures Peers(k, y, Insert(k, x, sorted)) == Peers(k, y, s + [x])
    {
      InsertPeers(k, x, sorted, y);
      PeersConcat(k, y, s, [x]);
      PeersSingleton(k, y, x);
    }
  }

  /** Insertion sort over the input from left to right. */
  function InsertionSort(k: SortKey, s: seq<Project>): (r: seq<Project>)
    ensures multiset(r) == multiset(s)
    ensures Sorted(k, r)
    ensures Stable(k, r, s)
    decreases |s|
  {
    if s == [] then []
    else
      var init, x := s[..|s| - 1], s[|s| - 1];
      assert s == init + [x];
      var sorted := InsertionSort(k, init);
      InsertSorted(k, x, sorted);
      InsertStable(k, x, sorted, init);
      Insert(k, x, sorted)
  }

  /** Sorting one more element inserts it into the sorted prefix. */
  lemma InsertionSortSnoc(k: SortKey, s: seq<Project>, x: Project)
    ensures InsertionSort(k, s + [x]) == Insert(k, x, InsertionSort(k, s))
  {
    assert (s + [x])[..|s + [x]| - 1] == s;
  }

  /**
   Two sorted sequences that agree on the order of every group of tied
   elements are the same sequence.
   */
  lemma {:induction false} SortedStableUnique(k: SortKey, a: seq<Project>, b: seq<Project>)
    requires Sorted(k, a) && Sorted(k, b) && Stable(k, a, b)
    ensures a == b
    decreases |a|
  {
    if a == [] || b == [] {
      if a != [] {
        PeersMembers(k, a[0], a);
      } else if b != [] {
        PeersMembers(k, b[0], b);
      }
    } else {
      var a0, b0 := a[0], b[0];
      PeersMembers(k, a0, a);
      PeersMembers(k, a0, b);
      PeersMembers(k, b0, b);
      PeersMembers(k, b0, a);
      assert Peers(k, a0, a) == Peers(k, a0, b);
      assert Peers(k, b0, a) == Peers(k, b0, b);
      assert a0 in b && b0 in a;
      BeforeTotal(k, a0, a0);
      BeforeTotal(k, b0, b0);
      assert Before(k, b0, a0) by {
        var m :| 0 <= m < |b| && b[m] == a0;
      }
      assert Before(k, a0, b0) by {
        var m :| 0 <= m < |a| && a[m] == b0;
      }
      assert a0 == b0 by {
        assert Peers(k, a0, a)[0] == a0;
        assert Peers(k, a0, b)[0] == b0;
      }
      forall x
        ensures Peers(k, x, a[1..]) == Peers(k, x, b[1..])
      {
        assert Peers(k, x, a) == Peers(k, x, b);
        var head := if Tied(k, x, a0) then [a0] else [];
        assert Peers(k, x, a) == head + Peers(k, x, a[1..]);
        assert Peers(k, x, b) == head + Peers(k, x, b[1..]);
        assert Peers(k, x, a[1..]) == (head + Peers(k, x, a[1..]))[|head|..];
        assert Peers(k, x, b[1..]) == (head + Peers(k, x, b[1..]))[|head|..];
      }
      SortedTail(k, a);
      SortedTail(k, b);
      SortedStableUnique(k, a[1..], b[1..]);
      assert a == [a0] + a[1..];
      assert b == [b0] + b[1..];
    }
  }

  /** Any sorted, stable arrangement of the input is exactly the insertion sort's result. */
  lemma StableSortIsUnique(k: SortKey, s: seq<Project>, r: seq<Project>)
    requires Sorted(k, r) && Stable(k, r, s)
    ensures r == InsertionSort(k, s)
  {
    SortedStableUnique(k, r, InsertionSort(k, s));
  }

  /**
   `sortProjects(projects, sortBy)`: a permutation of the input; under the
   default branch the input itself; otherwise ordered by the selected key,
   with tied projects kept in their input order.
   */
  function SortProjects(projects: seq<Project>, sortBy: string): (r: seq<Project>)
    ensures multiset(r) == multiset(projects)
    ensures Sorted(ParseSortKey(sortBy), r)
    ensures Stable(ParseSortKey(sortBy), r, projects)
    ensures ParseSortKey(sortBy) == Unsorted ==> r == projects
    ensures sortBy == "name" ==> forall i, j | 0 <= i < j < |r| :: LexLe(r[i].title, r[j].title)
    ensures sortBy == "date" ==> forall i, j | 0 <= i < j < |r| :: DateLe(r[j].date, r[i].date)
    ensures sortBy == "complexity" ==> forall i, j | 0 <= i < j < |r| :: Rank(r[i].complexity) <= Rank(r[j].complexity)
  {
    match ParseSortKey(sortBy)
    case Unsorted => projects
    case k => InsertionSort(k, projects)
  }

  /** The default branch returns the input for every unrecognised key. */
  lemma DefaultKeepsOrder(projects: seq<Project>, sortBy: string)
    requires sortBy != "name" && sortBy != "date" && sortBy != "complexity"
    ensures SortProjects(projects, sortBy) == projects
  {
  }

  /** Sorting a second time with the same key gives the same sequence. */
  lemma SortTwice(projects: seq<Project>, sortBy: string)
    ensures SortProjects(SortProjects(projects, sortBy), sortBy) == SortProjects(projects, sortBy)
  {
    var k := ParseSortKey(sortBy);
    if k != Unsorted {
      var r := SortProjects(projects, sortBy);
      var rr := SortProjects(r, sortBy);
      assert Stable(k, rr, projects) by {
        forall x
          ensures Peers(k, x, rr) == Peers(k, x, projects)
        {
          assert Peers(k, x, rr) == Peers(k, x, r);
        }
      }
      SortedStableUnique(k, rr, r);
    }
  }

  /** After a complexity sort no advanced project precedes a beginner one. */
  lemma ComplexitySortBeginnersFirst(projects: seq<Project>, i: nat, j: nat)
    requires 0 <= i < j < |SortProjects(projects, "complexity")|
    ensures var r := SortProjects(projects, "complexity");
            !(r[i].complexity == Advanced && r[j].complexity == Beginner)
  {
  }
}
