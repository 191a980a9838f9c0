/** Two pieces of src/components/sections/WayWeWork.tsx.

    `AirPill`: a floating label whose horizontal offset follows the page's
    scroll progress. Only the integer part is modelled: the direction a trail
    gives (`dir`) and the three offsets the scroll-progress stops 0, 0.5 and 1
    are mapped to.

    `HowWeHelp`: a row of tabs of which one, `activeId`, is expanded. The row
    is drawn in the order `ordered`: the active tab first, then the other tabs
    sorted by their `number` string. The sort runs in place on the array that
    `filter` returned, so it is modelled as a method over an `array`. */
module WayWeWork {

  import opened Wrappers

  // ---------------------------------------------------------------- AirPill

  /** Which side a pill's trail streams from. */
  datatype Trail = Left | Right | NoTrail

  /** `dir`: 1 for a right trail, -1 for a left trail, 0 for none. */
  function TrailDir(trail: Trail): (d: int)
    ensures d == 1 <==> trail == Right
    ensures d == -1 <==> trail == Left
    ensures d == 0 <==> trail == NoTrail
  {
    match trail
    case Right => 1
    case Left => -1
    case NoTrail => 0
  }

  /** The output stops `[dir * strength, 0, dir * -strength]` of the offset,
      for the scroll-progress stops `[0, 0.5, 1]`. */
  function XStops(trail: Trail, strength: int): (xs: seq<int>)
    ensures |xs| == 3
    // centred at the midpoint, displaced by `strength` at the ends, in opposite directions
    ensures xs[1] == 0 && xs[2] == -xs[0]
    ensures xs[0] == strength || xs[0] == -strength || xs[0] == 0
    // the first stop is displaced towards the trail's side
    ensures xs[0] == TrailDir(trail) * strength
  {
    var dir := TrailDir(trail);
    [dir * strength, 0, dir * -strength]
  }

  /** A right-trailing pill starts `strength` to the right and ends
      `strength` to the left; a left-trailing pill mirrors it at every stop;
      a pill without a trail does not move. */
  lemma PillStops(strength: int)
    ensures XStops(Right, strength) == [strength, 0, -strength]
    ensures XStops(Left, strength) == [-strength, 0, strength]
    ensures forall k :: 0 <= k < 3 ==> XStops(Left, strength)[k] == -XStops(Right, strength)[k]
    ensures XStops(NoTrail, strength) == [0, 0, 0]
  {
  }

  // -------------------------------------------------------------- HowWeHelp

  /** A tab of the row; `caption` is the source's `label` field (a keyword in
      Dafny). The panel's description and bullet list are text only and are
      not modelled. */
  datatype Tab = Tab(id: string, number: string, caption: string, title: string)

  /** The five tabs, in declaration order. */
  function Tabs(): (ts: seq<Tab>)
    ensures |ts| == 5
  {
    [ Tab("t1", "01", "Content Creation", "Content Creation"),
      Tab("t2", "02", "Design", "Design"),
      Tab("t3", "03", "Social Media Management", "Social Media Management"),
      Tab("t4", "04", "Growth & Strategy", "Growth & Strategy"),
      Tab("t5", "05", "Analytics & Reporting", "Analytics & Reporting") ]
  }

  /** Lexicographic order on characters, standing for `localeCompare`
      (the two agree on the digit strings "01" to "05"). */
  predicate LexLe(a: string, b: string): (r: bool)
    // a prefix comes first, and a longer string after its proper prefix
    ensures a <= b ==> r
    ensures b <= a && a != b ==> !r
  {
    |a| == 0 || (|b| > 0 && (a[0] < b[0] || (a[0] == b[0] && LexLe(a[1..], b[1..]))))
  }

  lemma {:induction false} LexLeTotal(a: string, b: string)
    ensures LexLe(a, b) || LexLe(b, a)
  {
    if |a| > 0 && |b| > 0 && a[0] == b[0] {
      LexLeTotal(a[1..], b[1..]);
    }
  }

  lemma {:induction false} LexLeTrans(a: string, b: string, c: string)
    requires LexLe(a, b) && LexLe(b, c)
    ensures LexLe(a, c)
  {
    if |a| > 0 && a[0] == b[0] && b[0] == c[0] {
      LexLeTrans(a[1..], b[1..], c[1..]);
    }
  }

  lemma {:induction false} LexLeAntisym(a: string, b: string)
    requires LexLe(a, b) && LexLe(b, a)
    ensures a == b
  {
    if |a| > 0 {
      LexLeAntisym(a[1..], b[1..]);
      assert a == [a[0]] + a[1..] && b == [b[0]] + b[1..];
    }
  }

  /** The comparator of the sort: `x.number.localeCompare(y.number) <= 0`.
      Any two tabs are comparable one way or the other. */
  predicate NumberLe(x: Tab, y: Tab): (r: bool)
    ensures r || LexLe(y.number, x.number)
  {
    LexLeTotal(x.number, y.number);
    LexLe(x.number, y.number)
  }

  ghost predicate SortedByNumber(s: seq<Tab>)
  {
    forall i, j :: 0 <= i < j < |s| ==> NumberLe(s[i], s[j])
  }

  ghost predicate HasId(tabs: seq<Tab>, id: string)
  {
    exists t :: t in tabs && t.id == id
  }

  ghost predicate UniqueIds(tabs: seq<Tab>)
  {
    forall i, j :: 0 <= i < |tabs| && 0 <= j < |tabs| && tabs[i].id == tabs[j].id ==> i == j
  }

  /** No two different tabs share a number. */
  ghost predicate NumbersDistinct(tabs: seq<Tab>)
  {
    forall x, y :: x in tabs && y in tabs && x.number == y.number ==> x == y
  }

  /** `tabs.find((t) => t.id === id)`: a tab with that id, if there is one. */
  function Find(tabs: seq<Tab>, id: string): (r: Option<Tab>)
    ensures r.Some? <==> HasId(tabs, id)
    ensures r.Some? ==> r.value in tabs && r.value.id == id
  {
    if tabs == [] then None
    else if tabs[0].id == id then Some(tabs[0])
    else Find(tabs[1..], id)
  }

  /** `find` returns the FIRST tab with that id. */
  lemma {:induction false} FindIsFirst(tabs: seq<Tab>, id: string, k: nat)
    requires k < |tabs| && tabs[k].id == id
    requires forall j :: 0 <= j < k ==> tabs[j].id != id
    ensures Find(tabs, id) == Some(tabs[k])
  {
    if k > 0 {
      FindIsFirst(tabs[1..], id, k - 1);
    }
  }

  /** `tabs.filter((t) => t.id !== id)`. */
  function Rest(tabs: seq<Tab>, id: string): (r: seq<Tab>)
    ensures |r| <= |tabs|
    ensures forall k :: 0 <= k < |r| ==> r[k].id != id
  {
    if tabs == [] then []
    else (if tabs[0].id == id then [] else [tabs[0]]) + Rest(tabs[1..], id)
  }

  /** The filter keeps every tab with another id, as often as it occurs,
      and drops every tab with that id. */
  lemma {:induction false} RestCounts(tabs: seq<Tab>, id: string)
    ensures forall t :: multiset(Rest(tabs, id))[t] == if t.id == id then 0 else multiset(tabs)[t]
  {
    if tabs != [] {
      RestCounts(tabs[1..], id);
      assert tabs == [tabs[0]] + tabs[1..];
    }
  }

  /** `ordered` for active id `activeId`, as the source promises it: the
      active tab first, then the other tabs, each once, sorted by number. */
  ghost predicate IsOrdering(tabs: seq<Tab>, activeId: string, o: seq<Tab>)
  {
    && |o| >= 1
    && Find(tabs, activeId) == Some(o[0])
    && multiset(o[1..]) == multiset(Rest(tabs, activeId))
    && SortedByNumber(o[1..])
  }

  /** Exchanges two elements of the array. */
  method Swap(a: array<Tab>, i: int, j: int)
    requires 0 <= i < j < a.Length
    modifies a
    ensures a[i] == old(a[j]) && a[j] == old(a[i])
    ensures forall m :: 0 <= m < a.Length && m != i && m != j ==> a[m] == old(a[m])
    ensures multiset(a[..]) == multiset(old(a[..]))
  {
    a[i], a[j] := a[j], a[i];
  }

  /** One pass of insertion sort: given `a[..i]` sorted, moves `a[i]` left
      past every larger number, leaving `a[..i + 1]` sorted. */
  method InsertLast(a: array<Tab>, i: int)
    requires 0 <= i < a.Length
    requires forall p, q :: 0 <= p < q < i ==> NumberLe(a[p], a[q])
    modifies a
    ensures forall p, q :: 0 <= p < q <= i ==> NumberLe(a[p], a[q])
    ensures forall m :: i < m < a.Length ==> a[m] == old(a[m])
    ensures multiset(a[..]) == multiset(old(a[..]))
  {
    var j := i;
    while j > 0 && !NumberLe(a[j - 1], a[j])
      invariant 0 <= j <= i
      invariant forall p, q :: 0 <= p < q <= i && p != j && q != j ==> NumberLe(a[p], a[q])
      invariant forall q :: j < q <= i ==> NumberLe(a[j], a[q])
      invariant forall m :: i < m < a.Length ==> a[m] == old(a[m])
      invariant multiset(a[..]) == multiset(old(a[..]))
    {
      LexLeTotal(a[j - 1].number, a[j].number);
      Swap(a, j - 1, j);
      j := j - 1;
    }
    forall p | 0 <= p < j
      ensures NumberLe(a[p], a[j])
    {
      if p < j - 1 {
        LexLeTrans(a[p].number, a[j - 1].number, a[j].number);
      }
    }
  }

  /** `rest.sort((x, y) => x.number.localeCompare(y.number))`: insertion
      sort in place, by number. */
  method SortByNumber(a: array<Tab>)
    modifies a
    ensures SortedByNumber(a[..])
    ensures multiset(a[..]) == multiset(old(a[..]))
  {
    var i := 0;
    while i < a.Length
      invariant 0 <= i <= a.Length
      invariant forall p, q :: 0 <= p < q < i ==> NumberLe(a[p], a[q])
      invariant multiset(a[..]) == multiset(old(a[..]))
    {
      InsertLast(a, i);
      i := i + 1;
    }
  }

  /** The `useMemo` that computes `ordered`. The source asserts with `!` that
      the active id is among the tabs. */
  method Ordered(tabs: seq<Tab>, activeId: string) returns (ordered: seq<Tab>)
    requires HasId(tabs, activeId)
    ensures IsOrdering(tabs, activeId, ordered)
    ensures ordered[0].id == activeId
    ensures forall k :: 1 <= k < |ordered| ==> ordered[k].id != activeId
  {
    var a := Find(tabs, activeId).value;
    var r := Rest(tabs, activeId);
    RestCounts(tabs, activeId);
    var rest := new Tab[|r|](k requires 0 <= k < |r| => r[k]);
    assert rest[..] == r;
    SortByNumber(rest);
    ordered := [a] + rest[..];
    assert ordered[1..] == rest[..];
    forall k | 1 <= k < |ordered|
      ensures ordered[k].id != activeId
    {
      assert ordered[k] in multiset(rest[..]);
    }
  }

  /** With unique ids, a tab occurs once, and no other tab carries its id. */
  lemma {:induction false} UniqueIdsCount(tabs: seq<Tab>, t: Tab)
    requires UniqueIds(tabs) && t in tabs
    ensures forall u: Tab :: u.id == t.id ==> multiset(tabs)[u] == if u == t then 1 else 0
  {
    var x, tl := tabs[0], tabs[1..];
    assert tabs == [x] + tl;
    assert UniqueIds(tl) by {
      forall i, j | 0 <= i < |tl| && 0 <= j < |tl| && tl[i].id == tl[j].id
        ensures i == j
      {
        assert tabs[i + 1].id == tabs[j + 1].id;
      }
    }
    if x != t {
      UniqueIdsCount(tl, t);
    }
  }

  /** With unique ids and the active id among them, `ordered` is a
      permutation of the tabs: same length, every tab exactly once. */
  lemma OrderingIsPermutation(tabs: seq<Tab>, activeId: string, o: seq<Tab>)
    requires UniqueIds(tabs) && IsOrdering(tabs, activeId, o)
    ensures multiset(o) == multiset(tabs)
    ensures |o| == |tabs|
  {
    var a := o[0];
    assert o == [a] + o[1..];
    UniqueIdsCount(tabs, a);
    RestCounts(tabs, activeId);
    forall u: Tab
      ensures multiset(o)[u] == multiset(tabs)[u]
    {
    }
    assert multiset(o) == multiset(tabs);
    assert |multiset(o)| == |multiset(tabs)|;
  }

  /** After a click moves the active id from `oldId` to `newId`, the
      previously active tab is among the closed columns `ordered[1..]`. */
  lemma PreviousActiveIsClosed(tabs: seq<Tab>, oldId: string, newId: string, o: seq<Tab>)
    requires IsOrdering(tabs, newId, o)
    requires HasId(tabs, oldId) && oldId != newId
    ensures Find(tabs, oldId).value in o[1..]
  {
    var t := Find(tabs, oldId).value;
    RestCounts(tabs, newId);
    assert multiset(Rest(tabs, newId))[t] > 0;
    assert t in multiset(o[1..]);
  }

  /** The head of a sorted sequence has the least number. */
  lemma HeadIsLeast(a: seq<Tab>, x: Tab)
    requires SortedByNumber(a) && x in a
    ensures NumberLe(a[0], x)
  {
    var m :| 0 <= m < |a| && a[m] == x;
    if m == 0 {
      LexLeTotal(x.number, x.number);
    }
  }

  lemma SortedTail(a: seq<Tab>)
    requires |a| > 0 && SortedByNumber(a) && NumbersDistinct(a)
    ensures SortedByNumber(a[1..]) && NumbersDistinct(a[1..])
  {
    assert forall x :: x in a[1..] ==> x in a;
  }

  /** Removing equal heads from equal multisets leaves equal multisets. */
  lemma TailMultiset(a: seq<Tab>, b: seq<Tab>)
    requires |a| > 0 && |b| > 0 && a[0] == b[0] && multiset(a) == multiset(b)
    ensures multiset(a[1..]) == multiset(b[1..])
  {
    assert a == [a[0]] + a[1..] && b == [b[0]] + b[1..];
    assert multiset(a[1..]) == multiset(a) - multiset{a[0]};
    assert multiset(b[1..]) == multiset(b) - multiset{b[0]};
  }

  /** Two sequences sorted by number with the same elements, no two of which
      share a number, are equal. */
  lemma {:induction false} SortedUnique(a: seq<Tab>, b: seq<Tab>)
    requires SortedByNumber(a) && SortedByNumber(b)
    requires multiset(a) == multiset(b) && NumbersDistinct(a)
    ensures a == b
    decreases |a|
  {
    assert |a| == |multiset(a)| == |multiset(b)| == |b|;
    if |a| > 0 {
      assert a[0] in multiset(b) && b[0] in multiset(a);
      HeadIsLeast(a, b[0]);
      HeadIsLeast(b, a[0]);
      LexLeAntisym(a[0].number, b[0].number);
      assert a[0] == b[0];
      assert a == [a[0]] + a[1..] && b == [b[0]] + b[1..];
      TailMultiset(a, b);
      SortedTail(a);
      assert NumbersDistinct(b) by {
        assert forall x :: x in b <==> x in multiset(a);
      }
      SortedTail(b);
      SortedUnique(a[1..], b[1..]);
    }
  }

  /** Whatever has the elements of the filtered tabs inherits distinct numbers. */
  lemma RestNumbersDistinct(tabs: seq<Tab>, activeId: string, r: seq<Tab>)
    requires NumbersDistinct(tabs)
    requires multiset(r) == multiset(Rest(tabs, activeId))
    ensures NumbersDistinct(r)
  {
    RestCounts(tabs, activeId);
    forall x | x in r
      ensures x in tabs
    {
      assert multiset(Rest(tabs, activeId))[x] > 0;
    }
  }

  /** With distinct numbers, `ordered` is determined by the tabs and the
      active id alone; in particular the stability of the sort plays no part. */
  lemma OrderingUnique(tabs: seq<Tab>, activeId: string, o1: seq<Tab>, o2: seq<Tab>)
    requires NumbersDistinct(tabs)
    requires IsOrdering(tabs, activeId, o1) && IsOrdering(tabs, activeId, o2)
    ensures o1 == o2
  {
    var r1, r2 := o1[1..], o2[1..];
    RestNumbersDistinct(tabs, activeId, r1);
    SortedUnique(r1, r2);
    assert o1 == [o1[0]] + r1 && o2 == [o2[0]] + r2;
  }

  /** Five tabs with the ids "t1" to "t5" and the numbers "01" to "05", in
      that order, as `Tabs()` declares them. */
  ghost predicate FiveTabs(ts: seq<Tab>)
  {
    && |ts| == 5
    && ts[0].id == "t1" && ts[1].id == "t2" && ts[2].id == "t3" && ts[3].id == "t4" && ts[4].id == "t5"
    && ts[0].number == "01" && ts[1].number == "02" && ts[2].number == "03"
    && ts[3].number == "04" && ts[4].number == "05"
  }

  lemma TabsAreFive()
    ensures FiveTabs(Tabs())
  {
  }

  lemma FiveTabsDistinct(ts: seq<Tab>)
    requires FiveTabs(ts)
    ensures NumbersDistinct(ts)
  {
    forall x, y | x in ts && y in ts && x.number == y.number
      ensures x == y
    {
      var i :| 0 <= i < 5 && ts[i] == x;
      var j :| 0 <= j < 5 && ts[j] == y;
      assert ts[i].number == ts[j].number;
    }
  }

  /** With unique ids, filtering out the id of the tab at `k` removes that
      tab and nothing else, keeping the order of the others. */
  lemma {:induction false} RestRemovesOne(tabs: seq<Tab>, k: nat)
    requires k < |tabs| && UniqueIds(tabs)
    ensures Rest(tabs, tabs[k].id) == tabs[..k] + tabs[k + 1..]
  {
    var id := tabs[k].id;
    if k == 0 {
      RestKeepsAll(tabs[1..], id);
    } else {
      assert UniqueIds(tabs[1..]) by {
        forall i, j | 0 <= i < |tabs| - 1 && 0 <= j < |tabs| - 1 && tabs[1..][i].id == tabs[1..][j].id
          ensures i == j
        {
          assert tabs[i + 1].id == tabs[j + 1].id;
        }
      }
      RestRemovesOne(tabs[1..], k - 1);
      assert tabs[0].id != id;
      assert tabs[1..][k - 1] == tabs[k];
      assert tabs[..k] == [tabs[0]] + tabs[1..][..k - 1];
      assert tabs[k + 1..] == tabs[1..][k..];
    }
  }

  /** Filtering out an id no tab carries keeps every tab, in order. */
  lemma {:induction false} RestKeepsAll(tabs: seq<Tab>, id: string)
    requires forall i :: 0 <= i < |tabs| ==> tabs[i].id != id
    ensures Rest(tabs, id) == tabs
  {
    if tabs != [] {
      RestKeepsAll(tabs[1..], id);
      assert tabs == [tabs[0]] + tabs[1..];
    }
  }

  /** Two-digit strings with the same first digit compare by their second. */
  lemma TwoDigitLe(a: string, b: string)
    requires |a| == 2 && |b| == 2 && a[0] == b[0] && a[1] <= b[1]
    ensures LexLe(a, b)
  {
    assert a[1..][1..] == [];
  }

  /** A row whose numbers are two-digit strings "0d" with ascending d is sorted. */
  lemma AscendingDigitsSorted(r: seq<Tab>)
    requires forall k :: 0 <= k < |r| ==> |r[k].number| == 2 && r[k].number[0] == '0'
    requires forall i, j :: 0 <= i < j < |r| ==> r[i].number[1] <= r[j].number[1]
    ensures SortedByNumber(r)
  {
    forall i, j | 0 <= i < j < |r|
      ensures NumberLe(r[i], r[j])
    {
      TwoDigitLe(r[i].number, r[j].number);
    }
  }

  lemma FiveTabsUnique(ts: seq<Tab>)
    requires FiveTabs(ts)
    ensures UniqueIds(ts)
  {
  }

  lemma FirstTabRow(ts: seq<Tab>)
    requires FiveTabs(ts)
    ensures IsOrdering(ts, "t1", ts)
  {
    var closed := [ts[1], ts[2], ts[3], ts[4]];
    assert Find(ts, "t1") == Some(ts[0]) by {
      FindIsFirst(ts, "t1", 0);
    }
    assert Rest(ts, "t1") == closed by {
      FiveTabsUnique(ts);
      RestRemovesOne(ts, 0);
      assert ts[..0] + ts[1..] == closed;
    }
    assert SortedByNumber(closed) by {
      AscendingDigitsSorted(closed);
    }
    assert ts[1..] == closed;
  }

  /** On mount the row shows the tabs in declaration order. */
  lemma InitialRow(ts: seq<Tab>, o: seq<Tab>)
    requires FiveTabs(ts) && IsOrdering(ts, "t1", o)
    ensures o == ts
  {
    FiveTabsDistinct(ts);
    FirstTabRow(ts);
    OrderingUnique(ts, "t1", o, ts);
  }

  lemma ThirdTabRow(ts: seq<Tab>)
    requires FiveTabs(ts)
    ensures IsOrdering(ts, "t3", [ts[2], ts[0], ts[1], ts[3], ts[4]])
  {
    var want := [ts[2], ts[0], ts[1], ts[3], ts[4]];
    var closed := [ts[0], ts[1], ts[3], ts[4]];
    assert Find(ts, "t3") == Some(ts[2]) by {
      FindIsFirst(ts, "t3", 2);
    }
    assert Rest(ts, "t3") == closed by {
      FiveTabsUnique(ts);
      RestRemovesOne(ts, 2);
      assert ts[..2] + ts[3..] == closed;
    }
    assert SortedByNumber(closed) by {
      AscendingDigitsSorted(closed);
    }
    assert want[1..] == closed;
  }

  /** After a click on the third tab, it opens and the others close up in
      number order, the first tab included. */
  lemma ThirdTabClicked(ts: seq<Tab>, o: seq<Tab>)
    requires FiveTabs(ts) && IsOrdering(ts, "t3", o)
    ensures o == [ts[2], ts[0], ts[1], ts[3], ts[4]]
  {
    FiveTabsDistinct(ts);
    ThirdTabRow(ts);
    OrderingUnique(ts, "t3", o, [ts[2], ts[0], ts[1], ts[3], ts[4]]);
  }

  /** The row's single state cell. */
  class TabBoard {
    const tabs: seq<Tab>
    var activeId: string

    ghost predicate Valid()
      reads this
    {
      HasId(tabs, activeId)
    }

    /** `useState(tabs[0].id)`. */
    constructor (tabs: seq<Tab>)
      requires |tabs| > 0
      ensures this.tabs == tabs && activeId == tabs[0].id && Valid()
    {
      this.tabs := tabs;
      activeId := tabs[0].id;
    }

    /** A click on a closed column: `setActiveId(t.id)`. */
    method Select(id: string)
      requires Valid() && HasId(tabs, id)
      modifies this`activeId
      ensures activeId == id && Valid()
    {
      activeId := id;
    }

    /** The row as drawn: `ordered[0]` in the active panel, `ordered[1..]`
        as closed columns. */
    method View() returns (ordered: seq<Tab>)
      requires Valid()
      ensures IsOrdering(tabs, activeId, ordered)
      ensures ordered[0].id == activeId
    {
      ordered := Ordered(tabs, activeId);
    }
  }
}
