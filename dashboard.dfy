/**
 * The dashboard's query logic: the search filter, the three-key sort on a copy of the filtered
 * list, the sort-toggle state, and the summary figures.
 */
module Dashboard {
  import opened Common
  import opened Types
  import opened CustomerStore
  import opened StatusEngine

  // ---------------------------------------------------------------------------------------
  // Search
  // ---------------------------------------------------------------------------------------

  /** `toLowerCase` on the ASCII range: 'A'..'Z' become 'a'..'z', everything else is kept. */
  function LowerChar(ch: char): (r: char)
    ensures 'A' <= ch <= 'Z' ==> r as int == ch as int + 32
    ensures !('A' <= ch <= 'Z') ==> r == ch
    ensures !('A' <= r <= 'Z')
  {
    if 'A' <= ch <= 'Z' then (ch as int + 32) as char else ch
  }

  function Lower(s: string): (r: string)
    ensures |r| == |s| && forall i :: 0 <= i < |s| ==> r[i] == LowerChar(s[i])
  {
    seq(|s|, i requires 0 <= i < |s| => LowerChar(s[i]))
  }

  /** `t` occurs in `s` at position `i`. */
  ghost predicate OccursAt(s: string, t: string, i: int) {
    0 <= i && i + |t| <= |s| && s[i..i + |t|] == t
  }

  predicate StartsWith(s: string, t: string) {
    |t| <= |s| && s[..|t|] == t
  }

  /** `s.includes(t)`, scanning the start positions from the left. */
  function Includes(s: string, t: string): (r: bool)
    ensures r <==> exists i :: OccursAt(s, t, i)
    decreases |s|
  {
    if StartsWith(s, t) then
      assert OccursAt(s, t, 0);
      true
    else if |s| == 0 then
      assert forall i :: !OccursAt(s, t, i);
      false
    else
      var rest := Includes(s[1..], t);
      ShiftOccurrence(s, t);
      rest
  }

  /** An occurrence in `s` after position 0 is an occurrence in `s[1..]` one place earlier. */
  lemma ShiftOccurrence(s: string, t: string)
    requires |s| > 0 && !StartsWith(s, t)
    ensures (exists i :: OccursAt(s, t, i)) <==> (exists i :: OccursAt(s[1..], t, i))
  {
    forall i | OccursAt(s, t, i) ensures OccursAt(s[1..], t, i - 1) {
      assert i != 0;
      assert s[1..][i - 1..i - 1 + |t|] == s[i..i + |t|];
    }
    forall i | OccursAt(s[1..], t, i) ensures OccursAt(s, t, i + 1) {
      assert s[1..][i..i + |t|] == s[i + 1..i + 1 + |t|];
    }
  }

  /** Every string includes the empty term. */
  lemma IncludesEmpty(s: string)
    ensures Includes(s, "")
  {
    assert OccursAt(s, "", 0);
  }

  /** `lower(name).includes(lower(term)) || phone.includes(term)`. */
  predicate MatchesSearch(c: Customer, term: string) {
    Includes(Lower(c.name), Lower(term)) || Includes(c.phone, term)
  }

  function FilterCustomers(customers: seq<Customer>, term: string): (r: seq<Customer>)
    ensures forall c :: c in r <==> c in customers && MatchesSearch(c, term)
    ensures |r| <= |customers|
  {
    if |customers| == 0 then []
    else
      var last := customers[|customers| - 1];
      FilterCustomers(customers[..|customers| - 1], term) + (if MatchesSearch(last, term) then [last] else [])
  }

  /** The filter keeps the relative order: filtering a concatenation concatenates the results. */
  lemma {:induction false} FilterCustomersConcat(a: seq<Customer>, b: seq<Customer>, term: string)
    ensures FilterCustomers(a + b, term) == FilterCustomers(a, term) + FilterCustomers(b, term)
    decreases |b|
  {
    if |b| == 0 {
      assert a + b == a;
    } else {
      var init, x := b[..|b| - 1], b[|b| - 1];
      SplitLast(a, b);
      FilterCustomersSnoc(a + init, x, term);
      FilterCustomersConcat(a, init, term);
      ConcatAssoc(FilterCustomers(a, term), FilterCustomers(init, term),
                  if MatchesSearch(x, term) then [x] else []);
    }
  }

  /** Appending one customer appends it to the result exactly when it matches the term. */
  lemma FilterCustomersSnoc(s: seq<Customer>, x: Customer, term: string)
    ensures FilterCustomers(s + [x], term)
         == FilterCustomers(s, term) + (if MatchesSearch(x, term) then [x] else [])
  {
    DropSnoc(s, x);
  }

  /** An empty search term keeps every customer, in order. */
  lemma {:induction false} EmptySearchKeepsAll(customers: seq<Customer>)
    ensures FilterCustomers(customers, "") == customers
  {
    if |customers| > 0 {
      var init, last := customers[..|customers| - 1], customers[|customers| - 1];
      assert customers == init + [last];
      assert MatchesSearch(last, "") by {
        IncludesEmpty(last.phone);
      }
      EmptySearchKeepsAll(init);
    }
  }

  // ---------------------------------------------------------------------------------------
  // Sort
  // ---------------------------------------------------------------------------------------

  datatype SortOption = ByName | ByAmount | ByDueDate
  datatype SortDirection = Asc | Desc

  /** `localeCompare`, taken as code-point lexicographic order with a -1/0/1 result. */
  function LocaleCompare(a: string, b: string): (r: int)
    ensures -1 <= r <= 1
    ensures r == 0 <==> a == b
  {
    if |a| == 0 && |b| == 0 then 0
    else if |a| == 0 then -1
    else if |b| == 0 then 1
    else if a[0] < b[0] then -1
    else if a[0] > b[0] then 1
    else
      var r := LocaleCompare(a[1..], b[1..]);
      assert a == [a[0]] + a[1..] && b == [b[0]] + b[1..];
      r
  }

  lemma {:induction false} LocaleCompareFlip(a: string, b: string)
    ensures LocaleCompare(b, a) == -LocaleCompare(a, b)
  {
    if |a| > 0 && |b| > 0 && a[0] == b[0] {
      LocaleCompareFlip(a[1..], b[1..]);
    }
  }

  lemma {:induction false} LocaleCompareTransitive(a: string, b: string, c: string)
    requires LocaleCompare(a, b) <= 0 && LocaleCompare(b, c) <= 0
    ensures LocaleCompare(a, c) <= 0
  {
    if |a| > 0 && |b| > 0 && |c| > 0 && a[0] == b[0] && b[0] == c[0] {
      LocaleCompareTransitive(a[1..], b[1..], c[1..]);
    }
  }

  /** The due-date difference, with a missing date as +∞ and ∞ - ∞ (NaN) read by the sort as 0. */
  function DueDiff(a: Option<Day>, b: Option<Day>): int {
    match (a, b)
    case (Some(x), Some(y)) => x - y
    case (Some(_), None) => -1
    case (None, Some(_)) => 1
    case (None, None) => 0
  }

  /** The dashboard's comparator: negative means `a` goes first. */
  function Compare(option: SortOption, direction: SortDirection, a: Customer, b: Customer): int {
    match option
    case ByName =>
      if direction == Asc then LocaleCompare(a.name, b.name) else LocaleCompare(b.name, a.name)
    case ByAmount =>
      if direction == Asc then a.totalOutstanding - b.totalOutstanding
      else b.totalOutstanding - a.totalOutstanding
    case ByDueDate =>
      if direction == Asc then DueDiff(a.nextDueDate, b.nextDueDate)
      else DueDiff(b.nextDueDate, a.nextDueDate)
  }

  /** The name comparator in `desc` is the negation of the one in `asc`. */
  lemma NameDescNegatesAsc(a: Customer, b: Customer)
    ensures Compare(ByName, Desc, a, b) == -Compare(ByName, Asc, a, b)
  {
    LocaleCompareFlip(a.name, b.name);
  }

  /** Every comparator's sign flips when its arguments are swapped. */
  lemma CompareFlip(option: SortOption, direction: SortDirection, a: Customer, b: Customer)
    ensures Compare(option, direction, a, b) < 0 <==> Compare(option, direction, b, a) > 0
  {
    if option == ByName {
      LocaleCompareFlip(a.name, b.name);
    }
  }

  /** "Goes no later than" is transitive for every comparator. */
  lemma CompareTransitive(option: SortOption, direction: SortDirection, a: Customer, b: Customer, c: Customer)
    requires Compare(option, direction, a, b) <= 0 && Compare(option, direction, b, c) <= 0
    ensures Compare(option, direction, a, c) <= 0
  {
    if option == ByName {
      if direction == Asc {
        LocaleCompareTransitive(a.name, b.name, c.name);
      } else {
        LocaleCompareTransitive(c.name, b.name, a.name);
      }
    }
  }

  /** "Goes strictly earlier" followed by "goes no later" is "goes strictly earlier". */
  lemma StrictTransitive(option: SortOption, direction: SortDirection, a: Customer, b: Customer, c: Customer)
    requires Compare(option, direction, a, b) < 0 && Compare(option, direction, b, c) <= 0
    ensures Compare(option, direction, a, c) < 0
  {
    CompareTransitive(option, direction, a, b, c);
    if option == ByName {
      LocaleCompareFlip(a.name, b.name);
    }
  }

  /** Whatever goes strictly after `a` cannot tie with something that ties with `a`. */
  lemma StrictSeparatesTies(option: SortOption, direction: SortDirection, a: Customer, b: Customer, x: Customer)
    requires Compare(option, direction, a, b) < 0 && Compare(option, direction, a, x) == 0
    ensures Compare(option, direction, b, x) != 0
  {
    if option == ByName {
      LocaleCompareFlip(a.name, b.name);
    }
  }

  ghost predicate Sorted(option: SortOption, direction: SortDirection, s: seq<Customer>) {
    forall i, j :: 0 <= i < j < |s| ==> Compare(option, direction, s[i], s[j]) <= 0
  }

  /** Every element of `s` goes no earlier than `h`. */
  ghost predicate LowerBound(option: SortOption, direction: SortDirection, h: Customer, s: seq<Customer>) {
    forall j :: 0 <= j < |s| ==> Compare(option, direction, h, s[j]) <= 0
  }

  /** The head of a sorted list bounds its tail, and the tail is sorted. */
  lemma SortedSplit(option: SortOption, direction: SortDirection, s: seq<Customer>)
    requires |s| > 0 && Sorted(option, direction, s)
    ensures Sorted(option, direction, s[1..]) && LowerBound(option, direction, s[0], s[1..])
  {
    var tail := s[1..];
    forall i, j | 0 <= i < j < |tail| ensures Compare(option, direction, tail[i], tail[j]) <= 0 {
      assert tail[i] == s[i + 1] && tail[j] == s[j + 1];
    }
    forall j | 0 <= j < |tail| ensures Compare(option, direction, s[0], tail[j]) <= 0 {
      assert tail[j] == s[j + 1];
    }
  }

  /** A lower bound of a sorted list can be put in front of it. */
  lemma ConsSorted(option: SortOption, direction: SortDirection, h: Customer, s: seq<Customer>)
    requires Sorted(option, direction, s) && LowerBound(option, direction, h, s)
    ensures Sorted(option, direction, [h] + s)
  {
    var r := [h] + s;
    forall i, j | 0 <= i < j < |r| ensures Compare(option, direction, r[i], r[j]) <= 0 {
      if i == 0 {
        assert r[j] == s[j - 1];
      } else {
        assert r[i] == s[i - 1] && r[j] == s[j - 1];
      }
    }
  }

  /** Something that goes no later than the head of a sorted list is a lower bound of all of it. */
  lemma HeadBound(option: SortOption, direction: SortDirection, x: Customer, s: seq<Customer>)
    requires |s| > 0 && Sorted(option, direction, s) && Compare(option, direction, x, s[0]) <= 0
    ensures LowerBound(option, direction, x, s)
  {
    forall j | 0 < j < |s| ensures Compare(option, direction, x, s[j]) <= 0 {
      CompareTransitive(option, direction, x, s[0], s[j]);
    }
  }

  /** A bound of a list and of one more element is a bound of any arrangement of both. */
  lemma BoundOfPermutation(option: SortOption, direction: SortDirection, h: Customer,
                           s: seq<Customer>, x: Customer, r: seq<Customer>)
    requires LowerBound(option, direction, h, s) && Compare(option, direction, h, x) <= 0
    requires multiset(r) == multiset(s) + multiset{x}
    ensures LowerBound(option, direction, h, r)
  {
    forall j | 0 <= j < |r| ensures Compare(option, direction, h, r[j]) <= 0 {
      assert r[j] in multiset(r);
      if r[j] != x {
        assert r[j] in multiset(s);
        var k :| 0 <= k < |s| && s[k] == r[j];
      }
    }
  }

  /** Places `x` after every element that does not compare greater than it. */
  function Insert(option: SortOption, direction: SortDirection, sorted: seq<Customer>, x: Customer): (r: seq<Customer>)
    requires Sorted(option, direction, sorted)
    ensures multiset(r) == multiset(sorted) + multiset{x}
    ensures Sorted(option, direction, r)
  {
    if |sorted| == 0 then [x]
    else if Compare(option, direction, x, sorted[0]) < 0 then
      HeadBound(option, direction, x, sorted);
      ConsSorted(option, direction, x, sorted);
      [x] + sorted
    else
      var h, tail := sorted[0], sorted[1..];
      assert sorted == [h] + tail;
      CompareFlip(option, direction, x, h);
      SortedSplit(option, direction, sorted);
      var rest := Insert(option, direction, tail, x);
      BoundOfPermutation(option, direction, h, tail, x, rest);
      ConsSorted(option, direction, h, rest);
      [h] + rest
  }

  /** `[...filtered].sort(comparator)`: a sorted permutation of its input, built by insertion. */
  function SortCustomers(option: SortOption, direction: SortDirection, customers: seq<Customer>): (r: seq<Customer>)
    ensures multiset(r) == multiset(customers)
    ensures Sorted(option, direction, r)
  {
    if |customers| == 0 then []
    else
      var init := customers[..|customers| - 1];
      assert customers == init + [customers[|customers| - 1]];
      Insert(option, direction, SortCustomers(option, direction, init), customers[|customers| - 1])
  }

  // ----- Stability: `Array.prototype.sort` keeps tied elements in their original order -----

  /** The customers of `s` that the comparator ranks level with `x`, in their order in `s`. */
  function Ties(option: SortOption, direction: SortDirection, s: seq<Customer>, x: Customer): seq<Customer> {
    if |s| == 0 then []
    else
      var last := s[|s| - 1];
      Ties(option, direction, s[..|s| - 1], x) + (if Compare(option, direction, last, x) == 0 then [last] else [])
  }

  lemma TiesSnoc(option: SortOption, direction: SortDirection, s: seq<Customer>, y: Customer, x: Customer)
    ensures Ties(option, direction, s + [y], x)
         == Ties(option, direction, s, x) + (if Compare(option, direction, y, x) == 0 then [y] else [])
  {
    DropSnoc(s, y);
  }

  lemma {:induction false} TiesConcat(option: SortOption, direction: SortDirection, a: seq<Customer>,
                                      b: seq<Customer>, x: Customer)
    ensures Ties(option, direction, a + b, x) == Ties(option, direction, a, x) + Ties(option, direction, b, x)
    decreases |b|
  {
    if |b| == 0 {
      assert a + b == a;
    } else {
      var b', y := b[..|b| - 1], b[|b| - 1];
      SplitLast(a, b);
      TiesSnoc(option, direction, a + b', y, x);
      TiesConcat(option, direction, a, b', x);
      ConcatAssoc(Ties(option, direction, a, x), Ties(option, direction, b', x),
                  if Compare(option, direction, y, x) == 0 then [y] else []);
    }
  }

  lemma {:induction false} NoTies(option: SortOption, direction: SortDirection, s: seq<Customer>, x: Customer)
    requires forall i :: 0 <= i < |s| ==> Compare(option, direction, s[i], x) != 0
    ensures Ties(option, direction, s, x) == []
  {
    if |s| > 0 {
      var init := s[..|s| - 1];
      assert forall i :: 0 <= i < |init| ==> init[i] == s[i];
      NoTies(option, direction, init, x);
    }
  }

  /** Inserting `y` adds it after every element it ties with: the order among ties is kept. */
  lemma {:induction false} InsertKeepsTies(option: SortOption, direction: SortDirection,
                                           sorted: seq<Customer>, y: Customer, x: Customer)
    requires Sorted(option, direction, sorted)
    ensures Ties(option, direction, Insert(option, direction, sorted, y), x)
         == Ties(option, direction, sorted, x) + (if Compare(option, direction, y, x) == 0 then [y] else [])
    decreases |sorted|
  {
    if |sorted| == 0 {
      assert [y][..0] == [];
    } else if Compare(option, direction, y, sorted[0]) < 0 {
      TiesInFront(option, direction, sorted, y, x);
    } else {
      var h, tail := sorted[0], sorted[1..];
      SortedSplit(option, direction, sorted);
      var rest := Insert(option, direction, tail, y);
      InsertKeepsTies(option, direction, tail, y, x);
      TiesBehindHead(option, direction, sorted, rest, if Compare(option, direction, y, x) == 0 then [y] else [], x);
    }
  }

  /** An element that goes strictly before the head of a sorted list ties with nothing after it. */
  lemma TiesInFront(option: SortOption, direction: SortDirection, sorted: seq<Customer>, y: Customer, x: Customer)
    requires Sorted(option, direction, sorted) && |sorted| > 0 && Compare(option, direction, y, sorted[0]) < 0
    ensures Ties(option, direction, [y] + sorted, x)
         == Ties(option, direction, sorted, x) + (if Compare(option, direction, y, x) == 0 then [y] else [])
  {
    assert [y][..0] == [];
    TiesConcat(option, direction, [y], sorted, x);
    if Compare(option, direction, y, x) == 0 {
      forall i | 0 <= i < |sorted| ensures Compare(option, direction, sorted[i], x) != 0 {
        if i > 0 {
          StrictTransitive(option, direction, y, sorted[0], sorted[i]);
        }
        StrictSeparatesTies(option, direction, y, sorted[i], x);
      }
      NoTies(option, direction, sorted, x);
    }
  }

  /** Keeping the head in front keeps what the rest contributes to the ties. */
  lemma TiesBehindHead(option: SortOption, direction: SortDirection, sorted: seq<Customer>,
                       rest: seq<Customer>, t: seq<Customer>, x: Customer)
    requires |sorted| > 0
    requires Ties(option, direction, rest, x) == Ties(option, direction, sorted[1..], x) + t
    ensures Ties(option, direction, [sorted[0]] + rest, x) == Ties(option, direction, sorted, x) + t
  {
    var h, tail := sorted[0], sorted[1..];
    assert sorted == [h] + tail;
    TiesConcat(option, direction, [h], rest, x);
    TiesConcat(option, direction, [h], tail, x);
    ConcatAssoc(Ties(option, direction, [h], x), Ties(option, direction, tail, x), t);
  }

  /** The sort is stable: for every `x`, the customers tied with `x` come out in their input order. */
  lemma {:induction false} SortIsStable(option: SortOption, direction: SortDirection,
                                        customers: seq<Customer>, x: Customer)
    ensures Ties(option, direction, SortCustomers(option, direction, customers), x)
         == Ties(option, direction, customers, x)
  {
    if |customers| > 0 {
      var init := customers[..|customers| - 1];
      SortIsStable(option, direction, init, x);
      InsertKeepsTies(option, direction, SortCustomers(option, direction, init), customers[|customers| - 1], x);
    }
  }

  lemma SortKeepsTieOrder(option: SortOption, direction: SortDirection, customers: seq<Customer>)
    ensures forall x :: Ties(option, direction, SortCustomers(option, direction, customers), x)
                     == Ties(option, direction, customers, x)
  {
    forall x {
      SortIsStable(option, direction, customers, x);
    }
  }

  /** The list the dashboard shows: a sorted permutation of exactly the customers that match. */
  function VisibleCustomers(customers: seq<Customer>, term: string, option: SortOption,
                            direction: SortDirection): (r: seq<Customer>)
    ensures multiset(r) == multiset(FilterCustomers(customers, term))
    ensures forall c :: c in r <==> c in customers && MatchesSearch(c, term)
    ensures Sorted(option, direction, r)
    ensures forall x :: Ties(option, direction, r, x) == Ties(option, direction, FilterCustomers(customers, term), x)
  {
    var r := SortCustomers(option, direction, FilterCustomers(customers, term));
    SortKeepsTieOrder(option, direction, FilterCustomers(customers, term));
    assert forall c :: c in r <==> c in multiset(r);
    r
  }

  /** Sorting by amount orders `totalOutstanding` non-decreasingly in `asc`, non-increasingly in `desc`. */
  lemma AmountSortOrder(customers: seq<Customer>, direction: SortDirection)
    ensures var r := SortCustomers(ByAmount, direction, customers);
      forall i, j :: 0 <= i < j < |r| ==>
        if direction == Asc then r[i].totalOutstanding <= r[j].totalOutstanding
        else r[i].totalOutstanding >= r[j].totalOutstanding
  {
    var r := SortCustomers(ByAmount, direction, customers);
    forall i, j | 0 <= i < j < |r|
      ensures if direction == Asc then r[i].totalOutstanding <= r[j].totalOutstanding
              else r[i].totalOutstanding >= r[j].totalOutstanding
    {
      assert Compare(ByAmount, direction, r[i], r[j]) <= 0;
    }
  }

  /**
   * Sorting by due date in `asc` puts every customer with a next due date before every customer
   * without one, and the dated customers in date order.
   */
  lemma DueDateAscOrder(customers: seq<Customer>)
    ensures var r := SortCustomers(ByDueDate, Asc, customers);
      forall i, j :: 0 <= i < j < |r| && r[j].nextDueDate.Some? ==>
        r[i].nextDueDate.Some? && r[i].nextDueDate.value <= r[j].nextDueDate.value
  {
    var r := SortCustomers(ByDueDate, Asc, customers);
    forall i, j | 0 <= i < j < |r| && r[j].nextDueDate.Some?
      ensures r[i].nextDueDate.Some? && r[i].nextDueDate.value <= r[j].nextDueDate.value
    {
      assert Compare(ByDueDate, Asc, r[i], r[j]) <= 0;
    }
  }

  // ---------------------------------------------------------------------------------------
  // Sort toggle
  // ---------------------------------------------------------------------------------------

  datatype SortState = SortState(option: SortOption, direction: SortDirection)

  const InitialSortState := SortState(ByDueDate, Asc)

  function Flip(d: SortDirection): (r: SortDirection)
    ensures r != d
  {
    if d == Asc then Desc else Asc
  }

  /** `toggleSort`: the current option flips its direction, another option starts in `asc`. */
  function Toggle(st: SortState, option: SortOption): (r: SortState)
    ensures r.option == option
    ensures st.option == option ==> r.direction != st.direction
    ensures st.option != option ==> r.direction == Asc
  {
    if st.option == option then SortState(option, Flip(st.direction)) else SortState(option, Asc)
  }

  /** Toggling the current option twice restores the sort state. */
  lemma ToggleTwiceRestores(st: SortState)
    ensures Toggle(Toggle(st, st.option), st.option) == st
  {
  }

  /** Choosing another option and then the original one again sorts it in `asc`. */
  lemma ToggleAwayAndBack(st: SortState, other: SortOption)
    requires other != st.option
    ensures Toggle(Toggle(st, other), st.option) == SortState(st.option, Asc)
  {
  }

  /** The dashboard's `sortOption` / `sortDirection` state variables. */
  class SortControl {
    var option: SortOption
    var direction: SortDirection

    function State(): SortState
      reads this
    {
      SortState(option, direction)
    }

    constructor ()
      ensures State() == InitialSortState
    {
      option := ByDueDate;
      direction := Asc;
    }

    method ToggleSort(choice: SortOption)
      modifies this
      ensures State() == Toggle(old(State()), choice)
    {
      if option == choice {
        direction := if direction == Asc then Desc else Asc;
      } else {
        option := choice;
        direction := Asc;
      }
    }
  }

  // ---------------------------------------------------------------------------------------
  // Summary figures
  // ---------------------------------------------------------------------------------------

  /** `customers.filter(c => c.status === 'overdue').length`. */
  function OverdueCount(customers: seq<Customer>): (n: nat)
    ensures n <= |customers|
    ensures n == 0 <==> forall c :: c in customers ==> c.status != CustomerOverdue
    ensures |customers| == 1 ==> (n == 1 <==> customers[0].status == CustomerOverdue)
  {
    if |customers| == 0 then 0
    else
      var last := customers[|customers| - 1];
      OverdueCount(customers[..|customers| - 1]) + (if last.status == CustomerOverdue then 1 else 0)
  }

  /** `customers.filter(c => c.status === 'up-to-date').length`. */
  function UpToDateCount(customers: seq<Customer>): (n: nat)
    ensures n <= |customers|
    ensures n == 0 <==> forall c :: c in customers ==> c.status != UpToDate
    ensures |customers| == 1 ==> (n == 1 <==> customers[0].status == UpToDate)
  {
    if |customers| == 0 then 0
    else
      var last := customers[|customers| - 1];
      UpToDateCount(customers[..|customers| - 1]) + (if last.status == UpToDate then 1 else 0)
  }

  /** Counting a concatenation adds the counts: together with the one-customer case this fixes the count. */
  lemma {:induction false} OverdueCountConcat(a: seq<Customer>, b: seq<Customer>)
    ensures OverdueCount(a + b) == OverdueCount(a) + OverdueCount(b)
    decreases |b|
  {
    if |b| == 0 {
      assert a + b == a;
    } else {
      var b', x := b[..|b| - 1], b[|b| - 1];
      SplitLast(a, b);
      DropSnoc(a + b', x);
      OverdueCountConcat(a, b');
    }
  }

  lemma {:induction false} UpToDateCountConcat(a: seq<Customer>, b: seq<Customer>)
    ensures UpToDateCount(a + b) == UpToDateCount(a) + UpToDateCount(b)
    decreases |b|
  {
    if |b| == 0 {
      assert a + b == a;
    } else {
      var b', x := b[..|b| - 1], b[|b| - 1];
      SplitLast(a, b);
      DropSnoc(a + b', x);
      UpToDateCountConcat(a, b');
    }
  }

  /** Every customer is either overdue or up to date, so the two counts add up to the total. */
  lemma {:induction false} CountsPartition(customers: seq<Customer>)
    ensures OverdueCount(customers) + UpToDateCount(customers) == |customers|
  {
    if |customers| > 0 {
      CountsPartition(customers[..|customers| - 1]);
    }
  }

  /** `customers.reduce((sum, c) => sum + c.totalOutstanding, 0)`. */
  function TotalOutstanding(customers: seq<Customer>): int {
    if |customers| == 0 then 0
    else TotalOutstanding(customers[..|customers| - 1]) + customers[|customers| - 1].totalOutstanding
  }

  lemma {:induction false} TotalOutstandingNonNegative(customers: seq<Customer>)
    requires forall c :: c in customers ==> c.totalOutstanding >= 0
    ensures TotalOutstanding(customers) >= 0
  {
    if |customers| > 0 {
      var init := customers[..|customers| - 1];
      assert forall c :: c in init ==> c in customers;
      TotalOutstandingNonNegative(init);
    }
  }

  /** After a recompute the dashboard's total outstanding is never negative. */
  lemma RecomputedTotalNonNegative(s: CustomerState, today: Day)
    ensures TotalOutstanding(Recompute(s, today).customers) >= 0
  {
    RecomputedAmountsNonNegative(s, today);
    TotalOutstandingNonNegative(Recompute(s, today).customers);
  }
}
