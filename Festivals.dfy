/** The events list behind the filter form: the three filters applied in turn to the fetched
    events, then the in-place sort by the chosen key. */
module Festivals {
  import opened Strings
  import opened Dates
  import opened Api

  // ---------------------------------------------------------------------------------------------
  // Filters

  /** One filter of the form, with the value typed or chosen into its field. */
  datatype Criterion = Search(query: string) | OfType(eventType: string) | FromDate(floor: string)

  /** Whether the filter keeps the event: a case-insensitive substring of the name or of the
      description, the exact type, or a date not below the floor in string order. */
  predicate Holds(c: Criterion, e: Event) {
    match c
    case Search(q) => Contains(Lower(e.name), Lower(q)) || Contains(Lower(e.description), Lower(q))
    case OfType(t) => e.eventType == t
    case FromDate(d) => StrLe(d, e.date)
  }

  predicate AllHold(cs: seq<Criterion>, e: Event) {
    forall i :: 0 <= i < |cs| ==> Holds(cs[i], e)
  }

  /** `events.filter(...)` by every criterion of `cs`: the events they all keep, in their order. */
  function Keep(s: seq<Event>, cs: seq<Criterion>): (r: seq<Event>)
    ensures |r| <= |s|
    ensures forall i :: 0 <= i < |r| ==> AllHold(cs, r[i])
  {
    if s == [] then [] else (if AllHold(cs, s[0]) then [s[0]] else []) + Keep(s[1..], cs)
  }

  /** The filters the form applies: a field left empty is skipped. */
  function ActiveCriteria(searchQuery: string, eventType: string, date: string): (r: seq<Criterion>)
    ensures |r| <= 3
    ensures r == [] <==> searchQuery == "" && eventType == "" && date == ""
  {
    (if searchQuery != "" then [Search(searchQuery)] else []) +
    (if eventType != "" then [OfType(eventType)] else []) +
    (if date != "" then [FromDate(date)] else [])
  }

  /** The events shown before sorting. */
  function Selected(s: seq<Event>, searchQuery: string, eventType: string, date: string): (r: seq<Event>)
    ensures |r| <= |s|
    ensures searchQuery == "" && eventType == "" && date == "" ==> r == s
  {
    KeepNothingActive(s);
    Keep(s, ActiveCriteria(searchQuery, eventType, date))
  }

  /** The conjunction of the filled-in fields, written out. */
  predicate Passes(e: Event, searchQuery: string, eventType: string, date: string) {
    && (searchQuery != "" ==>
          Contains(Lower(e.name), Lower(searchQuery)) || Contains(Lower(e.description), Lower(searchQuery)))
    && (eventType != "" ==> e.eventType == eventType)
    && (date != "" ==> StrLe(date, e.date))
  }

  /** `a` is `b` with some elements left out, the rest in the same order. */
  predicate IsSubsequence(a: seq<Event>, b: seq<Event>)
    decreases |b|
  {
    a == [] || (b != [] && ((a[0] == b[0] && IsSubsequence(a[1..], b[1..])) || IsSubsequence(a, b[1..])))
  }

  lemma {:induction false} KeepMember(s: seq<Event>, cs: seq<Criterion>, x: Event)
    ensures x in Keep(s, cs) <==> x in s && AllHold(cs, x)
  {
    if s != [] {
      KeepMember(s[1..], cs, x);
      assert s == [s[0]] + s[1..];
    }
  }

  /** Filtering keeps events in their fetched order and adds none. */
  lemma {:induction false} KeepSubsequence(s: seq<Event>, cs: seq<Criterion>)
    ensures IsSubsequence(Keep(s, cs), s)
  {
    if s != [] {
      var t := Keep(s[1..], cs);
      KeepSubsequence(s[1..], cs);
      if AllHold(cs, s[0]) {
        var r := [s[0]] + t;
        assert Keep(s, cs) == r;
        assert r[0] == s[0] && r[1..] == t;
      } else {
        assert Keep(s, cs) == t;
      }
    }
  }

  lemma AllHoldSnoc(cs: seq<Criterion>, c: Criterion, e: Event)
    ensures AllHold(cs + [c], e) <==> AllHold(cs, e) && Holds(c, e)
  {
    if AllHold(cs + [c], e) {
      assert (cs + [c])[|cs|] == c;
      forall i | 0 <= i < |cs| ensures Holds(cs[i], e) { assert (cs + [c])[i] == cs[i]; }
    }
  }

  /** Filtering again by one more criterion is filtering once by all of them. */
  lemma {:induction false} KeepFusion(s: seq<Event>, cs: seq<Criterion>, c: Criterion)
    ensures Keep(Keep(s, cs), [c]) == Keep(s, cs + [c])
  {
    if s != [] {
      var e, t := s[0], Keep(s[1..], cs);
      KeepFusion(s[1..], cs, c);
      AllHoldSnoc(cs, c, e);
      assert Keep(s, cs + [c]) == (if AllHold(cs + [c], e) then [e] else []) + Keep(s[1..], cs + [c]);
      if AllHold(cs, e) {
        assert Keep(s, cs) == [e] + t;
        assert ([e] + t)[1..] == t;
        assert AllHold([c], e) == Holds(c, e);
        assert Keep([e] + t, [c]) == (if AllHold([c], e) then [e] else []) + Keep(t, [c]);
      } else {
        assert Keep(s, cs) == t;
      }
    }
  }

  /** No criterion keeps everything. */
  lemma {:induction false} KeepNothingActive(s: seq<Event>)
    ensures Keep(s, []) == s
  {
    if s != [] {
      KeepNothingActive(s[1..]);
      assert s == [s[0]] + s[1..];
    }
  }

  /** The filled-in criteria hold of an event exactly when it passes every filled-in field. */
  lemma ActiveCriteriaMeaning(e: Event, searchQuery: string, eventType: string, date: string)
    ensures AllHold(ActiveCriteria(searchQuery, eventType, date), e) <==> Passes(e, searchQuery, eventType, date)
  {
    var cs := ActiveCriteria(searchQuery, eventType, date);
    if Passes(e, searchQuery, eventType, date) {
      forall i | 0 <= i < |cs| ensures Holds(cs[i], e) {
      }
    }
    if AllHold(cs, e) {
      if searchQuery != "" { assert cs[0] == Search(searchQuery); }
      if eventType != "" {
        var i := if searchQuery != "" then 1 else 0;
        assert cs[i] == OfType(eventType);
      }
      if date != "" { assert cs[|cs| - 1] == FromDate(date); }
    }
  }

  /** An event is shown exactly when it was fetched and passes every filled-in field. */
  lemma SelectedMember(s: seq<Event>, searchQuery: string, eventType: string, date: string, x: Event)
    ensures x in Selected(s, searchQuery, eventType, date) <==> x in s && Passes(x, searchQuery, eventType, date)
  {
    KeepMember(s, ActiveCriteria(searchQuery, eventType, date), x);
    ActiveCriteriaMeaning(x, searchQuery, eventType, date);
  }

  /** The events shown are a subsequence of those fetched. */
  lemma SelectedSubsequence(s: seq<Event>, searchQuery: string, eventType: string, date: string)
    ensures IsSubsequence(Selected(s, searchQuery, eventType, date), s)
  {
    KeepSubsequence(s, ActiveCriteria(searchQuery, eventType, date));
  }

  /** An empty search skips the search step; it would keep everything anyway, since every string
      includes the empty string. */
  lemma {:induction false} EmptySearchKeepsAll(s: seq<Event>)
    ensures Keep(s, [Search("")]) == s
  {
    if s != [] {
      EmptySearchKeepsAll(s[1..]);
      ContainsEmpty(Lower(s[0].name));
      assert Lower("") == "";
      assert AllHold([Search("")], s[0]);
      assert s == [s[0]] + s[1..];
    }
  }

  /** With ISO dates, a date floor keeps exactly the events on or after that day. */
  lemma DateFloorIsChronological(e: Event, floor: string)
    requires IsIsoDate(floor) && IsIsoDate(e.date)
    ensures Holds(FromDate(floor), e) <==> DateValue(floor) <= DateValue(e.date)
  {
    IsoStringOrderIsChronological(floor, e.date);
  }

  // ---------------------------------------------------------------------------------------------
  // Sorting

  /** The options of the sort field; any other value sorts nothing. */
  datatype SortKey = ByDate | ByPrice | ByName | Unordered

  function SortKeyOf(sortBy: string): SortKey {
    if sortBy == "date" then ByDate
    else if sortBy == "price" then ByPrice
    else if sortBy == "name" then ByName
    else Unordered
  }

  /** The comparator handed to `sort`: negative when `a` goes first, zero for a tie. Names are
      compared by character after lower-casing. */
  function Comparator(k: SortKey, a: Event, b: Event): int {
    match k
    case ByDate => DateValue(a.date) - DateValue(b.date)
    case ByPrice => a.ticketPrice - b.ticketPrice
    case ByName => Compare(Lower(a.name), Lower(b.name))
    case Unordered => 0
  }

  predicate InOrder(k: SortKey, a: Event, b: Event) {
    Comparator(k, a, b) <= 0
  }

  /** Every event is in order with every later one. */
  predicate Sorted(k: SortKey, s: seq<Event>) {
    forall i, j :: 0 <= i < j < |s| ==> InOrder(k, s[i], s[j])
  }

  /** The events of `s` that tie with `x`, in their order in `s`. */
  function Ties(s: seq<Event>, k: SortKey, x: Event): seq<Event> {
    if s == [] then [] else (if Comparator(k, s[0], x) == 0 then [s[0]] else []) + Ties(s[1..], k, x)
  }

  /** The sort keeps the relative order of tied events. */
  ghost predicate Stable(k: SortKey, after: seq<Event>, before: seq<Event>) {
    forall x :: SameTies(k, after, before, x)
  }

  ghost predicate SameTies(k: SortKey, after: seq<Event>, before: seq<Event>, x: Event) {
    Ties(after, k, x) == Ties(before, k, x)
  }

  lemma StableTransitive(k: SortKey, s: seq<Event>, t: seq<Event>, u: seq<Event>)
    requires Stable(k, s, t) && Stable(k, t, u)
    ensures Stable(k, s, u)
  {
    forall x ensures SameTies(k, s, u, x) {
      assert SameTies(k, s, t, x) && SameTies(k, t, u, x);
    }
  }

  /** If `b` must go before `a`, then `a` may not go before `b`. */
  lemma ComparatorFlip(k: SortKey, a: Event, b: Event)
    ensures Comparator(k, a, b) > 0 ==> Comparator(k, b, a) < 0
  {
    if k == ByName {
      CompareAntisymmetric(Lower(a.name), Lower(b.name));
    }
  }

  lemma InOrderTransitive(k: SortKey, a: Event, b: Event, c: Event)
    requires InOrder(k, a, b) && InOrder(k, b, c)
    ensures InOrder(k, a, c)
  {
    if k == ByName {
      StrLeTransitive(Lower(a.name), Lower(b.name), Lower(c.name));
    }
  }

  /** Two events that tie with a third tie with each other. */
  lemma TieTransitive(k: SortKey, a: Event, b: Event, x: Event)
    requires Comparator(k, a, x) == 0 && Comparator(k, b, x) == 0
    ensures Comparator(k, a, b) == 0
  {
    if k == ByName {
      CompareZeroIffEqual(Lower(a.name), Lower(x.name));
      CompareZeroIffEqual(Lower(b.name), Lower(x.name));
      CompareZeroIffEqual(Lower(a.name), Lower(b.name));
    }
  }

  /** Every event ties with itself. */
  lemma TieReflexive(k: SortKey, x: Event)
    ensures Comparator(k, x, x) == 0
  {
    if k == ByName {
      CompareZeroIffEqual(Lower(x.name), Lower(x.name));
    }
  }

  /** Exchanging the two events negates the comparator. */
  lemma ComparatorAntisymmetric(k: SortKey, a: Event, b: Event)
    ensures Comparator(k, a, b) == -Comparator(k, b, a)
  {
    if k == ByName {
      CompareAntisymmetric(Lower(a.name), Lower(b.name));
    }
  }

  /** A tie class holds events of the sequence only. */
  lemma {:induction false} TiesMember(s: seq<Event>, k: SortKey, x: Event, y: Event)
    requires y in Ties(s, k, x)
    ensures y in s
  {
    if y != s[0] {
      TiesMember(s[1..], k, x, y);
    }
  }

  /** Any event of `s` is in order after the first event of `s`, when `s` is sorted. */
  lemma SortedHead(k: SortKey, s: seq<Event>, y: Event)
    requires Sorted(k, s) && y in s
    ensures InOrder(k, s[0], y)
  {
    TieReflexive(k, y);
    var j :| 0 <= j < |s| && s[j] == y;
    if j > 0 {
      assert InOrder(k, s[0], s[j]);
    }
  }

  /** Sequences with the same tie classes are both empty or both not. */
  lemma StableEmpty(k: SortKey, a: seq<Event>, b: seq<Event>)
    requires Stable(k, a, b)
    ensures a == [] <==> b == []
  {
    if a != [] {
      TieReflexive(k, a[0]);
      assert SameTies(k, a, b, a[0]) && Ties(a, k, a[0]) != [];
    }
    if b != [] {
      TieReflexive(k, b[0]);
      assert SameTies(k, a, b, b[0]) && Ties(b, k, b[0]) != [];
    }
  }

  /** Two sorted sequences with the same tie classes are the same sequence: the result of a
      stable sort is determined by its input and the comparator. */
  lemma {:induction false} SortedStableUnique(k: SortKey, a: seq<Event>, b: seq<Event>)
    requires Sorted(k, a) && Sorted(k, b) && Stable(k, a, b)
    ensures a == b
  {
    StableEmpty(k, a, b);
    if a != [] {
      var x, y := a[0], b[0];
      TieReflexive(k, x);
      TieReflexive(k, y);
      assert SameTies(k, a, b, x) && SameTies(k, a, b, y);
      assert x in Ties(a, k, x) && y in Ties(b, k, y);
      TiesMember(b, k, x, x);
      TiesMember(a, k, y, y);
      SortedHead(k, a, y);
      SortedHead(k, b, x);
      ComparatorAntisymmetric(k, x, y);
      assert Ties(a, k, x) == [x] + Ties(a[1..], k, x);
      assert Ties(b, k, x) == [y] + Ties(b[1..], k, x);
      assert Ties(a, k, x)[0] == x && Ties(b, k, x)[0] == y;
      forall z ensures SameTies(k, a[1..], b[1..], z) {
        var head := if Comparator(k, x, z) == 0 then [x] else [];
        assert Ties(a, k, z) == head + Ties(a[1..], k, z);
        assert Ties(b, k, z) == head + Ties(b[1..], k, z);
        assert SameTies(k, a, b, z);
        assert Ties(a[1..], k, z) == Ties(a, k, z)[|head|..];
        assert Ties(b[1..], k, z) == Ties(b, k, z)[|head|..];
      }
      SortedStableUnique(k, a[1..], b[1..]);
      assert a == [x] + a[1..] && b == [y] + b[1..];
    }
  }

  /** Two results of a stable sort of the same events are equal. */
  lemma StableSortDeterministic(k: SortKey, a: seq<Event>, b: seq<Event>, s: seq<Event>)
    requires Sorted(k, a) && Stable(k, a, s)
    requires Sorted(k, b) && Stable(k, b, s)
    ensures a == b
  {
    forall x ensures SameTies(k, a, b, x) {
      assert SameTies(k, a, s, x) && SameTies(k, b, s, x);
    }
    SortedStableUnique(k, a, b);
  }

  lemma {:induction false} TiesAppend(s: seq<Event>, t: seq<Event>, k: SortKey, x: Event)
    ensures Ties(s + t, k, x) == Ties(s, k, x) + Ties(t, k, x)
  {
    if s == [] {
      assert s + t == t;
    } else {
      assert (s + t)[1..] == s[1..] + t;
      TiesAppend(s[1..], t, k, x);
    }
  }

  /** `s` with the neighbours at `j - 1` and `j` exchanged. */
  function SwapAt(s: seq<Event>, j: int): seq<Event>
    requires 0 < j < |s|
  {
    s[..j - 1] + [s[j], s[j - 1]] + s[j + 1..]
  }

  lemma TiesSplit(u: seq<Event>, w: seq<Event>, v: seq<Event>, k: SortKey, x: Event)
    ensures Ties(u + w + v, k, x) == Ties(u, k, x) + Ties(w, k, x) + Ties(v, k, x)
  {
    TiesAppend(u + w, v, k, x);
    TiesAppend(u, w, k, x);
  }

  /** Two neighbours that do not both tie with `x` can be exchanged without changing its class. */
  lemma TiesPairSwap(p: Event, q: Event, k: SortKey, x: Event)
    requires !(Comparator(k, p, x) == 0 && Comparator(k, q, x) == 0)
    ensures Ties([q, p], k, x) == Ties([p, q], k, x)
  {
    TiesPair(p, q, k, x);
    TiesPair(q, p, k, x);
  }

  /** The tie class of `x` within two neighbours. */
  lemma TiesPair(p: Event, q: Event, k: SortKey, x: Event)
    ensures Ties([p, q], k, x) ==
            (if Comparator(k, p, x) == 0 then [p] else []) + (if Comparator(k, q, x) == 0 then [q] else [])
  {
    assert [p, q][1..] == [q] && [q][1..] == [];
    assert Ties([q], k, x) == (if Comparator(k, q, x) == 0 then [q] else []) + Ties([], k, x);
    assert Ties([p, q], k, x) == (if Comparator(k, p, x) == 0 then [p] else []) + Ties([q], k, x);
  }

  /** Exchanging two neighbours that are out of order keeps the contents and every tie class. */
  lemma SwapOutOfOrder(s: seq<Event>, j: int, k: SortKey)
    requires 0 < j < |s| && Comparator(k, s[j - 1], s[j]) > 0
    ensures multiset(SwapAt(s, j)) == multiset(s)
    ensures Stable(k, SwapAt(s, j), s)
  {
    var u, v, p, q := s[..j - 1], s[j + 1..], s[j - 1], s[j];
    Around(s, j);
    forall x ensures SameTies(k, SwapAt(s, j), s, x) {
      SwapTies(u, p, q, v, k, x);
    }
  }

  /** A sequence is its part before the neighbours at `j - 1` and `j`, the two of them, and the
      rest. */
  lemma Around(s: seq<Event>, j: int)
    requires 0 < j < |s|
    ensures s == s[..j - 1] + [s[j - 1], s[j]] + s[j + 1..]
  {
    assert s[j - 1..] == [s[j - 1], s[j]] + s[j + 1..];
  }

  /** The tie class of `x` is the same whichever way round two out-of-order neighbours stand. */
  lemma SwapTies(u: seq<Event>, p: Event, q: Event, v: seq<Event>, k: SortKey, x: Event)
    requires Comparator(k, p, q) > 0
    ensures Ties(u + [q, p] + v, k, x) == Ties(u + [p, q] + v, k, x)
  {
    if Comparator(k, p, x) == 0 && Comparator(k, q, x) == 0 {
      TieTransitive(k, p, q, x);
    }
    TiesPairSwap(p, q, k, x);
    TiesSplit(u, [q, p], v, k, x);
    TiesSplit(u, [p, q], v, k, x);
  }

  lemma {:induction false} NeighboursSorted(k: SortKey, s: seq<Event>)
    requires forall m :: 0 < m < |s| ==> InOrder(k, s[m - 1], s[m])
    ensures Sorted(k, s)
    decreases |s|
  {
    if |s| > 1 {
      var t := s[..|s| - 1];
      assert forall i :: 0 <= i < |t| ==> t[i] == s[i];
      NeighboursSorted(k, t);
      forall i | 0 <= i < |s| - 1 ensures InOrder(k, s[i], s[|s| - 1]) {
        if i < |s| - 2 {
          assert InOrder(k, t[i], t[|s| - 2]);
          InOrderTransitive(k, s[i], s[|s| - 2], s[|s| - 1]);
        }
      }
    }
  }

  /** When every pair ties, each tie class is the whole sequence. */
  lemma {:induction false} TiesUnordered(s: seq<Event>, x: Event)
    ensures Ties(s, Unordered, x) == s
  {
    if s != [] {
      TiesUnordered(s[1..], x);
      assert s == [s[0]] + s[1..];
    }
  }

  /** Whether the neighbours `s[m - 1]`, `s[m]` are in order for every `m` in `lo < m < hi`. */
  ghost predicate NeighboursInOrder(k: SortKey, s: seq<Event>, lo: int, hi: int) {
    forall m :: lo < m < hi && 0 < m < |s| ==> InOrder(k, s[m - 1], s[m])
  }

  /** What a pass of insertion sort keeps while it moves the event at `j` down: two sorted
      stretches around it, the contents and the tie classes of the sequence it started from. */
  ghost predicate Inserting(k: SortKey, s: seq<Event>, j: int, i: int, orig: seq<Event>) {
    && 0 <= j <= i < |s|
    && NeighboursInOrder(k, s, 0, j) && NeighboursInOrder(k, s, j, i + 1)
    && (0 < j < i ==> InOrder(k, s[j - 1], s[j + 1]))
    && multiset(s) == multiset(orig)
    && Stable(k, s, orig)
  }

  /** One exchange of insertion sort keeps `Inserting`, one place further down. */
  lemma InsertStep(k: SortKey, s: seq<Event>, j: int, i: int, orig: seq<Event>)
    requires Inserting(k, s, j, i, orig) && j > 0 && Comparator(k, s[j - 1], s[j]) > 0
    ensures Inserting(k, SwapAt(s, j), j - 1, i, orig)
  {
    ComparatorFlip(k, s[j - 1], s[j]);
    SwapOutOfOrder(s, j, k);
    SwapAtUpdate(s, j);
    var t := SwapAt(s, j);
    assert NeighboursInOrder(k, t, 0, j - 1) by {
      forall m | 0 < m < j - 1 ensures InOrder(k, t[m - 1], t[m]) {
        assert t[m - 1] == s[m - 1] && t[m] == s[m];
      }
    }
    assert NeighboursInOrder(k, t, j - 1, i + 1) by {
      forall m | j - 1 < m < i + 1 && 0 < m < |t| ensures InOrder(k, t[m - 1], t[m]) {
        if m > j + 1 {
          assert t[m - 1] == s[m - 1] && t[m] == s[m];
        }
      }
    }
    StableTransitive(k, t, s, orig);
  }

  lemma InsertStart(k: SortKey, s: seq<Event>, i: int)
    requires 0 <= i < |s| && NeighboursInOrder(k, s, 0, i)
    ensures Inserting(k, s, i, i, s)
  {
    forall x ensures SameTies(k, s, s, x) { }
  }

  lemma InsertDone(k: SortKey, s: seq<Event>, j: int, i: int, orig: seq<Event>)
    requires Inserting(k, s, j, i, orig) && (j == 0 || Comparator(k, s[j - 1], s[j]) <= 0)
    ensures NeighboursInOrder(k, s, 0, i + 1)
    ensures multiset(s) == multiset(orig) && Stable(k, s, orig)
  {
  }

  /** Exchanges the neighbours `a[j - 1]` and `a[j]`. */
  method Exchange(a: array<Event>, j: int)
    requires 0 < j < a.Length
    modifies a
    ensures a[..] == SwapAt(old(a[..]), j)
  {
    ghost var s := a[..];
    a[j - 1], a[j] := a[j], a[j - 1];
    assert a[..] == s[j - 1 := s[j]][j := s[j - 1]];
    SwapAtUpdate(s, j);
  }

  /** The exchange of neighbours as two updates of the sequence. */
  lemma SwapAtUpdate(s: seq<Event>, j: int)
    requires 0 < j < |s|
    ensures SwapAt(s, j) == s[j - 1 := s[j]][j := s[j - 1]]
  {
    var t := SwapAt(s, j);
    assert |t| == |s|;
    forall m | 0 <= m < |s| ensures t[m] == s[j - 1 := s[j]][j := s[j - 1]][m] {
      if m < j - 1 { assert t[m] == s[..j - 1][m]; }
      else if m > j { assert t[m] == s[j + 1..][m - j - 1]; }
    }
  }

  /** One pass of insertion sort: moves `a[i]` down past the events before it that must follow it. */
  method InsertAt(a: array<Event>, i: int, k: SortKey)
    requires 0 <= i < a.Length
    requires NeighboursInOrder(k, a[..], 0, i)
    modifies a
    ensures NeighboursInOrder(k, a[..], 0, i + 1)
    ensures multiset(a[..]) == multiset(old(a[..]))
    ensures Stable(k, a[..], old(a[..]))
    ensures a[i + 1..] == old(a[i + 1..])
  {
    ghost var orig := a[..];
    ghost var cur := orig;
    InsertStart(k, orig, i);
    var j := i;
    while j > 0 && Comparator(k, a[j - 1], a[j]) > 0
      invariant a[..] == cur
      invariant Inserting(k, cur, j, i, orig)
      invariant cur[i + 1..] == orig[i + 1..]
    {
      InsertStep(k, cur, j, i, orig);
      Exchange(a, j);
      SwapAtUpdate(cur, j);
      assert SwapAt(cur, j)[i + 1..] == cur[i + 1..];
      cur := SwapAt(cur, j);
      j := j - 1;
    }
    InsertDone(k, cur, j, i, orig);
  }

  /** `Array.prototype.sort` with the comparator for `k`: a stable sort in place, written here as
      insertion sort by exchanges of neighbours. */
  method SortInPlace(a: array<Event>, k: SortKey)
    modifies a
    ensures multiset(a[..]) == multiset(old(a[..]))
    ensures Sorted(k, a[..])
    ensures Stable(k, a[..], old(a[..]))
  {
    forall x ensures SameTies(k, a[..], a[..], x) { }
    var i := 0;
    while i < a.Length
      invariant 0 <= i <= a.Length
      invariant NeighboursInOrder(k, a[..], 0, i)
      invariant multiset(a[..]) == multiset(old(a[..]))
      invariant Stable(k, a[..], old(a[..]))
    {
      ghost var before := a[..];
      InsertAt(a, i, k);
      StableTransitive(k, a[..], before, old(a[..]));
      i := i + 1;
    }
    NeighboursSorted(k, a[..]);
  }

  // ---------------------------------------------------------------------------------------------
  // The pipeline

  /** `events.filter(...)`: a new array holding the kept events. */
  method FilterArray(a: array<Event>, c: Criterion) returns (b: array<Event>)
    ensures fresh(b) && b[..] == Keep(a[..], [c])
  {
    var kept := Keep(a[..], [c]);
    b := new Event[|kept|](i requires 0 <= i < |kept| => kept[i]);
  }

  /** The criteria grow one filled-in field at a time, in the order the filters run. */
  lemma ActiveCriteriaSteps(searchQuery: string, eventType: string, date: string)
    ensures ActiveCriteria("", "", "") == []
    ensures searchQuery != "" ==> ActiveCriteria(searchQuery, "", "") == [] + [Search(searchQuery)]
    ensures searchQuery == "" ==> ActiveCriteria(searchQuery, "", "") == []
    ensures eventType != "" ==>
      ActiveCriteria(searchQuery, eventType, "") == ActiveCriteria(searchQuery, "", "") + [OfType(eventType)]
    ensures eventType == "" ==> ActiveCriteria(searchQuery, eventType, "") == ActiveCriteria(searchQuery, "", "")
    ensures date != "" ==>
      ActiveCriteria(searchQuery, eventType, date) == ActiveCriteria(searchQuery, eventType, "") + [FromDate(date)]
    ensures date == "" ==> ActiveCriteria(searchQuery, eventType, date) == ActiveCriteria(searchQuery, eventType, "")
  {
  }

  /** The three `if (...) events = events.filter(...)` steps. */
  method ApplyFilters(fetched: array<Event>, searchQuery: string, eventType: string, date: string)
    returns (events: array<Event>)
    ensures events[..] == Selected(fetched[..], searchQuery, eventType, date)
    ensures ActiveCriteria(searchQuery, eventType, date) == [] ==> events == fetched
    ensures ActiveCriteria(searchQuery, eventType, date) != [] ==> fresh(events)
  {
    ghost var s := fetched[..];
    KeepNothingActive(s);
    ActiveCriteriaSteps(searchQuery, eventType, date);
    events := fetched;
    if searchQuery != "" {
      events := FilterArray(events, Search(searchQuery));
      KeepFusion(s, [], Search(searchQuery));
    }
    assert events[..] == Keep(s, ActiveCriteria(searchQuery, "", ""));
    if eventType != "" {
      KeepFusion(s, ActiveCriteria(searchQuery, "", ""), OfType(eventType));
      events := FilterArray(events, OfType(eventType));
    }
    assert events[..] == Keep(s, ActiveCriteria(searchQuery, eventType, ""));
    if date != "" {
      KeepFusion(s, ActiveCriteria(searchQuery, eventType, ""), FromDate(date));
      events := FilterArray(events, FromDate(date));
    }
  }

  /** What sorting by price or by date promises about neighbours at any distance. */
  lemma SortedMeaning(k: SortKey, s: seq<Event>)
    requires Sorted(k, s)
    ensures k == ByPrice ==> forall i, j :: 0 <= i < j < |s| ==> s[i].ticketPrice <= s[j].ticketPrice
    ensures k == ByDate ==> forall i, j :: 0 <= i < j < |s| ==> DateValue(s[i].date) <= DateValue(s[j].date)
  {
    forall i, j | 0 <= i < j < |s| ensures InOrder(k, s[i], s[j]) { }
  }

  /** `filterEvents` once the events are fetched: the filled-in filters in turn, then the sort.
      With no filter filled in, the fetched array itself is sorted and shown; otherwise the fetched
      array is left as it was. */
  method FilterEvents(fetched: array<Event>, searchQuery: string, eventType: string, date: string, sortBy: string)
    returns (shown: array<Event>)
    modifies fetched
    ensures multiset(shown[..]) == multiset(Selected(old(fetched[..]), searchQuery, eventType, date))
    ensures Sorted(SortKeyOf(sortBy), shown[..])
    ensures Stable(SortKeyOf(sortBy), shown[..], Selected(old(fetched[..]), searchQuery, eventType, date))
    ensures SortKeyOf(sortBy) == Unordered ==> shown[..] == Selected(old(fetched[..]), searchQuery, eventType, date)
    ensures SortKeyOf(sortBy) == ByPrice ==>
              forall i, j :: 0 <= i < j < shown.Length ==> shown[i].ticketPrice <= shown[j].ticketPrice
    ensures SortKeyOf(sortBy) == ByDate ==>
              forall i, j :: 0 <= i < j < shown.Length ==> DateValue(shown[i].date) <= DateValue(shown[j].date)
    ensures ActiveCriteria(searchQuery, eventType, date) == [] ==> shown == fetched
    ensures ActiveCriteria(searchQuery, eventType, date) != [] ==> fresh(shown) && fetched[..] == old(fetched[..])
  {
    var events := ApplyFilters(fetched, searchQuery, eventType, date);
    ghost var selected := events[..];
    var key := SortKeyOf(sortBy);
    SortInPlace(events, key);
    shown := events;
    SortedMeaning(key, shown[..]);
    if key == Unordered {
      ghost var x := MockEvents[0];
      assert SameTies(key, shown[..], selected, x);
      TiesUnordered(shown[..], x);
      TiesUnordered(selected, x);
    }
  }

  // ---------------------------------------------------------------------------------------------
  // Consequences

  /** Sorting by date orders ISO dates as strings too. */
  lemma SortedByDateIso(s: seq<Event>)
    requires Sorted(ByDate, s)
    requires forall i :: 0 <= i < |s| ==> IsIsoDate(s[i].date)
    ensures forall i, j :: 0 <= i < j < |s| ==> StrLe(s[i].date, s[j].date)
  {
    forall i, j | 0 <= i < j < |s| ensures StrLe(s[i].date, s[j].date) {
      assert InOrder(ByDate, s[i], s[j]);
      IsoStringOrderIsChronological(s[i].date, s[j].date);
    }
  }

  /** Sorting by name puts "apple Day" before "Banana Fest": case does not count. */
  lemma NameOrderIgnoresCase(a: Event, b: Event)
    requires a.name == "apple Day" && b.name == "Banana Fest"
    ensures InOrder(ByName, a, b) && !InOrder(ByName, b, a)
  {
    assert Lower(a.name)[0] == 'a' && Lower(b.name)[0] == 'b';
  }

  lemma KeepTwo(a: Event, b: Event, cs: seq<Criterion>)
    ensures Keep([a, b], cs) == (if AllHold(cs, a) then [a] else []) + (if AllHold(cs, b) then [b] else [])
  {
    assert [a, b][0] == a && [a, b][1..] == [b];
    assert Keep([a, b], cs) == (if AllHold(cs, a) then [a] else []) + Keep([b], cs);
    assert [b][0] == b && [b][1..] == [];
    assert Keep([b], cs) == (if AllHold(cs, b) then [b] else []) + Keep([], cs);
  }

  /** Filtering two events keeps those that pass, in their order. */
  lemma SelectedTwo(a: Event, b: Event, searchQuery: string, eventType: string, date: string)
    ensures Selected([a, b], searchQuery, eventType, date) ==
            (if Passes(a, searchQuery, eventType, date) then [a] else []) +
            (if Passes(b, searchQuery, eventType, date) then [b] else [])
  {
    KeepTwo(a, b, ActiveCriteria(searchQuery, eventType, date));
    ActiveCriteriaMeaning(a, searchQuery, eventType, date);
    ActiveCriteriaMeaning(b, searchQuery, eventType, date);
  }

  /** Searching for "music" finds the summer music festival and not the food and wine expo. */
  lemma SearchMusicExample(e0: Event, e1: Event)
    requires e0.name == "Summer Music Festival"
    requires e1.name == "Food & Wine Expo" && e1.description == "Explore local cuisine and wine tasting"
    ensures Selected([e0, e1], "music", "", "") == [e0]
  {
    SelectedTwo(e0, e1, "music", "", "");
    MusicFestivalMatches(e0);
    ExpoDoesNotMatch(e1);
  }

  /** The search is case-insensitive: "music" finds "Music" in the festival's name. */
  lemma MusicFestivalMatches(e: Event)
    requires e.name == "Summer Music Festival"
    ensures Passes(e, "music", "", "")
  {
    LowerWord();
    var n := Lower(e.name);
    LowerSlice(e.name, 7, 12);
    assert e.name[7..12] == "Music";
    assert OccursAt(n, "music", 7);
    ContainsIff(n, "music");
  }

  /** Neither the name nor the description of the expo holds an m of either case. */
  lemma ExpoDoesNotMatch(e: Event)
    requires e.name == "Food & Wine Expo" && e.description == "Explore local cuisine and wine tasting"
    ensures !Passes(e, "music", "", "")
  {
    ExpoNameLacksM(e.name);
    ExpoDescriptionLacksM(e.description);
    LowerWord();
    SearchMissesLetter(e, "music", 'm', 'M');
  }

  /** The expo's name has no m of either case. */
  lemma ExpoNameLacksM(name: string)
    requires name == "Food & Wine Expo"
    ensures 'm' !in name && 'M' !in name
  {
    assert forall i :: 0 <= i < |name| ==> name[i] != 'm' && name[i] != 'M';
  }

  /** The expo's description has no m of either case. */
  lemma ExpoDescriptionLacksM(description: string)
    requires description == "Explore local cuisine and wine tasting"
    ensures 'm' !in description && 'M' !in description
  {
    assert forall i :: 0 <= i < |description| ==> description[i] != 'm' && description[i] != 'M';
  }

  /** A search fails when neither case of its first letter appears in the name or description. */
  lemma SearchMissesLetter(e: Event, q: string, lower: char, upper: char)
    requires 'a' <= lower <= 'z' && upper as int == lower as int - 32
    requires |q| > 0 && Lower(q)[0] == lower
    requires lower !in e.name && upper !in e.name && lower !in e.description && upper !in e.description
    ensures !Passes(e, q, "", "")
  {
    LowerLacks(e.name, lower, upper);
    LowerLacks(e.description, lower, upper);
    ContainsFirstChar(Lower(e.name), Lower(q));
    ContainsFirstChar(Lower(e.description), Lower(q));
  }

  lemma LowerWord()
    ensures Lower("music") == "music" && Lower("Music") == "music"
  {
  }

  lemma LowerSlice(s: string, i: int, j: int)
    requires 0 <= i <= j <= |s|
    ensures Lower(s)[i..j] == Lower(s[i..j])
  {
  }

  /** Lowering cannot produce a letter whose two cases are both absent. */
  lemma LowerLacks(s: string, lower: char, upper: char)
    requires 'a' <= lower <= 'z' && upper as int == lower as int - 32
    requires lower !in s && upper !in s
    ensures lower !in Lower(s)
  {
    forall i | 0 <= i < |s| ensures LowerChar(s[i]) != lower {
      assert s[i] != lower && s[i] != upper;
    }
  }

  /** A date floor of 2024-08-01 keeps only the event on 2024-08-20. */
  lemma DateFloorExample(e0: Event, e1: Event)
    requires e0.date == "2024-07-15" && e1.date == "2024-08-20"
    ensures Selected([e0, e1], "", "", "2024-08-01") == [e1]
  {
    FloorBetween();
    FloorKeepsSecond(e0, e1, "2024-08-01");
  }

  /** 2024-08-01 sorts after 2024-07-15 and before 2024-08-20. */
  lemma FloorBetween()
    ensures !StrLe("2024-08-01", "2024-07-15") && StrLe("2024-08-01", "2024-08-20")
  {
    var floor, july, august := "2024-08-01", "2024-07-15", "2024-08-20";
    assert july[..6] == floor[..6];
    FirstDifference(july, floor, 6);
    CompareAntisymmetric(july, floor);
    assert floor[..8] == august[..8];
    FirstDifference(floor, august, 8);
  }

  /** A floor above the first date and not above the second keeps the second event alone. */
  lemma FloorKeepsSecond(e0: Event, e1: Event, floor: string)
    requires floor != "" && !StrLe(floor, e0.date) && StrLe(floor, e1.date)
    ensures Selected([e0, e1], "", "", floor) == [e1]
  {
    SelectedTwo(e0, e1, "", "", floor);
  }

  /** The mock events collection under the two examples above. */
  lemma MockEventsExamples()
    ensures Selected(MockEvents, "music", "", "") == [MockEvents[0]]
    ensures Selected(MockEvents, "", "", "2024-08-01") == [MockEvents[1]]
  {
    var e0, e1 := MockEvents[0], MockEvents[1];
    assert MockEvents == [e0, e1];
    SearchMusicExample(e0, e1);
    DateFloorExample(e0, e1);
  }
}
