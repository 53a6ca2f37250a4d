/** The board as a list: filtering, ordering, counting and following cursors. */
module BoardPaging {
  import opened Common
  import opened BoardCard

  /** Identities are compared as byte strings; here they are their ranks in that order. */
  type Id = int

  datatype Row = Row(task: Id, room: Id, repositories: seq<Id>, archived: bool, activity: int, card: Card)

  datatype Archived = Exclude | Include | Only

  datatype PhaseFilter = AnyPhase | OnlyPhase(phase: Phase) | OnlyReconciliation

  datatype Query = Query(room: Option<Id>, repository: Option<Id>, phase: PhaseFilter, attention: Option<Attention>, archived: Archived)

  /** A cursor as the client sends it back: absent, unreadable, or a snapshot and an offset. */
  datatype Cursor = NoCursor | BadCursor | At(snapshot: string, offset: int)

  datatype PageError = InvalidArgument | SnapshotChanged

  datatype Page = Page(rows: seq<Row>, total: nat, next: Option<Cursor>)

  // ---- Filtering and ordering ----------------------------------------------------------------

  predicate Matches(q: Query, r: Row) {
    (q.room.Some? ==> r.room == q.room.value) &&
    (match q.archived case Exclude => !r.archived case Include => true case Only => r.archived) &&
    (q.repository.Some? ==> q.repository.value in r.repositories) &&
    (match q.phase
     case AnyPhase => true
     case OnlyPhase(p) => r.card.phase == Some(p)
     case OnlyReconciliation => r.card.phase.None?) &&
    (q.attention.Some? ==> r.card.attention == q.attention.value)
  }

  function Filtered(rows: seq<Row>, q: Query): seq<Row> {
    if rows == [] then []
    else
      var last := rows[|rows| - 1];
      Filtered(rows[..|rows| - 1], q) + if Matches(q, last) then [last] else []
  }

  /** Latest activity first; among equals, the smaller task identity. */
  predicate Before(a: Row, b: Row) { a.activity > b.activity || (a.activity == b.activity && a.task < b.task) }

  predicate Ordered(rows: seq<Row>) { forall i, j :: 0 <= i < j < |rows| ==> Before(rows[i], rows[j]) }

  predicate DistinctTasks(rows: seq<Row>) { forall i, j :: 0 <= i < j < |rows| ==> rows[i].task != rows[j].task }

  function Insert(rows: seq<Row>, r: Row): seq<Row> {
    if rows == [] || Before(r, rows[0]) then [r] + rows else [rows[0]] + Insert(rows[1..], r)
  }

  function Sort(rows: seq<Row>): seq<Row> {
    if rows == [] then [] else Insert(Sort(rows[..|rows| - 1]), rows[|rows| - 1])
  }

  lemma {:induction false} InsertOrders(rows: seq<Row>, r: Row)
    requires Ordered(rows) && forall i :: 0 <= i < |rows| ==> rows[i].task != r.task
    ensures Ordered(Insert(rows, r)) && multiset(Insert(rows, r)) == multiset(rows) + multiset{r}
  {
    if rows == [] || Before(r, rows[0]) {
      assert [r] + rows == Insert(rows, r);
    } else {
      var rest := Insert(rows[1..], r);
      InsertOrders(rows[1..], r);
      assert rows == [rows[0]] + rows[1..];
      forall j | 0 <= j < |rest|
        ensures Before(rows[0], rest[j])
      {
        assert rest[j] in multiset(rest);
        assert rest[j] in rows[1..] || rest[j] == r;
      }
    }
  }

  lemma {:induction false} SortOrders(rows: seq<Row>)
    requires DistinctTasks(rows)
    ensures Ordered(Sort(rows)) && multiset(Sort(rows)) == multiset(rows)
  {
    if rows != [] {
      var n := |rows| - 1;
      SortOrders(rows[..n]);
      var sorted := Sort(rows[..n]);
      assert rows == rows[..n] + [rows[n]];
      forall i | 0 <= i < |sorted|
        ensures sorted[i].task != rows[n].task
      {
        assert sorted[i] in multiset(rows[..n]);
      }
      InsertOrders(sorted, rows[n]);
    }
  }

  lemma TailOf(rows: seq<Row>)
    requires rows != []
    ensures multiset(rows[1..]) == multiset(rows) - multiset{rows[0]}
    ensures rows[0] in multiset(rows)
  {
    assert rows == [rows[0]] + rows[1..];
  }

  lemma OrderedTail(rows: seq<Row>)
    requires rows != [] && Ordered(rows)
    ensures Ordered(rows[1..])
  {
    assert forall i :: 0 <= i < |rows| - 1 ==> rows[1..][i] == rows[i + 1];
  }

  lemma SameFirst(a: seq<Row>, b: seq<Row>)
    requires Ordered(a) && Ordered(b) && a != [] && b != [] && multiset(a) == multiset(b)
    ensures a[0] == b[0]
  {
    TailOf(a);
    TailOf(b);
    FirstIsLeast(a, b[0]);
    FirstIsLeast(b, a[0]);
  }

  /** There is only one ordered arrangement, so it does not matter how the rows are sorted. */
  lemma {:induction false} OrderIsUnique(a: seq<Row>, b: seq<Row>)
    requires Ordered(a) && Ordered(b) && multiset(a) == multiset(b)
    ensures a == b
  {
    hide Ordered;
    SameLength(a, b);
    if a != [] {
      SameFirst(a, b);
      TailOf(a);
      TailOf(b);
      OrderedTail(a);
      OrderedTail(b);
      OrderIsUnique(a[1..], b[1..]);
      assert a == [a[0]] + a[1..] && b == [b[0]] + b[1..];
    }
  }

  lemma FirstIsLeast(rows: seq<Row>, r: Row)
    requires Ordered(rows) && r in multiset(rows)
    ensures rows != [] && (r == rows[0] || Before(rows[0], r))
  {
    assert r in rows;
  }

  // ---- Counting ------------------------------------------------------------------------------

  datatype Counts = Counts(phase: map<Phase, nat>, attention: nat, reconciliation: nat)

  function InPhase(rows: seq<Row>, phase: Option<Phase>): nat {
    if rows == [] then 0 else InPhase(rows[..|rows| - 1], phase) + if rows[|rows| - 1].card.phase == phase then 1 else 0
  }

  function Attending(rows: seq<Row>): nat {
    if rows == [] then 0 else Attending(rows[..|rows| - 1]) + if rows[|rows| - 1].card.attention.Required? then 1 else 0
  }

  lemma {:induction false} PhasesPartition(rows: seq<Row>)
    ensures InPhase(rows, Some(Preparing)) + InPhase(rows, Some(Working)) + InPhase(rows, Some(Reviewing)) +
            InPhase(rows, Some(Delivering)) + InPhase(rows, Some(FinishedPhase)) + InPhase(rows, None) == |rows|
  {
    if rows != [] {
      PhasesPartition(rows[..|rows| - 1]);
      match rows[|rows| - 1].card.phase
      case None =>
      case Some(p) => AllPhases(p);
    }
  }

  /** Every row is counted in exactly one phase or as needing reconciliation. */
  method CountRows(rows: seq<Row>) returns (c: Counts)
    ensures c.reconciliation == InPhase(rows, None) && c.attention == Attending(rows)
    ensures forall p: Phase :: p in c.phase && c.phase[p] == InPhase(rows, Some(p))
    ensures c.phase[Preparing] + c.phase[Working] + c.phase[Reviewing] + c.phase[Delivering] + c.phase[FinishedPhase] + c.reconciliation == |rows|
  {
    c := Counts(map[Preparing := 0, Working := 0, Reviewing := 0, Delivering := 0, FinishedPhase := 0], 0, 0);
    for k := 0 to |rows|
      invariant c.reconciliation == InPhase(rows[..k], None) && c.attention == Attending(rows[..k])
      invariant Preparing in c.phase && Working in c.phase && Reviewing in c.phase && Delivering in c.phase && FinishedPhase in c.phase
      invariant forall p :: p in c.phase ==> c.phase[p] == InPhase(rows[..k], Some(p))
    {
      assert rows[..k + 1][..k] == rows[..k];
      match rows[k].card.phase {
        case None => c := c.(reconciliation := c.reconciliation + 1);
        case Some(p) =>
          AllPhases(p);
          c := c.(phase := c.phase[p := c.phase[p] + 1]);
      }
      if rows[k].card.attention.Required? { c := c.(attention := c.attention + 1); }
    }
    assert rows[..|rows|] == rows;
    PhasesPartition(rows);
    forall p: Phase
      ensures p in c.phase
    {
      AllPhases(p);
    }
  }

  lemma AllPhases(p: Phase)
    ensures p in {Preparing, Working, Reviewing, Delivering, FinishedPhase}
  {
  }

  // ---- Pages ---------------------------------------------------------------------------------

  const DEFAULT_LIMIT := 50
  const MAX_LIMIT := 100

  function Min(a: int, b: int): int { if a < b then a else b }

  function PageOf(cards: seq<Row>, snapshot: string, cursor: Cursor, requested: int): Result<Page, PageError> {
    var limit := if requested == 0 then DEFAULT_LIMIT else requested;
    if limit < 1 || limit > MAX_LIMIT || cursor.BadCursor? then Err(InvalidArgument)
    else if cursor.At? && cursor.snapshot != snapshot then Err(SnapshotChanged)
    else if cursor.At? && (cursor.offset < 0 || cursor.offset > |cards|) then Err(InvalidArgument)
    else
      var offset := if cursor.At? then cursor.offset else 0;
      var end := Min(offset + limit, |cards|);
      Ok(Page(cards[offset..end], |cards|, if end < |cards| then Some(At(snapshot, end)) else None))
  }

  /** The rows a client gathers by following cursors with these page sizes. */
  function Followed(cards: seq<Row>, snapshot: string, cursor: Cursor, limits: seq<int>): seq<Row>
    decreases |limits|
  {
    if limits == [] then []
    else
      match PageOf(cards, snapshot, cursor, limits[0])
      case Err(_) => []
      case Ok(page) => page.rows + match page.next case None => [] case Some(next) => Followed(cards, snapshot, next, limits[1..])
  }

  function Size(limit: int): nat { if limit == 0 then DEFAULT_LIMIT else if limit > 0 then limit else 0 }

  function Asked(limits: seq<int>): nat { if limits == [] then 0 else Size(limits[0]) + Asked(limits[1..]) }

  predicate ValidLimits(limits: seq<int>) { forall i :: 0 <= i < |limits| ==> 0 <= limits[i] <= MAX_LIMIT }

  lemma PageFrom(cards: seq<Row>, snapshot: string, offset: nat, limit: int)
    requires offset <= |cards| && 0 <= limit <= MAX_LIMIT
    ensures offset <= Min(offset + Size(limit), |cards|)
    ensures var end := Min(offset + Size(limit), |cards|);
            PageOf(cards, snapshot, At(snapshot, offset), limit) ==
            Ok(Page(cards[offset..end], |cards|, if end < |cards| then Some(At(snapshot, end)) else None))
  {
  }

  /** A page holds as many rows as were asked for, fifty if nothing was said, as long as there are so many. */
  lemma PageHolds(cards: seq<Row>, snapshot: string, offset: nat, limit: int)
    requires offset <= |cards| && 0 <= limit <= 100
    ensures var page := PageOf(cards, snapshot, At(snapshot, offset), limit);
            page.Ok? && |page.value.rows| == Min(if limit == 0 then 50 else limit, |cards| - offset) &&
            page.value.rows <= cards[offset..] && page.value.total == |cards|
  {
    PageFrom(cards, snapshot, offset, limit);
    var end := Min(offset + Size(limit), |cards|);
    assert cards[offset..end] == cards[offset..][..end - offset];
  }

  lemma Adjoin(cards: seq<Row>, a: nat, b: nat, c: nat)
    requires a <= b <= c <= |cards|
    ensures cards[a..b] + cards[b..c] == cards[a..c] && cards[a..b] + [] == cards[a..b]
  {
  }

  lemma FirstLimit(limits: seq<int>)
    requires ValidLimits(limits)
    ensures limits == [] ==> Asked(limits) == 0
    ensures limits != [] ==> 0 <= limits[0] <= MAX_LIMIT && ValidLimits(limits[1..]) && Asked(limits) == Size(limits[0]) + Asked(limits[1..])
  {
  }

  /** One answer, and what following its cursor adds. */
  lemma FollowedStep(cards: seq<Row>, snapshot: string, cursor: Cursor, limits: seq<int>, page: Page)
    requires limits != [] && PageOf(cards, snapshot, cursor, limits[0]) == Ok(page)
    ensures Followed(cards, snapshot, cursor, limits) ==
            page.rows + if page.next.None? then [] else Followed(cards, snapshot, page.next.value, limits[1..])
  {
    hide PageOf;
  }

  lemma NothingFollowed(cards: seq<Row>, snapshot: string, offset: nat)
    ensures Followed(cards, snapshot, At(snapshot, offset), []) == []
  {
  }

  lemma {:induction false} FollowedFrom(cards: seq<Row>, snapshot: string, offset: nat, limits: seq<int>)
    requires offset <= |cards| && ValidLimits(limits)
    ensures Followed(cards, snapshot, At(snapshot, offset), limits) == cards[offset..Min(offset + Asked(limits), |cards|)]
    decreases |limits|
  {
    hide PageOf, Followed, Size, Asked, ValidLimits;
    FirstLimit(limits);
    if limits == [] {
      NothingFollowed(cards, snapshot, offset);
    } else {
      var end: nat := Min(offset + Size(limits[0]), |cards|);
      PageFrom(cards, snapshot, offset, limits[0]);
      FollowedStep(cards, snapshot, At(snapshot, offset), limits,
                   Page(cards[offset..end], |cards|, if end < |cards| then Some(At(snapshot, end)) else None));
      if end < |cards| {
        FollowedFrom(cards, snapshot, end, limits[1..]);
        Adjoin(cards, offset, end, Min(end + Asked(limits[1..]), |cards|));
      } else {
        Adjoin(cards, offset, end, end);
      }
    }
  }

  lemma FilteredStep(rows: seq<Row>, q: Query)
    requires rows != []
    ensures multiset(rows) == multiset(rows[..|rows| - 1]) + multiset{rows[|rows| - 1]}
    ensures multiset(Filtered(rows, q)) ==
            multiset(Filtered(rows[..|rows| - 1], q)) + if Matches(q, rows[|rows| - 1]) then multiset{rows[|rows| - 1]} else multiset{}
  {
    hide Matches;
    assert rows == rows[..|rows| - 1] + [rows[|rows| - 1]];
  }

  lemma {:induction false} FilteredExactly(rows: seq<Row>, q: Query)
    ensures forall r :: multiset(Filtered(rows, q))[r] == if Matches(q, r) then multiset(rows)[r] else 0
  {
    hide Matches;
    if rows != [] {
      hide Filtered;
      FilteredExactly(rows[..|rows| - 1], q);
      FilteredStep(rows, q);
    }
  }

  lemma InFiltered(rows: seq<Row>, q: Query, i: nat)
    requires i < |Filtered(rows, q)|
    ensures exists j :: 0 <= j < |rows| && rows[j] == Filtered(rows, q)[i]
  {
    hide Matches, Filtered;
    var r := Filtered(rows, q)[i];
    FilteredExactly(rows, q);
    assert r in multiset(Filtered(rows, q));
    assert r in multiset(rows);
  }

  lemma {:induction false} FilteredDistinct(rows: seq<Row>, q: Query)
    requires DistinctTasks(rows)
    ensures DistinctTasks(Filtered(rows, q))
  {
    hide Matches;
    if rows != [] {
      var n := |rows| - 1;
      FilteredDistinct(rows[..n], q);
      var before := Filtered(rows[..n], q);
      forall i | 0 <= i < |before|
        ensures before[i].task != rows[n].task
      {
        InFiltered(rows[..n], q, i);
      }
    }
  }

  /**
   Over an unchanged snapshot, following cursors with any page sizes until they add up returns exactly
   the rows that match, each once, in activity order.
   */
  lemma CursorsCoverOnce(rows: seq<Row>, q: Query, snapshot: string, limits: seq<int>)
    requires DistinctTasks(rows) && ValidLimits(limits) && limits != []
    requires Asked(limits) >= |Filtered(rows, q)|
    ensures var got := Followed(Sort(Filtered(rows, q)), snapshot, NoCursor, limits);
            Ordered(got) && forall r :: multiset(got)[r] == if Matches(q, r) then multiset(rows)[r] else 0
  {
    hide Matches, Filtered, Sort, Followed, DistinctTasks, Ordered;
    var cards := Sort(Filtered(rows, q));
    FilteredExactly(rows, q);
    FilteredDistinct(rows, q);
    SortOrders(Filtered(rows, q));
    SameLength(cards, Filtered(rows, q));
    FollowedFrom(cards, snapshot, 0, limits);
    FirstPage(cards, snapshot, limits);
    assert cards[0..|cards|] == cards;
  }

  lemma SameLength(a: seq<Row>, b: seq<Row>)
    requires multiset(a) == multiset(b)
    ensures |a| == |b|
  {
    assert |multiset(a)| == |a| && |multiset(b)| == |b|;
  }

  lemma FirstPage(cards: seq<Row>, snapshot: string, limits: seq<int>)
    ensures Followed(cards, snapshot, NoCursor, limits) == Followed(cards, snapshot, At(snapshot, 0), limits)
  {
  }

  // ---- Options -------------------------------------------------------------------------------

  const OPTION_PAGE := 100

  datatype Options = Options(rooms: seq<Id>, repositories: seq<Id>, next: Option<nat>)

  function Max(a: nat, b: nat): nat { if a < b then b else a }

  function Slice(list: seq<Id>, from: nat, to: nat): seq<Id>
    requires from <= to
  {
    list[Min(from, |list|)..Min(to, |list|)]
  }

  /** The part of a page that follows the cursor, and the selected choice when it lies elsewhere. */
  function WithSelected(list: seq<Id>, from: nat, to: nat, selected: Option<Id>): seq<Id>
    requires from <= to
  {
    Slice(list, from, to) + if selected.Some? && selected.value in list && selected.value !in Slice(list, from, to) then [selected.value] else []
  }

  method AppendSelected(list: seq<Id>, from: nat, to: nat, selected: Option<Id>) returns (r: seq<Id>)
    requires from <= to && Increasing(list)
    ensures r == WithSelected(list, from, to, selected)
  {
    r := Slice(list, from, to);
    if selected.Some? {
      for i := 0 to |list|
        invariant forall k :: 0 <= k < i ==> list[k] != selected.value || (from <= k < to && k < |list|)
      {
        if list[i] == selected.value && (i < from || i >= to) {
          assert forall k :: Min(from, |list|) <= k < Min(to, |list|) ==> list[k] != selected.value;
          return r + [list[i]];
        }
      }
      if selected.value in list {
        var k :| 0 <= k < |list| && list[k] == selected.value;
        assert Slice(list, from, to)[k - from] == selected.value;
      }
    }
    assert r + [] == r;
  }

  function OptionsPage(rooms: seq<Id>, repositories: seq<Id>, offset: nat, room: Option<Id>,
          repository: Option<Id>): Result<Options, PageError> {
    var total := Max(|rooms|, |repositories|);
    if offset > total || offset % OPTION_PAGE != 0 then Err(InvalidArgument)
    else
      var end: nat := Min(offset + OPTION_PAGE, total);
      Ok(Options(WithSelected(rooms, offset, end, room), WithSelected(repositories, offset, end, repository), if end < total then Some(end) else None))
  }

  method PageOptions(rooms: seq<Id>, repositories: seq<Id>, offset: nat, room: Option<Id>,
          repository: Option<Id>) returns (r: Result<Options, PageError>)
    requires Increasing(rooms) && Increasing(repositories)
    ensures r == OptionsPage(rooms, repositories, offset, room, repository)
  {
    var total := Max(|rooms|, |repositories|);
    if offset > total || offset % OPTION_PAGE != 0 { return Err(InvalidArgument); }
    var end: nat := Min(offset + OPTION_PAGE, total);
    var shownRooms := AppendSelected(rooms, offset, end, room);
    var shownRepositories := AppendSelected(repositories, offset, end, repository);
    r := Ok(Options(shownRooms, shownRepositories, if end < total then Some(end) else None));
  }

  /** All option pages from an offset on. */
  function OptionPages(rooms: seq<Id>, repositories: seq<Id>, offset: nat, room: Option<Id>,
          repository: Option<Id>): seq<Options>
    decreases Max(|rooms|, |repositories|) - offset
  {
    match OptionsPage(rooms, repositories, offset, room, repository)
    case Err(_) => []
    case Ok(page) => [page] + match page.next case None => [] case Some(next) => OptionPages(rooms, repositories, next, room, repository)
  }

  /** How many of a list's choices belong on the k-th page. */
  function Place(length: nat, k: nat): nat {
    if length <= k * OPTION_PAGE then 0 else Min(length - k * OPTION_PAGE, OPTION_PAGE)
  }

  /** What the k-th page shows of its own. */
  function OwnPart(shown: seq<Id>, length: nat, k: nat): seq<Id> { shown[..Min(|shown|, Place(length, k))] }

  /** The own parts of all pages, one after the other. */
  function Joined(shown: seq<seq<Id>>, length: nat): seq<Id> {
    if shown == [] then []
    else
      var k := |shown| - 1;
      Joined(shown[..k], length) + OwnPart(shown[k], length, k)
  }

  /** Everything all pages show, one after the other. */
  function Flattened(shown: seq<seq<Id>>): seq<Id> {
    if shown == [] then [] else Flattened(shown[..|shown| - 1]) + shown[|shown| - 1]
  }

  function RoomsShown(pages: seq<Options>): seq<seq<Id>> { seq(|pages|, k requires 0 <= k < |pages| => pages[k].rooms) }
  function RepositoriesShown(pages: seq<Options>): seq<seq<Id>> { seq(|pages|, k requires 0 <= k < |pages| => pages[k].repositories) }

  /** A page shows its own part, and after it the selected choice when that exists but is not in it. */
  predicate OwnAndSelected(shown: seq<Id>, k: nat, list: seq<Id>, selected: Option<Id>) {
    var own := OwnPart(shown, |list|, k);
    shown == own + if selected.Some? && selected.value in list && selected.value !in own then [selected.value] else []
  }

  function PageEnd(k: nat, total: nat): (to: nat)
    ensures k * OPTION_PAGE <= to
  {
    if k * OPTION_PAGE + OPTION_PAGE < total then k * OPTION_PAGE + OPTION_PAGE else Max(k * OPTION_PAGE, total)
  }

  lemma OwnIsSlice(list: seq<Id>, k: nat, total: nat, selected: Option<Id>)
    requires |list| <= total
    ensures var shown := WithSelected(list, k * OPTION_PAGE, PageEnd(k, total), selected);
            OwnPart(shown, |list|, k) == Slice(list, k * OPTION_PAGE, PageEnd(k, total)) && OwnAndSelected(shown, k, list, selected)
  {
    var slice := Slice(list, k * OPTION_PAGE, PageEnd(k, total));
    assert |slice| == Place(|list|, k);
    assert WithSelected(list, k * OPTION_PAGE, PageEnd(k, total), selected)[..|slice|] == slice;
  }

  function Prefix(list: seq<Id>, pages: nat): seq<Id> { list[..Min(pages * OPTION_PAGE, |list|)] }

  lemma PrefixGrows(list: seq<Id>, k: nat, total: nat)
    requires |list| <= total
    ensures Prefix(list, k) + Slice(list, k * OPTION_PAGE, PageEnd(k, total)) == Prefix(list, k + 1)
    ensures Prefix(list, 0) == []
  {
    var from, to := k * OPTION_PAGE, PageEnd(k, total);
    assert list[..Min(from, |list|)] + list[Min(from, |list|)..Min(to, |list|)] == list[..Min(to, |list|)];
  }

  lemma {:induction false} JoinedIsPrefix(list: seq<Id>, shown: seq<seq<Id>>, total: nat, selected: Option<Id>)
    requires |list| <= total
    requires forall k :: 0 <= k < |shown| ==> shown[k] == WithSelected(list, k * OPTION_PAGE, PageEnd(k, total), selected)
    ensures Joined(shown, |list|) == Prefix(list, |shown|)
  {
    hide WithSelected, PageEnd, OwnPart, Slice, Prefix;
    if shown == [] {
      PrefixGrows(list, 0, total);
    } else {
      var k := |shown| - 1;
      JoinedIsPrefix(list, shown[..k], total, selected);
      OwnIsSlice(list, k, total, selected);
      PrefixGrows(list, k, total);
    }
  }

  /** How often all pages together show a choice follows from their own parts and the selected choice. */
  lemma {:induction false} FlattenedCounts(list: seq<Id>, shown: seq<seq<Id>>, selected: Option<Id>, id: Id)
    requires forall k :: 0 <= k < |shown| ==> OwnAndSelected(shown[k], k, list, selected)
    ensures selected != Some(id) ==> multiset(Flattened(shown))[id] == multiset(Joined(shown, |list|))[id]
    ensures selected == Some(id) && id in list && (forall k :: 0 <= k < |shown| ==> multiset(shown[k])[id] == 1) ==>
              multiset(Flattened(shown))[id] == |shown|
  {
    hide OwnPart;
    if shown != [] {
      var k := |shown| - 1;
      var rest := shown[..k];
      assert forall j :: 0 <= j < k ==> rest[j] == shown[j];
      FlattenedCounts(list, rest, selected, id);
      assert OwnAndSelected(shown[k], k, list, selected);
    }
  }

  predicate Increasing(list: seq<Id>) { forall i, j :: 0 <= i < j < |list| ==> list[i] < list[j] }

  lemma {:induction false} IncreasingOnce(list: seq<Id>, id: Id)
    requires Increasing(list)
    ensures multiset(list)[id] == if id in list then 1 else 0
  {
    if list != [] {
      var n := |list| - 1;
      assert list == list[..n] + [list[n]];
      IncreasingOnce(list[..n], id);
    }
  }

  lemma SelectedOnce(shown: seq<Id>, k: nat, list: seq<Id>, total: nat, selected: Option<Id>)
    requires |list| <= total && Increasing(list) && selected.Some? && selected.value in list
    requires shown == WithSelected(list, k * OPTION_PAGE, PageEnd(k, total), selected)
    ensures multiset(shown)[selected.value] == 1
  {
    IncreasingOnce(Slice(list, k * OPTION_PAGE, PageEnd(k, total)), selected.value);
  }

  /** How often the pages together show a choice: the selected one on each page, any other once. */
  function Times(list: seq<Id>, pages: nat, selected: Option<Id>, id: Id): nat {
    if id !in list then 0 else if selected == Some(id) then pages else 1
  }

  function PageAt(rooms: seq<Id>, repositories: seq<Id>, n: nat, room: Option<Id>, repository: Option<Id>): Options {
    var total, from := Max(|rooms|, |repositories|), n * OPTION_PAGE;
    var to := PageEnd(n, total);
    Options(WithSelected(rooms, from, to, room), WithSelected(repositories, from, to, repository), if from + OPTION_PAGE < total then Some(from + OPTION_PAGE) else None)
  }

  lemma PagesFrom(rooms: seq<Id>, repositories: seq<Id>, n: nat, room: Option<Id>, repository: Option<Id>)
    requires n * OPTION_PAGE <= Max(|rooms|, |repositories|)
    ensures OptionPages(rooms, repositories, n * OPTION_PAGE, room, repository) ==
            [PageAt(rooms, repositories, n, room, repository)] +
            if (n + 1) * OPTION_PAGE < Max(|rooms|, |repositories|) then OptionPages(rooms, repositories, (n + 1) * OPTION_PAGE, room, repository) else []
  {
    hide WithSelected;
  }

  lemma {:induction false} PagesInOrder(rooms: seq<Id>, repositories: seq<Id>, n: nat, room: Option<Id>,
          repository: Option<Id>, k: nat)
    requires n * OPTION_PAGE <= Max(|rooms|, |repositories|)
    requires k < |OptionPages(rooms, repositories, n * OPTION_PAGE, room, repository)|
    ensures OptionPages(rooms, repositories, n * OPTION_PAGE, room, repository)[k] == PageAt(rooms, repositories, n + k, room, repository)
    decreases k
  {
    hide OptionPages, PageAt;
    PagesFrom(rooms, repositories, n, room, repository);
    if k > 0 { PagesInOrder(rooms, repositories, n + 1, room, repository, k - 1); }
  }

  lemma {:induction false} EnoughPages(rooms: seq<Id>, repositories: seq<Id>, n: nat, room: Option<Id>,
          repository: Option<Id>)
    requires n * OPTION_PAGE <= Max(|rooms|, |repositories|)
    ensures (n + |OptionPages(rooms, repositories, n * OPTION_PAGE, room, repository)|) * OPTION_PAGE >= Max(|rooms|, |repositories|)
    decreases Max(|rooms|, |repositories|) - n * OPTION_PAGE
  {
    hide OptionPages, PageAt;
    PagesFrom(rooms, repositories, n, room, repository);
    if (n + 1) * OPTION_PAGE < Max(|rooms|, |repositories|) { EnoughPages(rooms, repositories, n + 1, room, repository); }
  }

  /** What the pages show of one of the two lists. */
  lemma ListCoverOnce(list: seq<Id>, shown: seq<seq<Id>>, total: nat, selected: Option<Id>)
    requires |list| <= total <= |shown| * OPTION_PAGE
    requires forall k :: 0 <= k < |shown| ==> shown[k] == WithSelected(list, k * OPTION_PAGE, PageEnd(k, total), selected)
    ensures Joined(shown, |list|) == list
    ensures forall k :: 0 <= k < |shown| ==> OwnAndSelected(shown[k], k, list, selected)
    ensures selected.Some? && selected.value in list ==> forall k :: 0 <= k < |shown| ==> selected.value in shown[k]
    ensures Increasing(list) ==> forall id :: multiset(Flattened(shown))[id] == Times(list, |shown|, selected, id)
  {
    hide WithSelected, OwnAndSelected, Joined, Flattened, Increasing;
    JoinedIsPrefix(list, shown, total, selected);
    assert list[..|list|] == list;
    forall k | 0 <= k < |shown|
      ensures OwnAndSelected(shown[k], k, list, selected)
      ensures selected.Some? && selected.value in list ==> selected.value in shown[k]
    {
      OwnIsSlice(list, k, total, selected);
      if selected.Some? && selected.value in list { SelectedShown(shown[k], k, list, selected); }
    }
    if Increasing(list) {
      forall id
        ensures multiset(Flattened(shown))[id] == Times(list, |shown|, selected, id)
      {
        if selected == Some(id) && id in list {
          forall k | 0 <= k < |shown| { SelectedOnce(shown[k], k, list, total, selected); }
        }
        FlattenedCounts(list, shown, selected, id);
        IncreasingOnce(list, id);
        if id !in list { NeverShown(list, shown, selected, id); }
      }
    }
  }

  lemma {:induction false} NeverShown(list: seq<Id>, shown: seq<seq<Id>>, selected: Option<Id>, id: Id)
    requires id !in list && id !in Joined(shown, |list|)
    requires forall k :: 0 <= k < |shown| ==> OwnAndSelected(shown[k], k, list, selected)
    ensures multiset(Flattened(shown))[id] == 0
  {
    hide OwnPart;
    if shown != [] {
      var k := |shown| - 1;
      var rest := shown[..k];
      assert forall j :: 0 <= j < k ==> rest[j] == shown[j];
      NeverShown(list, rest, selected, id);
      assert OwnAndSelected(shown[k], k, list, selected);
    }
  }

  lemma SelectedShown(shown: seq<Id>, k: nat, list: seq<Id>, selected: Option<Id>)
    requires OwnAndSelected(shown, k, list, selected) && selected.Some? && selected.value in list
    ensures selected.value in shown
  {
  }

  lemma PagesShow(rooms: seq<Id>, repositories: seq<Id>, room: Option<Id>, repository: Option<Id>, k: nat)
    requires k < |OptionPages(rooms, repositories, 0, room, repository)|
    ensures var page, total := OptionPages(rooms, repositories, 0, room, repository)[k], Max(|rooms|, |repositories|);
            page.rooms == WithSelected(rooms, k * OPTION_PAGE, PageEnd(k, total), room) &&
            page.repositories == WithSelected(repositories, k * OPTION_PAGE, PageEnd(k, total), repository)
  {
    hide OptionPages, WithSelected;
    PagesInOrder(rooms, repositories, 0, room, repository, k);
  }

  /**
   Following the option pages to their end: each page shows its own part of either list and after it
   nothing but the selected choice, the own parts joined are the lists in order, and altogether every
   page shows the selected choice and exactly one page any other.
   */
  lemma OptionsCoverOnce(rooms: seq<Id>, repositories: seq<Id>, room: Option<Id>, repository: Option<Id>)
    ensures var pages := OptionPages(rooms, repositories, 0, room, repository);
            Joined(RoomsShown(pages), |rooms|) == rooms && Joined(RepositoriesShown(pages), |repositories|) == repositories &&
            forall k :: 0 <= k < |pages| ==>
              OwnAndSelected(pages[k].rooms, k, rooms, room) && OwnAndSelected(pages[k].repositories, k, repositories, repository)
    ensures var pages := OptionPages(rooms, repositories, 0, room, repository);
            forall k :: 0 <= k < |pages| ==>
              (room.Some? && room.value in rooms ==> room.value in pages[k].rooms) &&
              (repository.Some? && repository.value in repositories ==> repository.value in pages[k].repositories)
    ensures var pages := OptionPages(rooms, repositories, 0, room, repository);
            (Increasing(rooms) ==> forall id :: multiset(Flattened(RoomsShown(pages)))[id] == Times(rooms, |pages|, room, id)) &&
            (Increasing(repositories) ==>
               forall id :: multiset(Flattened(RepositoriesShown(pages)))[id] == Times(repositories, |pages|, repository, id))
  {
    hide OptionPages, Joined, Flattened, Increasing, WithSelected, OwnAndSelected, PageEnd, Times;
    var pages, total := OptionPages(rooms, repositories, 0, room, repository), Max(|rooms|, |repositories|);
    EnoughPages(rooms, repositories, 0, room, repository);
    forall k | 0 <= k < |pages|
      ensures pages[k].rooms == WithSelected(rooms, k * OPTION_PAGE, PageEnd(k, total), room) &&
              pages[k].repositories == WithSelected(repositories, k * OPTION_PAGE, PageEnd(k, total), repository)
    {
      PagesShow(rooms, repositories, room, repository, k);
    }
    ListCoverOnce(rooms, RoomsShown(pages), total, room);
    ListCoverOnce(repositories, RepositoriesShown(pages), total, repository);
    assert forall k :: 0 <= k < |pages| ==> RoomsShown(pages)[k] == pages[k].rooms && RepositoriesShown(pages)[k] == pages[k].repositories;
  }

  // ---- The request ---------------------------------------------------------------------------

  /** A request as it arrives: choices by identity, filters by name, both cursors and the page size. */
  datatype Request = Request(room: Option<Id>, repository: Option<Id>, phase: string, attention: string, archived: string,
                             cursor: Cursor, optionsCursor: Cursor, limit: int)

  /** What the Project offers: its rooms and repositories by identity, and their digest. */
  datatype Scope = Scope(rooms: seq<Id>, repositories: seq<Id>, snapshot: string)

  datatype Board = Board(page: Page, counts: Counts, options: Options)

  function ArchivedNamed(name: string): Option<Archived> {
    if name == "" || name == "exclude" then Some(Exclude)
    else if name == "include" then Some(Include)
    else if name == "only" then Some(Only)
    else None
  }

  function PhaseNamed(name: string): Option<PhaseFilter> {
    if name == "" then Some(AnyPhase)
    else if name == "preparing" then Some(OnlyPhase(Preparing))
    else if name == "working" then Some(OnlyPhase(Working))
    else if name == "review" then Some(OnlyPhase(Reviewing))
    else if name == "delivery" then Some(OnlyPhase(Delivering))
    else if name == "finished" then Some(OnlyPhase(FinishedPhase))
    else if name == "reconciliation" then Some(OnlyReconciliation)
    else None
  }

  function AttentionNamed(name: string): Option<Option<Attention>> {
    if name == "" then Some(None)
    else if name == "none" then Some(Some(NoAttention))
    else if name == "required" then Some(Some(Required))
    else if name == "unknown" then Some(Some(UnknownAttention))
    else None
  }

  predicate LimitFits(limit: int) { 0 <= limit <= MAX_LIMIT }

  predicate Understood(request: Request) {
    LimitFits(request.limit) && ArchivedNamed(request.archived).Some? && PhaseNamed(request.phase).Some? && AttentionNamed(request.attention).Some?
  }

  predicate InScope(scope: Scope, request: Request) {
    (request.room.Some? ==> request.room.value in scope.rooms) && (request.repository.Some? ==> request.repository.value in scope.repositories)
  }

  function Asks(request: Request): Query
    requires Understood(request)
  {
    Query(request.room, request.repository, PhaseNamed(request.phase).value, AttentionNamed(request.attention).value, ArchivedNamed(request.archived).value)
  }

  function OptionsAt(scope: Scope, request: Request): Result<Options, PageError> {
    var cursor := request.optionsCursor;
    if cursor.BadCursor? then Err(InvalidArgument)
    else if cursor.At? && cursor.snapshot != scope.snapshot then Err(SnapshotChanged)
    else if cursor.At? && cursor.offset < 0 then Err(InvalidArgument)
    else OptionsPage(scope.rooms, scope.repositories, if cursor.At? then cursor.offset else 0, request.room, request.repository)
  }

  /** The answer's page and options, or why there is none: the request first, then the choices, then the cards. */
  function Answer(scope: Scope, rows: seq<Row>, request: Request, snapshot: string): Result<(Page, Options), PageError> {
    if !Understood(request) || !InScope(scope, request) then Err(InvalidArgument)
    else
      match OptionsAt(scope, request)
      case Err(e) => Err(e)
      case Ok(options) =>
        match PageOf(Sort(Filtered(rows, Asks(request))), snapshot, request.cursor, request.limit)
        case Err(e) => Err(e)
        case Ok(page) => Ok((page, options))
  }

  predicate Counted(counts: Counts, cards: seq<Row>) {
    counts.reconciliation == InPhase(cards, None) && counts.attention == Attending(cards) &&
    (forall p: Phase :: p in counts.phase && counts.phase[p] == InPhase(cards, Some(p))) &&
    counts.phase[Preparing] + counts.phase[Working] + counts.phase[Reviewing] + counts.phase[Delivering] + counts.phase[FinishedPhase] +
    counts.reconciliation == |cards|
  }

  method CheckScope(scope: Scope, request: Request) returns (known: bool)
    ensures known <==> InScope(scope, request)
  {
    if request.room.Some? && request.room.value !in scope.rooms { return false; }
    known := true;
    if request.repository.Some? {
      known := false;
      for i := 0 to |scope.repositories|
        invariant known <==> request.repository.value in scope.repositories[..i]
      {
        if scope.repositories[i] == request.repository.value { known := true; }
        assert scope.repositories[..i + 1] == scope.repositories[..i] + [scope.repositories[i]];
      }
      assert scope.repositories[..|scope.repositories|] == scope.repositories;
    }
  }

  method FilterRows(rows: seq<Row>, q: Query) returns (cards: seq<Row>)
    ensures cards == Filtered(rows, q)
  {
    cards := [];
    for k := 0 to |rows|
      invariant cards == Filtered(rows[..k], q)
    {
      assert rows[..k + 1][..k] == rows[..k];
      if Matches(q, rows[k]) { cards := cards + [rows[k]]; }
    }
    assert rows[..|rows|] == rows;
  }

  /** The counts are those of all matching cards, whichever page is asked for. */
  method ProjectBoard(scope: Scope, rows: seq<Row>, request: Request, snapshot: string) returns (r: Result<Board, PageError>)
    requires Increasing(scope.rooms) && Increasing(scope.repositories)
    ensures match Answer(scope, rows, request, snapshot)
            case Err(e) => r == Err(e)
            case Ok((page, options)) => r.Ok? && r.value.page == page && r.value.options == options
    ensures r.Ok? ==> Counted(r.value.counts, Sort(Filtered(rows, Asks(request)))) && r.value.page.total == |Sort(Filtered(rows, Asks(request)))|
  {
    hide Understood, InScope, Matches, InPhase, Attending, WithSelected, Asks;
    if !Understood(request) { return Err(InvalidArgument); }
    var known := CheckScope(scope, request);
    if !known { return Err(InvalidArgument); }
    var cursor := request.optionsCursor;
    if cursor.BadCursor? { return Err(InvalidArgument); }
    if cursor.At? && cursor.snapshot != scope.snapshot { return Err(SnapshotChanged); }
    if cursor.At? && cursor.offset < 0 { return Err(InvalidArgument); }
    var options := PageOptions(scope.rooms, scope.repositories, if cursor.At? then cursor.offset else 0, request.room, request.repository);
    if options.Err? { return Err(options.error); }
    var q := Asks(request);
    var cards := FilterRows(rows, q);
    cards := Sort(cards);
    var counts := CountRows(cards);
    var page := PageOf(cards, snapshot, request.cursor, request.limit);
    if page.Err? { return Err(page.error); }
    r := Ok(Board(page.value, counts, options.value));
  }

  /** The request a client sends next when it follows the cursor of the cards. */
  function Next(request: Request, cursor: Cursor, limit: int): Request { request.(cursor := cursor, limit := limit) }

  /** The rows a client gathers from whole answers, following the cursor of the cards with these page sizes. */
  function Gathered(scope: Scope, rows: seq<Row>, request: Request, snapshot: string, cursor: Cursor, limits: seq<int>): seq<Row>
    decreases |limits|
  {
    if limits == [] then []
    else
      match Answer(scope, rows, Next(request, cursor, limits[0]), snapshot)
      case Err(_) => []
      case Ok((page, _)) =>
        page.rows + match page.next case None => [] case Some(next) => Gathered(scope, rows, request, snapshot, next, limits[1..])
  }

  lemma {:induction false} GatheredIsFollowed(scope: Scope, rows: seq<Row>, request: Request, snapshot: string, cursor: Cursor,
          limits: seq<int>)
    requires Understood(request) && InScope(scope, request) && OptionsAt(scope, request).Ok? && ValidLimits(limits)
    ensures Gathered(scope, rows, request, snapshot, cursor, limits) ==
            Followed(Sort(Filtered(rows, Asks(request))), snapshot, cursor, limits)
    decreases |limits|
  {
    hide Filtered, Sort, PageOf, OptionsPage;
    if limits != [] {
      var cards := Sort(Filtered(rows, Asks(request)));
      assert Asks(Next(request, cursor, limits[0])) == Asks(request);
      match PageOf(cards, snapshot, cursor, limits[0])
      case Err(_) =>
      case Ok(page) =>
        if page.next.Some? { GatheredIsFollowed(scope, rows, request, snapshot, page.next.value, limits[1..]); }
    }
  }

  /**
   Over an unchanged snapshot, a client with an acceptable request that follows the cursor of the answers,
   with any page sizes until they add up, gathers exactly the rows that match, each once, in activity order.
   */
  lemma AnswersCoverOnce(scope: Scope, rows: seq<Row>, request: Request, snapshot: string, limits: seq<int>)
    requires Understood(request) && InScope(scope, request) && OptionsAt(scope, request).Ok?
    requires DistinctTasks(rows) && ValidLimits(limits) && limits != []
    requires Asked(limits) >= |Filtered(rows, Asks(request))|
    ensures var got := Gathered(scope, rows, request, snapshot, NoCursor, limits);
            Ordered(got) && forall r :: multiset(got)[r] == if Matches(Asks(request), r) then multiset(rows)[r] else 0
  {
    hide Matches, Filtered, Sort, Followed, Gathered, DistinctTasks, Ordered, OptionsPage, Asks;
    GatheredIsFollowed(scope, rows, request, snapshot, NoCursor, limits);
    CursorsCoverOnce(rows, Asks(request), snapshot, limits);
  }

  // ---- What a request asks for ---------------------------------------------------------------

  /** The name under which a row's column is asked for. */
  function ColumnName(phase: Option<Phase>): string {
    match phase
    case None => "reconciliation"
    case Some(Preparing) => "preparing"
    case Some(Working) => "working"
    case Some(Reviewing) => "review"
    case Some(Delivering) => "delivery"
    case Some(FinishedPhase) => "finished"
  }

  function AttentionName(attention: Attention): string {
    match attention case NoAttention => "none" case Required => "required" case UnknownAttention => "unknown"
  }

  /** Every filter that is given names what the row shows; archived Tasks are left out, let in, or alone asked for. */
  predicate Wanted(request: Request, r: Row) {
    (request.room == Some(r.room) || request.room.None?) &&
    (request.repository.None? || exists i :: 0 <= i < |r.repositories| && Some(r.repositories[i]) == request.repository) &&
    (request.phase == "" || request.phase == ColumnName(r.card.phase)) &&
    (request.attention == "" || request.attention == AttentionName(r.card.attention)) &&
    (r.archived ==> request.archived in {"include", "only"}) && (!r.archived ==> request.archived in {"", "exclude", "include"})
  }

  /** A filter that is read is the filter its name says, and the names that are read are exactly these. */
  lemma RequestsAreRead(request: Request)
    ensures Understood(request) <==>
              0 <= request.limit <= 100 && request.archived in {"", "exclude", "include", "only"} &&
              request.phase in {"", "preparing", "working", "review", "delivery", "finished", "reconciliation"} &&
              request.attention in {"", "none", "required", "unknown"}
  {
  }

  lemma PhaseAsked(request: Request, r: Row)
    requires PhaseNamed(request.phase).Some?
    ensures (match PhaseNamed(request.phase).value
             case AnyPhase => true
             case OnlyPhase(p) => r.card.phase == Some(p)
             case OnlyReconciliation => r.card.phase.None?) <==> request.phase == "" || request.phase == ColumnName(r.card.phase)
  {
  }

  lemma AttentionAsked(request: Request, r: Row)
    requires AttentionNamed(request.attention).Some?
    ensures (AttentionNamed(request.attention).value.Some? ==> r.card.attention == AttentionNamed(request.attention).value.value) <==>
              request.attention == "" || request.attention == AttentionName(r.card.attention)
  {
  }

  lemma ArchivedAsked(request: Request, r: Row)
    requires ArchivedNamed(request.archived).Some?
    ensures (match ArchivedNamed(request.archived).value case Exclude => !r.archived case Include => true case Only => r.archived) <==>
              (r.archived ==> request.archived in {"include", "only"}) && (!r.archived ==> request.archived in {"", "exclude", "include"})
  {
  }

  lemma MatchesWanted(request: Request, r: Row)
    requires Understood(request)
    ensures Matches(Asks(request), r) <==> Wanted(request, r)
  {
    hide PhaseNamed, AttentionNamed, ArchivedNamed, ColumnName, AttentionName;
    PhaseAsked(request, r);
    AttentionAsked(request, r);
    ArchivedAsked(request, r);
  }

  /** Earlier rows were active later; of rows active at the same time, the one with the smaller identity comes first. */
  predicate MostRecentFirst(rows: seq<Row>) {
    forall i, j :: 0 <= i < j < |rows| ==>
      rows[i].activity >= rows[j].activity && (rows[i].activity == rows[j].activity ==> rows[i].task < rows[j].task)
  }

  /**
   What a client gathers, in the request's own words: exactly the rows it wants, each once, most recent activity
   first, whatever the page sizes.
   */
  lemma WantedOnce(scope: Scope, rows: seq<Row>, request: Request, snapshot: string, limits: seq<int>)
    requires Understood(request) && InScope(scope, request) && OptionsAt(scope, request).Ok?
    requires DistinctTasks(rows) && ValidLimits(limits) && limits != []
    requires Asked(limits) >= |Filtered(rows, Asks(request))|
    ensures var got := Gathered(scope, rows, request, snapshot, NoCursor, limits);
            MostRecentFirst(got) && forall r :: multiset(got)[r] == if Wanted(request, r) then multiset(rows)[r] else 0
  {
    hide Understood, InScope, OptionsAt, DistinctTasks, ValidLimits, Asked, Filtered, Asks, Matches, Wanted, Gathered;
    AnswersCoverOnce(scope, rows, request, snapshot, limits);
    forall r
      ensures Matches(Asks(request), r) <==> Wanted(request, r)
    {
      MatchesWanted(request, r);
    }
  }

  /** Why there is no answer: another snapshot than the cursor's, for options or for cards, or a request that makes no sense. */
  lemma AnswersFail(scope: Scope, rows: seq<Row>, request: Request, snapshot: string)
    ensures var answer, sensible := Answer(scope, rows, request, snapshot), Understood(request) && InScope(scope, request);
            var total, options := Max(|scope.rooms|, |scope.repositories|), request.optionsCursor;
            var stale := options.At? && options.snapshot != scope.snapshot;
            var badOptions := options.BadCursor? || (options.At? && (options.offset < 0 || options.offset > total || options.offset % 100 != 0));
            (answer == Err(SnapshotChanged) <==>
               sensible && (stale || (!badOptions && request.cursor.At? && request.cursor.snapshot != snapshot))) &&
            (answer == Err(InvalidArgument) <==>
               !sensible || (!stale && (badOptions || request.cursor.BadCursor? ||
                                        (request.cursor.At? && request.cursor.snapshot == snapshot &&
                                         (request.cursor.offset < 0 || request.cursor.offset > |Filtered(rows, Asks(request))|)))))
  {
    hide Filtered, Sort, WithSelected, InScope;
    if Understood(request) { SameNumber(rows, Asks(request)); }
  }

  lemma SameNumber(rows: seq<Row>, q: Query)
    ensures |Sort(Filtered(rows, q))| == |Filtered(rows, q)|
  {
    SortLength(Filtered(rows, q));
  }

  lemma {:induction false} SortLength(rows: seq<Row>)
    ensures |Sort(rows)| == |rows|
  {
    if rows != [] {
      var n := |rows| - 1;
      SortLength(rows[..n]);
      InsertLength(Sort(rows[..n]), rows[n]);
    }
  }

  lemma {:induction false} InsertLength(rows: seq<Row>, r: Row)
    ensures |Insert(rows, r)| == |rows| + 1
  {
    if rows != [] && !Before(r, rows[0]) { InsertLength(rows[1..], r); }
  }
}
