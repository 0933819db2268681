/** The announcements board: the category tabs, the urgent banner, the "this week"
    sidebar, the news modal and the mini calendar. */
module Tablon {
  import opened Options
  import Lists
  import Text

  /** The board's filter; the search controller writes one of these before switching to the board. */
  datatype Category = All | Convocatorias | Examenes | Noticias
  {
    /** The tab id, compared with a news item's `category` string. */
    function Name(): string
    {
      match this
      case All => "all"
      case Convocatorias => "convocatorias"
      case Examenes => "examenes"
      case Noticias => "noticias"
    }
  }

  datatype NewsItem = NewsItem(
    id: int,
    title: string,
    excerpt: string,
    date: string,
    category: string,
    status: string,
    deadline: Option<string>,
    urgent: bool)

  /** The items whose `category` string equals `name`, in board order. */
  function OfCategory(items: seq<NewsItem>, name: string): (r: seq<NewsItem>)
    ensures forall x :: x in r <==> x in items && x.category == name
    ensures forall x: NewsItem :: x.category == name ==> multiset(r)[x] == multiset(items)[x]
    ensures Lists.Subseq(r, items)
  {
    Lists.Filter(items, (x: NewsItem) => x.category == name)
  }

  /** The cards shown under the active filter: everything for "all", else the items of that category. */
  function FilteredNews(items: seq<NewsItem>, filter: Category): (r: seq<NewsItem>)
    ensures filter == All ==> r == items
    ensures filter != All ==> forall x :: x in r <==> x in items && x.category == filter.Name()
    ensures filter != All ==> forall x: NewsItem :: x.category == filter.Name() ==> multiset(r)[x] == multiset(items)[x]
    ensures Lists.Subseq(r, items)
  {
    if filter == All then
      Lists.SubseqRefl(items);
      items
    else OfCategory(items, filter.Name())
  }

  /** The number in a filter tab's badge. */
  function CategoryCount(items: seq<NewsItem>, filter: Category): (r: nat)
    ensures r <= |items|
    ensures filter == All ==> r == |items|
  {
    if filter == All then |items| else |OfCategory(items, filter.Name())|
  }

  /** Each badge counts exactly the cards its tab shows. */
  lemma BadgeMatchesCards(items: seq<NewsItem>, filter: Category)
    ensures CategoryCount(items, filter) == |FilteredNews(items, filter)|
  {
  }

  predicate HasKnownCategory(x: NewsItem)
  {
    x.category in {"convocatorias", "examenes", "noticias"}
  }

  /** When every item belongs to one of the three categories, their badges add up to the "all" badge. */
  lemma {:induction false} CountsPartitionAll(items: seq<NewsItem>)
    requires forall x :: x in items ==> HasKnownCategory(x)
    ensures CategoryCount(items, Convocatorias) + CategoryCount(items, Examenes)
            + CategoryCount(items, Noticias) == CategoryCount(items, All)
  {
    if items != [] {
      CountsPartitionAll(items[1..]);
      assert items == [items[0]] + items[1..];
      assert items[0] in items;
    }
  }

  /** `newsItems.find(item => item.urgent)`: the first urgent item, if any. */
  function UrgentItem(items: seq<NewsItem>): (r: Option<NewsItem>)
    ensures r == None <==> forall i :: 0 <= i < |items| ==> !items[i].urgent
    ensures r != None ==> exists i :: 0 <= i < |items| && items[i] == r.value && r.value.urgent
                                      && forall j :: 0 <= j < i ==> !items[j].urgent
  {
    if items == [] then None
    else if items[0].urgent then Some(items[0])
    else
      var r := UrgentItem(items[1..]);
      assert forall i :: 1 <= i < |items| ==> items[i] == items[1..][i - 1];
      r
  }

  /** An item posted "this week": its relative date mentions hours or days, or is exactly one week. */
  predicate IsRecent(date: string): (r: bool)
    ensures r <==> || (exists i :: Text.OccursAt(date, "horas", i))
                   || (exists i :: Text.OccursAt(date, "días", i))
                   || date == "Hace 1 semana"
  {
    Text.Contains(date, "horas") || Text.Contains(date, "días") || date == "Hace 1 semana"
  }

  predicate IsRecentItem(x: NewsItem)
  {
    IsRecent(x.date)
  }

  /** The sidebar's "this week" list: the first three recent items, in board order. */
  function ThisWeekHighlights(items: seq<NewsItem>): (r: seq<NewsItem>)
    ensures |r| <= 3
    ensures forall x :: x in r ==> x in items && IsRecent(x.date)
    ensures Lists.Subseq(r, items)
    ensures forall x :: x in items && IsRecent(x.date) && x !in r ==> |r| == 3
    ensures |r| == (if |Lists.Filter(items, IsRecentItem)| < 3 then |Lists.Filter(items, IsRecentItem)| else 3)
    ensures r == Lists.Filter(items, IsRecentItem)[..|r|]
  {
    Lists.FirstMatching(items, IsRecentItem, 3)
  }

  /** The mini calendar has this many cells, seven per row. */
  const CalendarCells := 35

  /** The day number written in cell `i` (cell `i` is day `i - 2`), blank outside 1..31. */
  function CalendarDay(i: int): (r: Option<int>)
    ensures r.Some? <==> 3 <= i <= 33
    ensures r.Some? ==> r.value == i - 2 && 1 <= r.value <= 31
  {
    var day := i - 2;
    if day > 0 && day <= 31 then Some(day) else None
  }

  /** Days marked as having an event: every fifth day up to the 25th. */
  predicate HasEvent(day: int): (r: bool)
    ensures r <==> 5 <= day <= 25 && day % 5 == 0
  {
    day in [5, 10, 15, 20, 25]
  }

  /** Every marked day is a day of the month, written in its own cell. */
  lemma EventDaysShown(day: int)
    requires HasEvent(day)
    ensures 1 <= day <= 31 && CalendarDay(day + 2) == Some(day)
  {
  }

  /** Every day of the month is written in exactly one of the 35 cells, and nothing else is. */
  lemma CalendarShowsEachDayOnce(day: int)
    requires 1 <= day <= 31
    ensures 0 <= day + 2 < CalendarCells && CalendarDay(day + 2) == Some(day)
    ensures forall i :: CalendarDay(i) == Some(day) ==> i == day + 2
  {
  }

  /** The board's own state: the filter tab chosen, the item opened and whether the modal is open. */
  class Board {
    /** The `initialFilter` prop the board last rendered with. */
    var initialFilter: Category
    var activeFilter: Category
    var selectedNews: Option<NewsItem>
    var isOpen: bool

    /** First render: the active filter starts as the prop, no modal. */
    constructor (initialFilter: Category)
      ensures this.initialFilter == initialFilter && activeFilter == initialFilter
      ensures selectedNews == None && !isOpen
    {
      this.initialFilter := initialFilter;
      activeFilter := initialFilter;
      selectedNews := None;
      isOpen := false;
    }

    /** The modal is drawn only when it is open and an item is selected. */
    predicate ModalVisible()
      reads this
    {
      isOpen && selectedNews != None
    }

    /** A re-render with a (possibly new) prop: the sync effect resets the active filter
        only when the prop changed. */
    method Rerender(prop: Category)
      modifies this
      ensures initialFilter == prop
      ensures activeFilter == if prop != old(initialFilter) then prop else old(activeFilter)
      ensures selectedNews == old(selectedNews) && isOpen == old(isOpen)
    {
      if prop != initialFilter {
        activeFilter := prop;
      }
      initialFilter := prop;
    }

    /** A filter tab is clicked. */
    method ClickFilter(filter: Category)
      modifies this
      ensures activeFilter == filter
      ensures initialFilter == old(initialFilter) && selectedNews == old(selectedNews) && isOpen == old(isOpen)
    {
      activeFilter := filter;
    }

    /** `openModal(item)`: the modal shows that item. */
    method OpenModal(item: NewsItem)
      modifies this
      ensures selectedNews == Some(item) && isOpen && ModalVisible()
      ensures initialFilter == old(initialFilter) && activeFilter == old(activeFilter)
    {
      selectedNews := Some(item);
      isOpen := true;
    }

    /** `closeModal()`: closed and cleared. */
    method CloseModal()
      modifies this
      ensures selectedNews == None && !isOpen && !ModalVisible()
      ensures initialFilter == old(initialFilter) && activeFilter == old(activeFilter)
    {
      isOpen := false;
      selectedNews := None;
    }
  }
}
