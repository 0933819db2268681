/** The portal shell: the global search box with its keyboard-driven dropdown, the tab bar,
    and the deferred navigation that scrolls to (and focuses) a target once its tab has rendered.

    React's commit phase is modelled by `Settle`: every event method changes the state the
    handler changes and then calls `Settle`, which runs each effect whose dependencies differ
    from the ones it last ran with. `Valid` says the effects have settled. The 250 ms timer is a
    numbered `Timer` that fires only through an explicit `Fire` event; clearing it forgets it. */
module Controller {
  import opened Options
  import Search
  import Tablon

  /** The external page the last tab button and the external catalog entry open. */
  const FcytUrl := "https://sagaa.fcyt.umss.edu.bo/admision/noticias.php"

  /** What the portal asks the browser to do, in order. */
  datatype Effect =
    | OpenWindow(url: string)
    | ScrollIntoView(anchorId: string)
    | ScrollToTop
    | FocusElement(selector: string)

  /** The browser's answers to `getElementById` and `querySelector` at the time the timer fires. */
  datatype Dom = Dom(ids: set<string>, selectors: set<string>)

  /** A navigation waiting for its tab. `serial` stands for the object's identity: every call of
      `selectItem` builds a new object, and React compares effect dependencies by identity. */
  datatype NavIntent = NavIntent(
    serial: nat,
    tab: Search.Tab,
    anchorId: Option<string>,
    focusSelector: Option<string>,
    tablonFilter: Option<Tablon.Category>)

  /** A scheduled timer and the intent its callback captured. */
  datatype Timer = Timer(id: nat, intent: NavIntent)

  datatype Key = ArrowDown | ArrowUp | Enter | Escape | OtherKey

  /** What the main area renders. */
  datatype Section =
    | ProcesoSection
    | TablonSection(initialFilter: Tablon.Category)
    | MaterialSection
    | ApoyoSection
    | TutorialesSection

  /** JavaScript truthiness of an optional string: present and non-empty. */
  predicate Truthy(s: Option<string>)
  {
    s.Some? && s.value != ""
  }

  /** `Math.max(len - 1, 0)`: the last index of a list of length `len`, or 0 when it is empty. */
  function LastIndex(len: int): (r: int)
    ensures r >= 0 && r >= len - 1
    ensures r == len - 1 || r == 0
  {
    if len - 1 > 0 then len - 1 else 0
  }

  /** The clamp effect: `Math.min(h, Math.max(len - 1, 0))`. */
  function Clamp(h: int, len: int): (r: int)
    ensures r <= LastIndex(len)
    ensures r == h || r == LastIndex(len)
    ensures h <= LastIndex(len) ==> r == h
  {
    if h < LastIndex(len) then h else LastIndex(len)
  }

  /** ArrowDown: `Math.min(h + 1, len - 1)`. It stays on the last entry, and on an empty list
      it is -1. */
  function Down(h: int, len: int): (r: int)
    ensures r <= len - 1
    ensures len > 0 && h >= -1 ==> 0 <= r
    ensures h + 1 <= len - 1 ==> r == h + 1
    ensures h + 1 >= len - 1 ==> r == len - 1
    ensures len == 0 && h >= -1 ==> r == -1
  {
    if h + 1 < len - 1 then h + 1 else len - 1
  }

  /** ArrowUp: `Math.max(h - 1, 0)`. */
  function Up(h: int): (r: int)
    ensures r >= 0
    ensures h >= 1 ==> r == h - 1
    ensures h <= 1 ==> r == 0
  {
    if h - 1 > 0 then h - 1 else 0
  }

  /** The highlight the dropdown can show: within the list, or -1 only when the list is empty. */
  predicate HighlightOk(h: int, len: int)
  {
    -1 <= h <= LastIndex(len) && (h == -1 ==> len == 0)
  }

  /** The effects of a fired timer: scroll to the anchor (to the top when there is none; a missing
      element scrolls nowhere), then focus the selector's element when it exists. */
  function NavEffects(nav: NavIntent, dom: Dom): (r: seq<Effect>)
    ensures |r| <= 2
    ensures ScrollToTop in r <==> !Truthy(nav.anchorId)
    ensures forall a :: ScrollIntoView(a) in r <==> Truthy(nav.anchorId) && a == nav.anchorId.value && a in dom.ids
    ensures forall s :: FocusElement(s) in r <==> Truthy(nav.focusSelector) && s == nav.focusSelector.value && s in dom.selectors
    ensures forall u :: OpenWindow(u) !in r
    ensures r != [] && r[0].FocusElement? ==> r == [r[0]]
    ensures |r| == (if !Truthy(nav.anchorId) || nav.anchorId.value in dom.ids then 1 else 0)
                   + (if Truthy(nav.focusSelector) && nav.focusSelector.value in dom.selectors then 1 else 0)
  {
    var scroll :=
      if Truthy(nav.anchorId) then
        if nav.anchorId.value in dom.ids then [ScrollIntoView(nav.anchorId.value)] else []
      else [ScrollToTop];
    var focus :=
      if Truthy(nav.focusSelector) && nav.focusSelector.value in dom.selectors
      then [FocusElement(nav.focusSelector.value)] else [];
    scroll + focus
  }

  /** `renderContent`: each section tab has its own page; the external tab, which never becomes
      active through a button, falls to the default branch, the process page. */
  function RenderContent(tab: Search.Tab, filter: Tablon.Category): (r: Section)
    ensures r.TablonSection? <==> tab == Search.Anuncios
    ensures r.TablonSection? ==> r.initialFilter == filter
    ensures r == ProcesoSection <==> tab == Search.Proceso || tab == Search.Fcyt
    ensures r == MaterialSection <==> tab == Search.Material
    ensures r == ApoyoSection <==> tab == Search.Apoyo
    ensures r == TutorialesSection <==> tab == Search.Tutoriales
  {
    match tab
    case Proceso => ProcesoSection
    case Anuncios => TablonSection(filter)
    case Material => MaterialSection
    case Apoyo => ApoyoSection
    case Tutoriales => TutorialesSection
    case Fcyt => ProcesoSection
  }

  class App {
    const catalog: seq<Search.SearchItem>
    var query: string
    var open: bool
    var highlight: int
    var activeTab: Search.Tab
    var tablonFilter: Tablon.Category
    var pendingNav: Option<NavIntent>
    var mobileMenuOpen: bool
    /** The timer scheduled by the navigation effect and not yet cleared. */
    var armed: Option<Timer>
    var nextTimer: nat
    var nextSerial: nat
    /** Everything asked of the browser so far. */
    var effects: seq<Effect>
    /** The memoised dropdown entries for `query`. */
    var results: seq<Search.SearchItem>
    /** `results.length` as the clamp effect last saw it. */
    var clampLen: int
    /** `activeTab` and `pendingNav` as the navigation effect last saw them. */
    var navTab: Search.Tab
    var navDep: Option<NavIntent>

    /** The dropdown is drawn only while open and non-empty; once settled, a drawn dropdown
        always has one of its entries highlighted. */
    predicate DropdownVisible(): (r: bool)
      reads this
      ensures r ==> open && results != []
      ensures Valid() && r ==> 0 <= highlight < |results|
    {
      open && |results| > 0
    }

    /** Effects have settled: each one ran with the current dependencies; the highlight is in
        range; a timer is armed exactly while an intent waits on the tab that is showing, and it
        carries that intent. */
    predicate Valid()
      reads this
    {
      && results == Search.Results(query, catalog)
      && clampLen == |results|
      && navTab == activeTab && navDep == pendingNav
      && HighlightOk(highlight, clampLen)
      && (armed.Some? <==> pendingNav.Some? && pendingNav.value.tab == activeTab)
      && (armed.Some? ==> armed.value.intent == pendingNav.value && armed.value.id < nextTimer)
      && (pendingNav.Some? ==> pendingNav.value.serial < nextSerial)
    }

    /** First render and its effects: empty query, closed list, the process tab, nothing pending. */
    constructor (catalog: seq<Search.SearchItem>)
      ensures this.catalog == catalog && Valid()
      ensures query == "" && !open && highlight == 0 && activeTab == Search.Proceso
      ensures tablonFilter == Tablon.All && pendingNav == None && !mobileMenuOpen
      ensures armed == None && effects == [] && nextTimer == 0 && nextSerial == 0
    {
      this.catalog := catalog;
      query := "";
      open := false;
      highlight := 0;
      activeTab := Search.Proceso;
      tablonFilter := Tablon.All;
      pendingNav := None;
      mobileMenuOpen := false;
      armed := None;
      nextTimer := 0;
      nextSerial := 0;
      effects := [];
      var listed := Search.Results("", catalog);
      results := listed;
      clampLen := |listed|;
      navTab := Search.Proceso;
      navDep := None;
    }

    /** The commit phase: the clamp effect, then the navigation effect. */
    method Settle()
      modifies this
      ensures results == Search.Results(old(query), catalog) && clampLen == |results|
      ensures highlight == if clampLen != old(clampLen) then Clamp(old(highlight), clampLen) else old(highlight)
      ensures navTab == activeTab && navDep == pendingNav
      ensures old(navTab) != activeTab || old(navDep) != pendingNav ==>
                && armed == (if pendingNav.Some? && pendingNav.value.tab == activeTab
                             then Some(Timer(old(nextTimer), pendingNav.value)) else None)
                && nextTimer == old(nextTimer) + (if armed.Some? then 1 else 0)
      ensures old(navTab) == activeTab && old(navDep) == pendingNav ==>
                armed == old(armed) && nextTimer == old(nextTimer)
      ensures query == old(query) && open == old(open) && activeTab == old(activeTab)
      ensures tablonFilter == old(tablonFilter) && pendingNav == old(pendingNav)
      ensures mobileMenuOpen == old(mobileMenuOpen) && nextSerial == old(nextSerial) && effects == old(effects)
    {
      RunClamp();
      RunNavEffect();
    }

    /** The memo recomputes the entries; the clamp effect runs when their count changed. */
    method RunClamp()
      modifies this
      ensures results == Search.Results(old(query), catalog) && clampLen == |results|
      ensures highlight == if clampLen != old(clampLen) then Clamp(old(highlight), clampLen) else old(highlight)
      ensures query == old(query) && open == old(open) && activeTab == old(activeTab)
      ensures tablonFilter == old(tablonFilter) && pendingNav == old(pendingNav)
      ensures mobileMenuOpen == old(mobileMenuOpen) && nextSerial == old(nextSerial) && effects == old(effects)
      ensures armed == old(armed) && nextTimer == old(nextTimer) && navTab == old(navTab) && navDep == old(navDep)
    {
      var listed := Search.Results(query, catalog);
      results := listed;
      if |listed| != clampLen {
        highlight := Clamp(highlight, |listed|);
        clampLen := |listed|;
      }
    }

    /** The navigation effect runs when the tab or the intent changed: its cleanup clears the
        timer, then a new one is armed when the intent's tab is the active tab. */
    method RunNavEffect()
      modifies this
      ensures navTab == activeTab && navDep == pendingNav
      ensures old(navTab) != activeTab || old(navDep) != pendingNav ==>
                && armed == (if pendingNav.Some? && pendingNav.value.tab == activeTab
                             then Some(Timer(old(nextTimer), pendingNav.value)) else None)
                && nextTimer == old(nextTimer) + (if armed.Some? then 1 else 0)
      ensures old(navTab) == activeTab && old(navDep) == pendingNav ==>
                armed == old(armed) && nextTimer == old(nextTimer)
      ensures query == old(query) && open == old(open) && activeTab == old(activeTab)
      ensures tablonFilter == old(tablonFilter) && pendingNav == old(pendingNav)
      ensures mobileMenuOpen == old(mobileMenuOpen) && nextSerial == old(nextSerial) && effects == old(effects)
      ensures results == old(results) && clampLen == old(clampLen) && highlight == old(highlight)
    {
      if navTab != activeTab || navDep != pendingNav {
        armed := None;
        if pendingNav.Some? && pendingNav.value.tab == activeTab {
          armed := Some(Timer(nextTimer, pendingNav.value));
          nextTimer := nextTimer + 1;
        }
        navTab := activeTab;
        navDep := pendingNav;
      }
    }

    /** Typing in the box: the text is kept, the list opens and the first entry is highlighted. */
    method Change(v: string)
      requires Valid()
      modifies this
      ensures Valid()
      ensures nextTimer >= old(nextTimer) && (armed.Some? ==> armed == old(armed) || armed.value.id >= old(nextTimer))
      ensures query == v && open && highlight == 0
      ensures activeTab == old(activeTab) && tablonFilter == old(tablonFilter) && pendingNav == old(pendingNav)
      ensures mobileMenuOpen == old(mobileMenuOpen) && armed == old(armed) && effects == old(effects)
    {
      query := v;
      open := true;
      highlight := 0;
      Settle();
    }

    /** Focusing the box opens the list and leaves the highlight alone. */
    method Focus()
      requires Valid()
      modifies this
      ensures Valid()
      ensures nextTimer >= old(nextTimer) && (armed.Some? ==> armed == old(armed) || armed.value.id >= old(nextTimer))
      ensures open && query == old(query) && highlight == old(highlight)
      ensures activeTab == old(activeTab) && tablonFilter == old(tablonFilter) && pendingNav == old(pendingNav)
      ensures mobileMenuOpen == old(mobileMenuOpen) && armed == old(armed) && effects == old(effects)
    {
      open := true;
      Settle();
    }

    /** A mousedown anywhere in the document. When the wrapper is mounted and the target is outside
        it, the list closes; the query and highlight stay. */
    method MouseDown(mounted: bool, inside: bool)
      requires Valid()
      modifies this
      ensures Valid()
      ensures nextTimer >= old(nextTimer) && (armed.Some? ==> armed == old(armed) || armed.value.id >= old(nextTimer))
      ensures open == (old(open) && !(mounted && !inside))
      ensures query == old(query) && highlight == old(highlight)
      ensures activeTab == old(activeTab) && tablonFilter == old(tablonFilter) && pendingNav == old(pendingNav)
      ensures mobileMenuOpen == old(mobileMenuOpen) && armed == old(armed) && effects == old(effects)
    {
      if mounted && !inside {
        open := false;
      }
      Settle();
    }

    /** What `selectItem(item)` and the commit after it leave behind: the list closes and the
        query clears; an external entry opens its page and nothing else; otherwise the board
        filter is taken over, and an entry with a tab records a fresh intent, switches to the tab
        and closes the mobile menu, so that the timer armed afterwards is a new one carrying that
        intent. */
    twostate predicate SelectedThen(item: Search.SearchItem)
      reads this
    {
      && !open && query == ""
      && highlight == Clamp(old(highlight), |results|)
      && (Truthy(item.url) ==>
            && effects == old(effects) + [OpenWindow(item.url.value)]
            && tablonFilter == old(tablonFilter) && pendingNav == old(pendingNav)
            && activeTab == old(activeTab) && mobileMenuOpen == old(mobileMenuOpen)
            && armed == old(armed))
      && (!Truthy(item.url) ==>
            && effects == old(effects)
            && tablonFilter == (if item.tablonFilter.Some? then item.tablonFilter.value else old(tablonFilter)))
      && (!Truthy(item.url) && item.tab.Some? ==>
            && pendingNav == Some(NavIntent(old(nextSerial), item.tab.value, item.anchorId,
                                            item.focusSelector, item.tablonFilter))
            && activeTab == item.tab.value && !mobileMenuOpen
            && armed == Some(Timer(old(nextTimer), pendingNav.value)))
      && (!Truthy(item.url) && item.tab.None? ==>
            && pendingNav == old(pendingNav) && activeTab == old(activeTab)
            && mobileMenuOpen == old(mobileMenuOpen) && armed == old(armed))
    }

    /** `selectItem` on a listed entry. */
    method SelectItem(item: Search.SearchItem)
      requires Valid() && item in results
      modifies this
      ensures Valid()
      ensures nextTimer >= old(nextTimer) && (armed.Some? ==> armed == old(armed) || armed.value.id >= old(nextTimer))
      ensures SelectedThen(item)
    {
      ApplySelection(item);
      Settle();
    }

    /** The state writes of `selectItem`, before the commit phase. */
    method ApplySelection(item: Search.SearchItem)
      modifies this
      ensures !open && query == "" && highlight == old(highlight)
      ensures results == old(results) && clampLen == old(clampLen)
      ensures armed == old(armed) && nextTimer == old(nextTimer) && navTab == old(navTab) && navDep == old(navDep)
      ensures Truthy(item.url) ==>
                && effects == old(effects) + [OpenWindow(item.url.value)]
                && tablonFilter == old(tablonFilter) && pendingNav == old(pendingNav)
                && activeTab == old(activeTab) && mobileMenuOpen == old(mobileMenuOpen)
                && nextSerial == old(nextSerial)
      ensures !Truthy(item.url) ==>
                && effects == old(effects)
                && tablonFilter == (if item.tablonFilter.Some? then item.tablonFilter.value else old(tablonFilter))
      ensures !Truthy(item.url) && item.tab.Some? ==>
                && pendingNav == Some(NavIntent(old(nextSerial), item.tab.value, item.anchorId,
                                                item.focusSelector, item.tablonFilter))
                && nextSerial == old(nextSerial) + 1
                && activeTab == item.tab.value && !mobileMenuOpen
      ensures !Truthy(item.url) && item.tab.None? ==>
                && pendingNav == old(pendingNav) && activeTab == old(activeTab)
                && mobileMenuOpen == old(mobileMenuOpen) && nextSerial == old(nextSerial)
    {
      open := false;
      query := "";
      if Truthy(item.url) {
        effects := effects + [OpenWindow(item.url.value)];
      } else {
        if item.tablonFilter.Some? {
          tablonFilter := item.tablonFilter.value;
        }
        if item.tab.Some? {
          pendingNav := Some(NavIntent(nextSerial, item.tab.value, item.anchorId,
                                       item.focusSelector, item.tablonFilter));
          nextSerial := nextSerial + 1;
          activeTab := item.tab.value;
          mobileMenuOpen := false;
        }
      }
    }

    /** Clicking the `idx`-th entry of the visible dropdown selects that entry. */
    method ClickResult(idx: nat)
      requires Valid() && DropdownVisible() && idx < |results|
      modifies this
      ensures Valid() && !open && query == ""
      ensures nextTimer >= old(nextTimer) && (armed.Some? ==> armed == old(armed) || armed.value.id >= old(nextTimer))
      ensures SelectedThen(old(results)[idx])
    {
      SelectItem(results[idx]);
    }

    /** Enter with the list open: `results[highlightedIndex]`, when it exists, is selected. */
    method PressEnter()
      requires Valid() && open
      modifies this
      ensures Valid()
      ensures nextTimer >= old(nextTimer) && (armed.Some? ==> armed == old(armed) || armed.value.id >= old(nextTimer))
      ensures 0 <= old(highlight) < |old(results)| ==> SelectedThen(old(results)[old(highlight)])
      ensures !(0 <= old(highlight) < |old(results)|) ==>
                && open && query == old(query) && highlight == old(highlight) && effects == old(effects)
                && pendingNav == old(pendingNav) && activeTab == old(activeTab) && armed == old(armed)
                && tablonFilter == old(tablonFilter) && mobileMenuOpen == old(mobileMenuOpen)
      ensures |old(results)| > 0 ==> 0 <= old(highlight) < |old(results)|
    {
      if 0 <= highlight < |results| {
        SelectItem(results[highlight]);
      }
    }

    /** The box's key handler. With the list closed no key does anything. ArrowDown and ArrowUp
        move the highlight; Enter selects the highlighted entry when there is one; Escape closes. */
    method KeyDown(key: Key)
      requires Valid()
      modifies this
      ensures Valid()
      ensures nextTimer >= old(nextTimer) && (armed.Some? ==> armed == old(armed) || armed.value.id >= old(nextTimer))
      ensures !old(open) ==> open == old(open) && query == old(query) && highlight == old(highlight)
                             && effects == old(effects) && pendingNav == old(pendingNav)
                             && activeTab == old(activeTab) && tablonFilter == old(tablonFilter)
                             && armed == old(armed) && mobileMenuOpen == old(mobileMenuOpen)
      ensures old(open) && key == ArrowDown ==> highlight == Down(old(highlight), |old(results)|) && open
      ensures old(open) && key == ArrowUp ==> highlight == Up(old(highlight)) && open
      ensures old(open) && key == Enter && !(0 <= old(highlight) < |old(results)|) ==>
                && open && query == old(query) && highlight == old(highlight) && effects == old(effects)
                && pendingNav == old(pendingNav) && activeTab == old(activeTab) && armed == old(armed)
                && tablonFilter == old(tablonFilter) && mobileMenuOpen == old(mobileMenuOpen)
      ensures old(open) && key == Enter && 0 <= old(highlight) < |old(results)| ==>
                SelectedThen(old(results)[old(highlight)])
      ensures old(open) && key == Enter && |old(results)| > 0 ==> 0 <= old(highlight) < |old(results)|
      ensures old(open) && key == Escape ==> !open && query == old(query) && highlight == old(highlight)
      ensures old(open) && key == OtherKey ==> open && highlight == old(highlight)
      ensures key != Enter ==> query == old(query) && effects == old(effects) && pendingNav == old(pendingNav)
                               && activeTab == old(activeTab) && armed == old(armed)
                               && tablonFilter == old(tablonFilter) && mobileMenuOpen == old(mobileMenuOpen)
    {
      if !open {
        return;
      }
      match key
      case ArrowDown =>
        highlight := Down(highlight, |results|);
        Settle();
      case ArrowUp =>
        highlight := Up(highlight);
        Settle();
      case Enter =>
        PressEnter();
      case Escape =>
        open := false;
        Settle();
      case OtherKey =>
    }

    /** The timer `id` fires. Only the armed timer does anything: it performs the captured intent's
        scroll and focus and then drops the intent, so no timer stays armed. A cleared or
        superseded timer changes nothing. */
    method Fire(id: nat, dom: Dom)
      requires Valid()
      modifies this
      ensures Valid()
      ensures nextTimer >= old(nextTimer) && (armed.Some? ==> armed == old(armed) || armed.value.id >= old(nextTimer))
      ensures old(armed).Some? && old(armed).value.id == id ==>
                && effects == old(effects) + NavEffects(old(armed).value.intent, dom)
                && pendingNav == None && armed == None
      ensures !(old(armed).Some? && old(armed).value.id == id) ==>
                effects == old(effects) && pendingNav == old(pendingNav) && armed == old(armed)
      ensures query == old(query) && open == old(open) && highlight == old(highlight)
      ensures activeTab == old(activeTab) && tablonFilter == old(tablonFilter) && mobileMenuOpen == old(mobileMenuOpen)
    {
      if armed.Some? && armed.value.id == id {
        effects := effects + NavEffects(armed.value.intent, dom);
        pendingNav := None;
        Settle();
      }
    }

    /** A desktop tab button. The external tab opens its page; any other tab becomes active, which
        clears a timer armed for the previous tab and re-arms one when the waiting intent is for
        the new tab. */
    method ClickTab(tab: Search.Tab)
      requires Valid()
      modifies this
      ensures Valid()
      ensures nextTimer >= old(nextTimer) && (armed.Some? ==> armed == old(armed) || armed.value.id >= old(nextTimer))
      ensures tab == Search.Fcyt ==> effects == old(effects) + [OpenWindow(FcytUrl)] && activeTab == old(activeTab)
                                     && armed == old(armed)
      ensures tab != Search.Fcyt ==> effects == old(effects) && activeTab == tab
      ensures tab != Search.Fcyt && tab != old(activeTab) ==>
                armed == (if pendingNav.Some? && pendingNav.value.tab == tab
                          then Some(Timer(old(nextTimer), pendingNav.value)) else None)
      ensures tab == old(activeTab) ==> armed == old(armed)
      ensures mobileMenuOpen == old(mobileMenuOpen)
      ensures query == old(query) && open == old(open) && highlight == old(highlight)
      ensures tablonFilter == old(tablonFilter) && pendingNav == old(pendingNav)
    {
      if tab == Search.Fcyt {
        effects := effects + [OpenWindow(FcytUrl)];
      } else {
        activeTab := tab;
      }
      Settle();
    }

    /** A tab button of the mobile menu: as on the desktop, and the menu closes either way. */
    method ClickMobileTab(tab: Search.Tab)
      requires Valid()
      modifies this
      ensures Valid()
      ensures nextTimer >= old(nextTimer) && (armed.Some? ==> armed == old(armed) || armed.value.id >= old(nextTimer))
      ensures !mobileMenuOpen
      ensures tab == Search.Fcyt ==> effects == old(effects) + [OpenWindow(FcytUrl)] && activeTab == old(activeTab)
                                     && armed == old(armed)
      ensures tab != Search.Fcyt ==> effects == old(effects) && activeTab == tab
      ensures tab != Search.Fcyt && tab != old(activeTab) ==>
                armed == (if pendingNav.Some? && pendingNav.value.tab == tab
                          then Some(Timer(old(nextTimer), pendingNav.value)) else None)
      ensures tab == old(activeTab) ==> armed == old(armed)
      ensures query == old(query) && open == old(open) && highlight == old(highlight)
      ensures tablonFilter == old(tablonFilter) && pendingNav == old(pendingNav)
    {
      if tab == Search.Fcyt {
        effects := effects + [OpenWindow(FcytUrl)];
      } else {
        activeTab := tab;
      }
      mobileMenuOpen := false;
      Settle();
    }

    /** The menu button flips the mobile menu. */
    method ToggleMobileMenu()
      requires Valid()
      modifies this
      ensures Valid()
      ensures nextTimer >= old(nextTimer) && (armed.Some? ==> armed == old(armed) || armed.value.id >= old(nextTimer))
      ensures mobileMenuOpen == !old(mobileMenuOpen)
      ensures query == old(query) && open == old(open) && highlight == old(highlight)
      ensures activeTab == old(activeTab) && pendingNav == old(pendingNav) && armed == old(armed)
      ensures tablonFilter == old(tablonFilter) && effects == old(effects)
    {
      mobileMenuOpen := !mobileMenuOpen;
      Settle();
    }

    /** The section the main area shows. */
    function Content(): (r: Section)
      reads this
      ensures r.TablonSection? <==> activeTab == Search.Anuncios
      ensures r.TablonSection? ==> r.initialFilter == tablonFilter
      ensures r == RenderContent(activeTab, tablonFilter)
    {
      RenderContent(activeTab, tablonFilter)
    }
  }

  /** Two entries of the same tab selected one after the other: the second selection clears the
      timer armed for the first, so when the first timer still fires nothing happens, and only
      the second timer scrolls and focuses, for the second entry. */
  method SupersededTimerScenario(catalog: seq<Search.SearchItem>, a: Search.SearchItem, b: Search.SearchItem, dom: Dom)
    returns (afterStale: seq<Effect>, afterLive: seq<Effect>)
    requires a in Search.Results("", catalog) && b in Search.Results("", catalog)
    requires a.tab == Some(Search.Proceso) && b.tab == Some(Search.Proceso)
    requires !Truthy(a.url) && !Truthy(b.url)
    ensures afterStale == []
    ensures afterLive == NavEffects(NavIntent(1, Search.Proceso, b.anchorId, b.focusSelector, b.tablonFilter), dom)
  {
    var app := new App(catalog);
    app.SelectItem(a);
    var first := app.armed.value.id;
    app.SelectItem(b);
    var second := app.armed.value;
    assert second.id != first;
    app.Fire(first, dom);
    afterStale := app.effects;
    app.Fire(second.id, dom);
    afterLive := app.effects;
  }
}
