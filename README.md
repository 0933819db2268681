# IHC_Admisiones portal — a verified model of its behaviour

The portal is a single-page React site for the admissions office of the Facultad de Ciencias y
Tecnología (UMSS). This project models its logic in Dafny and proves what that logic promises.

- **The shell** (`src/App.tsx`) contains:
  - a global search box over a fixed catalog of entries;
  - a dropdown with a keyboard highlight;
  - `selectItem`, which either opens an external page or switches tab and records a *pending
    navigation*;
  - an effect that waits until the target tab has rendered, then arms a cancellable timer that
    scrolls and focuses;
  - the desktop and mobile tab buttons, and `renderContent`.
- **The five sections** (`src/components/admision/*`):
  - the study-material browser (filter, sort, podium, toggles, download name);
  - the announcements board (category filter, badges, urgent banner, "this week", modal,
    calendar);
  - the tutorial stepper;
  - the contact page (office hours, `tel:` links, FAQ, form);
  - the admission-process page (timeline, document checklist and its PDF layout, FAQ).

Modules follow the source files:

| file | module | models |
|---|---|---|
| `options.dfy` | `Options` | `Option` |
| `lists.dfy` | `Lists` | `filter`, `slice(0, n)` and comparator `sort` on sequences |
| `text.dfy` | `Text` | `trim`, `toLowerCase`, `includes`, `join` and `replace(/\s/g, '')` on strings |
| `search.dfy` | `Search` | the catalog and the `results` matcher of `App.tsx` |
| `controller.dfy` | `Controller` | the `App` component's state, handlers and effects |
| `tablon.dfy` | `Tablon` | `TablonAnuncios.tsx` |
| `material.dfy` | `Material` | `MaterialConsulta.tsx` |
| `tutorial.dfy` | `Tutorial` | `Tutoriales.tsx` |
| `recursos.dfy` | `Recursos` | `RecursosApoyo.tsx` |
| `proceso.dfy` | `Proceso` | `ProcesoAdmision.tsx` |
| `accordion.dfy` | `Accordion` | the single-open click shared by the three accordions |

## How React is modelled

- **Components become classes.** Each component with state becomes a class whose fields are
  its `useState` variables, and each event handler becomes a method.
  - `Controller.App` also holds the values its effects last ran with: `clampLen` for the clamp
    effect, and `navTab`/`navDep` for the navigation effect.
  - Every handler that changes state ends with `Settle`, the commit phase. `Settle` recomputes
    the memoised `results`, then runs each effect whose dependencies changed. A path that
    changes nothing skips it, because no re-render follows: a key pressed while the list is
    closed, an unhandled key, Enter with no entry at the highlight, and a timer that is no
    longer armed.
  - `Valid()` says that the effects have settled: the highlight is in range, and a timer is
    armed exactly while an intent waits for the tab that is showing.
- **Timers are events.** A timer is a value `Timer(id, intent)`, and `Fire(id, dom)` is the
  moment it goes off.
  - Clearing a timer drops it from `armed`.
  - A cleared or superseded timer that still fires does nothing. This is the role of
    `clearTimeout` in the source.
  - Every new timer gets a fresh id, and every event method states this in its contract.
- **The DOM is an oracle.** It is modelled as `Dom(ids, selectors)`: the element ids and
  selectors that exist when a timer fires.
- **Browser side effects are logged.** `window.open`, `scrollIntoView`, `scrollTo` and
  `focus` are appended to an `effects` log.
- **The clock is a parameter.** `isOfficeOpen` takes the weekday and hour as arguments.

## Model

| member | source | states |
|---|---|---|
| Search.Listed | src/App.tsx:312-324 | On an empty normalised query: the first min(8, catalog size) entries, in catalog order. Otherwise: exactly the first min(8, number of matches) entries of `Hits`, the matching entries in catalog order. Each of them has a lower-cased label+description+keywords containing the query, and a matching entry is missing only when 8 are already listed. |
| Search.Results | src/App.tsx:311-325 | On the text typed, the same as `Listed`. A whitespace-only query counts as empty (it lists the catalog head). Any other query is matched trimmed and lower-cased, and the result is the first min(8, number of matches) entries of `Hits`. |
| Search.Normalize | src/App.tsx:312 | `trim().toLowerCase()`: never longer than the text typed, and empty exactly when that text is blank. |
| Search.Haystack | src/App.tsx:316-322 | Label, space, description, space and the keywords joined by spaces, so its length is the sum of the parts plus two. It starts with the label, lower-cased character by character. |
| Search.Matches | src/App.tsx:323 | `haystack.includes(q)`: the empty query matches every entry, and a matching query is never longer than the haystack. |
| Search.FirstCatalogMatchListedFirst | src/App.tsx:315-324 | When the first catalog entry matches a non-blank query, it heads the dropdown. |
| Search.KeywordFindsEntry | src/App.tsx:316-323 | Typing one of an entry's keywords, lower-cased, finds that entry. |
| Search.CatalogWellFormed | src/App.tsx:174-309 | Every catalog entry has exactly one of a tab and a url. |
| Lists.FirstMatching | src/App.tsx:315-324 | `filter(p).slice(0, n)`: exactly the first min(n, number of matches) elements of `Filter(s, p)`. Each satisfies p, in the order of s, and a match is left out only when n are already taken. |
| Lists.FirstMatchingTakesEarliest | src/App.tsx:315-324 | The matches of any prefix of the input that has at most n of them open the selection, in the same order: the selection holds the earliest matches. |
| Lists.Filter | src/App.tsx:315-324 | `filter(p)`: at most as long as the input, exactly the elements satisfying p, each as often as in the input, in input order. |
| Search.EmptyQueryScenario | src/App.tsx:313 | The empty query lists the first eight catalog entries. |
| Text.TrimEmptyIffBlank | src/App.tsx:312-313 | `trim()` gives "" exactly when the text is all whitespace, so `!q` holds exactly for blank queries. |
| Text.TrimIsSlice | src/App.tsx:312 | Trimming keeps one contiguous slice of the text, with only whitespace cut on either side. |
| Text.TrimKeepsUnpadded | src/App.tsx:312 | Text that neither starts nor ends with whitespace is unchanged by trimming. |
| Text.Trim | src/App.tsx:312 | Never longer than the input, and what remains neither starts nor ends with whitespace. |
| Text.Lower | src/App.tsx:312 | Lower-casing keeps the length and maps each character on its own. |
| Text.Contains | src/App.tsx:323 | `includes`: true exactly when the needle occurs at some index of the haystack. |
| Text.Join | src/App.tsx:321 | `join(sep)`: empty for no parts. Otherwise it starts with the first part and ends with the last, and its length is the parts' total length plus one separator per pair of neighbours. |
| Text.JoinSnoc | src/App.tsx:321 | Joining one more part appends the separator and that part (just the part when there was none). |
| Text.JoinContainsParts | src/App.tsx:321 | Every part occurs in the joined text. |
| Text.StripSpaces | src/components/admision/RecursosApoyo.tsx:285 | The result has no whitespace. It keeps every other character as often as the input has it, in input order. |
| Text.StripSpacesKeepsUnspaced | src/components/admision/RecursosApoyo.tsx:285 | Text without whitespace is unchanged. |
| Controller.LastIndex | src/App.tsx:328 | `max(len-1, 0)`: never negative, at least len-1, and one of the two. |
| Controller.Clamp | src/App.tsx:327-329 | The clamped highlight never exceeds max(len-1, 0). It is unchanged when already within that bound, and otherwise equals it. |
| Controller.Down | src/App.tsx:91-94 | ArrowDown never exceeds len-1 and advances by one while there is room. From the last entry (or beyond) it gives len-1, so it stays on the last entry, and on an empty list it gives -1. It is non-negative on a non-empty list. |
| Controller.Up | src/App.tsx:95-98 | ArrowUp never goes below 0, and steps back by one from any highlight of at least 1. |
| Controller.NavEffects | src/App.tsx:371-384 | A fired intent scrolls to the top iff it has no anchor. Otherwise it scrolls the anchor into view only when that element exists. It focuses the selector only when given and present. It opens no window, and nothing is scrolled after focusing. It holds exactly one scroll (none when the anchor element is missing) plus at most one focus. |
| Controller.RenderContent | src/App.tsx:390-405 | The board is shown iff the tab is "anuncios", and it gets the current filter. The material, support and tutorial pages are shown iff their own tab is active. The process page is shown iff the tab is "proceso" or "fcyt", which falls to the default branch. |
| Controller.App.constructor | src/App.tsx:139-157 | Initial state: empty query, closed list, highlight 0, tab "proceso", filter "all", nothing pending, menu closed, no timer. |
| Controller.App.Settle | src/App.tsx:311-329 | Commit phase: results are recomputed. The clamp runs only when their count changed. The navigation effect re-arms only when the tab or the intent changed, and then only for an intent aimed at the active tab. |
| Controller.App.RunClamp | src/App.tsx:327-329 | The memo and the clamp effect with `[results.length]` as dependency; nothing else changes. |
| Controller.App.RunNavEffect | src/App.tsx:366-388 | On a change of `[activeTab, pendingNav]`, the old timer is cleared first. A new one carrying the intent is armed iff the intent is non-null and its tab is active; nothing else changes. |
| Controller.App.Change | src/App.tsx:82-86 | Typing stores the text, opens the list and resets the highlight to 0; the tab, filter, intent, menu and timer stay. |
| Controller.App.Focus | src/App.tsx:87 | Focus opens the list and leaves query and highlight unchanged. |
| Controller.App.MouseDown | src/App.tsx:354-364 | A mousedown outside the mounted wrapper closes the list; the query and highlight stay. |
| Controller.App.SelectItem | src/App.tsx:331-352 | `SelectedThen(item)`: the list always closes and the query clears, and the highlight is clamped to the new result count. An entry with a url opens it and changes no filter, intent, tab or menu. Otherwise its board filter is taken over if present. If it has a tab, the intent {tab, anchor, focus, filter} is recorded, the tab is activated, the mobile menu closes, and a new timer carrying that intent is armed. |
| Controller.App.ApplySelection | src/App.tsx:331-352 | `selectItem`'s writes before the commit phase, one case per branch of the source. |
| Controller.App.ClickResult | src/App.tsx:113-119 | Clicking the idx-th visible entry selects exactly `results[idx]`: `SelectedThen` of that entry (the same outcome `SelectItem` states, including the highlight clamped to the new result count). |
| Controller.App.KeyDown | src/App.tsx:88-107 | With the list closed, no key changes the query, highlight, tab, filter, intent, menu, timer or effects. ArrowDown and ArrowUp set the highlight to `Down`/`Up`. Enter selects exactly `results[highlight]` when it exists (`SelectedThen`) and is otherwise a no-op; on a non-empty list it always exists. Enter with no such entry keeps the highlight, tab, timer, filter and menu. Escape closes and keeps the query and highlight. Any other key keeps the list open and the highlight. Keys other than Enter change no query, filter, tab, intent, menu or timer. |
| Controller.App.PressEnter | src/App.tsx:99-103 | Enter on an open list selects exactly `results[highlight]` when it exists (`SelectedThen`, so the highlight is clamped to the new result count). Otherwise nothing changes, and on a non-empty list the entry always exists. |
| Controller.App.Fire | src/App.tsx:371-385 | Only the armed timer acts: it logs the intent's scroll/focus effects and drops the intent, leaving nothing armed. Any other id changes nothing. The query, list, tab, filter and menu never change. |
| Controller.App.ClickTab | src/App.tsx:452-458 | The external tab opens the faculty site and keeps the tab and timer. Any other tab becomes active: a new tab clears the old timer and arms one only for a waiting intent aimed at it, and the current tab keeps its timer. |
| Controller.App.ClickMobileTab | src/App.tsx:512-520 | As on the desktop, and the mobile menu ends closed. |
| Controller.App.DropdownVisible | src/App.tsx:113 | The dropdown is drawn only while open with results, and once the effects have settled a drawn dropdown always has an entry highlighted. |
| Controller.App.ToggleMobileMenu | src/App.tsx:476 | The menu flips. The query, list, highlight, tab, board filter, intent, timer and effects are unchanged. |
| Controller.App.Content | src/App.tsx:560 | The main area is the page `RenderContent` picks for the active tab and the current board filter. |
| Controller.SupersededTimerScenario | src/App.tsx:366-388 | Two entries of the same tab selected in a row: the first timer is cleared by the second selection, so firing it logs nothing, and only the second timer scrolls and focuses, for the second entry. |
| Tablon.OfCategory | src/components/admision/TablonAnuncios.tsx:131 | Exactly the items whose category equals the name, each as often as on the board, in board order. |
| Tablon.FilteredNews | src/components/admision/TablonAnuncios.tsx:128-131 | Every item for "all". Otherwise exactly the items of that category, each as often as on the board, in order. |
| Tablon.CategoryCount | src/components/admision/TablonAnuncios.tsx:246-248 | A badge never exceeds the number of items, and the "all" badge is that number. |
| Tablon.BadgeMatchesCards | src/components/admision/TablonAnuncios.tsx:246-248 | Each tab's badge equals the number of cards that tab shows. |
| Tablon.CountsPartitionAll | src/components/admision/TablonAnuncios.tsx:246-248 | When every item has one of the three categories, the three badges add up to the "all" badge. |
| Tablon.UrgentItem | src/components/admision/TablonAnuncios.tsx:133 | Absent iff no item is urgent; otherwise the first urgent item. |
| Tablon.ThisWeekHighlights | src/components/admision/TablonAnuncios.tsx:136-143 | Exactly the first min(3, number of recent items) recent items of the board, in board order. A recent item is left out only when 3 are already shown. |
| Tablon.IsRecent | src/components/admision/TablonAnuncios.tsx:137-142 | Recent iff "horas" or "días" occurs in the date, or the date is exactly "Hace 1 semana". |
| Tablon.CalendarDay | src/components/admision/TablonAnuncios.tsx:450-466 | Cell i shows a number exactly for cells 3..33, and then day i-2, in 1..31. |
| Tablon.HasEvent | src/components/admision/TablonAnuncios.tsx:452 | The marked days are exactly the multiples of 5 from 5 to 25. |
| Tablon.EventDaysShown | src/components/admision/TablonAnuncios.tsx:450-466 | Every marked day is a day of the month, and its number is written in cell day+2. |
| Tablon.CalendarShowsEachDayOnce | src/components/admision/TablonAnuncios.tsx:450-466 | Each day 1..31 appears in exactly one of the 35 cells, cell day+2. |
| Tablon.Board.constructor | src/components/admision/TablonAnuncios.tsx:122 | The active filter starts as the prop; no modal. |
| Tablon.Board.Rerender | src/components/admision/TablonAnuncios.tsx:123-126 | The active filter is reset to the prop exactly when the prop changed. |
| Tablon.Board.ClickFilter | src/components/admision/TablonAnuncios.tsx:228 | A filter tab becomes the active filter; the modal is untouched. |
| Tablon.Board.OpenModal | src/components/admision/TablonAnuncios.tsx:148-151 | The item is selected and the modal open (and so visible). |
| Tablon.Board.CloseModal | src/components/admision/TablonAnuncios.tsx:153-156 | Closed and cleared, so not visible. |
| Material.DateKeyOrder | src/components/admision/MaterialConsulta.tsx:144-147 | On ISO dates the sort key orders exactly as the calendar, and equal keys mean equal dates. |
| Material.DateKey | src/components/admision/MaterialConsulta.tsx:144-147 | The sort key is never negative, and 0 for a malformed date. |
| Material.FilteredMaterials | src/components/admision/MaterialConsulta.tsx:133-147 | An item is listed iff its lower-cased title contains the lower-cased query and its type and subject pass their check lists (empty list passes all). Each item is listed as often as in the catalogue, newest first. |
| Lists.FilterThenSort | src/components/admision/MaterialConsulta.tsx:133-147 | Sorting the filtered items keeps exactly the items passing the filter, each as often as in the input. |
| Material.Selected | src/components/admision/MaterialConsulta.tsx:133-142 | A selected item passes both check lists (an empty list passes all), and its title is at least as long as the query. With no query and no ticked box every item is selected. |
| Material.NoFilterListsAll | src/components/admision/MaterialConsulta.tsx:133-143 | With no query and no ticked box, every item is listed. |
| Material.TopDownloads | src/components/admision/MaterialConsulta.tsx:148-150 | Exactly min(3, n) items drawn from the catalogue, most downloaded first. No left-out item has more downloads than any item shown. |
| Material.Toggle | src/components/admision/MaterialConsulta.tsx:151-161 | The value ends present iff it was absent, and no other value changes membership. An absent value is appended at the end; removing a present one keeps the rest in order. |
| Material.ToggleTwice | src/components/admision/MaterialConsulta.tsx:151-161 | Toggling an absent value twice restores the list. |
| Material.ToggleKeepsNoDuplicates | src/components/admision/MaterialConsulta.tsx:151-161 | Toggling never puts a value in the list twice. |
| Material.DownloadName | src/components/admision/MaterialConsulta.tsx:173 | Never empty and slash-free. A url that is empty or ends in "/" gives "guia.pdf". Any other url gives its last "/"-separated segment: a suffix preceded by "/" or by nothing. |
| Material.LastSegment | src/components/admision/MaterialConsulta.tsx:173 | `split("/").at(-1)`: the longest slash-free suffix. |
| Material.CountLabel | src/components/admision/MaterialConsulta.tsx:371-372 | "resultado" iff the count is 1, otherwise "resultados". |
| Material.Browser.constructor | src/components/admision/MaterialConsulta.tsx:127-132 | Empty query, no ticked box, no preview. |
| Material.Browser.SetSearchQuery | src/components/admision/MaterialConsulta.tsx:346 | The query changes; the check lists and preview stay. |
| Material.Browser.ToggleType | src/components/admision/MaterialConsulta.tsx:250 | The type list is toggled and stays free of duplicates; the rest stays. |
| Material.Browser.ToggleSubject | src/components/admision/MaterialConsulta.tsx:294 | The subject list is toggled and stays free of duplicates; the rest stays. |
| Material.Browser.OpenPreview | src/components/admision/MaterialConsulta.tsx:433 | The previewed item is set; the filters stay. |
| Material.Browser.ClosePreview | src/components/admision/MaterialConsulta.tsx:458 | The preview is cleared; the filters stay. |
| Tutorial.Shift | src/components/admision/Tutoriales.tsx:72 | `prev ? prev + d : null`: present iff the old card was present and non-zero, and then moved by d. |
| Tutorial.Cursor.constructor | src/components/admision/Tutoriales.tsx:66-67 | Step 1 with its card open. |
| Tutorial.Cursor.CircleMarked | src/components/admision/Tutoriales.tsx:143 | Steps before the cursor are always marked. From the cursor on, a step is marked iff its card is open. |
| Tutorial.Cursor.PrevDisabled | src/components/admision/Tutoriales.tsx:226 | Disabled only on step 1; when enabled, the step before the cursor exists. |
| Tutorial.Cursor.NextDisabled | src/components/admision/Tutoriales.tsx:229 | Disabled only on the last step; when enabled, the step after the cursor exists. |
| Tutorial.Cursor.HandleNext | src/components/admision/Tutoriales.tsx:69-78 | The step stays in 1..5. It does nothing exactly when Next is disabled (line 229). Otherwise it advances, shifts the open card and scrolls to the top, and a card open on the current step stays on it. |
| Tutorial.Cursor.HandlePrev | src/components/admision/Tutoriales.tsx:79-84 | The step stays in 1..5. It does nothing exactly when Prev is disabled (line 226). Otherwise it goes back and shifts the open card, and a card open on the current step stays on it. |
| Tutorial.Cursor.ClickStep | src/components/admision/Tutoriales.tsx:142 | The card toggles as an accordion; the step stays. |
| Tutorial.FalsyCardScenario | src/components/admision/Tutoriales.tsx:69-84 | Next, click card 1, Prev, Next: the cursor ends on step 2 with every card closed, because the card numbered 0 is falsy. |
| Accordion.Click | src/components/admision/Tutoriales.tsx:142 | Clicking the open entry closes everything. Clicking any other entry makes it the only open one. |
| Accordion.ClickTwice | src/components/admision/RecursosApoyo.tsx:365 | Two clicks on one entry restore it if it was open, and otherwise leave everything closed. |
| Recursos.IsOfficeOpen | src/components/admision/RecursosApoyo.tsx:61-68 | Open never on Sunday nor outside 8..16 h. On Saturday open iff 9 ≤ hour < 12, and on other days iff 8 ≤ hour < 17. |
| Recursos.OfficeHoursVersusPosted | src/components/admision/RecursosApoyo.tsx:61-68 | Sunday is always closed and Saturday is open 9-12. The whole-hour weekday rule (8 ≤ hour < 17) disagrees with the printed 08:30-16:30 exactly in 08:00-08:29 and 16:30-16:59, and there it says open. |
| Recursos.TelHref | src/components/admision/RecursosApoyo.tsx:285 | "tel:" followed by the number without whitespace, with every other character kept in order. |
| Recursos.ContactPage.constructor | src/components/admision/RecursosApoyo.tsx:26-31 | No question open, empty form. |
| Recursos.ContactPage.ClickFaq | src/components/admision/RecursosApoyo.tsx:365 | At most one existing question is open: the clicked one, or none if it was open. The form stays. |
| Recursos.ContactPage.EditName | src/components/admision/RecursosApoyo.tsx:410-413 | Only the name field changes. |
| Recursos.ContactPage.EditEmail | src/components/admision/RecursosApoyo.tsx:419-422 | Only the e-mail field changes. |
| Recursos.ContactPage.EditMessage | src/components/admision/RecursosApoyo.tsx:429-432 | Only the message field changes. |
| Proceso.OneCardPerViewport | src/components/admision/ProcesoAdmision.tsx:214-250 | Each event shows exactly one card per viewport. On desktop it is in the left column, right-aligned, iff its index is even. On mobile it is always in the right column and never right-aligned. |
| Proceso.Badges | src/components/admision/ProcesoAdmision.tsx:194-199 | At most one badge. "Tentativo" iff the status is "tentative", and "Confirmado" iff it is "confirmed", which is exactly when the dot is green (line 214). |
| Proceso.Flipped | src/components/admision/ProcesoAdmision.tsx:256-261 | Entry d reads as the negation of its old reading, where missing means false. Every other entry is unchanged, and d is now a key. |
| Proceso.FlipTwice | src/components/admision/ProcesoAdmision.tsx:256-261 | Two toggles restore every reading. A previously missing key ends as an explicit false. |
| Proceso.ItemLine | src/components/admision/ProcesoAdmision.tsx:271-281 | Line i is at (14, 35 + 8i). It starts "[X] " iff the document is checked and "[OK] " iff not, ends with the document's name, and is exactly that prefix's length longer than the name, so nothing else is in between. |
| Proceso.ProcessPage.constructor | src/components/admision/ProcesoAdmision.tsx:33-34 | The page's document list, no question open, no box ticked. |
| Proceso.ProcessPage.ToggleDoc | src/components/admision/ProcesoAdmision.tsx:256-261 | The box of d flips and nothing else changes. |
| Proceso.ProcessPage.ClickFaq | src/components/admision/ProcesoAdmision.tsx:617 | At most one existing question is open: the clicked one, or none if it was open. |
| Proceso.ProcessPage.GeneratePdf | src/components/admision/ProcesoAdmision.tsx:263-284 | The title at (14, 20), then one `ItemLine` per document in list order, each strictly below the one before. |

## Left out

- Rendering, styling, icons, animation (framer-motion) and the ui wrappers (`Button`, `Badge`,
  `Card`): they have no behaviour to state.
- The 250 ms timer delay: a timer is a discrete `Fire` event, so wall-clock time is not modelled.
- The DOM: `getElementById`, `querySelector`, `contains` on the search wrapper and the scroll
  behaviour options. They are oracle parameters (`Dom`, and `mounted`/`inside` for the wrapper).
- `window.open`, `scrollIntoView`, `scrollTo` and `focus` are logged as effects and not performed.
- The clock (`new Date()` in `isOfficeOpen`): the weekday and hour are parameters.
- PDF generation and viewing (jsPDF, react-pdf-viewer):
  - only the text and coordinates of the checklist lines are modelled;
  - the font sizes and the file save are not;
  - the contact page's QR poster, with its `fetch`/`FileReader` loading, is left out entirely.
- The anchor-click download in `downloadPdf`: only the file name it derives is modelled.
- Locale date formatting (`toLocaleDateString`, `toLocaleString`).
- Text.LowerChar: lower-cases ASCII and the Latin-1 letters (which cover the Spanish accents).
  Full Unicode case mapping is not modelled.
- Material.DateKey: `new Date(...).getTime()` is modelled as a year/month/day key on ISO dates.
  A malformed date gets key 0, whereas JavaScript produces `NaN` and an unspecified sort order.
- Floating point: the tutorial progress-bar width and the timeline animation delays.
- The tutorial's help modal (`showHelpModal`) and the contact form's submit (it only calls
  `preventDefault`).
- Material.TopDownloads: the catalogue itself is a value, so the fact that the source sorts a
  copy (`[...materials]`) and leaves the catalogue unreordered holds trivially.
- Controller.App.KeyDown: `preventDefault` on the arrow keys is not modelled.
- Search.EmptyQueryScenario: the only concrete scenario over the full catalog. Evaluating
  non-empty queries against the 14 literal entries is left to the general lemmas.

Where a plain reading of the portal's behaviour and the code differ, the model follows the code:

- ArrowDown on an empty list sets the highlight to -1 (`Math.min(i + 1, -1)`), which
  `HighlightOk` allows only when the list is empty.
- The dropdown is not drawn when there are no results, even while open.
- The tutorial moves the open card with `prev ? prev + 1 : null`, so an open card numbered 0
  (reached by stepping back from card 1) is falsy and closes instead of moving
  (`Tutorial.FalsyCardScenario`).
- The office banner says open on weekdays from 08:00 to 16:59, although the printed hours are
  08:30-16:30 (`Recursos.OfficeHoursVersusPosted`).
- The checklist PDF marks a ticked document "[X]" and an unticked one "[OK]".
