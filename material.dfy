/** The study-material browser: the title search and the type and subject check lists that
    filter the catalogue (newest first), the "most downloaded" podium, the download file name,
    the result-count label and the preview modal. */
module Material {
  import opened Options
  import Lists
  import Text

  /** A downloadable file (`kind` is the source's `type`). */
  datatype Material = Material(
    id: int,
    title: string,
    kind: string,
    year: string,
    subject: string,
    downloads: int,
    tags: seq<string>,
    uploadDate: string,
    url: string)

  predicate IsDigit(c: char)
  {
    '0' <= c <= '9'
  }

  function Pow10(n: nat): (r: nat)
    ensures r >= 1
  {
    if n == 0 then 1 else 10 * Pow10(n - 1)
  }

  /** The decimal value of a digit string (a non-digit counts as 0). */
  function Number(s: string): (r: nat)
    ensures r < Pow10(|s|)
  {
    if s == [] then 0
    else
      var d := if IsDigit(s[|s| - 1]) then s[|s| - 1] as int - '0' as int else 0;
      Number(s[..|s| - 1]) * 10 + d
  }

  /** An ISO calendar date, `YYYY-MM-DD`. */
  predicate WellFormedDate(d: string)
  {
    && |d| == 10 && d[4] == '-' && d[7] == '-'
    && forall k :: 0 <= k < 10 && k != 4 && k != 7 ==> IsDigit(d[k])
  }

  function Year(d: string): nat requires |d| == 10 { Number(d[..4]) }
  function Month(d: string): nat requires |d| == 10 { Number(d[5..7]) }
  function Day(d: string): nat requires |d| == 10 { Number(d[8..]) }

  /** `a` is a later calendar day than `b`. */
  predicate Later(a: string, b: string)
    requires |a| == 10 && |b| == 10
  {
    || Year(a) > Year(b)
    || (Year(a) == Year(b) && Month(a) > Month(b))
    || (Year(a) == Year(b) && Month(a) == Month(b) && Day(a) > Day(b))
  }

  /** The sort key standing for `new Date(d).getTime()`: year, month and day as one number. */
  function DateKey(d: string): (r: int)
    ensures r >= 0
    ensures !WellFormedDate(d) ==> r == 0
  {
    if WellFormedDate(d) then Year(d) * 10000 + Month(d) * 100 + Day(d) else 0
  }

  /** On well-formed dates the key orders exactly as the calendar does. */
  lemma DateKeyOrder(a: string, b: string)
    requires WellFormedDate(a) && WellFormedDate(b)
    ensures DateKey(a) > DateKey(b) <==> Later(a, b)
    ensures DateKey(a) == DateKey(b) <==> a == b
  {
    assert Month(a) < 100 && Day(a) < 100 && Month(b) < 100 && Day(b) < 100 by {
      assert Pow10(2) == 100;
    }
    if DateKey(a) == DateKey(b) {
      assert Year(a) == Year(b) && Month(a) == Month(b) && Day(a) == Day(b);
      DigitsDetermine(a[..4], b[..4]);
      DigitsDetermine(a[5..7], b[5..7]);
      DigitsDetermine(a[8..], b[8..]);
      assert a == a[..4] + "-" + a[5..7] + "-" + a[8..];
      assert b == b[..4] + "-" + b[5..7] + "-" + b[8..];
    }
  }

  /** Two digit strings of the same length with the same value are the same string. */
  lemma {:induction false} DigitsDetermine(s: string, t: string)
    requires |s| == |t| && Number(s) == Number(t)
    requires forall k :: 0 <= k < |s| ==> IsDigit(s[k]) && IsDigit(t[k])
    ensures s == t
    decreases |s|
  {
    if s != [] {
      var n := |s| - 1;
      var ds := s[n] as int - '0' as int;
      var dt := t[n] as int - '0' as int;
      assert Number(s) == Number(s[..n]) * 10 + ds;
      assert Number(t) == Number(t[..n]) * 10 + dt;
      assert Number(s[..n]) == Number(t[..n]) && ds == dt;
      DigitsDetermine(s[..n], t[..n]);
      assert s == s[..n] + [s[n]] && t == t[..n] + [t[n]];
    }
  }

  /** The search, type and subject conditions of `filteredMaterials`: the lower-cased title
      contains the lower-cased query (untrimmed), and each check list is empty or holds the
      item's value. */
  predicate Selected(m: Material, query: string, types: seq<string>, subjects: seq<string>): (r: bool)
    ensures r ==> |query| <= |m.title|
    ensures r ==> (types == [] || m.kind in types) && (subjects == [] || m.subject in subjects)
    ensures query == [] && types == [] && subjects == [] ==> r
  {
    assert Text.OccursAt(Text.Lower(m.title), Text.Lower([]), 0);
    && Text.Contains(Text.Lower(m.title), Text.Lower(query))
    && (types == [] || m.kind in types)
    && (subjects == [] || m.subject in subjects)
  }

  function UploadKey(m: Material): int
  {
    DateKey(m.uploadDate)
  }

  /** `filteredMaterials`: the selected items, each as often as in the catalogue, newest first. */
  function FilteredMaterials(materials: seq<Material>, query: string, types: seq<string>, subjects: seq<string>)
    : (r: seq<Material>)
    ensures forall m :: m in r <==> m in materials && Selected(m, query, types, subjects)
    ensures forall m :: Selected(m, query, types, subjects) ==> multiset(r)[m] == multiset(materials)[m]
    ensures Lists.SortedDesc(r, UploadKey)
  {
    var p := (m: Material) => Selected(m, query, types, subjects);
    Lists.FilterThenSort(materials, p, UploadKey);
    Lists.SortDescBy(Lists.Filter(materials, p), UploadKey)
  }

  /** With no query and no ticked box, every item is listed. */
  lemma NoFilterListsAll(materials: seq<Material>, m: Material)
    requires m in materials
    ensures m in FilteredMaterials(materials, "", [], [])
  {
    assert Text.OccursAt(Text.Lower(m.title), Text.Lower(""), 0);
  }

  function Downloads(m: Material): int
  {
    m.downloads
  }

  /** `topDownloads`: the three most downloaded items of a sorted copy, most downloaded first. */
  function TopDownloads(materials: seq<Material>): (r: seq<Material>)
    ensures |r| == if |materials| < 3 then |materials| else 3
    ensures multiset(r) <= multiset(materials)
    ensures Lists.SortedDesc(r, Downloads)
    ensures forall m, i :: 0 <= i < |r| && m in multiset(materials) - multiset(r) ==> m.downloads <= r[i].downloads
  {
    var sorted := Lists.SortDescBy(materials, Downloads);
    assert |sorted| == |multiset(sorted)| == |materials|;
    Lists.SortedTake(sorted, Downloads, 3);
    Lists.Take(sorted, 3)
  }

  /** `toggleFilter`: a present value is removed (every copy), an absent one appended. */
  function Toggle(list: seq<string>, v: string): (r: seq<string>)
    ensures v in r <==> v !in list
    ensures forall x :: x != v ==> (x in r <==> x in list)
    ensures v !in list ==> r == list + [v]
    ensures v in list ==> Lists.Subseq(r, list)
  {
    if v in list then Lists.Filter(list, (x: string) => x != v) else list + [v]
  }

  /** Ticking an unticked box and unticking it again restores the list. */
  lemma ToggleTwice(list: seq<string>, v: string)
    requires v !in list
    ensures Toggle(Toggle(list, v), v) == list
  {
    var p := (x: string) => x != v;
    Lists.FilterConcat(list, [v], p);
    Lists.FilterKeepsAll(list, p);
    assert Lists.Filter([v], p) == [];
  }

  /** No value occurs twice. */
  ghost predicate NoDuplicates(s: seq<string>)
  {
    forall x :: multiset(s)[x] <= 1
  }

  /** Toggling never puts a value in the list twice. */
  lemma ToggleKeepsNoDuplicates(list: seq<string>, v: string)
    requires NoDuplicates(list)
    ensures NoDuplicates(Toggle(list, v))
  {
    if v !in list {
      assert multiset(list)[v] == 0;
    }
  }

  /** The file name `downloadPdf` gives: the text after the url's last slash, or "guia.pdf"
      when that is empty. */
  function DownloadName(url: string): (r: string)
    ensures r != ""
    ensures '/' !in r
    ensures r != "guia.pdf" ==> |r| <= |url| && url[|url| - |r|..] == r
                                && (|r| == |url| || url[|url| - |r| - 1] == '/')
    ensures url == [] || url[|url| - 1] == '/' ==> r == "guia.pdf"
    ensures url != [] && url[|url| - 1] != '/' ==>
              |r| <= |url| && url[|url| - |r|..] == r && (|r| == |url| || url[|url| - |r| - 1] == '/')
  {
    var last := LastSegment(url);
    if last == "" then "guia.pdf" else last
  }

  /** The number of characters after the last slash of `s` (all of them when there is none). */
  function SegmentLength(s: string): (n: nat)
    ensures n <= |s|
    ensures forall k :: |s| - n <= k < |s| ==> s[k] != '/'
    ensures n == |s| || s[|s| - 1 - n] == '/'
  {
    if s == [] || s[|s| - 1] == '/' then 0 else 1 + SegmentLength(s[..|s| - 1])
  }

  /** `s.split("/").at(-1)`: the longest suffix without a slash. */
  function LastSegment(s: string): (r: string)
    ensures |r| <= |s| && s[|s| - |r|..] == r
    ensures '/' !in r
    ensures |r| == |s| || s[|s| - |r| - 1] == '/'
  {
    var r := s[|s| - SegmentLength(s)..];
    assert forall k :: 0 <= k < |r| ==> r[k] == s[|s| - |r| + k];
    r
  }

  /** The word after the result count. */
  function CountLabel(count: nat): (r: string)
    ensures r == "resultado" <==> count == 1
    ensures r == "resultados" <==> count != 1
  {
    if count == 1 then "resultado" else "resultados"
  }

  /** The browser's state: the search text, the ticked types and subjects, and the previewed item. */
  class Browser {
    var searchQuery: string
    var selectedType: seq<string>
    var selectedSubject: seq<string>
    var previewModal: Option<Material>

    /** No value is ticked twice. */
    ghost predicate Valid()
      reads this
    {
      NoDuplicates(selectedType) && NoDuplicates(selectedSubject)
    }

    constructor ()
      ensures Valid()
      ensures searchQuery == "" && selectedType == [] && selectedSubject == [] && previewModal == None
    {
      searchQuery := "";
      selectedType := [];
      selectedSubject := [];
      previewModal := None;
    }

    method SetSearchQuery(v: string)
      requires Valid()
      modifies this
      ensures Valid()
      ensures searchQuery == v
      ensures selectedType == old(selectedType) && selectedSubject == old(selectedSubject)
      ensures previewModal == old(previewModal)
    {
      searchQuery := v;
    }

    /** A type check box changes. */
    method ToggleType(v: string)
      requires Valid()
      modifies this
      ensures Valid()
      ensures selectedType == Toggle(old(selectedType), v)
      ensures searchQuery == old(searchQuery) && selectedSubject == old(selectedSubject)
      ensures previewModal == old(previewModal)
    {
      ToggleKeepsNoDuplicates(selectedType, v);
      selectedType := Toggle(selectedType, v);
    }

    /** A subject check box changes. */
    method ToggleSubject(v: string)
      requires Valid()
      modifies this
      ensures Valid()
      ensures selectedSubject == Toggle(old(selectedSubject), v)
      ensures searchQuery == old(searchQuery) && selectedType == old(selectedType)
      ensures previewModal == old(previewModal)
    {
      ToggleKeepsNoDuplicates(selectedSubject, v);
      selectedSubject := Toggle(selectedSubject, v);
    }

    /** The eye button previews an item. */
    method OpenPreview(m: Material)
      requires Valid()
      modifies this
      ensures Valid()
      ensures previewModal == Some(m)
      ensures searchQuery == old(searchQuery) && selectedType == old(selectedType)
      ensures selectedSubject == old(selectedSubject)
    {
      previewModal := Some(m);
    }

    /** The backdrop, the close button and "Cerrar" all dismiss the preview. */
    method ClosePreview()
      requires Valid()
      modifies this
      ensures Valid()
      ensures previewModal == None
      ensures searchQuery == old(searchQuery) && selectedType == old(selectedType)
      ensures selectedSubject == old(selectedSubject)
    {
      previewModal := None;
    }
  }
}
