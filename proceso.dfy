/** The admission-process page: the timeline of dates, the document checklist with its PDF
    export, and the cost FAQ. */
module Proceso {
  import opened Options
  import Lists
  import Accordion

  // ---------------------------------------------------------------- timeline

  /** The grid column a timeline card is placed in. */
  datatype Column = LeftColumn | RightColumn

  datatype Viewport = Mobile | Desktop

  /** One timeline card in the markup: its column, its `align` prop and the viewports whose
      CSS shows it (the left column is `hidden lg:flex`, the extra copy `lg:hidden`). */
  datatype CardSlot = CardSlot(column: Column, align: string, onMobile: bool, onDesktop: bool)

  /** Events alternate sides, starting on the left. */
  predicate IsLeft(idx: nat)
  {
    idx % 2 == 0
  }

  /** The cards `TimelineItem` renders for the event at `idx`: a left event has a desktop card
      in the left column and a mobile-only copy in the right one (with the prop spelled "rigth");
      a right event has one card in the right column for both viewports. */
  function TimelineSlots(idx: nat): seq<CardSlot>
  {
    if IsLeft(idx) then [CardSlot(LeftColumn, "right", false, true), CardSlot(RightColumn, "rigth", true, false)]
    else [CardSlot(RightColumn, "left", true, true)]
  }

  predicate ShownOn(s: CardSlot, v: Viewport)
  {
    if v == Mobile then s.onMobile else s.onDesktop
  }

  /** The cards of event `idx` that viewport `v` displays. */
  function VisibleCards(idx: nat, v: Viewport): seq<CardSlot>
  {
    Lists.Filter(TimelineSlots(idx), (s: CardSlot) => ShownOn(s, v))
  }

  /** A card's text is right-aligned only when its prop is exactly "right". */
  predicate RightAligned(s: CardSlot)
  {
    s.align == "right"
  }

  /** Every event shows exactly one card on either viewport. On a desktop it sits in the left
      column, right-aligned, exactly for even positions; on a phone it always sits in the right
      column and is never right-aligned. */
  lemma OneCardPerViewport(idx: nat, v: Viewport)
    ensures |VisibleCards(idx, v)| == 1
    ensures v == Desktop ==> (VisibleCards(idx, v)[0].column == LeftColumn <==> IsLeft(idx))
    ensures v == Desktop ==> (RightAligned(VisibleCards(idx, v)[0]) <==> IsLeft(idx))
    ensures v == Mobile ==> VisibleCards(idx, v)[0].column == RightColumn
    ensures v == Mobile ==> !RightAligned(VisibleCards(idx, v)[0])
  {
    var slots := TimelineSlots(idx);
    var p := (s: CardSlot) => ShownOn(s, v);
    if IsLeft(idx) {
      assert slots == [slots[0]] + [slots[1]];
      Lists.FilterConcat([slots[0]], [slots[1]], p);
      Lists.FilterCons(slots[0], [], p);
      Lists.FilterCons(slots[1], [], p);
    } else {
      Lists.FilterCons(slots[0], [], p);
    }
  }

  /** The timeline dot is green exactly for confirmed events. */
  predicate DotConfirmed(status: string)
  {
    status == "confirmed"
  }

  /** The badges a timeline card shows for an event's status. */
  function Badges(status: string): (r: seq<string>)
    ensures |r| <= 1
    ensures "Tentativo" in r <==> status == "tentative"
    ensures "Confirmado" in r <==> status == "confirmed"
    ensures "Confirmado" in r <==> DotConfirmed(status)
  {
    (if status == "tentative" then ["Tentativo"] else [])
    + (if status == "confirmed" then ["Confirmado"] else [])
  }

  // ---------------------------------------------------------------- document checklist

  /** The documents of the checklist, in display order. */
  const Documents: seq<string> := [
    "Fotocopia de Cédula de Identidad vigente",
    "Diploma de Bachiller (fotocopia legalizada)",
    "Certificado de Nacimiento original",
    "Formulario de Pre-inscripción impreso",
    "Comprobante de Depósito Bancario original",
    "Fotografía 4x4 fondo rojo (2 unidades)"
  ]

  /** `!!checkedDocs[d]`: a missing entry reads as unchecked. */
  predicate Checked(m: map<string, bool>, d: string)
  {
    d in m && m[d]
  }

  /** `{...prev, [d]: !prev[d]}`: entry `d` is set to the negation of its reading; no other entry changes. */
  function Flipped(m: map<string, bool>, d: string): (r: map<string, bool>)
    ensures r.Keys == m.Keys + {d}
    ensures Checked(r, d) == !Checked(m, d)
    ensures forall e :: e != d && e in m ==> r[e] == m[e]
    ensures forall e :: e != d ==> Checked(r, e) == Checked(m, e)
  {
    m[d := !Checked(m, d)]
  }

  /** Ticking a box twice restores every reading; an entry that was missing is left as an
      explicit `false`. */
  lemma FlipTwice(m: map<string, bool>, d: string)
    ensures forall e :: Checked(Flipped(Flipped(m, d), d), e) == Checked(m, e)
    ensures Flipped(Flipped(m, d), d) == m[d := Checked(m, d)]
    ensures d !in m ==> d in Flipped(Flipped(m, d), d) && !Flipped(Flipped(m, d), d)[d]
  {
  }

  /** A line of the exported PDF, drawn at (`x`, `y`). */
  datatype PdfLine = PdfLine(text: string, x: int, y: int)

  const TitleLine := PdfLine("Checklist de Documentos", 14, 20)

  /** Line `i` of the list: "[X] doc" for a ticked document, "[OK] doc" for an unticked one,
      eight units below the line before it. */
  function ItemLine(i: nat, doc: string, m: map<string, bool>): (l: PdfLine)
    ensures l.x == 14 && l.y == 35 + 8 * i
    ensures Checked(m, doc) <==> |l.text| >= 4 && l.text[..4] == "[X] "
    ensures !Checked(m, doc) <==> |l.text| >= 5 && l.text[..5] == "[OK] "
    ensures |l.text| >= |doc| && l.text[|l.text| - |doc|..] == doc
    ensures |l.text| == |doc| + (if Checked(m, doc) then 4 else 5)
  {
    var status := if Checked(m, doc) then "[X]" else "[OK]";
    var text := status + " " + doc;
    assert text[|text| - |doc|..] == doc;
    assert Checked(m, doc) ==> text[..4] == "[X] " && text[1] == 'X';
    assert !Checked(m, doc) ==> text[..5] == "[OK] " && text[1] == 'O';
    PdfLine(text, 14, 35 + 8 * i)
  }

  /** The page's own state: the open cost question and the ticked documents. */
  class ProcessPage {
    /** The number of questions in the cost FAQ. */
    static const FaqCount := 5

    /** The checklist's documents. */
    const documents: seq<string>
    var expandedFaq: Option<int>
    var checkedDocs: map<string, bool>

    /** The checklist is the page's, and at most one question is open, one of the list's. */
    predicate Valid()
      reads this
    {
      && documents == Documents
      && (expandedFaq.Some? ==> 0 <= expandedFaq.value < FaqCount)
    }

    constructor ()
      ensures Valid()
      ensures documents == Documents && expandedFaq == None && checkedDocs == map[]
    {
      documents := Documents;
      expandedFaq := None;
      checkedDocs := map[];
    }

    /** Whether a document's box is ticked. */
    predicate Ticked(d: string)
      reads this
    {
      Checked(checkedDocs, d)
    }

    /** `toggleDoc(d)`: the box of `d` flips, every other box stays. */
    method ToggleDoc(d: string)
      requires Valid()
      modifies this
      ensures Valid()
      ensures checkedDocs == Flipped(old(checkedDocs), d)
      ensures Ticked(d) == !old(Ticked(d))
      ensures expandedFaq == old(expandedFaq)
    {
      checkedDocs := Flipped(checkedDocs, d);
    }

    /** A cost question's header is clicked: it opens, closing any other, or closes if it was open. */
    method ClickFaq(idx: int)
      requires Valid() && 0 <= idx < FaqCount
      modifies this
      ensures Valid()
      ensures expandedFaq == Accordion.Click(old(expandedFaq), idx)
      ensures expandedFaq == None || expandedFaq == Some(idx)
      ensures checkedDocs == old(checkedDocs)
    {
      expandedFaq := Accordion.Click(expandedFaq, idx);
    }

    /** `generatePDF`'s layout: the title, then one line per document in list order, starting
        at y = 35 and moving down 8 units per line, all at x = 14. */
    method GeneratePdf() returns (lines: seq<PdfLine>)
      ensures |lines| == |documents| + 1
      ensures lines[0] == TitleLine
      ensures forall i :: 0 <= i < |documents| ==> lines[i + 1] == ItemLine(i, documents[i], checkedDocs)
      ensures forall i, j :: 1 <= i < j < |lines| ==> lines[i].y < lines[j].y
    {
      lines := [TitleLine];
      var y := 35;
      var i := 0;
      while i < |documents|
        invariant 0 <= i <= |documents|
        invariant |lines| == i + 1 && lines[0] == TitleLine
        invariant y == 35 + 8 * i
        invariant forall k :: 0 <= k < i ==> lines[k + 1] == ItemLine(k, documents[k], checkedDocs)
        invariant forall k :: 1 <= k < |lines| ==> lines[k].y == 35 + 8 * (k - 1)
      {
        var item := documents[i];
        var isChecked := item in checkedDocs && checkedDocs[item];
        var status := if isChecked then "[X]" else "[OK]";
        lines := lines + [PdfLine(status + " " + item, 14, y)];
        y := y + 8;
        i := i + 1;
      }
    }
  }
}
