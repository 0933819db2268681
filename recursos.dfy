/** The contact page: the office-hours banner, the staff phone links, the FAQ accordion and
    the contact form. */
module Recursos {
  import opened Options
  import Lists
  import Text
  import Accordion

  /** `isOfficeOpen` with the clock's weekday (`getDay`, 0 = Sunday) and hour (`getHours`) as
      parameters: closed on Sunday, 9 to 12 on Saturday, 8 to 17 on every other day, in whole hours. */
  function IsOfficeOpen(day: int, hour: int): (r: bool)
    ensures r ==> day != 0 && 8 <= hour < 17
    ensures day == 6 ==> (r <==> 9 <= hour < 12)
    ensures day != 0 && day != 6 ==> (r <==> 8 <= hour < 17)
  {
    if day == 0 then false
    else if day == 6 then 9 <= hour < 12
    else 8 <= hour < 17
  }

  /** The hours the page prints ("Lunes a Viernes: 08:30 - 16:30", "Sábados: 09:00 - 12:00"),
      by minute of the day. */
  predicate PostedOpen(day: int, minute: int)
  {
    if day == 0 then false
    else if day == 6 then 9 * 60 <= minute < 12 * 60
    else 8 * 60 + 30 <= minute < 16 * 60 + 30
  }

  /** The whole-hour check agrees with the printed hours at every minute of the week except
      the first and the last half hour of a weekday (08:00-08:29 and 16:30-16:59), when the
      banner says "open" although the printed hours say closed. */
  lemma OfficeHoursVersusPosted(day: int, minute: int)
    requires 0 <= day <= 6 && 0 <= minute < 24 * 60
    ensures IsOfficeOpen(day, minute / 60) != PostedOpen(day, minute)
            <==> 1 <= day <= 5 && (8 * 60 <= minute < 8 * 60 + 30 || 16 * 60 + 30 <= minute < 17 * 60)
    ensures IsOfficeOpen(day, minute / 60) != PostedOpen(day, minute) ==> IsOfficeOpen(day, minute / 60)
  {
    var hour := minute / 60;
    assert hour * 60 <= minute < hour * 60 + 60;
    assert 8 <= hour < 17 <==> 8 * 60 <= minute < 17 * 60;
    assert 9 <= hour < 12 <==> 9 * 60 <= minute < 12 * 60;
  }

  /** The `tel:` link of a staff phone number: the number with every whitespace character
      removed, everything else kept in order. */
  function TelHref(phone: string): (r: string)
    ensures |r| >= 4 && r[..4] == "tel:"
    ensures forall k :: 4 <= k < |r| ==> !Text.IsSpace(r[k])
    ensures forall c :: !Text.IsSpace(c) ==> multiset(r[4..])[c] == multiset(phone)[c]
    ensures Lists.Subseq(r[4..], phone)
  {
    var digits := Text.StripSpaces(phone);
    assert ("tel:" + digits)[4..] == digits;
    "tel:" + digits
  }

  /** The number of questions in the FAQ list. */
  const FaqCount := 4

  /** The contact form's fields. */
  datatype FormData = FormData(name: string, email: string, message: string)

  class ContactPage {
    var expandedFaq: Option<int>
    var formData: FormData

    /** At most one question is open, and it is one of the list's. */
    predicate Valid()
      reads this
    {
      expandedFaq.Some? ==> 0 <= expandedFaq.value < FaqCount
    }

    constructor ()
      ensures Valid()
      ensures expandedFaq == None && formData == FormData("", "", "")
    {
      expandedFaq := None;
      formData := FormData("", "", "");
    }

    /** A question's header is clicked: it opens, closing any other, or closes if it was open. */
    method ClickFaq(idx: int)
      requires Valid() && 0 <= idx < FaqCount
      modifies this
      ensures Valid()
      ensures expandedFaq == Accordion.Click(old(expandedFaq), idx)
      ensures expandedFaq == None || expandedFaq == Some(idx)
      ensures formData == old(formData)
    {
      expandedFaq := Accordion.Click(expandedFaq, idx);
    }

    /** The name input changes; the other two fields stay. */
    method EditName(v: string)
      modifies this
      ensures formData.name == v
      ensures formData.email == old(formData.email) && formData.message == old(formData.message)
      ensures expandedFaq == old(expandedFaq)
    {
      formData := formData.(name := v);
    }

    /** The e-mail input changes; the other two fields stay. */
    method EditEmail(v: string)
      modifies this
      ensures formData.email == v
      ensures formData.name == old(formData.name) && formData.message == old(formData.message)
      ensures expandedFaq == old(expandedFaq)
    {
      formData := formData.(email := v);
    }

    /** The message box changes; the other two fields stay. */
    method EditMessage(v: string)
      modifies this
      ensures formData.message == v
      ensures formData.name == old(formData.name) && formData.email == old(formData.email)
      ensures expandedFaq == old(expandedFaq)
    {
      formData := formData.(message := v);
    }
  }
}
