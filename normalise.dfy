/**
 * The text clean-ups the scrapers apply to what they read from the page: the delivery
 * message ("Get it by ..., trailing " - pincode" dropped) and the seller marker
 * ("Sold by ...", "Seller: ...").
 */
module Normalise {
  import opened Base
  import opened Text

  const Marker := "get it by"
  const Dash := " - "
  const SoldBy := "sold by"
  const SellerColon := "seller:"
  const Manufacturer := "manufacturer"

  /** `if " - " in text: text = text.split(" - ")[0].strip()`. */
  function CutAtDash(text: string): (r: string)
    ensures !Contains(r, Dash)
    ensures Contains(text, r)
    ensures !Contains(text, Dash) ==> r == text
    ensures Contains(text, Dash) ==> Trimmed(text[..Find(text, Dash)], r)
  {
    if Contains(text, Dash) then
      var b := Before(text, Dash);
      StripTrimmed(b);
      StripKeepsAbsence(b, Dash);
      StripContained(b);
      OccursContains(text, b, 0);
      ContainsTrans(text, b, Strip(b));
      Strip(b)
    else
      OccursContains(text, text, 0);
      text
  }

  /**
   * The delivery text taken from a message element by the batch scraper: whatever
   * follows the first "get it by", matched without regard to case and wherever it
   * occurs, then cut at " - ". `text` is the element's stripped text.
   */
  function CleanMessage(text: string): (r: string)
    ensures !Contains(r, Dash)
    ensures Contains(text, r)
    ensures Contains(Lower(text), Marker) ==>
      Find(Lower(text), Marker) + |Marker| <= |text| && Contains(text[Find(Lower(text), Marker) + |Marker|..], r)
    ensures !Contains(Lower(text), Marker) && !Contains(text, Dash) ==> r == text
    ensures Contains(Lower(text), Marker) ==>
      exists t :: Trimmed(text[Find(Lower(text), Marker) + |Marker|..], t) && r == CutAtDash(t)
    ensures !Contains(Lower(text), Marker) ==> r == CutAtDash(text)
  {
    var lower := Lower(text);
    if Contains(lower, Marker) then
      var rest := text[Find(lower, Marker) + |Marker|..];
      StripTrimmed(rest);
      StripContained(rest);
      OccursContains(text, rest, Find(lower, Marker) + |Marker|);
      ContainsTrans(text, rest, Strip(rest));
      ContainsTrans(rest, Strip(rest), CutAtDash(Strip(rest)));
      ContainsTrans(text, Strip(rest), CutAtDash(Strip(rest)));
      CutAtDash(Strip(rest))
    else
      CutAtDash(text)
  }

  /**
   * The clean-up used for page lines by both scrapers and for message elements by the
   * single-page scraper: "get it by" is dropped only when the text starts with it.
   * `text` is already stripped.
   */
  function CleanPrefixed(text: string): (r: string)
    ensures !Contains(r, Dash)
    ensures Contains(text, r)
    ensures StartsWith(Lower(text), Marker) ==> Contains(text[|Marker|..], r)
    ensures !StartsWith(Lower(text), Marker) && !Contains(text, Dash) ==> r == text
    ensures StartsWith(Lower(text), Marker) ==>
      exists t :: Trimmed(text[|Marker|..], t) && r == CutAtDash(t)
    ensures !StartsWith(Lower(text), Marker) ==> r == CutAtDash(text)
  {
    if StartsWith(Lower(text), Marker) then
      var rest := text[|Marker|..];
      StripTrimmed(rest);
      StripContained(rest);
      OccursContains(text, rest, |Marker|);
      ContainsTrans(text, rest, Strip(rest));
      ContainsTrans(rest, Strip(rest), CutAtDash(Strip(rest)));
      ContainsTrans(text, Strip(rest), CutAtDash(Strip(rest)));
      CutAtDash(Strip(rest))
    else
      CutAtDash(text)
  }

  /**
   * A page line as the batch scraper cleans it: the prefix test is on the stripped line,
   * the cut is at the first "get it by" of its lower-cased form.
   */
  function CleanBodyLine(line: string): (r: string)
    ensures !Contains(r, Dash)
  {
    var text := Strip(line);
    var lowerLine := Lower(Strip(line));
    if StartsWith(Lower(text), Marker) then
      OccursContains(lowerLine, Marker, 0);
      CutAtDash(Strip(text[Find(lowerLine, Marker) + |Marker|..]))
    else
      CutAtDash(text)
  }

  /** Text whose lower-cased form starts with the marker finds it at index 0. */
  lemma {:induction false} MarkerAtStart(text: string)
    requires StartsWith(Lower(text), Marker)
    ensures Find(Lower(text), Marker) == 0
  {
    StartsWithFinds(Lower(text), Marker);
  }

  /** The batch scraper's line clean-up is the prefix clean-up of the stripped line. */
  lemma {:induction false} BodyLineIsPrefixed(line: string)
    ensures CleanBodyLine(line) == CleanPrefixed(Strip(line))
  {
    if StartsWith(Lower(Strip(line)), Marker) {
      MarkerAtStart(Strip(line));
    }
  }

  /** On text that starts with the marker, the two delivery clean-ups agree. */
  lemma {:induction false} MessageCleanupsAgreeOnPrefix(text: string)
    requires StartsWith(Lower(text), Marker)
    ensures CleanMessage(text) == CleanPrefixed(text)
  {
    StartsWithFinds(Lower(text), Marker);
  }

  /** `lower.split(marker, 1)[1].strip()`: the stripped text after the first `marker`. */
  function LabelValue(lower: string, marker: string): (r: string)
    requires Contains(lower, marker)
    ensures r == [] <==> IsBlank(After(lower, marker))
    ensures Contains(After(lower, marker), r)
    ensures HasNoUpper(lower) ==> HasNoUpper(r)
    ensures Trimmed(After(lower, marker), r)
  {
    var rest := After(lower, marker);
    StripTrimmed(rest);
    StripEmptyIffBlank(rest);
    StripContained(rest);
    if HasNoUpper(lower) then
      StripKeepsNoUpper(rest);
      Strip(rest)
    else
      Strip(rest)
  }

  /** `name.split("manufacturer")[0].strip()` when "manufacturer" occurs in `name`. */
  function DropManufacturer(name: string): (r: string)
    ensures !Contains(r, Manufacturer)
    ensures Contains(name, r)
    ensures HasNoUpper(name) ==> HasNoUpper(r)
    ensures !Contains(name, Manufacturer) ==> r == name
    ensures Contains(name, Manufacturer) ==> Trimmed(name[..Find(name, Manufacturer)], r)
  {
    if Contains(name, Manufacturer) then
      var b := Before(name, Manufacturer);
      StripTrimmed(b);
      StripKeepsAbsence(b, Manufacturer);
      StripContained(b);
      OccursContains(name, b, 0);
      ContainsTrans(name, b, Strip(b));
      if HasNoUpper(name) then
        StripKeepsNoUpper(b);
        Strip(b)
      else
        Strip(b)
    else
      OccursContains(name, name, 0);
      name
  }

  /**
   * What the batch scraper derives from one element's stripped, non-blank text found by
   * a "sold by"/"seller:" lookup; `None` means it moves on to the next element.
   */
  function SellerFromLabel(text: string): (r: Option<string>)
    ensures Contains(Lower(text), SoldBy) ==>
      && (r.None? <==> IsBlank(After(Lower(text), SoldBy)))
      && (r.Some? ==> HasNoUpper(r.value) && !Contains(r.value, Manufacturer)
                      && Contains(After(Lower(text), SoldBy), r.value)
                      && r.value == DropManufacturer(LabelValue(Lower(text), SoldBy)))
    ensures !Contains(Lower(text), SoldBy) && Contains(Lower(text), SellerColon) ==>
      && (r.None? <==> IsBlank(After(Lower(text), SellerColon)))
      && (r.Some? ==> HasNoUpper(r.value) && Contains(After(Lower(text), SellerColon), r.value)
                      && r.value == LabelValue(Lower(text), SellerColon))
    ensures !Contains(Lower(text), SoldBy) && !Contains(Lower(text), SellerColon) ==>
      (r.Some? <==> 2 < |text| < 100) && (r.Some? ==> r.value == text)
  {
    var lower := Lower(text);
    LowerHasNoUpper(text);
    if Contains(lower, SoldBy) then
      var name := LabelValue(lower, SoldBy);
      if name == [] then None
      else
        ContainsTrans(After(lower, SoldBy), name, DropManufacturer(name));
        Some(DropManufacturer(name))
    else if Contains(lower, SellerColon) then
      var name := LabelValue(lower, SellerColon);
      if name == [] then None else Some(name)
    else if 2 < |text| < 100 then Some(text)
    else None
  }

  /** A delivery message as the product page shows it, with its pincode suffix. */
  const SampleMessage := "Get it by Fri, 12 Jan - 560037"

  /** Both delivery clean-ups reduce the sample message to its date. */
  lemma {:induction false} SampleMessageCleaned()
    ensures CleanMessage(SampleMessage) == "Fri, 12 Jan"
    ensures CleanPrefixed(SampleMessage) == "Fri, 12 Jan"
  {
    var text := SampleMessage;
    SampleStartsWithMarker(text);
    MessageCleanupsAgreeOnPrefix(text);
    MarkerAtStart(text);
    var t := "Fri, 12 Jan - 560037";
    SampleRemainder(text[|Marker|..], t);
    SampleDateCut(t);
  }

  lemma {:induction false} SampleStartsWithMarker(text: string)
    requires text == SampleMessage
    ensures StartsWith(Lower(text), Marker)
  {
    forall i | 0 <= i < |Marker|
      ensures Lower(text)[i] == Marker[i]
    {
      assert Lower(text)[i] == LowerChar(text[i]);
    }
    assert Lower(text)[..|Marker|] == Marker;
  }

  /** What follows the marker in the sample strips to the date and the pincode. */
  lemma {:induction false} SampleRemainder(rest: string, t: string)
    requires rest == SampleMessage[|Marker|..] && t == "Fri, 12 Jan - 560037"
    ensures Strip(rest) == t
  {
    SampleRemainderTrimmed(rest, t);
    StripTrimmed(rest);
    TrimmedUnique(rest, Strip(rest), t);
  }

  lemma {:induction false} SampleRemainderTrimmed(rest: string, t: string)
    requires rest == SampleMessage[|Marker|..] && t == "Fri, 12 Jan - 560037"
    ensures TrimmedAt(rest, 1, t)
  {
    SampleTail(rest);
    SpacedDate(t);
    SpaceThenTrimmed(t);
  }

  lemma {:induction false} SampleTail(rest: string)
    requires rest == SampleMessage[|Marker|..]
    ensures rest == " Fri, 12 Jan - 560037"
  {
  }

  lemma {:induction false} SpacedDate(t: string)
    requires t == "Fri, 12 Jan - 560037"
    ensures " Fri, 12 Jan - 560037" == " " + t && !IsSpace(t[0]) && !IsSpace(t[|t| - 1])
  {
  }

  /** One leading space is all that stripping removes from text with solid ends. */
  lemma {:induction false} SpaceThenTrimmed(t: string)
    requires t != [] && !IsSpace(t[0]) && !IsSpace(t[|t| - 1])
    ensures TrimmedAt(" " + t, 1, t)
  {
    assert (" " + t)[1..] == t;
  }

  /** The dash cut of the sample's stripped remainder is its date. */
  lemma {:induction false} SampleDateCut(t: string)
    requires t == "Fri, 12 Jan - 560037"
    ensures CutAtDash(t) == "Fri, 12 Jan"
  {
    var date := "Fri, 12 Jan";
    SampleDashAt(t, date);
    assert t[..|date|] == date;
    assert TrimmedAt(t[..|date|], 0, date);
    TrimmedUnique(t[..|date|], CutAtDash(t), date);
  }

  /** The first " - " of the sample's remainder follows its date. */
  lemma {:induction false} SampleDashAt(t: string, date: string)
    requires t == "Fri, 12 Jan - 560037" && date == "Fri, 12 Jan"
    ensures Contains(t, Dash) && Find(t, Dash) == |date|
  {
    assert t == date + Dash + "560037";
    assert '-' !in date;
    FirstDashAfter(date, "560037");
  }

  /** In text without a hyphen followed by " - ", the first " - " is that one. */
  lemma {:induction false} FirstDashAfter(head: string, tail: string)
    requires '-' !in head
    ensures Contains(head + Dash + tail, Dash) && Find(head + Dash + tail, Dash) == |head|
  {
    var t := head + Dash + tail;
    assert t[|head|..|head| + |Dash|] == Dash;
    OccursContains(t, Dash, |head|);
    var k := Find(t, Dash);
    FindFromSpec(t, Dash, 0);
    assert t[k + 1] == t[k..k + |Dash|][1] == '-';
    assert forall j :: 0 <= j < |head| ==> t[j] == head[j];
  }
}
