/**
 * The text rules of one review card (src/components/ReviewCard.tsx): the badge variant of a
 * review tag, and the truncation of a long review body behind a Read More / Show Less toggle.
 * Strings are sequences of characters; lower-casing is that of the ASCII letters.
 */
module ReviewCard {
  import opened Wrappers

  // ----- Strings ------------------------------------------------------------------------

  function LowerChar(c: char): char {
    if 'A' <= c <= 'Z' then (c as int + 32) as char else c
  }

  function UpperChar(c: char): char {
    if 'a' <= c <= 'z' then (c as int - 32) as char else c
  }

  /** `toLowerCase` */
  function ToLower(s: string): (r: string)
    ensures |r| == |s|
    ensures forall i :: 0 <= i < |s| ==> r[i] == LowerChar(s[i])
  {
    seq(|s|, i requires 0 <= i < |s| => LowerChar(s[i]))
  }

  /** `toUpperCase` */
  function ToUpper(s: string): (r: string)
    ensures |r| == |s|
    ensures forall i :: 0 <= i < |s| ==> r[i] == UpperChar(s[i])
  {
    seq(|s|, i requires 0 <= i < |s| => UpperChar(s[i]))
  }

  /** `s.includes(p)`, by scanning the start positions of `s` from the left. */
  function Contains(s: string, p: string): (r: bool)
    ensures p <= s ==> r
    ensures r ==> |p| <= |s|
  {
    p <= s || (|s| > 0 && Contains(s[1..], p))
  }

  /** `p` occurs in `s` at position `i`. */
  predicate OccursAt(s: string, p: string, i: int) {
    0 <= i && i + |p| <= |s| && s[i..i + |p|] == p
  }

  // ----- Tag badges ---------------------------------------------------------------------

  /** The three badge variants a tag can get. */
  datatype Variant = Default | Destructive | Secondary

  /**
   * `getTagVariant`. A tag saying "not recommended" is destructive, since it also contains
   * "not"; a default tag says "recommended".
   */
  function TagVariant(tag: string): (v: Variant)
    ensures v == Destructive <==> Contains(ToLower(tag), "not recommended")
    ensures v == Default ==> Contains(ToLower(tag), "recommended")
  {
    var t := ToLower(tag);
    NotRecommendedSaysNot(t);
    if Contains(t, "recommended") && !Contains(t, "not") then Default
    else if Contains(t, "not recommended") then Destructive
    else Secondary
  }

  /** The badges of a card: one per tag, in order, and a destructive one for a spoiler. */
  function Badges(tags: Option<seq<string>>, isSpoiler: bool): (r: seq<Variant>)
    ensures |r| == |tags.GetOr([])| + (if isSpoiler then 1 else 0)
    ensures forall i :: 0 <= i < |tags.GetOr([])| ==> r[i] == TagVariant(tags.value[i])
    ensures isSpoiler ==> r[|r| - 1] == Destructive
  {
    var t := tags.GetOr([]);
    seq(|t|, i requires 0 <= i < |t| => TagVariant(t[i])) + (if isSpoiler then [Destructive] else [])
  }

  // ----- Truncation ---------------------------------------------------------------------

  const MaxLength := 450
  const Ellipsis := "..."

  /** `review.review || ""`: a missing body is the empty text. */
  function BodyText(review: Option<string>): (text: string)
    ensures review.None? ==> text == ""
    ensures review.Some? ==> text == review.value
  {
    review.GetOr("")
  }

  predicate IsLong(text: string) {
    |text| > MaxLength
  }

  /** `displayedText` */
  function DisplayedText(text: string, isExpanded: bool): (r: string)
    ensures IsLong(text) && !isExpanded ==>
      |r| == MaxLength + 3 && r[..MaxLength] == text[..MaxLength] && r[MaxLength..] == Ellipsis
    ensures !IsLong(text) || isExpanded ==> r == text
  {
    if IsLong(text) && !isExpanded then text[..MaxLength] + Ellipsis else text
  }

  /** The label of the toggle, or `None` when the card has no toggle. */
  function ToggleLabel(text: string, isExpanded: bool): (toggle: Option<string>)
    ensures toggle.Some? <==> IsLong(text)
    ensures toggle.Some? ==> toggle.value == (if isExpanded then "Show Less" else "Read More")
  {
    if !IsLong(text) then None
    else if isExpanded then Some("Show Less") else Some("Read More")
  }

  /** The expansion state of one card. */
  class Card {
    const text: string
    var isExpanded: bool

    /** A card starts collapsed. */
    constructor (review: Option<string>)
      ensures text == BodyText(review) && !isExpanded
    {
      text := BodyText(review);
      isExpanded := false;
    }

    /** The text shown: all of it unless the card is long and collapsed. */
    function Displayed(): (r: string)
      reads this
      ensures IsLong(text) && !isExpanded ==> |r| == MaxLength + 3 && r[..MaxLength] == text[..MaxLength] && r[MaxLength..] == Ellipsis
      ensures isExpanded || !IsLong(text) ==> r == text
    {
      DisplayedText(text, isExpanded)
    }

    /** The toggle's label; a card has a toggle exactly when its text is long. */
    function Label(): (toggle: Option<string>)
      reads this
      ensures toggle.Some? <==> IsLong(text)
      ensures toggle.Some? ==> toggle.value == (if isExpanded then "Show Less" else "Read More")
    {
      ToggleLabel(text, isExpanded)
    }

    /** A press of the toggle, which exists only for a long text. */
    method Toggle()
      requires IsLong(text)
      modifies this
      ensures isExpanded == !old(isExpanded)
    {
      isExpanded := !isExpanded;
    }
  }

  // ----- Properties ---------------------------------------------------------------------

  lemma {:induction false} OccursContains(s: string, p: string, i: int)
    requires OccursAt(s, p, i)
    ensures Contains(s, p)
  {
    if i == 0 {
      assert s[..|p|] == p;
    } else {
      assert s[1..][i - 1..i - 1 + |p|] == s[i..i + |p|];
      OccursContains(s[1..], p, i - 1);
    }
  }

  lemma {:induction false} ContainsOccurs(s: string, p: string)
    requires Contains(s, p)
    ensures exists i :: OccursAt(s, p, i)
  {
    if p <= s {
      assert OccursAt(s, p, 0);
    } else {
      ContainsOccurs(s[1..], p);
      var i :| OccursAt(s[1..], p, i);
      assert s[1..][i..i + |p|] == s[i + 1..i + 1 + |p|];
      assert OccursAt(s, p, i + 1);
    }
  }

  /** The scan agrees with the definition of a substring: `p` occurs at some position of `s`. */
  lemma ContainsIff(s: string, p: string)
    ensures Contains(s, p) <==> exists i :: OccursAt(s, p, i)
  {
    if exists i :: OccursAt(s, p, i) {
      var i :| OccursAt(s, p, i);
      OccursContains(s, p, i);
    }
    if Contains(s, p) {
      ContainsOccurs(s, p);
    }
  }

  /** A text that contains `p` contains every part of `p`. */
  lemma ContainsPart(s: string, p: string, j: int, k: int)
    requires 0 <= j <= k <= |p|
    requires Contains(s, p)
    ensures Contains(s, p[j..k])
  {
    ContainsIff(s, p);
    var i :| OccursAt(s, p, i);
    forall t | j <= t < k
      ensures s[i + t] == p[t]
    {
      assert s[i..i + |p|][t] == s[i + t];
    }
    assert s[i + j..i + k] == p[j..k];
    assert OccursAt(s, p[j..k], i + j);
    ContainsIff(s, p[j..k]);
  }

  /** A text that lacks one character of `p` does not contain `p`. */
  lemma {:induction false} MissingCharNotContained(s: string, p: string, k: int)
    requires 0 <= k < |p| && p[k] !in s
    ensures !Contains(s, p)
  {
    assert k < |s| ==> s[k] != p[k];
    if |s| > 0 {
      assert p[k] !in s[1..];
      MissingCharNotContained(s[1..], p, k);
    }
  }

  lemma LowerUpperChar(c: char)
    ensures LowerChar(UpperChar(c)) == LowerChar(c)
    ensures LowerChar(LowerChar(c)) == LowerChar(c)
  {
  }

  /** The variant depends on the letters of the tag, not on their case. */
  lemma TagVariantIgnoresCase(tag: string)
    ensures TagVariant(ToUpper(tag)) == TagVariant(tag)
    ensures TagVariant(ToLower(tag)) == TagVariant(tag)
  {
    forall i | 0 <= i < |tag| {
      LowerUpperChar(tag[i]);
    }
    assert ToLower(ToUpper(tag)) == ToLower(tag);
    assert ToLower(ToLower(tag)) == ToLower(tag);
  }

  /** A text that says "not recommended" says "not". */
  lemma NotRecommendedSaysNot(t: string)
    ensures Contains(t, "not recommended") ==> Contains(t, "not")
  {
    if Contains(t, "not recommended") {
      ContainsPart(t, "not recommended", 0, 3);
      assert "not recommended"[0..3] == "not";
    }
  }

  /**
   * The three rules of `getTagVariant`, stated over the lower-cased tag: each tag gets
   * exactly one of the three variants.
   */
  lemma TagVariantCases(tag: string)
    ensures var t := ToLower(tag);
      && (TagVariant(tag) == Default <==> Contains(t, "recommended") && !Contains(t, "not"))
      && (TagVariant(tag) == Destructive <==> Contains(t, "not recommended"))
      && (TagVariant(tag) == Secondary <==> !Contains(t, "not recommended") && !(Contains(t, "recommended") && !Contains(t, "not")))
  {
    NotRecommendedSaysNot(ToLower(tag));
  }

  lemma LowerRecommended()
    ensures ToLower("Recommended") == "recommended"
  {
  }

  lemma LowerNotRecommended()
    ensures ToLower("Not Recommended") == "not recommended"
  {
  }

  lemma LowerMixedFeelings()
    ensures ToLower("Mixed Feelings") == "mixed feelings"
  {
  }

  /** The upstream's tag "Recommended" gets the default badge. */
  lemma RecommendedTag()
    ensures TagVariant("Recommended") == Default
  {
    LowerRecommended();
    MissingCharNotContained("recommended", "not", 2);
    assert Contains("recommended", "recommended");
  }

  /** The upstream's tag "Not Recommended" gets the destructive badge. */
  lemma NotRecommendedTag()
    ensures TagVariant("Not Recommended") == Destructive
  {
    LowerNotRecommended();
    assert Contains("not recommended", "not recommended");
  }

  lemma MixedFeelingsLacksRecommended()
    ensures !Contains("mixed feelings", "recommended")
  {
    MissingCharNotContained("mixed feelings", "recommended", 0);
  }

  lemma MixedFeelingsLacksNotRecommended()
    ensures !Contains("mixed feelings", "not recommended")
  {
  }

  /** The upstream's tag "Mixed Feelings", like any other tag, gets the secondary badge. */
  lemma MixedFeelingsTag()
    ensures TagVariant("Mixed Feelings") == Secondary
  {
    LowerMixedFeelings();
    MixedFeelingsLacksRecommended();
    MixedFeelingsLacksNotRecommended();
  }

  /** A missing body is never long, so its card has no toggle and shows nothing. */
  lemma MissingBodyIsShort(isExpanded: bool)
    ensures !IsLong(BodyText(None))
    ensures ToggleLabel(BodyText(None), isExpanded).None?
    ensures DisplayedText(BodyText(None), isExpanded) == ""
  {
  }

  /** What is displayed always starts like the text, and never exceeds 453 characters while collapsed. */
  lemma DisplayedIsFaithful(text: string, isExpanded: bool)
    ensures var r := DisplayedText(text, isExpanded);
      var n := if |r| < MaxLength then |r| else MaxLength;
      n <= |text| && r[..n] == text[..n]
    ensures !isExpanded ==> |DisplayedText(text, isExpanded)| <= MaxLength + 3
  {
  }
}
