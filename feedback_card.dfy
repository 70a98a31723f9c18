/**
 * The employee's feedback card: which date it shows and how it labels it,
 * whether it starts expanded, the sentiment badge text, the bullet lists cut
 * from the two text fields, and the button it offers.
 */
module FeedbackCard {
  import opened Sequences
  import opened Models
  import opened Text
  import opened ClientData

  /**
   * `formatDateMDY`: a falsy date gives "", any other date is handed to
   * `format`, which stands for the locale formatting ("January 5, 2025").
   */
  function FormatDateMDY(date: Option<string>, format: string -> string): (r: string)
    ensures !Truthy(date) ==> r == ""
    ensures Truthy(date) ==> r == format(date.value)
  {
    if !Truthy(date) then "" else format(date.value)
  }

  /**
   * `isUpdated`: an edit time is present and differs from the creation time.
   * A missing, empty, or creation-equal `updated_at` does not count.
   */
  function IsUpdated(f: ClientFeedback): (updated: bool)
    ensures updated ==> f.updatedAt.Some? && f.updatedAt.value != "" && f.updatedAt.value != f.createdAt
    ensures f.updatedAt.None? || f.updatedAt == Some("") || f.updatedAt == Some(f.createdAt) ==> !updated
  {
    Truthy(f.updatedAt) && f.updatedAt.value != f.createdAt
  }

  /** `dateValue`: the edit time when the record counts as updated, the creation time otherwise. */
  function DateValue(f: ClientFeedback, format: string -> string): (r: string)
    ensures IsUpdated(f) ==> r == format(f.updatedAt.value)
    ensures !IsUpdated(f) ==> r == FormatDateMDY(Some(f.createdAt), format)
  {
    FormatDateMDY(if IsUpdated(f) then f.updatedAt else Some(f.createdAt), format)
  }

  /** `dateLabel`. */
  function DateLabel(f: ClientFeedback): (tag: string)
    ensures tag == "Updated" <==> IsUpdated(f)
    ensures tag == "" <==> !IsUpdated(f)
  {
    if IsUpdated(f) then "Updated" else ""
  }

  /** Records from the server never carry `updated_at`, so they always show their creation date. */
  lemma ReceivedIsNeverUpdated(fb: Feedback, users: seq<User>, iso: int -> string, format: string -> string)
    ensures var c := Received(fb, users, iso);
      && !IsUpdated(c) && DateLabel(c) == ""
      && DateValue(c, format) == FormatDateMDY(Some(iso(fb.createdAt)), format)
  {
  }

  /** The sentiment badge: the sentiment with its first character upper-cased. */
  function SentimentText(f: ClientFeedback): (r: string)
    ensures |r| == |f.sentiment|
    ensures f.sentiment != "" ==> r[0] == UpperChar(f.sentiment[0]) && r[1..] == f.sentiment[1..]
  {
    Capitalize(f.sentiment)
  }

  const BulletSeparator: string := ". "

  /** `text.split(". ").filter((s) => s)`: the bullet items of a text field. */
  function Bullets(text: string): (items: seq<string>)
    ensures forall b :: b in items ==> b != "" && !Contains(b, BulletSeparator)
  {
    SplitPiecesAreFree(text, BulletSeparator);
    NonEmpty(Split(text, BulletSeparator))
  }

  lemma SeparatorIsUnbordered()
    ensures Unbordered(BulletSeparator)
  {
    assert BulletSeparator[1..] == " " && BulletSeparator[..1] == ".";
  }

  /** Items keep the order of the text: what comes before a ". " is listed first. */
  lemma BulletsKeepOrder(a: string, b: string)
    ensures Bullets(a + BulletSeparator + b) == Bullets(a) + Bullets(b)
  {
    SeparatorIsUnbordered();
    SplitAround(a, BulletSeparator, b);
    NonEmptyAppend(Split(a, BulletSeparator), Split(b, BulletSeparator));
  }

  /** A non-empty sentence without ". " is one bullet. */
  lemma OneSentenceIsOneBullet(text: string)
    requires text != "" && !Contains(text, BulletSeparator)
    ensures Bullets(text) == [text]
  {
    SplitCutsIffContains(text, BulletSeparator);
    SplitJoin(text, BulletSeparator);
    var parts := Split(text, BulletSeparator);
    assert parts == [text];
    assert NonEmpty(parts) == [parts[0]] + NonEmpty(parts[1..]);
    assert NonEmpty(parts[1..]) == [];
  }

  /**
   * Joining items with ". " and cutting the text again gives the items back,
   * as long as none is empty or holds ". " itself.
   */
  lemma {:induction false} BulletsOfJoin(items: seq<string>)
    requires forall b :: b in items ==> b != "" && !Contains(b, BulletSeparator)
    ensures Bullets(Join(items, BulletSeparator)) == items
  {
    if items == [] {
      assert Split("", BulletSeparator) == [""];
      assert [""][1..] == [];
    } else if |items| == 1 {
      assert items[0] in items;
      OneSentenceIsOneBullet(items[0]);
    } else {
      assert items[0] in items;
      assert forall b :: b in items[1..] ==> b in items;
      BulletsOfJoin(items[1..]);
      BulletsKeepOrder(items[0], Join(items[1..], BulletSeparator));
      OneSentenceIsOneBullet(items[0]);
    }
  }

  datatype Button = ViewDetails | AcknowledgeFeedback | HideDetails

  /** The line every card shows: date, author, "(Updated)" label and sentiment badge. */
  datatype CardHeader = CardHeader(dateValue: string, author: Option<string>, dateLabel: string, badge: string)

  /**
   * What the card renders: collapsed, the header and View Details; expanded,
   * the header, a highlight border, the two bullet lists and one button.
   */
  datatype CardView =
    | Collapsed(header: CardHeader, button: Button)
    | Expanded(header: CardHeader, highlighted: bool, strengths: seq<string>,
               areasToImprove: seq<string>, button: Button)

  /** `useState(!feedback.acknowledged)`: the card starts open exactly when it awaits acknowledgement. */
  function InitiallyExpanded(f: ClientFeedback): (expanded: bool)
    ensures expanded <==> !f.acknowledged
  {
    !f.acknowledged
  }

  /** The card for `f` with the expansion flag `expanded`. */
  function Render(f: ClientFeedback, expanded: bool, format: string -> string): (v: CardView)
    ensures v.header == CardHeader(DateValue(f, format), f.author, DateLabel(f), SentimentText(f))
    ensures v.Collapsed? <==> !expanded
    ensures v.Collapsed? ==> v.button == ViewDetails
    ensures v.Expanded? ==>
      && v.highlighted == !f.acknowledged
      && v.strengths == Bullets(f.strengths) && v.areasToImprove == Bullets(f.areasToImprove)
      && (v.button == AcknowledgeFeedback <==> !f.acknowledged)
      && (v.button == HideDetails <==> f.acknowledged)
  {
    var header := CardHeader(DateValue(f, format), f.author, DateLabel(f), SentimentText(f));
    if !expanded then Collapsed(header, ViewDetails)
    else Expanded(header, !f.acknowledged, Bullets(f.strengths), Bullets(f.areasToImprove),
                  if !f.acknowledged then AcknowledgeFeedback else HideDetails)
  }

  /**
   * The expansion flag after pressing a button: View Details opens the card,
   * Hide Details closes it, and Acknowledge leaves it to the parent's
   * `onAcknowledge`.
   */
  function Press(expanded: bool, b: Button): (expanded': bool)
    ensures b == ViewDetails ==> expanded'
    ensures b == HideDetails ==> !expanded'
    ensures b == AcknowledgeFeedback ==> expanded' == expanded
  {
    match b
    case ViewDetails => true
    case HideDetails => false
    case AcknowledgeFeedback => expanded
  }

  /**
   * The first render: unacknowledged feedback opens with its Acknowledge
   * button, acknowledged feedback is collapsed behind View Details.
   */
  lemma FirstRender(f: ClientFeedback, format: string -> string)
    ensures var v := Render(f, InitiallyExpanded(f), format);
      && (!f.acknowledged ==> v.Expanded? && v.button == AcknowledgeFeedback && v.highlighted)
      && (f.acknowledged ==> v.Collapsed? && v.button == ViewDetails)
  {
  }

  /** For acknowledged feedback, View Details then Hide Details returns the card to its first view. */
  lemma ViewThenHide(f: ClientFeedback, format: string -> string)
    requires f.acknowledged
    ensures var shown := Press(InitiallyExpanded(f), Render(f, InitiallyExpanded(f), format).button);
      && Render(f, shown, format).button == HideDetails
      && Press(shown, HideDetails) == InitiallyExpanded(f)
  {
  }
}
