/**
 * The values behind the "book now" click: the clicked control, its enclosing
 * card, the vehicle name derived from the card and the matching option of the
 * vehicle selector.
 */
module Vehicle {
  import opened Wrappers
  import opened Text

  /**
   * A vehicle card as the click handler sees it: the text of the first child
   * node of its `.card-header` element and the text of its `.car-subname`
   * element (each `None` when the element is missing), and whether a
   * `.not-available` element is inside it.
   */
  datatype Card = Card(headerText: Option<string>, subText: Option<string>, hasNotAvailableMark: bool)

  /**
   * A "book now" control: whether it carries the `booknow-not-available`
   * class, and the nearest enclosing `.card` element, if any.
   */
  datatype Button = Button(markedNotAvailable: bool, enclosingCard: Option<Card>)

  /** `isNotAvailable(cardEl)` */
  predicate IsNotAvailable(card: Card) {
    card.hasNotAvailableMark
  }

  /** The click handler's guards: true when the click must do nothing. */
  predicate ClickIgnored(btn: Button) {
    btn.markedNotAvailable || btn.enclosingCard.None? || IsNotAvailable(btn.enclosingCard.value)
  }

  function Brand(card: Card): string {
    if card.headerText.Some? then Trim(card.headerText.value) else ""
  }

  function SubName(card: Card): string {
    if card.subText.Some? then Trim(card.subText.value) else ""
  }

  /** `getVehicleNameFromCard(cardEl)`: brand and sub-name joined by a space, then trimmed. */
  function VehicleName(card: Card): string {
    Trim(Brand(card) + " " + SubName(card))
  }

  /**
   * The derived name is the brand and the sub-name joined by one space, or
   * just the one that is present when the other is empty.
   */
  lemma VehicleNameParts(card: Card)
    ensures Brand(card) == "" ==> VehicleName(card) == SubName(card)
    ensures SubName(card) == "" ==> VehicleName(card) == Brand(card)
    ensures Brand(card) != "" && SubName(card) != "" ==>
              VehicleName(card) == Brand(card) + " " + SubName(card)
  {
    JoinTrimmed(Brand(card), SubName(card));
  }

  /** The `find` predicate: the option's trimmed value equals the name, ignoring case. */
  predicate Matches(option: string, name: string) {
    Lower(Trim(option)) == Lower(name)
  }

  /** `Array.prototype.find` as an index: the first position at or after `from` whose element satisfies `p`. */
  function FindFrom<T>(xs: seq<T>, p: T -> bool, from: nat): (r: Option<nat>)
    requires from <= |xs|
    ensures r.Some? ==> from <= r.value < |xs| && p(xs[r.value])
    ensures r.Some? ==> forall j :: from <= j < r.value ==> !p(xs[j])
    ensures r.None? <==> forall j :: from <= j < |xs| ==> !p(xs[j])
    decreases |xs| - from
  {
    if from == |xs| then None
    else if p(xs[from]) then Some(from)
    else FindFrom(xs, p, from + 1)
  }

  /** The position of the first option that matches `name`, if any. */
  function FindOption(options: seq<string>, name: string): (r: Option<nat>)
    ensures r.Some? ==> r.value < |options| && Matches(options[r.value], name)
    ensures r.Some? ==> forall j :: 0 <= j < r.value ==> !Matches(options[j], name)
    ensures r.None? <==> forall j :: 0 <= j < |options| ==> !Matches(options[j], name)
  {
    FindFrom(options, o => Matches(o, name), 0)
  }

  /** The value the vehicle selector is given: the matching option's own value, or "" when none matches. */
  function SelectedValue(options: seq<string>, name: string): string {
    match FindOption(options, name)
    case Some(k) => options[k]
    case None => ""
  }

  /** A selected value is either "" or one of the options, untouched by trimming or lower-casing. */
  lemma SelectedValueIsOption(options: seq<string>, name: string)
    ensures SelectedValue(options, name) == "" || SelectedValue(options, name) in options
    ensures SelectedValue(options, name) != "" ==> Matches(SelectedValue(options, name), name)
  {
  }

  /** Whether an option matches does not depend on the case of the card's name. */
  lemma MatchIgnoresCase(option: string, name: string)
    ensures Matches(option, name) <==> Matches(option, Lower(name))
  {
    LowerIdempotent(name);
  }
}
