/**
 * Client code driving the controller through whole interactions, using
 * nothing but the contracts of its methods.
 */
module Scenarios {
  import opened Wrappers
  import opened Text
  import opened Vehicle
  import opened Booking

  /** The form used by the scenarios: a name box, the two dates and the vehicle selector. */
  function Form(): seq<Input> {
    [Input("full-name", ""), Input(PickupId, ""), Input(ReturnId, ""), Input(VehicleId, "")]
  }

  /** An option written as the lower-cased name between two blanks matches the name. */
  lemma PaddedLowerCaseMatches(name: string)
    requires Clean(name)
    ensures Matches(" " + Lower(name) + " ", name)
  {
    var padded := " " + Lower(name) + " ";
    LowerKeepsClean(name);
    assert padded[1..|padded| - 1] == Lower(name);
    assert padded[..1] == " " && padded[|padded| - 1..] == " ";
    TrimUnique(padded, 1, |padded| - 1);
    LowerIdempotent(name);
  }

  /** An option without edge blanks whose length differs from the name's does not match it. */
  lemma OtherLengthDoesNotMatch(option: string, name: string)
    requires Clean(option) && |option| != |name|
    ensures !Matches(option, name)
  {
  }

  /**
   * The page loads with `bookings` already stored; the user opens the modal
   * and types a name, picks a vehicle, then a pickup date and a return date.
   */
  method FillIn(bookings: Option<seq<Record>>, name: string, vehicle: string, pickup: string, ret: string)
    returns (c: BookingController)
    ensures fresh(c) && c.Valid() && c.pickup == 1 && c.ret == 2
    ensures c.fields == [Field("full-name", "", name, false), Field(PickupId, "", pickup, false),
                         Field(ReturnId, "", ret, false), Field(VehicleId, "", vehicle, false)]
    ensures c.open && c.bookings == bookings
  {
    c := new BookingController(Form(), [vehicle], 1, 2, 3, bookings);
    c.Open();
    c.Edit(0, name);
    c.Edit(3, vehicle);
    c.Edit(1, pickup);
    c.Edit(2, ret);
  }

  /** A return date before the pickup date is refused with the date message; nothing is saved. */
  method ReturnBeforePickup() {
    var c := FillIn(None, "Ada", "Tesla Model 3", "2024-06-01", "2024-05-30");
    LessAt("2024-05-30", "2024-06-01", 6);
    var alert := c.Submit("2024-06-01T09:00:00.000Z");
    assert alert == DateError;
    assert c.fields[2].error && c.open && c.bookings == None;
  }

  /**
   * A complete form with the return date on or after the pickup date is
   * saved as one record after the earlier ones; the form is reset and the
   * modal closes.
   */
  method SaveAfterEarlierBooking(earlier: Record, name: string, vehicle: string, pickup: string, ret: string,
                                 savedAt: string)
    requires name != "" && vehicle != "" && pickup != "" && ret != ""
    requires Clean(name) && Clean(vehicle) && Clean(pickup) && Clean(ret)
    requires pickup == ret || Less(pickup, ret)
  {
    var c := FillIn(Some([earlier]), name, vehicle, pickup, ret);
    ghost var fs := c.fields;
    assert SameShape(fs, Initial(Form()));
    assert AllFilled(fs) by {
      assert !Blank(name) && !Blank(pickup) && !Blank(ret) && !Blank(vehicle);
    }
    NotLessIsAtLeast(pickup, ret);
    var alert := c.Submit(savedAt);
    assert alert == Saved;
    assert Existing(Some([earlier])) == [earlier];
    ghost var rec := NewRecord(fs, savedAt);
    assert [earlier] + [rec] == [earlier, rec];
    assert c.bookings == Some([earlier, NewRecord(fs, savedAt)]);
    RestoredIsInitial(Form(), fs);
    assert !c.open && c.returnMin == "" && c.fields == Initial(Form());
  }

  /**
   * A card whose header reads `brand` and whose sub-name reads `sub` derives
   * `brand + " " + sub`, and selects the option that spells it in lower case
   * between blanks rather than an empty option before it.
   */
  lemma CardSelectsPaddedOption(brand: string, sub: string)
    requires brand != "" && sub != "" && Clean(brand) && Clean(sub)
    ensures VehicleName(Card(Some(brand), Some(sub), false)) == brand + " " + sub
    ensures var option := " " + Lower(brand + " " + sub) + " ";
            SelectedValue(["", option], brand + " " + sub) == option
  {
    var card := Card(Some(brand), Some(sub), false);
    TrimIdempotent(brand);
    TrimIdempotent(sub);
    VehicleNameParts(card);
    var name := brand + " " + sub;
    assert name[0] == brand[0] && name[|name| - 1] == sub[|sub| - 1];
    var option := " " + Lower(name) + " ";
    PaddedLowerCaseMatches(name);
    OtherLengthDoesNotMatch("", name);
    var options := ["", option];
    assert !Matches(options[0], name) && Matches(options[1], name);
    var found := FindOption(options, name);
    assert found == Some(1);
  }

  /** Clicking the "book now" control of a card marked not available does nothing. */
  method ClickSoldOutCard(options: seq<string>, card: Card)
    requires IsNotAvailable(card)
  {
    var c := new BookingController(Form(), options, 1, 2, 3, None);
    c.BookNowClick(Button(false, Some(card)));
    assert !c.open && c.fields == Initial(Form());
  }

  /** Clicking an available card selects the option matching its name and opens the modal. */
  method ClickAvailableCard(options: seq<string>, card: Card)
    requires !IsNotAvailable(card)
  {
    var c := new BookingController(Form(), options, 1, 2, 3, None);
    c.BookNowClick(Button(false, Some(card)));
    assert c.open && c.fields[3].value == SelectedValue(options, VehicleName(card));
    assert c.fields[..3] == Initial(Form())[..3];
  }
}
