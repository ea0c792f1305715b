/**
 * The booking-form controller: the modal's visibility, the tracked form
 * fields with their error markers, the return date's minimum, and the list
 * of saved bookings kept under the `bookings` storage key.
 */
module Booking {
  import opened Wrappers
  import opened Text
  import opened Vehicle

  const PickupId: string := "pickup-date"
  const ReturnId: string := "return-date"
  const VehicleId: string := "vehicle-type"
  /** The key under which a saved booking carries its timestamp. */
  const SavedAtKey: string := "savedAt"

  /** A form element at load time: its `id` and the value a form reset restores. */
  datatype Input = Input(id: string, defaultValue: string)

  /** A tracked `input` or `select`: its `id`, its reset value, its current value and whether it carries the `error` class. */
  datatype Field = Field(id: string, defaultValue: string, value: string, error: bool)

  /** One saved booking: field ids mapped to trimmed values, plus `savedAt`. */
  type Record = map<string, string>

  /** The blocking message a submission ends with. */
  datatype Alert = DateError | GenericError | Saved

  function Message(a: Alert): string {
    match a
    case DateError => "\U{26A0}\U{FE0F} Return date must be same or after Pickup date."
    case GenericError => "\U{26A0}\U{FE0F} Please fill all fields correctly before submitting."
    case Saved => "\U{2705} Booking Saved Successfully!"
  }

  // ---------------------------------------------------------------------------
  // What a submission computes, as functions of the fields before it
  // ---------------------------------------------------------------------------

  /**
   * A field passes validation when its value is not empty after trimming,
   * that is, when it is not all whitespace (`TrimEmptyIffBlank`).
   */
  predicate Filled(f: Field) {
    !Blank(f.value)
  }

  predicate AllFilled(fs: seq<Field>) {
    forall i :: 0 <= i < |fs| ==> Filled(fs[i])
  }

  /** Whether the first `n` fields all pass, as the validation pass's `valid` flag records it. */
  predicate AllFilledUpTo(fs: seq<Field>, n: nat)
    requires n <= |fs|
  {
    n == 0 || (AllFilledUpTo(fs, n - 1) && Filled(fs[n - 1]))
  }

  lemma {:induction false} AllFilledUpToAll(fs: seq<Field>, n: nat)
    requires n <= |fs|
    ensures AllFilledUpTo(fs, n) <==> forall j :: 0 <= j < n ==> Filled(fs[j])
  {
    if n > 0 {
      AllFilledUpToAll(fs, n - 1);
    }
  }

  /** The fields after the validation pass: each marked in error exactly when it is empty. */
  function Checked(fs: seq<Field>): seq<Field> {
    seq(|fs|, i requires 0 <= i < |fs| => fs[i].(error := !Filled(fs[i])))
  }

  /** The id-to-value map the validation pass builds from the first `n` fields, in order (a later id overwrites an earlier one). */
  function StagedUpTo(fs: seq<Field>, n: nat): Record
    requires n <= |fs|
    decreases n
  {
    if n == 0 then map[]
    else
      var m := StagedUpTo(fs, n - 1);
      if Filled(fs[n - 1]) then m[fs[n - 1].id := Trim(fs[n - 1].value)] else m
  }

  function Staged(fs: seq<Field>): Record {
    StagedUpTo(fs, |fs|)
  }

  /** The extra date check: both dates set and the return date earlier than the pickup date. */
  predicate DateViolation(fs: seq<Field>, pickup: nat, ret: nat)
    requires pickup < |fs| && ret < |fs|
  {
    fs[pickup].value != "" && fs[ret].value != "" && Less(fs[ret].value, fs[pickup].value)
  }

  /** The message a submission of `fs` ends with: the date check is decided first. */
  function Verdict(fs: seq<Field>, pickup: nat, ret: nat): Alert
    requires pickup < |fs| && ret < |fs|
  {
    if DateViolation(fs, pickup, ret) then DateError
    else if !AllFilled(fs) then GenericError
    else Saved
  }

  /** The record a successful submission appends. */
  function NewRecord(fs: seq<Field>, savedAt: string): Record {
    Staged(fs)[SavedAtKey := savedAt]
  }

  /** What is stored under the key: a missing key reads as the empty list. */
  function Existing(bookings: Option<seq<Record>>): seq<Record> {
    if bookings.Some? then bookings.value else []
  }

  /** Every error marker removed. */
  function Cleared(fs: seq<Field>): seq<Field> {
    seq(|fs|, i requires 0 <= i < |fs| => fs[i].(error := false))
  }

  /** A form reset: every marker removed and every value back to its default. */
  function Restored(fs: seq<Field>): seq<Field> {
    seq(|fs|, i requires 0 <= i < |fs| => fs[i].(value := fs[i].defaultValue, error := false))
  }

  /** The fields as the page loads them. */
  function Initial(form: seq<Input>): seq<Field> {
    seq(|form|, i requires 0 <= i < |form| => Field(form[i].id, form[i].defaultValue, form[i].defaultValue, false))
  }

  /** Two field sequences describe the same elements: same ids and reset values, in the same order. */
  predicate SameShape(fs: seq<Field>, gs: seq<Field>) {
    |fs| == |gs| && forall i :: 0 <= i < |fs| ==> fs[i].id == gs[i].id && fs[i].defaultValue == gs[i].defaultValue
  }

  /** A form reset brings back the fields exactly as the page loaded them, whatever was typed since. */
  lemma RestoredIsInitial(form: seq<Input>, fs: seq<Field>)
    requires SameShape(fs, Initial(form))
    ensures Restored(fs) == Initial(form)
  {
    assert forall i :: 0 <= i < |fs| ==> Restored(fs)[i] == Initial(form)[i];
  }

  // ---------------------------------------------------------------------------
  // Properties of a submission
  // ---------------------------------------------------------------------------

  /** The keys staged from the first `n` fields are exactly the ids of those that passed validation. */
  lemma {:induction false} StagedKeys(fs: seq<Field>, n: nat)
    requires n <= |fs|
    ensures StagedUpTo(fs, n).Keys == set i | 0 <= i < n && Filled(fs[i]) :: fs[i].id
    decreases n
  {
    if n > 0 {
      StagedKeys(fs, n - 1);
    }
  }

  /**
   * A field among the first `n` that passed validation, and that no later
   * one among them with the same id also passed, is staged under its id with
   * its trimmed value.
   */
  lemma {:induction false} StagedValue(fs: seq<Field>, n: nat, i: nat)
    requires i < n <= |fs| && Filled(fs[i])
    requires forall j :: i < j < n ==> fs[j].id != fs[i].id || !Filled(fs[j])
    ensures fs[i].id in StagedUpTo(fs, n) && StagedUpTo(fs, n)[fs[i].id] == Trim(fs[i].value)
    decreases n
  {
    if i < n - 1 {
      StagedValue(fs, n - 1, i);
    }
  }

  /** Every staged value is a trimmed, non-empty value of a field with that id. */
  lemma {:induction false} StagedValuesFromFields(fs: seq<Field>, n: nat, k: string)
    requires n <= |fs| && k in StagedUpTo(fs, n)
    ensures StagedUpTo(fs, n)[k] != "" && Clean(StagedUpTo(fs, n)[k])
    ensures exists i :: 0 <= i < n && fs[i].id == k && Filled(fs[i]) && StagedUpTo(fs, n)[k] == Trim(fs[i].value)
    decreases n
  {
    var last := fs[n - 1];
    if Filled(last) && last.id == k {
      TrimEmptyIffBlank(last.value);
    } else {
      StagedValuesFromFields(fs, n - 1, k);
    }
  }

  /**
   * The validation pass keeps every field's id, reset value and value, and
   * marks exactly the fields whose trimmed value is empty.
   */
  lemma CheckedMarksEmpty(fs: seq<Field>)
    ensures SameShape(Checked(fs), fs)
    ensures forall i :: 0 <= i < |fs| ==> Checked(fs)[i].value == fs[i].value
    ensures forall i :: 0 <= i < |fs| ==> (Checked(fs)[i].error <==> Trim(fs[i].value) == "")
  {
    forall i | 0 <= i < |fs| {
      TrimEmptyIffBlank(fs[i].value);
    }
  }

  predicate DistinctIds(fs: seq<Field>) {
    forall i, j :: 0 <= i < j < |fs| ==> fs[i].id != fs[j].id
  }

  /** When every field is filled and the ids are distinct, each field is staged under its own id. */
  lemma StagedCompleteForm(fs: seq<Field>)
    requires AllFilled(fs) && DistinctIds(fs)
    ensures Staged(fs).Keys == set i | 0 <= i < |fs| :: fs[i].id
    ensures forall i :: 0 <= i < |fs| ==> Staged(fs)[fs[i].id] == Trim(fs[i].value)
  {
    StagedKeys(fs, |fs|);
    assert (set i | 0 <= i < |fs| && Filled(fs[i]) :: fs[i].id) == (set i | 0 <= i < |fs| :: fs[i].id);
    forall i | 0 <= i < |fs|
      ensures Staged(fs)[fs[i].id] == Trim(fs[i].value)
    {
      StagedValue(fs, |fs|, i);
    }
  }

  /**
   * When every field is filled and the ids are distinct (none of them
   * `savedAt`), the saved record holds exactly one entry per field, its
   * trimmed value, plus the timestamp.
   */
  lemma RecordOfCompleteForm(fs: seq<Field>, savedAt: string)
    requires AllFilled(fs) && DistinctIds(fs)
    requires forall i :: 0 <= i < |fs| ==> fs[i].id != SavedAtKey
    ensures NewRecord(fs, savedAt).Keys == (set i | 0 <= i < |fs| :: fs[i].id) + {SavedAtKey}
    ensures forall i :: 0 <= i < |fs| ==> NewRecord(fs, savedAt)[fs[i].id] == Trim(fs[i].value)
    ensures NewRecord(fs, savedAt)[SavedAtKey] == savedAt
  {
    StagedCompleteForm(fs);
  }

  /**
   * A booking is saved only with both date values filled and the return
   * value not earlier than the pickup value, compared untrimmed as the date
   * check compares them; both dates are then in the record.
   */
  lemma SavedDatesOrdered(fs: seq<Field>, pickup: nat, ret: nat, savedAt: string)
    requires pickup < |fs| && ret < |fs| && pickup != ret
    requires fs[pickup].id == PickupId && fs[ret].id == ReturnId
    requires Verdict(fs, pickup, ret) == Saved
    ensures fs[pickup].value != "" && fs[ret].value != ""
    ensures fs[pickup].value == fs[ret].value || Less(fs[pickup].value, fs[ret].value)
    ensures PickupId in NewRecord(fs, savedAt) && ReturnId in NewRecord(fs, savedAt)
  {
    assert Filled(fs[pickup]) && Filled(fs[ret]);
    NotLessIsAtLeast(fs[pickup].value, fs[ret].value);
    StagedKeys(fs, |fs|);
    assert fs[pickup].id in Staged(fs) && fs[ret].id in Staged(fs);
  }

  /** Only a fully filled form with ordered dates is saved; the date message wins over the generic one. */
  lemma VerdictCases(fs: seq<Field>, pickup: nat, ret: nat)
    requires pickup < |fs| && ret < |fs|
    ensures Verdict(fs, pickup, ret) == Saved <==>
              (forall i :: 0 <= i < |fs| ==> Trim(fs[i].value) != "") && !Less(fs[ret].value, fs[pickup].value)
    ensures Verdict(fs, pickup, ret) == GenericError <==>
              !DateViolation(fs, pickup, ret) && exists i :: 0 <= i < |fs| && AllSpace(fs[i].value)
  {
    forall i | 0 <= i < |fs| {
      TrimEmptyIffBlank(fs[i].value);
    }
    TrimEmptyIffBlank("");
  }

  /**
   * The validation pass of the `submit` handler: the fields in order, each
   * marked in error exactly when its trimmed value is empty, the others
   * staged under their ids.
   */
  method Validate(fs: seq<Field>) returns (checked: seq<Field>, valid: bool, staged: Record)
    ensures checked == Checked(fs)
    ensures valid == AllFilled(fs) && staged == Staged(fs)
  {
    checked := fs;
    valid := true;
    staged := map[];
    var i := 0;
    while i < |fs|
      invariant 0 <= i <= |fs| == |checked|
      invariant forall j :: 0 <= j < i ==> checked[j] == fs[j].(error := !Filled(fs[j]))
      invariant forall j :: i <= j < |fs| ==> checked[j] == fs[j]
      invariant valid == AllFilledUpTo(fs, i)
      invariant staged == StagedUpTo(fs, i)
    {
      var input := checked[i];
      var value := Trim(input.value);
      TrimEmptyIffBlank(input.value);
      if value == "" {
        valid := false;
        checked := checked[i := input.(error := true)];
      } else {
        checked := checked[i := input.(error := false)];
        staged := staged[input.id := value];
      }
      i := i + 1;
    }
    AllFilledUpToAll(fs, |fs|);
  }

  // ---------------------------------------------------------------------------
  // The controller
  // ---------------------------------------------------------------------------

  class BookingController {
    /** Whether the modal and its overlay carry the `display` class. */
    var open: bool
    /** Every `input` and `select` of the form, in document order. */
    var fields: seq<Field>
    /** The return date's `min` attribute. */
    var returnMin: string
    /** The `bookings` storage entry; `None` while the key is absent. */
    var bookings: Option<seq<Record>>
    /** The values of the vehicle selector's options, in order. */
    const options: seq<string>
    /** Positions of the pickup date, return date and vehicle selector among the fields. */
    const pickup: nat
    const ret: nat
    const vehicle: nat

    /**
     * The three positions are fields of the form and are different fields.
     * Their ids are fixed when the page loads, and no handler changes an id.
     */
    ghost predicate Valid()
      reads this
    {
      && pickup < |fields| && ret < |fields| && vehicle < |fields|
      && pickup != ret && pickup != vehicle && ret != vehicle
    }

    /** The controller as the page loads: modal closed, every field at its default and clean. */
    constructor (form: seq<Input>, options: seq<string>, pickup: nat, ret: nat, vehicle: nat,
                 bookings: Option<seq<Record>>)
      requires pickup < |form| && ret < |form| && vehicle < |form|
      requires form[pickup].id == PickupId && form[ret].id == ReturnId && form[vehicle].id == VehicleId
      // `getElementById` finds the first element with the id, in document order
      requires forall j :: 0 <= j < pickup ==> form[j].id != PickupId
      requires forall j :: 0 <= j < ret ==> form[j].id != ReturnId
      requires forall j :: 0 <= j < vehicle ==> form[j].id != VehicleId
      ensures Valid()
      ensures !open && fields == Initial(form) && returnMin == "" && this.bookings == bookings
      ensures this.options == options && this.pickup == pickup && this.ret == ret && this.vehicle == vehicle
    {
      this.open := false;
      this.fields := Initial(form);
      this.returnMin := "";
      this.bookings := bookings;
      this.options := options;
      this.pickup := pickup;
      this.ret := ret;
      this.vehicle := vehicle;
    }

    /** `openForm()`: shows the modal, whatever its state. */
    method Open()
      requires Valid()
      modifies this
      ensures Valid()
      ensures open
      ensures fields == old(fields) && returnMin == old(returnMin) && bookings == old(bookings)
    {
      open := true;
    }

    /** `closeForm()`, also run by the close button and the overlay: hides the modal, whatever its state. */
    method Close()
      requires Valid()
      modifies this
      ensures Valid()
      ensures !open
      ensures fields == old(fields) && returnMin == old(returnMin) && bookings == old(bookings)
    {
      open := false;
    }

    /** The `keydown` handler: Escape closes the modal, any other key changes nothing. */
    method KeyDown(key: string)
      requires Valid()
      modifies this
      ensures Valid()
      ensures open == (old(open) && key != "Escape")
      ensures fields == old(fields) && returnMin == old(returnMin) && bookings == old(bookings)
    {
      if key == "Escape" {
        Close();
      }
    }

    /**
     * The "book now" click handler. A control or card marked not available,
     * or a control outside any card, changes nothing; otherwise the vehicle
     * selector gets the first option matching the card's name ("" when none
     * matches) and the modal opens.
     */
    method BookNowClick(btn: Button)
      requires Valid()
      modifies this
      ensures Valid()
      ensures ClickIgnored(btn) ==> open == old(open) && fields == old(fields)
      ensures !ClickIgnored(btn) ==>
                && open
                && fields == old(fields)[vehicle := old(fields)[vehicle].(value :=
                     SelectedValue(options, VehicleName(btn.enclosingCard.value)))]
      ensures returnMin == old(returnMin) && bookings == old(bookings)
    {
      if btn.markedNotAvailable {
        return;
      }
      if btn.enclosingCard.None? || IsNotAvailable(btn.enclosingCard.value) {
        return;
      }
      var card := btn.enclosingCard.value;
      var name := VehicleName(card);
      var found := FindOption(options, name);
      var selected := if found.Some? then options[found.value] else "";
      fields := fields[vehicle := fields[vehicle].(value := selected)];
      Open();
    }

    /**
     * The pickup date's `change` handler: the return date's minimum becomes
     * the pickup date, and a return date earlier than it is cleared.
     */
    method PickupChange()
      requires Valid()
      modifies this
      ensures Valid()
      ensures returnMin == old(fields[pickup].value)
      ensures fields == if old(fields[ret].value) != "" && Less(old(fields[ret].value), old(fields[pickup].value))
                        then old(fields)[ret := old(fields[ret]).(value := "")]
                        else old(fields)
      ensures fields[ret].value == "" || !Less(fields[ret].value, fields[pickup].value)
      ensures open == old(open) && bookings == old(bookings)
    {
      returnMin := fields[pickup].value;
      if fields[ret].value != "" && Less(fields[ret].value, fields[pickup].value) {
        fields := fields[ret := fields[ret].(value := "")];
      }
    }

    /** The `input` and `change` handlers on a tracked field: its error marker is removed. */
    method ClearError(i: nat)
      requires Valid() && i < |fields|
      modifies this
      ensures Valid()
      ensures fields == old(fields)[i := old(fields[i]).(error := false)]
      ensures open == old(open) && returnMin == old(returnMin) && bookings == old(bookings)
    {
      fields := fields[i := fields[i].(error := false)];
    }

    /**
     * The user sets field `i` to `v`: the `input` event fires, then the
     * `change` event, whose listeners run in registration order (the pickup
     * handler before the error-clearing one).
     */
    method Edit(i: nat, v: string)
      requires Valid() && i < |fields|
      modifies this
      ensures Valid()
      ensures i != pickup ==> fields == old(fields)[i := old(fields[i]).(value := v, error := false)]
      ensures i != pickup ==> returnMin == old(returnMin)
      ensures i == pickup ==> returnMin == v
      ensures i == pickup ==>
                var edited := old(fields)[pickup := old(fields[pickup]).(value := v, error := false)];
                fields == if edited[ret].value != "" && Less(edited[ret].value, v)
                          then edited[ret := edited[ret].(value := "")]
                          else edited
      ensures open == old(open) && bookings == old(bookings)
    {
      fields := fields[i := fields[i].(value := v)];
      ClearError(i);
      if i == pickup {
        PickupChange();
      }
      ClearError(i);
    }

    /** The `reset` event's handler: every error marker is removed. */
    method ResetHandler()
      requires Valid()
      modifies this
      ensures Valid()
      ensures fields == Cleared(old(fields))
      ensures open == old(open) && returnMin == old(returnMin) && bookings == old(bookings)
    {
      var i := 0;
      while i < |fields|
        invariant 0 <= i <= |fields| == |old(fields)|
        invariant forall j :: 0 <= j < i ==> fields[j] == old(fields[j]).(error := false)
        invariant forall j :: i <= j < |fields| ==> fields[j] == old(fields[j])
        invariant open == old(open) && returnMin == old(returnMin) && bookings == old(bookings)
      {
        fields := fields[i := fields[i].(error := false)];
        i := i + 1;
      }
    }

    /**
     * A form reset: the `reset` event fires first, then every field gets its
     * default value back. The return date's `min` attribute is kept.
     */
    method Reset()
      requires Valid()
      modifies this
      ensures Valid()
      ensures fields == Restored(old(fields))
      ensures open == old(open) && returnMin == old(returnMin) && bookings == old(bookings)
    {
      ResetHandler();
      var fs := fields;
      fields := seq(|fs|, j requires 0 <= j < |fs| => fs[j].(value := fs[j].defaultValue));
    }

    /**
     * The `submit` handler. Every field is marked in error exactly when it
     * is empty after trimming, and the filled ones are staged. A return date
     * earlier than the pickup date is reported first and marks the return
     * field; otherwise an empty field is reported with the generic message.
     * Either way nothing else changes. A valid form appends one record
     * (staged values plus `savedAt`) to the stored list, resets the form,
     * clears the return date's minimum and closes the modal.
     */
    method Submit(savedAt: string) returns (alert: Alert)
      requires Valid()
      modifies this
      ensures Valid() && SameShape(fields, old(fields))
      ensures alert == Verdict(old(fields), pickup, ret)
      ensures alert == DateError ==>
                && fields == Checked(old(fields))[ret := Checked(old(fields))[ret].(error := true)]
                && open == old(open) && returnMin == old(returnMin) && bookings == old(bookings)
      ensures alert == GenericError ==>
                && fields == Checked(old(fields))
                && open == old(open) && returnMin == old(returnMin) && bookings == old(bookings)
      ensures alert == Saved ==>
                && bookings == Some(Existing(old(bookings)) + [NewRecord(old(fields), savedAt)])
                && fields == Restored(old(fields))
                && returnMin == "" && !open
    {
      ghost var before := fields;
      var checked, valid, staged := Validate(fields);
      fields := checked;
      if fields[pickup].value != "" && fields[ret].value != "" && Less(fields[ret].value, fields[pickup].value) {
        fields := fields[ret := fields[ret].(error := true)];
        return DateError;
      }
      if !valid {
        return GenericError;
      }

      var existing := if bookings.Some? then bookings.value else [];
      bookings := Some(existing + [staged[SavedAtKey := savedAt]]);
      Reset();
      assert fields == Restored(before) by {
        assert before[..|fields|] == before;
      }
      returnMin := "";
      Close();
      alert := Saved;
    }
  }
}
