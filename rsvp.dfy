/**
 * The RSVP form: four inputs with their error displays, the list of
 * accepted RSVPs, and the submit and edit handlers. A valid submission
 * appends one line to the list and shows the confirmation modal.
 */
module Rsvp {
  import opened Validation
  import opened Decimal
  import opened Modal
  import opened Wrappers

  /** The separator between the parts of a list line: space, em dash, space. */
  const Sep: string := " \U{2014} "

  /** The text of one RSVP list item. */
  function EntryLine(name: string, email: string, guests: nat, lift: string): string {
    name + Sep + email + Sep + DecimalString(guests) + " guest(s)" + Sep + "Fav Lift: " + lift
  }

  /** A line starts with the name, ends with the lift choice and shows the count's digits. */
  lemma EntryLineShows(name: string, email: string, guests: nat, lift: string)
    ensures var line := EntryLine(name, email, guests, lift);
            && OccursAt(line, name, 0)
            && OccursAt(line, email, |name| + |Sep|)
            && OccursAt(line, DecimalString(guests), |name| + |Sep| + |email| + |Sep|)
            && OccursAt(line, lift, |line| - |lift|)
  {
  }

  /** The list line an accepted submission adds: name and email trimmed, lift as chosen. */
  function Entry(v: FormValues): (r: string)
    requires Accepted(v)
    ensures OccursAt(r, Trim(v.name), 0) && Trim(v.name) != ""
    ensures |v.lift| <= |r| && OccursAt(r, v.lift, |r| - |v.lift|)
  {
    var name, email := Trim(v.name), Trim(v.email);
    AcceptedTrims(v);
    EntryLineShows(name, email, v.guests.value, v.lift);
    EntryLine(name, email, v.guests.value, v.lift)
  }

  /** The inputs after `form.reset()` and `guests = 1`. */
  const ResetValues: FormValues := FormValues("", "", Number(1), "")

  /** `a` and `b` hold the same values in every input other than field `f`. */
  predicate AgreeOutside(a: FormValues, b: FormValues, f: Field) {
    && (f == NameField || a.name == b.name)
    && (f == EmailField || a.email == b.email)
    && (f == GuestsField || a.guests == b.guests)
    && (f == LiftField || a.lift == b.lift)
  }

  class RsvpForm {
    var values: FormValues      // what the four inputs hold
    var invalid: seq<bool>      // per field, in `Fields` order: class `invalid` and aria-invalid="true"
    var errorText: seq<string>  // per field: the text of its `.error-text` slot
    var entries: seq<string>    // the texts of the items of the RSVP list, oldest first
    const modal: ModalController

    ghost predicate Valid()
      reads this, modal
    {
      |invalid| == |Fields| && |errorText| == |Fields| && modal.Valid()
    }

    /** The form as the markup starts it: no errors shown and an empty list. */
    constructor (initial: FormValues, modal: ModalController)
      requires modal.Valid()
      ensures Valid()
      ensures this.modal == modal && values == initial
      ensures invalid == [false, false, false, false] && errorText == ["", "", "", ""]
      ensures entries == []
    {
      values := initial;
      invalid := [false, false, false, false];
      errorText := ["", "", "", ""];
      entries := [];
      this.modal := modal;
    }

    /** showError: mark field `i` invalid and show `message` in its slot. */
    method ShowError(i: nat, message: string)
      requires Valid() && i < |Fields|
      modifies this
      ensures Valid()
      ensures invalid == old(invalid)[i := true] && errorText == old(errorText)[i := message]
      ensures values == old(values) && entries == old(entries)
    {
      invalid := invalid[i := true];
      errorText := errorText[i := message];
    }

    /** clearError: drop field `i`'s invalid mark and empty its slot. */
    method ClearError(i: nat)
      requires Valid() && i < |Fields|
      modifies this
      ensures Valid()
      ensures invalid == old(invalid)[i := false] && errorText == old(errorText)[i := ""]
      ensures values == old(values) && entries == old(entries)
    {
      invalid := invalid[i := false];
      errorText := errorText[i := ""];
    }

    /**
     * An `input` or `change` event on field `i`, after which the inputs hold
     * `edited` (only field `i` differs): the field's error display is cleared
     * without re-validating.
     */
    method Input(i: nat, edited: FormValues)
      requires Valid() && i < |Fields|
      requires AgreeOutside(values, edited, Fields[i])
      modifies this
      ensures Valid()
      ensures values == edited
      ensures invalid == old(invalid)[i := false] && errorText == old(errorText)[i := ""]
      ensures entries == old(entries)
    {
      values := edited;
      ClearError(i);
    }

    /**
     * The validation pass of the submit handler: every field is checked, none
     * skipped, and each shows its message exactly when it fails.
     */
    method ValidateAll() returns (valid: bool)
      requires Valid()
      modifies this
      ensures Valid()
      ensures valid <==> Accepted(values)
      ensures values == old(values) && entries == old(entries)
      ensures forall j :: 0 <= j < |Fields| ==> (invalid[j] <==> !Passes(values, Fields[j]))
      ensures forall j :: 0 <= j < |Fields| ==>
                errorText[j] == (if Passes(values, Fields[j]) then "" else Message(Fields[j]))
    {
      valid := true;
      var i := 0;
      while i < |Fields|
        invariant 0 <= i <= |Fields|
        invariant Valid()
        invariant values == old(values) && entries == old(entries)
        invariant forall j :: 0 <= j < i ==> (invalid[j] <==> !Passes(values, Fields[j]))
        invariant forall j :: 0 <= j < i ==>
                    errorText[j] == (if Passes(values, Fields[j]) then "" else Message(Fields[j]))
        invariant valid <==> forall j :: 0 <= j < i ==> Passes(values, Fields[j])
      {
        if !Passes(values, Fields[i]) {
          ShowError(i, Message(Fields[i]));
          valid := false;
        } else {
          ClearError(i);
        }
        i := i + 1;
      }
      AcceptedIff(values);
    }

    /**
     * The submit handler. A rejected form changes nothing beyond the error
     * displays; an accepted one appends its line to the list, shows the modal
     * for it and resets the inputs.
     */
    method Submit()
      requires Valid()
      modifies this, modal
      ensures Valid()
      ensures forall j :: 0 <= j < |Fields| ==> (invalid[j] <==> !Passes(old(values), Fields[j]))
      ensures forall j :: 0 <= j < |Fields| ==>
                errorText[j] == (if Passes(old(values), Fields[j]) then "" else Message(Fields[j]))
      ensures !Accepted(old(values)) ==>
                && entries == old(entries) && values == old(values)
                && unchanged(modal)
      ensures Accepted(old(values)) ==>
                && entries == old(entries) + [Entry(old(values))]
                && values == ResetValues
                && modal.Displays(Trim(old(values).name), old(values).guests.value, old(values).lift)
                && modal.nameText == Trim(old(values).name)
                && modal.timeoutId == Some(old(modal.nextId)) && modal.nextId == old(modal.nextId) + 1
                && modal.pending == Cleared(old(modal.pending), old(modal.timeoutId))
                                      + [Timer(old(modal.nextId), AutoHide)]
    {
      var valid := ValidateAll();
      if !valid {
        return;
      }
      var v := values;
      AcceptedTrims(v);
      var name, email, guests, lift := Trim(v.name), Trim(v.email), v.guests.value, v.lift;
      entries := entries + [EntryLine(name, email, guests, lift)];
      modal.Show(name, guests, lift);
      values := ResetValues;
    }
  }
}
