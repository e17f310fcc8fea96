/**
 * The appointment record the operator controller works on, and the
 * ActiveRecord scopes it uses, read as predicates over the record's fields.
 *
 * The model class that defines the scopes (`scheduled`, `not_checked_in`,
 * `checked_in`, `not_checked_out`, `checked_out`) is not part of this model;
 * each scope is taken to be the obvious test on the field it is named after.
 */
module Appointments {
  import opened Optional

  /** One row of the unit's appointments table; times are abstract instants. */
  datatype Appointment = Appointment(
    id: int,
    scheduled: bool,
    active: bool,
    checkedInAt: Option<int>,
    checkedOutAt: Option<int>,
    suspendReason: Option<string>,
    start: int,
    patientName: string
  )

  /** scope `scheduled`: the slot has been booked. */
  predicate IsScheduled(a: Appointment) {
    a.scheduled
  }

  /** scope `checked_in` (and its negation `not_checked_in`). */
  predicate IsCheckedIn(a: Appointment) {
    a.checkedInAt.Some?
  }

  /** scope `checked_out` (and its negation `not_checked_out`). */
  predicate IsCheckedOut(a: Appointment) {
    a.checkedOutAt.Some?
  }

  /**
   * The record invariant the reception workflow keeps: nobody leaves before
   * arriving, and a suspension reason is only recorded on an inactive
   * appointment.
   */
  predicate Consistent(a: Appointment) {
    && (a.checkedOutAt.Some? ==>
          a.checkedInAt.Some? && a.checkedInAt.value <= a.checkedOutAt.value)
    && (a.suspendReason.Some? ==> !a.active)
  }

  /** The reception stage the nullable fields encode together. */
  datatype Stage = Waiting | Suspended | CheckedIn | CheckedOut

  function StageOf(a: Appointment): Stage {
    if a.checkedOutAt.Some? then CheckedOut
    else if a.checkedInAt.Some? then CheckedIn
    else if !a.active then Suspended
    else Waiting
  }

  /**
   * Two records agree on everything except the suspension fields
   * (`active` and `suspend_reason`).
   */
  predicate SameExceptSuspension(a: Appointment, b: Appointment) {
    && a.id == b.id
    && a.scheduled == b.scheduled
    && a.checkedInAt == b.checkedInAt
    && a.checkedOutAt == b.checkedOutAt
    && a.start == b.start
    && a.patientName == b.patientName
  }
}
