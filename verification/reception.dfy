/**
 * The reception actions of the operator controller (`check_in`,
 * `check_out`, `suspend`, `activate`) and the check-out notice.
 *
 * Each action first finds the appointment through a relation narrowed by
 * state scopes, so an appointment in the wrong state is "not found" exactly
 * like a missing id. A guard may then refuse the request without any
 * change. `check_in` and `check_out` hand the appointment to
 * ReceptionService, which is not part of this model: their success is the
 * opaque outcome `CheckInProceeds` / `CheckOutProceeds`. `suspend` and
 * `activate` update the record themselves, and their effect is modelled
 * on the unit's appointment store, a map from id to record.
 */
module Reception {
  import opened Optional
  import opened Appointments

  /** A vaccine row as `Vaccine.find_by id:` returns it. */
  datatype Vaccine = Vaccine(id: int, name: string)

  /** What an action does with the request. */
  datatype Outcome =
    | NotFound                                        // the scoped `find` raised RecordNotFound
    | OutsideWindow                                   // check-in refused by the window guard
    | MissingVaccine                                  // check-out refused: no vaccine found
    | CheckInProceeds(target: Appointment)            // handed to ReceptionService#check_in
    | CheckOutProceeds(target: Appointment, vaccine: Vaccine) // handed to ReceptionService#check_out
    | Updated(store: map<int, Appointment>)           // the action's own `update!` took place

  /** The unit's appointments narrowed by a scope chain: the relation `find` runs on. */
  function Narrow(store: map<int, Appointment>, scope: Appointment -> bool): map<int, Appointment> {
    map k | k in store && scope(store[k]) :: store[k]
  }

  /**
   * `find(id)` on the narrowed relation, computed on the whole store: the
   * record is returned exactly when the narrowed relation holds its id.
   */
  function Find(store: map<int, Appointment>, id: int, scope: Appointment -> bool): (r: Option<Appointment>)
    ensures r == if id in Narrow(store, scope) then Some(Narrow(store, scope)[id]) else None
  {
    if id in store && scope(store[id]) then Some(store[id]) else None
  }

  /** `scheduled.not_checked_in`: the lookup of `check_in` and `suspend`. */
  predicate NotYetCheckedIn(a: Appointment) {
    IsScheduled(a) && !IsCheckedIn(a)
  }

  /** `scheduled.not_checked_out`: the lookup of `check_out`. */
  predicate NotYetCheckedOut(a: Appointment) {
    IsScheduled(a) && !IsCheckedOut(a)
  }

  /**
   * `check_in`. `inWindow` stands for `in_allowed_check_in_window?`, whose
   * definition (and clock) is not part of this model.
   */
  function CheckIn(store: map<int, Appointment>, id: int, inWindow: Appointment -> bool): (r: Outcome)
    ensures r.NotFound? || r.OutsideWindow? || r.CheckInProceeds?
    ensures r.NotFound? <==> !(id in store && NotYetCheckedIn(store[id]))
    ensures id in store && Consistent(store[id]) ==>
              (!r.NotFound? <==> IsScheduled(store[id]) && StageOf(store[id]) in {Waiting, Suspended})
    ensures r.OutsideWindow? ==> id in store && !inWindow(store[id])
    ensures r.CheckInProceeds? ==> id in store && r.target == store[id] && inWindow(r.target)
  {
    match Find(store, id, NotYetCheckedIn)
    case None => NotFound
    case Some(a) => if !inWindow(a) then OutsideWindow else CheckInProceeds(a)
  }

  /**
   * `check_out`. The appointment is looked up before the vaccine, so a
   * failed lookup is "not found" whatever vaccine was chosen. `catalog` is
   * the vaccines table and `vaccineId` the permitted `vaccine_id`.
   */
  function CheckOut(store: map<int, Appointment>, id: int,
                    catalog: map<int, Vaccine>, vaccineId: Option<int>): (r: Outcome)
    ensures r.NotFound? || r.MissingVaccine? || r.CheckOutProceeds?
    ensures r.NotFound? <==> !(id in store && NotYetCheckedOut(store[id]))
    ensures id in store && Consistent(store[id]) ==>
              (!r.NotFound? <==> IsScheduled(store[id]) && StageOf(store[id]) != CheckedOut)
    ensures r.MissingVaccine? ==> vaccineId.None? || vaccineId.value !in catalog
    ensures r.CheckOutProceeds? ==>
              && id in store && r.target == store[id]
              && vaccineId.Some? && vaccineId.value in catalog && r.vaccine == catalog[vaccineId.value]
  {
    match Find(store, id, NotYetCheckedOut)
    case None => NotFound
    case Some(a) =>
      if vaccineId.None? || vaccineId.value !in catalog then MissingVaccine
      else CheckOutProceeds(a, catalog[vaccineId.value])
  }

  /**
   * `suspend`: marks a scheduled, not checked-in appointment inactive with
   * the given reason (`nil` when the form sent none).
   */
  function Suspend(store: map<int, Appointment>, id: int, reason: Option<string>): (r: Outcome)
    ensures r.NotFound? || r.Updated?
    ensures r.Updated? <==> id in store && NotYetCheckedIn(store[id])
    ensures r.Updated? ==>
              && r.store.Keys == store.Keys
              && (forall k :: k in store && k != id ==> r.store[k] == store[k])
              && !r.store[id].active
              && r.store[id].suspendReason == reason
              && SameExceptSuspension(store[id], r.store[id])
              && (Consistent(store[id]) ==>
                    Consistent(r.store[id]) && StageOf(r.store[id]) == Suspended)
  {
    match Find(store, id, NotYetCheckedIn)
    case None => NotFound
    case Some(a) => Updated(store[id := a.(active := false, suspendReason := reason)])
  }

  /** `scheduled`: the lookup of `activate`. */
  function Activate(store: map<int, Appointment>, id: int): (r: Outcome)
    ensures r.NotFound? || r.Updated?
    ensures r.Updated? <==> id in store && IsScheduled(store[id])
    ensures r.Updated? ==>
              && r.store.Keys == store.Keys
              && (forall k :: k in store && k != id ==> r.store[k] == store[k])
              && r.store[id].active
              && r.store[id].suspendReason.None?
              && SameExceptSuspension(store[id], r.store[id])
              && (Consistent(store[id]) ==> Consistent(r.store[id]))
              && (StageOf(store[id]) in {Waiting, Suspended} ==> StageOf(r.store[id]) == Waiting)
              && (StageOf(store[id]) in {CheckedIn, CheckedOut} ==> StageOf(r.store[id]) == StageOf(store[id]))
  {
    match Find(store, id, IsScheduled)
    case None => NotFound
    case Some(a) => Updated(store[id := a.(active := true, suspendReason := None)])
  }

  /** Activating twice is activating once. */
  lemma ActivateIdempotent(store: map<int, Appointment>, id: int)
    requires Activate(store, id).Updated?
    ensures Activate(Activate(store, id).store, id) == Activate(store, id)
  {
  }

  /**
   * Suspending and then activating restores the record except for the
   * reason it had before, which is cleared; a record that was active with no
   * reason comes back exactly, and so does the whole store.
   */
  lemma SuspendThenActivate(store: map<int, Appointment>, id: int, reason: Option<string>)
    requires Suspend(store, id, reason).Updated?
    ensures Activate(Suspend(store, id, reason).store, id).Updated?
    ensures Activate(Suspend(store, id, reason).store, id).store ==
              store[id := store[id].(active := true, suspendReason := None)]
    ensures store[id].active && store[id].suspendReason.None? ==>
              Activate(Suspend(store, id, reason).store, id).store == store
  {
  }

  /**
   * Suspension does not close the check-in lookup: a suspended appointment
   * inside its window still proceeds to check-in.
   */
  lemma SuspendedStillChecksIn(store: map<int, Appointment>, id: int, reason: Option<string>,
                               inWindow: Appointment -> bool)
    requires Suspend(store, id, reason).Updated?
    requires inWindow(Suspend(store, id, reason).store[id])
    ensures CheckIn(Suspend(store, id, reason).store, id, inWindow).CheckInProceeds?
  {
  }

  /**
   * Check-out does not require a check-in: a waiting appointment with a
   * known vaccine proceeds to ReceptionService.
   */
  lemma CheckOutWithoutCheckIn(store: map<int, Appointment>, id: int,
                               catalog: map<int, Vaccine>, v: int)
    requires id in store && IsScheduled(store[id]) && StageOf(store[id]) == Waiting
    requires v in catalog
    ensures CheckOut(store, id, catalog, Some(v)) == CheckOutProceeds(store[id], catalog[v])
  {
  }

  /** The dose ReceptionService#check_out records, as far as the notice reads it. */
  datatype Dose = Dose(sequenceNumber: int, followUpAppointment: Option<Appointment>)

  /** The value ReceptionService#check_out returns, as far as the notice reads it. */
  datatype CheckOutReport = CheckOutReport(dose: Dose, nextAppointment: Option<Appointment>)

  /** The two check-out notices, before I18n formatting. */
  datatype Notice =
    | DoseReceivedWithFollowUp(name: string, sequenceNumber: int, date: int)
    | LastDoseReceived(name: string)

  /**
   * `notice_for_checked_out`. The branch tests the dose's follow-up but reads
   * the date from `next_appointment`; when the dose has a follow-up and there
   * is no next appointment, `nil.start` raises and no notice results (`None`).
   */
  function NoticeForCheckedOut(c: CheckOutReport, a: Appointment): (n: Option<Notice>)
    ensures n.None? <==> c.dose.followUpAppointment.Some? && c.nextAppointment.None?
    ensures n.Some? ==> n.value.name == a.patientName
    ensures n.Some? ==> (n.value.DoseReceivedWithFollowUp? <==> c.dose.followUpAppointment.Some?)
    ensures n.Some? && n.value.DoseReceivedWithFollowUp? ==>
              n.value.sequenceNumber == c.dose.sequenceNumber && n.value.date == c.nextAppointment.value.start
  {
    if c.dose.followUpAppointment.Some? then
      if c.nextAppointment.None? then None
      else Some(DoseReceivedWithFollowUp(a.patientName, c.dose.sequenceNumber, c.nextAppointment.value.start))
    else
      Some(LastDoseReceived(a.patientName))
  }

  /**
   * When the report's next appointment is the dose's follow-up, a notice is
   * always produced: the follow-up notice dated at the follow-up's start
   * when there is one, the last-dose notice otherwise.
   */
  lemma NoticeForLinkedFollowUp(c: CheckOutReport, a: Appointment)
    requires c.nextAppointment == c.dose.followUpAppointment
    ensures NoticeForCheckedOut(c, a).Some?
    ensures c.dose.followUpAppointment.Some? ==>
              NoticeForCheckedOut(c, a).value
                == DoseReceivedWithFollowUp(a.patientName, c.dose.sequenceNumber, c.dose.followUpAppointment.value.start)
    ensures c.dose.followUpAppointment.None? ==>
              NoticeForCheckedOut(c, a).value == LastDoseReceived(a.patientName)
  {
  }
}
