# Operator appointments: listing and reception guards

A Dafny model of the reception logic in the operator's appointments controller of
the vaccination scheduling system (`app/controllers/operator/appointments_controller.rb`).
A health unit's operator works from a list of today's scheduled appointments. They
filter it by reception state or search it by text. They check a patient in, check
them out with the vaccine given, and suspend or reactivate an appointment.

The model has five modules:

- `Optional`: `Option`, standing in for Ruby's `nil`.
- `Appointments`: the appointment record, with `scheduled`, `active`, `checkedInAt`,
  `checkedOutAt`, `suspendReason`, `start` and `patientName`. The ActiveRecord scopes
  (`scheduled`, `checked_in`, `checked_out` and their negations) are read as the
  obvious test on the field each is named after; the model class that defines them is
  not part of this model. It also holds the reception stage the nullable fields encode
  (`Waiting | Suspended | CheckedIn | CheckedOut`) and the record invariant
  `Consistent`: check-out implies an earlier check-in, and a suspension reason implies
  an inactive record. The controller's guards are stated against these.
- `Ordering`: the listing order. Rows are sorted by `start` ascending, then by the
  lowercased patient name ascending. The order is proved to be a total preorder, and
  a functional insertion sort is proved to produce it as a permutation of its input.
- `Listing`: `FILTERS`, the effective filter of `filter(search(...))`, the per-filter
  scopes, the page-size clamp and the whole `index` action up to the page offset.
- `Reception`: `check_in`, `check_out`, `suspend` and `activate` as functions from the
  unit's appointment store (a map from id to record) and the request's inputs to an
  `Outcome`. The outcomes are `NotFound`, `OutsideWindow`, `MissingVaccine`, an opaque
  hand-over to ReceptionService, or the updated store. This module also holds the
  branch of `notice_for_checked_out`.

Inputs the controller takes from code that is not shown become parameters:

- `in_allowed_check_in_window?` is a predicate on the appointment.
- The full-text `search_for` scope is a predicate `matches(query, appointment)`.
- The `today` and `scheduled` scopes of `index` are assumed already applied to the
  candidate rows.

Three consequences of the lookup scopes are stated as lemmas:

- The `waiting` scope chain is `not_checked_in.not_checked_out`, which ignores `active`,
  so suspended appointments are listed as waiting (`Listing.WaitingListsSuspended`).
- The check-in lookup is `scheduled.not_checked_in`, which also ignores `active`, so a
  suspended appointment inside its window proceeds to check-in
  (`Reception.SuspendedStillChecksIn`).
- The check-out lookup is `scheduled.not_checked_out` only, so a waiting appointment
  that was never checked in can be checked out directly (`Reception.CheckOutWithoutCheckIn`).

## Model

| member | source | states |
|---|---|---|
| `Listing.ParseFilter` | app/controllers/operator/appointments_controller.rb:5-11 | a requested keyword is recognised exactly when it is one of the five `FILTERS` values, and it is then the filter whose value it is |
| `Listing.KeywordRoundTrip` | app/controllers/operator/appointments_controller.rb:5-11 | every filter's value is in `FILTERS.values` and reads back as that same filter |
| `Listing.EffectiveFilter` | app/controllers/operator/appointments_controller.rb:102-124 | a present query of at least 3 characters forces `search` whatever filter was requested; otherwise the requested value is used when it is one of the five, else `waiting`; the result is always one of the five |
| `Listing.ShortOrBlankQueryNeverSearches` | app/controllers/operator/appointments_controller.rb:119-127 | a missing, blank or under-3-character query never enters search mode: `search` passes the rows through unchanged and the filter falls back to the requested or default one |
| `Listing.Keeps` | app/controllers/operator/appointments_controller.rb:106-115 | on consistent records each filter's scope chain keeps exactly the stages the filter shows: `waiting` the waiting and suspended ones, `checked_in` and `checked_out` their own stage, `all` and `search` every stage |
| `Listing.Where` | app/controllers/operator/appointments_controller.rb:106-115 | narrowing a relation keeps exactly the rows satisfying the condition, each as often as in the input, so the result is a sub-multiset of the input |
| `Listing.SearchStep` | app/controllers/operator/appointments_controller.rb:119-127 | `search` narrows by the search predicate only when the query guard holds, and passes the rows through unchanged otherwise |
| `Listing.PerPage` | app/controllers/operator/appointments_controller.rb:25 | the page size always lies in [10, 10000]; it is the requested number when that is in range, 10 below it (including a missing value read as 0) and 10000 above it |
| `Listing.Index` | app/controllers/operator/appointments_controller.rb:14-25 | for every request, the reported filter is the effective filter and the page size is the clamped `per_page`; the rows are ordered by start time and then lowercased name; each candidate appears exactly as often as in the input when it passes the effective filter (and the search, in search mode) and not at all otherwise |
| `Listing.FiltersFollowStages` | app/controllers/operator/appointments_controller.rb:106-115 | on consistent records, `waiting` keeps the waiting and suspended stages, `checked_in` keeps the checked-in stage and `checked_out` keeps the checked-out stage; every record is in exactly one of the three lists |
| `Listing.WaitingListsSuspended` | app/controllers/operator/appointments_controller.rb:107-108 | a suspended, not checked-in candidate is listed under the `waiting` filter |
| `Listing.SearchKeywordWithoutQueryListsAll` | app/controllers/operator/appointments_controller.rb:104-115 | requesting `filter=search` without a usable query lists every candidate, with no search and no state scope |
| `Ordering.Lower` | app/controllers/operator/appointments_controller.rb:23 | `lower(name)` spells the same name up to ASCII letter case and leaves no upper-case ASCII letter |
| `Ordering.LowerIdentifiesCaseVariants` | app/controllers/operator/appointments_controller.rb:23 | two names lowercase to the same key exactly when they differ only in ASCII letter case |
| `Ordering.ListedBeforeIgnoresCase` | app/controllers/operator/appointments_controller.rb:21-23 | two appointments at the same start whose names differ only in letter case may be listed in either order: the tie-break ignores case |
| `Ordering.LexLeTotal` | app/controllers/operator/appointments_controller.rb:23 | any two names are comparable in the name order |
| `Ordering.LexLeTransitive` | app/controllers/operator/appointments_controller.rb:23 | the name order is transitive |
| `Ordering.LexLeAntisymmetric` | app/controllers/operator/appointments_controller.rb:23 | two names each at most the other are equal |
| `Ordering.ListedBeforeTotal` | app/controllers/operator/appointments_controller.rb:21-23 | any two appointments are comparable by (start, lowercased name) |
| `Ordering.ListedBeforeTransitive` | app/controllers/operator/appointments_controller.rb:21-23 | the (start, lowercased name) order is transitive |
| `Ordering.Insert` | app/controllers/operator/appointments_controller.rb:21-23 | inserting into an ordered listing gives an ordered listing holding the old rows plus the new one |
| `Ordering.SortListing` | app/controllers/operator/appointments_controller.rb:21-23 | the sorted listing is ordered by (start, lowercased name) and is a permutation of its input |
| `Reception.Find` | app/controllers/operator/appointments_controller.rb:49-49 | `find(id)` computed directly on the store agrees with `find` on the relation narrowed by the scope chain: the record when the narrowed relation holds the id, not found otherwise |
| `Reception.CheckIn` | app/controllers/operator/appointments_controller.rb:48-55 | not found exactly when the `scheduled.not_checked_in` lookup fails, before the window is consulted; on consistent records the lookup admits exactly the waiting and suspended stages; a refusal is the window's; proceeding hands over the stored record, which is inside its window |
| `Reception.CheckOut` | app/controllers/operator/appointments_controller.rb:62-71 | not found exactly when the `scheduled.not_checked_out` lookup fails, whatever vaccine was chosen; on consistent records any scheduled stage but checked-out passes; a missing or unknown vaccine is refused; proceeding carries the stored record and the catalog's vaccine |
| `Reception.Suspend` | app/controllers/operator/appointments_controller.rb:78-80 | applies exactly to scheduled, not checked-in records; it sets `active` false and the reason, changes no other field and no other record, and takes a consistent record to the suspended stage |
| `Reception.Activate` | app/controllers/operator/appointments_controller.rb:89-91 | applies exactly to scheduled records; it sets `active` true and clears the reason, changes no other field and no other record, keeps consistency, takes waiting or suspended to waiting and leaves checked-in and checked-out as they were |
| `Reception.ActivateIdempotent` | app/controllers/operator/appointments_controller.rb:89-91 | activating an activated store again changes nothing |
| `Reception.SuspendThenActivate` | app/controllers/operator/appointments_controller.rb:78-91 | suspend followed by activate always succeeds, restores `active` and clears the reason; a record that was active with no reason, and with it the whole store, is restored exactly |
| `Reception.SuspendedStillChecksIn` | app/controllers/operator/appointments_controller.rb:49 | a just-suspended appointment inside its window still proceeds to check-in |
| `Reception.CheckOutWithoutCheckIn` | app/controllers/operator/appointments_controller.rb:63-71 | a scheduled, waiting (never checked-in) appointment with a known vaccine proceeds to check-out |
| `Reception.NoticeForCheckedOut` | app/controllers/operator/appointments_controller.rb:137-146 | no notice (the `nil.start` error) exactly when the dose has a follow-up but there is no next appointment; otherwise the follow-up notice is chosen exactly when the dose has a follow-up, carries the dose's sequence number and the next appointment's start, and both notices name the patient |
| `Reception.NoticeForLinkedFollowUp` | app/controllers/operator/appointments_controller.rb:137-146 | when the next appointment is the dose's follow-up, a notice always results: the follow-up notice dated at the follow-up's start, or the last-dose notice when there is no follow-up |

## Left out

- ReceptionService is not part of this model. That covers check-in timestamping, dose creation, sequence numbers and follow-up scheduling. A successful check-in or check-out is the opaque outcome `CheckInProceeds` / `CheckOutProceeds`, and the model invents none of their effects.
- `in_allowed_check_in_window?` and the clock it reads are not shown. The window is a predicate parameter.
- The matching strategy of `search_for` is not shown. It is a predicate parameter.
- The `today` and `scheduled` scopes of `index`, the `includes(:patient)` eager loading and `set_ubs` unit scoping are left out. Candidate rows and the store are already the unit's.
- `joins(:patient)` is an inner join, needed by the order on `patients.name`. It is assumed to drop nothing, because every modelled candidate is scheduled and carries a patient name; an appointment without a patient row would vanish from the real listing.
- Page offsets (`.page`) belong to the pagination library. Only the per-page clamp is modelled.
- `per_page.to_i` string parsing is left out. The page size arrives as an integer, 0 when missing.
- `Ordering.Lower`: lowercases ASCII letters only, and names compare by code point. The database's `lower` and collation are locale-dependent.
- `show`, HTML/XLSX rendering, the Content-Disposition header, redirects, flash messages and I18n formatting are presentation. The notice is returned as a datatype before formatting; the whole `check_out` redirect is not composed with it.
- `Reception.Suspend` assumes `params[:appointment]` is present. The scoped lookup runs first, so a missing or ineligible id is still not found; but when the record is found and `params[:appointment]` is missing, reading the reason raises before `update!`, and the model does not represent that crash.
- `vaccine_id` parsing is left out. `Vaccine.find_by id:` type-casts the raw string parameter (an empty string becomes `nil`, `"12x"` becomes 12); the model takes the already-cast id as an `Option<int>`, `None` for `nil`.
- `Listing.Index`: takes `search_for` to be a pure row predicate that adds no ordering. Its definition is not shown, and an `ORDER BY` inside it would come ahead of `start` because ActiveRecord's `.order` appends, so the proved listing order in search mode rests on this assumption.
- Validation failures of `update!` and the transactionality and concurrency of the database writes are left out.
