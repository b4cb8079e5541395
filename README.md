# Travel platform admin console — a Dafny model

This project models the logic behind the admin console of a travel platform.
The console is a React front end for flight, hotel, attraction and review
bookings. The model covers:

- the generic **table**: date pre-formatting of rows, case-insensitive column
  filters, pagination, the date-filter conversion, the row menu and the
  two-step delete confirmation;
- the **confirmation dialog**: its type lookup with fallback, its prop
  defaults and the order in which it fires its callbacks;
- the **date display formatter** (`formatDate`);
- the **attraction and flight edit forms**: loading, validation, the error
  map on each keystroke, and the submission transform;
- the five **resource hooks**: record normalisation and the
  fetch/edit/delete (and reply) state machine over the collection, the
  loading flag and the error text;
- the two **dashboards**: the booking histograms, the top-k rankings, the
  chart series and the all-or-nothing join of eight reads;
- the table of **endpoint URLs**.

JavaScript values are modelled by a small datatype (`Js.JsValue`), with
JavaScript falsiness, `a || b`, `String(v)`, `Number(v)`, `trim`,
`toLowerCase`, `includes` and `split`. The network is abstract. Every call's
outcome (`Success(data)` or `Failure(message)`) is a parameter. Each
operation returns the requests it issues, so their order can be stated. React
state slots become class fields, and each handler becomes a method that
updates them. A handler's loop (the `forEach` over columns, the `reduce` into
a histogram) becomes a `for` loop proved against a function.

## Model

| member | source | states |
|---|---|---|
| Api.ItemUrls | src/constants/api.js:8-43 | for every resource, CREATE is the LIST URL, the UPDATE URL is the LIST URL plus `/` and the id, and DELETE and GET_BY_ID equal UPDATE |
| Api.ReplyUrl | src/constants/api.js:33-36 | REVIEW.REPLY(id) is REVIEW.UPDATE(id) followed by `/reply` |
| Api.UnderApiPrefix | src/constants/api.js:1-56 | every endpoint starts with `API_URL + "/api/"` |
| Api.ListUrlsDistinct | src/constants/api.js:8-43 | two resources with the same LIST URL are the same resource |
| Js.Or | src/hooks/useAttraction.js:23 | `a \|\| b` is one of its operands, and it is truthy iff either operand is |
| Js.Get | src/components/ui/Table.jsx:53 | reading a key the record lacks gives `undefined` |
| Js.ToStr | src/components/ui/Table.jsx:53 | `String(v)` of a string is that string |
| Js.ToNumber | src/pages/attraction/EditAttractionModal.jsx:86 | `Number(v)` is always a number or NaN |
| Js.Lower | src/components/ui/Table.jsx:53-54 | `toLowerCase` keeps the length |
| Js.LowerAt | src/components/ui/Table.jsx:53-54 | `toLowerCase` maps each character on its own, position by position |
| Js.StringToNumber | src/pages/attraction/EditAttractionModal.jsx:86 | `Number` of a string is always a number or NaN |
| Js.NumberOfIntString | src/pages/attraction/EditAttractionModal.jsx:117-119 | `Number(String(i))` is `i` for every integer |
| Js.IntToStringInjective | src/utilities/formatDate.js:24-28 | distinct integers render as distinct strings |
| Js.Trim | src/pages/flight/EditFlightModal.jsx:83 | a trimmed string that is not empty starts and ends with a non-whitespace character |
| Js.TrimBlank | src/pages/attraction/EditAttractionModal.jsx:61-67 | `!s.trim()` holds iff `s` is whitespace only |
| Js.ContainsIff | src/components/ui/Table.jsx:54 | `s.includes(t)` holds iff `t` occurs in `s` at some offset |
| Js.LowerIdempotent | src/components/ui/Table.jsx:53-54 | lower-casing twice gives the same as once |
| Js.Split | src/components/ui/Table.jsx:78 | `split` yields at least one part, and no part holds the separator |
| Js.SplitJoin | src/components/ui/Table.jsx:78-79 | joining the parts of a split gives back the string |
| Js.JoinSplit | src/components/ui/Table.jsx:117-121 | splitting the join of separator-free parts gives back the parts |
| Js.FirstPart | src/pages/attraction/EditAttractionModal.jsx:39 | `split(sep)[0]` is the prefix before the first separator; it is the whole string when there is no separator |
| FormFields.StringOr | src/pages/flight/EditFlightModal.jsx:23-26 | `String(x \|\| '')` is a string: `''` for a falsy `x`, `String(x)` otherwise, and `x` itself when `x` is a string |
| FormFields.SubmitId | src/pages/flight/EditFlightModal.jsx:79-81 | a falsy id becomes undefined; a truthy one becomes `Number(x)`, a number or NaN |
| FormFields.IdRoundTrip | src/pages/attraction/EditAttractionModal.jsx:117-119 | a numeric id loaded and submitted unchanged comes back as the same number, except 0, which comes back undefined |
| FormFields.BlankIsTrimEmpty | src/pages/flight/EditFlightModal.jsx:36-54 | the blank test used by the required-field rules is exactly "empty after trim" |
| FormFields.ErrorsAfterChange | src/pages/flight/EditFlightModal.jsx:66-72 | after a change the named field's error is falsy, and every other error is unchanged |
| FormFields.PutError | src/pages/flight/EditFlightModal.jsx:33-54 | one validation rule adds exactly its field with its message when it fails, and keeps every other entry; a map holding only non-empty string messages keeps that shape when the rule's message is non-empty |
| FormatDate.PadStart2 | src/utilities/formatDate.js:24 | `padStart(2, '0')` keeps the text as its suffix and fills up to length 2 with zeros |
| FormatDate.Format | src/utilities/formatDate.js:1-33 | a falsy input gives `''`; an unparseable input is returned unchanged; otherwise the output is the padded day, the month name and the year, in display shape |
| FormatDate.DisplayShape | src/utilities/formatDate.js:9-28 | every display text is two digits, a space, one of the twelve month names, a space, then an integer numeral |
| FormatDate.DayRoundTrip | src/utilities/formatDate.js:24 | the padded day is two digits that read back as the day |
| FormatDate.IntToStringNumeral | src/utilities/formatDate.js:26-28 | the year renders as an integer numeral that reads back as the year |
| FormatDate.DisplayRoundTrip | src/utilities/formatDate.js:24-28 | reading a display text back yields exactly the year, month index and day it was built from |
| FormatDate.DisplayInjective | src/utilities/formatDate.js:24-28 | two dates with the same display text have the same calendar fields |
| FormatDate.MonthNamesDistinct | src/utilities/formatDate.js:9-22 | the twelve month names are pairwise distinct |
| FormatDate.DisplayDashes | src/utilities/formatDate.js:24-28 | a display text holds at most one `-` (the sign of a negative year) |
| Modal.Lookup | src/components/ui/Modal.jsx:15-54 | a known type name selects its own configuration; one of the twelve names an object inherits from `Object.prototype` (`constructor`, `toString`, …) selects that inherited member, which is truthy, so no fallback happens; any other name selects `info` |
| Modal.UnknownTypeIsInfo | src/components/ui/Modal.jsx:15-54 | a name outside the four keys gets the `info` configuration unless it is an inherited prototype name, which gets the inherited member instead |
| Modal.Resolve | src/components/ui/Modal.jsx:42-54 | the configuration used is the lookup of the resolved type name |
| Modal.Defaults | src/components/ui/Modal.jsx:45-51 | omitted props give type `info`, "Confirm", "Cancel" and a visible cancel button; a given prop always wins |
| Modal.Buttons | src/components/ui/Modal.jsx:106-123 | the confirm button always comes first, with the resolved confirm text, and a cancel button exists iff `showCancel` |
| Modal.Press | src/components/ui/Modal.jsx:57-62 | pressing a button ends with exactly one `onClose(false)`; everything before it is `onConfirm`, which fires iff the button is confirm and `onConfirm` is given |
| Modal.ConfirmProtocol | src/components/ui/Modal.jsx:57-62 | confirm fires `onConfirm` (iff given) and then exactly one `onClose(false)`, as its last effect |
| Modal.CancelProtocol | src/components/ui/Modal.jsx:114-123 | cancel never fires `onConfirm`; it fires the same close as dismissing the dialog |
| AttractionForm.FormatDateForInput | src/pages/attraction/EditAttractionModal.jsx:35-44 | the result is a string without `T`, and a `T`-free string passes unchanged |
| AttractionForm.FormatDateForApi | src/pages/attraction/EditAttractionModal.jsx:47-56 | a falsy date gives null; otherwise the date text followed by `T12:00:00.000Z` |
| AttractionForm.VisitDateRoundTrip | src/pages/attraction/EditAttractionModal.jsx:35-56 | for a non-empty date without `T`, formatting for the input after formatting for the API gives the date back |
| AttractionForm.Loaded | src/pages/attraction/EditAttractionModal.jsx:18-32 | the loaded form keeps every other field of the record, and holds the five text fields as strings |
| AttractionForm.TicketError | src/pages/attraction/EditAttractionModal.jsx:83-92 | the ticket count passes iff it is non-empty and a number from 1 to 20; empty, below 1 or NaN, and above 20 each get their own message |
| AttractionForm.VisitDateError | src/pages/attraction/EditAttractionModal.jsx:69-77 | the visit date passes iff it is non-empty and is not a date before "now" (an unparseable date passes) |
| AttractionForm.FieldError | src/pages/attraction/EditAttractionModal.jsx:58-93 | a failing rule always carries a non-empty message |
| AttractionForm.FormErrors | src/pages/attraction/EditAttractionModal.jsx:58-93 | the error map has only the checked fields as keys, and each entry is a non-empty message string |
| AttractionForm.FormErrorsAt | src/pages/attraction/EditAttractionModal.jsx:58-93 | the error map holds a field iff that field's rule fails, with that rule's message, and no other key |
| AttractionForm.ValidIff | src/pages/attraction/EditAttractionModal.jsx:58-95 | the error map is empty iff every rule passes |
| AttractionForm.Submission | src/pages/attraction/EditAttractionModal.jsx:113-125 | ids are coerced (empty to undefined, otherwise `Number`), the visit date gets the fixed time, the ticket count becomes a number, and the other fields pass through |
| AttractionForm.SubmittedValid | src/pages/attraction/EditAttractionModal.jsx:113-134 | a form that passes validation submits a numeric ticket count from 1 to 20, `Number` of the two id strings, and the visit date with the fixed time |
| AttractionForm.LoadSubmitId | src/pages/attraction/EditAttractionModal.jsx:23-25 | a numeric id that is loaded and then submitted comes back unchanged, except 0 |
| AttractionForm.EditAttraction.constructor | src/pages/attraction/EditAttractionModal.jsx:7-16 | the form starts with six empty strings and no errors |
| AttractionForm.EditAttraction.Load | src/pages/attraction/EditAttractionModal.jsx:18-32 | a record replaces the form by its loaded form and clears the errors; no record changes nothing |
| AttractionForm.EditAttraction.ValidateForm | src/pages/attraction/EditAttractionModal.jsx:58-96 | the errors become the computed map, and the verdict is true iff that map is empty, iff every rule passes |
| AttractionForm.EditAttraction.HandleChange | src/pages/attraction/EditAttractionModal.jsx:98-111 | only the named field changes, and only its error is cleared |
| AttractionForm.EditAttraction.HandleSubmit | src/pages/attraction/EditAttractionModal.jsx:127-134 | `onSave` receives the submission of the form iff validation passes |
| FlightForm.Loaded | src/pages/flight/EditFlightModal.jsx:18-31 | the four ids are stringified (falsy to `''`), and every other field of the record is kept as it is |
| FlightForm.FieldError | src/pages/flight/EditFlightModal.jsx:33-54 | a failing rule always carries a non-empty message |
| FlightForm.FormErrors | src/pages/flight/EditFlightModal.jsx:33-54 | the error map has only the checked fields as keys, and each entry is a non-empty message string |
| FlightForm.FormErrorsAt | src/pages/flight/EditFlightModal.jsx:33-54 | the error map holds a field iff its rule fails (four blank-after-trim tests, one truthiness test for the seat class), with its message |
| FlightForm.ValidIff | src/pages/flight/EditFlightModal.jsx:33-57 | the error map is empty iff every rule passes |
| FlightForm.Submission | src/pages/flight/EditFlightModal.jsx:75-85 | the same keys as the form; the three ids are coerced, `passengerId` is trimmed and stays a string, and the other fields pass through |
| FlightForm.SubmittedValid | src/pages/flight/EditFlightModal.jsx:75-94 | a form that passes validation submits `Number` of the two id strings and a non-empty `passengerId` with no whitespace at either end |
| FlightForm.LoadSubmitId | src/pages/flight/EditFlightModal.jsx:23-25 | a numeric id that is loaded and then submitted comes back unchanged, except 0 |
| FlightForm.LoadedNameUnchecked | src/pages/flight/EditFlightModal.jsx:48 | validation of a loaded record can run only when its `passengerName` is a string, because that field is not stringified on load |
| FlightForm.EditFlight.constructor | src/pages/flight/EditFlightModal.jsx:7-16 | the form starts with six empty strings and no errors |
| FlightForm.EditFlight.Load | src/pages/flight/EditFlightModal.jsx:18-31 | a record replaces the form by its loaded form and clears the errors; no record changes nothing |
| FlightForm.EditFlight.ValidateForm | src/pages/flight/EditFlightModal.jsx:33-58 | with a non-string passenger name it throws and leaves the errors unchanged; otherwise the errors become the computed map, and the verdict is true iff it is empty |
| FlightForm.EditFlight.HandleChange | src/pages/flight/EditFlightModal.jsx:60-73 | only the named field changes, and only its error is cleared |
| FlightForm.EditFlight.HandleSubmit | src/pages/flight/EditFlightModal.jsx:87-94 | `onSave` receives the submission of the form iff validation runs and passes |
| ResourceStore.ErrorText | src/hooks/useAttraction.js:32-35 | the recorded error is the server message when it is truthy, the default text otherwise; it is never falsy |
| ResourceStore.MapRows | src/hooks/useAttraction.js:22 | normalising a response keeps its length |
| ResourceStore.MapRowsAppend | src/hooks/useAttraction.js:22 | normalisation maps record `i` to position `i` and distributes over concatenation, so it keeps the order |
| ResourceStore.Store.constructor | src/hooks/useAttraction.js:6-8 | an empty collection, not loading, and an empty error |
| ResourceStore.Store.Fetch | src/hooks/useAttraction.js:15-40 | while in flight: loading, with the error cleared; on success the collection is replaced by the normalised payload; on failure it is kept and the message recorded; loading always ends false |
| ResourceStore.Store.Fail | src/hooks/useAttraction.js:50-57 | a failed mutation records the message, or its default, and rejects with that text |
| ResourceStore.Store.Edit | src/hooks/useAttraction.js:42-58 | the error is cleared, then the PUT is sent; success re-fetches and resolves true; failure records the error and rejects, with no re-fetch |
| ResourceStore.Store.Delete | src/hooks/useAttraction.js:60-76 | the same protocol as edit, with a DELETE request |
| AttractionHook.Normalize | src/hooks/useAttraction.js:22-29 | `attractionBookingId` is `id` when truthy, else the old `attractionBookingId`; five fields are copied, and no other key exists |
| AttractionHook.NormalizeIdempotent | src/hooks/useAttraction.js:22-29 | normalising a normalised record changes nothing |
| AttractionHook.UseAttraction | src/hooks/useAttraction.js:5-80 | on mount the hook issues the list request and ends in the state the first fetch leaves |
| FlightHook.Normalize | src/hooks/useFlight.js:22-29 | `flightBookingId` falls back from `id`, `seatClass` from `seat` and `passengerName` from `name` when the first value is falsy; three fields are copied |
| FlightHook.NormalizeStable | src/hooks/useFlight.js:26-27 | normalising again changes nothing iff the seat class and passenger name are each truthy or undefined |
| FlightHook.UseFlight | src/hooks/useFlight.js:5-77 | on mount the hook issues the list request and ends in the state the first fetch leaves |
| HotelHook.Normalize | src/hooks/useHotel.js:22-31 | `hotelBookingId` is `id` when truthy, else the old `hotelBookingId`; the other seven fields are copied |
| HotelHook.NormalizeIdempotent | src/hooks/useHotel.js:22-31 | normalising a normalised record changes nothing |
| HotelHook.UseHotel | src/hooks/useHotel.js:5-79 | on mount the hook issues the list request and ends in the state the first fetch leaves |
| ReviewHook.Normalize | src/hooks/useReview.js:23-33 | `reviewId` is `id` when truthy, else the old `reviewId`; exactly nine keys |
| ReviewHook.NormalizeFields | src/hooks/useReview.js:23-33 | six fields are copied, and `createdAt`/`updatedAt` hold `formatDate` of the raw values |
| ReviewHook.FormatTwice | src/utilities/formatDate.js:1-33 | `formatDate` is idempotent on a non-date or on a date with a four-digit year, when the parser reads the display text of each date it produces with such a year back as that date |
| ReviewHook.NormalizeIdempotent | src/hooks/useReview.js:23-33 | under such a parser, and when both raw timestamps are non-dates or dates with four-digit years, normalising a normalised review changes nothing |
| ReviewHook.DisplayParserReadsBack | src/utilities/formatDate.js:9-28 | a parser of display texts meets the read-back hypothesis of the two lemmas above |
| ReviewHook.UseReview | src/hooks/useReview.js:6-99 | on mount the hook issues the list request and ends in the state the first fetch leaves |
| ReviewHook.AddReply | src/hooks/useReview.js:77-95 | `{ reply }` is posted without clearing the error; success re-fetches and resolves with the response payload; failure records the message or "Error adding reply" and rejects |
| BookingHook.Normalize | src/hooks/useBooking.js:30-36 | every field is kept, the raw timestamps are unchanged, and the two display fields are `formatDate` of them |
| BookingHook.NormalizeIdempotent | src/hooks/useBooking.js:30-36 | normalising a normalised booking changes nothing |
| BookingHook.FormatApiDate | src/hooks/useBooking.js:16-21 | a falsy date gives `''`, an unparseable one is returned unchanged, and a valid one becomes its ISO text |
| BookingHook.EditPayload | src/hooks/useBooking.js:49-53 | the patch is kept, with `createdAt` normalised and `updatedAt` set to the ISO text of now |
| BookingHook.FormatApiDateIdempotent | src/hooks/useBooking.js:16-21 | when the ISO formatter reads its own ISO text back unchanged, `formatApiDate` is idempotent |
| BookingHook.EditPayloadIdempotent | src/hooks/useBooking.js:49-53 | under such a formatter, building the payload from a payload built at the same "now" gives the same payload |
| BookingHook.UseBooking | src/hooks/useBooking.js:6-87 | on mount the hook issues the list request and ends in the state the first fetch leaves |
| BookingHook.EditBooking | src/hooks/useBooking.js:46-66 | the store's edit protocol, with the date-normalised payload as the PUT body |
| Table.FormatCell | src/components/ui/Table.jsx:37-45 | one column step rewrites only that column's key, keeps every key and its truthiness, and never touches a falsy value |
| Table.FormatRow | src/components/ui/Table.jsx:35-47 | pre-formatting keeps the keys, keeps each value's truthiness, and leaves falsy values alone |
| Table.FormatItem | src/components/ui/Table.jsx:36-46 | the `forEach` over columns computes the pre-formatted row |
| Table.FormattedData | src/components/ui/Table.jsx:35-47 | pre-formatting keeps the row count and each row's keys |
| Table.FormatRowFrame | src/components/ui/Table.jsx:35-47 | a key that no date column names is unchanged |
| Table.FormatRowDate | src/components/ui/Table.jsx:38-40 | with distinct column keys, a date column's truthy value becomes `formatDate` of it, and a falsy one is kept |
| Table.Visible | src/components/ui/Table.jsx:50-56 | filtering never yields more rows than it is given |
| Table.EntryPassesIff | src/components/ui/Table.jsx:50-56 | a filter entry passes a row iff its value is empty or its lower-cased value occurs in the lower-cased `String` of the row's cell |
| Table.VisibleMembers | src/components/ui/Table.jsx:50-56 | a row is shown iff it is a row of the data and every filter entry passes it |
| Table.VisibleSubsequence | src/components/ui/Table.jsx:50-56 | the shown rows are an order-preserving subsequence of the rows |
| Table.VisibleAppend | src/components/ui/Table.jsx:50-56 | filtering distributes over concatenation |
| Table.VisibleNoActiveFilter | src/components/ui/Table.jsx:52 | with no non-empty filter value every row is shown |
| Table.CaseInsensitive | src/components/ui/Table.jsx:53-54 | a filter value and its lower-cased form pass the same rows |
| Table.TotalPages | src/components/ui/Table.jsx:58 | `ceil(count / perPage)`: the least page count whose pages hold every row |
| Table.SliceIndex | src/components/ui/Table.jsx:61 | a slice index is clamped to the length, and an in-range index is itself |
| Table.PageWindow | src/components/ui/Table.jsx:58-61 | a page holds at most `itemsPerPage` rows, and it is the window from `(p-1)*n` to `min(p*n, length)` |
| Table.PageNonEmpty | src/components/ui/Table.jsx:58-65 | page `p >= 1` is non-empty iff `p <= totalPages`; nothing clamps the page |
| Table.PageStartBound | src/components/ui/Table.jsx:58-61 | page `p >= 1` starts before the last row iff `p <= totalPages` |
| Table.PagerGuards | src/components/ui/Table.jsx:429-443 | on a page from 1 to totalPages, "Previous" is disabled iff going back would leave page 1, and "Next" is disabled iff the next page is empty |
| Table.PagesPrefix | src/components/ui/Table.jsx:58-61 | pages 1 to k together are the first `k * n` rows |
| Table.PagesCoverAll | src/components/ui/Table.jsx:58-61 | walking pages 1 to totalPages shows every filtered row exactly once, in order |
| Table.EmptyTableNextEnabled | src/components/ui/Table.jsx:443 | with zero rows there are zero pages, yet "Next" is enabled on page 1 |
| Table.SwapDateFilter | src/components/ui/Table.jsx:76-80 | the conversion of a date filter, which `formatDateForInput` (lines 117-122) applies in the other direction: an empty value stays empty; any other value is split on `-` and its first three parts joined in reverse order (a missing part becomes "undefined") |
| Table.DateFilterRoundTrip | src/components/ui/Table.jsx:117-122 | a date typed as Y-M-D is stored as D-M-Y, and the date input shows Y-M-D again |
| Table.DateFilterMissesFormattedCell | src/components/ui/Table.jsx:50-80 | a stored date filter never matches a cell that pre-formatting rewrote to display form |
| Table.IsReviewPage | src/components/ui/Table.jsx:30-33 | the review test holds iff `/reviews` occurs in the path |
| Table.RowActions | src/components/ui/Table.jsx:289 | the menu offers Reply iff the path contains `/reviews`, and Edit and Delete otherwise |
| Table.PageChange | src/components/ui/Table.jsx:63-65 | only the page changes, to the given page |
| Table.ItemsPerPageChange | src/components/ui/Table.jsx:67-71 | the page size changes and the page goes back to 1; filters and slot are kept |
| Table.FilterChange | src/components/ui/Table.jsx:73-87 | only the entry for the key changes (date values stored as D-M-Y), and the page goes back to 1 |
| Table.ClearedFilters | src/components/ui/Table.jsx:89-92 | the filter map becomes empty and the page goes back to 1 |
| Table.DeleteClick | src/components/ui/Table.jsx:94-96 | the only change is the slot, which opens with the row |
| Table.DeleteConfirm | src/components/ui/Table.jsx:98-103 | `onDelete` is called at most once, iff a row is held and a callback is given, with that row; the slot is emptied |
| Table.CloseDelete | src/components/ui/Table.jsx:459 | the dialog's close empties the slot, and nothing else changes |
| Table.RunEffects | src/components/ui/Table.jsx:457-470 | running the dialog's effects changes only the slot, and a non-empty run leaves it closed |
| Table.Step | src/components/ui/Table.jsx:425-470 | every user event keeps the page at least 1 and the page size among the options |
| Table.Run | src/components/ui/Table.jsx:425-470 | any event sequence keeps the page at least 1 and the page size among the options |
| Table.ConfirmDeletes | src/components/ui/Table.jsx:457-470 | confirming an open dialog calls `onDelete` exactly when it holds a row (and a callback is given), with that row, and empties the slot |
| Table.CancelKeepsRows | src/components/ui/Table.jsx:459 | cancelling or dismissing empties the slot and calls nobody |
| Table.OnlyConfirmDeletes | src/components/ui/Table.jsx:94-103 | a step that calls `onDelete(x)` is a confirm on an open dialog that held `x`, and it leaves the slot empty |
| Table.StepSlot | src/components/ui/Table.jsx:94-103 | one step deletes at most the held row, at most once, and only on confirm |
| Table.DeleteNeedsConfirmation | src/components/ui/Table.jsx:94-103 | from the initial state, every deleted row was first picked by a "Delete" click; each deletion needs its own confirm; each pick is used at most once |
| Table.PageStaysPositive | src/components/ui/Table.jsx:425-443 | from the initial state, the page never drops below 1 |
| Table.NextPastEnd | src/components/ui/Table.jsx:439-443 | with no rows to show, "Next" still moves one page on, to an empty page |
| Table.TableState.constructor | src/components/ui/Table.jsx:22-25 | page 1, ten rows per page, no filters, a closed slot |
| Table.TableState.HandlePageChange | src/components/ui/Table.jsx:63-65 | the new state is the page-change step of the old one |
| Table.TableState.HandleItemsPerPageChange | src/components/ui/Table.jsx:67-71 | the new state is the page-size step of the old one |
| Table.TableState.HandleFilterChange | src/components/ui/Table.jsx:73-87 | the new state is the filter step of the old one, with the split-and-swap of a date value |
| Table.TableState.ClearFilters | src/components/ui/Table.jsx:89-92 | the new state is the clear step of the old one |
| Table.TableState.HandleDeleteClick | src/components/ui/Table.jsx:94-96 | the new state is the delete-click step of the old one |
| Table.TableState.HandleDeleteConfirm | src/components/ui/Table.jsx:98-103 | the new state and the calls are those of the confirm step |
| Table.TableState.CloseDeleteModal | src/components/ui/Table.jsx:459 | the new state is the close step of the old one |
| Table.TableState.FilteredData | src/components/ui/Table.jsx:35-56 | the pre-format loop and filter compute the shown rows |
| Table.TableState.CurrentData | src/components/ui/Table.jsx:58-61 | the current page's rows, never more than `itemsPerPage` |
| Table.TableState.Dispatch | src/components/ui/Table.jsx:425-470 | each event's handler leaves the state and calls of the pure step, and keeps the state valid |
| Table.TableState.RunDialogEffects | src/components/ui/Table.jsx:457-470 | running the dialog's callbacks in order leaves the state and calls of the pure run |
| Sorting.SortDescSpec | src/pages/dashboard/index.jsx:147 | the sorted copy is non-increasing by key, a permutation of the input, and stable among equal keys |
| Sorting.SortDesc | src/pages/dashboard/index.jsx:147 | the sorted copy has the input's length |
| Sorting.Take | src/hooks/useDashboard.js:42 | `slice(0, n)` is a prefix of length `min(n, length)` |
| Sorting.TopSpec | src/hooks/useDashboard.js:40-42 | sort-then-slice gives at most n elements of the input, non-increasing; a left-out element means the list is full and has a key no greater than any kept one |
| DashboardHook.DistinctOnce | src/hooks/useDashboard.js:27-31 | the histogram's keys are exactly the values that occur, each listed once |
| DashboardHook.Column | src/hooks/useDashboard.js:27-38 | the column of a field read by the `reduce` has one entry per booking |
| DashboardHook.CountsSum | src/hooks/useDashboard.js:27-32 | the histogram counts sum to the number of records |
| DashboardHook.Tally | src/hooks/useDashboard.js:27-38 | the `reduce` loop yields the distinct values in first-seen order, and for each one the number of records holding it |
| DashboardHook.TalliedEntries | src/hooks/useDashboard.js:40 | the histogram's entries are its keys paired with their occurrence counts |
| DashboardHook.EntriesOfColumn | src/hooks/useDashboard.js:34-40 | every entry is an attraction that occurs, with its count, and every attraction that occurs has its entry |
| DashboardHook.MostVisitedSpec | src/hooks/useDashboard.js:34-43 | at most ten entries, non-increasing by visits, each with that name's histogram count and no name twice; a missing name has no more visits than any listed one, and then the list is full |
| DashboardHook.NamelessCounted | src/hooks/useDashboard.js:34-38 | a booking without `attractionName` puts the key "undefined" into the histogram |
| DashboardHook.Dashboard.constructor | src/hooks/useDashboard.js:6-10 | zero bookings, empty histogram, empty ranking, loading, no error |
| DashboardHook.Dashboard.FetchBookingData | src/hooks/useDashboard.js:18-51 | on success: the total, the type histogram and the ranking are set, and the error is kept; on failure only the error is set; loading ends false either way |
| DashboardPage.Pluck | src/pages/dashboard/index.jsx:155 | a field projection keeps the length |
| DashboardPage.LatestSpec | src/pages/dashboard/index.jsx:146-148 | at most four bookings, newest first, taken from the response with their multiplicities; a booking left out is no newer than any shown, and then four are shown |
| DashboardPage.TypeChartOf | src/pages/dashboard/index.jsx:151-159 | one series named "Bookings"; its counts and the categories have the response's length and are index-aligned with each row's `count` and `type` |
| DashboardPage.YearChartOf | src/pages/dashboard/index.jsx:162-165 | the yearly counts and months have the response's length and are index-aligned with each row's `count` and `month` |
| DashboardPage.TopAttractionsSpec | src/pages/dashboard/index.jsx:176-178 | at most five attractions, non-increasing by booking count, taken from the response with their multiplicities; one left out has no greater count than any shown, and then five are shown |
| DashboardPage.MostFrequentSpec | src/pages/dashboard/index.jsx:220-223 | places and visits are aligned projections of the top attractions: at most five, by non-increasing count |
| DashboardPage.Reads | src/pages/dashboard/index.jsx:118-142 | eight reads, each a GET without a body to an endpoint under `API_URL + "/api/"` |
| DashboardPage.Dashboard.constructor | src/pages/dashboard/index.jsx:78-99 | loading, not mounted, no error, every section empty |
| DashboardPage.Dashboard.FetchDashboardData | src/pages/dashboard/index.jsx:107-196 | the eight reads are issued in order; if all succeed, every section is set from its payload (the satisfaction pair with its two labels included); if any fails, no section changes and the error becomes "Failed to fetch dashboard data"; loading ends false either way |
| DashboardPage.Dashboard.Mount | src/pages/dashboard/index.jsx:198-223 | after mounting, a failed fetch shows the error alert; a successful one shows the content built from the top attractions, unless an earlier error is still showing |

## Left out

- Numbers are integers plus NaN. Fractions, exponents, hexadecimal numerals and Infinity are not modelled in `Number(...)`, `String(...)` or the ticket count, so a decimal ticket count such as "2.5" is NaN in the model.
- Js.StringToNumber: model integers are exact and unbounded, while a JavaScript number is a double that rounds integers beyond 2^53. `Number("9007199254740993")` is 9007199254740992 at run time but stays exact here.
- FormFields.SubmitId: the same rounding is not modelled, so `FormFields.IdRoundTrip` also holds for ids beyond 2^53, where the runtime would round.
- Modal.Lookup: an inherited prototype name gives `Inherited(name)`. Rendering with it (its `icon` is undefined, so the render fails) is not modelled.
- ReviewHook.FormatTwice: a date whose year has fewer than four digits is outside the hypothesis, because the runtime reads a short year such as "50" in a display text as 1950. The same holds for ReviewHook.NormalizeIdempotent.
- `toLowerCase` is the ASCII mapping. Unicode case mapping is not modelled.
- JavaScript `Date` behaviour is not modelled; parameters stand in for it. Parsing for display is `FormatDate.DateParser`, the ISO text is `BookingHook.IsoFormatter`, and the time value of a date and "now" are functions and integers passed in. Time zones are therefore the runtime's.
- DashboardPage.LatestBookings: the comparator works on time values, and an Invalid Date (NaN) makes it inconsistent. The model orders by the integer that `time` gives, so it does not capture what the sort does with invalid dates.
- DashboardPage.BookingCount: a `bookingCount` that is not a number would make the comparator yield NaN. The model ranks such a count as 0.
- Sorting.SortDesc: `Array.prototype.sort` is the engine's own algorithm. It is stated as a stable insertion sort, and any stable sort by the same key gives the same result. The in-place reorder of the response arrays is not modelled, because nothing reads those arrays again.
- DashboardHook.Tally: the histogram is a map plus the keys in first-insertion order. An object lists integer-like keys first, so the model does not fix the order in which ties leave the ranking when names look like integers. Keys inherited from the object prototype (a `bookingType` named "constructor", say) are not modelled.
- Payloads are sequences of records and records hold primitives. A payload that is not an array, which would make `map`, `reduce` or `sort` throw, is not modelled. Nested objects in records are not modelled.
- DashboardHook.Dashboard.FetchBookingData: the caught error object is represented by its response message.
- JSX rendering is not modelled: the filter panel toggle `showFilters`, the dialog's title and description, CSS classes, charts, skeletons and the `isMounted` guard around the charts. `View` models only the three early returns and `mostFrequentData`.
- The auth header and `localStorage` are I/O and are not modelled. Neither is console logging.
- Unhandled promise rejections are not modelled. When `onDelete` rejects inside `handleDeleteConfirm`, the model keeps only the effect order (the slot is emptied by the dialog's `onClose`).
- Each outcome is applied at once, so the model does not interleave independent requests. Its in-flight view returns only the state while a request is pending. The nested in-flight state of the re-fetch inside an edit, a delete or a reply is not modelled.
- The five hooks' `fetch` functions are returned to their callers, and a later call behaves like `Store.Fetch`. The resource pages (`src/pages/*/index.jsx`) are not part of this model.
- Validation is modelled with `Object.keys(newErrors).length === 0` as `newErrors == map[]`. `validateForm` builds `newErrors` from scratch, so this is exact.

## Notes on the code

A few behaviours of the code are easy to miss. The model keeps them:

- "Next" is disabled only when `currentPage === totalPages`. When the filters match no row, `totalPages` is 0, so "Next" stays enabled on page 1 (`Table.EmptyTableNextEnabled`, `Table.NextPastEnd`).
- The dialog calls `onConfirm` without awaiting it and then calls `onClose(false)` at once. The slot is therefore cleared whether or not `onDelete` succeeds (`Modal.ConfirmProtocol`, `Table.ConfirmDeletes`).
- The flight form does not stringify `passengerName` on load. For a record without a string `passengerName`, `validateForm` throws before it sets the errors (`FlightForm.LoadedNameUnchecked`, `FlightForm.EditFlight.ValidateForm`).
- The attraction histogram of the booking dashboard is taken over all bookings. Bookings without an attraction name are counted under "undefined" (`DashboardHook.NamelessCounted`).
