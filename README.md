# Event manager: category names, edit form and event page

A model of the logic inside the React front end of a small event manager,
which reads events, categories and users and updates events through a REST
backend at `http://localhost:3000`. Three pieces are modelled:

- **Category-name resolution.** An event lists category ids; the view
  shows the names of the categories whose id is listed, in the order of
  the category collection, joined with `", "`. The event card compares ids
  with `includes` (SameValueZero). The event page compares them after
  `String` coercion. Both live in module `CategoryNames`, parameterised by
  `IdComparison`. The card itself is `EventDetail.Render`.
- **The edit form** (`EventEditForm.EditForm`). It holds a draft of the
  event's editable fields and a validation message. Inputs change one
  field at a time. The category checkboxes replace the id list with
  numbers. A submit is refused when the end time is not after the start
  time in string order. Otherwise the draft is PUT with its creator run
  through `parseInt`, and the effects that follow depend on whether the
  PUT succeeded. Effects (GETs, the PUT, toasts, parent callbacks,
  navigation) are recorded in order in the `effects` field.
- **The event page** (`EventPage.Page`). One load issues three GETs and
  reconciles the state fields with their settled outcome. The responses
  are checked in the order event, categories, users. The creator is found
  by strict id equality. The page renders by the precedence loading, then
  error, then content.

JavaScript values the components handle are modelled in `JsValues`:
numbers (unbounded integers), strings and NaN; `===`; `String(...)` of an
integer; `parseInt`; `Number(...)` of a string; and the `<=` order on
strings.

Every settled network outcome is a parameter: a `Response` with an ok
flag and a body, or for the page a `Batch` that is either `Rejected` with
the host's message or `Settled` with three responses. The host's date
handling in `formatDateTimeLocal` is the parameter `shiftedIso`. It holds
the shifted `toISOString` text, or `None` when the timestamp does not
parse.

Behaviour of the code that the model keeps as it is:

- The code has no guard against a stale response after a route change,
  and neither has the model: a load applies whatever it receives.
- The end-time message is never cleared; `EditForm.HandleSubmit` keeps it
  through later successful submits.
- A failed page load shows its error only when the message is truthy. A
  failure with an empty message stores `""`, which is falsy. The page then
  shows the event it loaded before, or fails to render (`RenderFailure`)
  if none loaded. It also hides an error shown before.
- The edit form only logs a failed fetch of the users or the event and
  keeps its draft as it was.

## Model

| member | source | states |
|---|---|---|
| JsValues.ParseIntOfNumeral | src/components/EventEditForm.jsx:102 | `parseInt` of an integer's decimal text gives that integer back |
| JsValues.NumberOfNumeral | src/components/EventEditForm.jsx:82 | `Number` of an integer's decimal text gives that integer back |
| JsValues.NumeralInjective | src/pages/EventPage.jsx:89 | distinct integers have distinct `String` texts |
| JsValues.NotLessEqIsLess | src/components/EventEditForm.jsx:89 | string `<=` fails exactly when the other order is strict; strict is `<=` and unequal |
| JsValues.LessEqTotal | src/components/EventEditForm.jsx:89 | any two strings are ordered one way or the other by `<=` |
| JsValues.LessEqAntisymmetric | src/components/EventEditForm.jsx:89 | strings ordered both ways by `<=` are equal |
| JsValues.LessEqTransitive | src/components/EventEditForm.jsx:89 | string `<=` is transitive |
| JsValues.LessOnDigitsIsNumeric | src/components/EventEditForm.jsx:89 | on equal-length digit strings, `<` is the order of their numeric values |
| CategoryNames.Stringified | src/pages/EventPage.jsx:89 | `ids.map(String)` keeps length and maps each id to its `String` text |
| CategoryNames.Listed | src/components/EventDetail.jsx:16 | whether a category id counts as listed: `includes` as is on the card, after `map(String)` on the page (src/pages/EventPage.jsx:89); see ListedMonotone, SameValueWithinCoerced, ComparisonsAgreeOnNumbers |
| CategoryNames.Matched | src/components/EventDetail.jsx:15-17 | the filter holds each category with a listed id as often as the collection does, no other category, in collection order |
| CategoryNames.MatchedIsUnique | src/components/EventDetail.jsx:15-17 | any order-preserving selection holding exactly the listed categories is the filter's result |
| CategoryNames.MatchedRespectsListing | src/components/EventDetail.jsx:15-17 | the result depends only on which of the collection's categories are listed |
| CategoryNames.ListedMonotone | src/components/EventDetail.jsx:16 | listing more ids never unlists a category id |
| CategoryNames.MatchedIgnoresIdOrderAndRepeats | src/components/EventDetail.jsx:15-17 | reordering or repeating ids in `categoryIds` changes nothing |
| CategoryNames.MatchedIgnoresUnknownId | src/components/EventDetail.jsx:15-17 | an id no category carries can be removed from `categoryIds` without effect |
| CategoryNames.StringifiedConcat | src/pages/EventPage.jsx:89 | `map(String)` distributes over concatenation |
| CategoryNames.SameValueWithinCoerced | src/pages/EventPage.jsx:88-90 | a category the card matches is also matched by the page's String-coerced comparison |
| CategoryNames.ComparisonsAgreeOnNumbers | src/pages/EventPage.jsx:88-90 | with numeric ids on both sides, the card and the page match the same categories |
| CategoryNames.ComparisonsDifferOnStringIds | src/pages/EventPage.jsx:88-90 | a string id "1" names category 1 on the page but not on the card |
| CategoryNames.Names | src/components/EventDetail.jsx:20-21 | the names of the matched categories, one per category, in order |
| CategoryNames.Join | src/components/EventDetail.jsx:22 | `join(sep)`: the parts with one separator between neighbours; see JoinAppend and JoinLength |
| CategoryNames.CategoryNamesText | src/components/EventDetail.jsx:15-22 | the matched names joined with ", "; see CardNamesAreTheListedCategories, SportsGamesExample, NoMatchNoText |
| CategoryNames.JoinAppend | src/components/EventDetail.jsx:20-22 | joining one more name adds the separator and the name, with no trailing separator |
| CategoryNames.JoinLength | src/components/EventDetail.jsx:20-22 | the joined text has the names' total length plus one separator between each two |
| CategoryNames.SportsGamesExample | src/components/EventDetail.jsx:15-22 | ids [2, 1] over categories 1 Sports, 2 Games, 3 Relaxation give "Sports, Games" |
| CategoryNames.NoMatchNoText | src/components/EventDetail.jsx:20-22 | when no category is listed the text is empty |
| EventDetail.Render | src/components/EventDetail.jsx:10-22 | placeholder exactly when the event or the collection is missing; otherwise the card links to the event and shows the SameValueZero-matched names |
| EventDetail.CardNamesAreTheListedCategories | src/components/EventDetail.jsx:15-22 | the card's text is the join of the names of the one order-preserving selection of listed categories |
| EventEditForm.WithField | src/components/EventEditForm.jsx:76-79 | the named field takes the input's text, every other field and the ids are unchanged |
| EventEditForm.WithFieldIsDetermined | src/components/EventEditForm.jsx:76-79 | that contract admits exactly one draft |
| EventEditForm.SelectedCategoryIds | src/components/EventEditForm.jsx:82 | one `Number` per checked box, same length and order |
| EventEditForm.CheckboxSelectionRoundTrip | src/components/EventEditForm.jsx:81-84 | checking numeral boxes stores their numbers, whose `String` texts are the checked boxes again |
| EventEditForm.Rejects | src/components/EventEditForm.jsx:89 | the refusal test `endTime <= startTime` on strings; see AcceptedIffEndAfterStart and ValidationIsChronological |
| EventEditForm.AcceptedIffEndAfterStart | src/components/EventEditForm.jsx:89-92 | a submit proceeds exactly when start is strictly before end in string order; equal times are refused |
| EventEditForm.EmptyDraftRejected | src/components/EventEditForm.jsx:22-31 | the draft before loading, with empty times, is refused |
| EventEditForm.MinuteDigits | src/components/EventEditForm.jsx:140 | an editable date-time has twelve date and time digits: year, month, day, hour and minute, in that order |
| EventEditForm.ValidationIsChronological | src/components/EventEditForm.jsx:89 | for editable date-times, refusal is exactly "end minute not after start minute" |
| EventEditForm.FormatDateTimeLocal | src/components/EventEditForm.jsx:133-141 | "" for an empty or unparsable timestamp, else the first up-to-16 characters of the shifted ISO text |
| EventEditForm.FormattedTimeIsEditable | src/components/EventEditForm.jsx:133-141 | a parsed timestamp comes out in the `YYYY-MM-DDTHH:MM` form |
| EventEditForm.DraftOf | src/components/EventEditForm.jsx:59-68 | the fetched event's editable fields with both times through `formatDateTimeLocal`; see EditForm.FetchEvent |
| EventEditForm.Body | src/components/EventEditForm.jsx:100-103 | the draft with `createdBy` run through `parseInt`; see BodyChangesOnlyCreator, EmptyCreatorIsNaN, BodyCreatorIsNumber |
| EventEditForm.BodyChangesOnlyCreator | src/components/EventEditForm.jsx:100-103 | the body is the draft except its creator, which is a number or NaN |
| EventEditForm.EmptyCreatorIsNaN | src/components/EventEditForm.jsx:100-103 | a creator never chosen (empty text) is NaN in the body object (the request carries null) |
| EventEditForm.BodyCreatorIsNumber | src/components/EventEditForm.jsx:100-103 | a creator held as a number or as its decimal text goes out as that number |
| EventEditForm.Callbacks | src/components/EventEditForm.jsx:118-119 | the optional parent callbacks after a successful update; see CallbacksAreTheGivenOnes |
| EventEditForm.CallbacksAreTheGivenOnes | src/components/EventEditForm.jsx:118-119 | each given callback runs once, `onClose` first |
| EventEditForm.AfterUpdate | src/components/EventEditForm.jsx:110-120 | success toast first, then exactly the given callbacks once each with `onClose` before `onUpdateEvents`, then one navigation to the event page, no request |
| EventEditForm.AfterUpdateCallsEachGivenCallbackOnce | src/components/EventEditForm.jsx:110-120 | each given callback exactly once, `onClose` before `onUpdateEvents`, no effect repeated, no request |
| EventEditForm.SubmitEffects | src/components/EventEditForm.jsx:86-131 | the effects of one submit; see RejectedSubmitSendsNothing, AcceptedSubmitSendsOnePut, FailedUpdateOnlyNotifies, SuccessfulUpdateOrder |
| EventEditForm.RejectedSubmitSendsNothing | src/components/EventEditForm.jsx:89-92 | a refused draft issues no effect |
| EventEditForm.AcceptedSubmitSendsOnePut | src/components/EventEditForm.jsx:94-104 | an accepted draft issues exactly one PUT of the body, first |
| EventEditForm.FailedUpdateOnlyNotifies | src/components/EventEditForm.jsx:106-107 | after a failed PUT only the error toast follows: no callback, no navigation |
| EventEditForm.SuccessfulUpdateOrder | src/components/EventEditForm.jsx:110-120 | after a successful PUT: success toast, then exactly the given callbacks with `onClose` first, then one navigation to the event page |
| EventEditForm.EditForm.constructor | src/components/EventEditForm.jsx:22-33 | empty draft, no users, empty message, no effects |
| EventEditForm.EditForm.FetchUsers | src/components/EventEditForm.jsx:35-49 | one GET of the users; the list is replaced only on an ok response |
| EventEditForm.EditForm.FetchEvent | src/components/EventEditForm.jsx:51-74 | one GET of the event; an ok response replaces the draft with the event's fields, times formatted; a failure keeps the draft |
| EventEditForm.EditForm.HandleChange | src/components/EventEditForm.jsx:76-79 | the draft becomes `WithField` of the old draft |
| EventEditForm.EditForm.HandleCategoryChange | src/components/EventEditForm.jsx:81-84 | the ids are replaced by the selection's numbers, nothing else changes |
| EventEditForm.EditForm.HandleSubmit | src/components/EventEditForm.jsx:86-131 | the draft never changes; the message is set on refusal and never cleared; the effects are those of the submit |
| EventEditForm.EditForm.AfterSuccessfulUpdate | src/components/EventEditForm.jsx:110-120 | appends the success sequence |
| EventPage.LoadRequests | src/pages/EventPage.jsx:33-37 | the three GETs of one load, event first, then categories, then users; see LoadUrls and Page.FetchEventData |
| EventPage.LoadUrls | src/pages/EventPage.jsx:33-37 | the URLs of one load's GETs are `http://localhost:3000/events/<id>`, `http://localhost:3000/categories` and `http://localhost:3000/users` |
| EventPage.Failure | src/pages/EventPage.jsx:39-47 | a load fails iff rejected or a response is not ok; the message names the first failing response in the order event, categories, users |
| EventPage.FindCreator | src/pages/EventPage.jsx:53-55 | the first user whose id is `===` to the creator, or none exactly when no user's id is |
| EventPage.StrictCreatorLookup | src/pages/EventPage.jsx:53-55 | a creator given as the text "n" does not find user n; the number n does |
| EventPage.Reconcile | src/pages/EventPage.jsx:30-65 | loading ends; a failure stores its message and keeps the data; a success stores the data and creator and keeps the error |
| EventPage.LastFailure | src/pages/EventPage.jsx:61-62 | no failure is recorded exactly when every load succeeded |
| EventPage.Truthy | src/pages/EventPage.jsx:81 | the stored error counts only when it is a non-empty string; see View and EmptyFailureHidesError |
| EventPage.View | src/pages/EventPage.jsx:80-116 | loading wins, then a truthy error, then content with String-coerced names and the creator; a null event with a falsy error fails to render |
| EventPage.RunFromInitial | src/pages/EventPage.jsx:25-26 | after loads from the start, loading holds iff none settled, and the error is the latest failure's message |
| EventPage.ErrorNeverCleared | src/pages/EventPage.jsx:57-62 | whatever loads follow, an error once set is never reset to null |
| EventPage.ErrorIsSticky | src/pages/EventPage.jsx:57-81 | once the error is truthy and no later failure has an empty message, the page stays on an error view |
| EventPage.EmptyFailureHidesError | src/pages/EventPage.jsx:61-81 | a failure with an empty message shows no error view, even over an earlier error; the earlier event shows, or the render fails when none loaded |
| EventPage.SuccessAfterFailureShowsError | src/pages/EventPage.jsx:57-62 | a success after a failure with a non-empty message still shows that message |
| EventPage.SettledPageShowsErrorOrEvent | src/pages/EventPage.jsx:80-81 | once loaded, and no failure's message is empty, the page shows the latest failure if any load failed and the event otherwise, never a partial view |
| EventPage.LastFailureIsAFailure | src/pages/EventPage.jsx:61-62 | the recorded message is the failure of one of the loads, and every later load succeeded |
| EventPage.Page.constructor | src/pages/EventPage.jsx:22-27 | loading, no error, modal closed, no data, no request |
| EventPage.Page.FetchEventData | src/pages/EventPage.jsx:30-65 | three GETs in order; the state becomes `Reconcile` of the old state |
| EventPage.Page.HandleEdit | src/pages/EventPage.jsx:71-73 | the modal opens, nothing else changes |
| EventPage.Page.HandleCloseEditModal | src/pages/EventPage.jsx:75-78 | the modal closes and exactly one load runs |

## Left out

- Network I/O, `Promise.all` concurrency and the order in which responses arrive are not modelled: each load's outcome is a settled parameter, and loads apply in the order given.
- JSON parsing of response bodies is not modelled; a body that fails to parse, or lacks a field, is outside the model.
- EventEditForm.BodyChangesOnlyCreator: `JSON.stringify` of the PUT body is not modelled; the recorded body is the object before serialization, so a NaN `createdBy` is recorded as NaN where the request carries `null`.
- React rendering, JSX, Chakra components, hook scheduling and the router are left out; the views are datatypes and navigation is an effect.
- Locale formatting (`toLocaleString`, `toLocaleTimeString`) and the host's date parsing, time-zone offset and `toISOString` are host calls; the shifted ISO text is a parameter.
- Console logging and the toast texts are left out; only the toast kind is recorded.
- DeleteButton, EditButton and EventEditModal are not part of this model, so whether the modal's close causes a second load cannot be stated.
- Numbers are unbounded integers: floating point, `-0`, precision beyond 2^53 and `Infinity` are not modelled.
- JsValues.ToNumber: fractional, exponent, `Infinity`, binary and octal forms give NaN rather than their number.
- JsValues.ParseInt: reads decimal and `0x` hexadecimal integers; it does not model digits beyond a number's precision.
- JsValues.IsWhiteSpace: covers the ASCII whitespace, NBSP, BOM and the line and paragraph separators, not the other Unicode space separators.
- JsValues.LessEq: compares by Unicode scalar values, not UTF-16 code units; they differ only outside the Basic Multilingual Plane.
- A change of the route's `eventId` while the page is mounted is not modelled; `eventId` is fixed per page and per form.
- EventEditForm.EditForm.HandleChange: only the seven named inputs are modelled, not a `name` that adds a new key to the draft.
