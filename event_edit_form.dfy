/** The event edit form: a draft of the event's editable fields that the
    inputs change one at a time, a validation of the time order before
    submitting, and the update request with what follows it. */
module EventEditForm {
  import opened JsValues
  import opened Wrappers
  import opened Records
  import CategoryNames

  const EndTimeError := "End time must be after start time"

  /** The form's draft (`formData`). The times are in the editable
      `YYYY-MM-DDTHH:MM` form; `createdBy` is whatever the fetched event or
      the user select put there. */
  datatype Draft = Draft(
    title: string,
    description: string,
    image: string,
    location: string,
    startTime: string,
    endTime: string,
    categoryIds: seq<Value>,
    createdBy: Value)

  /** The draft the form starts from, before the event has been fetched. */
  const EmptyDraft := Draft("", "", "", "", "", "", [], Str(""))

  /** The named inputs whose changes `handleChange` applies. */
  datatype Field = Title | Description | Image | Location | StartTime | EndTime | CreatedBy

  function FieldValue(d: Draft, f: Field): Value {
    match f
    case Title => Str(d.title)
    case Description => Str(d.description)
    case Image => Str(d.image)
    case Location => Str(d.location)
    case StartTime => Str(d.startTime)
    case EndTime => Str(d.endTime)
    case CreatedBy => d.createdBy
  }

  /** `{ ...formData, [name]: value }`: the named field takes the input's
      text, every other field keeps its value. */
  function WithField(d: Draft, f: Field, value: string): (r: Draft)
    ensures FieldValue(r, f) == Str(value)
    ensures forall g :: g != f ==> FieldValue(r, g) == FieldValue(d, g)
    ensures r.categoryIds == d.categoryIds
  {
    match f
    case Title => d.(title := value)
    case Description => d.(description := value)
    case Image => d.(image := value)
    case Location => d.(location := value)
    case StartTime => d.(startTime := value)
    case EndTime => d.(endTime := value)
    case CreatedBy => d.(createdBy := Str(value))
  }

  /** A draft is determined by its field values and its category ids, so
      the contract of `WithField` leaves it no freedom. */
  lemma WithFieldIsDetermined(d: Draft, f: Field, value: string, r: Draft)
    requires FieldValue(r, f) == Str(value)
    requires forall g :: g != f ==> FieldValue(r, g) == FieldValue(d, g)
    requires r.categoryIds == d.categoryIds
    ensures r == WithField(d, f, value)
  {
    var w := WithField(d, f, value);
    forall g ensures FieldValue(r, g) == FieldValue(w, g) {
      if g != f {
        assert FieldValue(r, g) == FieldValue(d, g);
      }
    }
    assert FieldValue(r, Title) == FieldValue(w, Title);
    assert FieldValue(r, Description) == FieldValue(w, Description);
    assert FieldValue(r, Image) == FieldValue(w, Image);
    assert FieldValue(r, Location) == FieldValue(w, Location);
    assert FieldValue(r, StartTime) == FieldValue(w, StartTime);
    assert FieldValue(r, EndTime) == FieldValue(w, EndTime);
    assert FieldValue(r, CreatedBy) == FieldValue(w, CreatedBy);
  }

  /** `selectedCategories.map(Number)`: one number per checked box, in the
      order the checkbox group reports them. */
  function SelectedCategoryIds(selected: seq<string>): (r: seq<Value>)
    ensures |r| == |selected|
    ensures forall i :: 0 <= i < |selected| ==> r[i] == ToNumber(selected[i])
  {
    if selected == [] then [] else [ToNumber(selected[0])] + SelectedCategoryIds(selected[1..])
  }

  /** The checkbox group shows `categoryIds.map(String)`: checking boxes
      whose values are numerals stores their numbers, and the group then
      shows exactly the boxes that were checked. */
  lemma {:induction false} CheckboxSelectionRoundTrip(selected: seq<string>, ids: seq<int>)
    requires |ids| == |selected|
    requires forall i :: 0 <= i < |selected| ==> selected[i] == ToJsString(Num(ids[i]))
    ensures forall i :: 0 <= i < |selected| ==> SelectedCategoryIds(selected)[i] == Num(ids[i])
    ensures CategoryNames.Stringified(SelectedCategoryIds(selected)) == selected
  {
    forall i | 0 <= i < |selected|
      ensures SelectedCategoryIds(selected)[i] == Num(ids[i])
    {
      NumberOfNumeral(ids[i]);
    }
  }

  // ---------------------------------------------------------------------
  // Validation

  /** `formData.endTime <= formData.startTime`: the submit is refused. */
  predicate Rejects(d: Draft) {
    LessEq(d.endTime, d.startTime)
  }

  /** A submit goes ahead exactly when the end time is strictly after the
      start time in string order; equal times are refused. */
  lemma AcceptedIffEndAfterStart(d: Draft)
    ensures !Rejects(d) <==> Less(d.startTime, d.endTime)
    ensures d.startTime == d.endTime ==> Rejects(d)
  {
    NotLessEqIsLess(d.startTime, d.endTime);
  }

  /** A draft whose event never loaded has two empty times and is refused. */
  lemma EmptyDraftRejected()
    ensures Rejects(EmptyDraft)
  {
  }

  /** The editable local date-time form `YYYY-MM-DDTHH:MM`. */
  predicate IsDateTimeLocal(t: string) {
    && |t| == 16
    && t[4] == '-' && t[7] == '-' && t[10] == 'T' && t[13] == ':'
    && forall i :: 0 <= i < 16 && i != 4 && i != 7 && i != 10 && i != 13 ==> IsDigit(t[i], 10)
  }

  /** The twelve digits `YYYYMMDDHHMM` of a local date-time. */
  function MinuteDigits(t: string): (r: string)
    requires IsDateTimeLocal(t)
    ensures |r| == 12 && AllDigits(r, 10)
    ensures r[..4] == t[..4] && r[4..6] == t[5..7] && r[6..8] == t[8..10]
    ensures r[8..10] == t[11..13] && r[10..] == t[14..]
  {
    Drop(Drop(Drop(Drop(t, 13), 10), 7), 4)
  }

  /** The number `YYYYMMDDHHMM`: year, month, day, hour and minute in
      decreasing significance, so it orders date-times chronologically. */
  function MinuteStamp(t: string): nat
    requires IsDateTimeLocal(t)
  {
    DigitsValue(MinuteDigits(t), 10)
  }

  /** For two times in the editable form, the string comparison the submit
      uses is the chronological one: the draft is refused exactly when the
      end minute is not after the start minute. */
  lemma ValidationIsChronological(d: Draft)
    requires IsDateTimeLocal(d.startTime) && IsDateTimeLocal(d.endTime)
    ensures Rejects(d) <==> MinuteStamp(d.endTime) <= MinuteStamp(d.startTime)
  {
    var a, b := d.startTime, d.endTime;
    NotLessEqIsLess(a, b);
    SharedCharacterIrrelevant(a, b, 13);
    var a1, b1 := Drop(a, 13), Drop(b, 13);
    SharedCharacterIrrelevant(a1, b1, 10);
    var a2, b2 := Drop(a1, 10), Drop(b1, 10);
    SharedCharacterIrrelevant(a2, b2, 7);
    var a3, b3 := Drop(a2, 7), Drop(b2, 7);
    SharedCharacterIrrelevant(a3, b3, 4);
    LessOnDigitsIsNumeric(MinuteDigits(a), MinuteDigits(b));
  }

  // ---------------------------------------------------------------------
  // Loading the event into the draft

  function Min(a: int, b: int): int {
    if a <= b then a else b
  }

  /** `formatDateTimeLocal(dateString)`. The host's work — parsing the
      timestamp, shifting it by the time-zone offset and printing it with
      `toISOString` — is the argument `shiftedIso`, None when the timestamp
      does not parse. The result is empty for an empty timestamp or an
      unparsable one, and otherwise the first sixteen characters of the
      shifted ISO text, `.slice(0, 16)`. */
  function FormatDateTimeLocal(dateString: string, shiftedIso: Option<string>): (r: string)
    ensures |r| <= 16
    ensures dateString == [] || shiftedIso.None? ==> r == []
    ensures dateString != [] && shiftedIso.Some? ==>
      r <= shiftedIso.value && |r| == Min(16, |shiftedIso.value|)
  {
    if dateString == [] then ""
    else if shiftedIso.None? then ""
    else shiftedIso.value[..Min(16, |shiftedIso.value|)]
  }

  /** The shape `toISOString` prints: `YYYY-MM-DDTHH:MM:SS.sssZ`. */
  predicate IsIsoString(s: string) {
    && |s| == 24
    && IsDateTimeLocal(s[..16])
    && s[16] == ':' && s[19] == '.' && s[23] == 'Z'
    && IsDigit(s[17], 10) && IsDigit(s[18], 10)
    && IsDigit(s[20], 10) && IsDigit(s[21], 10) && IsDigit(s[22], 10)
  }

  /** A timestamp that parses comes out in the editable form, cut at the
      minute: so the validation of a freshly loaded draft compares minutes
      chronologically. */
  lemma FormattedTimeIsEditable(dateString: string, iso: string)
    requires dateString != [] && IsIsoString(iso)
    ensures FormatDateTimeLocal(dateString, Some(iso)) == iso[..16]
    ensures IsDateTimeLocal(FormatDateTimeLocal(dateString, Some(iso)))
  {
  }

  /** The draft `fetchEvent` builds from the fetched event. */
  function DraftOf(e: Event, startIso: Option<string>, endIso: Option<string>): Draft {
    Draft(e.title, e.description, e.image, e.location,
          FormatDateTimeLocal(e.startTime, startIso), FormatDateTimeLocal(e.endTime, endIso),
          e.categoryIds, e.createdBy)
  }

  // ---------------------------------------------------------------------
  // Submitting

  /** `{ ...formData, createdBy: parseInt(formData.createdBy) }`: the draft
      with its creator read as a number. */
  function Body(d: Draft): Draft {
    d.(createdBy := ParseIntValue(d.createdBy))
  }

  /** The body differs from the draft in its creator alone, which is a
      number or NaN, never text. */
  lemma BodyChangesOnlyCreator(d: Draft)
    ensures Body(d).createdBy.Num? || Body(d).createdBy.NaN?
    ensures Body(d).(createdBy := d.createdBy) == d
  {
  }

  /** The creator goes out as the number it names, whether the draft holds
      it as the fetched number or as the select's text ("3" becomes 3). */
  lemma BodyCreatorIsNumber(d: Draft, n: int)
    requires d.createdBy == Num(n) || d.createdBy == Str(ToJsString(Num(n)))
    ensures Body(d).createdBy == Num(n)
  {
    ParseIntOfNumeral(n);
  }

  /** A draft whose creator was never chosen (the initial draft, or the
      select's empty option) has NaN as its creator in the body object; the
      serialized request carries `null` there. */
  lemma EmptyCreatorIsNaN(d: Draft)
    requires d.createdBy == Str("")
    ensures Body(d).createdBy == NaN
  {
  }

  datatype ToastKind = SuccessToast | ErrorToast

  /** What the form does to the outside world, in order. */
  datatype Effect =
    | Get(resource: Endpoint)
    | Put(resource: Endpoint, body: Draft)
    | ShowToast(kind: ToastKind)
    | CallOnClose
    | CallOnUpdateEvents
    | Navigate(path: string)

  /** The optional parent callbacks after a successful update:
      `if (onClose) onClose(); if (onUpdateEvents) onUpdateEvents();` */
  function Callbacks(hasOnClose: bool, hasOnUpdateEvents: bool): seq<Effect> {
    (if hasOnClose then [CallOnClose] else []) + (if hasOnUpdateEvents then [CallOnUpdateEvents] else [])
  }

  /** The callbacks are exactly the given ones, each once, `onClose` first. */
  lemma CallbacksAreTheGivenOnes(hasOnClose: bool, hasOnUpdateEvents: bool)
    ensures var r := Callbacks(hasOnClose, hasOnUpdateEvents);
      && (CallOnClose in r <==> hasOnClose)
      && (CallOnUpdateEvents in r <==> hasOnUpdateEvents)
      && (forall e :: e in r ==> e == CallOnClose || e == CallOnUpdateEvents)
      && (hasOnClose ==> r[0] == CallOnClose)
      && (forall i, j :: 0 <= i < j < |r| ==> r[i] != r[j])
  {
    if hasOnClose && hasOnUpdateEvents {
      assert Callbacks(hasOnClose, hasOnUpdateEvents) == [CallOnClose, CallOnUpdateEvents];
    }
  }

  /** What follows a successful update: a success toast, the optional
      close and update callbacks in that order, and the navigation to the
      event's page, last. */
  function AfterUpdate(eventId: string, hasOnClose: bool, hasOnUpdateEvents: bool): (r: seq<Effect>)
    ensures |r| >= 2
    ensures r[0] == ShowToast(SuccessToast)
    ensures r[|r| - 1] == Navigate(EventPath(eventId))
    ensures r[1..|r| - 1] == Callbacks(hasOnClose, hasOnUpdateEvents)
  {
    [ShowToast(SuccessToast)] + Callbacks(hasOnClose, hasOnUpdateEvents) + [Navigate(EventPath(eventId))]
  }

  /** After a successful update each given callback runs, exactly once,
      `onClose` before `onUpdateEvents`, there is one toast and one
      navigation, and no request is made. */
  lemma AfterUpdateCallsEachGivenCallbackOnce(eventId: string, hasOnClose: bool, hasOnUpdateEvents: bool)
    ensures var r := AfterUpdate(eventId, hasOnClose, hasOnUpdateEvents);
      && (CallOnClose in r <==> hasOnClose)
      && (CallOnUpdateEvents in r <==> hasOnUpdateEvents)
      && (forall i, j :: 0 <= i < j < |r| ==> r[i] != r[j])
      && (forall i, j :: 0 <= i < |r| && 0 <= j < |r| && r[i] == CallOnClose && r[j] == CallOnUpdateEvents ==> i < j)
      && (forall e :: e in r ==> !e.Put? && !e.Get?)
  {
    var toast, nav := ShowToast(SuccessToast), Navigate(EventPath(eventId));
    var r := AfterUpdate(eventId, hasOnClose, hasOnUpdateEvents);
    if hasOnClose && hasOnUpdateEvents {
      assert r == [toast, CallOnClose, CallOnUpdateEvents, nav];
    } else if hasOnClose {
      assert r == [toast, CallOnClose, nav];
    } else if hasOnUpdateEvents {
      assert r == [toast, CallOnUpdateEvents, nav];
    } else {
      assert r == [toast, nav];
    }
  }

  /** What one submit does, in order: nothing when the draft is refused;
      otherwise the PUT of the body to the event's resource, followed on
      success by `AfterUpdate` and on failure by an error toast. */
  function SubmitEffects(eventId: string, d: Draft, hasOnClose: bool, hasOnUpdateEvents: bool,
                         putOk: bool): seq<Effect>
  {
    if Rejects(d) then []
    else
      [Put(EventResource(eventId), Body(d))]
      + if putOk then AfterUpdate(eventId, hasOnClose, hasOnUpdateEvents) else [ShowToast(ErrorToast)]
  }

  /** A refused draft sends nothing. */
  lemma RejectedSubmitSendsNothing(eventId: string, d: Draft, hasOnClose: bool, hasOnUpdateEvents: bool,
                                   putOk: bool)
    requires Rejects(d)
    ensures SubmitEffects(eventId, d, hasOnClose, hasOnUpdateEvents, putOk) == []
  {
  }

  /** An accepted draft sends exactly one PUT, first, carrying the body. */
  lemma AcceptedSubmitSendsOnePut(eventId: string, d: Draft, hasOnClose: bool, hasOnUpdateEvents: bool,
                                  putOk: bool)
    requires !Rejects(d)
    ensures var r := SubmitEffects(eventId, d, hasOnClose, hasOnUpdateEvents, putOk);
      && |r| >= 2
      && r[0] == Put(EventResource(eventId), Body(d))
      && forall i :: 0 < i < |r| ==> !r[i].Put?
  {
    var tail := if putOk then AfterUpdate(eventId, hasOnClose, hasOnUpdateEvents) else [ShowToast(ErrorToast)];
    if putOk {
      AfterUpdateCallsEachGivenCallbackOnce(eventId, hasOnClose, hasOnUpdateEvents);
    }
    var r := [Put(EventResource(eventId), Body(d))] + tail;
    assert SubmitEffects(eventId, d, hasOnClose, hasOnUpdateEvents, putOk) == r;
    forall i | 0 < i < |r| ensures !r[i].Put? {
      assert r[i] == tail[i - 1] && tail[i - 1] in tail;
    }
  }

  /** After a failed PUT only the error toast follows: no callback runs and
      the page is not left. */
  lemma FailedUpdateOnlyNotifies(eventId: string, d: Draft, hasOnClose: bool, hasOnUpdateEvents: bool)
    requires !Rejects(d)
    ensures var r := SubmitEffects(eventId, d, hasOnClose, hasOnUpdateEvents, false);
      && r[1..] == [ShowToast(ErrorToast)]
      && CallOnClose !in r && CallOnUpdateEvents !in r
      && forall i :: 0 <= i < |r| ==> !r[i].Navigate?
  {
  }

  /** After a successful PUT: the success toast, then `onClose` if given,
      then `onUpdateEvents` if given, and the navigation to the event's
      page last. */
  lemma SuccessfulUpdateOrder(eventId: string, d: Draft, hasOnClose: bool, hasOnUpdateEvents: bool)
    requires !Rejects(d)
    ensures var r := SubmitEffects(eventId, d, hasOnClose, hasOnUpdateEvents, true);
      && r[1] == ShowToast(SuccessToast)
      && r[|r| - 1] == Navigate(EventPath(eventId))
      && r[2..|r| - 1] == Callbacks(hasOnClose, hasOnUpdateEvents)
      && (CallOnClose in r <==> hasOnClose)
      && (CallOnUpdateEvents in r <==> hasOnUpdateEvents)
      && forall i, j :: 0 <= i < |r| && 0 <= j < |r| && r[i] == CallOnClose && r[j] == CallOnUpdateEvents ==> i < j
  {
    var after := AfterUpdate(eventId, hasOnClose, hasOnUpdateEvents);
    AfterUpdateCallsEachGivenCallbackOnce(eventId, hasOnClose, hasOnUpdateEvents);
    var put := Put(EventResource(eventId), Body(d));
    assert SubmitEffects(eventId, d, hasOnClose, hasOnUpdateEvents, true) == [put] + after;
    PrependKeepsCallbackOrder(put, after);
  }

  /** Putting a non-callback effect in front keeps the callbacks' order. */
  lemma PrependKeepsCallbackOrder(first: Effect, rest: seq<Effect>)
    requires first != CallOnClose && first != CallOnUpdateEvents
    requires forall i, j :: 0 <= i < |rest| && 0 <= j < |rest| && rest[i] == CallOnClose && rest[j] == CallOnUpdateEvents ==> i < j
    ensures var r := [first] + rest;
      forall i, j :: 0 <= i < |r| && 0 <= j < |r| && r[i] == CallOnClose && r[j] == CallOnUpdateEvents ==> i < j
  {
    var r := [first] + rest;
    forall i, j | 0 <= i < |r| && 0 <= j < |r| && r[i] == CallOnClose && r[j] == CallOnUpdateEvents
      ensures i < j
    {
      assert rest[i - 1] == CallOnClose && rest[j - 1] == CallOnUpdateEvents;
    }
  }

  /** Appending in two steps is appending once. */
  lemma AppendAssociates(before: seq<Effect>, x: Effect, after: seq<Effect>)
    ensures (before + [x]) + after == before + ([x] + after)
  {
  }

  /** The form component: its draft, the users offered in the creator
      select, the validation message, and the effects it has issued. The
      route's `eventId` and whether the parent passed `onClose` and
      `onUpdateEvents` are fixed for the life of the form. */
  class EditForm {
    const eventId: string
    const hasOnClose: bool
    const hasOnUpdateEvents: bool
    var formData: Draft
    var users: seq<User>
    var error: string
    var effects: seq<Effect>

    constructor (eventId: string, hasOnClose: bool, hasOnUpdateEvents: bool)
      ensures this.eventId == eventId
      ensures this.hasOnClose == hasOnClose && this.hasOnUpdateEvents == hasOnUpdateEvents
      ensures formData == EmptyDraft && users == [] && error == "" && effects == []
    {
      this.eventId := eventId;
      this.hasOnClose := hasOnClose;
      this.hasOnUpdateEvents := hasOnUpdateEvents;
      formData := EmptyDraft;
      users := [];
      error := "";
      effects := [];
    }

    /** `fetchUsers` on mount: the user list replaces the empty one when the
        response is ok; a failure is only logged. */
    method FetchUsers(response: Response<seq<User>>)
      modifies this`users, this`effects
      ensures effects == old(effects) + [Get(UsersResource)]
      ensures users == if response.ok then response.body else old(users)
    {
      effects := effects + [Get(UsersResource)];
      if response.ok {
        users := response.body;
      }
    }

    /** `fetchEvent` on mount: an ok response replaces the whole draft with
        the event's editable fields, times formatted for editing; a failure
        leaves the draft as it was. */
    method FetchEvent(response: Response<Event>, startIso: Option<string>, endIso: Option<string>)
      modifies this`formData, this`effects
      ensures effects == old(effects) + [Get(EventResource(eventId))]
      ensures formData == if response.ok then DraftOf(response.body, startIso, endIso) else old(formData)
    {
      effects := effects + [Get(EventResource(eventId))];
      if response.ok {
        formData := DraftOf(response.body, startIso, endIso);
      }
    }

    /** `handleChange`: the named field takes the input's text. */
    method HandleChange(name: Field, value: string)
      modifies this`formData
      ensures formData == WithField(old(formData), name, value)
    {
      match name
      case Title => formData := formData.(title := value);
      case Description => formData := formData.(description := value);
      case Image => formData := formData.(image := value);
      case Location => formData := formData.(location := value);
      case StartTime => formData := formData.(startTime := value);
      case EndTime => formData := formData.(endTime := value);
      case CreatedBy => formData := formData.(createdBy := Str(value));
    }

    /** `handleCategoryChange`: the checked boxes, as numbers, replace the
        category ids outright; nothing of the old list is kept. */
    method HandleCategoryChange(selected: seq<string>)
      modifies this`formData
      ensures formData == old(formData).(categoryIds := SelectedCategoryIds(selected))
    {
      formData := formData.(categoryIds := SelectedCategoryIds(selected));
    }

    /** `handleSubmit`, with `putOk` the settled outcome of the PUT. A
        refused draft sets the validation message and sends nothing; an
        accepted one issues the submit's effects. The draft never changes,
        and the message is never cleared. */
    method HandleSubmit(putOk: bool)
      modifies this`error, this`effects
      ensures formData == old(formData)
      ensures error == if Rejects(formData) then EndTimeError else old(error)
      ensures effects == old(effects) + SubmitEffects(eventId, formData, hasOnClose, hasOnUpdateEvents, putOk)
    {
      if Rejects(formData) {
        assert SubmitEffects(eventId, formData, hasOnClose, hasOnUpdateEvents, putOk) == [];
        error := EndTimeError;
        return;
      }
      var put := Put(EventResource(eventId), Body(formData));
      if !putOk {
        assert SubmitEffects(eventId, formData, hasOnClose, hasOnUpdateEvents, putOk) == [put, ShowToast(ErrorToast)];
        effects := effects + [put, ShowToast(ErrorToast)];
        return;
      }
      ghost var before := effects;
      ghost var after := AfterUpdate(eventId, hasOnClose, hasOnUpdateEvents);
      assert SubmitEffects(eventId, formData, hasOnClose, hasOnUpdateEvents, putOk) == [put] + after;
      effects := effects + [put];
      AfterSuccessfulUpdate();
      AppendAssociates(before, put, after);
    }

    /** The success branch of `handleSubmit`, step by step. */
    method AfterSuccessfulUpdate()
      modifies this`effects
      ensures effects == old(effects) + AfterUpdate(eventId, hasOnClose, hasOnUpdateEvents)
    {
      effects := effects + [ShowToast(SuccessToast)];
      if hasOnClose {
        effects := effects + [CallOnClose];
      }
      if hasOnUpdateEvents {
        effects := effects + [CallOnUpdateEvents];
      }
      effects := effects + [Navigate(EventPath(eventId))];
    }
  }
}
