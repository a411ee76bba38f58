/** The event page: loads one event together with the category and user
    collections, keeps the outcome in its state fields, and renders by a
    fixed precedence of loading, error and content. */
module EventPage {
  import opened JsValues
  import opened Wrappers
  import opened Records
  import opened CategoryNames

  const EventNotFound := "Event not found"
  const CategoriesFailed := "Failed to fetch categories"
  const UsersFailed := "Failed to fetch users"

  /** The three GETs one load issues, in the order they are started. */
  function LoadRequests(eventId: string): seq<Endpoint> {
    [EventResource(eventId), CategoriesResource, UsersResource]
  }

  /** The settled outcome of one load. `Rejected` is a request that never
      produced a response (the host's error message); `Settled` carries the
      three responses in request order. */
  datatype Batch =
    | Rejected(message: string)
    | Settled(event: Response<Event>, categories: Response<seq<Category>>, users: Response<seq<User>>)

  /** The message a load fails with, if it fails: the responses are checked
      in the order event, categories, users, and the first non-2xx one names
      the failure. */
  function Failure(b: Batch): (m: Option<string>)
    ensures m.None? <==> b.Settled? && b.event.ok && b.categories.ok && b.users.ok
    ensures b.Rejected? ==> m == Some(b.message)
    ensures b.Settled? && !b.event.ok ==> m == Some(EventNotFound)
    ensures b.Settled? && b.event.ok && !b.categories.ok ==> m == Some(CategoriesFailed)
    ensures b.Settled? && b.event.ok && b.categories.ok && !b.users.ok ==> m == Some(UsersFailed)
  {
    match b
    case Rejected(message) => Some(message)
    case Settled(event, categories, users) =>
      if !event.ok then Some(EventNotFound)
      else if !categories.ok then Some(CategoriesFailed)
      else if !users.ok then Some(UsersFailed)
      else None
  }

  /** The creator lookup: the first user whose id is strictly equal to
      `createdBy`, or nothing when no user's id is. */
  function FindCreator(users: seq<User>, createdBy: Value): (u: Option<User>)
    ensures u.None? <==> forall i :: 0 <= i < |users| ==> !StrictEquals(users[i].id, createdBy)
    ensures u.Some? ==> exists i :: 0 <= i < |users| && users[i] == u.value && FirstCreatorAt(users, createdBy, i)
  {
    if users == [] then None
    else if StrictEquals(users[0].id, createdBy) then
      assert FirstCreatorAt(users, createdBy, 0);
      Some(users[0])
    else
      var rest := FindCreator(users[1..], createdBy);
      if rest.Some? then
        var i :| 0 <= i < |users[1..]| && users[1..][i] == rest.value && FirstCreatorAt(users[1..], createdBy, i);
        assert FirstCreatorAt(users, createdBy, i + 1);
        rest
      else
        rest
  }

  /** `users[i]` is the first user whose id is strictly equal to `createdBy`. */
  predicate FirstCreatorAt(users: seq<User>, createdBy: Value, i: int) {
    && 0 <= i < |users|
    && StrictEquals(users[i].id, createdBy)
    && forall j :: 0 <= j < i ==> !StrictEquals(users[j].id, createdBy)
  }

  /** The page's state fields. */
  datatype PageState = PageState(
    event: Option<Event>,
    categories: seq<Category>,
    user: Option<User>,
    loading: bool,
    error: Option<string>,
    editModalOpen: bool)

  /** The state before anything has loaded. */
  const Initial := PageState(None, [], None, true, None, false)

  /** The state after a load settles as `b`: a failure stores its message
      and keeps the data; a success stores the data and the creator and
      keeps the error; either way loading ends. */
  function Reconcile(s: PageState, b: Batch): (t: PageState)
    ensures !t.loading && t.editModalOpen == s.editModalOpen
    ensures Failure(b).Some? ==>
      t.error == Failure(b) && t.event == s.event && t.categories == s.categories && t.user == s.user
    ensures Failure(b).None? ==>
      && t.error == s.error
      && t.event == Some(b.event.body)
      && t.categories == b.categories.body
      && t.user == FindCreator(b.users.body, b.event.body.createdBy)
  {
    match Failure(b)
    case Some(message) => s.(error := Some(message), loading := false)
    case None =>
      s.(event := Some(b.event.body), categories := b.categories.body,
         user := FindCreator(b.users.body, b.event.body.createdBy), loading := false)
  }

  /** The state after the loads `bs` have settled, in order, from `s`. */
  function Run(s: PageState, bs: seq<Batch>): PageState
    decreases |bs|
  {
    if bs == [] then s else Reconcile(Run(s, bs[..|bs| - 1]), bs[|bs| - 1])
  }

  /** The message of the latest failed load among `bs`, if any failed. */
  function LastFailure(bs: seq<Batch>): (m: Option<string>)
    ensures m.None? <==> forall k :: 0 <= k < |bs| ==> Failure(bs[k]).None?
    decreases |bs|
  {
    if bs == [] then None
    else if Failure(bs[|bs| - 1]).Some? then Failure(bs[|bs| - 1])
    else
      var m := LastFailure(bs[..|bs| - 1]);
      assert forall k :: 0 <= k < |bs| - 1 ==> bs[..|bs| - 1][k] == bs[k];
      m
  }

  /** JavaScript truthiness of the stored error: null and "" are falsy. */
  predicate Truthy(error: Option<string>) {
    error.Some? && error.value != ""
  }

  /** What the page shows. `RenderFailure` is the render throwing because
      it reads the fields of a null event (src/pages/EventPage.jsx:100). */
  datatype PageView =
    | LoadingView
    | ErrorView(message: string)
    | EventView(title: string, description: string, image: string, startTime: string,
                endTime: string, location: string, categoryNames: string,
                creator: Option<User>, editModalOpen: bool)
    | RenderFailure

  /** The view of a state. Loading wins over everything, then a truthy
      error, then the content, whose category names come from the
      String-coerced matching. */
  function View(s: PageState): (v: PageView)
    ensures v.LoadingView? <==> s.loading
    ensures v.ErrorView? <==> !s.loading && Truthy(s.error)
    ensures v.ErrorView? ==> v.message == s.error.value
    ensures v.RenderFailure? <==> !s.loading && !Truthy(s.error) && s.event.None?
    ensures v.EventView? ==>
      && s.event.Some?
      && v.title == s.event.value.title
      && v.categoryNames == CategoryNamesText(StringCoerced, s.event.value.categoryIds, s.categories)
      && v.creator == s.user
      && v.editModalOpen == s.editModalOpen
  {
    if s.loading then LoadingView
    else if Truthy(s.error) then ErrorView(s.error.value)
    else if s.event.None? then RenderFailure
    else
      var e := s.event.value;
      EventView(e.title, e.description, e.image, e.startTime, e.endTime, e.location,
                CategoryNamesText(StringCoerced, e.categoryIds, s.categories), s.user, s.editModalOpen)
  }

  /** After loads `bs` from the initial state, the page is loading exactly
      when none has settled, the stored error is the latest failure's
      message (nothing ever clears it), and the modal flag is untouched. */
  lemma {:induction false} RunFromInitial(bs: seq<Batch>)
    ensures Run(Initial, bs).loading <==> bs == []
    ensures Run(Initial, bs).error == LastFailure(bs)
    ensures !Run(Initial, bs).editModalOpen
    decreases |bs|
  {
    if bs != [] {
      RunFromInitial(bs[..|bs| - 1]);
    }
  }

  /** No load resets the error to null: a page that holds an error still
      holds one after any further loads, whatever they are. */
  lemma {:induction false} ErrorNeverCleared(s: PageState, bs: seq<Batch>)
    requires s.error.Some?
    ensures Run(s, bs).error.Some?
    decreases |bs|
  {
    if bs != [] {
      ErrorNeverCleared(s, bs[..|bs| - 1]);
    }
  }

  /** Once the error is truthy, further loads whose failures all carry a
      non-empty message leave the page on an error view, however many of
      them succeed. */
  lemma {:induction false} ErrorIsSticky(s: PageState, bs: seq<Batch>)
    requires s.error.Some?
    requires forall k :: 0 <= k < |bs| ==> Failure(bs[k]) != Some("")
    ensures Truthy(s.error) ==> Truthy(Run(s, bs).error)
    ensures Truthy(s.error) && bs != [] ==> View(Run(s, bs)).ErrorView?
    decreases |bs|
  {
    if bs != [] {
      var init := bs[..|bs| - 1];
      assert forall k :: 0 <= k < |init| ==> init[k] == bs[k];
      ErrorIsSticky(s, init);
    }
  }

  /** A failure with an empty message stores a falsy error: the page shows
      no error view, not even one shown before, and renders the event it
      loaded before, or fails to render when there is none. */
  lemma EmptyFailureHidesError(s: PageState, b: Batch)
    requires Failure(b) == Some("")
    ensures !View(Reconcile(s, b)).ErrorView?
    ensures View(Reconcile(s, b)).RenderFailure? <==> s.event.None?
    ensures View(Reconcile(s, b)).EventView? <==> s.event.Some?
  {
  }

  /** A successful load after a failed one still shows the old error, not
      the freshly loaded event. */
  lemma SuccessAfterFailureShowsError(message: string, ok: Batch)
    requires message != ""
    requires Failure(ok).None?
    ensures View(Run(Initial, [Rejected(message), ok])) == ErrorView(message)
  {
    var bs := [Rejected(message), ok];
    assert bs[..1][..0] == [];
    assert Run(Initial, bs[..1]).error == Some(message);
  }

  /** Once any load has settled and no failure carried an empty message, the
      page shows either the latest failure or the loaded event: never the
      loading view, never a render failure. */
  lemma {:induction false} SettledPageShowsErrorOrEvent(bs: seq<Batch>)
    requires bs != []
    requires forall k :: 0 <= k < |bs| ==> Failure(bs[k]) != Some("")
    ensures View(Run(Initial, bs)).ErrorView? <==> LastFailure(bs).Some?
    ensures View(Run(Initial, bs)).EventView? <==> LastFailure(bs).None?
  {
    RunFromInitial(bs);
    if LastFailure(bs).None? {
      assert Failure(bs[|bs| - 1]).None?;
    } else {
      LastFailureIsAFailure(bs);
    }
  }

  /** Load `k` of `bs` failed and every load after it succeeded. */
  predicate LatestFailureAt(bs: seq<Batch>, k: int) {
    && 0 <= k < |bs|
    && Failure(bs[k]).Some?
    && forall j :: k < j < |bs| ==> Failure(bs[j]).None?
  }

  /** The latest failure is the failure of one of the loads, and every
      load after that one succeeded. */
  lemma {:induction false} LastFailureIsAFailure(bs: seq<Batch>)
    requires LastFailure(bs).Some?
    ensures exists k :: LatestFailureAt(bs, k) && Failure(bs[k]) == LastFailure(bs)
    decreases |bs|
  {
    var n := |bs| - 1;
    if Failure(bs[n]).Some? {
      assert LatestFailureAt(bs, n);
    } else {
      var init := bs[..n];
      LastFailureIsAFailure(init);
      var k :| LatestFailureAt(init, k) && Failure(init[k]) == LastFailure(init);
      assert forall j :: 0 <= j < n ==> bs[j] == init[j];
      assert LatestFailureAt(bs, k);
    }
  }

  /** The URLs one load fetches: the event by id, then the categories and
      the users collections of the backend. */
  lemma LoadUrls(eventId: string)
    ensures |LoadRequests(eventId)| == 3
    ensures Url(LoadRequests(eventId)[0]) == "http://localhost:3000/events/" + eventId
    ensures Url(LoadRequests(eventId)[1]) == "http://localhost:3000/categories"
    ensures Url(LoadRequests(eventId)[2]) == "http://localhost:3000/users"
  {
  }

  /** A creator whose id is a string never matches a user with the same
      number as id: the lookup is strict, so the creator section is left
      out while the page still renders. */
  lemma StrictCreatorLookup(user: User, n: int)
    requires user.id == Num(n)
    ensures FindCreator([user], Str(ToJsString(Num(n)))) == None
    ensures FindCreator([user], Num(n)) == Some(user)
  {
  }

  /** The event page with its state fields, and the backend resources it
      has requested, in order. */
  class Page {
    const eventId: string
    var event: Option<Event>
    var categories: seq<Category>
    var user: Option<User>
    var loading: bool
    var error: Option<string>
    var isEditModalOpen: bool
    var requests: seq<Endpoint>

    function State(): PageState
      reads this
    {
      PageState(event, categories, user, loading, error, isEditModalOpen)
    }

    /** The page as first mounted: loading, no error, modal closed. */
    constructor (eventId: string)
      ensures this.eventId == eventId
      ensures State() == Initial && requests == []
    {
      this.eventId := eventId;
      event := None;
      categories := [];
      user := None;
      loading := true;
      error := None;
      isEditModalOpen := false;
      requests := [];
    }

    /** One load: issues the three GETs and reconciles the state with their
        settled outcome `b`. */
    method FetchEventData(b: Batch)
      modifies this
      ensures State() == Reconcile(old(State()), b)
      ensures requests == old(requests) + LoadRequests(eventId)
    {
      requests := requests + LoadRequests(eventId);
      match b
      case Rejected(message) =>
        error := Some(message);
        loading := false;
      case Settled(eventResponse, categoriesResponse, usersResponse) =>
        if !eventResponse.ok {
          error := Some(EventNotFound);
          loading := false;
          return;
        }
        if !categoriesResponse.ok {
          error := Some(CategoriesFailed);
          loading := false;
          return;
        }
        if !usersResponse.ok {
          error := Some(UsersFailed);
          loading := false;
          return;
        }
        var eventData := eventResponse.body;
        var creator := FindCreator(usersResponse.body, eventData.createdBy);
        event := Some(eventData);
        categories := categoriesResponse.body;
        user := creator;
        loading := false;
    }

    /** Opens the edit modal and changes nothing else. */
    method HandleEdit()
      modifies this`isEditModalOpen
      ensures State() == old(State()).(editModalOpen := true)
    {
      isEditModalOpen := true;
    }

    /** Closes the edit modal and reloads once, with outcome `b`. */
    method HandleCloseEditModal(b: Batch)
      modifies this
      ensures State() == Reconcile(old(State()).(editModalOpen := false), b)
      ensures requests == old(requests) + LoadRequests(eventId)
    {
      isEditModalOpen := false;
      FetchEventData(b);
    }
  }
}
