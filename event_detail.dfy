/** The event card: a display of one event with its resolved category
    names, linking to the event's page. */
module EventDetail {
  import opened JsValues
  import opened Wrappers
  import opened Records
  import opened CategoryNames

  /** What the card shows. Start and end times are passed through as the
      backend's timestamps; their locale formatting is the host's. */
  datatype Card =
    | LoadingPlaceholder
    | EventCard(link: string, title: string, description: string, image: string,
                startTime: string, endTime: string, categoryNames: string)

  /** The card for `event` given the category collection. A missing event
      or a missing collection gives the placeholder and no matching is
      done; otherwise the names are those of the categories whose id the
      event lists under SameValueZero, in collection order. */
  function Render(event: Option<Event>, categories: Option<seq<Category>>): (card: Card)
    ensures card.LoadingPlaceholder? <==> event.None? || categories.None?
    ensures card.EventCard? ==>
      && card.link == EventPath(ToJsString(event.value.id))
      && card.title == event.value.title
      && card.categoryNames == CategoryNamesText(SameValue, event.value.categoryIds, categories.value)
  {
    if event.None? || categories.None? then LoadingPlaceholder
    else
      var e := event.value;
      EventCard(EventPath(ToJsString(e.id)), e.title, e.description, e.image,
                e.startTime, e.endTime, CategoryNamesText(SameValue, e.categoryIds, categories.value))
  }

  /** The card's category text lists every category with a listed id, in
      the collection's order, and no other: it is the text of the one
      order-preserving selection of those categories. */
  lemma CardNamesAreTheListedCategories(event: Event, categories: seq<Category>, chosen: seq<Category>)
    requires IsSubsequence(chosen, categories)
    requires forall c :: multiset(chosen)[c] == if c.id in event.categoryIds then multiset(categories)[c] else 0
    ensures Render(Some(event), Some(categories)).categoryNames == Join(Names(chosen), ", ")
  {
    MatchedIsUnique(SameValue, event.categoryIds, categories, chosen);
  }
}
