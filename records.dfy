/** Optional values: JavaScript's `null`/`undefined` on one side, a present
    value on the other. */
module Wrappers {

  datatype Option<+T> = None | Some(value: T)
}

/** The records the REST backend serves, as the components read them from
    its JSON responses. */
module Records {
  import opened JsValues

  /** The REST backend. */
  const ApiBase := "http://localhost:3000"

  /** The backend resources the components request. */
  datatype Endpoint = EventResource(eventId: string) | CategoriesResource | UsersResource

  /** The URL of a backend resource. */
  function Url(e: Endpoint): string {
    match e
    case EventResource(eventId) => ApiBase + "/events/" + eventId
    case CategoriesResource => ApiBase + "/categories"
    case UsersResource => ApiBase + "/users"
  }

  /** An event's page in the application. */
  function EventPath(eventId: string): string {
    "/event/" + eventId
  }

  datatype Category = Category(id: Value, name: string)

  datatype User = User(id: Value, name: string, image: string)

  /** Start and end times are the backend's timestamp strings; `categoryIds`
      and `createdBy` hold whatever identifier values the JSON carried. */
  datatype Event = Event(
    id: Value,
    title: string,
    description: string,
    image: string,
    location: string,
    startTime: string,
    endTime: string,
    categoryIds: seq<Value>,
    createdBy: Value)

  /** A settled HTTP response: whether its status was 2xx, and the JSON
      body it carries when it was. */
  datatype Response<T> = Response(ok: bool, body: T)
}
