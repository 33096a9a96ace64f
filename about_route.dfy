/**
 * `GET` and `POST /api/about`: the about text lives in one JSON file,
 * `{ "content": ... }`, which `GET` returns whole and `POST` replaces after
 * checking that the request carries a non-empty string `content`.
 */
module AboutRoute {
  import opened Opt
  import opened Json
  import opened Files

  /** The data file as `readFile` + `JSON.parse` see it. */
  datatype AboutFile = Unreadable | Malformed | Holds(data: Json)

  /** A response: a status and a JSON body. */
  datatype Response = Response(status: int, body: Json)

  /** How the request body fares before any write. */
  datatype BodyCheck =
    | BodyThrows          // `request.json()` or the destructuring threw
    | InvalidContent      // `!content || typeof content !== 'string'`
    | ValidContent(content: string)

  const FetchError := "Failed to fetch content"
  const InvalidError := "Invalid content"
  const UpdateError := "Failed to update content"

  /** `{ content }`: what a successful `POST` writes and answers. */
  function ContentRecord(content: string): (r: Json)
    ensures Property(r, "content") == Some(Defined(JString(content)))
    ensures r.JObject? && r.fields.Keys == {"content"}
  {
    Single("content", content)
  }

  /**
   * `const { content } = await request.json()` followed by the content
   * test. `body` is `None` when the body is not JSON.
   */
  function CheckBody(body: Option<Json>): (r: BodyCheck)
    ensures r.BodyThrows? <==> body.None? || body.value.JNull?
    ensures forall c :: r == ValidContent(c) <==>
      body.Some? && body.value.JObject? && "content" in body.value.fields
      && body.value.fields["content"] == JString(c) && c != ""
  {
    match body
    case None => BodyThrows
    case Some(j) =>
      match Property(j, "content")
      case None => BodyThrows
      case Some(v) =>
        if Truthy(v) && v.Defined? && v.value.JString? then ValidContent(v.value.s)
        else InvalidContent
  }

  /** The `GET` handler on a given file. */
  function GetResponse(file: AboutFile): (r: Response)
    ensures r.status == 200 <==> file.Holds?
    ensures file.Holds? ==> r.body == file.data
    ensures !file.Holds? ==> r == Response(500, ErrorBody(FetchError))
  {
    match file
    case Holds(data) => Response(200, data)
    case _ => Response(500, ErrorBody(FetchError))
  }

  /** The about data file, read by `GET` and replaced by `POST`. */
  class AboutStore {
    var file: AboutFile

    constructor(initial: AboutFile)
      ensures file == initial
    {
      file := initial;
    }

    /** `GET /api/about`. */
    method Get() returns (r: Response)
      ensures r == GetResponse(file)
    {
      r := GetResponse(file);
    }

    /**
     * `POST /api/about`. `write` is the outcome of `writeFile`; the file
     * changes only when the content is valid, and then holds exactly
     * `{ content }` when the write succeeds and whatever a failed write
     * left otherwise.
     */
    method Post(body: Option<Json>, write: WriteOutcome<AboutFile>) returns (r: Response)
      modifies this
      ensures match CheckBody(body)
        case BodyThrows => r == Response(500, ErrorBody(UpdateError)) && file == old(file)
        case InvalidContent => r == Response(400, ErrorBody(InvalidError)) && file == old(file)
        case ValidContent(c) =>
          match write
          case Written => r == Response(200, ContentRecord(c)) && file == Holds(ContentRecord(c))
          case WriteFailed(left) => r == Response(500, ErrorBody(UpdateError)) && file == left
    {
      match CheckBody(body)
      case BodyThrows =>
        r := Response(500, ErrorBody(UpdateError));
      case InvalidContent =>
        r := Response(400, ErrorBody(InvalidError));
      case ValidContent(c) =>
        match write {
          case Written =>
            file := Holds(ContentRecord(c));
            r := Response(200, ContentRecord(c));
          case WriteFailed(left) =>
            file := left;
            r := Response(500, ErrorBody(UpdateError));
        }
    }
  }

  /** A body `{ content: c }` with a string `c` is accepted exactly when `c` is not empty. */
  lemma StringContentCheck(body: Option<Json>, c: string)
    requires body == Some(JObject(map["content" := JString(c)]))
    ensures CheckBody(body) == (if c == "" then InvalidContent else ValidContent(c))
  {
  }

  /** After a successful `POST` of `c`, `GET` answers 200 with `{ content: c }`. */
  method PostThenGet(store: AboutStore, c: string) returns (r: Response)
    requires c != ""
    modifies store
    ensures r.status == 200
    ensures Property(r.body, "content") == Some(Defined(JString(c)))
  {
    var posted := store.Post(Some(ContentRecord(c)), Written);
    r := store.Get();
  }
}
