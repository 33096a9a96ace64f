/**
 * The admin about editor: it loads the about text into a text area, lets
 * the admin edit it, and saves it back with `POST /api/about`.
 */
module AboutEditor {
  import opened Opt
  import opened Json
  import AboutRoute
  import Files

  /** `JSON.stringify({ content })`, parsed back: an `undefined` content leaves the key out. */
  function SaveBody(content: JsValue): (r: Json)
    ensures r.JObject?
    ensures "content" in r.fields <==> content.Defined?
    ensures content.Defined? ==> r.fields["content"] == content.value
  {
    match content
    case Undefined => JObject(map[])
    case Defined(v) => JObject(map["content" := v])
  }

  /** The alert a save ends with. */
  const Saved := "Content saved successfully!"
  const SaveFailed := "Failed to save content. Please try again."

  class Editor {
    /** The text area's value; `data.content` of the fetched record, which may be `undefined`. */
    var content: JsValue
    var isLoading: bool
    var isSaving: bool

    constructor()
      ensures content == Defined(JString("")) && isLoading && !isSaving
    {
      content := Defined(JString(""));
      isLoading := true;
      isSaving := false;
    }

    /**
     * `fetchContent`. `reply` is the parsed body of `GET /api/about`, or
     * `None` when the request or the parsing threw. Reading `content` of a
     * `null` body throws too, and then the text stays as it was.
     */
    method FetchContent(reply: Option<Json>)
      modifies this
      ensures !isLoading && isSaving == old(isSaving)
      ensures reply.Some? && reply.value.JObject? && "content" in reply.value.fields
        ==> content == Defined(reply.value.fields["content"])
      ensures reply.Some? && !reply.value.JNull? && !(reply.value.JObject? && "content" in reply.value.fields)
        ==> content == Undefined
      ensures reply.None? || reply.value.JNull? ==> content == old(content)
    {
      if reply.Some? {
        var read := Property(reply.value, "content");
        if read.Some? {
          content := read.value;
        }
      }
      isLoading := false;
    }

    /** Typing in the text area. */
    method Edit(text: string)
      modifies this
      ensures content == Defined(JString(text))
      ensures isLoading == old(isLoading) && isSaving == old(isSaving)
    {
      content := Defined(JString(text));
    }

    /** Pressing Save (disabled while a save is under way): returns the request body. */
    method BeginSave() returns (body: Json)
      requires !isSaving
      modifies this
      ensures isSaving && content == old(content) && isLoading == old(isLoading)
      ensures body == SaveBody(content)
    {
      isSaving := true;
      body := SaveBody(content);
    }

    /** The save's response arrived (`ok` is `response.ok`); returns the alert shown. */
    method EndSave(ok: bool) returns (alert: string)
      requires isSaving
      modifies this
      ensures !isSaving && content == old(content) && isLoading == old(isLoading)
      ensures alert == (if ok then Saved else SaveFailed)
    {
      isSaving := false;
      alert := if ok then Saved else SaveFailed;
    }
  }

  /**
   * The editor's save request passes the route's check exactly when the
   * text area holds a non-empty string.
   */
  lemma SaveAcceptedIffNonEmptyText(content: JsValue)
    ensures AboutRoute.CheckBody(Some(SaveBody(content))).ValidContent?
      <==> content.Defined? && content.value.JString? && content.value.s != ""
    ensures AboutRoute.CheckBody(Some(SaveBody(content))).ValidContent? ==>
      AboutRoute.CheckBody(Some(SaveBody(content))).content == content.value.s
  {
    if content.Defined? && content.value.JString? && content.value.s != "" {
      assert SaveBody(content).fields["content"] == JString(content.value.s);
    }
  }

  /**
   * When the about file cannot be read, the route answers `{ error }`; the
   * editor then holds `undefined`, and saving it untouched is refused with
   * 400 and leaves the file as it is.
   */
  method SaveAfterFailedFetch(store: AboutRoute.AboutStore, editor: Editor, write: Files.WriteOutcome<AboutRoute.AboutFile>)
    returns (r: AboutRoute.Response)
    requires !store.file.Holds? && !editor.isSaving
    modifies store, editor
    ensures editor.content == Undefined
    ensures r.status == 400 && store.file == old(store.file)
  {
    var fetched := store.Get();
    editor.FetchContent(Some(fetched.body));
    var body := editor.BeginSave();
    r := store.Post(Some(body), write);
  }
}
