/**
 * The admin projects page as a state machine: the project list it shows,
 * the draft being edited, the loading and saving flags and the upload
 * status. Every server answer the page waits for is a parameter of the
 * handler that waits for it.
 */
module EditSession {
  import opened Opt
  import opened Projects
  import opened Media
  import opened Drafts
  import Json
  import DisplayOrder
  import UploadRoute
  import ProjectsRoute

  /** `uploadStatus`. */
  datatype UploadStatus = Idle | Succeeded | Failed

  /** The body of a `POST /api/ai-works`: `{ action, project }`. */
  datatype Request = Create(project: Project) | Update(project: Project) | Delete(project: Project)

  /** A JavaScript optional field as `JSON.stringify` writes it: left out, `null`, or the value. */
  function Put(fields: map<string, Json.Json>, key: string, v: Nullable<Json.Json>): map<string, Json.Json> {
    match v
    case Undefined => fields
    case Null => fields[key := Json.JNull]
    case Present(x) => fields[key := x]
  }

  function StringField(v: Nullable<string>): Nullable<Json.Json> {
    match v
    case Undefined => Undefined
    case Null => Null
    case Present(t) => Present(Json.JString(t))
  }

  function KindField(v: Nullable<MediaKind>): Nullable<Json.Json> {
    match v
    case Undefined => Undefined
    case Null => Null
    case Present(k) => Present(Json.JString(if k == Image then "image" else "video"))
  }

  function StringsJson(ts: seq<string>): (r: seq<Json.Json>)
    ensures |r| == |ts| && forall k :: 0 <= k < |ts| ==> r[k] == Json.JString(ts[k])
  {
    seq(|ts|, k requires 0 <= k < |ts| => Json.JString(ts[k]))
  }

  /** A project as `JSON.stringify` sends it: its `undefined` fields are left out. */
  function ProjectJson(p: Project): (j: Json.Json)
    ensures j.JObject?
    ensures "id" in j.fields && j.fields["id"] == Json.JString(p.id)
  {
    var optional :=
      Put(Put(Put(Put(map[], "newTech", StringField(p.newTech)),
        "mediaUrl", StringField(p.mediaUrl)),
        "mediaType", KindField(p.mediaType)),
        "titleUrl", StringField(p.titleUrl));
    Json.JObject(optional
      ["date" := Json.JString(p.date)]
      ["technologies" := Json.JArray(StringsJson(p.technologies))]
      ["description" := Json.JString(p.description)]
      ["title" := Json.JString(p.title)]
      ["id" := Json.JString(p.id)])
  }

  /** The tags are sent as an array of strings, in order. */
  lemma ProjectJsonTags(p: Project)
    ensures var j := ProjectJson(p);
      && "technologies" in j.fields && j.fields["technologies"].JArray?
      && |j.fields["technologies"].items| == |p.technologies|
      && forall k :: 0 <= k < |p.technologies| ==> j.fields["technologies"].items[k] == Json.JString(p.technologies[k])
  {
  }

  /** A field is sent exactly when it is not `undefined`. */
  lemma ProjectJsonOmitsUndefined(p: Project)
    ensures "newTech" in ProjectJson(p).fields <==> !p.newTech.Undefined?
    ensures "mediaUrl" in ProjectJson(p).fields <==> !p.mediaUrl.Undefined?
    ensures "mediaType" in ProjectJson(p).fields <==> !p.mediaType.Undefined?
  {
  }

  /** The body `{ action, project }` the page posts. */
  function RequestBody(req: Request): (j: Json.Json)
    ensures j.JObject? && "action" in j.fields && "project" in j.fields
    ensures j.fields["project"] == ProjectJson(req.project)
    ensures j.fields["action"] == Json.JString(
      match req
      case Create(_) => "create"
      case Update(_) => "update"
      case Delete(_) => "delete")
  {
    var action := match req
      case Create(_) => "create"
      case Update(_) => "update"
      case Delete(_) => "delete";
    Json.JObject(map["action" := Json.JString(action), "project" := ProjectJson(req.project)])
  }

  /**
   * The body of a save carries the draft's id and tags, no pending tag
   * text, and both media fields, as `null` when the draft has none.
   */
  lemma SaveBodyShape(d: Project)
    ensures var project := RequestBody(Update(SaveCopy(d))).fields["project"];
      && project.fields["id"] == Json.JString(d.id)
      && "newTech" !in project.fields
      && "mediaUrl" in project.fields && "mediaType" in project.fields
      && |project.fields["technologies"].items| == |d.technologies|
  {
    SaveCopyNormalises(d);
    ProjectJsonTags(SaveCopy(d));
    ProjectJsonOmitsUndefined(SaveCopy(d));
  }

  /**
   * How a `POST /api/ai-works` ends for the page: the new project list of
   * a 200 answer, or a rejection (a network error, a status that is not
   * ok, or a body that is not JSON), after which the handler's `catch`
   * runs.
   */
  datatype SaveReply = Rejected | Accepted(projects: seq<Project>)

  /** What the page makes of an answer of the projects route. */
  function ReplyFrom(resp: ProjectsRoute.ListResponse): (r: SaveReply)
    ensures r.Accepted? <==> resp.ListOk?
    ensures r.Accepted? ==> r.projects == resp.projects
  {
    match resp
    case ListOk(ps) => Accepted(ps)
    case ListFailed(_, _) => Rejected
  }

  /**
   * The deployed projects route turns every request the page sends into a
   * rejection: the page's requests are JSON, and the route refuses every
   * JSON body.
   */
  lemma DeployedRouteRejects(body: Json.Json)
    ensures ReplyFrom(ProjectsRoute.Post(Some(body))) == Rejected
  {
  }

  /** The position of the draft's project in the list, which `handleFileUpload` needs. */
  function UploadTarget(ps: seq<Project>, editing: Option<Project>): (r: Option<nat>)
    ensures r.Some? ==> editing.Some? && r.value < |ps| && ps[r.value].id == editing.value.id
    ensures r.None? ==> editing.None? || forall k :: 0 <= k < |ps| ==> ps[k].id != editing.value.id
  {
    if editing.None? then None else IndexOfId(ps, editing.value.id)
  }

  /** The page's state. */
  class Session {
    var projects: seq<Project>
    var editing: Option<Project>
    var isLoading: bool
    var isSaving: bool
    var uploadStatus: UploadStatus

    constructor()
      ensures projects == [] && editing == None && isLoading && !isSaving && uploadStatus == Idle
    {
      projects := [];
      editing := None;
      isLoading := true;
      isSaving := false;
      uploadStatus := Idle;
    }

    /**
     * `fetchProjects`: `reply` is the list `GET /api/ai-works` returned,
     * `None` when the request or its JSON failed. Loading ends either way.
     */
    method FetchProjects(reply: Option<seq<Project>>)
      modifies this
      ensures !isLoading
      ensures projects == (if reply.Some? then reply.value else old(projects))
      ensures editing == old(editing) && isSaving == old(isSaving) && uploadStatus == old(uploadStatus)
    {
      if reply.Some? {
        projects := reply.value;
      }
      isLoading := false;
    }

    /**
     * The "Add New Project" button, at time `id` (`Date.now()`) and month
     * `date`. The new project is sent as a create request; once accepted,
     * the list is the server's and the new project becomes the draft.
     */
    method CreateProject(id: string, date: string, reply: SaveReply) returns (sent: Request)
      modifies this
      ensures sent == Create(NewProject(id, date))
      ensures reply.Accepted? ==> projects == reply.projects && editing == Some(NewProject(id, date))
      ensures reply.Rejected? ==> projects == old(projects) && editing == old(editing)
      ensures isLoading == old(isLoading) && isSaving == old(isSaving) && uploadStatus == old(uploadStatus)
    {
      var p := NewProject(id, date);
      sent := Create(p);
      if reply.Accepted? {
        projects := reply.projects;
        editing := Some(p);
      }
    }

    /** The Edit button of the card at `i`: that project becomes the draft. */
    method Edit(i: nat)
      requires i < |projects|
      modifies this
      ensures editing == Some(old(projects)[i])
      ensures projects == old(projects) && isLoading == old(isLoading) && isSaving == old(isSaving)
      ensures uploadStatus == old(uploadStatus)
    {
      editing := Some(projects[i]);
    }

    /** The Cancel button: the draft is dropped unsaved. */
    method Cancel()
      modifies this
      ensures editing == None
      ensures projects == old(projects) && isLoading == old(isLoading) && isSaving == old(isSaving)
      ensures uploadStatus == old(uploadStatus)
    {
      editing := None;
    }

    /**
     * The Delete button of the card at `i`, with the answer to its confirm
     * dialog. A confirmed delete sends the project; the list changes only
     * to the server's accepted list.
     */
    method DeleteProject(i: nat, confirmed: bool, reply: SaveReply) returns (sent: Option<Request>)
      requires i < |projects|
      modifies this
      ensures sent == (if confirmed then Some(Delete(old(projects)[i])) else None)
      ensures projects == (if confirmed && reply.Accepted? then reply.projects else old(projects))
      ensures editing == old(editing) && isLoading == old(isLoading) && isSaving == old(isSaving)
      ensures uploadStatus == old(uploadStatus)
    {
      sent := None;
      if confirmed {
        sent := Some(Delete(projects[i]));
        if reply.Accepted? {
          projects := reply.projects;
        }
      }
    }

    /** A change in the edit form: the draft becomes the spread copy the handler builds. */
    method EditDraft(e: DraftEdit)
      requires editing.Some?
      modifies this
      ensures editing == Some(Apply(old(editing).value, e))
      ensures projects == old(projects) && isLoading == old(isLoading) && isSaving == old(isSaving)
      ensures uploadStatus == old(uploadStatus)
    {
      editing := Some(Apply(editing.value, e));
    }

    /**
     * The Save button, up to the request: the flag goes up and the draft's
     * save copy is sent. The button is disabled while a save is running.
     */
    method BeginSave() returns (sent: Request)
      requires editing.Some? && !isSaving
      modifies this
      ensures isSaving
      ensures sent == Update(SaveCopy(old(editing).value))
      ensures projects == old(projects) && editing == old(editing) && isLoading == old(isLoading)
      ensures uploadStatus == old(uploadStatus)
    {
      isSaving := true;
      sent := Update(SaveCopy(editing.value));
    }

    /**
     * The Save button's answer: an accepted save takes the server's list
     * and closes the form; a rejected one keeps the draft for another try.
     * The flag comes down either way.
     */
    method EndSave(reply: SaveReply)
      requires isSaving
      modifies this
      ensures !isSaving
      ensures reply.Accepted? ==> projects == reply.projects && editing == None
      ensures reply.Rejected? ==> projects == old(projects) && editing == old(editing)
      ensures isLoading == old(isLoading) && uploadStatus == old(uploadStatus)
    {
      if reply.Accepted? {
        projects := reply.projects;
        editing := None;
      }
      isSaving := false;
    }

    /**
     * Choosing a file in the media input, then `handleFileUpload`. `answer`
     * is the upload route's answer (`None` when the request or its JSON
     * failed) and `saveReply` the answer to saving the updated draft.
     * Returns the file sent to the upload route and the request sent to
     * the projects route. A file that fails the type or size gate is
     * refused before anything happens. A failure after the gate marks the
     * upload as failed and puts back the stored version of the draft's
     * project (the first with its id, as `find` gives), discarding its
     * unsaved edits.
     */
    method SelectFile(file: Option<File>, answer: Option<UploadRoute.UploadResponse>, saveReply: SaveReply)
      returns (uploaded: Option<File>, sent: Option<Request>)
      modifies this
      ensures isLoading == old(isLoading) && isSaving == old(isSaving)
      ensures file.None? || !PassesFileGate(file.value) ==>
        uploaded.None? && sent.None? && projects == old(projects) && editing == old(editing)
        && uploadStatus == old(uploadStatus)
      ensures file.Some? && PassesFileGate(file.value) && UploadTarget(old(projects), old(editing)).None? ==>
        uploaded.None? && sent.None? && projects == old(projects) && editing == old(editing)
        && uploadStatus == Failed
      ensures file.Some? && PassesFileGate(file.value) && UploadTarget(old(projects), old(editing)).Some? ==>
        var stored := FindById(old(projects), old(editing).value.id).value;
        && uploaded == file
        && (answer.None? || answer.value.UploadFailed? ==>
              sent.None? && projects == old(projects) && editing == Some(stored) && uploadStatus == Failed)
        && (answer.Some? && answer.value.UploadOk? ==>
              var updated := WithUploadedMedia(old(editing).value, answer.value.url, answer.value.mediaType);
              && sent == Some(Update(updated))
              && (saveReply.Accepted? ==>
                    projects == saveReply.projects && editing == Some(updated) && uploadStatus == Succeeded)
              && (saveReply.Rejected? ==>
                    projects == old(projects) && editing == Some(stored) && uploadStatus == Failed))
    {
      uploaded, sent := None, None;
      if file.None? || !PassesFileGate(file.value) {
        return;
      }
      uploadStatus := Idle;
      var target := UploadTarget(projects, editing);
      if target.None? {
        uploadStatus := Failed;
        return;
      }
      var stored := FindById(projects, editing.value.id).value;
      uploaded := file;
      if answer.None? || answer.value.UploadFailed? {
        uploadStatus := Failed;
        editing := Some(stored);
        return;
      }
      var updated := WithUploadedMedia(editing.value, answer.value.url, answer.value.mediaType);
      sent := Some(Update(updated));
      match saveReply {
        case Accepted(ps) =>
          projects := ps;
          editing := Some(updated);
          uploadStatus := Succeeded;
        case Rejected =>
          uploadStatus := Failed;
          editing := Some(stored);
      }
    }

    /**
     * Rendering the list: unless still loading, `projects.sort(...)`
     * reorders the state's own array, newest first, keeping projects of the
     * same month in the order they had.
     */
    method Render()
      requires !isLoading ==> DisplayOrder.AllDated(projects)
      modifies this
      ensures isLoading ==> projects == old(projects)
      ensures !isLoading ==> DisplayOrder.NewestFirst(projects) && multiset(projects) == multiset(old(projects))
      ensures !isLoading ==> DisplayOrder.SameOrderOfEquals(projects, old(projects), DisplayOrder.Rank)
      ensures editing == old(editing) && isLoading == old(isLoading) && isSaving == old(isSaving)
      ensures uploadStatus == old(uploadStatus)
    {
      if isLoading {
        return;
      }
      var ps := projects;
      var a := new Project[|ps|](k requires 0 <= k < |ps| => ps[k]);
      assert a[..] == ps;
      DisplayOrder.SortNewestFirst(a);
      projects := a[..];
    }
  }

  /**
   * Loading the page against the deployed route: the list shown is the
   * built-in catalogue, newest first.
   */
  method LoadDeployed(s: Session)
    modifies s
    ensures !s.isLoading
    ensures DisplayOrder.NewestFirst(s.projects)
    ensures multiset(s.projects) == multiset(ProjectsRoute.Catalogue)
  {
    var listed := ProjectsRoute.Get();
    s.FetchProjects(Some(listed.projects));
    ProjectsRoute.CatalogueIsDated();
    s.Render();
  }

  /**
   * Saving against the deployed route never succeeds: the draft stays open
   * with its edits and the list is unchanged.
   */
  method SaveOnDeployedSite(s: Session) returns (sent: Request)
    requires s.editing.Some? && !s.isSaving
    modifies s
    ensures sent == Update(SaveCopy(old(s.editing).value))
    ensures !s.isSaving && s.editing == old(s.editing) && s.projects == old(s.projects)
  {
    sent := s.BeginSave();
    var reply := ReplyFrom(ProjectsRoute.Post(Some(RequestBody(sent))));
    s.EndSave(reply);
  }

  /**
   * Uploading against the deployed routes: even when the upload itself
   * succeeds, saving the updated draft is rejected, so the page reports a
   * failure and the draft falls back to the stored project, without the
   * new media.
   */
  method UploadOnDeployedSite(s: Session, f: File, outcome: UploaderOutcome)
    returns (uploaded: Option<File>, sent: Option<Request>)
    requires PassesFileGate(f)
    requires UploadTarget(s.projects, s.editing).Some?
    modifies s
    ensures uploaded == Some(f)
    ensures s.uploadStatus == Failed && s.projects == old(s.projects)
    ensures s.editing == Some(old(s.projects)[UploadTarget(old(s.projects), old(s.editing)).value])
  {
    var answer := UploadRoute.Post(UploadRoute.Form(Some(UploadRoute.FileValue(f))), outcome);
    var saveReply := Rejected;
    if answer.UploadOk? {
      var updated := WithUploadedMedia(s.editing.value, answer.url, answer.mediaType);
      saveReply := ReplyFrom(ProjectsRoute.Post(Some(RequestBody(Update(updated)))));
    }
    uploaded, sent := s.SelectFile(Some(f), Some(answer), saveReply);
  }
}
