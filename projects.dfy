/**
 * The project record shared by the admin page, the projects route and the
 * migration script, and the invariants its stored collection is meant to keep.
 */
module Projects {
  import opened Opt

  /** The two media kinds a project can carry: `'image' | 'video'`. */
  datatype MediaKind = Image | Video

  /**
   * An optional field as JavaScript objects carry it: absent (`undefined`),
   * explicitly `null`, or holding a value.
   */
  datatype Nullable<T> = Undefined | Null | Present(value: T)

  /**
   * A project. `newTech` is the pending text of the tag input, kept on the
   * draft while it is edited; `mediaUrl`/`mediaType` are the attached media.
   */
  datatype Project = Project(
    id: string,
    title: string,
    description: string,
    technologies: seq<string>,
    date: string,
    newTech: Nullable<string>,
    mediaUrl: Nullable<string>,
    mediaType: Nullable<MediaKind>,
    titleUrl: Nullable<string>)

  /** No entry occurs twice. */
  predicate NoDuplicates<T(==)>(s: seq<T>) {
    forall i, j :: 0 <= i < j < |s| ==> s[i] != s[j]
  }

  /** `mediaUrl` is null exactly when `mediaType` is. */
  predicate MediaPaired(p: Project) {
    p.mediaUrl.Null? <==> p.mediaType.Null?
  }

  /** No two projects share an id. */
  predicate DistinctIds(ps: seq<Project>) {
    forall i, j :: 0 <= i < j < |ps| ==> ps[i].id != ps[j].id
  }

  /** `ps.findIndex(p => p.id === id)`, with `None` for -1. */
  function IndexOfId(ps: seq<Project>, id: string): (r: Option<nat>)
    ensures r.Some? ==> r.value < |ps| && ps[r.value].id == id
    ensures r.Some? ==> forall k :: 0 <= k < r.value ==> ps[k].id != id
    ensures r.None? <==> forall k :: 0 <= k < |ps| ==> ps[k].id != id
  {
    if ps == [] then None
    else if ps[0].id == id then Some(0)
    else match IndexOfId(ps[1..], id)
      case None => None
      case Some(k) => Some(k + 1)
  }

  /** `ps.find(p => p.id === id)`: the first project with that id, if any. */
  function FindById(ps: seq<Project>, id: string): (r: Option<Project>)
    ensures r.Some? <==> exists k :: 0 <= k < |ps| && ps[k].id == id
    ensures r.Some? ==> r.value.id == id
    ensures r.Some? ==> exists k :: 0 <= k < |ps| && ps[k] == r.value && forall j :: 0 <= j < k ==> ps[j].id != id
  {
    match IndexOfId(ps, id)
    case None => None
    case Some(k) => Some(ps[k])
  }
}
