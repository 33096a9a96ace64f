/**
 * The one-off migration script: for every project whose media still lives
 * under `/uploads/` on the local disk, read and upload the file and point
 * `mediaUrl` at the uploaded copy, then write the whole projects file back.
 * A failed read or upload aborts the script before the write, so the file
 * is then untouched; a failed write leaves it as the write left it.
 */
module Migration {
  import opened Opt
  import opened Text
  import opened Projects
  import opened Media
  import opened Files

  /** The projects data file as `readFileSync` + `JSON.parse` see it. */
  datatype DataFile = Unreadable | Holds(projects: seq<Project>)

  /** A local media file as `fs.existsSync` and `fs.readFileSync` find it. */
  datatype LocalFile = Missing | Unreadable | Readable

  /** One uploader call of the script: the local media path (standing for the bytes read there) and the project's `mediaType`. */
  datatype MigrationCall = MigrationCall(localPath: string, kind: Nullable<MediaKind>)

  const LocalPrefix := "/uploads/"

  /** `project.mediaUrl && project.mediaUrl.startsWith('/uploads/')`. */
  predicate IsLocalMedia(p: Project) {
    p.mediaUrl.Present? && StartsWith(p.mediaUrl.value, LocalPrefix)
  }

  /**
   * Whether the script tries to upload `p`: its media is local and the
   * file exists (`disk` describes the file under `public/` at that path).
   */
  predicate NeedsUpload(p: Project, disk: string -> LocalFile) {
    IsLocalMedia(p) && !disk(p.mediaUrl.value).Missing?
  }

  function CallFor(p: Project): MigrationCall
    requires p.mediaUrl.Present?
  {
    MigrationCall(p.mediaUrl.value, p.mediaType)
  }

  /**
   * One project after its turn in the loop, or `None` when reading its file
   * throws, or its upload throws or yields no result (reading `secure_url`
   * of nothing throws).
   */
  function Migrated(p: Project, disk: string -> LocalFile, upload: MigrationCall -> UploaderOutcome): Option<Project> {
    if NeedsUpload(p, disk) then
      if disk(p.mediaUrl.value).Unreadable? then None
      else match upload(CallFor(p))
        case Uploaded(url, _) => Some(p.(mediaUrl := Present(url)))
        case _ => None
    else Some(p)
  }

  /** The whole loop: every project migrated in order, or `None` once one fails. */
  function MigrateAll(ps: seq<Project>, disk: string -> LocalFile, upload: MigrationCall -> UploaderOutcome): Option<seq<Project>>
    decreases |ps|
  {
    if ps == [] then Some([])
    else match MigrateAll(ps[..|ps| - 1], disk, upload)
      case None => None
      case Some(done) =>
        match Migrated(ps[|ps| - 1], disk, upload)
        case None => None
        case Some(q) => Some(done + [q])
  }

  /** The uploader calls a complete run makes: one per project that needs an upload, in order. */
  function CallsFor(ps: seq<Project>, disk: string -> LocalFile): seq<MigrationCall>
    decreases |ps|
  {
    if ps == [] then []
    else
      var last := ps[|ps| - 1];
      CallsFor(ps[..|ps| - 1], disk) + (if NeedsUpload(last, disk) then [CallFor(last)] else [])
  }

  /**
   * A project's turn changes at most its `mediaUrl`, and only when it needs
   * an upload; it fails exactly when the file cannot be read or the upload
   * fails; the new URL is the uploaded copy's.
   */
  lemma MigratedEffect(p: Project, disk: string -> LocalFile, upload: MigrationCall -> UploaderOutcome)
    ensures Migrated(p, disk, upload).None? <==>
      NeedsUpload(p, disk) && (disk(p.mediaUrl.value).Unreadable? || !upload(CallFor(p)).Uploaded?)
    ensures !NeedsUpload(p, disk) ==> Migrated(p, disk, upload) == Some(p)
    ensures NeedsUpload(p, disk) && disk(p.mediaUrl.value).Readable? && upload(CallFor(p)).Uploaded? ==>
      Migrated(p, disk, upload) == Some(p.(mediaUrl := Present(upload(CallFor(p)).secureUrl)))
  {
  }

  /**
   * The loop succeeds exactly when every project's turn succeeds, and then
   * yields the migrated projects position by position.
   */
  lemma {:induction false} MigrateAllPointwise(ps: seq<Project>, disk: string -> LocalFile, upload: MigrationCall -> UploaderOutcome)
    ensures MigrateAll(ps, disk, upload).Some? <==>
      forall k :: 0 <= k < |ps| ==> Migrated(ps[k], disk, upload).Some?
    ensures MigrateAll(ps, disk, upload).Some? ==>
      |MigrateAll(ps, disk, upload).value| == |ps|
      && forall k :: 0 <= k < |ps| ==> MigrateAll(ps, disk, upload).value[k] == Migrated(ps[k], disk, upload).value
    decreases |ps|
  {
    if ps != [] {
      var init := ps[..|ps| - 1];
      MigrateAllPointwise(init, disk, upload);
      assert forall k :: 0 <= k < |init| ==> init[k] == ps[k];
      if MigrateAll(ps, disk, upload).Some? {
        var done := MigrateAll(init, disk, upload).value;
        var q := Migrated(ps[|ps| - 1], disk, upload).value;
        assert MigrateAll(ps, disk, upload).value == done + [q];
      } else if MigrateAll(init, disk, upload).None? {
        var k :| 0 <= k < |init| && Migrated(init[k], disk, upload).None?;
        assert Migrated(ps[k], disk, upload).None?;
      }
    }
  }

  /**
   * A migrated file keeps every project, in order, with the same id and
   * every field but `mediaUrl`; so distinct ids stay distinct and
   * `mediaUrl`/`mediaType` stay paired.
   */
  lemma MigrationKeepsProjects(ps: seq<Project>, disk: string -> LocalFile, upload: MigrationCall -> UploaderOutcome)
    requires MigrateAll(ps, disk, upload).Some?
    ensures var qs := MigrateAll(ps, disk, upload).value;
      && |qs| == |ps|
      && (forall k :: 0 <= k < |ps| ==> qs[k] == ps[k].(mediaUrl := qs[k].mediaUrl))
      && (forall k :: 0 <= k < |ps| && !NeedsUpload(ps[k], disk) ==> qs[k] == ps[k])
      && (DistinctIds(ps) ==> DistinctIds(qs))
      && ((forall k :: 0 <= k < |ps| ==> MediaPaired(ps[k])) ==> forall k :: 0 <= k < |qs| ==> MediaPaired(qs[k]))
  {
    MigrateAllPointwise(ps, disk, upload);
    var qs := MigrateAll(ps, disk, upload).value;
    forall k | 0 <= k < |ps|
      ensures qs[k] == ps[k].(mediaUrl := qs[k].mediaUrl)
      ensures !NeedsUpload(ps[k], disk) ==> qs[k] == ps[k]
      ensures ps[k].mediaUrl.Null? == qs[k].mediaUrl.Null?
    {
      MigratedEffect(ps[k], disk, upload);
    }
  }

  /**
   * Running the script again after a complete run changes nothing, as long
   * as the uploader's URLs are not themselves local `/uploads/` paths.
   */
  lemma MigrationSettles(ps: seq<Project>, disk: string -> LocalFile, upload: MigrationCall -> UploaderOutcome)
    requires MigrateAll(ps, disk, upload).Some?
    requires forall c :: upload(c).Uploaded? ==> !StartsWith(upload(c).secureUrl, LocalPrefix)
    ensures MigrateAll(MigrateAll(ps, disk, upload).value, disk, upload) == MigrateAll(ps, disk, upload)
  {
    var qs := MigrateAll(ps, disk, upload).value;
    MigrateAllPointwise(ps, disk, upload);
    forall k | 0 <= k < |qs|
      ensures Migrated(qs[k], disk, upload) == Some(qs[k])
    {
      MigratedEffect(ps[k], disk, upload);
      if NeedsUpload(ps[k], disk) {
        assert !IsLocalMedia(qs[k]);
      }
    }
    MigrateAllPointwise(qs, disk, upload);
    assert MigrateAll(qs, disk, upload).value == qs;
  }

  /** Once a prefix of the projects fails, the whole run fails. */
  lemma {:induction false} FailureAborts(ps: seq<Project>, i: nat, disk: string -> LocalFile, upload: MigrationCall -> UploaderOutcome)
    requires i <= |ps| && MigrateAll(ps[..i], disk, upload).None?
    ensures MigrateAll(ps, disk, upload).None?
  {
    MigrateAllPointwise(ps[..i], disk, upload);
    var k :| 0 <= k < i && Migrated(ps[..i][k], disk, upload).None?;
    MigrateAllPointwise(ps, disk, upload);
    assert ps[..i][k] == ps[k];
  }

  /** Extending the prefix by one project extends the run and its calls by that project's turn. */
  lemma PrefixStep(ps: seq<Project>, i: nat, disk: string -> LocalFile, upload: MigrationCall -> UploaderOutcome)
    requires i < |ps|
    ensures MigrateAll(ps[..i + 1], disk, upload) ==
      match MigrateAll(ps[..i], disk, upload)
      case None => None
      case Some(done) =>
        match Migrated(ps[i], disk, upload)
        case None => None
        case Some(q) => Some(done + [q])
    ensures CallsFor(ps[..i + 1], disk)
      == CallsFor(ps[..i], disk) + (if NeedsUpload(ps[i], disk) then [CallFor(ps[i])] else [])
  {
    assert ps[..i + 1][..i] == ps[..i];
  }

  /** The calls made before a given project are a prefix of a complete run's calls. */
  lemma {:induction false} CallsForPrefix(ps: seq<Project>, i: nat, disk: string -> LocalFile)
    requires i <= |ps|
    ensures CallsFor(ps[..i], disk) <= CallsFor(ps, disk)
    decreases |ps| - i
  {
    if i == |ps| {
      assert ps[..i] == ps;
    } else {
      assert ps[..i + 1][..i] == ps[..i];
      CallsForPrefix(ps, i + 1, disk);
      var short, mid, full := CallsFor(ps[..i], disk), CallsFor(ps[..i + 1], disk), CallsFor(ps, disk);
      assert short == mid[..|short|];
      assert mid == full[..|mid|];
      assert short == full[..|short|];
    }
  }

  /** The projects data file the script reads and rewrites. */
  class ProjectsFile {
    var contents: DataFile

    constructor(initial: DataFile)
      ensures contents == initial
    {
      contents := initial;
    }

    /**
     * `migrateToCloudinary`. Returns the uploader calls it made. The file
     * is rewritten only when every upload succeeded; a run that stops
     * early has made a prefix of a complete run's calls. An unreadable
     * file is left alone and nothing is uploaded.
     */
    method Migrate(disk: string -> LocalFile, upload: MigrationCall -> UploaderOutcome, write: WriteOutcome<DataFile>)
      returns (calls: seq<MigrationCall>)
      modifies this
      ensures old(contents).Unreadable? ==> contents == old(contents) && calls == []
      ensures old(contents).Holds? ==>
        match MigrateAll(old(contents).projects, disk, upload)
        case None => contents == old(contents) && calls <= CallsFor(old(contents).projects, disk)
        case Some(qs) =>
          && calls == CallsFor(old(contents).projects, disk)
          && contents == (if write.Written? then Holds(qs) else write.left)
    {
      calls := [];
      if contents.Unreadable? {
        return;
      }
      var ps := contents.projects;
      var a := new Project[|ps|](k requires 0 <= k < |ps| => ps[k]);
      var i := 0;
      while i < a.Length
        invariant 0 <= i <= a.Length && a.Length == |ps|
        invariant contents == old(contents)
        invariant MigrateAll(ps[..i], disk, upload) == Some(a[..i])
        invariant forall k :: i <= k < a.Length ==> a[k] == ps[k]
        invariant calls == CallsFor(ps[..i], disk)
      {
        var p := a[i];
        PrefixStep(ps, i, disk, upload);
        if NeedsUpload(p, disk) {
          if disk(p.mediaUrl.value).Unreadable? {
            FailureAborts(ps, i + 1, disk, upload);
            CallsForPrefix(ps, i, disk);
            return;
          }
          var outcome := upload(CallFor(p));
          calls := calls + [CallFor(p)];
          match outcome {
            case Uploaded(url, _) =>
              a[i] := p.(mediaUrl := Present(url));
            case _ =>
              FailureAborts(ps, i + 1, disk, upload);
              CallsForPrefix(ps, i + 1, disk);
              return;
          }
        }
        assert a[..i + 1] == a[..i] + [a[i]];
        i := i + 1;
      }
      assert ps[..i] == ps;
      match write {
        case Written => contents := Holds(a[..]);
        case WriteFailed(left) => contents := left;
      }
    }
  }
}
