/**
 * The edits the admin projects page makes to the project being edited (its
 * "draft"). Each handler replaces the draft with a spread copy
 * (`{ ...editingProject, field: value }`), so each is a function from the
 * old draft to the new one.
 */
module Drafts {
  import opened Text
  import opened Projects

  /** The text inputs of the edit form. */
  datatype Field = DateField | TitleField | TitleUrlField | DescriptionField

  /** Typing `value` into one of the form's text inputs. */
  function EditField(d: Project, f: Field, value: string): (r: Project)
    ensures r.technologies == d.technologies && r.newTech == d.newTech
    ensures r.mediaUrl == d.mediaUrl && r.mediaType == d.mediaType && r.id == d.id
    ensures f == DateField ==> r == d.(date := value)
    ensures f == TitleField ==> r == d.(title := value)
    ensures f == TitleUrlField ==> r == d.(titleUrl := Present(value))
    ensures f == DescriptionField ==> r == d.(description := value)
  {
    match f
    case DateField => d.(date := value)
    case TitleField => d.(title := value)
    case TitleUrlField => d.(titleUrl := Present(value))
    case DescriptionField => d.(description := value)
  }

  /**
   * The project the "Add New Project" button creates: placeholder title,
   * description and tags, no media and an empty title link.
   */
  function NewProject(id: string, date: string): (r: Project)
    ensures r.id == id && r.date == date
    ensures r.mediaUrl == Null && r.mediaType == Null && MediaPaired(r)
    ensures NoDuplicates(r.technologies) && |r.technologies| == 2
  {
    Project(
      id := id,
      title := "새 프로젝트 제목",
      description := "프로젝트 설명을 여기에 작성하세요.",
      technologies := ["기술 1", "기술 2"],
      date := date,
      newTech := Undefined,
      mediaUrl := Null,
      mediaType := Null,
      titleUrl := Present(""))
  }

  /**
   * Committing the text of the tag input: its trimmed form is appended to the
   * technologies and the input is cleared, unless it is blank or already
   * there, in which case nothing changes.
   */
  function CommitTag(d: Project, text: string): (r: Project)
    ensures r == d.(technologies := r.technologies, newTech := r.newTech)
  {
    var t := Trim(text);
    if t != "" && t !in d.technologies then
      d.(technologies := d.technologies + [t], newTech := Present(""))
    else
      d
  }

  /**
   * The tag input's `onChange`: a value ending in a comma commits what
   * precedes the comma, adding it trimmed exactly when it is non-blank and
   * not yet a tag; any other value becomes the pending text. A comma
   * after a blank or already present tag is swallowed: nothing changes,
   * and the input keeps its text without the comma.
   */
  function TagInputChange(d: Project, value: string): (r: Project)
    ensures r == d.(technologies := r.technologies, newTech := r.newTech)
    ensures !EndsWith(value, ",") ==> r.technologies == d.technologies && r.newTech == Present(value)
    ensures EndsWith(value, ",") && r.technologies == d.technologies ==> r == d
    ensures EndsWith(value, ",") ==>
      (r.technologies != d.technologies <==> !IsBlank(value[..|value| - 1]) && Trim(value[..|value| - 1]) !in d.technologies)
    ensures r.technologies != d.technologies ==>
      EndsWith(value, ",") && r.technologies == d.technologies + [Trim(value[..|value| - 1])] && r.newTech == Present("")
  {
    if EndsWith(value, ",") then
      CommitTagEffect(d, value[..|value| - 1]);
      CommitTag(d, value[..|value| - 1])
    else d.(newTech := Present(value))
  }

  /**
   * The tag input's `onKeyDown`: Enter commits the pending text, adding it
   * trimmed exactly when it is non-blank and not yet a tag; any other key,
   * and Enter with nothing new to add, change nothing.
   */
  function TagKeyDown(d: Project, key: string): (r: Project)
    ensures r == d.(technologies := r.technologies, newTech := r.newTech)
    ensures key != "Enter" ==> r == d
    ensures r.technologies == d.technologies ==> r == d
    ensures key == "Enter" ==>
      (r.technologies != d.technologies <==>
        d.newTech.Present? && !IsBlank(d.newTech.value) && Trim(d.newTech.value) !in d.technologies)
    ensures r.technologies != d.technologies ==>
      d.newTech.Present? && r.technologies == d.technologies + [Trim(d.newTech.value)] && r.newTech == Present("")
  {
    if key == "Enter" && d.newTech.Present? && d.newTech.value != "" then
      CommitTagEffect(d, d.newTech.value);
      CommitTag(d, d.newTech.value)
    else
      TrimEmptyIffBlank("");
      d
  }

  /** `s.filter((_, i) => i !== index)`. */
  function WithoutIndex<T>(s: seq<T>, index: int): seq<T> {
    if s == [] then []
    else WithoutIndex(s[..|s| - 1], index) + (if |s| - 1 == index then [] else [s[|s| - 1]])
  }

  /** The × button of the tag at `index`. */
  function DeleteTag(d: Project, index: int): (r: Project)
    ensures r == d.(technologies := r.technologies)
  {
    d.(technologies := WithoutIndex(d.technologies, index))
  }

  /** The confirmed "삭제" (delete) button of the media preview: both media fields become `undefined`. */
  function RemoveMedia(d: Project): (r: Project)
    ensures r == d.(mediaUrl := Undefined, mediaType := Undefined)
  {
    d.(mediaUrl := Undefined, mediaType := Undefined)
  }

  /** A successful upload's URL and kind, spread into the draft. */
  function WithUploadedMedia(d: Project, url: string, kind: MediaKind): (r: Project)
    ensures r == d.(mediaUrl := Present(url), mediaType := Present(kind))
  {
    d.(mediaUrl := Present(url), mediaType := Present(kind))
  }

  /**
   * The copy the Save button sends: no pending tag text, and a falsy media
   * URL or type (`undefined`, `null`, `""`) replaced by `null`.
   */
  function SaveCopy(d: Project): Project {
    d.(
      newTech := Undefined,
      mediaUrl := if d.mediaUrl.Present? && d.mediaUrl.value != "" then d.mediaUrl else Null,
      mediaType := if d.mediaType.Present? then d.mediaType else Null)
  }

  /** Every tag is non-empty and has no surrounding whitespace: the form the tag input commits. */
  predicate TagsTrimmed(tags: seq<string>) {
    forall k :: 0 <= k < |tags| ==> tags[k] != "" && IsTrimmed(tags[k])
  }

  /**
   * Committing adds a tag exactly when the trimmed text is non-blank and
   * new, and then clears the input; afterwards a non-blank text is among
   * the tags in trimmed form, and nothing else was added or lost. A commit
   * that adds nothing leaves the draft, pending text included, as it was.
   */
  lemma CommitTagEffect(d: Project, text: string)
    ensures var r := CommitTag(d, text);
      && (r.technologies != d.technologies <==> !IsBlank(text) && Trim(text) !in d.technologies)
      && (!IsBlank(text) ==> Trim(text) in r.technologies)
      && (r.technologies == d.technologies || r.technologies == d.technologies + [Trim(text)])
      && (r.technologies != d.technologies ==> r.newTech == Present(""))
      && (r.technologies == d.technologies ==> r == d)
  {
    TrimEmptyIffBlank(text);
    var r := CommitTag(d, text);
    if !IsBlank(text) && Trim(text) !in d.technologies {
      assert |r.technologies| == |d.technologies| + 1;
      assert r.technologies[|d.technologies|] == Trim(text);
    }
  }

  /** Committing keeps the tags free of duplicates and all in trimmed, non-empty form. */
  lemma CommitTagKeepsTagsClean(d: Project, text: string)
    requires NoDuplicates(d.technologies) && TagsTrimmed(d.technologies)
    ensures NoDuplicates(CommitTag(d, text).technologies)
    ensures TagsTrimmed(CommitTag(d, text).technologies)
  {
    var s := d.technologies;
    var t := Trim(text);
    if t != "" && t !in s {
      var s' := s + [t];
      assert CommitTag(d, text).technologies == s';
      TrimmedMeansFixed(text);
      forall i, j | 0 <= i < j < |s'|
        ensures s'[i] != s'[j]
      {
        if j == |s| {
          assert s'[i] == s[i] && s[i] in s;
        }
      }
      forall k | 0 <= k < |s'|
        ensures s'[k] != "" && IsTrimmed(s'[k])
      {
        if k < |s| {
          assert s'[k] == s[k];
        }
      }
    }
  }

  /** Committing the same text twice adds it once. */
  lemma CommitTagIdempotent(d: Project, text: string)
    ensures CommitTag(CommitTag(d, text), text) == CommitTag(d, text)
  {
    var t := Trim(text);
    if t != "" && t !in d.technologies {
      var r := CommitTag(d, text);
      assert r.technologies[|d.technologies|] == t;
    }
  }

  /**
   * Typing a comma after some text adds the same tag as pressing Enter
   * after typing that text.
   */
  lemma CommaAndEnterAgree(d: Project, value: string)
    requires !EndsWith(value, ",")
    ensures TagInputChange(d, value + ",").technologies
      == TagKeyDown(TagInputChange(d, value), "Enter").technologies
  {
    var typed := value + ",";
    assert EndsWith(typed, ",") by {
      assert typed[|typed| - 1..] == ",";
    }
    assert typed[..|typed| - 1] == value;
    if value == "" {
      assert Trim(value) == "";
    }
  }

  /** Removing the tag at `index` drops exactly that entry when it exists, and nothing otherwise. */
  lemma {:induction false} WithoutIndexDrops<T>(s: seq<T>, index: int)
    ensures 0 <= index < |s| ==> WithoutIndex(s, index) == s[..index] + s[index + 1..]
    ensures !(0 <= index < |s|) ==> WithoutIndex(s, index) == s
  {
    if s != [] {
      var init := s[..|s| - 1];
      WithoutIndexDrops(init, index);
      if index == |s| - 1 {
        assert init == s[..index] && s[index + 1..] == [];
      } else if 0 <= index < |s| - 1 {
        assert init[..index] == s[..index];
        assert init[index + 1..] + [s[|s| - 1]] == s[index + 1..];
      } else {
        assert init + [s[|s| - 1]] == s;
      }
    }
  }

  /** Deleting a tag keeps the remaining tags free of duplicates and trimmed. */
  lemma DeleteTagKeepsTagsClean(d: Project, index: int)
    requires NoDuplicates(d.technologies) && TagsTrimmed(d.technologies)
    ensures NoDuplicates(DeleteTag(d, index).technologies)
    ensures TagsTrimmed(DeleteTag(d, index).technologies)
  {
    var s := d.technologies;
    WithoutIndexDrops(s, index);
    if 0 <= index < |s| {
      var r := s[..index] + s[index + 1..];
      assert forall k :: 0 <= k < |r| ==> r[k] == s[if k < index then k else k + 1];
    }
  }

  /** Deleting the tag just committed gives back the tags as they were. */
  lemma DeleteUndoesCommit(d: Project, text: string)
    requires !IsBlank(text) && Trim(text) !in d.technologies
    ensures DeleteTag(CommitTag(d, text), |d.technologies|).technologies == d.technologies
  {
    CommitTagEffect(d, text);
    var s := CommitTag(d, text).technologies;
    WithoutIndexDrops(s, |d.technologies|);
    assert s[..|d.technologies|] == d.technologies;
  }

  /**
   * The saved copy never carries `undefined` media fields or an empty media
   * URL, drops the pending tag text, keeps every other field, and keeps a
   * media URL and type that were set.
   */
  lemma SaveCopyNormalises(d: Project)
    ensures var r := SaveCopy(d);
      && r.newTech == Undefined
      && !r.mediaUrl.Undefined? && !r.mediaType.Undefined?
      && r.mediaUrl != Present("")
      && (d.mediaUrl.Present? && d.mediaUrl.value != "" <==> r.mediaUrl == d.mediaUrl && !r.mediaUrl.Null?)
      && (d.mediaType.Present? <==> r.mediaType == d.mediaType && !r.mediaType.Null?)
      && r == d.(newTech := Undefined, mediaUrl := r.mediaUrl, mediaType := r.mediaType)
  {
  }

  /** Normalising a saved copy again changes nothing. */
  lemma SaveCopyIdempotent(d: Project)
    ensures SaveCopy(SaveCopy(d)) == SaveCopy(d)
  {
  }

  /** Saving after the media was removed sends `null` for both media fields. */
  lemma SaveAfterRemoveMedia(d: Project)
    ensures SaveCopy(RemoveMedia(d)).mediaUrl == Null
    ensures SaveCopy(RemoveMedia(d)).mediaType == Null
    ensures MediaPaired(SaveCopy(RemoveMedia(d)))
  {
  }

  /** A draft holding an uploaded media URL and kind is saved with both, paired. */
  lemma SaveAfterUpload(d: Project, url: string, kind: MediaKind)
    requires url != ""
    ensures SaveCopy(WithUploadedMedia(d, url, kind)).mediaUrl == Present(url)
    ensures SaveCopy(WithUploadedMedia(d, url, kind)).mediaType == Present(kind)
    ensures MediaPaired(SaveCopy(WithUploadedMedia(d, url, kind)))
  {
  }

  /** One user action on the edit form. */
  datatype DraftEdit =
    | Typed(field: Field, value: string)      // a text input's `onChange`
    | TagTyped(value: string)                 // the tag input's `onChange`
    | TagKey(key: string)                     // the tag input's `onKeyDown`
    | TagRemoved(index: int)                  // a tag's × button
    | MediaRemoved(confirmed: bool)           // the media "삭제" button and its confirm dialog

  /** The draft after one action. */
  function Apply(d: Project, e: DraftEdit): Project {
    match e
    case Typed(f, value) => EditField(d, f, value)
    case TagTyped(value) => TagInputChange(d, value)
    case TagKey(key) => TagKeyDown(d, key)
    case TagRemoved(index) => DeleteTag(d, index)
    case MediaRemoved(confirmed) => if confirmed then RemoveMedia(d) else d
  }

  /**
   * No form action changes the draft's id, and every one keeps its tags
   * free of duplicates and in trimmed, non-empty form; only a confirmed
   * media removal touches the media fields.
   */
  lemma ApplyKeepsDraftClean(d: Project, e: DraftEdit)
    requires NoDuplicates(d.technologies) && TagsTrimmed(d.technologies)
    ensures Apply(d, e).id == d.id
    ensures NoDuplicates(Apply(d, e).technologies) && TagsTrimmed(Apply(d, e).technologies)
    ensures e != MediaRemoved(true) ==>
      Apply(d, e).mediaUrl == d.mediaUrl && Apply(d, e).mediaType == d.mediaType
  {
    match e
    case Typed(f, value) =>
    case TagTyped(value) =>
      assert Apply(d, e) == TagInputChange(d, value);
      if EndsWith(value, ",") {
        CommitTagKeepsTagsClean(d, value[..|value| - 1]);
      }
    case TagKey(key) =>
      assert Apply(d, e) == TagKeyDown(d, key);
      if key == "Enter" && d.newTech.Present? && d.newTech.value != "" {
        CommitTagKeepsTagsClean(d, d.newTech.value);
      }
    case TagRemoved(index) =>
      DeleteTagKeepsTagsClean(d, index);
    case MediaRemoved(confirmed) =>
  }
}
