# Portfolio admin and content routes, modelled in Dafny

This project models the data-handling core of a personal portfolio site built
with Next.js:

- **The admin projects page** (`app/admin/ai-works/page.tsx`). The admin loads
  the project list, creates, edits and deletes projects, edits a draft through
  its form (text fields, tags, media removal), uploads media for the draft, and
  sees the list sorted newest first. The page's descriptions turn URLs into links.
- **The projects route** (`app/api/ai-works/route.ts`). `GET` answers a
  built-in catalogue of six projects. `POST` rejects every request.
- **The about route** (`app/api/about/route.ts`) and **the admin about editor**
  (`app/admin/about/page.tsx`). They keep a one-field JSON record `{ content }`.
- **The upload route** (`app/api/upload/route.ts`). It forwards a form's file
  to the media host under a resource type chosen from its MIME type.
- **The migration script** (`scripts/migrate-to-cloudinary.ts`). It uploads
  every project's locally stored media and rewrites the projects file.
- **The home-page animations** (`app/page.tsx`, whose code `app/admin/page.tsx`
  repeats). A typewriter types and deletes the headline. A highlight cycles
  through three floating words as the mouse moves.

Modules follow the program. `Projects`, `Text`, `Json`, `Opt`, `Media` and
`Files` hold the shared records and helpers. The media host
(`uploadToCloudinary`) is an oracle parameter: each call throws, resolves to
nothing, or resolves to a URL and a public id. These are parameters too:

- every server answer a page waits for;
- whether a local media file is missing, unreadable or readable;
- the outcome of writing a data file. A write either succeeds or fails, and a
  failed write names the state it leaves the file in. `writeFile` truncates
  before it writes, so that state may be empty, partial or untouched;
- `Date.now()` and the answer of a confirm dialog.

The state the pages and routes change in place (the admin
session, the about editor, the about data file, the projects data file, the
typewriter and the word highlight) is a `class` whose methods state their
whole new state.

The code behaves as follows, which a reader might not expect:

- The about route's `GET` answers 500 when the data file is missing. It does
  not create a default record.
- The upload route sends every file that is not `video/` to the media host as
  an image, including non-media files. It has no size limit and never answers
  413. The 100 MB limit and the image/video check exist only on the admin page.
- The projects route's `POST` rejects every JSON body with 400 ("Updates not
  supported in production"). So every save, create, delete and post-upload
  save of the admin page fails against it. `EditSession.SaveOnDeployedSite`
  and `EditSession.UploadOnDeployedSite` prove the consequences.

## Model

| member | source | states |
|---|---|---|
| Projects.IndexOfId | app/admin/ai-works/page.tsx:81 | `findIndex` by id: the index found holds the id and is the first such; `None` exactly when no project has the id |
| Projects.FindById | app/admin/ai-works/page.tsx:146 | `find` by id: a project is found exactly when one with that id exists, and it is the first project in the list with that id |
| Text.Trim | app/admin/ai-works/page.tsx:730-748 | `trim()`; its properties are stated by the four lemmas below |
| Text.TrimIsStrippedSlice | app/admin/ai-works/page.tsx:730 | `trim()` yields a contiguous slice of its input with only whitespace removed before and after it |
| Text.TrimEmptyIffBlank | app/admin/ai-works/page.tsx:748 | a trimmed text is empty exactly when the input is all whitespace; otherwise it starts and ends with non-whitespace |
| Text.TrimmedMeansFixed | app/admin/ai-works/page.tsx:730 | a text is trimmed exactly when trimming leaves it unchanged, and every trim result is trimmed |
| Text.TrimIdempotent | app/admin/ai-works/page.tsx:748 | trimming twice equals trimming once |
| Json.Property | app/admin/about/page.tsx:27 | reading a key that no JavaScript value inherits (`content`, `error`, `projects`): an object's own value for it, `undefined` when the object lacks it and for every other value, and a throw on `null` |
| Json.Single | app/api/about/route.ts:22-23 | a one-key object: it holds the given string under the given key and no other key |
| Json.ErrorBody | app/api/about/route.ts:22-23 | an error answer is an object whose `error` key holds the message, and it has no other key |
| Media.KindOf | app/api/upload/route.ts:21 | the resource type is video exactly when the MIME type starts with `video/` |
| Media.GateAgreesWithClassifier | app/admin/ai-works/page.tsx:688-713 | every file the page's type and size gate lets through is classified by the route as image exactly when it is `image/` and as video exactly when it is `video/` |
| UploadRoute.UploaderCall | app/api/upload/route.ts:6-24 | the media host is called exactly when the form's `file` entry is a file; with that file's bytes, as video exactly for a `video/` type |
| UploadRoute.Post | app/api/upload/route.ts:4-43 | the route succeeds exactly when the form's `file` entry is a file and the host returns a result; every failure answers 400 or 500 |
| UploadRoute.PostOutcomes | app/api/upload/route.ts:4-43 | 400 exactly when the form has no usable `file` entry; success exactly when a file reached the host and the host returned a result; 500 in every other case |
| UploadRoute.SuccessReportsUpload | app/api/upload/route.ts:24-34 | a success reports the host's URL and public id under the resource type the host was asked for |
| UploadRoute.GatedUploadKind | app/api/upload/route.ts:21 | a gated file's successful upload is reported as an image exactly when the file is `image/` |
| AboutRoute.ContentRecord | app/api/about/route.ts:52 | the record written holds the content under `content`, and no other key |
| AboutRoute.CheckBody | app/api/about/route.ts:36-38 | the body throws exactly when it is not JSON or is `null`; it is accepted with `c` exactly when it is an object whose `content` is the non-empty string `c` |
| AboutRoute.GetResponse | app/api/about/route.ts:9-32 | 200 with the file's data exactly when the file holds JSON; otherwise 500 with "Failed to fetch content" |
| AboutRoute.AboutStore.Get | app/api/about/route.ts:9-32 | `GET` answers as `GetResponse` on the current file and changes nothing |
| AboutRoute.AboutStore.Post | app/api/about/route.ts:34-77 | a body that throws gives 500 and an invalid content 400, both leaving the file alone; valid content is written and echoed with 200 when the write succeeds; when it fails the answer is 500 and the file is in whatever state the failed write left |
| AboutRoute.StringContentCheck | app/api/about/route.ts:38 | a string content is accepted exactly when it is not empty |
| AboutRoute.PostThenGet | app/api/about/route.ts:50-57 | after a successful `POST` of `c`, `GET` answers 200 with `content` equal to `c` |
| AboutEditor.SaveBody | app/admin/about/page.tsx:43 | the request body holds `content` exactly when the text is defined, and then holds that value |
| AboutEditor.Editor.constructor | app/admin/about/page.tsx:8-10 | the editor starts with empty text, loading and not saving |
| AboutEditor.Editor.FetchContent | app/admin/about/page.tsx:23-33 | loading ends; the text becomes the record's `content`, or `undefined` when it has none, and stays as it was when the fetch or the parsing failed |
| AboutEditor.Editor.Edit | app/admin/about/page.tsx:146 | typing sets the text and nothing else |
| AboutEditor.Editor.BeginSave | app/admin/about/page.tsx:35-43 | a save raises the flag and sends the current text as `{ content }` |
| AboutEditor.Editor.EndSave | app/admin/about/page.tsx:44-57 | the flag comes down and the alert is the success message exactly when the answer was ok |
| AboutEditor.SaveAcceptedIffNonEmptyText | app/admin/about/page.tsx:43 | the editor's save passes the route's check exactly when the text is a non-empty string, and then carries that text |
| AboutEditor.SaveAfterFailedFetch | app/admin/about/page.tsx:23-57 | when the about file cannot be read, the editor holds `undefined`, and saving it is refused with 400 and leaves the file as it was |
| Drafts.EditField | app/admin/ai-works/page.tsx:604-641 | typing in a text input changes exactly the field it edits (the title link becomes present), nothing else |
| Drafts.NewProject | app/admin/ai-works/page.tsx:539-548 | a new project has the given id and date, null and paired media, and two distinct placeholder tags |
| Drafts.TagInputChange | app/admin/ai-works/page.tsx:727-744 | typing changes only the tags and the pending text; text not ending in a comma becomes the pending text; text ending in a comma adds its trimmed prefix at the end of the tags, and clears the pending text, exactly when that prefix is non-blank and not yet a tag; otherwise the draft is left as it was |
| Drafts.TagKeyDown | app/admin/ai-works/page.tsx:745-757 | Enter adds the pending text, trimmed, at the end of the tags and clears it, exactly when that text is non-blank and not yet a tag; any other key, or Enter that adds no tag, leaves the draft as it was |
| Drafts.CommitTag | app/admin/ai-works/page.tsx:730-741 | committing a tag changes only the tags and the pending text |
| Drafts.CommitTagEffect | app/admin/ai-works/page.tsx:727-757 | a tag is added exactly when the trimmed text is non-blank and new, then at the end; a non-blank text ends up among the tags in trimmed form; nothing else is added or lost; a commit that adds no tag leaves the draft as it was, pending text included |
| Drafts.CommitTagKeepsTagsClean | app/admin/ai-works/page.tsx:727-757 | committing keeps the tags distinct, non-empty and trimmed |
| Drafts.CommitTagIdempotent | app/admin/ai-works/page.tsx:733 | committing the same text twice adds it once |
| Drafts.CommaAndEnterAgree | app/admin/ai-works/page.tsx:727-757 | typing a comma after a text adds the same tag as typing the text and pressing Enter |
| Drafts.WithoutIndex | app/admin/ai-works/page.tsx:770 | the index filter; stated by `WithoutIndexDrops` |
| Drafts.WithoutIndexDrops | app/admin/ai-works/page.tsx:770 | the index filter drops exactly the entry at a valid index and nothing at an invalid one |
| Drafts.DeleteTag | app/admin/ai-works/page.tsx:767-772 | the × button changes only the tags |
| Drafts.DeleteTagKeepsTagsClean | app/admin/ai-works/page.tsx:767-772 | deleting a tag keeps the remaining tags distinct, non-empty and trimmed |
| Drafts.DeleteUndoesCommit | app/admin/ai-works/page.tsx:727-772 | deleting the tag just committed restores the earlier tags |
| Drafts.RemoveMedia | app/admin/ai-works/page.tsx:664-672 | a confirmed media removal makes both media fields `undefined` and changes nothing else |
| Drafts.WithUploadedMedia | app/admin/ai-works/page.tsx:119-123 | the uploaded URL and kind replace the draft's media fields and nothing else |
| Drafts.SaveCopy | app/admin/ai-works/page.tsx:786-791 | the copy the Save button sends; stated by `SaveCopyNormalises` and `SaveCopyIdempotent` |
| Drafts.SaveCopyNormalises | app/admin/ai-works/page.tsx:786-791 | the saved copy has no pending tag text, no `undefined` or empty media field, keeps set media and every other field |
| Drafts.SaveCopyIdempotent | app/admin/ai-works/page.tsx:786-791 | normalising a saved copy again changes nothing |
| Drafts.SaveAfterRemoveMedia | app/admin/ai-works/page.tsx:664-672 | saving after a media removal sends `null` for both media fields |
| Drafts.SaveAfterUpload | app/admin/ai-works/page.tsx:119-127 | saving a draft with uploaded media sends the URL and kind, paired |
| Drafts.Apply | app/admin/ai-works/page.tsx:604-772 | the form's actions on the draft; stated by `ApplyKeepsDraftClean` |
| Drafts.ApplyKeepsDraftClean | app/admin/ai-works/page.tsx:604-772 | no form action changes the draft's id; every action keeps the tags distinct, non-empty and trimmed; only a confirmed media removal touches the media |
| Links.SchemeLengthMeans | app/admin/ai-works/page.tsx:29 | the scheme found is `https://` or `http://` exactly when the text there starts with it |
| Links.NonSpaceRunSpan | app/admin/ai-works/page.tsx:29 | the greedy `[^\s]+` run has no whitespace and stops at whitespace or at the end |
| Links.NextMatch | app/admin/ai-works/page.tsx:30 | the next match position is a match, and no match starts before it |
| Links.MatchIsToken | app/admin/ai-works/page.tsx:29-30 | a match is a whole URL token that ends at whitespace or at the end of the text |
| Links.TokenMatchesWhole | app/admin/ai-works/page.tsx:33 | a URL part, tested on its own, matches from its first character to its last |
| Links.NoUrlInStretch | app/admin/ai-works/page.tsx:30-33 | a stretch of the text where no match starts contains no URL when tested on its own |
| Links.SplitParts | app/admin/ai-works/page.tsx:30 | `split` by the URL pattern; stated by `SplitConcat` and `SplitAlternates` |
| Links.Classify | app/admin/ai-works/page.tsx:33-46 | a part renders as its own text, and as a link exactly when it contains a URL |
| Links.SplitConcat | app/admin/ai-works/page.tsx:30 | joining the parts of the split gives back the text |
| Links.SplitAlternates | app/admin/ai-works/page.tsx:30 | the split alternates plain stretches without URLs and URL tokens, each URL followed by a break |
| Links.Linkify | app/admin/ai-works/page.tsx:28-48 | the rendered description; stated by `LinkifyParts`, `LinkifyRoundTrip` and `LinkifyShape` |
| Links.LinkifyParts | app/admin/ai-works/page.tsx:28-48 | each rendered segment is the split part at the same position, a link exactly at odd positions |
| Links.LinkifyRoundTrip | app/admin/ai-works/page.tsx:28-48 | joining the rendered segments gives back the description |
| Links.LinkifyShape | app/admin/ai-works/page.tsx:28-48 | plain text and links alternate, starting and ending with plain text; each link is a whole URL up to whitespace or the end; no plain segment contains a URL |
| DisplayOrder.MonthIndex | app/admin/ai-works/page.tsx:591-592 | a recognised month name is one of the twelve English names, at its index |
| DisplayOrder.MonthNamesRecognised | app/admin/ai-works/page.tsx:544 | every month name the page writes is recognised and holds no space |
| DisplayOrder.DigitsValue | app/admin/ai-works/page.tsx:591-592 | a year is read exactly when it is a non-empty string of decimal digits |
| DisplayOrder.SpaceIndex | app/admin/ai-works/page.tsx:591-592 | the position found holds the first space of the date |
| DisplayOrder.DateKey | app/admin/ai-works/page.tsx:591-592 | the month count of a date; its properties are stated by `DateKeyOfMonthYear`, `DateKeyParts`, `TwoDigitYearRefused` and `KeysAreChronological` |
| DisplayOrder.DateKeyOfMonthYear | app/admin/ai-works/page.tsx:544 | every date the page writes (a full month name and a four-digit year from 1000 on) has a key: twelve per year plus the month's index |
| DisplayOrder.DateKeyOfWords | app/admin/ai-works/page.tsx:591-592 | a month name with no space in it, one space and a four-digit year from 1000 on have that month's and year's key |
| DisplayOrder.DateKeyParts | app/admin/ai-works/page.tsx:591-592 | a month name, the first space and a four-digit number from 1000 on give that month's and year's key |
| DisplayOrder.TwoDigitYearRefused | app/admin/ai-works/page.tsx:591-592 | a month name with a two-digit year has no key |
| DisplayOrder.FourDigitYear | app/admin/ai-works/page.tsx:544 | a four-digit year reads as its decimal value |
| DisplayOrder.KeysAreChronological | app/admin/ai-works/page.tsx:589-595 | keys order dates by year, then by month |
| DisplayOrder.SortNewestFirst | app/admin/ai-works/page.tsx:588-595 | sorting in place leaves the same projects, newest first, and projects with the same date keep their order (the sort is stable) |
| DisplayOrder.Insert | app/admin/ai-works/page.tsx:588-595 | one insertion step extends the sorted prefix by one, permutes the array and keeps the order of equally ranked elements |
| DisplayOrder.WithRankConcat | app/admin/ai-works/page.tsx:588-595 | the equally ranked elements of a concatenation are those of each part, in order |
| DisplayOrder.SwapKeepsOrderOfEquals | app/admin/ai-works/page.tsx:588-595 | swapping two neighbours of different rank keeps the order of every group of equally ranked elements |
| DisplayOrder.ExampleOrder | app/admin/ai-works/page.tsx:589-595 | March 2024 sorts before June 2023, which sorts before January 2023 |
| DisplayOrder.ExampleDates | app/admin/ai-works/page.tsx:544 | the page writes March 2024, June 2023 and January 2023 for those months |
| ProjectsRoute.Get | app/api/ai-works/route.ts:95-105 | `GET` answers the six built-in projects in the order the route lists them, with distinct ids |
| ProjectsRoute.Post | app/api/ai-works/route.ts:108-122 | `POST` answers 400 "Updates not supported in production" for every JSON body, and 500 when the body is not JSON |
| ProjectsRoute.CatalogueWellFormed | app/api/ai-works/route.ts:3-90 | the catalogue has distinct ids, paired media and distinct tags in every project |
| ProjectsRoute.CatalogueIds | app/api/ai-works/route.ts:3-90 | the catalogue's six ids are distinct |
| ProjectsRoute.CatalogueIsDated | app/api/ai-works/route.ts:3-90 | every catalogue date has a sort key, so the admin page's sort is specified on the catalogue |
| ProjectsRoute.CatalogueNeedsNoMigration | app/api/ai-works/route.ts:3-90 | no catalogue media lies under `/uploads/`, so the migration succeeds on it and changes nothing |
| Migration.Migrated | scripts/migrate-to-cloudinary.ts:13-33 | one project's turn; its effect is stated by `MigratedEffect` |
| Migration.MigrateAll | scripts/migrate-to-cloudinary.ts:12-34 | the whole loop; stated by `MigrateAllPointwise`, `MigrationKeepsProjects` and `FailureAborts` |
| Migration.CallsFor | scripts/migrate-to-cloudinary.ts:12-34 | the uploader calls of a complete run; stated by `PrefixStep` and `ProjectsFile.Migrate` |
| Migration.MigratedEffect | scripts/migrate-to-cloudinary.ts:13-33 | a project's turn fails exactly when it needs an upload and the file cannot be read or the upload fails; otherwise only `mediaUrl` changes, to the uploaded URL, and only for a local file that exists |
| Migration.MigrateAllPointwise | scripts/migrate-to-cloudinary.ts:12-34 | the loop succeeds exactly when every project's turn does, and then yields each project's turn in order |
| Migration.MigrationKeepsProjects | scripts/migrate-to-cloudinary.ts:12-34 | a migrated file keeps every project in order with every field but `mediaUrl`; distinct ids and paired media are kept |
| Migration.MigrationSettles | scripts/migrate-to-cloudinary.ts:5-43 | running the script again after a complete run changes nothing when the host's URLs are not local |
| Migration.FailureAborts | scripts/migrate-to-cloudinary.ts:40-42 | once a project's upload fails, the whole run fails |
| Migration.CallsForPrefix | scripts/migrate-to-cloudinary.ts:12-34 | the uploader calls made before any project are a prefix of a complete run's calls |
| Migration.PrefixStep | scripts/migrate-to-cloudinary.ts:12-34 | one more loop turn extends the migrated prefix and the uploader calls by that project's turn |
| Migration.ProjectsFile.Migrate | scripts/migrate-to-cloudinary.ts:5-43 | an unreadable data file is left alone with no uploads; a media file that cannot be read or a failed upload leaves the data file unchanged, after a prefix of a complete run's uploads; a complete run makes one upload per local project, in order, and then the file holds the migrated projects when the write succeeds, or whatever state the failed write left |
| Typing.Step | app/page.tsx:61-83 | one call's move of the index and the direction; stated by `StepInBounds`, `TypesToEnd`, `DeletesToStart` and `CycleReturns` |
| Typing.Delay | app/page.tsx:64-82 | the timer one call sets: 30 ms while deleting, 500 ms at the start, the random delay while typing, 1000 ms at the end; used by `Typewriter.TypeText` |
| Typing.Run | app/page.tsx:61-83 | a chain of calls; stated by `RunSplits` and `CycleReturns` |
| Typing.StepInBounds | app/page.tsx:61-83 | one call keeps the index within the headline and moves it by at most one |
| Typing.TypesToEnd | app/page.tsx:74-77 | from any typing position, the remaining characters are typed in that many calls |
| Typing.DeletesToStart | app/page.tsx:64-68 | from any deleting position `i`, `i` calls delete back to the empty headline |
| Typing.RunSplits | app/page.tsx:61-83 | running `m + n` calls is running `m` calls and then `n` |
| Typing.CycleReturns | app/page.tsx:56-90 | the animation returns to its start every `2 * len + 2` calls |
| Typing.Typewriter.constructor | app/page.tsx:57-59 | the typewriter starts mounted, typing, with nothing shown |
| Typing.Typewriter.TypeText | app/page.tsx:61-83 | one call moves as `Step` does, shows the first `index` characters of the headline, sets the timer `Delay` gives; unmounted it does nothing |
| Typing.Typewriter.Unmount | app/page.tsx:87-89 | cleanup stops the chain and keeps the text |
| Typing.NextWord | app/page.tsx:23 | the next word after `prev` is `prev + 1`, wrapping from the last word to the first, and is always a word |
| Typing.NextWordCycles | app/page.tsx:23 | three advances from a word come back to it |
| Typing.WordCycle.constructor | app/page.tsx:9-10 | no word is highlighted at start |
| Typing.WordCycle.MouseMove | app/page.tsx:17-25 | a move more than 400 ms after the last counted one highlights the next word and starts the 1200 ms fade; any other move changes nothing |
| Typing.WordCycle.FadeTimerFires | app/page.tsx:92-99 | the fade removes the highlight and changes nothing else |
| EditSession.ProjectJson | app/admin/ai-works/page.tsx:801-804 | `JSON.stringify` of a project gives an object with its id |
| EditSession.ProjectJsonTags | app/admin/ai-works/page.tsx:801-804 | the JSON of a project holds its tags, in order, as strings |
| EditSession.ProjectJsonOmitsUndefined | app/admin/ai-works/page.tsx:801-804 | an `undefined` field is left out of the JSON and a `null` or set one is kept |
| EditSession.RequestBody | app/admin/ai-works/page.tsx:801-804 | the body every request sends (create at 556-559, update at 801-804, delete at 854-857) holds the action and the project's JSON |
| EditSession.SaveBodyShape | app/admin/ai-works/page.tsx:786-804 | the save body holds the draft's id and its tags, no pending tag text, and both media fields |
| EditSession.ReplyFrom | app/admin/ai-works/page.tsx:167-172 | the page takes the route's answer as accepted exactly when it is a list, and then takes that list |
| EditSession.DeployedRouteRejects | app/api/ai-works/route.ts:108-114 | every request the page sends to the deployed route is rejected |
| EditSession.UploadTarget | app/admin/ai-works/page.tsx:81-90 | the upload target is the position of the draft's project in the list; none when there is no draft or no project with its id |
| EditSession.Session.constructor | app/admin/ai-works/page.tsx:20-25 | the page starts loading, with no projects, no draft and an idle upload |
| EditSession.Session.FetchProjects | app/admin/ai-works/page.tsx:61-71 | loading ends; the list becomes the fetched list, or stays when the fetch failed |
| EditSession.Session.CreateProject | app/admin/ai-works/page.tsx:538-574 | the new project is sent as a create; once accepted the list is the server's and the new project is the draft; otherwise nothing changes |
| EditSession.Session.Edit | app/admin/ai-works/page.tsx:840 | the chosen project becomes the draft |
| EditSession.Session.Cancel | app/admin/ai-works/page.tsx:830 | the draft is dropped |
| EditSession.Session.DeleteProject | app/admin/ai-works/page.tsx:846-872 | a confirmed delete sends the project; the list changes only to an accepted list |
| EditSession.Session.EditDraft | app/admin/ai-works/page.tsx:604-772 | a form action replaces the draft by its spread copy and changes nothing else |
| EditSession.Session.BeginSave | app/admin/ai-works/page.tsx:782-801 | the Save button raises the flag and sends the draft's save copy as an update |
| EditSession.Session.EndSave | app/admin/ai-works/page.tsx:802-822 | an accepted save takes the server's list and closes the draft; a rejected one keeps both; the flag comes down |
| EditSession.Session.SelectFile | app/admin/ai-works/page.tsx:73-151 | a file that fails the gate changes nothing; with no target the upload fails; a failed upload or save marks failure and restores the first stored project with the draft's id (`find`); a successful upload and save takes the server's list, keeps the updated draft and marks success |
| EditSession.Session.Render | app/admin/ai-works/page.tsx:588-595 | once loaded, the list is reordered newest first, keeps the same projects and keeps the order of projects with the same date |
| EditSession.LoadDeployed | app/admin/ai-works/page.tsx:61-71 | against the deployed route the page shows the built-in catalogue, newest first |
| EditSession.SaveOnDeployedSite | app/admin/ai-works/page.tsx:782-823 | against the deployed route the page's save body is rejected, so a save never succeeds: the draft stays with its edits and the list is unchanged |
| EditSession.UploadOnDeployedSite | app/admin/ai-works/page.tsx:73-151 | against the deployed route the save that follows a successful upload sends the page's body and is rejected; the upload ends as a failure with the draft reverted to the stored project |

## Left out

- Rendering, styling, alerts other than the about editor's result message, and console logging are not modelled.
- The cursor position and the floating words' easing toward it use floating-point arithmetic and `requestAnimationFrame`; they are not modelled.
- The typewriter's random delay (`Math.random() * 50 + 50`) is the symbolic timer `RandomTypingDelay`; the actual random value and the timer scheduling are not modelled.
- The network, the file system, `Date.now()`, `new Date().toLocaleDateString` and the media host are parameters. Only their outcomes enter the model.
- The confirm dialogs (`window.confirm`) are a boolean parameter.
- JSON is modelled as a value without key order, number formats or whitespace. `JSON.stringify`'s layout is not modelled, and neither are the top-level fields of the projects file other than `projects`.
- `Json.Property`: covers only the keys the handlers read, which no JavaScript value inherits. Inherited keys such as `length` or `toString` are not modelled.
- Concurrent requests, interleaved handlers and React's stale closures are not modelled; each handler runs to completion on the state it read.
- `EditSession.Session.FetchProjects`: an answer without a `projects` field (such as the route's `{ error }` answer) sets the list to `undefined` in the source; the model has no `undefined` list and treats such an answer as a failed fetch, which keeps the list.
- `DisplayOrder.SortNewestFirst`: requires every date in the form the page writes: a full English month name, one space and a four-digit year from 1000 on. The browser's date parser also reads other strings, such as abbreviated or lower-case month names and two-digit years, which it places in the 1900s or 2000s. Its rules for those are its own, and other strings give NaN. `DateKey` gives no key to any of them, so the order of such lists is not modelled.
- `EditSession.Session.Render`: requires the same dated list once loading has ended, for the same reason.
- `DisplayOrder.SortNewestFirst`: is an insertion sort. It is stable, as JavaScript requires of `Array.prototype.sort`, and the model proves it. The browser's own algorithm is not modelled.
- `Migration.ProjectsFile.Migrate`: the media host's answer is a function of the call, so two projects with the same local path and kind get the same answer. A host that answers repeated uploads differently is not modelled.
- The migration script uploads the bytes of the local media file. The model names that file by its path in the upload call and does not model its bytes.
- `deleteFromCloudinary` in `lib/cloudinary.ts` is not used by the modelled code and is not modelled.
- `uploadToCloudinary` (`lib/cloudinary.ts:16-31`) is the oracle `UploaderOutcome`. Its `folder` option is not modelled.
- The page that lists projects to visitors (`app/ai-works/page.tsx`) and the about page for visitors are not part of this model.
