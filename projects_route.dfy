/**
 * `GET` and `POST /api/ai-works` as deployed: the projects are a constant
 * built into the route, `GET` returns them, and `POST` refuses every
 * change.
 */
module ProjectsRoute {
  import opened Opt
  import opened Text
  import Json
  import opened Projects
  import DisplayOrder
  import Migration
  import Media

  /** A response: `{ projects }` with status 200, or `{ error }` with a status. */
  datatype ListResponse = ListOk(projects: seq<Project>) | ListFailed(status: int, error: string)

  const NotSupported := "Updates not supported in production"
  const UpdateFailed := "Failed to update projects"

  // The built-in projects. Long texts are written as concatenations of
  // short literals; the strings are the same.

  const AudioToText := Project(
    id := "1747516525263",
    title := "Audio to Text, and Translate",
    description :=
      "How to use it:\n"
      + "\n1) Click Record / Stop to start "
      + "and stop your recording. Speak "
      + "while recording\n"
      + "2) Click Record / Stop again to "
      + "end the recording\n"
      + "3) Click Play / Stop to listen "
      + "to your recording\n"
      + "4) Click Play / Stop again to "
      + "stop playback\n"
      + "5) Click Save to save your recording\n"
      + "6) Click Transcription to generate "
      + "a transcript of your recording\n"
      + "7) Enter the target language you "
      + "want to translate to, then click "
      + "Translate.",
    technologies := ["Bubble (No Code SaaS)", "OpenAI API", "Text Generation and Prompting", "Audio Visualization API"],
    date := "August 2023",
    newTech := Undefined,
    mediaUrl := Null,
    mediaType := Null,
    titleUrl := Present("https://text-to-speech-42991.bubbleapps.io" + "/version-test?debug_mode=true"))

  const FitnessPlanner := Project(
    id := "1747516212117",
    title := "AI Fitness Workout Planner",
    description :=
      "Built an AI Workout Plan Builder!\U{1F3CB}\U{FE0F}\U{200D}\U{2640}\U{FE0F}\n"
      + "\n1. Select your workout intensity "
      + "to match your vibe.\n"
      + "2. Type which muscle(s) you are "
      + "crushing on today.",
    technologies := ["Bubble (No Code SaaS)", "OpenAI API", "Text Generation and Prompting"],
    date := "June 2023",
    newTech := Undefined,
    mediaUrl := Present("AI_Fitness_Planner" + "-1747525212197-823888478"),
    mediaType := Present(Video),
    titleUrl := Present("https://workout-plan-by-jae-lee.bubbleapps.io" + "/version-test?debug_mode=true"))

  const ImageGenerator := Project(
    id := "1",
    title := "AI Image Generator",
    description :=
      "With ZERO development experience, "
      + "I built an AI Chatbot & AI Image "
      + "Generator using Bubble with OpenAI "
      + "integration in just a day.",
    technologies := ["Bubble (No Code SaaS)", "OpenAI API", "Image Generation"],
    date := "May 2023",
    newTech := Present(""),
    mediaUrl := Null,
    mediaType := Null,
    titleUrl := Present("http://ai-image-by-jae-lee.bubbleapps.io" + "/version-test/?debug_mode=true"))

  const ChatBot := Project(
    id := "2",
    title := "AI Chat Bot",
    description :=
      "With ZERO development experience, "
      + "I built an AI Chatbot & AI Image "
      + "Generator using Bubble with OpenAI "
      + "integration in just a day.",
    technologies := ["Bubble (No Code SaaS)", "OpenAI API", "Text Generation and Prompting"],
    date := "May 2023",
    newTech := Undefined,
    mediaUrl := Null,
    mediaType := Null,
    titleUrl := Present("https://chatapp-by-jae-lee.bubbleapps.io" + "/version-test/?debug_mode=true"))

  const InterviewPractice := Project(
    id := "1747526638707",
    title := "AI Job Interview Practice Tool",
    description :=
      "How to use it:\n"
      + "\n1. Type Company and Role\n"
      + "2. Click each button to generate "
      + "behavioral questions and technical "
      + "/ hypothetical questions to practice\n"
      + "3. Click answer guide button to "
      + "review",
    technologies := ["Bubble (No Code SaaS)", "OpenAI API"],
    date := "July 2023",
    newTech := Undefined,
    mediaUrl := Present("Screen_Recording_2025-05-17_at_8.06.36_PM" + "-1747526872890-998726735"),
    mediaType := Present(Video),
    titleUrl := Present("https://job-interview-buddy.bubbleapps.io" + "/version-test?debug_mode=true"))

  const CartoonGenerator := Project(
    id := "1747526968740",
    title := "AI Cartoon Generator",
    description := "Bubble + Zapier + Visualization",
    technologies := ["Zapier", "Bubble (No Code SaaS)"],
    date := "August 2023",
    newTech := Undefined,
    mediaUrl := Present("Screen_Recording_2025-05-17_at_8.13.46_PM" + "-1747527345900-621055327"),
    mediaType := Present(Video),
    titleUrl := Present(""))

  /** The built-in projects, in the order the route lists them. */
  const Catalogue: seq<Project> := [
    AudioToText,
    FitnessPlanner,
    ImageGenerator,
    ChatBot,
    InterviewPractice,
    CartoonGenerator]

  /** `GET /api/ai-works`. */
  function Get(): (r: ListResponse)
    ensures r == ListOk(Catalogue)
    ensures r.ListOk? && |r.projects| == 6
    ensures DistinctIds(r.projects)
  {
    CatalogueWellFormed();
    ListOk(Catalogue)
  }

  /**
   * `POST /api/ai-works`: `body` is the parsed request body, `None` when it
   * is not JSON. Every request is refused, whatever it asks for.
   */
  function Post(body: Option<Json.Json>): (r: ListResponse)
    ensures r.ListFailed?
    ensures r.status == 400 <==> body.Some?
    ensures r == ListFailed(400, NotSupported) || r == ListFailed(500, UpdateFailed)
  {
    if body.Some? then ListFailed(400, NotSupported) else ListFailed(500, UpdateFailed)
  }

  /**
   * The built-in projects have distinct ids, paired media fields and no
   * repeated tag.
   */
  lemma CatalogueWellFormed()
    ensures DistinctIds(Catalogue)
    ensures forall k :: 0 <= k < |Catalogue| ==> MediaPaired(Catalogue[k])
    ensures forall k :: 0 <= k < |Catalogue| ==> NoDuplicates(Catalogue[k].technologies)
  {
    CatalogueIds();
    AudioToTextShape();
    FitnessPlannerShape();
    ImageGeneratorShape();
    ChatBotShape();
    InterviewPracticeShape();
    CartoonGeneratorShape();
    SixWellFormed(AudioToText, FitnessPlanner, ImageGenerator, ChatBot, InterviewPractice, CartoonGenerator);
  }

  lemma CatalogueIds()
    ensures NoDuplicates([AudioToText.id, FitnessPlanner.id, ImageGenerator.id, ChatBot.id, InterviewPractice.id, CartoonGenerator.id])
  {
    var ids := ["1747516525263", "1747516212117", "1", "2", "1747526638707", "1747526968740"];
    assert [AudioToText.id, FitnessPlanner.id, ImageGenerator.id, ChatBot.id, InterviewPractice.id, CartoonGenerator.id] == ids;
  }

  lemma AudioToTextShape()
    ensures MediaPaired(AudioToText) && NoDuplicates(AudioToText.technologies)
  {
  }

  lemma FitnessPlannerShape()
    ensures MediaPaired(FitnessPlanner) && NoDuplicates(FitnessPlanner.technologies)
  {
  }

  lemma ImageGeneratorShape()
    ensures MediaPaired(ImageGenerator) && NoDuplicates(ImageGenerator.technologies)
  {
  }

  lemma ChatBotShape()
    ensures MediaPaired(ChatBot) && NoDuplicates(ChatBot.technologies)
  {
  }

  lemma InterviewPracticeShape()
    ensures MediaPaired(InterviewPractice) && NoDuplicates(InterviewPractice.technologies)
  {
  }

  lemma CartoonGeneratorShape()
    ensures MediaPaired(CartoonGenerator) && NoDuplicates(CartoonGenerator.technologies)
  {
  }

  lemma SixWellFormed(a: Project, b: Project, c: Project, d: Project, e: Project, f: Project)
    requires NoDuplicates([a.id, b.id, c.id, d.id, e.id, f.id])
    requires MediaPaired(a) && MediaPaired(b) && MediaPaired(c) && MediaPaired(d) && MediaPaired(e) && MediaPaired(f)
    requires NoDuplicates(a.technologies) && NoDuplicates(b.technologies) && NoDuplicates(c.technologies)
    requires NoDuplicates(d.technologies) && NoDuplicates(e.technologies) && NoDuplicates(f.technologies)
    ensures var ps := [a, b, c, d, e, f];
      && DistinctIds(ps)
      && (forall k :: 0 <= k < |ps| ==> MediaPaired(ps[k]))
      && (forall k :: 0 <= k < |ps| ==> NoDuplicates(ps[k].technologies))
  {
    var ps := [a, b, c, d, e, f];
    var ids := [a.id, b.id, c.id, d.id, e.id, f.id];
    assert forall k :: 0 <= k < 6 ==> ps[k].id == ids[k];
  }

  /** A project dated "Month 2023" has a date key. */
  lemma DatedIn2023(p: Project, m: nat)
    requires m < 12 && p.date == DisplayOrder.MonthYear(m, "2023")
    ensures DisplayOrder.Dated(p)
  {
    DisplayOrder.FourDigitYear("2023");
    DisplayOrder.DateKeyOfMonthYear(m, "2023");
  }

  /**
   * Every built-in date is a "Month YYYY" date, so the admin page's
   * newest-first sort is specified for the list `GET` returns.
   */
  lemma CatalogueIsDated()
    ensures DisplayOrder.AllDated(Catalogue)
  {
    AudioToTextDated();
    FitnessPlannerDated();
    ImageGeneratorDated();
    ChatBotDated();
    InterviewPracticeDated();
    CartoonGeneratorDated();
    SixDated(AudioToText, FitnessPlanner, ImageGenerator, ChatBot, InterviewPractice, CartoonGenerator);
  }

  lemma SixDated(a: Project, b: Project, c: Project, d: Project, e: Project, f: Project)
    requires DisplayOrder.Dated(a) && DisplayOrder.Dated(b) && DisplayOrder.Dated(c)
    requires DisplayOrder.Dated(d) && DisplayOrder.Dated(e) && DisplayOrder.Dated(f)
    ensures DisplayOrder.AllDated([a, b, c, d, e, f])
  {
  }

  lemma AudioToTextDated()
    ensures DisplayOrder.Dated(AudioToText)
  {
    assert AudioToText.date == DisplayOrder.MonthYear(7, "2023");
    DatedIn2023(AudioToText, 7);
  }

  lemma FitnessPlannerDated()
    ensures DisplayOrder.Dated(FitnessPlanner)
  {
    assert FitnessPlanner.date == DisplayOrder.MonthYear(5, "2023");
    DatedIn2023(FitnessPlanner, 5);
  }

  lemma ImageGeneratorDated()
    ensures DisplayOrder.Dated(ImageGenerator)
  {
    assert ImageGenerator.date == DisplayOrder.MonthYear(4, "2023");
    DatedIn2023(ImageGenerator, 4);
  }

  lemma ChatBotDated()
    ensures DisplayOrder.Dated(ChatBot)
  {
    assert ChatBot.date == DisplayOrder.MonthYear(4, "2023");
    DatedIn2023(ChatBot, 4);
  }

  lemma InterviewPracticeDated()
    ensures DisplayOrder.Dated(InterviewPractice)
  {
    assert InterviewPractice.date == DisplayOrder.MonthYear(6, "2023");
    DatedIn2023(InterviewPractice, 6);
  }

  lemma CartoonGeneratorDated()
    ensures DisplayOrder.Dated(CartoonGenerator)
  {
    assert CartoonGenerator.date == DisplayOrder.MonthYear(7, "2023");
    DatedIn2023(CartoonGenerator, 7);
  }

  /**
   * No built-in media is a local `/uploads/` file, so the migration script
   * leaves the built-in projects as they are, whatever is on disk.
   */
  lemma CatalogueNeedsNoMigration(disk: string -> Migration.LocalFile, upload: Migration.MigrationCall -> Media.UploaderOutcome)
    ensures Migration.MigrateAll(Catalogue, disk, upload) == Some(Catalogue)
  {
    NotUnderUploads(FitnessPlanner.mediaUrl.value, "AI_Fitness_Planner");
    NotUnderUploads(InterviewPractice.mediaUrl.value, "Screen_Recording_2025-05-17_at_8.06.36_PM");
    NotUnderUploads(CartoonGenerator.mediaUrl.value, "Screen_Recording_2025-05-17_at_8.13.46_PM");
    SixUnmigrated(AudioToText, FitnessPlanner, ImageGenerator, ChatBot, InterviewPractice, CartoonGenerator, disk, upload);
  }

  /** A URL that begins with a relative file name is not under `/uploads/`. */
  lemma NotUnderUploads(url: string, name: string)
    requires name != [] && name[0] != '/' && StartsWith(url, name)
    ensures !StartsWith(url, Migration.LocalPrefix)
  {
    assert url[0] == name[0];
  }

  lemma SixUnmigrated(a: Project, b: Project, c: Project, d: Project, e: Project, f: Project,
                      disk: string -> Migration.LocalFile, upload: Migration.MigrationCall -> Media.UploaderOutcome)
    requires !Migration.IsLocalMedia(a) && !Migration.IsLocalMedia(b) && !Migration.IsLocalMedia(c)
    requires !Migration.IsLocalMedia(d) && !Migration.IsLocalMedia(e) && !Migration.IsLocalMedia(f)
    ensures Migration.MigrateAll([a, b, c, d, e, f], disk, upload) == Some([a, b, c, d, e, f])
  {
    var ps := [a, b, c, d, e, f];
    forall k | 0 <= k < |ps|
      ensures Migration.Migrated(ps[k], disk, upload) == Some(ps[k])
    {
    }
    Migration.MigrateAllPointwise(ps, disk, upload);
    assert Migration.MigrateAll(ps, disk, upload).value == ps;
  }
}
