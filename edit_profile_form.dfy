/**
 * The profile editor: the validation schema for the form and the picture
 * upload, the lookup that decides between editing and creating, the
 * skills text (joined for display, split on submit), and the record that
 * is sent on submit.
 */
module EditProfileForm {
  import opened Wrappers
  import opened Text

  // ---------------------------------------------------------------------------
  // Validation schema
  // ---------------------------------------------------------------------------

  const MaxFileSize: nat := 5 * 1024 * 1024
  const AcceptedImageTypes: seq<string> := ["image/jpeg", "image/jpg", "image/png", "image/webp"]
  const PdfType: string := "application/pdf"

  /** A chosen file: only its size in bytes and its MIME type matter here. */
  datatype FileInfo = FileInfo(size: nat, mimeType: string)

  /** A file input's value: `None` is `undefined`, otherwise the files chosen (possibly none). */
  type FileField = Option<seq<FileInfo>>

  /** First refinement of the picture schema: exactly one file. */
  predicate IsSingleFile(files: FileField) {
    files.Some? && |files.value| == 1
  }

  /** Second refinement: the first file is at most 5 MiB. */
  predicate WithinSizeLimit(files: FileField) {
    files.Some? && |files.value| >= 1 && files.value[0].size <= MaxFileSize
  }

  /** Third refinement: the first file is a JPEG, PNG or WebP image. */
  predicate HasImageType(files: FileField) {
    files.Some? && |files.value| >= 1 && files.value[0].mimeType in AcceptedImageTypes
  }

  /** `imageUploadSchema`: all three refinements hold. */
  predicate ValidImageUpload(files: FileField) {
    IsSingleFile(files) && WithinSizeLimit(files) && HasImageType(files)
  }

  /** A picture is accepted iff it is exactly one file of at most 5 242 880 bytes whose type is jpeg, jpg, png or webp. */
  lemma ImageUploadAcceptedIff(files: FileField)
    ensures ValidImageUpload(files) <==>
              exists f: FileInfo :: files == Some([f]) && f.size <= 5242880 &&
                (f.mimeType == "image/jpeg" || f.mimeType == "image/jpg" ||
                 f.mimeType == "image/png" || f.mimeType == "image/webp")
  {
    if ValidImageUpload(files) {
      assert files.value == [files.value[0]];
      assert files == Some([files.value[0]]);
    }
  }

  /** A 10 MiB image is rejected whatever its type, and so is any form that carries it. */
  lemma TenMegabyteImageRejected(f: FormData, isEmail: string -> bool, isUrl: string -> bool, mimeType: string)
    requires f.profilepicture == Some([FileInfo(10 * 1024 * 1024, mimeType)])
    ensures !ValidImageUpload(f.profilepicture)
    ensures !ValidForm(f, isEmail, isUrl)
  {
  }

  datatype ProjectInput = ProjectInput(name: string, link: string)

  /** The values the schema checks. */
  datatype FormData = FormData(
    name: string, email: string, college: string, graduation: string, userid: string,
    skills: string, projects: seq<ProjectInput>, website: Option<string>,
    resume: FileField, profilepicture: FileField)

  predicate LengthBetween(s: string, lo: nat, hi: nat) {
    lo <= |s| <= hi
  }

  /** A project needs a non-empty name and a link the URL validator accepts. */
  predicate ValidProject(p: ProjectInput, isUrl: string -> bool) {
    |p.name| >= 1 && isUrl(p.link)
  }

  /** The resume must be exactly one PDF file. */
  predicate ValidResume(files: FileField) {
    files.Some? && |files.value| == 1 && files.value[0].mimeType == PdfType
  }

  /**
   * `formSchema`, with the library's e-mail and URL validators given as
   * `isEmail` and `isUrl`. The website and the picture are optional: only
   * an absent (`undefined`) value skips their checks.
   */
  predicate ValidForm(f: FormData, isEmail: string -> bool, isUrl: string -> bool) {
    && LengthBetween(f.name, 2, 50)
    && isEmail(f.email)
    && LengthBetween(f.college, 2, 50)
    && LengthBetween(f.graduation, 4, 30)
    && LengthBetween(f.userid, 2, 10)
    && |f.skills| >= 1
    && (forall i :: 0 <= i < |f.projects| ==> ValidProject(f.projects[i], isUrl))
    && (f.website.None? || isUrl(f.website.value))
    && ValidResume(f.resume)
    && (f.profilepicture.None? || ValidImageUpload(f.profilepicture))
  }

  /** What a valid form guarantees about its text fields and its files. */
  lemma ValidFormBounds(f: FormData, isEmail: string -> bool, isUrl: string -> bool)
    requires ValidForm(f, isEmail, isUrl)
    ensures 2 <= |f.name| <= 50 && 2 <= |f.college| <= 50 && 4 <= |f.graduation| <= 30 && 2 <= |f.userid| <= 10
    ensures f.skills != ""
    ensures HasChosenFile(f.resume) && f.resume.value[0].mimeType == "application/pdf"
    ensures HasChosenFile(f.profilepicture) ==> f.profilepicture.value[0].size <= MaxFileSize
  {
  }

  /** An empty list of pictures is not "no picture": the refinements run and reject it. */
  lemma EmptyPictureListRejected(f: FormData, isEmail: string -> bool, isUrl: string -> bool)
    requires f.profilepicture == Some([])
    ensures !ValidForm(f, isEmail, isUrl)
  {
  }

  // ---------------------------------------------------------------------------
  // Skills text
  // ---------------------------------------------------------------------------

  /** The skills text as submitted: `skills.split(",").map(s => s.trim())`, one entry per comma plus one, each trimmed, empty ones kept. */
  function SkillsArray(skills: string): (r: seq<string>)
    ensures |r| == Count(skills, ',') + 1
    ensures forall i :: 0 <= i < |r| ==> IsTrimmed(r[i])
  {
    TrimAll(Split(skills, ','))
  }

  /** The skills text shown for a stored list: `skills?.join(", ") || ""`. */
  function SkillsText(stored: Option<seq<string>>): string {
    match stored
    case None => ""
    case Some(xs) => Join(xs, ", ")
  }

  /** The entries of the split are the comma-separated pieces of the text, in order, each trimmed. */
  lemma SkillsArrayPieces(skills: string)
    ensures Join(Split(skills, ','), ",") == skills
    ensures forall i :: 0 <= i < |SkillsArray(skills)| ==> SkillsArray(skills)[i] == Trim(Split(skills, ',')[i])
  {
    JoinSplit(skills, ',');
  }

  /** A stored list of trimmed, comma-free skills survives being shown and submitted again. */
  lemma SkillsRoundTrip(xs: seq<string>)
    requires |xs| >= 1
    requires forall i :: 0 <= i < |xs| ==> ',' !in xs[i] && IsTrimmed(xs[i])
    ensures SkillsArray(SkillsText(Some(xs))) == xs
  {
    SplitTrimJoin(xs);
  }

  /** A stored empty list shows as an empty field, which the schema rejects. */
  lemma EmptySkillsRejected(f: FormData, isEmail: string -> bool, isUrl: string -> bool)
    requires f.skills == SkillsText(Some([]))
    ensures !ValidForm(f, isEmail, isUrl)
  {
  }

  // ---------------------------------------------------------------------------
  // Loading an existing profile
  // ---------------------------------------------------------------------------

  /** The record `/api/dashboard/{id}` answers with; absent or `null` fields are `None`. */
  datatype StoredProfile = StoredProfile(
    name: Option<string>, email: Option<string>, college: Option<string>, graduation: Option<string>,
    userid: Option<string>, skills: Option<seq<string>>, projects: Option<seq<ProjectInput>>,
    website: Option<string>)

  /** The outcome of the lookup: a record, a 404, or anything else (another status, a thrown error). */
  datatype LookupResponse = Found(profile: StoredProfile) | NotFound | OtherFailure

  /** The text fields the lookup fills in. */
  datatype FieldValues = FieldValues(
    name: string, email: string, college: string, graduation: string, userid: string,
    skills: string, projects: seq<ProjectInput>, website: string)

  datatype Prefill = FillAll(values: FieldValues) | FillUserId(userid: string) | NoFill

  datatype LookupEffect = LookupEffect(isEditing: bool, prefill: Prefill)

  /** `value || ""`. */
  function OrEmpty(o: Option<string>): string {
    o.GetOr("")
  }

  /** `value || fallback` for a string. */
  function OrElse(o: Option<string>, fallback: string): string {
    if Truthy(o) then o.value else fallback
  }

  /** The values put into the form from a found record; absent fields become `""`, and an absent user id falls back to the one asked for. */
  function PrefillValues(p: StoredProfile, userId: string): (r: FieldValues)
    ensures userId != "" ==> r.userid != ""
    ensures p.website.None? ==> r.website == ""
    ensures p.projects.None? ==> r.projects == [ProjectInput("", "")]
  {
    FieldValues(
      OrEmpty(p.name), OrEmpty(p.email), OrEmpty(p.college), OrEmpty(p.graduation),
      OrElse(p.userid, userId), SkillsText(p.skills),
      p.projects.GetOr([ProjectInput("", "")]),
      OrEmpty(p.website))
  }

  /**
   * The lookup effect: nothing happens without a user id; a found record
   * turns editing on and fills the form; a 404 turns it off and fills only the
   * user id; any other outcome changes nothing.
   */
  function Lookup(userId: string, wasEditing: bool, resp: LookupResponse): (r: LookupEffect)
    ensures r.isEditing <==> (userId != "" && resp.Found?) || (wasEditing && (userId == "" || resp.OtherFailure?))
    ensures r.prefill.FillAll? <==> userId != "" && resp.Found?
    ensures r.prefill.FillUserId? <==> userId != "" && resp.NotFound?
  {
    if userId == "" then LookupEffect(wasEditing, NoFill)
    else match resp
      case Found(p) => LookupEffect(true, FillAll(PrefillValues(p, userId)))
      case NotFound => LookupEffect(false, FillUserId(userId))
      case OtherFailure => LookupEffect(wasEditing, NoFill)
  }

  /** Starting from the initial `false`, editing is on iff a user id was given and its record was found. */
  lemma EditingIffFound(userId: string, resp: LookupResponse)
    ensures Lookup(userId, false, resp).isEditing <==> userId != "" && resp.Found?
    ensures userId != "" && resp.NotFound? ==> Lookup(userId, true, resp).isEditing == false
  {
  }

  /** The form as submitted after a prefill: the filled text fields plus the files the user chose. */
  function PrefilledForm(v: FieldValues, resume: FileField, picture: FileField): FormData {
    FormData(v.name, v.email, v.college, v.graduation, v.userid, v.skills, v.projects, Some(v.website), resume, picture)
  }

  /** Editing a record that has no website: the field is filled with `""`, which the URL check rejects, so the form does not validate until a URL is typed. */
  lemma PrefilledWithoutWebsiteRejected(p: StoredProfile, userId: string, resume: FileField, picture: FileField,
                                        isEmail: string -> bool, isUrl: string -> bool)
    requires p.website.None? && !isUrl("")
    ensures !ValidForm(PrefilledForm(PrefillValues(p, userId), resume, picture), isEmail, isUrl)
  {
  }

  /** Skills loaded from a record and submitted unchanged give the stored list back. */
  lemma PrefilledSkillsRoundTrip(p: StoredProfile, userId: string)
    requires p.skills.Some? && |p.skills.value| >= 1
    requires forall i :: 0 <= i < |p.skills.value| ==> ',' !in p.skills.value[i] && IsTrimmed(p.skills.value[i])
    ensures SkillsArray(PrefillValues(p, userId).skills) == p.skills.value
  {
    SkillsRoundTrip(p.skills.value);
  }

  // ---------------------------------------------------------------------------
  // Submitting
  // ---------------------------------------------------------------------------

  /** `field && field[0]`: a file was chosen. */
  predicate HasChosenFile(files: FileField) {
    files.Some? && |files.value| >= 1
  }

  /** The outcome of an upload: the stored reference, a non-OK status, or a thrown error (from `fetch` or from reading the answer). */
  datatype UploadResult = Uploaded(path: string) | UploadFailed | UploadThrew

  datatype HttpMethod = PUT | POST

  /** The JSON body; `website == None` means the key is left out. */
  datatype OutgoingProfile = OutgoingProfile(
    name: string, email: string, college: string, graduation: string, userid: string,
    skills: seq<string>, projects: seq<ProjectInput>,
    profilepicturePath: string, resumePath: string, website: Option<string>)

  /** `...(data.website && { website })`: present only when non-empty. */
  function WebsiteEntry(website: Option<string>): (r: Option<string>)
    ensures r.Some? <==> website.Some? && website.value != ""
    ensures r.Some? ==> r == website
  {
    if Truthy(website) then website else None
  }

  /** The record built from the form and the two stored file references: the skills split and trimmed, the website only when non-empty. */
  function BuildProfile(data: FormData, picturePath: string, resumePath: string): (r: OutgoingProfile)
    ensures |r.skills| == Count(data.skills, ',') + 1
    ensures forall i :: 0 <= i < |r.skills| ==> IsTrimmed(r.skills[i])
    ensures r.website.Some? <==> data.website.Some? && data.website.value != ""
    ensures r.profilepicturePath == picturePath && r.resumePath == resumePath
  {
    OutgoingProfile(
      data.name, data.email, data.college, data.graduation, data.userid,
      SkillsArray(data.skills), data.projects, picturePath, resumePath, WebsiteEntry(data.website))
  }

  /** PUT for updates, POST for creation. */
  function RequestMethod(isEditing: bool): HttpMethod {
    if isEditing then PUT else POST
  }

  /** The upload for a field succeeded, or none was needed because no file was chosen. */
  predicate UploadDone(files: FileField, upload: UploadResult) {
    !HasChosenFile(files) || upload.Uploaded?
  }

  /** The path kept for a file field: `""` unless a file was chosen, then what its upload returned. */
  function StoredPath(files: FileField, upload: UploadResult): string
    requires UploadDone(files, upload)
  {
    if HasChosenFile(files) then upload.path else ""
  }

  const PictureFailedAlert: string := "Failed to upload profile picture"
  const ResumeFailedAlert: string := "Failed to upload resume"
  const ErrorAlert: string := "An error occurred while saving the profile"

  /** What one needed upload does when it did not succeed: a non-OK status has its own alert, a thrown error the generic one. */
  function UploadAlert(upload: UploadResult, failedAlert: string): string {
    if upload.UploadFailed? then failedAlert else ErrorAlert
  }

  datatype SubmitStep = Alert(message: string) | Send(httpMethod: HttpMethod, url: string, body: OutgoingProfile)

  /**
   * `onSubmit` up to the save request: upload the picture, then the resume
   * (each only when a file was chosen, each consulted only then), stopping at
   * the first upload that did not succeed; otherwise send the built record to
   * `/api/dashboard/{userid}` with PUT when editing and POST when creating.
   */
  function Submit(data: FormData, isEditing: bool, picture: UploadResult, resume: UploadResult): (r: SubmitStep)
    ensures r.Send? <==> UploadDone(data.profilepicture, picture) && UploadDone(data.resume, resume)
    ensures r.Alert? ==> r.message == PictureFailedAlert || r.message == ResumeFailedAlert || r.message == ErrorAlert
  {
    if !UploadDone(data.profilepicture, picture) then Alert(UploadAlert(picture, PictureFailedAlert))
    else if !UploadDone(data.resume, resume) then Alert(UploadAlert(resume, ResumeFailedAlert))
    else
      Send(RequestMethod(isEditing), "/api/dashboard/" + data.userid,
           BuildProfile(data, StoredPath(data.profilepicture, picture), StoredPath(data.resume, resume)))
  }

  /** When both uploads that were needed succeed, the record is sent, with PUT iff editing, and carries the skills as split and trimmed. */
  lemma SubmitSends(data: FormData, isEditing: bool, picture: UploadResult, resume: UploadResult)
    requires UploadDone(data.profilepicture, picture) && UploadDone(data.resume, resume)
    ensures var s := Submit(data, isEditing, picture, resume);
            && s.Send?
            && (s.httpMethod == PUT <==> isEditing)
            && s.url == "/api/dashboard/" + data.userid
            && s.body.skills == SkillsArray(data.skills)
            && |s.body.skills| == Count(data.skills, ',') + 1
  {
  }

  /** A chosen picture whose upload answers with a non-OK status stops the submission before the resume is even considered. */
  lemma PictureFailureStops(data: FormData, isEditing: bool, resume: UploadResult)
    requires HasChosenFile(data.profilepicture)
    ensures Submit(data, isEditing, UploadFailed, resume) == Alert("Failed to upload profile picture")
  {
  }

  /** Once the picture step is through, a non-OK resume upload stops the submission with its alert. */
  lemma ResumeFailureStops(data: FormData, isEditing: bool, picture: UploadResult)
    requires UploadDone(data.profilepicture, picture) && HasChosenFile(data.resume)
    ensures Submit(data, isEditing, picture, UploadFailed) == Alert("Failed to upload resume")
  {
  }

  /** An upload that throws, of either chosen file, ends in the generic error alert and nothing is sent; a failed picture is reported first. */
  lemma UploadThrowStops(data: FormData, isEditing: bool, picture: UploadResult, resume: UploadResult)
    requires (HasChosenFile(data.profilepicture) && picture.UploadThrew?)
             || (UploadDone(data.profilepicture, picture) && HasChosenFile(data.resume) && resume.UploadThrew?)
    ensures Submit(data, isEditing, picture, resume) == Alert("An error occurred while saving the profile")
  {
  }

  /** A field with no chosen file is sent as `""`, whatever the (unconsulted) upload answer. */
  /** With no picture chosen, the record is sent and its picture path is `""`, whatever the picture upload slot holds. */
  lemma NoPictureEmptyPath(data: FormData, isEditing: bool, picture: UploadResult, resume: UploadResult)
    requires !HasChosenFile(data.profilepicture) && UploadDone(data.resume, resume)
    ensures var s := Submit(data, isEditing, picture, resume);
            s.Send? && s.body.profilepicturePath == ""
  {
  }

  /** With no resume chosen, the record is sent and its resume path is `""`. */
  lemma NoResumeEmptyPath(data: FormData, isEditing: bool, picture: UploadResult, resume: UploadResult)
    requires UploadDone(data.profilepicture, picture) && !HasChosenFile(data.resume)
    ensures var s := Submit(data, isEditing, picture, resume);
            s.Send? && s.body.resumePath == ""
  {
  }

  /** The sent record has a `website` key iff the form's website is non-empty, and then it is that website. */
  lemma WebsiteKeyIffNonEmpty(data: FormData, isEditing: bool, picture: UploadResult, resume: UploadResult)
    requires UploadDone(data.profilepicture, picture) && UploadDone(data.resume, resume)
    ensures var s := Submit(data, isEditing, picture, resume);
            s.Send? && (s.body.website.Some? <==> data.website.Some? && data.website.value != "")
            && (s.body.website.Some? ==> s.body.website == data.website)
  {
  }

  /** A valid form always has a resume to upload, so its record carries the uploaded resume's reference. */
  lemma ValidFormSendsUploadedResume(data: FormData, isEmail: string -> bool, isUrl: string -> bool,
                                     isEditing: bool, picture: UploadResult, path: string)
    requires ValidForm(data, isEmail, isUrl)
    requires UploadDone(data.profilepicture, picture)
    ensures var s := Submit(data, isEditing, picture, Uploaded(path));
            s.Send? && s.body.resumePath == path
  {
  }
}
