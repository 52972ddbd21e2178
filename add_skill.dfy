/**
 * The add-skill page: a form whose submission validates the signed-in user
 * and the required entries, optionally uploads a supporting document, writes
 * one record to the `skills` collection and, on success, resets the form.
 */
module AddSkill {
  import opened Base
  import opened Text
  import Skills

  const DefaultExperience := "Beginner"
  const PortfolioRoute := "/dashboard/portfolio"

  /** The record written to the `skills` collection (its server timestamp is not modelled). */
  datatype SkillRecord = SkillRecord(
    userId: string,
    category: string,
    name: string,
    experience: string,
    description: string,
    documentUrl: Option<string>,
    documentName: Option<string>)

  datatype FormEntry = CategoryEntry | SkillNameEntry | ExperienceEntry | DescriptionEntry

  datatype SubmitOutcome =
    | NotSignedIn
    | MissingInformation
    | Saved(record: SkillRecord)
    | SaveFailed(record: SkillRecord)

  // ---------------------------------------------------------------------
  // storage paths

  /** Where a document is uploaded: `skills/<uid>/<milliseconds>_<file name>`. */
  function StoragePath(uid: string, now: nat, fileName: string): string {
    "skills/" + uid + "/" + NatToDecimal(now) + "_" + fileName
  }

  datatype PathParts = PathParts(uid: string, timestamp: nat, fileName: string)

  /** Reads a storage path back into its owner, upload time and file name. */
  function ParseStoragePath(p: string): Option<PathParts> {
    if |p| < 7 || p[..7] != "skills/" then None
    else
      var rest := p[7..];
      match IndexOf(rest, '/')
      case None => None
      case Some(i) =>
        var after := rest[i + 1..];
        match IndexOf(after, '_')
        case None => None
        case Some(k) =>
          if k == 0 || !AllDigits(after[..k], 10) then None
          else Some(PathParts(rest[..i], DigitsValue(after[..k], 10), after[k + 1..]))
  }

  lemma DigitsHaveNoUnderscore(d: string)
    requires AllDigits(d, 10)
    ensures '_' !in d
  {
  }

  lemma PathShape(uid: string, d: string, fileName: string)
    ensures var p := "skills/" + uid + "/" + d + "_" + fileName;
      |p| >= 7 && p[..7] == "skills/" && p[7..] == uid + ['/'] + (d + ['_'] + fileName)
  {
  }

  lemma PathTail(uid: string, tail: string)
    ensures (uid + ['/'] + tail)[|uid| + 1..] == tail && (uid + ['/'] + tail)[..|uid|] == uid
  {
  }

  lemma TailParts(d: string, fileName: string)
    ensures (d + ['_'] + fileName)[..|d|] == d && (d + ['_'] + fileName)[|d| + 1..] == fileName
  {
  }

  /** Any path with a uid free of '/' and a non-empty run of digits reads back into its parts. */
  lemma ParseDigitPath(uid: string, d: string, fileName: string)
    requires '/' !in uid && d != [] && AllDigits(d, 10)
    ensures ParseStoragePath("skills/" + uid + "/" + d + "_" + fileName) == Some(PathParts(uid, DigitsValue(d, 10), fileName))
  {
    var tail := d + ['_'] + fileName;
    PathShape(uid, d, fileName);
    IndexOfAfter(uid, '/', tail);
    PathTail(uid, tail);
    DigitsHaveNoUnderscore(d);
    IndexOfAfter(d, '_', fileName);
    TailParts(d, fileName);
  }

  /** A storage path determines its owner, its upload time and its file name, whatever the file is called. */
  lemma StoragePathRoundTrip(uid: string, now: nat, fileName: string)
    requires '/' !in uid
    ensures ParseStoragePath(StoragePath(uid, now, fileName)) == Some(PathParts(uid, now, fileName))
  {
    ParseDigitPath(uid, NatToDecimal(now), fileName);
    DecimalRoundTrip(now);
  }

  // ---------------------------------------------------------------------
  // validation and the record

  /** Why a submission is refused, if it is: no user first, then a missing category or skill name. */
  function Rejection(uid: Option<string>, category: string, skillName: string): (r: Option<Notice>)
    ensures r.None? <==> uid.Some? && category != [] && skillName != []
    ensures r.Some? ==> r.value.Failure?
  {
    if uid.None? then Some(Failure("Authentication error"))
    else if category == [] || skillName == [] then Some(Failure("Missing information"))
    else None
  }

  /** The record for a submission: an empty experience defaults to "Beginner", an empty file name to null. */
  function RecordFor(uid: string, category: string, skillName: string, experience: string,
                     description: string, documentUrl: Option<string>, fileName: string): (r: SkillRecord)
    ensures r.userId == uid && r.category == category && r.name == skillName && r.description == description
    ensures r.documentUrl == documentUrl
    ensures experience == [] ==> r.experience == DefaultExperience
    ensures experience != [] ==> r.experience == experience
    ensures r.experience != []
    ensures r.documentName.Some? <==> fileName != []
    ensures r.documentName.Some? ==> r.documentName.value == fileName
  {
    SkillRecord(uid, category, skillName, if experience == [] then DefaultExperience else experience,
                description, documentUrl, if fileName == [] then None else Some(fileName))
  }

  /** Every record that can be written has an owner-supplied category and name and a non-empty experience. */
  predicate WellFormed(r: SkillRecord) {
    r.category != [] && r.name != [] && r.experience != []
  }

  // ---------------------------------------------------------------------
  // the page

  class AddSkillPage {
    var category: string
    var skillName: string
    var experience: string
    var description: string
    var file: Option<Skills.FileRef>
    var fileName: string
    var isUploading: bool
    var isSubmitting: bool
    var notice: Option<Notice>
    /** Every record written to the `skills` collection, in order. */
    var savedRecords: seq<SkillRecord>
    /** Every storage path an upload was attempted at, in order. */
    var uploadAttempts: seq<string>
    /** Every route handed to the router, in order. */
    var navigations: seq<string>

    ghost predicate Valid()
      reads this
    {
      forall i :: 0 <= i < |savedRecords| ==> WellFormed(savedRecords[i])
    }

    constructor ()
      ensures Valid()
      ensures category == [] && skillName == [] && experience == [] && description == []
      ensures file == None && fileName == [] && !isUploading && !isSubmitting && notice == None
      ensures savedRecords == [] && uploadAttempts == [] && navigations == []
    {
      category, skillName, experience, description := [], [], [], [];
      file, fileName, isUploading, isSubmitting, notice := None, [], false, false, None;
      savedRecords, uploadAttempts, navigations := [], [], [];
    }

    /** One of the four text entries changes; the others stay. */
    method HandleEntryChange(entry: FormEntry, value: string)
      modifies this
      ensures category == (if entry == CategoryEntry then value else old(category))
      ensures skillName == (if entry == SkillNameEntry then value else old(skillName))
      ensures experience == (if entry == ExperienceEntry then value else old(experience))
      ensures description == (if entry == DescriptionEntry then value else old(description))
      ensures file == old(file) && fileName == old(fileName) && isUploading == old(isUploading)
      ensures isSubmitting == old(isSubmitting) && notice == old(notice)
      ensures savedRecords == old(savedRecords) && uploadAttempts == old(uploadAttempts) && navigations == old(navigations)
    {
      match entry
      case CategoryEntry => category := value;
      case SkillNameEntry => skillName := value;
      case ExperienceEntry => experience := value;
      case DescriptionEntry => description := value;
    }

    /** The first chosen file becomes the document and its name the document name; an empty choice changes nothing. */
    method HandleFileChange(files: seq<Skills.FileRef>)
      modifies this
      ensures files != [] ==> file == Some(files[0]) && fileName == files[0].name
      ensures files == [] ==> file == old(file) && fileName == old(fileName)
      ensures category == old(category) && skillName == old(skillName) && experience == old(experience)
      ensures description == old(description) && isUploading == old(isUploading)
      ensures isSubmitting == old(isSubmitting) && notice == old(notice)
      ensures savedRecords == old(savedRecords) && uploadAttempts == old(uploadAttempts) && navigations == old(navigations)
    {
      if files != [] {
        file := Some(files[0]);
        fileName := files[0].name;
      }
    }

    /**
     * The document upload at time `now`; `stored` is what the storage service
     * does: the download URL, or None when the upload or the URL request fails.
     * Without a file or a user nothing is attempted and the result is null.
     */
    method HandleFileUpload(uid: Option<string>, now: nat, stored: Option<string>) returns (url: Option<string>)
      modifies this
      ensures file.None? || uid.None? ==>
        url == None && uploadAttempts == old(uploadAttempts) && isUploading == old(isUploading)
      ensures file.Some? && uid.Some? ==>
        && url == stored && !isUploading
        && uploadAttempts == old(uploadAttempts) + [StoragePath(uid.value, now, file.value.name)]
      ensures category == old(category) && skillName == old(skillName) && experience == old(experience)
      ensures description == old(description) && file == old(file) && fileName == old(fileName)
      ensures isSubmitting == old(isSubmitting) && notice == old(notice)
      ensures savedRecords == old(savedRecords) && navigations == old(navigations)
    {
      if file.None? || uid.None? {
        return None;
      }
      isUploading := true;
      uploadAttempts := uploadAttempts + [StoragePath(uid.value, now, file.value.name)];
      url := stored;
      isUploading := false;
    }

    /** The collection write of `record`: on success the form resets and the page moves to the portfolio. */
    method Commit(record: SkillRecord, written: bool) returns (outcome: SubmitOutcome)
      modifies this
      ensures written ==> outcome == Saved(record) && savedRecords == old(savedRecords) + [record]
      ensures written ==> notice == Some(Success("Skill added")) && navigations == old(navigations) + [PortfolioRoute]
      ensures written ==> category == [] && skillName == [] && experience == [] && description == []
      ensures written ==> file == None && fileName == []
      ensures !written ==> outcome == SaveFailed(record) && savedRecords == old(savedRecords)
      ensures !written ==> notice == Some(Failure("Error adding skill")) && navigations == old(navigations)
      ensures !written ==> category == old(category) && skillName == old(skillName) && experience == old(experience)
      ensures !written ==> description == old(description) && file == old(file) && fileName == old(fileName)
      ensures isUploading == old(isUploading) && isSubmitting == old(isSubmitting) && uploadAttempts == old(uploadAttempts)
    {
      if written {
        savedRecords := savedRecords + [record];
        notice := Some(Success("Skill added"));
        category, skillName, experience, description := [], [], [], [];
        file, fileName := None, [];
        navigations := navigations + [PortfolioRoute];
        outcome := Saved(record);
      } else {
        notice := Some(Failure("Error adding skill"));
        outcome := SaveFailed(record);
      }
    }

    /**
     * Submitting the form at time `now` as `uid`; `stored` is the upload's
     * outcome and `written` whether the collection write succeeds.
     */
    method HandleSubmit(uid: Option<string>, now: nat, stored: Option<string>, written: bool)
      returns (outcome: SubmitOutcome)
      requires Valid()
      modifies this
      ensures Valid()
      ensures outcome.NotSignedIn? <==> uid.None?
      ensures outcome.MissingInformation? <==> uid.Some? && (old(category) == [] || old(skillName) == [])
      ensures outcome.Saved? <==> Rejection(uid, old(category), old(skillName)).None? && written
      ensures Rejection(uid, old(category), old(skillName)).Some? ==>
        && notice == Rejection(uid, old(category), old(skillName))
        && category == old(category) && skillName == old(skillName) && experience == old(experience)
        && description == old(description) && file == old(file) && fileName == old(fileName)
        && isUploading == old(isUploading) && isSubmitting == old(isSubmitting)
        && savedRecords == old(savedRecords) && uploadAttempts == old(uploadAttempts) && navigations == old(navigations)
      ensures Rejection(uid, old(category), old(skillName)).None? ==>
        && (outcome.Saved? || outcome.SaveFailed?)
        && outcome.record == RecordFor(uid.value, old(category), old(skillName), old(experience), old(description),
                                       if old(file).Some? then stored else None, old(fileName))
        && !isSubmitting
        && isUploading == (old(isUploading) && old(file).None?)
        && uploadAttempts == old(uploadAttempts) +
             (if old(file).Some? then [StoragePath(uid.value, now, old(file).value.name)] else [])
      ensures outcome.Saved? ==>
        && savedRecords == old(savedRecords) + [outcome.record]
        && notice == Some(Success("Skill added"))
        && category == [] && skillName == [] && experience == [] && description == []
        && file == None && fileName == []
        && navigations == old(navigations) + [PortfolioRoute]
      ensures outcome.SaveFailed? ==>
        && savedRecords == old(savedRecords)
        && notice == Some(Failure("Error adding skill"))
        && category == old(category) && skillName == old(skillName) && experience == old(experience)
        && description == old(description) && file == old(file) && fileName == old(fileName)
        && navigations == old(navigations)
    {
      var refused := Rejection(uid, category, skillName);
      if refused.Some? {
        notice := refused;
        outcome := if uid.None? then NotSignedIn else MissingInformation;
        return;
      }
      isSubmitting := true;
      var documentUrl: Option<string> := None;
      if file.Some? {
        documentUrl := HandleFileUpload(uid, now, stored);
      }
      var record := RecordFor(uid.value, category, skillName, experience, description, documentUrl, fileName);
      outcome := Commit(record, written);
      isSubmitting := false;
    }
  }

  /** A failed upload does not stop the write: the record keeps the document name with no URL. */
  lemma FailedUploadStillNamesDocument(uid: string, category: string, skillName: string, experience: string,
                                       description: string, fileName: string)
    requires fileName != []
    ensures var r := RecordFor(uid, category, skillName, experience, description, None, fileName);
      r.documentUrl == None && r.documentName == Some(fileName)
  {
  }
}
