/**
 * The skills page: the signed-in user's list of skills, each with its own list
 * of certification documents, and the add / edit / delete / upload handlers
 * over it. Every handler builds the new list with `map`, `filter` or a spread;
 * the page keeps it, the form and the dialog target as state.
 */
module Skills {
  import opened Base
  import opened Text
  import opened Lists

  datatype Certification = Certification(id: int, name: string, url: string)

  datatype Skill = Skill(
    id: int,
    name: string,
    level: string,
    years: int,
    description: string,
    certifications: seq<Certification>)

  /** The add/edit dialog's form: the skill without its id and certifications. */
  datatype SkillForm = SkillForm(name: string, level: string, years: int, description: string)

  /** The `name` attribute of the text inputs wired to the change handler. */
  datatype FormField = NameField | YearsField | DescriptionField

  /** A file chosen in the upload dialog; only its name is used. */
  datatype FileRef = FileRef(name: string)

  const EmptyForm := SkillForm("", "", 0, "")

  /** `Number.parseInt(value) || 0`: NaN (and zero) become 0. */
  function YearsFromInput(value: string): int {
    match ParseInt(value)
    case None => 0
    case Some(n) => n
  }

  /** An input without any decimal digit is stored as 0 years. */
  lemma NonNumericYearsAreZero(value: string)
    requires forall i :: 0 <= i < |value| ==> !('0' <= value[i] <= '9')
    ensures YearsFromInput(value) == 0
  {
    ParseIntNoDigits(value);
  }

  /** The decimal text of a year count, signed or not, is stored as that count. */
  lemma DecimalYearsRoundTrip(n: nat, negative: bool)
    ensures YearsFromInput((if negative then "-" else "") + NatToDecimal(n)) == if negative then -(n as int) else n as int
  {
    ParseIntDecimal(n, negative);
  }

  /** The form after the input named `field` changed to `value`. */
  function ChangeField(form: SkillForm, field: FormField, value: string): SkillForm {
    match field
    case NameField => form.(name := value)
    case YearsField => form.(years := YearsFromInput(value))
    case DescriptionField => form.(description := value)
  }

  /** A change stores the value (parsed, for years) under its own field and leaves the other fields alone. */
  lemma ChangeFieldOnlyNamed(form: SkillForm, field: FormField, value: string)
    ensures var r := ChangeField(form, field, value);
      && r.level == form.level
      && r.name == (if field == NameField then value else form.name)
      && r.years == (if field == YearsField then YearsFromInput(value) else form.years)
      && r.description == (if field == DescriptionField then value else form.description)
  {
  }

  /** `{ id, ...formData, certifications: [] }`. */
  function NewSkill(form: SkillForm, id: int): Skill {
    Skill(id, form.name, form.level, form.years, form.description, [])
  }

  function Ids(skills: seq<Skill>): seq<int> {
    seq(|skills|, i requires 0 <= i < |skills| => skills[i].id)
  }

  /** `{ ...skill, ...formData }`: the form's four fields over the skill, id and certifications kept. */
  function Overwrite(skill: Skill, form: SkillForm): Skill {
    skill.(name := form.name, level := form.level, years := form.years, description := form.description)
  }

  /** `skills.map(skill => skill.id === id ? { ...skill, ...formData } : skill)`. */
  function EditSkill(skills: seq<Skill>, id: int, form: SkillForm): seq<Skill> {
    seq(|skills|, i requires 0 <= i < |skills| => if skills[i].id == id then Overwrite(skills[i], form) else skills[i])
  }

  /** `skills.filter(skill => skill.id !== id)`. */
  function RemoveSkill(skills: seq<Skill>, id: int): seq<Skill> {
    Filter(skills, (s: Skill) => s.id != id)
  }

  /** `certifications.filter(cert => cert.id !== certId)`. */
  function RemoveCertification(certs: seq<Certification>, certId: int): seq<Certification> {
    Filter(certs, (c: Certification) => c.id != certId)
  }

  /** Appends `cert` to the certifications of every skill with id `skillId`. */
  function AttachCertification(skills: seq<Skill>, skillId: int, cert: Certification): seq<Skill> {
    seq(|skills|, i requires 0 <= i < |skills| =>
      if skills[i].id == skillId then skills[i].(certifications := skills[i].certifications + [cert]) else skills[i])
  }

  /** Drops certification `certId` from every skill with id `skillId`. */
  function DetachCertification(skills: seq<Skill>, skillId: int, certId: int): seq<Skill> {
    seq(|skills|, i requires 0 <= i < |skills| =>
      if skills[i].id == skillId then skills[i].(certifications := RemoveCertification(skills[i].certifications, certId)) else skills[i])
  }

  predicate UniqueIds(skills: seq<Skill>) {
    forall i, j :: 0 <= i < j < |skills| ==> skills[i].id != skills[j].id
  }

  // ---------------------------------------------------------------------
  // properties of the list transforms

  /** Deleting removes exactly the skills with that id: what remains is every other skill, and no skill with the id. */
  lemma RemoveSkillExactly(skills: seq<Skill>, id: int)
    ensures forall s :: s in RemoveSkill(skills, id) <==> s in skills && s.id != id
  {
    forall s: Skill ensures s in RemoveSkill(skills, id) <==> s in skills && s.id != id {
      FilterMembers(skills, (s: Skill) => s.id != id, s);
    }
  }

  /** Deleting keeps the surviving skills in their original order: it acts on each part of the list separately. */
  lemma RemoveSkillKeepsOrder(a: seq<Skill>, b: seq<Skill>, id: int)
    ensures RemoveSkill(a + b, id) == RemoveSkill(a, id) + RemoveSkill(b, id)
  {
    FilterConcat(a, b, (s: Skill) => s.id != id);
  }

  /** Deleting an id that no skill has leaves the list unchanged. */
  lemma RemoveAbsentSkill(skills: seq<Skill>, id: int)
    requires id !in Ids(skills)
    ensures RemoveSkill(skills, id) == skills
  {
    forall i | 0 <= i < |skills| ensures skills[i].id != id {
      assert Ids(skills)[i] == skills[i].id;
    }
    FilterKeepsAll(skills, (s: Skill) => s.id != id);
  }

  /** Adding a skill under a fresh id and then deleting that id gives back the list. */
  lemma AddThenDeleteRestores(skills: seq<Skill>, form: SkillForm, freshId: int)
    requires freshId !in Ids(skills)
    ensures RemoveSkill(skills + [NewSkill(form, freshId)], freshId) == skills
  {
    RemoveSkillKeepsOrder(skills, [NewSkill(form, freshId)], freshId);
    RemoveAbsentSkill(skills, freshId);
    assert RemoveSkill([NewSkill(form, freshId)], freshId) == [];
  }

  /** Editing keeps the length, the order of ids and every skill's certifications. */
  lemma EditKeepsShape(skills: seq<Skill>, id: int, form: SkillForm)
    ensures Ids(EditSkill(skills, id, form)) == Ids(skills)
    ensures forall i :: 0 <= i < |skills| ==> EditSkill(skills, id, form)[i].certifications == skills[i].certifications
  {
  }

  /** Every skill with the id takes the form's four fields and keeps its id and certifications; every other skill is untouched. */
  lemma EditAppliesForm(skills: seq<Skill>, id: int, form: SkillForm, i: nat)
    requires i < |skills|
    ensures var e := EditSkill(skills, id, form)[i];
      if skills[i].id == id then
        && e.id == id && e.certifications == skills[i].certifications
        && SkillForm(e.name, e.level, e.years, e.description) == form
      else e == skills[i]
  {
  }

  /** Editing with the form that opening the edit dialog on a listed skill fills in changes nothing, when ids are unique. */
  lemma EditWithUnchangedFormIsIdentity(skills: seq<Skill>, k: nat)
    requires k < |skills| && UniqueIds(skills)
    ensures var s := skills[k];
      EditSkill(skills, s.id, SkillForm(s.name, s.level, s.years, s.description)) == skills
  {
    var s := skills[k];
    var r := EditSkill(skills, s.id, SkillForm(s.name, s.level, s.years, s.description));
    forall i | 0 <= i < |skills| ensures r[i] == skills[i] {
      if skills[i].id == s.id {
        assert i == k;
      }
    }
  }

  /** Removing a certification removes exactly those with that id and keeps every other one. */
  lemma RemoveCertificationExactly(certs: seq<Certification>, certId: int)
    ensures forall c :: c in RemoveCertification(certs, certId) <==> c in certs && c.id != certId
  {
    forall c: Certification ensures c in RemoveCertification(certs, certId) <==> c in certs && c.id != certId {
      FilterMembers(certs, (c: Certification) => c.id != certId, c);
    }
  }

  /** An upload adds the certification at the end of the target skill's list and touches nothing else. */
  lemma AttachAppendsToTarget(skills: seq<Skill>, skillId: int, cert: Certification, i: nat)
    requires i < |skills|
    ensures var u := AttachCertification(skills, skillId, cert)[i];
      if skills[i].id == skillId then
        && u.(certifications := skills[i].certifications) == skills[i]
        && |u.certifications| == |skills[i].certifications| + 1
        && u.certifications[..|skills[i].certifications|] == skills[i].certifications
        && u.certifications[|skills[i].certifications|] == cert
      else u == skills[i]
  {
    if skills[i].id == skillId {
      var u := AttachCertification(skills, skillId, cert)[i];
      assert u.certifications == skills[i].certifications + [cert];
    }
  }

  /**
   * Deleting a certification (175-183) changes only the certifications of the
   * target skill, which keep exactly those with another id; every other skill
   * is unchanged.
   */
  lemma DetachTouchesOnlyTarget(skills: seq<Skill>, skillId: int, certId: int, i: nat)
    requires i < |skills|
    ensures |DetachCertification(skills, skillId, certId)| == |skills|
    ensures var u := DetachCertification(skills, skillId, certId)[i];
      if skills[i].id == skillId then
        && u.(certifications := skills[i].certifications) == skills[i]
        && forall c :: c in u.certifications <==> c in skills[i].certifications && c.id != certId
      else u == skills[i]
  {
    if skills[i].id == skillId {
      RemoveCertificationExactly(skills[i].certifications, certId);
    }
  }

  /** Uploading a certification under an id the target skill does not use, then deleting it, gives back the list. */
  lemma UploadThenDeleteCertificationRestores(skills: seq<Skill>, skillId: int, cert: Certification)
    requires forall i :: 0 <= i < |skills| && skills[i].id == skillId ==>
      forall j :: 0 <= j < |skills[i].certifications| ==> skills[i].certifications[j].id != cert.id
    ensures DetachCertification(AttachCertification(skills, skillId, cert), skillId, cert.id) == skills
  {
    var up := AttachCertification(skills, skillId, cert);
    var r := DetachCertification(up, skillId, cert.id);
    forall i | 0 <= i < |skills| ensures r[i] == skills[i] {
      if skills[i].id == skillId {
        var certs := skills[i].certifications;
        var keep := (c: Certification) => c.id != cert.id;
        FilterConcat(certs, [cert], keep);
        FilterKeepsAll(certs, keep);
        assert Filter([cert], keep) == [];
        assert r[i].certifications == certs;
      }
    }
  }

  // ---------------------------------------------------------------------
  // the page

  class SkillsPage {
    var skills: seq<Skill>
    var form: SkillForm
    /** The skill an edit or upload dialog was opened on. */
    var currentSkill: Option<Skill>
    var selectedFile: Option<FileRef>

    /** The page starts with the given list, an empty form, no current skill and no file. */
    constructor (initial: seq<Skill>)
      ensures skills == initial && form == EmptyForm && currentSkill == None && selectedFile == None
    {
      skills := initial;
      form := EmptyForm;
      currentSkill := None;
      selectedFile := None;
    }

    /** handleInputChange: only the named field of the form changes. */
    method HandleInputChange(field: FormField, value: string)
      modifies this
      ensures form == ChangeField(old(form), field, value)
      ensures skills == old(skills) && currentSkill == old(currentSkill) && selectedFile == old(selectedFile)
    {
      form := ChangeField(form, field, value);
    }

    /** handleSelectChange: the level select writes the level. */
    method HandleSelectChange(value: string)
      modifies this
      ensures form == old(form).(level := value)
      ensures skills == old(skills) && currentSkill == old(currentSkill) && selectedFile == old(selectedFile)
    {
      form := form.(level := value);
    }

    /** resetForm: empty name, level and description, zero years, no current skill. */
    method ResetForm()
      modifies this
      ensures form == EmptyForm && currentSkill == None
      ensures skills == old(skills) && selectedFile == old(selectedFile)
    {
      form := EmptyForm;
      currentSkill := None;
    }

    /** handleAddSkill: appends one skill built from the form under `freshId` (no check on the name), then resets the form. */
    method HandleAddSkill(freshId: int)
      modifies this
      ensures skills == old(skills) + [NewSkill(old(form), freshId)]
      ensures form == EmptyForm && currentSkill == None && selectedFile == old(selectedFile)
    {
      var added := NewSkill(form, freshId);
      skills := skills + [added];
      ResetForm();
    }

    /** handleEditSkill: nothing without a current skill; otherwise overwrites the skills with its id, then resets the form. */
    method HandleEditSkill()
      modifies this
      ensures old(currentSkill) == None ==>
        skills == old(skills) && form == old(form) && currentSkill == None && selectedFile == old(selectedFile)
      ensures old(currentSkill) != None ==>
        && skills == EditSkill(old(skills), old(currentSkill).value.id, old(form))
        && form == EmptyForm && currentSkill == None && selectedFile == old(selectedFile)
    {
      if currentSkill == None {
        return;
      }
      skills := EditSkill(skills, currentSkill.value.id, form);
      ResetForm();
    }

    /** handleDeleteSkill: drops every skill with the id. */
    method HandleDeleteSkill(id: int)
      modifies this
      ensures skills == RemoveSkill(old(skills), id)
      ensures form == old(form) && currentSkill == old(currentSkill) && selectedFile == old(selectedFile)
    {
      skills := RemoveSkill(skills, id);
    }

    /** handleFileChange: the first chosen file, if any, becomes the selected file. */
    method HandleFileChange(files: seq<FileRef>)
      modifies this
      ensures selectedFile == if files == [] then old(selectedFile) else Some(files[0])
      ensures skills == old(skills) && form == old(form) && currentSkill == old(currentSkill)
    {
      if files != [] {
        selectedFile := Some(files[0]);
      }
    }

    /** The remove button next to the chosen file. */
    method ClearSelectedFile()
      modifies this
      ensures selectedFile == None
      ensures skills == old(skills) && form == old(form) && currentSkill == old(currentSkill)
    {
      selectedFile := None;
    }

    /**
     * handleUploadCertification: nothing unless a skill and a file are set; otherwise
     * appends a certification named after the file to the current skill and clears the file.
     * `freshId` stands for `Date.now()` and `url` for the object URL of the file.
     */
    method HandleUploadCertification(freshId: int, url: string)
      modifies this
      ensures old(currentSkill) == None || old(selectedFile) == None ==>
        skills == old(skills) && selectedFile == old(selectedFile)
      ensures old(currentSkill) != None && old(selectedFile) != None ==>
        && skills == AttachCertification(old(skills), old(currentSkill).value.id,
                                         Certification(freshId, old(selectedFile).value.name, url))
        && selectedFile == None
      ensures form == old(form) && currentSkill == old(currentSkill)
    {
      if currentSkill == None || selectedFile == None {
        return;
      }
      var cert := Certification(freshId, selectedFile.value.name, url);
      skills := AttachCertification(skills, currentSkill.value.id, cert);
      selectedFile := None;
    }

    /** handleDeleteCertification: drops `certId` from the skill `skillId` only. */
    method HandleDeleteCertification(skillId: int, certId: int)
      modifies this
      ensures skills == DetachCertification(old(skills), skillId, certId)
      ensures form == old(form) && currentSkill == old(currentSkill) && selectedFile == old(selectedFile)
    {
      skills := DetachCertification(skills, skillId, certId);
    }

    /** openEditDialog: the skill becomes current and its four fields fill the form. */
    method OpenEditDialog(skill: Skill)
      modifies this
      ensures currentSkill == Some(skill)
      ensures form == SkillForm(skill.name, skill.level, skill.years, skill.description)
      ensures skills == old(skills) && selectedFile == old(selectedFile)
    {
      currentSkill := Some(skill);
      form := SkillForm(skill.name, skill.level, skill.years, skill.description);
    }

    /** openUploadDialog: the skill becomes current. */
    method OpenUploadDialog(skill: Skill)
      modifies this
      ensures currentSkill == Some(skill)
      ensures skills == old(skills) && form == old(form) && selectedFile == old(selectedFile)
    {
      currentSkill := Some(skill);
    }
  }
}
