/**
 * The profile page: a saved record and an editable draft of it, the edit,
 * save and cancel actions, and the initials shown in the avatar.
 */
module Profile {
  import opened Base
  import opened Text
  import opened Lists

  datatype ProfileData = ProfileData(
    name: string,
    email: string,
    role: string,
    department: string,
    bio: string,
    location: string,
    phone: string,
    joinDate: string)

  /** The inputs of the edit form, named as their `name` attributes; the join date has none. */
  datatype ProfileField = Name | Email | Role | Department | Location | Phone | Bio

  function FieldValue(d: ProfileData, f: ProfileField): string {
    match f
    case Name => d.name
    case Email => d.email
    case Role => d.role
    case Department => d.department
    case Location => d.location
    case Phone => d.phone
    case Bio => d.bio
  }

  /** `{ ...formData, [name]: value }`. */
  function WithField(d: ProfileData, f: ProfileField, value: string): (r: ProfileData)
    ensures FieldValue(r, f) == value
    ensures forall g: ProfileField :: g != f ==> FieldValue(r, g) == FieldValue(d, g)
    ensures r.joinDate == d.joinDate
  {
    match f
    case Name => d.(name := value)
    case Email => d.(email := value)
    case Role => d.(role := value)
    case Department => d.(department := value)
    case Location => d.(location := value)
    case Phone => d.(phone := value)
    case Bio => d.(bio := value)
  }

  /** Two records agreeing on every input and on the join date are the same record. */
  lemma FieldsDetermineProfile(a: ProfileData, b: ProfileData)
    requires forall g: ProfileField :: FieldValue(a, g) == FieldValue(b, g)
    requires a.joinDate == b.joinDate
    ensures a == b
  {
    assert FieldValue(a, Name) == FieldValue(b, Name);
    assert FieldValue(a, Email) == FieldValue(b, Email);
    assert FieldValue(a, Role) == FieldValue(b, Role);
    assert FieldValue(a, Department) == FieldValue(b, Department);
    assert FieldValue(a, Location) == FieldValue(b, Location);
    assert FieldValue(a, Phone) == FieldValue(b, Phone);
    assert FieldValue(a, Bio) == FieldValue(b, Bio);
  }

  /** Typing a field's current value back changes nothing. */
  lemma RetypingIsIdentity(d: ProfileData, f: ProfileField)
    ensures WithField(d, f, FieldValue(d, f)) == d
  {
    var r := WithField(d, f, FieldValue(d, f));
    forall g: ProfileField
      ensures FieldValue(r, g) == FieldValue(d, g)
    {
    }
    FieldsDetermineProfile(r, d);
  }

  // ---------------------------------------------------------------------
  // initials

  /** The first character of every piece, with an empty piece contributing nothing. */
  function Heads(pieces: seq<string>): (r: string)
    ensures |r| <= |pieces|
    ensures forall k :: 0 <= k < |r| ==> exists j :: 0 <= j < |pieces| && pieces[j] != [] && r[k] == pieces[j][0]
  {
    if pieces == [] then []
    else
      var rest := Heads(pieces[1..]);
      var h := if pieces[0] == [] then [] else [pieces[0][0]];
      assert forall k :: 0 <= k < |rest| ==> exists j :: 0 <= j < |pieces| && pieces[j] != [] && rest[k] == pieces[j][0] by {
        forall k | 0 <= k < |rest|
          ensures exists j :: 0 <= j < |pieces| && pieces[j] != [] && rest[k] == pieces[j][0]
        {
          var j :| 0 <= j < |pieces[1..]| && pieces[1..][j] != [] && rest[k] == pieces[1..][j][0];
          assert pieces[j + 1] == pieces[1..][j];
        }
      }
      h + rest
  }

  lemma {:induction false} HeadsConcat(p: seq<string>, q: seq<string>)
    ensures Heads(p + q) == Heads(p) + Heads(q)
  {
    if p == [] {
      assert p + q == q;
    } else {
      HeadTailConcat(p, q);
      HeadsConcat(p[1..], q);
      var h := if p[0] == [] then [] else [p[0][0]];
      assert Heads(p + q) == h + (Heads(p[1..]) + Heads(q));
      assert Heads(p) == h + Heads(p[1..]);
      ConcatAssoc(h, Heads(p[1..]), Heads(q));
    }
  }

  /** The avatar text: the first character of each space-separated piece of the name. */
  function Initials(name: string): string {
    Heads(Split(name, ' '))
  }

  /** The initials hold no more characters than the name has pieces, and never a space. */
  lemma InitialsShape(name: string)
    ensures |Initials(name)| <= |Split(name, ' ')|
    ensures ' ' !in Initials(name)
  {
  }

  /** The initials of two parts joined by a space are the initials of each part, in order. */
  lemma InitialsAppend(first: string, rest: string)
    requires ' ' !in first
    ensures Initials(first + " " + rest) == Initials(first) + Initials(rest)
  {
    assert first + " " + rest == first + [' '] + rest;
    SplitAppend(first, ' ', rest);
    HeadsConcat(Split(first, ' '), Split(rest, ' '));
  }

  /** A single word's initial is its first character. */
  lemma InitialsOfWord(word: string)
    requires word != [] && ' ' !in word
    ensures Initials(word) == [word[0]]
  {
    SplitWithoutSeparator(word, ' ');
    assert Split(word, ' ')[1..] == [];
  }

  /** A first and last name give the two first letters; extra spaces add nothing. */
  lemma InitialsOfFullName(first: string, last: string)
    requires first != [] && ' ' !in first && last != [] && ' ' !in last
    ensures Initials(first + " " + last) == [first[0], last[0]]
    ensures Initials(first + " " + " " + last) == [first[0], last[0]]
  {
    InitialsAppend(first, last);
    InitialsOfWord(first);
    InitialsOfWord(last);
    InitialsAppend(first, " " + last);
    assert first + " " + " " + last == first + " " + (" " + last);
    InitialsAppend([], last);
    assert [] + " " + last == " " + last;
    SplitWithoutSeparator([], ' ');
  }

  // ---------------------------------------------------------------------
  // the page

  class ProfilePage {
    var userData: ProfileData
    var formData: ProfileData
    var isEditing: bool
    var notice: Option<Notice>

    /** The join date has no input, so the draft always carries the saved one. */
    ghost predicate Valid()
      reads this
    {
      formData.joinDate == userData.joinDate
    }

    constructor (initial: ProfileData)
      ensures Valid()
      ensures userData == initial && formData == initial && !isEditing && notice == None
    {
      userData, formData, isEditing, notice := initial, initial, false, None;
    }

    /** The "Edit Profile" button shows only while not editing. */
    predicate EditButtonShown()
      reads this
    {
      !isEditing
    }

    method StartEditing()
      modifies this
      ensures isEditing
      ensures userData == old(userData) && formData == old(formData) && notice == old(notice)
    {
      isEditing := true;
    }

    /** One input changes the draft's field of that name and nothing else. */
    method HandleInputChange(f: ProfileField, value: string)
      requires Valid()
      modifies this
      ensures Valid()
      ensures FieldValue(formData, f) == value
      ensures forall g: ProfileField :: g != f ==> FieldValue(formData, g) == FieldValue(old(formData), g)
      ensures userData == old(userData) && isEditing == old(isEditing) && notice == old(notice)
    {
      formData := WithField(formData, f, value);
    }

    /** Saving makes the draft the saved record and leaves edit mode. */
    method HandleSubmit()
      requires Valid()
      modifies this
      ensures Valid()
      ensures userData == old(formData) && formData == old(formData) && !isEditing
      ensures notice == Some(Success("Profile updated"))
    {
      userData := formData;
      isEditing := false;
      notice := Some(Success("Profile updated"));
    }

    /** Cancelling throws the draft away, restoring the saved record, and leaves edit mode. */
    method HandleCancel()
      requires Valid()
      modifies this
      ensures Valid()
      ensures formData == old(userData) && userData == old(userData) && !isEditing
      ensures notice == old(notice)
    {
      formData := userData;
      isEditing := false;
    }
  }

  /** After any edits, cancelling leaves saved record and draft exactly as before editing began. */
  method EditThenCancelRestores(initial: ProfileData, f: ProfileField, value: string)
  {
    var page := new ProfilePage(initial);
    page.StartEditing();
    page.HandleInputChange(f, value);
    page.HandleCancel();
    assert page.userData == initial && page.formData == initial && page.EditButtonShown();
  }
}
