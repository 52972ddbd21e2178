# Skills portfolio dashboard — a Dafny model

This project models the core of a skills-portfolio web dashboard. Signed-in
team members keep a list of their professional skills, each with attached
certification documents, and add new skills through a form that can upload
a supporting document. An admin page searches the whole roster of users by
skill name, ranks them by years of experience in the matching skill, and lets
an administrator select users and validate a bulk email. Everything sits
inside the following:

- a dashboard shell, which turns away visitors without a stored session flag
  and builds the sidebar navigation;
- an authentication context, which turns identity changes plus profile
  lookups into the signed-in user and a `loading` flag;
- a landing page, which decides between its loading view, its content and a
  redirect to the login page;
- a profile page with an editable draft of the user's record.

Each page is a `class` whose fields are the page's state. Each event handler
is a method that says exactly what the new state is. The list and string
transforms the handlers use are pure functions, with lemmas about them.
Timers and asynchronous completions are separate event methods, so any
interleaving of them can be expressed.

Modules:

- `Base`: the `Option` type and the success/failure `Notice` a toast shows.
- `Text`: the ECMAScript string operations the pages use, as pure
  functions. These are `trim`, `toLowerCase`, `includes`, `split`/`join`,
  decimal rendering and `Number.parseInt` (section 19.2.5 of ECMA-262). A
  first-occurrence search is also defined, used only by the parser that reads
  an upload path back in the proof that the path template is injective.
- `Lists`: `Array.prototype.filter`, and the stable descending sort that
  `Array.prototype.sort` performs with a `b - a` comparator. The sort is
  given both as a specification function and as an in-place insertion sort
  on an array, proved equal to it.
- `Skills`: the skills page (`app/dashboard/skills/page.tsx`).
- `Directory`: the admin page (`app/dashboard/admin/page.tsx`).
- `Session`: the authentication context (`context/auth-context.tsx`).
- `Shell`: the dashboard layout (`components/dashboard-layout.tsx`).
- `Home`: the landing page (`app/dashboard/page.tsx`).
- `AddSkill`: the add-skill page (`app/dashboard/add-skill/page.tsx`).
- `Profile`: the profile page (`app/dashboard/profile/page.tsx`).

The model takes these things as parameters, since they come from services
the pages call:

- what the authentication service reports;
- what a profile lookup returns;
- whether a storage upload or a collection write succeeds;
- the value of `Date.now()`;
- the object URL of a chosen file;
- the contents of browser storage.

## Model

| member | source | states |
|---|---|---|
| `Text.TrimStart` | app/dashboard/admin/page.tsx:131 | The result is a suffix of the input; everything removed is ECMAScript white space; the result does not start with white space. |
| `Text.TrimEnd` | app/dashboard/admin/page.tsx:180 | The result is a prefix of the input; everything removed is white space; the result does not end with white space. |
| `Text.TrimEmptyIffBlank` | app/dashboard/admin/page.tsx:131 | `s.trim() === ""` holds exactly when every character of `s` is ECMAScript white space or a line terminator. |
| `Text.LowerChar` | app/dashboard/admin/page.tsx:136-137 | A capital becomes its small letter, 32 code points on; any other character is kept; the result is never a capital. |
| `Text.LowerCharIgnoresCase` | app/dashboard/admin/page.tsx:136-137 | Two characters lower-case alike exactly when they are equal or a capital and its small letter. |
| `Text.ToLowerCase` | app/dashboard/admin/page.tsx:136-137 | Lower-casing keeps the length, keeps each character or replaces it by its small letter, and leaves no capital. |
| `Text.LowerCaseIgnoresCase` | app/dashboard/admin/page.tsx:136-137 | Two strings lower-case to the same string exactly when they have the same length and differ at most in letter case. |
| `Text.LowerCaseKeepsBlank` | app/dashboard/admin/page.tsx:131-136 | Lower-casing keeps a string blank or not blank. |
| `Text.ToLowerCaseIdempotent` | app/dashboard/admin/page.tsx:136-142 | Lower-casing an already lower-cased string changes nothing. |
| `Text.Split` | app/dashboard/profile/page.tsx:89-92 | `split(" ")` yields at least one piece and no piece contains the separator. |
| `Text.JoinSplit` | app/dashboard/profile/page.tsx:89-92 | Joining the pieces of a split with the same separator gives back the original string. |
| `Text.SplitAppend` | app/dashboard/profile/page.tsx:89-92 | Splitting `a + sep + b` with `sep` not in `a` gives the pieces of `a` followed by the pieces of `b`. |
| `Text.SplitWithoutSeparator` | app/dashboard/profile/page.tsx:89-92 | A string without the separator splits into itself alone. |
| `Text.NatToDecimal` | app/dashboard/add-skill/page.tsx:72 | `${n}` is a non-empty string of decimal digits without a leading zero. |
| `Text.DecimalRoundTrip` | app/dashboard/add-skill/page.tsx:72 | Reading the decimal rendering of `n` back gives `n`. |
| `Text.ParseIntDecimal` | app/dashboard/skills/page.tsx:87 | `Number.parseInt` of the decimal text of an integer, with or without a leading minus, is that integer. |
| `Text.ParseIntNoDigits` | app/dashboard/skills/page.tsx:87 | `Number.parseInt` of a text with no decimal digit at all is NaN. |
| `Lists.Filter` | app/dashboard/admin/page.tsx:137 | `filter` returns only elements that pass and is no longer than its input (that it keeps every passing element is `Lists.FilterMembers`). |
| `Lists.FilterConcat` | app/dashboard/skills/page.tsx:133 | Filtering a concatenation filters each part, in order. |
| `Lists.SortPermutes` | app/dashboard/admin/page.tsx:140-148 | The sort returns a permutation (same multiset) of its input. |
| `Lists.SortIsSorted` | app/dashboard/admin/page.tsx:140-148 | The sort result is in descending order of the key, as the `bYears - aYears` comparator orders it. |
| `Lists.SortIsStable` | app/dashboard/admin/page.tsx:140-148 | Elements with equal keys keep their relative order: for every key value, the subsequence with that key is unchanged. |
| `Lists.SortInPlace` | app/dashboard/admin/page.tsx:140-148 | The in-place insertion sort on an array leaves exactly the stable descending sort of the array's old contents. |
| `Lists.InsertInPlace` | app/dashboard/admin/page.tsx:140-148 | One insertion step moves element `i` into the sorted prefix before it and leaves the rest of the array unchanged. |
| `Lists.MakeRoom` | app/dashboard/admin/page.tsx:140-148 | The shifting loop of one insertion step stops at the gap where `x` belongs: everything before the gap is the old sorted prefix, everything after it is that prefix shifted right by one, and the key left of the gap is at least `x`'s. |
| `Lists.FilterMembers` | app/dashboard/admin/page.tsx:137 | An element is in the filtered list exactly when it is in the input and passes the test. |
| `Skills.NonNumericYearsAreZero` | app/dashboard/skills/page.tsx:87 | A years input without any digit is stored as 0 (`parseInt(...) \|\| 0`). |
| `Skills.DecimalYearsRoundTrip` | app/dashboard/skills/page.tsx:87 | Typing the decimal text of a year count, signed or not, stores that count. |
| `Skills.ChangeFieldOnlyNamed` | app/dashboard/skills/page.tsx:83-89 | A change writes its value (parsed, for years) under the named field only; the level and the other fields are kept. |
| `Skills.RemoveSkillExactly` | app/dashboard/skills/page.tsx:130-133 | After deleting an id, a skill remains exactly when it was listed and has another id. |
| `Skills.RemoveSkillKeepsOrder` | app/dashboard/skills/page.tsx:133 | Deleting acts on each part of the list separately, so survivors keep their order. |
| `Skills.RemoveAbsentSkill` | app/dashboard/skills/page.tsx:133 | Deleting an id no skill has leaves the list unchanged. |
| `Skills.AddThenDeleteRestores` | app/dashboard/skills/page.tsx:98-133 | Adding a skill under a fresh id and then deleting that id gives back the original list. |
| `Skills.EditKeepsShape` | app/dashboard/skills/page.tsx:115-119 | An edit keeps the length, the sequence of ids and every skill's certifications. |
| `Skills.EditAppliesForm` | app/dashboard/skills/page.tsx:118 | Each skill with the edited id takes the form's four fields and keeps its id and certifications; every other skill is unchanged. |
| `Skills.EditWithUnchangedFormIsIdentity` | app/dashboard/skills/page.tsx:203-210 | Submitting the form that opening the edit dialog filled in, unchanged, leaves a list with unique ids unchanged. |
| `Skills.RemoveCertificationExactly` | app/dashboard/skills/page.tsx:175-183 | A certification remains exactly when it was attached and has another id. |
| `Skills.DetachTouchesOnlyTarget` | app/dashboard/skills/page.tsx:175-183 | Deleting keeps the list's length; the target skill keeps every field but its certifications, which keep exactly those with another id; every other skill is unchanged. |
| `Skills.AttachAppendsToTarget` | app/dashboard/skills/page.tsx:147-165 | An upload appends the new certification at the end of the target skill's list; everything else is unchanged. |
| `Skills.UploadThenDeleteCertificationRestores` | app/dashboard/skills/page.tsx:147-183 | Uploading a certification under an id the skill does not use, then deleting that id from the skill, gives back the list. |
| `Skills.SkillsPage.constructor` | app/dashboard/skills/page.tsx:68-80 | The page starts with the given skills, an empty form, no current skill and no file. |
| `Skills.SkillsPage.HandleInputChange` | app/dashboard/skills/page.tsx:83-89 | Only the form changes, by the named field. |
| `Skills.SkillsPage.HandleSelectChange` | app/dashboard/skills/page.tsx:91-96 | Only the form's level changes. |
| `Skills.SkillsPage.ResetForm` | app/dashboard/skills/page.tsx:193-201 | The form is emptied and the current skill cleared; the list and the file are kept. |
| `Skills.SkillsPage.HandleAddSkill` | app/dashboard/skills/page.tsx:98-113 | One skill built from the form under the fresh id is appended, with no certifications; the form is reset. |
| `Skills.SkillsPage.HandleEditSkill` | app/dashboard/skills/page.tsx:115-128 | Without a current skill nothing changes; otherwise the skills with its id are overwritten by the form and the form is reset. |
| `Skills.SkillsPage.HandleDeleteSkill` | app/dashboard/skills/page.tsx:130-139 | The list becomes the list without the skills of that id. |
| `Skills.SkillsPage.HandleFileChange` | app/dashboard/skills/page.tsx:141-145 | The first chosen file becomes the selected file; an empty choice keeps the old one. |
| `Skills.SkillsPage.ClearSelectedFile` | app/dashboard/skills/page.tsx:381 | The selected file is cleared. |
| `Skills.SkillsPage.HandleUploadCertification` | app/dashboard/skills/page.tsx:147-173 | Without a current skill or a file nothing changes; otherwise a certification named after the file is attached to the current skill and the file is cleared. |
| `Skills.SkillsPage.HandleDeleteCertification` | app/dashboard/skills/page.tsx:175-191 | The certification is removed from the named skill only. |
| `Skills.SkillsPage.OpenEditDialog` | app/dashboard/skills/page.tsx:203-212 | The skill becomes current and its four fields fill the form. |
| `Skills.SkillsPage.OpenUploadDialog` | app/dashboard/skills/page.tsx:214-217 | The skill becomes current; nothing else changes. |
| `Directory.FirstMatchIndex` | app/dashboard/admin/page.tsx:141-142 | `find` returns the first skill whose lower-cased name contains the query, or none when no skill does. |
| `Directory.MatchingSkill` | app/dashboard/admin/page.tsx:345-347 | An empty query highlights nothing; otherwise the highlighted skill is the first matching one, and nothing is highlighted only when no skill matches. |
| `Directory.HighlightedSkillIsRanked` | app/dashboard/admin/page.tsx:141-147 | For a listed user under a non-blank query, the highlighted skill is the one whose years ranked the user. |
| `Directory.BlankSearchShowsAll` | app/dashboard/admin/page.tsx:131-134 | A query of white space only shows the whole roster in roster order. |
| `Directory.SearchRanksMatchingUsers` | app/dashboard/admin/page.tsx:130-151 | A non-blank query shows exactly the users with a matching skill, each as often as in the roster, in descending order of matching-skill years, with ties in roster order. |
| `Directory.SearchIgnoresCase` | app/dashboard/admin/page.tsx:130-151 | Two queries that differ at most in letter case show the same list. |
| `Directory.RankMatches` | app/dashboard/admin/page.tsx:137-148 | The copied, filtered roster sorted in place on an array equals the stable descending sort of the users whose skills match the query. |
| `Directory.ToggleFlipsOne` | app/dashboard/admin/page.tsx:158-160 | A toggle flips whether that id is selected and no other id. |
| `Directory.ToggleTwiceRestores` | app/dashboard/admin/page.tsx:158-160 | Toggling an unselected id twice gives back the selection exactly. |
| `Directory.ToggleTwiceSameMembers` | app/dashboard/admin/page.tsx:158-160 | Toggling any id twice gives back the same set of selected ids. |
| `Directory.ToggleAllTwiceClears` | app/dashboard/admin/page.tsx:162-168 | From a selection whose length differs from the list's, select-all selects the listed ids, and a second select-all clears them. |
| `Directory.ToggleAllOnEmpty` | app/dashboard/admin/page.tsx:162-168 | With nothing listed and nothing selected, select-all leaves the selection empty. |
| `Directory.ToggleAllComparesLengthsOnly` | app/dashboard/admin/page.tsx:163 | A stale selection as long as the list is cleared by select-all although the listed user was never selected. |
| `Directory.ValidateSend` | app/dashboard/admin/page.tsx:170-192 | With nothing selected the result is "no users"; with a blank subject or body it is "missing information"; otherwise the recipients are the selected users in roster order. |
| `Directory.MissingInformationIffTrimmedEmpty` | app/dashboard/admin/page.tsx:180-187 | With a selection, the email is refused for missing information exactly when `subject.trim()` or `body.trim()` is empty. |
| `Directory.SendNotice` | app/dashboard/admin/page.tsx:170-198 | The toast is a success exactly when the email is sent. |
| `Directory.RecipientsAreSelected` | app/dashboard/admin/page.tsx:190-193 | A roster user is a recipient exactly when their id is selected. |
| `Directory.AdminPage.constructor` | app/dashboard/admin/page.tsx:95-104 | Empty roster, list, query, selection and email fields; the page is loading and no role is known. |
| `Directory.AdminPage.MountEffect` | app/dashboard/admin/page.tsx:106-128 | The stored role is recorded; a non-admin gets "Access denied" and no loading timer; an admin gets a loading timer. |
| `Directory.AdminPage.LoadTimerFired` | app/dashboard/admin/page.tsx:121-125 | An armed timer installs the roster, ends loading and re-runs the search; an unarmed one changes nothing. |
| `Directory.AdminPage.SetSearchQuery` | app/dashboard/admin/page.tsx:253 | The query changes and the list becomes the search result for it. |
| `Directory.AdminPage.SearchEffect` | app/dashboard/admin/page.tsx:130-151 | The list becomes the search result of the roster for the current query; nothing else changes. |
| `Directory.AdminPage.ToggleUserSelection` | app/dashboard/admin/page.tsx:158-160 | Only the selection changes, by a toggle of the id. |
| `Directory.AdminPage.ToggleAllUsers` | app/dashboard/admin/page.tsx:162-168 | Only the selection changes, by select-all over the shown list. |
| `Directory.AdminPage.SetEmailDialogOpen` | app/dashboard/admin/page.tsx:285 | Only the dialog flag changes. |
| `Directory.AdminPage.SetEmailSubject` | app/dashboard/admin/page.tsx:305 | Only the subject changes. |
| `Directory.AdminPage.SetEmailBody` | app/dashboard/admin/page.tsx:314 | Only the body changes. |
| `Directory.AdminPage.HandleSendEmail` | app/dashboard/admin/page.tsx:170-203 | The outcome is the validation of the current state and its toast is shown; a refused email changes nothing else; a sent one clears the subject and body and closes the dialog. |
| `Session.SessionUserPresence` | context/auth-context.tsx:46-98 | A callback leaves a user exactly when there is an identity and it is not an unverified email/password identity. |
| `Session.UserKeepsIdentity` | context/auth-context.tsx:63-95 | The user keeps the identity's uid, email and photo whatever the lookup did. |
| `Session.AdminOnlyFromStoredRole` | context/auth-context.tsx:61-95 | The user is an admin exactly when the identity passed the gate and its stored document has role "admin". |
| `Session.RoleNeverEmpty` | context/auth-context.tsx:70-94 | The role is never empty; a missing document, a failed lookup or a falsy stored role give "resource". |
| `Session.DisplayNameFallback` | context/auth-context.tsx:68 | With a document, the identity's name wins, then the stored full name; the name is null only when both are falsy, and it is never "". |
| `Session.AuthProvider.constructor` | context/auth-context.tsx:35-36 | No user, loading, nothing pending, no timer armed. |
| `Session.AuthProvider.OnAuthStateChanged` | context/auth-context.tsx:46-104 | No identity: user cleared and a loading timer armed. Unverified identity: user cleared, loading ended at once, timer armed, no lookup. Otherwise: the lookup is queued and nothing else changes. |
| `Session.AuthProvider.LookupSettled` | context/auth-context.tsx:61-104 | Any queued lookup, however old, sets the user built from its identity and result, and arms a loading timer. |
| `Session.AuthProvider.LoadingTimerFired` | context/auth-context.tsx:99-104 | An armed timer ends loading; loading never turns true again; the user is unchanged. |
| `Shell.StorageGet` | components/dashboard-layout.tsx:36-37 | `getItem` returns the stored value exactly when the key is present. |
| `Shell.HeaderLabel` | components/dashboard-layout.tsx:151 | The header reads "Admin User" exactly for the role "admin", and "Team Member" for every other role. |
| `Shell.AtMostOneActive` | components/dashboard-layout.tsx:89 | With distinct routes, at most one sidebar entry is highlighted for any path. |
| `Shell.BuildNavigation` | components/dashboard-layout.tsx:64-73 | The three member entries come first; the admin entry is present exactly for the role "admin" and comes last; routes are distinct. |
| `Shell.LogoutClosesGate` | components/dashboard-layout.tsx:48-50 | After sign-out neither stored key can be read back. |
| `Shell.DashboardLayout.constructor` | components/dashboard-layout.tsx:27-28 | The shell starts unauthenticated with no role and the given storage. |
| `Shell.DashboardLayout.AuthGateEffect` | components/dashboard-layout.tsx:34-46 | A stored flag other than exactly "true" sends the visitor to the login page; otherwise the shell opens with the stored role. |
| `Shell.DashboardLayout.HandleLogout` | components/dashboard-layout.tsx:48-57 | Both session keys are removed, every other key is kept, and the login page is opened. |
| `Home.NoEarlyRedirect` | app/dashboard/page.tsx:50-56 | No redirect while the session loads, before the grace timer fires, or with a user present. |
| `Home.ContentMeansSettled` | app/dashboard/page.tsx:81-83 | The content renders exactly when both loads are over and there is a user or the grace timer has fired. |
| `Home.RedirectWhileRendering` | app/dashboard/page.tsx:50-83 | When the redirect is due, the content still renders unless the page's own timer is pending. |
| `Home.DashboardPage.constructor` | app/dashboard/page.tsx:46-47 | The page starts loading with the grace timer armed and nothing checked. |
| `Home.DashboardPage.LoadingChanged` | app/dashboard/page.tsx:59-65 | A change of the session's `loading` re-arms the grace timer. |
| `Home.DashboardPage.AuthTimerFired` | app/dashboard/page.tsx:59-61 | An armed grace timer marks the check done, and the check stays done. |
| `Home.DashboardPage.LoadingTimerFired` | app/dashboard/page.tsx:72-78 | The page's own loading ends. |
| `Home.DashboardPage.RedirectEffect` | app/dashboard/page.tsx:50-56 | The login route is opened exactly when the session has loaded, there is no user and the check has fired. |
| `AddSkill.ParseDigitPath` | app/dashboard/add-skill/page.tsx:72 | A path made of a uid without '/' and a non-empty run of digits reads back into its parts. |
| `AddSkill.StoragePathRoundTrip` | app/dashboard/add-skill/page.tsx:72 | The upload path determines its owner, its upload time and its file name, whatever the file is called. |
| `AddSkill.Rejection` | app/dashboard/add-skill/page.tsx:87-104 | A submission goes ahead exactly when there is a user, a category and a skill name; every refusal is a failure toast. |
| `AddSkill.RecordFor` | app/dashboard/add-skill/page.tsx:115-124 | The record carries the user, category, name, description and URL as given; an empty experience becomes "Beginner"; the document name is null exactly when the file name is empty. |
| `AddSkill.FailedUploadStillNamesDocument` | app/dashboard/add-skill/page.tsx:108-124 | A failed upload still writes the record, with no URL but with the document name. |
| `AddSkill.AddSkillPage.constructor` | app/dashboard/add-skill/page.tsx:50-57 | Every entry empty, no file, not uploading or submitting, nothing written. |
| `AddSkill.AddSkillPage.HandleEntryChange` | app/dashboard/add-skill/page.tsx:174-223 | Only the named entry changes. |
| `AddSkill.AddSkillPage.HandleFileChange` | app/dashboard/add-skill/page.tsx:59-65 | The first chosen file becomes the document and its name the document name; an empty choice changes nothing. |
| `AddSkill.AddSkillPage.HandleFileUpload` | app/dashboard/add-skill/page.tsx:67-82 | Without a file or a user the result is null and nothing is attempted; otherwise the upload is attempted at the storage path, the result is the service's URL or null, and uploading ends. |
| `AddSkill.AddSkillPage.Commit` | app/dashboard/add-skill/page.tsx:126-149 | A successful write stores the record, resets the form and opens the portfolio route; a failed one reports the error and keeps the form. |
| `AddSkill.AddSkillPage.HandleSubmit` | app/dashboard/add-skill/page.tsx:84-153 | Without a user, or with a missing category or name, only the error toast changes. Otherwise the document is uploaded if chosen, the record is built from the form, it is saved or reported as failed, and submitting ends. Every saved record is well formed. |
| `Profile.WithField` | app/dashboard/profile/page.tsx:34-40 | An input change stores the value under its own field and keeps every other field and the join date. |
| `Profile.FieldsDetermineProfile` | app/dashboard/profile/page.tsx:16-25 | Two records agreeing on every input and the join date are equal. |
| `Profile.RetypingIsIdentity` | app/dashboard/profile/page.tsx:34-40 | Typing a field's current value back changes nothing. |
| `Profile.Heads` | app/dashboard/profile/page.tsx:89-92 | The initials take at most one character per piece, each the first character of a non-empty piece. |
| `Profile.HeadsConcat` | app/dashboard/profile/page.tsx:89-92 | The initials of concatenated piece lists concatenate. |
| `Profile.InitialsShape` | app/dashboard/profile/page.tsx:89-92 | The initials have no more characters than the name has pieces, and never a space. |
| `Profile.InitialsAppend` | app/dashboard/profile/page.tsx:89-92 | The initials of `first + " " + rest` are those of `first` followed by those of `rest`. |
| `Profile.InitialsOfWord` | app/dashboard/profile/page.tsx:89-92 | A single word's initial is its first character. |
| `Profile.InitialsOfFullName` | app/dashboard/profile/page.tsx:89-92 | A first and last name give their two first letters, with one space or two between them. |
| `Profile.ProfilePage.constructor` | app/dashboard/profile/page.tsx:28-31 | Saved record and draft are both the initial record; not editing. |
| `Profile.ProfilePage.StartEditing` | app/dashboard/profile/page.tsx:80 | Edit mode starts; the records are unchanged. |
| `Profile.ProfilePage.HandleInputChange` | app/dashboard/profile/page.tsx:34-40 | Only the named field of the draft changes; the saved record is untouched. |
| `Profile.ProfilePage.HandleSubmit` | app/dashboard/profile/page.tsx:42-51 | The draft becomes the saved record, edit mode ends, and the success toast shows. |
| `Profile.ProfilePage.HandleCancel` | app/dashboard/profile/page.tsx:53-56 | The draft is replaced by the saved record and edit mode ends. |

## Left out

- Rendering is left out: the markup, icons, dialogs' open flags on the skills
  page, the mobile menu, and tabs. Only the state that rendering reads is
  modelled, with predicates for the conditions it tests.
- Toasts are reduced to their title and whether they are a success or a
  failure. Descriptions that interpolate names are not modelled. This
  includes the "Email sent to ..." list of names, and the skills page's
  toasts and the layout's "Logged out" toast on sign-out
  (`components/dashboard-layout.tsx:52-55`), which carry no state and are
  not recorded.
- Asynchronous completions and timers are separate event methods, driven by
  the caller. Their durations (500 ms, 1 s, 1.5 s) are not modelled. Neither
  is the unused 1.5-second initial timer in `context/auth-context.tsx`, which
  only logs.
- The services called are not modelled: the authentication service, the
  document database, file storage, the router and browser storage. The model
  takes their results as parameters, and records routes, upload paths and
  written records as sequences.
- `Date.now()` and `URL.createObjectURL` are parameters. Their uniqueness is
  not modelled, so the lemmas that need a fresh id take it as a requirement.
- `Text.ToLowerCase`: lower-cases ASCII and Latin-1 letters only, because
  full Unicode case mapping is out of reach. It works on characters, not
  UTF-16 code units.
- `Text.ParseInt` (used by the years input): reads digits into an unbounded
  integer, with no rounding above 2^53, because floating point is not
  modelled. "Infinity" and exponent forms are not special-cased, just as
  `parseInt` reads them.
- `Text.Split`: characters stand for UTF-16 code units, so `n[0]` of an
  astral character is not modelled.
- `AddSkill.RecordFor`: the server timestamp field is not modelled, because
  the database assigns it.
- While a submission awaits its upload or write, the form's entries could
  change. This interleaving is not modelled, because each handler runs as
  one step. While a submission or upload runs, the page disables only its
  Cancel and Submit buttons; the document picker and every input stay live.
- The admin page's export action and its search-form submit handler are not
  modelled. Both only show a toast or do nothing, and change no state.
- The mock data of each page is not modelled: the example users, skills and
  profile, the dashboard statistics and the popular-skills chart. Each page
  is instead given its initial data.
- The login and signup pages are not part of this model, and neither are the
  profile document they create. The session model starts from whatever
  document the lookup returns.

Behaviour of the code worth noting, which the model follows as written:

- For an unverified email/password identity, `loading` is cleared at once
  (`context/auth-context.tsx:56`). The finally-block timer is armed as well.
- A lookup is applied even after a later identity change has signed the
  user out. No stale result is discarded; `Session.StaleLookupOverwritesSignOut`
  walks through this.
- Select-all compares only lengths, not the selected ids
  (`Directory.ToggleAllComparesLengthsOnly`).
- Toggling twice restores the exact selection only for an id that was not
  selected. For a selected id, every occurrence is dropped and one is
  appended.
- A failed document upload does not stop the record from being written.
- Adding a skill on the skills page does not check for an empty name.
- On success, the add-skill page opens `/dashboard/portfolio`, a route that
  none of the modelled pages defines.
