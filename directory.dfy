/**
 * The admin page: a roster of users searched by skill name, ranked by the
 * years of each user's first matching skill, a selection of user ids for a
 * bulk email, and the validation of that email.
 */
module Directory {
  import opened Base
  import opened Text
  import opened Lists

  datatype UserSkill = UserSkill(name: string, years: int)

  datatype User = User(id: int, name: string, email: string, department: string, skills: seq<UserSkill>)

  /** `skill.name.toLowerCase().includes(query)`, for a query that is already lower-cased. */
  predicate SkillMatches(skill: UserSkill, query: string) {
    Includes(ToLowerCase(skill.name), query)
  }

  /** `user.skills.some(...)`. */
  predicate HasMatchingSkill(user: User, query: string) {
    exists i :: 0 <= i < |user.skills| && SkillMatches(user.skills[i], query)
  }

  /** The position that `skills.findIndex(...)` reports: the first matching skill. */
  function FirstMatchIndex(skills: seq<UserSkill>, query: string): (r: Option<nat>)
    ensures r.Some? ==> r.value < |skills| && SkillMatches(skills[r.value], query)
    ensures r.Some? ==> forall j :: 0 <= j < r.value ==> !SkillMatches(skills[j], query)
    ensures r.None? ==> forall j :: 0 <= j < |skills| ==> !SkillMatches(skills[j], query)
  {
    if skills == [] then None
    else if SkillMatches(skills[0], query) then Some(0)
    else match FirstMatchIndex(skills[1..], query)
      case None => None
      case Some(k) => Some(k + 1)
  }

  /** `skills.find(...)`. */
  function FirstMatch(skills: seq<UserSkill>, query: string): Option<UserSkill> {
    match FirstMatchIndex(skills, query)
    case None => None
    case Some(k) => Some(skills[k])
  }

  /** The ranking key: the years of the first matching skill, 0 when there is none. */
  function MatchYears(user: User, query: string): int {
    match FirstMatch(user.skills, query)
    case None => 0
    case Some(s) => s.years
  }

  /** The skill a row highlights (345-347): none for an empty query, else the first skill matching it. */
  function MatchingSkill(user: User, searchQuery: string): (r: Option<UserSkill>)
    ensures searchQuery == [] ==> r == None
    ensures searchQuery != [] && r.Some? ==>
      exists k :: 0 <= k < |user.skills| && user.skills[k] == r.value
        && SkillMatches(user.skills[k], ToLowerCase(searchQuery))
        && forall j :: 0 <= j < k ==> !SkillMatches(user.skills[j], ToLowerCase(searchQuery))
    ensures searchQuery != [] && r.None? ==> !HasMatchingSkill(user, ToLowerCase(searchQuery))
  {
    if searchQuery == [] then None else FirstMatch(user.skills, ToLowerCase(searchQuery))
  }

  /** The skill a ranked row highlights is the one whose years ranked it. */
  lemma HighlightedSkillIsRanked(user: User, searchQuery: string)
    requires !IsBlank(searchQuery) && HasMatchingSkill(user, ToLowerCase(searchQuery))
    ensures MatchingSkill(user, searchQuery).Some?
    ensures MatchingSkill(user, searchQuery).value.years == MatchYears(user, ToLowerCase(searchQuery))
  {
    assert searchQuery != [];
  }

  /** The key the comparator (140-148) ranks by. */
  function RankKey(query: string): User -> int {
    (u: User) => MatchYears(u, query)
  }

  /** What the search effect (130-151) leaves in `filteredUsers`. */
  function SearchResult(users: seq<User>, searchQuery: string): seq<User> {
    if IsBlank(searchQuery) then users
    else
      var query := ToLowerCase(searchQuery);
      SortDesc(Filter(users, MatchesQuery(query)), RankKey(query))
  }

  function MatchesQuery(query: string): User -> bool {
    (u: User) => HasMatchingSkill(u, query)
  }

  /** A blank query shows the whole roster in its original order. */
  lemma BlankSearchShowsAll(users: seq<User>, searchQuery: string)
    requires Trim(searchQuery) == []
    ensures SearchResult(users, searchQuery) == users
  {
    TrimEmptyIffBlank(searchQuery);
  }

  /**
   * A non-blank query shows exactly the users with a skill whose lower-cased name
   * contains the lower-cased query, each as often as in the roster, ranked by
   * the years of the first such skill, ties in roster order.
   */
  lemma SearchRanksMatchingUsers(users: seq<User>, searchQuery: string)
    requires Trim(searchQuery) != []
    ensures var query := ToLowerCase(searchQuery);
      var r := SearchResult(users, searchQuery);
      && multiset(r) == multiset(Filter(users, MatchesQuery(query)))
      && (forall u :: u in r <==> u in users && HasMatchingSkill(u, query))
      && SortedDesc(r, RankKey(query))
      && (forall k :: Filter(r, KeyIs(RankKey(query), k)) == Filter(Filter(users, MatchesQuery(query)), KeyIs(RankKey(query), k)))
  {
    TrimEmptyIffBlank(searchQuery);
    var query := ToLowerCase(searchQuery);
    var filtered := Filter(users, MatchesQuery(query));
    var r := SearchResult(users, searchQuery);
    SortPermutes(filtered, RankKey(query));
    SortIsSorted(filtered, RankKey(query));
    forall k ensures Filter(r, KeyIs(RankKey(query), k)) == Filter(filtered, KeyIs(RankKey(query), k)) {
      SortIsStable(filtered, RankKey(query), k);
    }
    forall u ensures u in r <==> u in users && HasMatchingSkill(u, query) {
      assert u in r <==> u in multiset(filtered);
      FilterMembers(users, MatchesQuery(query), u);
    }
  }

  /**
   * The search is case-insensitive (136-137): two queries that differ at most
   * in the case of their letters show the same list.
   */
  lemma SearchIgnoresCase(users: seq<User>, q1: string, q2: string)
    requires |q1| == |q2| && forall i :: 0 <= i < |q1| ==> CaseVariant(q1[i], q2[i])
    ensures SearchResult(users, q1) == SearchResult(users, q2)
  {
    LowerCaseIgnoresCase(q1, q2);
    LowerCaseKeepsBlank(q1);
    LowerCaseKeepsBlank(q2);
  }

  // ---------------------------------------------------------------------
  // selection

  function UserIds(users: seq<User>): (r: seq<int>)
    ensures |r| == |users|
  {
    seq(|users|, i requires 0 <= i < |users| => users[i].id)
  }

  function IsNot(id: int): int -> bool {
    (x: int) => x != id
  }

  /** `toggleUserSelection`: drop the id if selected, else append it. */
  function Toggle(selected: seq<int>, id: int): seq<int> {
    if id in selected then Filter(selected, IsNot(id)) else selected + [id]
  }

  /** Toggling flips whether the id is selected and no other id. */
  lemma ToggleFlipsOne(selected: seq<int>, id: int)
    ensures id in Toggle(selected, id) <==> id !in selected
    ensures forall x :: x != id ==> (x in Toggle(selected, id) <==> x in selected)
  {
    FilterMembers(selected, IsNot(id), id);
    forall x | x != id ensures x in Toggle(selected, id) <==> x in selected {
      FilterMembers(selected, IsNot(id), x);
    }
  }

  /** Toggling an unselected id twice gives back the selection exactly. */
  lemma ToggleTwiceRestores(selected: seq<int>, id: int)
    requires id !in selected
    ensures Toggle(Toggle(selected, id), id) == selected
  {
    FilterConcat(selected, [id], IsNot(id));
    FilterKeepsAll(selected, IsNot(id));
    assert Filter([id], IsNot(id)) == [];
  }

  /** Toggling any id twice gives back the same set of selected ids. */
  lemma ToggleTwiceSameMembers(selected: seq<int>, id: int)
    ensures forall x :: x in Toggle(Toggle(selected, id), id) <==> x in selected
  {
    ToggleFlipsOne(selected, id);
    ToggleFlipsOne(Toggle(selected, id), id);
  }

  /** `toggleAllUsers`: clear when the selection is as long as the list, else select the listed ids. */
  function ToggleAll(selected: seq<int>, filtered: seq<User>): seq<int> {
    if |selected| == |filtered| then [] else UserIds(filtered)
  }

  /** From a selection shorter or longer than the list, toggling all twice ends with nothing selected. */
  lemma ToggleAllTwiceClears(selected: seq<int>, filtered: seq<User>)
    requires |selected| != |filtered|
    ensures ToggleAll(selected, filtered) == UserIds(filtered)
    ensures ToggleAll(ToggleAll(selected, filtered), filtered) == []
  {
  }

  /**
   * The select-all decision looks at lengths only: a selection left over from
   * another query, as long as the list, is cleared although no listed user is
   * selected, and the header checkbox shows ticked for it.
   */
  lemma ToggleAllComparesLengthsOnly(listed: User, stale: int)
    requires stale != listed.id
    ensures ToggleAll([stale], [listed]) == []
    ensures listed.id !in [stale]
  {
  }

  /** With an empty list and nothing selected, toggling all changes nothing. */
  lemma ToggleAllOnEmpty()
    ensures ToggleAll([], []) == []
  {
  }

  // ---------------------------------------------------------------------
  // bulk email

  datatype SendOutcome = NoUsersSelected | MissingInformation | Sent(recipients: seq<User>)

  function IsSelected(selected: seq<int>): User -> bool {
    (u: User) => u.id in selected
  }

  /** `handleSendEmail`'s checks, in order, and on success the selected users in roster order. */
  function ValidateSend(users: seq<User>, selected: seq<int>, subject: string, body: string): (r: SendOutcome)
    ensures r.NoUsersSelected? <==> selected == []
    ensures r.MissingInformation? <==> selected != [] && (IsBlank(subject) || IsBlank(body))
    ensures r.Sent? ==> r.recipients == Filter(users, IsSelected(selected))
  {
    if |selected| == 0 then NoUsersSelected
    else if IsBlank(subject) || IsBlank(body) then MissingInformation
    else Sent(Filter(users, IsSelected(selected)))
  }

  /** In the source's own terms: the email is refused for missing information exactly when a trimmed subject or body is empty. */
  lemma MissingInformationIffTrimmedEmpty(users: seq<User>, selected: seq<int>, subject: string, body: string)
    ensures ValidateSend(users, selected, subject, body).MissingInformation? <==>
      selected != [] && (Trim(subject) == [] || Trim(body) == [])
  {
    TrimEmptyIffBlank(subject);
    TrimEmptyIffBlank(body);
  }

  /** The toast each outcome raises. */
  function SendNotice(outcome: SendOutcome): (n: Notice)
    ensures n.Success? <==> outcome.Sent?
  {
    match outcome
    case NoUsersSelected => Failure("No users selected")
    case MissingInformation => Failure("Missing information")
    case Sent(_) => Success("Email sent")
  }

  /** The recipients of a sent email are exactly the roster users whose id is selected. */
  lemma RecipientsAreSelected(users: seq<User>, selected: seq<int>, subject: string, body: string)
    requires ValidateSend(users, selected, subject, body).Sent?
    ensures forall u :: u in ValidateSend(users, selected, subject, body).recipients <==> u in users && u.id in selected
  {
    forall u ensures u in Filter(users, IsSelected(selected)) <==> u in users && u.id in selected {
      FilterMembers(users, IsSelected(selected), u);
    }
  }

  /** The filtered copy of the roster, sorted in place by matching-skill years (137-148). */
  method RankMatches(users: seq<User>, query: string) returns (ranked: seq<User>)
    ensures ranked == SortDesc(Filter(users, MatchesQuery(query)), RankKey(query))
  {
    var filtered := Filter(users, MatchesQuery(query));
    var a := new User[|filtered|](i requires 0 <= i < |filtered| => filtered[i]);
    assert a[..] == filtered;
    SortInPlace(a, RankKey(query));
    ranked := a[..];
  }

  // ---------------------------------------------------------------------
  // the page

  class AdminPage {
    var users: seq<User>
    var filteredUsers: seq<User>
    var searchQuery: string
    var selectedUsers: seq<int>
    var isEmailDialogOpen: bool
    var emailSubject: string
    var emailBody: string
    var isLoading: bool
    /** The role read from local storage when the page mounted. */
    var userRole: Option<string>
    /** The data-loading timer, armed only for an admin. */
    var loadTimerArmed: bool
    var notice: Option<Notice>

    constructor ()
      ensures users == [] && filteredUsers == [] && searchQuery == [] && selectedUsers == []
      ensures !isEmailDialogOpen && emailSubject == [] && emailBody == []
      ensures isLoading && userRole == None && !loadTimerArmed && notice == None
    {
      users, filteredUsers, searchQuery, selectedUsers := [], [], [], [];
      isEmailDialogOpen, emailSubject, emailBody := false, [], [];
      isLoading, userRole, loadTimerArmed, notice := true, None, false, None;
    }

    /** The access-denied view is shown to every role but "admin". */
    predicate ShowsAccessDenied()
      reads this
    {
      userRole != Some("admin")
    }

    /** The "Select All" checkbox is ticked when the selection is as long as a non-empty list. */
    predicate AllSelectedShown()
      reads this
    {
      |selectedUsers| == |filteredUsers| && |filteredUsers| > 0
    }

    /** The mount effect (106-128): a non-admin role is refused; an admin's data-loading timer is armed (re-running it clears the old timer). */
    method MountEffect(storedRole: Option<string>)
      modifies this
      ensures userRole == storedRole
      ensures loadTimerArmed == (storedRole == Some("admin"))
      ensures notice == if storedRole == Some("admin") then old(notice) else Some(Failure("Access denied"))
      ensures users == old(users) && filteredUsers == old(filteredUsers) && isLoading == old(isLoading)
      ensures searchQuery == old(searchQuery) && selectedUsers == old(selectedUsers)
      ensures isEmailDialogOpen == old(isEmailDialogOpen) && emailSubject == old(emailSubject) && emailBody == old(emailBody)
    {
      userRole := storedRole;
      if storedRole != Some("admin") {
        loadTimerArmed := false;
        notice := Some(Failure("Access denied"));
        return;
      }
      loadTimerArmed := true;
    }

    /** The data-loading timer fires: the roster arrives, and the search effect runs because `users` changed. */
    method LoadTimerFired(roster: seq<User>)
      modifies this
      ensures old(loadTimerArmed) ==>
        && users == roster && !isLoading && !loadTimerArmed
        && filteredUsers == SearchResult(roster, searchQuery)
      ensures !old(loadTimerArmed) ==>
        users == old(users) && filteredUsers == old(filteredUsers) && isLoading == old(isLoading) && !loadTimerArmed
      ensures searchQuery == old(searchQuery) && selectedUsers == old(selectedUsers) && userRole == old(userRole)
      ensures isEmailDialogOpen == old(isEmailDialogOpen) && emailSubject == old(emailSubject) && emailBody == old(emailBody)
      ensures notice == old(notice)
    {
      if !loadTimerArmed {
        return;
      }
      users := roster;
      filteredUsers := roster;
      isLoading := false;
      loadTimerArmed := false;
      SearchEffect();
    }

    /** The search box changes, and the search effect runs because `searchQuery` changed. */
    method SetSearchQuery(value: string)
      modifies this
      ensures searchQuery == value && filteredUsers == SearchResult(users, value)
      ensures users == old(users) && selectedUsers == old(selectedUsers) && isLoading == old(isLoading)
      ensures isEmailDialogOpen == old(isEmailDialogOpen) && emailSubject == old(emailSubject) && emailBody == old(emailBody)
      ensures userRole == old(userRole) && loadTimerArmed == old(loadTimerArmed) && notice == old(notice)
    {
      searchQuery := value;
      SearchEffect();
    }

    /** The search effect (130-151): filter a fresh array, sort it in place, publish it. */
    method SearchEffect()
      modifies this
      ensures filteredUsers == SearchResult(users, searchQuery)
      ensures users == old(users) && searchQuery == old(searchQuery) && selectedUsers == old(selectedUsers)
      ensures isLoading == old(isLoading) && isEmailDialogOpen == old(isEmailDialogOpen)
      ensures emailSubject == old(emailSubject) && emailBody == old(emailBody)
      ensures userRole == old(userRole) && loadTimerArmed == old(loadTimerArmed) && notice == old(notice)
    {
      if IsBlank(searchQuery) {
        filteredUsers := users;
        return;
      }
      var query := ToLowerCase(searchQuery);
      filteredUsers := RankMatches(users, query);
    }

    method ToggleUserSelection(id: int)
      modifies this
      ensures selectedUsers == Toggle(old(selectedUsers), id)
      ensures users == old(users) && filteredUsers == old(filteredUsers) && searchQuery == old(searchQuery)
      ensures isEmailDialogOpen == old(isEmailDialogOpen) && emailSubject == old(emailSubject) && emailBody == old(emailBody)
      ensures isLoading == old(isLoading) && userRole == old(userRole) && loadTimerArmed == old(loadTimerArmed)
      ensures notice == old(notice)
    {
      selectedUsers := Toggle(selectedUsers, id);
    }

    method ToggleAllUsers()
      modifies this
      ensures selectedUsers == ToggleAll(old(selectedUsers), filteredUsers)
      ensures users == old(users) && filteredUsers == old(filteredUsers) && searchQuery == old(searchQuery)
      ensures isEmailDialogOpen == old(isEmailDialogOpen) && emailSubject == old(emailSubject) && emailBody == old(emailBody)
      ensures isLoading == old(isLoading) && userRole == old(userRole) && loadTimerArmed == old(loadTimerArmed)
      ensures notice == old(notice)
    {
      selectedUsers := ToggleAll(selectedUsers, filteredUsers);
    }

    method SetEmailDialogOpen(open: bool)
      modifies this
      ensures isEmailDialogOpen == open
      ensures users == old(users) && filteredUsers == old(filteredUsers) && searchQuery == old(searchQuery)
      ensures selectedUsers == old(selectedUsers) && emailSubject == old(emailSubject) && emailBody == old(emailBody)
      ensures isLoading == old(isLoading) && userRole == old(userRole) && loadTimerArmed == old(loadTimerArmed)
      ensures notice == old(notice)
    {
      isEmailDialogOpen := open;
    }

    method SetEmailSubject(value: string)
      modifies this
      ensures emailSubject == value
      ensures users == old(users) && filteredUsers == old(filteredUsers) && searchQuery == old(searchQuery)
      ensures selectedUsers == old(selectedUsers) && isEmailDialogOpen == old(isEmailDialogOpen) && emailBody == old(emailBody)
      ensures isLoading == old(isLoading) && userRole == old(userRole) && loadTimerArmed == old(loadTimerArmed)
      ensures notice == old(notice)
    {
      emailSubject := value;
    }

    method SetEmailBody(value: string)
      modifies this
      ensures emailBody == value
      ensures users == old(users) && filteredUsers == old(filteredUsers) && searchQuery == old(searchQuery)
      ensures selectedUsers == old(selectedUsers) && isEmailDialogOpen == old(isEmailDialogOpen) && emailSubject == old(emailSubject)
      ensures isLoading == old(isLoading) && userRole == old(userRole) && loadTimerArmed == old(loadTimerArmed)
      ensures notice == old(notice)
    {
      emailBody := value;
    }

    /**
     * handleSendEmail: a refused send reports its error and changes nothing else;
     * a send reports the recipients, clears subject and body and closes the dialog.
     */
    method HandleSendEmail() returns (outcome: SendOutcome)
      modifies this
      ensures outcome == ValidateSend(users, selectedUsers, old(emailSubject), old(emailBody))
      ensures notice == Some(SendNotice(outcome))
      ensures !outcome.Sent? ==>
        emailSubject == old(emailSubject) && emailBody == old(emailBody) && isEmailDialogOpen == old(isEmailDialogOpen)
      ensures outcome.Sent? ==> emailSubject == [] && emailBody == [] && !isEmailDialogOpen
      ensures users == old(users) && filteredUsers == old(filteredUsers) && searchQuery == old(searchQuery)
      ensures selectedUsers == old(selectedUsers)
      ensures isLoading == old(isLoading) && userRole == old(userRole) && loadTimerArmed == old(loadTimerArmed)
    {
      outcome := ValidateSend(users, selectedUsers, emailSubject, emailBody);
      notice := Some(SendNotice(outcome));
      if outcome.Sent? {
        isEmailDialogOpen := false;
        emailSubject := [];
        emailBody := [];
      }
    }
  }
}
