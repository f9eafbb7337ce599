/**
  The membership handlers of the tool: loading the team's member listing into
  classified accounts, and the `list`, `emails`, `verify` and `revoke` commands.
  The member listing is an input (the tool fetches it once per team and caches it),
  and each DELETE request is answered by an oracle `respond`.
 */
module MemberHandlers {
  import opened Wrappers
  import opened Strings
  import opened AccountPolicy

  /** Any address in this domain counts as a member, so that revoking can be tried safely. */
  const TestDomain: string := "@example.com"

  /** A `role` value as the listing carries it: a string or a JSON null. */
  datatype ListedRole = RoleString(name: string) | RoleNull

  /** The `Role` the field copy stores for a listed value. */
  function RoleOf(listed: ListedRole): Role
  {
    match listed
    case RoleString(n) => Named(n)
    case RoleNull => Null
  }

  /**
    One record of the member listing, reduced to the keys that name an `Account` field;
    `None` is a key the record does not carry. Other keys are never copied.
   */
  datatype MemberRecord = MemberRecord(
    email: Option<string>,
    federated: Option<bool>,
    role: Option<ListedRole>,
    twoFactorAuthentication: Option<bool>,
    accountType: Option<string>,
    accountStatus: Option<string>,
    needsAction: Option<bool>)

  /**
    A record that carries an `account_type` or `account_status` key overwrites a field
    that `classify` requires to be UNSET, so loading it fails.
   */
  predicate SetsComputedField(rec: MemberRecord)
  {
    rec.accountType.Some? || rec.accountStatus.Some?
  }

  /** The value an optional key carries, or `default` when the record lacks it. */
  function GetOr<T>(o: Option<T>, default: T): T
  {
    match o
    case Some(v) => v
    case None => default
  }

  /** A fresh `Account` after the listing's matching keys are copied into it. */
  function Copied(rec: MemberRecord): (v: AccountView)
    requires !SetsComputedField(rec)
    ensures rec.email.Some? ==> v.email == rec.email.value
    ensures rec.email.None? ==> v.email == ""
    ensures v.federated == GetOr(rec.federated, false)
    ensures v.twoFactorAuthentication == GetOr(rec.twoFactorAuthentication, false)
    ensures rec.role == Some(RoleNull) ==> v.role == Null
    ensures forall n :: rec.role == Some(RoleString(n)) ==> v.role == Named(n)
    ensures v.role == TypeDefault <==> rec.role.None?
    ensures v.accountType == AccountType.Unset && v.accountStatus == AccountStatus.Unset
  {
    var role := match rec.role case Some(listed) => RoleOf(listed) case None => TypeDefault;
    AccountView(GetOr(rec.email, ""), GetOr(rec.federated, false), role,
                GetOr(rec.twoFactorAuthentication, false), AccountType.Unset, AccountStatus.Unset,
                GetOr(rec.needsAction, true))
  }

  /** The account that loading one record produces: copied, then classified. */
  function Loaded(rec: MemberRecord): AccountView
    requires !SetsComputedField(rec)
  {
    Classified(Copied(rec))
  }

  /** A listed `needs_action` key has no effect: `classify` recomputes the flag. */
  lemma LoadedIgnoresNeedsActionKey(rec: MemberRecord, flag: Option<bool>)
    requires !SetsComputedField(rec)
    ensures Loaded(rec.(needsAction := flag)) == Loaded(rec)
  {
  }

  /** The body of `all_members`' loop for one record: build, copy the matching keys, classify. */
  method LoadRecord(rec: MemberRecord) returns (acnt: Account)
    requires !SetsComputedField(rec)
    ensures fresh(acnt)
    ensures acnt.View() == Loaded(rec)
  {
    acnt := new Account();
    if rec.email.Some? { acnt.email := rec.email.value; }
    if rec.federated.Some? { acnt.federated := rec.federated.value; }
    if rec.role.Some? { acnt.role := RoleOf(rec.role.value); }
    if rec.twoFactorAuthentication.Some? { acnt.twoFactorAuthentication := rec.twoFactorAuthentication.value; }
    if rec.needsAction.Some? { acnt.needsAction := rec.needsAction.value; }
    assert acnt.View() == Copied(rec);
    acnt.Classify();
  }

  /** Why loading the listing stopped: `classify`'s entry assertion failed on this record. */
  datatype LoadError = ClassifyPreconditionFailed(index: nat)

  /** `all_members`: one classified account per listed record, in listing order. */
  method AllMembers(data: seq<MemberRecord>) returns (r: Result<seq<Account>, LoadError>)
    ensures r.Failure? ==>
      && r.error.index < |data| && SetsComputedField(data[r.error.index])
      && forall i :: 0 <= i < r.error.index ==> !SetsComputedField(data[i])
    ensures r.Success? ==>
      && (forall i :: 0 <= i < |data| ==> !SetsComputedField(data[i]))
      && |r.value| == |data|
      && (forall i :: 0 <= i < |data| ==> fresh(r.value[i]) && r.value[i].View() == Loaded(data[i]))
      && (forall i, j :: 0 <= i < j < |data| ==> r.value[i] != r.value[j])
  {
    var accounts: seq<Account> := [];
    for n := 0 to |data|
      invariant |accounts| == n
      invariant forall i :: 0 <= i < n ==> !SetsComputedField(data[i])
      invariant forall i :: 0 <= i < n ==> fresh(accounts[i]) && accounts[i].View() == Loaded(data[i])
      invariant forall i, j :: 0 <= i < j < n ==> accounts[i] != accounts[j]
    {
      if SetsComputedField(data[n]) {
        return Failure(ClassifyPreconditionFailed(n));
      }
      var acnt := LoadRecord(data[n]);
      accounts := accounts + [acnt];
    }
    r := Success(accounts);
  }

  /** `member_emails`: every member's address, in listing order. */
  function MemberEmails(members: seq<Account>): (r: seq<string>)
    reads members
    ensures |r| == |members|
    ensures forall i :: 0 <= i < |members| ==> r[i] == members[i].email
  {
    if members == [] then [] else [members[0].email] + MemberEmails(members[1..])
  }

  /** `is_member`: any test-domain address, otherwise an address some member has. */
  function IsMember(email: string, members: seq<Account>): (r: bool)
    reads members
    ensures r <==> EndsWith(email, TestDomain) || exists i :: 0 <= i < |members| && members[i].email == email
  {
    if EndsWith(email, TestDomain) then true
    else
      var emails := MemberEmails(members);
      assert forall i :: 0 <= i < |members| ==> emails[i] == members[i].email;
      email in emails
  }

  /** Any address in the test domain is reported as a member, whatever the listing holds. */
  lemma TestDomainIsMember(local: string, members: seq<Account>)
    ensures IsMember(local + TestDomain, members)
  {
    assert (local + TestDomain)[|local + TestDomain| - |TestDomain|..] == TestDomain;
  }

  /** The accounts `list` shows, in listing order: those needing action, or all of them. */
  function Selected(accounts: seq<Account>, all: bool): seq<Account>
    reads accounts
  {
    if accounts == [] then []
    else
      var last := accounts[|accounts| - 1];
      Selected(accounts[..|accounts| - 1], all) + (if last.needsAction || all then [last] else [])
  }

  /** `member_list`: filter the loaded accounts on `needs_action or all`. */
  method MemberList(everyone: seq<Account>, all: bool) returns (result: seq<Account>)
    ensures result == Selected(everyone, all)
  {
    result := [];
    for n := 0 to |everyone|
      invariant result == Selected(everyone[..n], all)
    {
      var acnt := everyone[n];
      assert everyone[..n + 1][..n] == everyone[..n];
      if acnt.needsAction || all {
        result := result + [acnt];
      }
    }
    assert everyone[..|everyone|] == everyone;
  }

  /** An account is listed exactly when it is one of the accounts and needs action (or `all` is set). */
  lemma {:induction false} SelectedMembers(accounts: seq<Account>, all: bool, a: Account)
    ensures a in Selected(accounts, all) <==> a in accounts && (a.needsAction || all)
  {
    if accounts != [] {
      var prefix := accounts[..|accounts| - 1];
      SelectedMembers(prefix, all, a);
      assert accounts == prefix + [accounts[|accounts| - 1]];
    }
  }

  /** With `all`, every account is listed, in listing order. */
  lemma {:induction false} SelectedAll(accounts: seq<Account>)
    ensures Selected(accounts, true) == accounts
  {
    if accounts != [] {
      SelectedAll(accounts[..|accounts| - 1]);
    }
  }

  /** Listing keeps the order of the accounts: the selection of a concatenation is the concatenation of the selections. */
  lemma {:induction false} SelectedAppend(xs: seq<Account>, ys: seq<Account>, all: bool)
    ensures Selected(xs + ys, all) == Selected(xs, all) + Selected(ys, all)
  {
    if ys == [] {
      assert xs + ys == xs;
    } else {
      var init := ys[..|ys| - 1];
      SelectedAppend(xs, init, all);
      assert (xs + ys)[..|xs + ys| - 1] == xs + init;
    }
  }

  /** The line `verify` prints for one address. */
  function VerifyLine(addr: string, team: string, member: bool): string
  {
    if member then addr + " is a member of " + team else addr + " is NOT a member of " + team
  }

  /** `membership_verify`: one line per supplied address, in the order supplied. */
  method MembershipVerify(emails: seq<string>, team: string, members: seq<Account>) returns (status: seq<string>)
    ensures |status| == |emails|
    ensures forall i :: 0 <= i < |emails| ==> status[i] == VerifyLine(emails[i], team, IsMember(emails[i], members))
  {
    status := [];
    for n := 0 to |emails|
      invariant |status| == n
      invariant forall i :: 0 <= i < n ==> status[i] == VerifyLine(emails[i], team, IsMember(emails[i], members))
    {
      var addr := emails[n];
      if IsMember(addr, members) {
        status := status + [addr + " is a member of " + team];
      } else {
        status := status + [addr + " is NOT a member of " + team];
      }
    }
  }

  /** What one DELETE request comes back with. */
  datatype DeleteResponse =
    | Decoded(payload: string)   // a response whose JSON body decoded (the body is kept opaque)
    | HttpError(code: int)       // an HTTP error status
    | OtherFailure               // any other failure: no connection, a body that is not JSON

  /** One entry of `revoke`'s result: a status line, or the decoded body of a successful DELETE. */
  datatype StatusEntry = Line(text: string) | Payload(payload: string)

  /** The line for an address the server reports as absent (HTTP 404). */
  function NotMemberLine(addr: string, team: string): string
  {
    addr + " is not a member of " + team + " (404)"
  }

  /**
    `do_revoke`: the outcome of the DELETE request for `addr`; `None` when the call
    raises, which is every failure except a 404.
   */
  function DoRevoke(addr: string, team: string, response: DeleteResponse): (r: Option<StatusEntry>)
    ensures r.None? <==> response.OtherFailure? || (response.HttpError? && response.code != 404)
    ensures response.Decoded? ==> r == Some(Payload(response.payload))
    ensures response.HttpError? && response.code == 404 ==> r == Some(Line(NotMemberLine(addr, team)))
  {
    match response
    case Decoded(body) => Some(Payload(body))
    case HttpError(code) => if code == 404 then Some(Line(NotMemberLine(addr, team))) else None
    case OtherFailure => None
  }

  /** `revoke`: refuse a non-member without a request, otherwise issue the DELETE. */
  function Revoke(email: string, team: string, members: seq<Account>, response: DeleteResponse): (r: Option<StatusEntry>)
    reads members
    ensures !IsMember(email, members) ==> r == Some(Line(RevokeFailLine(email, team)))
    ensures IsMember(email, members) ==> r == DoRevoke(email, team, response)
  {
    if !IsMember(email, members) then Some(Line(RevokeFailLine(email, team)))
    else DoRevoke(email, team, response)
  }

  /** The entry `membership_revoke` records for one address. */
  function RevokeStatus(addr: string, team: string, members: seq<Account>, response: DeleteResponse): (r: StatusEntry)
    reads members
    ensures !IsMember(addr, members) ==> r == Line(addr + " was NOT a member of " + team)
    ensures r.Payload? <==> IsMember(addr, members) && response.Decoded?
  {
    if IsMember(addr, members) then
      match Revoke(addr, team, members, response)
      case Some(entry) => entry
      case None => Line(addr + " failed membership revocation from " + team)
    else Line(addr + " was NOT a member of " + team)
  }

  /** The addresses `membership_revoke` sends a DELETE for: the members among them, in order. */
  function MembersAmong(emails: seq<string>, members: seq<Account>): seq<string>
    reads members
  {
    if emails == [] then []
    else
      var last := emails[|emails| - 1];
      MembersAmong(emails[..|emails| - 1], members) + (if IsMember(last, members) then [last] else [])
  }

  /**
    `membership_revoke`: one entry per supplied address, in the order supplied; a DELETE
    is sent for members only; a failure on one address is recorded and the rest go on.
   */
  method MembershipRevoke(emails: seq<string>, team: string, members: seq<Account>,
                          respond: string -> DeleteResponse)
    returns (status: seq<StatusEntry>, ghost requested: seq<string>)
    ensures |status| == |emails|
    ensures forall i :: 0 <= i < |emails| ==> status[i] == RevokeStatus(emails[i], team, members, respond(emails[i]))
    ensures forall i :: 0 <= i < |emails| ==> status[i] != Line(RevokeFailLine(emails[i], team))
    ensures requested == MembersAmong(emails, members)
  {
    status := [];
    requested := [];
    for n := 0 to |emails|
      invariant |status| == n
      invariant forall i :: 0 <= i < n ==> status[i] == RevokeStatus(emails[i], team, members, respond(emails[i]))
      invariant requested == MembersAmong(emails[..n], members)
    {
      var addr := emails[n];
      assert emails[..n + 1][..n] == emails[..n];
      if IsMember(addr, members) {
        requested := requested + [addr];
        var outcome := Revoke(addr, team, members, respond(addr));
        match outcome {
          case Some(entry) =>
            status := status + [entry];
          case None =>
            status := status + [Line(addr + " failed membership revocation from " + team)];
        }
      } else {
        status := status + [Line(addr + " was NOT a member of " + team)];
      }
    }
    assert emails[..|emails|] == emails;
    forall i | 0 <= i < |emails| {
      NoRevokeFailLine(emails[i], team, members, respond(emails[i]));
    }
  }

  /**
    `revoke` on a non-member sends no request: its outcome, a "FAIL: ..." line, is the same
    whatever the server would have answered.
   */
  lemma RevokeOfNonMember(email: string, team: string, members: seq<Account>, r1: DeleteResponse, r2: DeleteResponse)
    requires !IsMember(email, members)
    ensures Revoke(email, team, members, r1) == Revoke(email, team, members, r2)
    ensures Revoke(email, team, members, r1) == Some(Line(RevokeFailLine(email, team)))
  {
  }

  /** `revoke`'s refusal of a non-member. */
  function RevokeFailLine(addr: string, team: string): string
  {
    "FAIL: " + addr + " is not a member of " + team
  }

  /**
    Inside `membership_revoke`, `revoke`'s own "FAIL: ... is not a member" line never appears:
    a non-member is answered before `revoke` is called, and no other entry has that text.
   */
  lemma NoRevokeFailLine(addr: string, team: string, members: seq<Account>, response: DeleteResponse)
    ensures RevokeStatus(addr, team, members, response) != Line(RevokeFailLine(addr, team))
  {
    RevokeStatusCases(addr, team, members, response);
    FailLineIsDistinct(addr, team);
  }

  /** `revoke`'s refusal differs from every line `membership_revoke` itself writes. */
  lemma FailLineIsDistinct(addr: string, team: string)
    ensures RevokeFailLine(addr, team) != NotMemberLine(addr, team)
    ensures RevokeFailLine(addr, team) != addr + " was NOT a member of " + team
    ensures RevokeFailLine(addr, team) != addr + " failed membership revocation from " + team
  {
    ParenthesesDiffer(addr, team);
  }

  /** The number of times `c` occurs in `s`. */
  function Occurrences(s: string, c: char): nat
  {
    if s == [] then 0 else Occurrences(s[..|s| - 1], c) + (if s[|s| - 1] == c then 1 else 0)
  }

  lemma {:induction false} OccurrencesAppend(s: string, t: string, c: char)
    ensures Occurrences(s + t, c) == Occurrences(s, c) + Occurrences(t, c)
  {
    if t == [] {
      assert s + t == s;
    } else {
      OccurrencesAppend(s, t[..|t| - 1], c);
      assert (s + t)[..|s + t| - 1] == s + t[..|t| - 1];
    }
  }

  lemma {:induction false} OccurrencesNone(s: string, c: char)
    requires forall i :: 0 <= i < |s| ==> s[i] != c
    ensures Occurrences(s, c) == 0
  {
    if s != [] {
      OccurrencesNone(s[..|s| - 1], c);
    }
  }

  /** The refusal has one opening parenthesis fewer than the 404 line, so the two differ. */
  lemma ParenthesesDiffer(addr: string, team: string)
    ensures Occurrences(NotMemberLine(addr, team), '(') == Occurrences(RevokeFailLine(addr, team), '(') + 1
  {
    var m := " is not a member of ";
    var y := addr + m + team;
    OccurrencesNone("FAIL: ", '(');
    OccurrencesNone(" ", '(');
    OccurrencesNone("404)", '(');
    assert "("[..0] == [];
    OccurrencesAppend(" ", "(", '(');
    OccurrencesAppend(" (", "404)", '(');
    assert " (" + "404)" == " (404)";
    assert RevokeFailLine(addr, team) == "FAIL: " + y;
    assert NotMemberLine(addr, team) == y + " (404)";
    OccurrencesAppend("FAIL: ", y, '(');
    OccurrencesAppend(y, " (404)", '(');
  }

  /** The entry for each address, by case: not a member, removed, absent on the server, or failed. */
  lemma RevokeStatusCases(addr: string, team: string, members: seq<Account>, response: DeleteResponse)
    ensures !IsMember(addr, members) ==>
      RevokeStatus(addr, team, members, response) == Line(addr + " was NOT a member of " + team)
    ensures IsMember(addr, members) && response.Decoded? ==>
      RevokeStatus(addr, team, members, response) == Payload(response.payload)
    ensures IsMember(addr, members) && response == HttpError(404) ==>
      RevokeStatus(addr, team, members, response) == Line(NotMemberLine(addr, team))
    ensures IsMember(addr, members) && (response.OtherFailure? || (response.HttpError? && response.code != 404)) ==>
      RevokeStatus(addr, team, members, response) == Line(addr + " failed membership revocation from " + team)
  {
  }

  /** A DELETE is sent for an address exactly when it is one of the supplied addresses and a member. */
  lemma {:induction false} MembersAmongExactly(emails: seq<string>, members: seq<Account>, addr: string)
    ensures addr in MembersAmong(emails, members) <==> addr in emails && IsMember(addr, members)
  {
    if emails != [] {
      var prefix := emails[..|emails| - 1];
      MembersAmongExactly(prefix, members, addr);
      assert emails == prefix + [emails[|emails| - 1]];
    }
  }

  /** An address outside the test domain that no member has gets "was NOT a member" and no request. */
  lemma NonMemberScenario(members: seq<Account>, team: string, response: DeleteResponse)
    requires forall i :: 0 <= i < |members| ==> members[i].email != "ghost@nowhere.test"
    ensures RevokeStatus("ghost@nowhere.test", team, members, response)
            == Line("ghost@nowhere.test" + " was NOT a member of " + team)
    ensures MembersAmong(["ghost@nowhere.test"], members) == []
  {
    var addr := "ghost@nowhere.test";
    var tail := addr[|addr| - |TestDomain|..];
    assert tail[|tail| - 1] == 't' != TestDomain[|TestDomain| - 1];
    assert !EndsWith(addr, TestDomain);
    assert !IsMember(addr, members);
    var single: seq<string> := [addr];
    assert single[..0] == [];
  }
}
