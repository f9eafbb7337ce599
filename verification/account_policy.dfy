/**
  The account policy of the Heroku team-management tool: how one team member is
  classified in Mozilla's terms (staff, service, community or unknown account),
  whether its authentication setup follows the rules, whether an administrator
  needs to act on it, and the one-line text the tool prints for it.
 */
module AccountPolicy {
  import opened Strings

  /** How Mozilla classifies members and accounts (`Account_Type`). */
  datatype AccountType = Unset | Staff | Service | Community | Unknown

  /** Whether the account follows the rules (`Account_Status`). */
  datatype AccountStatus = Unset | Okay | Bad | Unknown

  /** The enum member name Python prints for `account_type.name`. */
  function TypeName(t: AccountType): string
  {
    match t
    case Unset => "UNSET"
    case Staff => "STAFF"
    case Service => "SERVICE"
    case Community => "COMMUNITY"
    case Unknown => "UNKNOWN"
  }

  /** The enum member name Python prints for `account_status.name`. */
  function StatusName(s: AccountStatus): string
  {
    match s
    case Unset => "UNSET"
    case Okay => "OKAY"
    case Bad => "BAD"
    case Unknown => "UNKNOWN"
  }

  /** The organisation's e-mail domains (`Staff_Email_Domains`), each with its leading `@`. */
  const StaffEmailDomains: seq<string> := [
    "@mozilla.com",
    "@mozillafoundation.org",
    "@getpocket.com",
    "@readitlater.com",
    "@mozilla-japan.org",
    "@mozilla.ai",
    "@mozilla.vc",
    "@thunderbird.net"
  ]

  /** The naming convention that marks a service account. */
  const ServicePrefix: string := "heroku-"

  predicate IsStaffEmail(email: string)
  {
    EndsWithAny(email, StaffEmailDomains)
  }

  predicate IsServiceName(email: string)
  {
    StartsWith(email, ServicePrefix)
  }

  /** Step one of `classify`: the account type follows from the e-mail address alone. */
  function TypeRule(email: string): (t: AccountType)
    ensures t != AccountType.Unset
    ensures t == AccountType.Staff || t == AccountType.Service <==> IsStaffEmail(email)
    ensures t == AccountType.Service || t == AccountType.Unknown <==> IsServiceName(email)
  {
    if IsStaffEmail(email) then
      if IsServiceName(email) then AccountType.Service else AccountType.Staff
    else
      if IsServiceName(email) then AccountType.Unknown else AccountType.Community
  }

  /**
    Step two of `classify`, first matching rule wins: staff must use SSO, community
    members must use 2FA, service accounts must not use SSO and 2FA together.
    (The source's further test of a status already UNKNOWN cannot fire, because the
    status is UNSET on entry; `Account.Classify` keeps that branch.)
   */
  function StatusRule(t: AccountType, federated: bool, twoFactor: bool): (s: AccountStatus)
    ensures s == AccountStatus.Okay || s == AccountStatus.Bad
    ensures t == AccountType.Unknown || t == AccountType.Unset ==> s == AccountStatus.Bad
    ensures federated && twoFactor ==> (s == AccountStatus.Okay <==> t == AccountType.Staff || t == AccountType.Community)
  {
    if federated && t == AccountType.Staff then AccountStatus.Okay
    else if twoFactor && t == AccountType.Community then AccountStatus.Okay
    else if t == AccountType.Service && !(federated && twoFactor) then AccountStatus.Okay
    else AccountStatus.Bad
  }

  /** Step three of `classify`: is more investigation needed? */
  predicate NeedsAction(t: AccountType, s: AccountStatus): (r: bool)
    ensures t == AccountType.Unknown || t == AccountType.Unset ==> r
    ensures s != AccountStatus.Okay ==> r
    ensures t != AccountType.Unknown && t != AccountType.Unset && s == AccountStatus.Okay ==> !r
  {
    !(t != AccountType.Unknown && t != AccountType.Unset && s == AccountStatus.Okay)
  }

  /**
    `role` as the tool holds it: a role name from the member listing, a JSON null,
    or the dataclass default, which is the union type object `str | None` itself.
   */
  datatype Role = Named(name: string) | Null | TypeDefault

  /** What an f-string prints for the role. */
  function RoleText(r: Role): string
  {
    match r
    case Named(n) => n
    case Null => "None"
    case TypeDefault => "str | None"
  }

  /** The value of every field of an `Account` at one moment. */
  datatype AccountView = AccountView(
    email: string,
    federated: bool,
    role: Role,
    twoFactorAuthentication: bool,
    accountType: AccountType,
    accountStatus: AccountStatus,
    needsAction: bool)
  {
    /** `as_text`: one line for the administrator, "okay: ..." or "BAD! type=...". */
    function AsText(): (r: string)
      ensures StartsWith(r, "okay: ") <==> !needsAction
      ensures StartsWith(r, "BAD! type=" + TypeName(accountType) + "; ") <==> needsAction
      ensures needsAction ==>
        StartsWith(r, "BAD! type=" + TypeName(accountType) + "; status=" + StatusName(accountStatus)
                      + "; SSO=" + BoolText(federated) + "; 2FA=" + BoolText(twoFactorAuthentication) + ": ")
      ensures Contains(r, email) && Contains(r, TypeName(accountType)) && Contains(r, RoleText(role))
      ensures EndsWith(r, " permissions.")
    {
      var action :=
        if needsAction then
          "BAD! type=" + TypeName(accountType) + "; status=" + StatusName(accountStatus)
          + "; SSO=" + BoolText(federated) + "; 2FA=" + BoolText(twoFactorAuthentication)
        else "okay";
      var r := action + ": " + email + " is a " + TypeName(accountType) + " account with "
               + RoleText(role) + " permissions.";
      TextShape(action, email, TypeName(accountType), RoleText(role), needsAction);
      r
    }
  }

  lemma TextShape(action: string, email: string, typeName: string, role: string, bad: bool)
    requires bad ==> StartsWith(action, "BAD! type=" + typeName + "; ")
    requires !bad ==> action == "okay"
    ensures var r := action + ": " + email + " is a " + typeName + " account with " + role + " permissions.";
      && (StartsWith(r, "okay: ") <==> !bad)
      && (StartsWith(r, "BAD! type=" + typeName + "; ") <==> bad)
      && StartsWith(r, action + ": ")
      && Contains(r, email) && Contains(r, typeName) && Contains(r, role)
      && EndsWith(r, " permissions.")
  {
    var head := action + ": ";
    var r := action + ": " + email + " is a " + typeName + " account with " + role + " permissions.";
    var tail := " is a " + typeName + " account with " + role + " permissions.";
    assert r == head + (email + tail);
    assert StartsWith(head, head);
    StartsWithInLeft(head, email + tail, head);
    if bad {
      StartsWithInLeft(action, ": ", "BAD! type=" + typeName + "; ");
      assert StartsWith(head, "BAD! type=" + typeName + "; ");
      StartsWithInLeft(head, email + tail, "BAD! type=" + typeName + "; ");
      assert r == head + (email + tail);
      assert r[0] == 'B';
      assert "okay: "[0] == 'o';
    } else {
      assert r == "okay: " + (email + tail);
      assert r[..6] == "okay: ";
      assert r[0] == 'o';
      assert ("BAD! type=" + typeName + "; ")[0] == 'B';
    }
    ContainsSelf(email);
    ContainsInRight(head, email, email);
    ContainsInLeft(head + email, " is a ", email);
    ContainsInLeft(head + email + " is a ", typeName, email);
    ContainsInLeft(head + email + " is a " + typeName, " account with ", email);
    ContainsInLeft(head + email + " is a " + typeName + " account with ", role, email);
    ContainsInLeft(head + email + " is a " + typeName + " account with " + role, " permissions.", email);
    ContainsSelf(typeName);
    ContainsInRight(head + email + " is a ", typeName, typeName);
    ContainsInLeft(head + email + " is a " + typeName, " account with ", typeName);
    ContainsInLeft(head + email + " is a " + typeName + " account with ", role, typeName);
    ContainsInLeft(head + email + " is a " + typeName + " account with " + role, " permissions.", typeName);
    ContainsSelf(role);
    ContainsInRight(head + email + " is a " + typeName + " account with ", role, role);
    ContainsInLeft(head + email + " is a " + typeName + " account with " + role, " permissions.", role);
    assert EndsWith(" permissions.", " permissions.");
    EndsWithInRight(head + email + " is a " + typeName + " account with " + role, " permissions.", " permissions.");
  }

  /**
    The effect of `classify` on a record whose type and status are still UNSET: the three
    derived fields are set by the rules and every other field is left alone.
   */
  function Classified(v: AccountView): (r: AccountView)
    requires v.accountType == AccountType.Unset && v.accountStatus == AccountStatus.Unset
    ensures r.accountType != AccountType.Unset && r.accountStatus != AccountStatus.Unset
    ensures r.accountStatus == AccountStatus.Okay || r.accountStatus == AccountStatus.Bad
    ensures r.(accountType := v.accountType, accountStatus := v.accountStatus, needsAction := v.needsAction) == v
  {
    var t := TypeRule(v.email);
    var s := StatusRule(t, v.federated, v.twoFactorAuthentication);
    v.(accountType := t, accountStatus := s, needsAction := NeedsAction(t, s))
  }

  /** One team member, as the tool holds it (`Account`). */
  class Account {
    var email: string
    var federated: bool
    var role: Role
    var twoFactorAuthentication: bool
    var accountType: AccountType
    var accountStatus: AccountStatus
    var needsAction: bool

    function View(): AccountView
      reads this
    {
      AccountView(email, federated, role, twoFactorAuthentication, accountType, accountStatus, needsAction)
    }

    /** `Account()`: every field at its dataclass default. */
    constructor ()
      ensures View() == AccountView("", false, TypeDefault, false, AccountType.Unset, AccountStatus.Unset, true)
    {
      email := "";
      federated := false;
      role := TypeDefault;
      twoFactorAuthentication := false;
      accountType := AccountType.Unset;
      accountStatus := AccountStatus.Unset;
      needsAction := true;
    }

    /** `classify`: translate the Heroku data into Mozilla's terms, once. */
    method Classify()
      requires accountType == AccountType.Unset && accountStatus == AccountStatus.Unset
      modifies this`accountType, this`accountStatus, this`needsAction
      ensures accountType != AccountType.Unset && accountStatus != AccountStatus.Unset
      ensures accountType == TypeRule(email)
      ensures accountStatus == StatusRule(accountType, federated, twoFactorAuthentication)
      ensures accountStatus == AccountStatus.Okay || accountStatus == AccountStatus.Bad
      ensures needsAction == NeedsAction(accountType, accountStatus)
      ensures View() == Classified(old(View()))
      ensures email == old(email) && federated == old(federated) && role == old(role)
      ensures twoFactorAuthentication == old(twoFactorAuthentication)
    {
      if IsStaffEmail(email) {
        if IsServiceName(email) {
          accountType := AccountType.Service;
        } else {
          accountType := AccountType.Staff;
        }
      } else {
        if IsServiceName(email) {
          accountType := AccountType.Unknown;
        } else {
          accountType := AccountType.Community;
        }
      }

      var status := accountStatus;
      if federated && accountType == AccountType.Staff {
        status := AccountStatus.Okay;
      } else if twoFactorAuthentication && accountType == AccountType.Community {
        status := AccountStatus.Okay;
      } else if accountType == AccountType.Service && !(federated && twoFactorAuthentication) {
        status := AccountStatus.Okay;
      } else if status == AccountStatus.Unknown {
        status := AccountStatus.Unknown;
      } else {
        status := AccountStatus.Bad;
      }
      accountStatus := status;

      if accountType != AccountType.Unknown && accountType != AccountType.Unset
         && accountStatus == AccountStatus.Okay {
        needsAction := false;
      } else {
        needsAction := true;
      }
    }
  }

  /** The type rule, case by case, in terms of the address. */
  lemma TypeRuleCases(email: string)
    ensures TypeRule(email) == AccountType.Staff <==> IsStaffEmail(email) && !IsServiceName(email)
    ensures TypeRule(email) == AccountType.Service <==> IsStaffEmail(email) && IsServiceName(email)
    ensures TypeRule(email) == AccountType.Unknown <==> !IsStaffEmail(email) && IsServiceName(email)
    ensures TypeRule(email) == AccountType.Community <==> !IsStaffEmail(email) && !IsServiceName(email)
  {
  }

  /** An address is a staff address exactly when one of the listed domains ends it. */
  lemma StaffEmailMeansListedDomain(email: string)
    ensures IsStaffEmail(email) <==> exists d :: d in StaffEmailDomains && EndsWith(email, d)
  {
    if IsStaffEmail(email) {
      var i :| 0 <= i < |StaffEmailDomains| && EndsWith(email, StaffEmailDomains[i]);
      assert StaffEmailDomains[i] in StaffEmailDomains;
    }
  }

  /**
    The whole policy as one statement about the inputs: no action is needed exactly for
    federated staff, community members with 2FA, and service accounts that do not use
    SSO and 2FA together.
   */
  lemma NoActionExactly(email: string, federated: bool, twoFactor: bool)
    ensures var t := TypeRule(email);
      !NeedsAction(t, StatusRule(t, federated, twoFactor)) <==>
        || (IsStaffEmail(email) && !IsServiceName(email) && federated)
        || (!IsStaffEmail(email) && !IsServiceName(email) && twoFactor)
        || (IsStaffEmail(email) && IsServiceName(email) && !(federated && twoFactor))
  {
  }

  /** The status rule, case by case: only OKAY or BAD, and OKAY exactly for the three allowed setups. */
  lemma StatusRuleCases(t: AccountType, federated: bool, twoFactor: bool)
    ensures StatusRule(t, federated, twoFactor) == AccountStatus.Okay <==>
      || (t == AccountType.Staff && federated)
      || (t == AccountType.Community && twoFactor)
      || (t == AccountType.Service && !(federated && twoFactor))
    ensures StatusRule(t, federated, twoFactor) != AccountStatus.Okay ==>
      StatusRule(t, federated, twoFactor) == AccountStatus.Bad
  {
  }

  /** A service account that uses SSO and 2FA together is BAD and needs action. */
  lemma ServiceWithSsoAnd2faIsBad(v: AccountView)
    requires v.accountType == AccountType.Unset && v.accountStatus == AccountStatus.Unset
    requires TypeRule(v.email) == AccountType.Service && v.federated && v.twoFactorAuthentication
    ensures Classified(v).accountStatus == AccountStatus.Bad && Classified(v).needsAction
  {
  }

  /** A classified account of UNKNOWN type always needs action, whatever its status. */
  lemma UnknownAlwaysNeedsAction(v: AccountView)
    requires v.accountType == AccountType.Unset && v.accountStatus == AccountStatus.Unset
    requires Classified(v).accountType == AccountType.Unknown
    ensures Classified(v).needsAction
  {
  }

  /** Federated staff is OKAY and needs no action. */
  lemma FederatedStaffIsOkay(v: AccountView)
    requires v.accountType == AccountType.Unset && v.accountStatus == AccountStatus.Unset
    requires IsStaffEmail(v.email) && !IsServiceName(v.email) && v.federated
    ensures Classified(v).accountType == AccountType.Staff
    ensures Classified(v).accountStatus == AccountStatus.Okay && !Classified(v).needsAction
  {
  }

  /** Every listed domain starts with `@` and is at least eleven characters long. */
  lemma StaffDomainShape(d: string)
    requires d in StaffEmailDomains
    ensures |d| >= 11 && d[0] == '@'
  {
  }

  /** A federated staff member with the role "admin". */
  lemma StaffScenario()
    ensures var v := Classified(AccountView("a@mozilla.com", true, Named("admin"), false,
                                            AccountType.Unset, AccountStatus.Unset, true));
      && v.accountType == AccountType.Staff && v.accountStatus == AccountStatus.Okay && !v.needsAction
      && v.AsText() == "okay: a@mozilla.com is a STAFF account with admin permissions."
  {
    var email := "a@mozilla.com";
    assert email[|email| - 12..] == StaffEmailDomains[0];
    assert IsStaffEmail(email);
    assert email[0] != ServicePrefix[0];
    assert TypeRule(email) == AccountType.Staff;
    var v := AccountView(email, true, Named("admin"), false, AccountType.Staff, AccountStatus.Okay, false);
    assert Classified(AccountView(email, true, Named("admin"), false,
                                  AccountType.Unset, AccountStatus.Unset, true)) == v;
    StaffLine();
  }

  lemma StaffLine()
    ensures AccountView("a@mozilla.com", true, Named("admin"), false, AccountType.Staff, AccountStatus.Okay, false).AsText()
         == "okay: a@mozilla.com is a STAFF account with admin permissions."
  {
    // String literals are compared one concatenation at a time.
    assert "okay" + ": " == "okay: ";
    assert "okay: " + "a@mozilla.com" == "okay: a@mozilla.com";
    assert "okay: a@mozilla.com" + " is a " == "okay: a@mozilla.com is a ";
    assert "okay: a@mozilla.com is a " + "STAFF" == "okay: a@mozilla.com is a STAFF";
    assert "okay: a@mozilla.com is a STAFF" + " account with " == "okay: a@mozilla.com is a STAFF account with ";
    assert "okay: a@mozilla.com is a STAFF account with " + "admin"
        == "okay: a@mozilla.com is a STAFF account with admin";
    assert "okay: a@mozilla.com is a STAFF account with admin" + " permissions."
        == "okay: a@mozilla.com is a STAFF account with admin permissions.";
  }

  /** A service account with both SSO and 2FA, listed without a role. */
  lemma ServiceScenario()
    ensures var v := Classified(AccountView("heroku-ci@mozilla.com", true, TypeDefault, true,
                                            AccountType.Unset, AccountStatus.Unset, true));
      && v.accountType == AccountType.Service && v.accountStatus == AccountStatus.Bad && v.needsAction
      && StartsWith(v.AsText(), "BAD! type=SERVICE; ")
  {
    var email := "heroku-ci@mozilla.com";
    assert email[|email| - 12..] == StaffEmailDomains[0];
    assert IsStaffEmail(email);
    assert ServicePrefix + "ci@mozilla.com" == email;
    assert StartsWith(ServicePrefix, ServicePrefix);
    StartsWithInLeft(ServicePrefix, "ci@mozilla.com", ServicePrefix);
    assert TypeRule(email) == AccountType.Service;
    var v := AccountView(email, true, TypeDefault, true, AccountType.Service, AccountStatus.Bad, true);
    assert Classified(AccountView(email, true, TypeDefault, true,
                                  AccountType.Unset, AccountStatus.Unset, true)) == v;
    assert "BAD! type=" + "SERVICE" + "; " == "BAD! type=SERVICE; ";
  }

  /** A community member with 2FA and a null role. */
  lemma CommunityScenario()
    ensures var v := Classified(AccountView("user@gmail.com", false, Null, true,
                                            AccountType.Unset, AccountStatus.Unset, true));
      && v.accountType == AccountType.Community && v.accountStatus == AccountStatus.Okay && !v.needsAction
  {
    var email := "user@gmail.com";
    forall i | 0 <= i < |StaffEmailDomains|
      ensures !EndsWith(email, StaffEmailDomains[i])
    {
      var d := StaffEmailDomains[i];
      StaffDomainShape(d);
      if |d| <= |email| {
        assert email[|email| - |d|] in "user";
      }
    }
    assert !IsStaffEmail(email);
    assert email[0] != ServicePrefix[0];
    assert TypeRule(email) == AccountType.Community;
  }
}
