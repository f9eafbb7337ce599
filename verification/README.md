# Heroku account management: the account policy and membership handlers

This project is a Dafny model of the decision logic in `accounts/acnt-mgmt.py`. That file holds
Mozilla's command-line tool for auditing and offboarding the members of a Heroku team. The model
covers these parts of it:

- **The account policy** (`account_policy.dfy`, module `AccountPolicy`):
  - the `Account_Type` and `Account_Status` enums;
  - the `Staff_Email_Domains` tuple and the `heroku-` service-account prefix;
  - the `Account` record as a class whose fields `classify` updates in place;
  - the three rules `classify` applies in order: type from the address, status from type, SSO
    and 2FA, then `needs_action`;
  - the line `as_text` renders for one account.
- **The membership handlers** (`member_handlers.dfy`, module `MemberHandlers`):
  - `all_members`: copy the listing's matching keys into a fresh `Account`, then classify it;
  - `member_list` (the `list` command) and `member_emails` (the `emails` command);
  - `is_member`, including its `@example.com` carve-out;
  - `membership_verify` (the `verify` command);
  - `revoke`, `do_revoke` and `membership_revoke` (the `revoke` command).
- **Support**: `strings.dfy` (module `Strings`) gives the Python string operations the policy
  uses: `startswith`, `endswith` with a tuple of suffixes and `str(bool)`, plus a
  substring-occurrence predicate used to state what the rendered line contains.
  `wrappers.dfy` gives `Option` and `Result`.

The I/O is abstracted as follows:

- The team's member listing is an input. The tool fetches it once and caches it.
- Each listing record is a `MemberRecord`. It holds one optional value per key that names an
  `Account` field. A listed role is a string or a JSON null (`ListedRole`); only a missing key
  leaves the union-type default.
- The answer to each DELETE request comes from an oracle `respond`. The answer is a decoded body,
  an HTTP error code, or some other failure.

Some behaviours of the code are kept on purpose:

- The dataclass default for `role` is the union type object `str | None` itself, not `None`. So an
  account listed without a `role` key renders as "... with str | None permissions." The model
  keeps this as `Role.TypeDefault`.
- The status step of `classify` tests for an existing `UNKNOWN` status. That test cannot fire,
  because the entry assertions require the status to be `UNSET`. `Account.Classify` keeps the
  branch, and its postcondition shows that the status is only ever `OKAY` or `BAD`.
- A listing record that carries an `account_type` or `account_status` key would overwrite a field
  that `classify` asserts is `UNSET`. The assertion then stops the whole load. `AllMembers`
  returns `Failure` with the index of the first such record.
- `do_revoke` turns only a 404 into a text line. Every other failure raises. A non-HTTP `OSError`
  raises too, because it has no `code` attribute, and so does a body that is not JSON.
  `membership_revoke` catches each of these and records "... failed membership revocation
  from ...".
- A successful DELETE yields the decoded JSON body, not a string. The model records this as a
  `StatusEntry.Payload`.
- `membership_revoke` checks membership, and then `revoke` checks it again against the same cached
  listing. So `revoke`'s own "FAIL: ... is not a member" line is never produced on that path.

## Model

| member | source | states |
|---|---|---|
| `Strings.EndsWithAny` | accounts/acnt-mgmt.py:223 | `str.endswith` with a tuple holds exactly when some suffix in the tuple ends the string |
| `AccountPolicy.StaffEmailMeansListedDomain` | accounts/acnt-mgmt.py:165-174 | an address counts as staff exactly when one of the eight listed organisation domains ends it |
| `AccountPolicy.StaffDomainShape` | accounts/acnt-mgmt.py:165-174 | every listed staff domain begins with `@` and is at least eleven characters long |
| `AccountPolicy.TypeRule` | accounts/acnt-mgmt.py:223-233 | step one of `classify`: the type is never UNSET; it is STAFF or SERVICE exactly for a staff-domain address, and SERVICE or UNKNOWN exactly for a `heroku-` address |
| `AccountPolicy.StatusRule` | accounts/acnt-mgmt.py:236-250 | step two of `classify`: the status is OKAY or BAD; UNKNOWN and UNSET types are always BAD; with both SSO and 2FA, only STAFF and COMMUNITY are OKAY |
| `AccountPolicy.NeedsAction` | accounts/acnt-mgmt.py:253-259 | step three of `classify`: action is always needed for an UNKNOWN or UNSET type and for any status other than OKAY; an OKAY account of type STAFF, SERVICE or COMMUNITY needs none |
| `AccountPolicy.TypeRuleCases` | accounts/acnt-mgmt.py:222-233 | staff suffix without the `heroku-` prefix gives STAFF; staff suffix with it gives SERVICE; prefix without a staff suffix gives UNKNOWN; anything else gives COMMUNITY (each case an if-and-only-if) |
| `AccountPolicy.StatusRuleCases` | accounts/acnt-mgmt.py:235-250 | the status is OKAY exactly for federated STAFF, COMMUNITY with 2FA, and SERVICE without both SSO and 2FA; otherwise it is BAD, never UNSET or UNKNOWN |
| `AccountPolicy.FederatedStaffIsOkay` | accounts/acnt-mgmt.py:236-237 | a federated staff address classifies as STAFF and OKAY and needs no action |
| `AccountPolicy.ServiceWithSsoAnd2faIsBad` | accounts/acnt-mgmt.py:243-250 | a SERVICE account with both SSO and 2FA is BAD and needs action |
| `AccountPolicy.UnknownAlwaysNeedsAction` | accounts/acnt-mgmt.py:253-259 | an account classified UNKNOWN always needs action |
| `AccountPolicy.NoActionExactly` | accounts/acnt-mgmt.py:222-259 | the whole policy in terms of the inputs: no action is needed exactly for federated staff, non-service community members with 2FA, and staff-domain service accounts without both SSO and 2FA |
| `AccountPolicy.Classified` | accounts/acnt-mgmt.py:215-262 | the value-level effect of `classify`: starting from UNSET type and status, the result has neither UNSET, the status is OKAY or BAD, and every field other than type, status and `needs_action` is unchanged |
| `AccountPolicy.Account.constructor` | accounts/acnt-mgmt.py:189-201 | a new `Account` holds the dataclass defaults: empty email, no SSO, no 2FA, the union-type default role, UNSET type and status, `needs_action` true |
| `AccountPolicy.Account.Classify` | accounts/acnt-mgmt.py:215-262 | requires UNSET type and status (the entry asserts). Ensures neither is UNSET on exit (the exit asserts), the type follows the type rule, the status follows the status rule and is OKAY or BAD, and `needs_action` follows from type and status. Only those three fields may change |
| `AccountPolicy.AccountView.AsText` | accounts/acnt-mgmt.py:264-279 | the line starts with "okay: " exactly when no action is needed, and with "BAD! type=<TYPE>; " exactly when action is needed. It contains the email, the type name and the role, and ends with " permissions.". When action is needed, the line starts with "BAD! type=<TYPE>; status=<STATUS>; SSO=<True/False>; 2FA=<True/False>: " |
| `AccountPolicy.StaffScenario` | accounts/acnt-mgmt.py:215-279 | `a@mozilla.com`, federated, role admin: STAFF, OKAY, no action, text "okay: a@mozilla.com is a STAFF account with admin permissions." |
| `AccountPolicy.ServiceScenario` | accounts/acnt-mgmt.py:222-274 | `heroku-ci@mozilla.com` with SSO and 2FA: SERVICE, BAD, needs action, text starts "BAD! type=SERVICE; " |
| `AccountPolicy.CommunityScenario` | accounts/acnt-mgmt.py:222-242 | `user@gmail.com` with 2FA and no SSO: COMMUNITY, OKAY, no action |
| `MemberHandlers.Copied` | accounts/acnt-mgmt.py:316-319 | copying a record takes `email`, `federated` and `two_factor_authentication` from the record when present and keeps the defaults otherwise. A listed role string or null becomes that role; the union-type default remains exactly when the record has no `role`. Type and status stay UNSET |
| `MemberHandlers.LoadedIgnoresNeedsActionKey` | accounts/acnt-mgmt.py:317-320 | a `needs_action` key in the listing has no effect on the loaded account, because `classify` recomputes it |
| `MemberHandlers.LoadRecord` | accounts/acnt-mgmt.py:316-320 | one loop step of `all_members`: a fresh account whose fields are the copied record, then classified |
| `MemberHandlers.AllMembers` | accounts/acnt-mgmt.py:312-322 | on success, one fresh, distinct, classified account per record, in listing order. It fails exactly at the first record carrying an `account_type` or `account_status` key |
| `MemberHandlers.MemberEmails` | accounts/acnt-mgmt.py:325-328 | one email per member, position by position |
| `MemberHandlers.IsMember` | accounts/acnt-mgmt.py:283-290 | true exactly when the address ends with `@example.com` or some member has that email |
| `MemberHandlers.TestDomainIsMember` | accounts/acnt-mgmt.py:284-286 | any `@example.com` address is a member, whatever the listing holds |
| `MemberHandlers.MemberList` | accounts/acnt-mgmt.py:302-308 | the result is the order-preserving selection of accounts with `needs_action`, or of all accounts when `all` is set |
| `MemberHandlers.SelectedMembers` | accounts/acnt-mgmt.py:305-307 | an account is listed exactly when it is in the input and needs action, or `all` is set |
| `MemberHandlers.SelectedAll` | accounts/acnt-mgmt.py:306 | with `all`, the listing is the whole input in its order |
| `MemberHandlers.SelectedAppend` | accounts/acnt-mgmt.py:305-307 | selection distributes over concatenation, so the listing keeps the input's relative order |
| `MemberHandlers.MembershipVerify` | accounts/acnt-mgmt.py:331-339 | exactly one line per supplied address, in input order, saying "is a member" or "is NOT a member" by `is_member` |
| `MemberHandlers.DoRevoke` | accounts/acnt-mgmt.py:120-134 | a decoded body is passed through; a 404 becomes "<addr> is not a member of <team> (404)"; every other failure raises (`None`) |
| `MemberHandlers.Revoke` | accounts/acnt-mgmt.py:293-298 | a non-member gets the "FAIL: <addr> is not a member of <team>" line; for a member the result is exactly the DELETE outcome |
| `MemberHandlers.RevokeStatus` | accounts/acnt-mgmt.py:345-352 | the entry for one address: a non-member gets "<addr> was NOT a member of <team>"; the entry is a decoded body exactly when the address is a member and the DELETE response decoded |
| `MemberHandlers.RevokeOfNonMember` | accounts/acnt-mgmt.py:293-298 | `revoke` on a non-member gives the "FAIL: ... is not a member" line, whatever the server would answer, so no request is needed |
| `MemberHandlers.NoRevokeFailLine` | accounts/acnt-mgmt.py:342-354 | the entry `membership_revoke` records for an address is never `revoke`'s "FAIL: ... is not a member of ..." line, whatever the server answers |
| `MemberHandlers.MembershipRevoke` | accounts/acnt-mgmt.py:342-354 | exactly one entry per supplied address, in input order, each determined by that address alone. So a failure on one address does not stop the later ones. The DELETE requests, recorded in a ghost trace, go to exactly the members among the addresses, in order. No entry is `revoke`'s "FAIL: ... is not a member" line |
| `MemberHandlers.RevokeStatusCases` | accounts/acnt-mgmt.py:342-354 | a non-member gives "was NOT a member"; for a member, a decoded body is recorded, a 404 gives the "not a member ... (404)" line, and any other failure gives "failed membership revocation" |
| `MemberHandlers.MembersAmongExactly` | accounts/acnt-mgmt.py:344-352 | a DELETE is sent for an address exactly when it was supplied and is a member, so non-members never cause a request |
| `MemberHandlers.NonMemberScenario` | accounts/acnt-mgmt.py:342-354 | `ghost@nowhere.test`, held by no member, gives "ghost@nowhere.test was NOT a member of <team>" and no request |

## Left out

- `login` and the `op read` subprocess (accounts/acnt-mgmt.py:32-59) are left out. They are an external secret tool plus a global token, and their "already done" test does nothing.
- `members`, `_get_headers` and the HTTP part of `do_revoke` (accounts/acnt-mgmt.py:62-134) are left out. They are network I/O with JSON decoding. The listing is an input, and each DELETE answer comes from the `respond` oracle.
- The `functools.lru_cache` memoisation is left out. It is process-lifetime caching, and the model passes one fixed listing to every handler instead.
- `_parse_args`, argcomplete, the clipboard and `main`'s printing are left out. They are CLI and presentation code. `main` indexes `result[0]`, which fails on an empty result. It also joins a revoke result with `"\n".join`, which fails when a decoded JSON body is in the list. Neither is modelled.
- `set_value`/`__setattr__` reflection is left out. The field copy is modelled as "copy each key that names a field".
- Listing values of another JSON type than the field expects are left out. The model does not cover, for example, a string `federated` or a number `email`.
- The value carried by an `account_type` or `account_status` key is left out. Only the key's presence matters, because `classify`'s entry assertion rejects it whatever it is.
- The decoded body of a successful DELETE is kept as opaque text.
- MembershipRevoke: the `respond` oracle answers by address alone. So an address supplied twice gets the same answer both times. A real server would answer the second DELETE with 404.
- The per-address failure in `membership_revoke` also prints the exception. That output is left out.
