# RAAuth machine-to-machine prototype, modelled in Dafny

RAAuth is a three-service prototype for machine-to-machine access to the
user/role registry of a set of services:

- the **authorization server** (`authorization_server.py`) authenticates a
  client with its id and secret and mints a signed access token whose
  audience is the requested scope; it publishes its public key as a JWKS;
- the **RAAuth gateway** (`raauth.py`) takes a bearer token and a request
  for one action on one service, verifies the token, checks the issuer, the
  client's profile (enabled, expected issuer, scope, allowed actions), the
  service's enrolment for the client's appCode and that the enrolment has at
  least one eligible user, then forwards a payload with safelisted
  parameters to the data plane and relays its answer;
- the **data plane** (`resource_server.py`) loads the `serviceRole`
  document for (appCode, service code) and lists, searches, exports, shows
  or edits its users (enable, disable, assign or remove a role), showing
  only users that are enabled and have at least one effective role.

The model is a set of Dafny modules, one per concern:

| module | file | what it holds |
|---|---|---|
| `Text` | text.dfy | ASCII strip, upper and lower case, substring search, lexicographic order, decimal rendering |
| `Values` | values.dfy | JSON values, Python truthiness, `or`, `==`, `str()`, first-match search |
| `Base64Url` | base64url.dfy | big-endian octets of an integer, unpadded base64url encoding and decoding |
| `Issuer` | issuer.dfy | the token endpoint's decision and claims, the JWKS document |
| `Visibility` | visibility.dfy | canonical fiscal code, enablement flag, effective roles, projection of a visible user |
| `Query` | query.dfy | pagination, stable sort by a field, case-insensitive search, listing, CSV rows |
| `UserEdit` | useredit.dfy | the enablement flag writer and the role upsert, on values and on a mutable `UserEntry` |
| `DataPlane` | dataplane.dfy | the `/data` handler as a function over the document store, and the `ServiceRoleCollection` class that updates it |
| `Gateway` | gateway.dfy | the `/gateway` authorization chain, its first-failure reference, the parameter safelist, the endpoint |
| `Protocol` | protocol.dfy | properties across the services: issuer against gateway, gateway eligibility against data-plane visibility, the forwarded payload |

The token verification (signature, audience, expiry), the HTTP forward to
the data plane and the clock are parameters of the model: `Gateway.Env`
carries a verification function and a forwarding function, and the token
endpoint takes the current time as an argument.

## Model

| member | source | states |
|---|---|---|
| Text.TrimLeft | resource_server.py:14-15 | the result of `lstrip` starts with a non-space and is no longer than its input |
| Text.TrimRight | resource_server.py:14-15 | the result of `rstrip` ends with a non-space and is no longer than its input |
| Text.TrimLeftSuffix | resource_server.py:14-15 | `lstrip` removes a prefix: the result is a suffix of the input |
| Text.TrimRightPrefix | resource_server.py:14-15 | `rstrip` removes a suffix: the result is a prefix of the input |
| Text.TrimLeftRemovesSpaces | resource_server.py:14-15 | everything `lstrip` removes is white space |
| Text.TrimRightRemovesSpaces | resource_server.py:14-15 | everything `rstrip` removes is white space |
| Text.Strip | resource_server.py:14-15 | `strip` leaves no white space at either end |
| Text.StripOfStripped | resource_server.py:14-15 | stripping text without surrounding white space changes nothing |
| Text.Upper | resource_server.py:14-15 | `upper` maps each character by the ASCII upper-case map and keeps the length |
| Text.UpperOfUpper | resource_server.py:14-15 | upper-casing text without lower-case letters changes nothing |
| Text.Lower | resource_server.py:87-91 | `lower` maps each character by the ASCII lower-case map and keeps the length |
| Text.LStripDash | resource_server.py:83 | `lstrip("-")` leaves no leading dash and is no longer than its input |
| Text.LStripDashSuffix | resource_server.py:83 | `lstrip("-")` removes exactly a run of leading dashes |
| Text.LexLessIrreflexive | resource_server.py:85 | string order is irreflexive |
| Text.LexLessTransitive | resource_server.py:85 | string order is transitive |
| Text.LexLessTotal | resource_server.py:85 | any two different strings are ordered one way or the other |
| Text.LexLessAsymmetric | resource_server.py:85 | string order is asymmetric |
| Text.NatToString | resource_server.py:143 | `str()` of a natural number is non-empty |
| Text.NatToStringDigits | resource_server.py:143 | `str()` of a natural number consists of decimal digits |
| Text.NatToStringValue | resource_server.py:143 | the digits of `str()` denote the number, with no leading zero except for 0 itself, which is "0" |
| Values.Or | resource_server.py:26 | Python `a or b` is truthy exactly when `a` or `b` is |
| Values.FirstFrom | resource_server.py:118-125 | a search from position k answers a position at or after k whose element satisfies the test |
| Values.FirstIndex | resource_server.py:118-125 | a search answers a position whose element satisfies the test |
| Values.FirstFromSkips | resource_server.py:118-125 | the search from k skips only failing elements, and answers nothing only when no element from k passes |
| Values.FirstIndexFirst | resource_server.py:118-125 | the answer is the first passing position, and nothing is answered only when none passes |
| Values.FlatMapMembers | resource_server.py:22-44 | a value is collected exactly when some element contributes it |
| Base64Url.Pow2 | authorization_server.py:19-21 | powers of two are positive |
| Base64Url.Pow256 | authorization_server.py:19-21 | powers of 256 are positive |
| Base64Url.BitLengthBounds | authorization_server.py:20 | `n.bit_length()` is the least k with n < 2^k |
| Base64Url.Pow2Monotone | authorization_server.py:20 | powers of two grow with the exponent |
| Base64Url.Pow2Add8 | authorization_server.py:20 | eight more bits multiply by 256 |
| Base64Url.Pow2Octets | authorization_server.py:20 | 2^(8k) is 256^k |
| Base64Url.ByteLengthBounds | authorization_server.py:20 | `(bit_length + 7) // 8` octets hold n, and for n > 0 one fewer would not |
| Base64Url.ToBytes | authorization_server.py:20 | `to_bytes(len, "big")` has exactly len octets |
| Base64Url.LeadingDigit | authorization_server.py:20 | the leading base-256 digit and the remainder rebuild a number below 256 times the place value |
| Base64Url.FromToBytesStep | authorization_server.py:20 | reading back octets splits into the leading octet at its place and the value of the rest |
| Base64Url.FromBytesCons | authorization_server.py:20 | the value of octets is the leading octet at its place plus the value of the rest |
| Base64Url.FromToBytes | authorization_server.py:20 | reading back the big-endian octets of n gives n when n fits |
| Base64Url.SextetValue | authorization_server.py:21 | an alphabet character decodes to a value below 64 |
| Base64Url.SextetInverse | authorization_server.py:21 | decoding the character of a sextet gives the sextet back |
| Base64Url.SextetValueInverse | authorization_server.py:21 | encoding the value of an alphabet character gives the character back |
| Base64Url.EncodeGroup | authorization_server.py:21 | one to three octets become one more character, all from the URL-safe alphabet, no padding |
| Base64Url.Encode | authorization_server.py:21 | `jwt.utils.base64url_encode`, which removes every "=", has length ceil(4n/3) over the URL-safe alphabet, without '=' |
| Base64Url.DecodeEncodeOne | authorization_server.py:21 | decoding the encoding of one octet gives it back |
| Base64Url.DecodeEncodeTwo | authorization_server.py:21 | decoding the encoding of two octets gives them back |
| Base64Url.DecodeEncodeThree | authorization_server.py:21 | decoding the encoding of three octets gives them back |
| Base64Url.DecodeEncodeGroup | authorization_server.py:21 | decoding the encoding of any group gives it back |
| Base64Url.EncodeDecodeGroup | authorization_server.py:21 | a group that decodes is the encoding of what it decodes to |
| Base64Url.DecodeEncode | authorization_server.py:21 | decoding an encoding gives the octets back |
| Base64Url.EncodeDecode | authorization_server.py:21 | any text that decodes is the encoding of its octets: the encoding is canonical |
| Base64Url.IntToBase64Url | authorization_server.py:19-21 | `int_to_base64url` yields ceil(4·octets/3) URL-safe characters and no padding |
| Base64Url.IntToBase64UrlRoundTrip | authorization_server.py:19-21 | the text decodes to octets whose big-endian value is the integer, with the minimal octet count |
| Base64Url.LeadingOctetNonZero | authorization_server.py:20 | for n > 0 the leading octet is not zero: the encoding is the minimal one |
| Base64Url.ZeroDivergesFromRfc7518 | authorization_server.py:19-21 | for n > 0 the encoding is the Base64urlUInt of section 2 of RFC 7518; for 0 it is empty where the RFC writes "AA" |
| Issuer.Token | authorization_server.py:23-57 | a token is issued exactly when the client authenticates and the scope is allowed; otherwise 401, 400 for a missing scope, 403 for another scope; its claims are iss "RAAuth", sub the client, aud and scope the requested scope, exp now+300, header typ JWT, alg RS256 and the key id |
| Issuer.JwksMatchesTokens | authorization_server.py:59-70 | the JWKS holds one RSA signing key whose kid and alg are those of every token header and whose n and e decode to the key's modulus and exponent |
| Issuer.Jwks | authorization_server.py:59-70 | stated by Issuer.JwksMatchesTokens |
| Visibility.CanonTextShape | resource_server.py:14-15 | a canonical code has no white space at either end and no lower-case letter |
| Visibility.CanonCf | resource_server.py:14-15 | `canon_cf(None)` is the empty string |
| Visibility.CanonTextIdempotent | resource_server.py:14-15 | canonicalising canonical text changes nothing |
| Visibility.CanonCfIdempotent | resource_server.py:14-15 | canonicalising a canonical fiscal code changes nothing |
| Visibility.CollectDocRoles | resource_server.py:22-30 | the loop collects exactly the described, checked document roles, in order |
| Visibility.CollectUserRoles | resource_server.py:32-44 | the loop collects the described, checked dict roles and the `str()` of every other role, in order |
| Visibility.IsEnabled | resource_server.py:17-20 | stated by Visibility.ProjectVisible and UserEdit.EnableMakesEnabled: a truthy flag under any of the five keys enables the user |
| Visibility.DocRoles | resource_server.py:22-30 | stated by Visibility.CollectDocRoles, the loop proved against it |
| Visibility.UserRoles | resource_server.py:32-44 | stated by Visibility.CollectUserRoles, the loop proved against it |
| Visibility.ResolveEffectiveRoles | resource_server.py:46-57 | the effective roles are the user's own when there are any, otherwise the document's, whatever the `ruolo` flag |
| Visibility.ProjectVisible | resource_server.py:59-71 | a user is shown exactly when enabled and with effective roles, with nome, cognome, CF and those roles |
| Query.EffectivePage | resource_server.py:74 | the page is at least 1: a page of at least 1 is kept and any lower page becomes 1 |
| Query.EffectiveSize | resource_server.py:75 | the size lies in 1..200: 25 for 0, clamped from below at 1 and from above at 200 |
| Query.PagesAbut | resource_server.py:74-77 | the first page starts at the first item, a page below 1 is the first page, and each page starts where the one before it ends |
| Query.Paginate | resource_server.py:73-78 | a page is the slice of the items from its start, at most size long, full when enough items follow, empty exactly when it starts past the end, and the total is the item count |
| Query.PagesConcatenate | resource_server.py:73-78 | the first k pages laid end to end are the first k·size items |
| Query.AllPagesReproduceItems | resource_server.py:73-78 | enough pages laid end to end are the whole list |
| Query.NotBeforeTransitive | resource_server.py:84-85 | "not before" under the sort direction is transitive |
| Query.BeforeAsymmetric | resource_server.py:84-85 | "before" under the sort direction is asymmetric |
| Query.Insert | resource_server.py:85 | inserting adds exactly one element |
| Query.InsertSorted | resource_server.py:85 | inserting into a sorted list keeps it sorted |
| Query.WithKeyCons | resource_server.py:85 | the elements with one key of a list with a head |
| Query.WithKeySwap | resource_server.py:85 | two elements with different keys can be swapped without changing the elements of any one key |
| Query.InsertWithKey | resource_server.py:85 | inserting places the element before every equal-key element of the list it joins (those came later in the input): sorting is stable |
| Query.SortByCorrect | resource_server.py:85 | `sorted(..., key, reverse)` is a permutation, sorted by the key in the direction, keeping equal-key elements in their order |
| Query.SortUsersSpec | resource_server.py:80-85 | no sort leaves the list as is; a sort field orders a permutation by the lower-cased field, descending for a leading dash, stably |
| Query.TrimLeftUpper | resource_server.py:87-91 | upper-casing and `lstrip` commute |
| Query.TrimRightUpper | resource_server.py:87-91 | upper-casing and `rstrip` commute |
| Query.LowerOfUpper | resource_server.py:87-91 | lower-casing forgets a previous upper-casing |
| Query.SearchIgnoresCase | resource_server.py:87-91 | a search matches the same users whatever the case of the query |
| Query.Matching | resource_server.py:158-166 | filtering never lengthens the list |
| Query.MatchingMembers | resource_server.py:158-166 | a user is kept exactly when it was listed and matches the search |
| Query.ListingMembers | resource_server.py:158-166 | the listing holds exactly the visible users' projections that match the search |
| Query.MatchingOne | resource_server.py:165 | the filter keeps a single user exactly when it matches the search |
| Query.MatchingConcat | resource_server.py:165 | the filter works user by user and keeps the order and multiplicity of its input |
| Query.VisibleUsersConcat | resource_server.py:164 | the visible users are projected user by user in the document's order |
| Query.ListingUnsorted | resource_server.py:164-166 | without a sort key the listing is the matching visible users in document order |
| Query.SearchMatch | resource_server.py:87-91 | stated by Query.SearchIgnoresCase and Query.MatchingMembers: the search ignores case and keeps exactly the matching users |
| Query.VisibleUsers | resource_server.py:164 | stated by Query.VisibleUsersConcat and Query.ListingMembers: each user contributes its visible projection, in order |
| Query.Listing | resource_server.py:164-166 | stated by Query.ListingMembers, Query.ListingUnsorted and Query.SortUsersSpec: the visible matching users, sorted by the key |
| Query.JoinRoles | resource_server.py:168-179 | `"\|".join` of the roles succeeds exactly when every role is a string |
| Query.ExportRows | resource_server.py:168-179 | the CSV holds the header and one row per listed user, and fails exactly when some row fails |
| UserEdit.FlagIndex | resource_server.py:106-109 | the search for a present flag synonym skips only absent synonyms |
| UserEdit.FlagKey | resource_server.py:103-110 | the written key is a flag synonym; it is "abilitato" when no synonym is present |
| UserEdit.SetEnabled | resource_server.py:103-110 | the flag key is set to the boolean and every other field is kept |
| UserEdit.SetEnabledWritesFirstPresent | resource_server.py:106-109 | when some synonym is present, the first present one is written |
| UserEdit.EnableMakesEnabled | resource_server.py:17-20 | enabling makes the user enabled |
| UserEdit.DisableLeavesOtherSynonyms | resource_server.py:17-20 | after disabling, the user is enabled exactly when another synonym is truthy |
| UserEdit.DisableCanLeaveUserEnabled | resource_server.py:103-110 | a user with two synonyms stays enabled after `disable_user` |
| UserEdit.FirstMatch | resource_server.py:117-125 | the found role matches by code or by description |
| UserEdit.FirstMatchFirst | resource_server.py:117-125 | the found role is the first matching one, and none is found only when none matches |
| UserEdit.MergedRole | resource_server.py:126-135 | the merged role keeps its code and description when present, takes the requested ones otherwise, sets isChecked, and keeps its other fields |
| UserEdit.UpsertRole | resource_server.py:112-135 | the role list gains the new role when none matched, otherwise the first match is merged in place; every other field of the user is kept |
| UserEdit.WrittenRoleIsListed | resource_server.py:112-135 | the written role is in the user's role list afterwards |
| UserEdit.UpsertKeepsEnabled | resource_server.py:112-135 | a role upsert does not change whether the user is enabled |
| UserEdit.CheckedRoleContributes | resource_server.py:36-41 | a checked role with a truthy description contributes that description |
| UserEdit.AssignedRoleContributes | resource_server.py:126-135 | an assigned role with a truthy description is checked and described |
| UserEdit.ListedRoleCounts | resource_server.py:36-41 | a checked, described role in the user's list is among the user's own roles |
| UserEdit.AssignGivesOwnRole | resource_server.py:112-135 | after assigning a described role the user's own roles contain it |
| UserEdit.RemoveUnchecks | resource_server.py:112-135 | after removing a role the written role is unchecked |
| UserEdit.FindTargetRole | resource_server.py:117-125 | the loop finds the first matching role |
| UserEdit.UserEntry.constructor | resource_server.py:103 | a user entry holds the given fields |
| UserEdit.UserEntry.SetEnabledField | resource_server.py:103-110 | the fields become the flag-written fields |
| UserEdit.UserEntry.UpsertRoleOnUser | resource_server.py:112-135 | the fields become the role-upserted fields |
| DataPlane.ActionOf | resource_server.py:155-239 | a recognised action is named by its exact wire string |
| DataPlane.ActionNamesRecognised | resource_server.py:155-239 | every known action's wire name is recognised as that action |
| DataPlane.FindUser | resource_server.py:210-216 | the located user has the requested canonical CF |
| DataPlane.FindUserFirst | resource_server.py:210-216 | the located user is the first with that CF, and none is located only when no user has it |
| DataPlane.ListResponse | resource_server.py:158-190 | a listing answers a page, a CSV export or a 500 |
| DataPlane.GetUserResponse | resource_server.py:193-201 | `get_user` answers a user or 400, 404 or 403 |
| DataPlane.WriteOutcome | resource_server.py:204-236 | a write answers success or 400, 404 or 400 for a missing role; failures leave the store as it was; the store keeps its documents and the number of users |
| DataPlane.StatusCodes | resource_server.py:138-239 | the handler answers 200, 400, 403, 404 or 500 |
| DataPlane.MissingParametersFirst | resource_server.py:147-148 | 400 for missing parameters exactly when the action, appCode or service is missing |
| DataPlane.ServiceNotFoundWhenAbsent | resource_server.py:150-152 | 404 exactly when no document has the (appCode, service) key |
| DataPlane.UnknownActionRejected | resource_server.py:238-239 | an unknown action is answered 400 and changes nothing |
| DataPlane.OnlyWritesChangeStore | resource_server.py:138-239 | only a successful write action changes the store |
| DataPlane.DispatchRoutes | resource_server.py:155-239 | list actions list, `get_user` shows, writes write, each on the loaded document |
| DataPlane.WriteTouchesOneUser | resource_server.py:204-236 | a successful write replaces exactly the first user with the requested CF by its edited copy, and nothing else |
| DataPlane.EnableUserEnables | resource_server.py:224-225 | `enable_user` writes the flag true and leaves the user enabled |
| DataPlane.AssignMakesEnabledUserVisible | resource_server.py:226-232 | assigning a described role to an enabled user makes the user visible in any document |
| DataPlane.GetUserAnswers | resource_server.py:193-201 | 400 exactly for an empty CF, 404 exactly when no user has it, 403 exactly when that user is not visible, else its projection |
| DataPlane.ReadReturnsListing | resource_server.py:158-190 | a page holds the requested page of the listing, counts the whole listing, and echoes page, size, service and claims |
| DataPlane.ExportReturnsListing | resource_server.py:168-179 | an export writes the whole listing, unpaginated, to `users_<appCode>_<service>.csv` |
| DataPlane.ListFailureIsRaise | resource_server.py:158-190 | a listing fails with a 500 exactly when the handler meets a query, sort, page, size or CSV value it cannot read |
| DataPlane.WriteAnswers | resource_server.py:204-236 | a write answers 400 exactly for an empty CF, 404 exactly when no user has it, 400 exactly when assign or remove names no role, and success otherwise |
| DataPlane.ServiceRoleCollection.constructor | resource_server.py:11 | the collection holds the given documents |
| DataPlane.ServiceRoleCollection.ProtectedData | resource_server.py:138-239 | the handler answers and updates the collection as the specification function does |
| DataPlane.ServiceRoleCollection.WriteUser | resource_server.py:204-236 | a write answers and updates the collection as the write specification does |
| DataPlane.LocateUser | resource_server.py:210-216 | the loop locates the first user with the CF |
| DataPlane.EditUser | resource_server.py:218-233 | the edit applies the action's flag write or role upsert |
| DataPlane.EditedUser | resource_server.py:222-232 | stated by DataPlane.WriteAnswers and DataPlane.WriteTouchesOneUser: no role code and no description is a 400, otherwise the edited user replaces the found one |
| DataPlane.Dispatch | resource_server.py:155-239 | stated by DataPlane.DispatchRoutes and DataPlane.StatusCodes: each action reaches its branch, and answers carry the handler's codes |
| DataPlane.Handle | resource_server.py:138-239 | stated by DataPlane.MissingParametersFirst, DataPlane.ServiceNotFoundWhenAbsent, DataPlane.UnknownActionRejected and DataPlane.OnlyWritesChangeStore |
| Gateway.FindClient | raauth.py:90-94 | the found profile is in the collection, registers the subject and is enabled |
| Gateway.FindClientFinds | raauth.py:90-94 | no profile is found exactly when no enabled profile registers the subject |
| Gateway.AnyCheckedOfDicts | raauth.py:127-133 | over dict roles, the scan answers whether some role has a truthy isChecked |
| Gateway.AnyCheckedWitness | raauth.py:127-133 | a positive scan has a witness role with a truthy isChecked |
| Gateway.AnyCheckedShortCircuits | raauth.py:127-133 | the scan stops at the first checked role: a malformed role after it does not raise |
| Gateway.EligibleUsersMembers | raauth.py:127-133 | the scan raises exactly when some user raises; otherwise it keeps exactly the eligible users |
| Gateway.StrIn | raauth.py:103-109 | stated by Gateway.ScopeStringMatchesSubstring and Gateway.MissingActionsEntryRefuses: Python's `in` on the stored scopes and actions |
| Gateway.ScopeStringMatchesSubstring | raauth.py:103 | a scope list stored as a string admits a service by substring, where a list admits it only by equality |
| Gateway.UserEligible | raauth.py:127-130 | stated by Gateway.EligibleUsersMembers and Protocol.EligibleIsEnabled |
| Gateway.EligibleUsers | raauth.py:127-130 | stated by Gateway.EligibleUsersMembers |
| Gateway.Enrol | raauth.py:114-133 | stated by Gateway.EnrolAgrees and Gateway.GrantMeansEligibleUser |
| Gateway.AuthorizeClient | raauth.py:97-133 | stated by Gateway.AuthorizeClientAgrees |
| Gateway.Authorize | raauth.py:85-133 | stated by Gateway.AuthorizeIsFirstFailure, Gateway.FirstFailureWins and Gateway.GrantPassesEveryCheck |
| Gateway.EnrolAgrees | raauth.py:114-133 | the enrolment stage decides as the checks from the appCode on, in order |
| Gateway.AuthorizeClientAgrees | raauth.py:97-133 | the client stage decides as the checks from the expected issuer on, in order |
| Gateway.AuthorizeIsFirstFailure | raauth.py:85-133 | the chain refuses exactly when some check fails, for the first failing check's reason in source order |
| Gateway.FirstFailureWins | raauth.py:85-133 | a refusal names a failing check before which every check passes |
| Gateway.GrantPassesEveryCheck | raauth.py:85-133 | a grant passes every check |
| Gateway.UntrustedIssuerRefused | raauth.py:85-87 | the chain refuses for the issuer exactly when the issuer is not allowlisted |
| Gateway.ExpectedIssuerOnlyWhenTruthy | raauth.py:97-100 | an issuer mismatch is reported exactly when the profile's expected issuer is truthy and differs |
| Gateway.MissingActionsEntryRefuses | raauth.py:108-111 | a service without an entry in allowed_actions, or a profile without allowed_actions, refuses every action |
| Gateway.GrantMeansEligibleUser | raauth.py:114-133 | a grant means the document for (appCode, service) exists and has an eligible user |
| Gateway.SafeParamsExactly | raauth.py:138-141 | the safelisted parameters are exactly the allowed keys present in the body, with the body's values |
| Gateway.SafeParams | raauth.py:138-141 | stated by Gateway.SafeParamsExactly and Gateway.CopyAllowedParams |
| Gateway.CopyAllowedParams | raauth.py:138-141 | the loop builds exactly the safelisted parameters |
| Gateway.ForwardedParamsAllowed | raauth.py:34-43 | forwarded parameters are the action's allowed keys present in the body; an action without an entry forwards none |
| Gateway.AfterFirstSpaceSplits | raauth.py:68-69 | the token is what follows the first space, and there is none exactly when the header has no space |
| Gateway.BearerToken | raauth.py:68-71 | a "Bearer " header yields the text after it |
| Gateway.Serve | raauth.py:59-174 | the endpoint answers as the specification function does |
| Gateway.Respond | raauth.py:65-174 | stated by Gateway.MissingInputFirst, Gateway.BearerRequired, Gateway.GatewayStatus, Gateway.VerificationFailures and Gateway.RelayedAnswersPayload |
| Gateway.Decide | raauth.py:59-174 | stated by Gateway.Serve, the endpoint proved against it, and the lemmas on Gateway.Respond |
| Gateway.MissingInputFirst | raauth.py:65-67 | 400 for missing input exactly when the header, service or action is empty |
| Gateway.BearerRequired | raauth.py:68-69 | 400 for the scheme exactly when the header does not start with "Bearer " |
| Gateway.GatewayStatus | raauth.py:59-174 | refusals are 400, 401, 403, 500 or 502 |
| Gateway.VerificationFailures | raauth.py:169-174 | an expired token is 401 and any other verification failure 403 |
| Gateway.RelayedAnswersPayload | raauth.py:143-167 | a relayed answer is the data plane's answer to the payload of the verified claims, the action, the granted appCode and the safelisted parameters |
| Protocol.IssuedTokensRefused | authorization_server.py:41-47 | every token the issuer mints is refused by the gateway with 403 for its issuer |
| Protocol.EligibleIsEnabled | raauth.py:127-133 | a user the gateway counts is enabled for the data plane |
| Protocol.EligibleDescribedIsVisible | raauth.py:127-133 | a counted user whose checked role has a description is visible on the data plane |
| Protocol.EligibleButNotVisible | raauth.py:127-133 | a user the gateway counts can be invisible on the data plane |
| Protocol.VisibleButNotEligible | resource_server.py:59-71 | a user the data plane shows can be uncounted by the gateway |
| Protocol.SafelistNamesKnownActions | raauth.py:34-43 | the safelist names exactly the actions the data plane knows |
| Protocol.SameDocumentOnBothSides | resource_server.py:143-150 | for a clean string appCode and audience the data plane loads the document the gateway checked |
| Protocol.IntToStringStripped | resource_server.py:143 | `str()` of an integer has no white space at either end, so stripping keeps it |
| Protocol.NumericAppCodeMissesDocument | resource_server.py:143-152 | for any integer appCode and any stripped service code, the data plane reads the appCode back as its decimal text and answers 404 for a document stored under the number, which is where the gateway found it |

## Left out

- HTTP and Flask routing, request parsing and JSON rendering: a request is a decoded value and a response a datatype with its status.
- MongoDB: the `serviceRole` collection is a map from (appCode, service code) to the document, and `clients` is a list of profiles; `find_one` with a query on array fields is not modelled.
- Token signing and verification (PyJWT, RS256, the JWKS client, audience and expiry checks): the verification outcome is a parameter of the gateway; PEM key loading is not modelled.
- The clock: the token endpoint takes the current time as an argument.
- Logging in the gateway.
- The forward's timeout, and its fallback to `{"raw": text}` when the data plane's body is not JSON: the forward is a parameter that either delivers a status and body or fails.
- CSV quoting and the byte encoding of the export: the export is modelled as its rows of fields.
- Python's full Unicode `strip`, `upper` and `lower`: the model uses the ASCII white space and case maps.
- Floating-point numbers, and `int()` of a numeric string for page and size: a page or size that is not an integer is answered 500.
- The text of `str()` for dicts and lists, and the message text of `str(e)` in error bodies.
- Documents whose `utenti` is not a list of dicts, or whose `ruoli` is not a list of dicts: the Python handler raises on those.
- Deep `==` between nested dicts and lists is approximated by the model's `PyEq`.
- The shallow copy in `upsert_role_on_user`: the merged role is written back into the list, so sharing the old dict is not observable.
- Request bodies that are not JSON objects, at all three endpoints. At `/data`, a non-dict body, a null or non-dict `claims` or a truthy non-dict `params` (resource_server.py:140-145, 159-160, 194, 205) raises, which Flask answers with 500. At `/gateway`, a truthy body that is not an object raises on `body.get` outside the `try` (raauth.py:61-63), again a 500. At `/token`, `request.json` refuses a missing or non-JSON body before `token()` decides (a 415 or 400 from Flask), and a truthy non-object raises on `data.get` (authorization_server.py:29-30). `DataRequest`, `Gateway.Request` and `Issuer.Token` take the body as a dict, so the model covers only object bodies.
- Concurrency: each `/data` request is one atomic step on the store. The handler loads the document (resource_server.py:150) and later replaces the whole `utenti` array (resource_server.py:235), so two concurrent writes to one document can lose an update; the model does not capture this interleaving.
- client.py, the demo client, is not part of this model.
- DataPlane.ListResponse: its ensures lists only the three possible answers; when it fails is stated, in both directions, by DataPlane.ListFailureIsRaise.
