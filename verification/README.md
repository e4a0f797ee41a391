# PALETTO digital business cards: a verified model of the member and admin logic

PALETTO publishes one business card per team member. This project models the logic
behind the cards in Dafny: the data, the lists and the admin gate.

- **Roster and id slugging** (`types.dfy`, `text.dfy`, `member_ids.dfy`, `roster.dfy`,
  `seed_roster.dfy`).
  - A card is a `Member`: an id plus `Details`.
  - The social links are a map from the four platforms to URLs.
  - The JavaScript string primitives are modelled exactly for the characters they
    touch here:
    - the white-space class `\s`;
    - `trim`;
    - `toLowerCase` on ASCII letters.
  - The id generator has two variants:
    - the browser store's, which keeps `[a-z0-9-]`;
    - the API's, which also keeps Hangul syllables.
  - Base-36 clock rendering follows section 21.1.3.6 of ECMA-262.
  - The built-in six-member roster is modelled with `getMemberById`.
- **Browser member store** (`member_store.dfy`). The class `Store` holds the one
  stored blob (`Absent`, `Empty`, `Malformed` or `Stored(list)`) and whether a
  browser window exists. Its methods read, seed and overwrite the blob as
  `src/lib/memberStore.ts` does.
- **Members API** (`members_api.dfy`). The three tables (`members`, `skills`,
  `social_links`) are insertion-ordered sequences held by the class `Database`.
  - GET is the pure join `Join`.
  - POST is a method that appends rows one INSERT at a time. Its parameter `budget`
    is how many statements the connection executes before failing, so a mid-way
    failure leaves the rows inserted before it.
  - The headline result is the round trip: GET after POST returns the card, minus
    its department and its falsy links.
- **Admin dashboard** (`admin_dashboard.dfy`). The class `AdminDashboard` holds:
  - the roster on display;
  - the modal flag;
  - the edited member;
  - the form;
  - the skill input;
  - the pending delete confirmation.

  Its handlers call the browser store.
- **Password gate**.
  - `auth_route.dfy` models the server's login and password rotation. bcrypt is a
    pair of functions fixed per server, and the predicate `Sound` states
    `compare(p, hash(p, salt))`.
  - `auth_context.dfy` models the client session flag mirrored in the stored token.

These become parameters:
- the millisecond clock (`now`);
- the bcrypt salt;
- whether a window exists;
- whether the settings query and the upsert reach the database (`lookupOk`, `writeOk`);
- the statement budget of the members connection.

Facts about the code that the model keeps:
- POST inserts every skill, empty and repeated ones included
  (`src/app/api/members/route.ts:71-78`).
- Neither POST nor GET carries `department`
  (`src/app/api/members/route.ts:15-25,53-68`).
- The API slug keeps Hangul syllables, so a name such as 김민준 gives an id that starts
  with 김민준 (`src/app/api/members/route.ts:107`).
- Nothing enforces one social row per platform. GET lets the last row win
  (`src/app/api/members/route.ts:29-31`).

## Model

| member | source | states |
|---|---|---|
| Types.Truthy | src/app/api/members/route.ts:81-91 | the platforms kept are exactly those whose URL is present and non-empty, each with its URL |
| Text.TrimStart | src/components/AdminDashboard.tsx:104 | the leading half of `trim`; specified by `TrimStartIsSuffix`, `TrimStartAllSpace` and `TrimStartEmpty` |
| Text.TrimEnd | src/components/AdminDashboard.tsx:104 | the trailing half of `trim`; specified by `TrimEndIsPrefix` and `TrimEndEmpty` |
| Text.Trim | src/components/AdminDashboard.tsx:104 | `String.prototype.trim`; specified by `TrimSpec` and `TrimIdempotent` |
| MemberIds.CollapseSpaces | src/lib/memberStore.ts:56 | `replace(/\s+/g, '-')`; specified by `CollapseRun` and `CollapseNoSpace` |
| MemberIds.Strip | src/app/api/members/route.ts:107 | `replace(/[^...]/g, '')` for either class; specified by `StripKeeps`, `StripAllKept` and `StripNoneKept` |
| MemberIds.Slug | src/lib/memberStore.ts:56 | the id prefix: lowercase, collapse white space, strip; specified by `SlugChars`, `SlugIdempotent` and `HangulName` |
| MemberIds.StoreSlug | src/lib/memberStore.ts:56 | the browser store's id prefix, the `[a-z0-9-]` slug; specified by `HangulName` |
| MemberIds.RouteSlug | src/app/api/members/route.ts:104-107 | the API's id prefix, which also keeps Hangul syllables; specified by `HangulName` |
| MemberIds.GenerateId | src/app/api/members/route.ts:103-110 | slug, hyphen, base-36 clock; specified by `GeneratedIdDecodes` and `GeneratedIdInjective` |
| MemberStore.GenerateMemberId | src/lib/memberStore.ts:55-59 | the browser store's generator, the `[a-z0-9-]` variant of `GenerateId` |
| Roster.FindById | src/data/members.ts:127 | `find` by id; specified by `FindByIdSpec` |
| Roster.ReplaceById | src/lib/memberStore.ts:38 | `map` replacing the members with the id; specified by `ReplaceByIdSpec` |
| Roster.RemoveById | src/lib/memberStore.ts:45 | `filter` dropping the members with the id; specified by `RemoveByIdMembers` and `RemoveByIdAppend` |
| MemberStore.Store.Current | src/lib/memberStore.ts:5-22 | the roster a read returns in the current state: the seed on the server or for a blob that is not a stored list |
| MembersApi.SkillsOf | src/app/api/members/route.ts:26-28 | a card's skills; specified by `SkillsOfAppend`, `SkillsOfNone` and `SkillsOfRows` |
| MembersApi.SocialsOf | src/app/api/members/route.ts:29-30 | a card's social rows; specified by `SocialsOfAppend`, `SocialsOfNone` and `SocialsOfAll` |
| MembersApi.FoldSocial | src/app/api/members/route.ts:31 | the social reduce; specified by `FoldSocialLastWins` and `FoldSocialAppend` |
| MembersApi.ToMember | src/app/api/members/route.ts:15-32 | the card of one profile row; specified by `ToMemberUnaffected` and `PostedCard` |
| MembersApi.Join | src/app/api/members/route.ts:15-32 | the GET body; specified by `JoinSpec`, `JoinAppend` and `JoinUnaffected` |
| MembersApi.Database.Listing | src/app/api/members/route.ts:6-34 | the body of a successful GET over the tables' current state; specified by `PostThenList` |
| MembersApi.ProfileRow | src/app/api/members/route.ts:53-68 | the profile INSERT, with no department; its effect on GET is in `PostedCard` |
| MembersApi.LinkRow | src/app/api/members/route.ts:84-89 | the INSERT for one platform when its URL is truthy; specified by `FoldLinkRow` |
| MembersApi.SocialRows | src/app/api/members/route.ts:81-91 | the social INSERTs in platform order; specified by `SocialRowsSpec` and `FoldSocialRows` |
| Dashboard.EmptyForm | src/components/AdminDashboard.tsx:20-33 | `emptyMember`: empty texts, an empty department, no skills, no links, the default avatar and gradient |
| AuthRoute.AuthServer.Accepts | src/app/api/auth/route.ts:15-36 | the acceptance chain shared by login and password change; specified by `Login`, `ChangePassword`, `LookupFailure`, `RotationKeepsFallback` and `RotationAcceptsNew` |
| Text.LowerChar | src/lib/memberStore.ts:56 | an ASCII capital becomes the small letter at the same position, other characters are kept, and white space is preserved both ways |
| Text.Lower | src/lib/memberStore.ts:56 | lowercasing keeps the length and maps each character by `LowerChar` |
| Text.TrimStartIsSuffix | src/components/AdminDashboard.tsx:104 | trimming the start drops an all-white-space prefix and leaves text that does not start with white space |
| Text.TrimEndIsPrefix | src/components/AdminDashboard.tsx:104 | trimming the end drops an all-white-space suffix and leaves text that does not end with white space |
| Text.TrimStartAllSpace | src/components/AdminDashboard.tsx:104 | all-white-space text trims to nothing |
| Text.TrimStartEmpty | src/components/AdminDashboard.tsx:104 | text whose start trims to nothing is all white space |
| Text.TrimEndEmpty | src/components/AdminDashboard.tsx:104 | text whose end trims to nothing is all white space |
| Text.TrimSpec | src/components/AdminDashboard.tsx:104 | `trim` is empty iff the input is all white space; otherwise it neither starts nor ends with white space |
| Text.TrimIdempotent | src/components/AdminDashboard.tsx:104 | trimming twice equals trimming once |
| MemberIds.DigitChar | src/lib/memberStore.ts:57 | every digit value below 36 renders as a base-36 digit character |
| MemberIds.DigitValue | src/lib/memberStore.ts:57 | reading a digit character back gives a value below 36 that renders as the same character |
| MemberIds.Base36 | src/lib/memberStore.ts:57 | the rendering of the clock is non-empty, made of base-36 digits, with no leading zero for a positive clock |
| MemberIds.Base36RoundTrip | src/app/api/members/route.ts:108 | parsing the base-36 rendering of a clock gives the clock back |
| MemberIds.GeneratedIdDecodes | src/lib/memberStore.ts:55-59 | a generated id ends in the base-36 clock after the last hyphen, preceded by the slug of the name |
| MemberIds.GeneratedIdInjective | src/app/api/members/route.ts:103-110 | equal generated ids come from the same millisecond and the same slug |
| MemberIds.StripKeeps | src/lib/memberStore.ts:56 | after removing disallowed characters, every character left is one the variant keeps |
| MemberIds.SlugChars | src/lib/memberStore.ts:56 | a slug holds only kept characters, so no white space and no upper-case letter |
| MemberIds.StripAllKept | src/lib/memberStore.ts:56 | removing disallowed characters from text with none changes nothing |
| MemberIds.StripNoneKept | src/lib/memberStore.ts:56 | removing disallowed characters from text made only of them leaves nothing |
| MemberIds.CollapseNoSpace | src/lib/memberStore.ts:56 | text without white space passes `replace(/\s+/g, '-')` unchanged |
| MemberIds.CollapseRun | src/lib/memberStore.ts:56 | one run of white space becomes exactly one hyphen |
| MemberIds.LowerNoUpper | src/lib/memberStore.ts:56 | text without ASCII capitals lowercases to itself |
| MemberIds.SlugFixedPoint | src/lib/memberStore.ts:56 | text made only of kept characters is its own slug |
| MemberIds.SlugIdempotent | src/lib/memberStore.ts:56 | applying the slug transform twice equals applying it once |
| MemberIds.HangulName | src/lib/memberStore.ts:55-59 | a Hangul-only name has an empty store slug, so its store id begins with `-`; the API slug keeps the name whole |
| Roster.FindByIdSpec | src/data/members.ts:126-128 | `find` yields nothing iff no member has the id; otherwise the first member with the id |
| Roster.ReplaceByIdSpec | src/lib/memberStore.ts:38 | `map` keeps the length, replaces every member with the id and keeps every other member in place |
| Roster.ReplaceAbsentId | src/lib/memberStore.ts:36-41 | updating an absent id changes nothing |
| Roster.ReplaceBySelf | src/lib/memberStore.ts:38 | replacing the id's members by a member equal to each of them changes nothing |
| Roster.RemoveByIdMembers | src/lib/memberStore.ts:45 | `filter` keeps exactly the members without the id |
| Roster.RemoveByIdAppend | src/lib/memberStore.ts:45 | removal distributes over concatenation, so the order of the rest is kept |
| Roster.RemoveAbsentId | src/lib/memberStore.ts:43-48 | deleting an absent id changes nothing |
| Roster.RemoveByIdIdempotent | src/lib/memberStore.ts:43-48 | after a delete no member has the id, and deleting again changes nothing |
| SeedRoster.TeamMembers | src/data/members.ts:21-124 | the six built-in cards, without department; specified by `SeedIdsDistinct`, `SeedSkillsWellFormed` and `SeedLookup` |
| SeedRoster.GetMemberById | src/data/members.ts:126-128 | the result has the queried id and is a roster member; there is no result iff no member has the id |
| SeedRoster.SeedIdsDistinct | src/data/members.ts:21-124 | the six built-in ids are pairwise distinct |
| SeedRoster.SeedSkillsWellFormed | src/data/members.ts:21-124 | every built-in member has a non-empty skill list without duplicates |
| SeedRoster.SeedLookup | src/data/members.ts:126-128 | every built-in id finds its own card |
| MemberStore.Store.GetStoredMembers | src/lib/memberStore.ts:5-22 | returns the seed on the server or for an absent, empty or malformed blob; seeds only an absent or empty blob in the browser; a later read returns the same list |
| MemberStore.Store.SaveMembers | src/lib/memberStore.ts:24-27 | the blob becomes the list in the browser and is untouched on the server |
| MemberStore.Store.AddMember | src/lib/memberStore.ts:29-34 | returns the previous list with the member appended; the blob holds the returned list in the browser |
| MemberStore.Store.UpdateMember | src/lib/memberStore.ts:36-41 | returns the previous list with every member of that id replaced; the blob holds the returned list in the browser |
| MemberStore.Store.DeleteMember | src/lib/memberStore.ts:43-48 | returns the previous list without the members of that id; the blob holds the returned list in the browser |
| MemberStore.Store.GetMemberById | src/lib/memberStore.ts:50-53 | the first stored member with the id, none iff no member has it; the roster is unchanged, and the blob changes only when an absent or empty one is seeded in the browser |
| MemberStore.MalformedThenAdd | src/lib/memberStore.ts:12-16 | a malformed blob survives reads that return the seed, and an add then stores the seed plus the new member |
| MemberStore.AbsentThenReadTwice | src/lib/memberStore.ts:19-21 | the first read with nothing stored writes the seed, and a second read returns the same list |
| MemberStore.ServerIgnoresWrites | src/lib/memberStore.ts:6-8 | on the server a delete works on the seed, the blob is never written and reads keep returning the seed |
| MemberStore.DeleteTwice | src/lib/memberStore.ts:43-48 | deleting twice leaves the same list as deleting once, with no member of that id |
| MembersApi.JoinSpec | src/app/api/members/route.ts:8-34 | GET gives one card per profile row, in row order, with the row's id and no department |
| MembersApi.JoinIgnoresDepartment | src/app/api/members/route.ts:15-25 | profile rows that differ only in the department give the same GET body |
| MembersApi.SkillsOfAppend | src/app/api/members/route.ts:26-28 | selecting a card's skill rows distributes over concatenation, so its skills come in row order with duplicates kept |
| MembersApi.SocialsOfAppend | src/app/api/members/route.ts:29-30 | the social rows of a card are selected in row order |
| MembersApi.FoldSocialLastWins | src/app/api/members/route.ts:29-31 | a platform is in the social map iff some matching row names it, and the last such row's URL wins |
| MembersApi.FoldSocialAppend | src/app/api/members/route.ts:31 | the social map is a left fold over the rows |
| MembersApi.SkillRows | src/app/api/members/route.ts:71-78 | POST writes one skill row per skill, in array order, unfiltered |
| MembersApi.SocialRowsOfAppend | src/app/api/members/route.ts:83-90 | the social rows of a list of platforms are those of each platform in list order |
| MembersApi.SocialRowsUnfold | src/app/api/members/route.ts:82 | the social rows follow github, linkedin, twitter, instagram |
| MembersApi.SocialRowsSpec | src/app/api/members/route.ts:81-91 | POST writes rows only for truthy URLs, under the new id, at most four, and one for every truthy platform |
| MembersApi.SocialRowsStep | src/app/api/members/route.ts:83-90 | each platform in turn extends the rows inserted so far by its own row, as a prefix of all rows |
| MembersApi.SkillsOfRows | src/app/api/members/route.ts:26-28 | the skill rows of one POST give back exactly its skills for its id, and nothing for any other id |
| MembersApi.SkillsOfNone | src/app/api/members/route.ts:27 | rows for other ids give no skills |
| MembersApi.SocialsOfNone | src/app/api/members/route.ts:30 | rows for other ids give no links |
| MembersApi.SocialsOfAll | src/app/api/members/route.ts:30 | rows all for the id are all selected |
| MembersApi.FoldLinkRow | src/app/api/members/route.ts:84-88 | folding one platform's row sets that platform exactly when its URL is truthy |
| MembersApi.FoldSocialRows | src/app/api/members/route.ts:29-31 | folding the rows POST writes gives the input social map without falsy URLs |
| MembersApi.ToMemberUnaffected | src/app/api/members/route.ts:15-32 | rows added for another id do not change a card |
| MembersApi.JoinUnaffected | src/app/api/members/route.ts:15-32 | rows added for a new id leave every existing card unchanged |
| MembersApi.JoinAppend | src/app/api/members/route.ts:15 | a profile row appended gives one card appended |
| MembersApi.PostedCard | src/app/api/members/route.ts:15-32 | the rows of one POST rebuild the card with the same skills and its truthy links |
| MembersApi.PostThenGet | src/app/api/members/route.ts:15-91 | on tables without the id, GET after POST returns the earlier cards followed by the posted card minus department and falsy links |
| MembersApi.ChooseId | src/app/api/members/route.ts:50 | POST uses a truthy `body.id`, otherwise an id generated from the name at `now` |
| MembersApi.Database.Post | src/app/api/members/route.ts:45-101 | a taken id writes nothing and answers 500; otherwise the profile row, then a prefix of the skill rows, then a prefix of the social rows are appended as far as the connection gets; 201 with the id only when all run |
| MembersApi.Database.InsertSkills | src/app/api/members/route.ts:71-78 | appends the skill rows in order as far as the connection gets, and succeeds iff all were inserted |
| MembersApi.Database.InsertSocials | src/app/api/members/route.ts:81-91 | appends the social rows in platform order as far as the connection gets, and succeeds iff all were inserted |
| MembersApi.PostThenList | src/app/api/members/route.ts:45-101 | on a working connection and tables without the id, POST answers 201 and the listing gains the posted card at the end |
| Dashboard.WithSkill | src/components/AdminDashboard.tsx:103-111 | a non-blank trimmed input ends up in the list; a blank or already-listed one changes nothing; nothing else is added; the old list is a prefix; no duplicates stays no duplicates |
| Dashboard.WithSkillIdempotent | src/components/AdminDashboard.tsx:103-111 | adding the same input twice equals adding it once |
| Dashboard.WithoutSkill | src/components/AdminDashboard.tsx:113-118 | the remaining skills are exactly those different from the removed one, and an absent skill changes nothing |
| Dashboard.WithoutSkillAppend | src/components/AdminDashboard.tsx:116 | removal distributes over concatenation, so the order of the rest is kept |
| Dashboard.WithoutSkillDistinct | src/components/AdminDashboard.tsx:116 | removal keeps a list free of duplicates |
| Dashboard.AddThenRemoveSkill | src/components/AdminDashboard.tsx:103-118 | adding a new skill and then removing it restores the list |
| Dashboard.WithLink | src/components/AdminDashboard.tsx:428-449 | typing a value into a platform's link sets it, an empty value drops the key, and other platforms are kept |
| Dashboard.AdminDashboard.constructor | src/components/AdminDashboard.tsx:37-46 | mounting starts with a closed modal and the empty form, and loads the store's roster |
| Dashboard.AdminDashboard.OpenModal | src/components/AdminDashboard.tsx:48-70 | the modal opens on a copy of every non-id field of the member, or on the empty form |
| Dashboard.AdminDashboard.CloseModal | src/components/AdminDashboard.tsx:72-77 | the modal closes and the form, the edited member and the skill input are reset |
| Dashboard.AdminDashboard.Submit | src/components/AdminDashboard.tsx:79-95 | edit mode replaces the cards of the edited id with the form under that id; create mode appends the form under a generated id; the display equals the store and the modal is closed |
| Dashboard.AdminDashboard.Delete | src/components/AdminDashboard.tsx:97-101 | the cards of the id are dropped from the store and the display, and the confirmation closes |
| Dashboard.AdminDashboard.RequestDelete | src/components/AdminDashboard.tsx:187 | asks for confirmation of that id and changes nothing else |
| Dashboard.AdminDashboard.CancelDelete | src/components/AdminDashboard.tsx:179 | drops the confirmation and changes nothing else |
| Dashboard.AdminDashboard.TypeSkill | src/components/AdminDashboard.tsx:343 | sets the skill input and nothing else |
| Dashboard.AdminDashboard.EditName | src/components/AdminDashboard.tsx:257 | sets the form's name and nothing else |
| Dashboard.AdminDashboard.EditLink | src/components/AdminDashboard.tsx:428-449 | updates one platform of the form's links and nothing else |
| Dashboard.AdminDashboard.AddSkill | src/components/AdminDashboard.tsx:103-111 | the form's skills become `WithSkill` of the input; an accepted skill clears the input and a rejected one changes nothing |
| Dashboard.AdminDashboard.RemoveSkill | src/components/AdminDashboard.tsx:113-118 | the form's skills become `WithoutSkill` of the skill |
| Dashboard.EditWithoutChanges | src/components/AdminDashboard.tsx:48-95 | in the browser, whatever the blob was, editing a card whose id is unique and submitting it unchanged leaves the roster as it was and stores it |
| Dashboard.CreateThenDelete | src/components/AdminDashboard.tsx:79-101 | a created card goes to the end under its generated id, and deleting that id restores the roster |
| AuthRoute.AuthServer.Fallback | src/app/api/auth/route.ts:63 | a non-empty `ADMIN_PASSWORD` is the fallback, otherwise `paletto2024` |
| AuthRoute.AuthServer.Login | src/app/api/auth/route.ts:10-55 | login succeeds iff the password is the fallback, or the query succeeds, a hash is stored and bcrypt matches; nothing is written |
| AuthRoute.AuthServer.ChangePassword | src/app/api/auth/route.ts:58-114 | a wrong current password answers 401 and a failed upsert 500, both with the settings unchanged; otherwise the hash of the new password is upserted under `admin_password_hash` |
| AuthRoute.AuthServer.RotationKeepsFallback | src/app/api/auth/route.ts:32-36 | the fallback password is still accepted after a rotation |
| AuthRoute.AuthServer.RotationAcceptsNew | src/app/api/auth/route.ts:24 | with sound bcrypt and a working query, the new password is accepted after a rotation |
| AuthRoute.AuthServer.LookupFailure | src/app/api/auth/route.ts:26-36 | when the query fails, a password is accepted iff it is the fallback |
| AuthRoute.AuthServer.RotationIsUpsert | src/app/api/auth/route.ts:93-97 | the upsert creates or overwrites the hash setting and keeps every other setting |
| AuthRoute.RotateThenLogin | src/app/api/auth/route.ts:10-114 | after a valid rotation, both the new password and the fallback log in |
| AuthSession.AuthProvider.constructor | src/context/AuthContext.tsx:16-25 | on mount the flag is set iff the stored token is exactly `authenticated` |
| AuthSession.AuthProvider.Login | src/context/AuthContext.tsx:27-34 | login succeeds iff the password is `paletto2024`, setting the flag and the token; failure changes nothing |
| AuthSession.AuthProvider.Logout | src/context/AuthContext.tsx:36-39 | from any state the flag is cleared and the token removed |
| AuthSession.LoginThenRemount | src/context/AuthContext.tsx:19-34 | after a reload the provider is an admin iff the login succeeded or the token already said so |
| AuthSession.LogoutThenRemount | src/context/AuthContext.tsx:19-39 | logging out is idempotent, and a reload afterwards is not an admin |

## Left out

- Text.Lower: models `toLowerCase` for ASCII letters only. Other characters, including
  non-ASCII capitals, are kept unchanged.
- Strings are sequences of Unicode scalar values, not UTF-16 code units. The slug
  regular expressions and `trim` give the same result on both views.
- JSON text is not modelled. A stored blob is `Absent`, `Empty`, `Malformed` or a list.
  A well-formed blob that is not an array of cards (`null`, a number) is not modelled.
- Request bodies are taken as already parsed, and a missing `id`, `skills` or `social`
  is the empty value the guards at `src/app/api/members/route.ts:50,71,81` treat it as.
  Two failures before any INSERT are not modelled: a body that is not JSON, and a body
  with neither `id` nor `name` (`src/app/api/members/route.ts:104-105`). Neither is the
  driver's handling of profile fields missing from the body.
- A failed connection during members GET answers 500. This is not modelled: GET is a
  function of the tables.
- The SQL text, the driver, `created_at` ordering and the pool (`src/lib/db.ts`) are not
  modelled. Tables are sequences in insertion order.
- There are no transactions. POST is a sequence of independent statements, and a
  failure leaves the rows inserted before it.
- bcrypt internals (cost factor, salt generation) are not modelled. `hash` and
  `compare` are opaque functions, and `Sound` is the one property assumed of them.
  Hashing is taken not to fail.
- The login token (a base64 of the clock) is opaque. `LoginResponse.LoggedIn` carries
  no token.
- The admin and login pages, `src/lib/api.ts`, and the member `[id]` route
  (single-member GET, PUT and DELETE with child-row replacement) are not part of this
  model.
- `src/app/admin/page.tsx` expects an `isLoading` flag and an asynchronous `login` that
  the session context does not provide. That mismatch is not modelled.
- Rendering is not modelled: cards, animation, the 3D tilt, QR codes, PNG export,
  styling.
- The dashboard's form setters for nameEn, role, department, email, phone, bio, avatar
  and gradients are plain field assignments like `EditName`. They are not modelled one
  by one.
- Another tab changing stored items is not modelled, so `Mirrored` holds only for the
  provider's own operations.
- HTML form validation in front of the dashboard's submit is not modelled: the
  `required` inputs (`src/components/AdminDashboard.tsx:259-332`) stop a submit with an
  empty name, English name, role, department, email, phone or bio before `handleSubmit`
  runs, while `Dashboard.CreateThenDelete` submits such a form. `Dashboard.EditWithoutChanges`
  does too: no built-in card has a department, so the browser would block an unchanged
  edit of one (`src/components/AdminDashboard.tsx:290-294`).
- MembersApi.Database.Post: takes `members.id` to be the primary key of the `members`
  table, so an INSERT of a taken id fails. The schema is not part of this model; without
  that key a second POST with the same id would add a second card.
