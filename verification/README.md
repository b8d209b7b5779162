# timewise core in Dafny

A model of the server-side decision logic of timewise, a personal calendar
application: the event server actions (create, list, update, delete, each guarded
by the session and by event ownership), the route guard that sends signed-in and
signed-out visitors to the right page, and user registration.

Everything is pure functions over explicit state, except `GetEvents`, which
is a method because it has to pick events out of a set.

- `wrappers.dfy` (`Wrappers`): `Option` and `Result`.
- `event_types.dfy` (`EventTypes`): the `Event` record, the `Priority` enum and its
  wire spelling, following `types/Event.ts`.
- `event_actions.dfy` (`EventActions`): the database is a `map` from event id to
  event. The session is an `Option<UserId>` argument. The id and the time the
  database would generate are also arguments. An action that throws in timewise
  returns `Failure(...)` here and yields no new store.
- `event_ownership.dfy` (`EventOwnership`): the actions as steps of a state machine,
  `Apply` and `Run`, with the ownership guarantees over single steps and over
  whole sequences of steps.
- `middleware.dfy` (`Middleware`): the redirect decision `Decide`,
  the path matcher `Matches` and their composition `Route`.
- `registration.dfy` (`Registration`): schema validation, the email-uniqueness check,
  and the insert. Email-format checking (`isEmail`) and password hashing (`hash`)
  are function parameters.

Behaviour of timewise's code worth noting:

- The session check is `!session?.user?.id`, so an empty user id is refused like a
  missing session (`GetUserId`).
- `updateEvent` checks existence and ownership before the form is validated. So a
  foreign or missing event is reported as not found even when the form is also
  invalid.
- In the model, a `None` description stands for an undefined value, which the
  store's update ignores, so the stored description is kept (`Patch`). timewise
  itself refuses a form that omits the field (see Left out).
- The schema does not require the end to come after the start, and it does not
  reject unparseable dates. The model does not add either check.
- The matcher's `favicon.ico` is an unescaped regular expression, so its dot matches
  any character: `/favicon-ico` also bypasses the guard (`FaviconLike`,
  `ExcludedPathsBypassGuard`). The exclusions are prefix tests, so `/apiary`
  bypasses the guard too.
- Registration collects one issue per failing field, in key order, and answers with
  the first. A field missing from the form yields zod's type message, modelled as
  the constant `MissingField`.

## Model

| member | source | states |
|---|---|---|
| EventTypes.ParsePriority | app/actions/events.actions.ts:19 | a priority string is accepted exactly when it spells NORMAL, IMPORTANT or CRITICAL, and the accepted priority is the one it spells |
| EventTypes.ParsePriorityName | app/actions/events.actions.ts:19 | spelling a priority and parsing it back gives the same priority |
| EventActions.GetUserId | app/actions/events.actions.ts:8-12 | the acting user is the session's user id; no session, no user or an empty id is refused as Unauthorized |
| EventActions.EventIssues | app/actions/events.actions.ts:14-20 | there is no issue exactly when the title is a non-empty string, both times are present and the priority spells one of the three names; a field is listed exactly when it fails its check, and the issues come in the schema's key order, each field at most once |
| EventActions.ParseEventData | app/actions/events.actions.ts:14-30 | a form is accepted exactly when it has no schema issue; otherwise the error lists the issues. On success the title is non-empty and the fields are exactly what the form carried (re-encoding them gives back the same form) |
| EventActions.ParseFormOf | app/actions/events.actions.ts:14-30 | round trip: every field set with a non-empty title, submitted as a form, parses back to itself |
| EventActions.EmptyTitleRejected | app/actions/events.actions.ts:15 | a missing or empty title is rejected with a title issue |
| EventActions.UnknownPriorityRejected | app/actions/events.actions.ts:19 | a missing priority, or one outside the three names, is rejected with a priority issue |
| EventActions.Patch | app/actions/events.actions.ts:59-62 | an update writes the title, times and priority, and the description only when one is supplied; id, owner and timestamps are kept |
| EventActions.CreateEvent | app/actions/events.actions.ts:32-40 | succeeds exactly when there is a user, the form is valid and the id is fresh. Without a user it fails with Unauthorized, and on a bad form with the schema's issues. On success exactly one event is added: it is owned by the acting user, has the parsed fields and is stamped now, and every existing event is unchanged |
| EventActions.InsertByStart | app/actions/events.actions.ts:47 | inserting into a start-ordered list keeps it ordered and adds exactly that event |
| EventActions.GetEvents | app/actions/events.actions.ts:42-49 | without a user it fails with Unauthorized. Otherwise it returns a permutation of exactly the acting user's events (no one else's; each stored event once in a store whose events sit under their own ids, which every reachable store is) in ascending start time |
| EventActions.UpdateEvent | app/actions/events.actions.ts:51-65 | succeeds exactly when there is a user, the event exists and is theirs, and the form is valid. A missing or foreign event fails as not found. On success only that event changes, as `Patch` describes, and the key set is unchanged |
| EventActions.DeleteEvent | app/actions/events.actions.ts:67-77 | succeeds exactly when there is a user and the event exists and is theirs. Otherwise it fails (Unauthorized or not found). On success exactly that id is removed and every other event is unchanged |
| EventActions.CreateThenDeleteRestores | app/actions/events.actions.ts:67-77 | deleting, as the same user, the event just created gives back exactly the store before the create |
| EventOwnership.Apply | app/actions/events.actions.ts:51-77 | a failing step, or one without a user, leaves the store unchanged. A surviving event keeps its owner, another user's event is neither changed nor removed, and a new event belongs to the actor |
| EventOwnership.ForeignStepKeepsOwned | app/actions/events.actions.ts:55 | a step by anyone but v leaves v's set of events exactly as it was |
| EventOwnership.ForeignRunKeepsOwned | app/actions/events.actions.ts:71 | any sequence of steps none of which acts as v leaves v's set of events exactly as it was |
| EventOwnership.ApplyKeepsWellKeyed | app/actions/events.actions.ts:32-77 | every step keeps each event filed under its own id |
| EventOwnership.RunKeepsWellKeyed | app/actions/events.actions.ts:32-77 | every sequence of steps keeps each event filed under its own id |
| EventOwnership.InvalidInputWritesNothing | app/actions/events.actions.ts:22-30 | a create or update whose form the schema rejects leaves the store unchanged |
| Middleware.IsAuthPage | middleware.ts:6-7 | the two `startsWith` tests: an auth page starts with /login or /register, so it is slash-led and never the root |
| Middleware.AuthPageNotUnderDashboard | middleware.ts:6-10 | no auth page starts with /dashboard, so the dashboard redirect never lands on an auth page |
| Middleware.Decide | middleware.ts:4-18 | the guard redirects exactly when the login status agrees with being on an auth page, except on the root, and always to the status's home (dashboard or login) |
| Middleware.Route | middleware.ts:20-24 | a path outside the matcher always passes; a matched path gets the guard's decision, so a redirect only happens on a matched path other than the root |
| Middleware.Matches | middleware.ts:20-24 | the anchored lookahead pattern: a guarded path is slash-led |
| Middleware.ExcludedPrefixesUnguarded | middleware.ts:22 | a path starting with /api, /_next/static, /_next/image or /favicon.ico is never guarded |
| Middleware.SlashPrefix | middleware.ts:22 | testing a prefix just after the leading slash is the same as testing the slash-led prefix on the whole path |
| Middleware.MatchesIffNoExcludedPrefix | middleware.ts:22 | a slash-led path is guarded exactly when it starts with none of /api, /_next/static, /_next/image and is not /favicon, any character, ico |
| Middleware.ExcludedPathsBypassGuard | middleware.ts:20-24 | API routes, static assets, images and the icon (and /apiary, /favicon-ico) pass unguarded; /dashboard and / are guarded |
| Middleware.SignedInAuthPageGoesToDashboard | middleware.ts:9-11 | a signed-in request for an auth page is redirected to /dashboard |
| Middleware.SignedOutProtectedGoesToLogin | middleware.ts:13-15 | a signed-out request for a non-auth page other than / is redirected to /login |
| Middleware.SignedOutPublicPasses | middleware.ts:13-17 | a signed-out request for / or an auth page passes |
| Middleware.SignedInElsewherePasses | middleware.ts:9-17 | a signed-in request for a non-auth page passes |
| Middleware.AuthPageIsPrefixTest | middleware.ts:6-7 | /login/x, /registered and /loginhelp count as auth pages; /, /dashboard and /Login do not |
| Middleware.NoRedirectLoop | middleware.ts:9-17 | following a redirect under the same login status passes through |
| Registration.RegisterIssues | app/actions/auth.actions.ts:7-11 | no issue exactly when the name has at least 2 characters, the email is well-formed and the password has at least 6. The first issue is the first failing field's message in key order: the missing-field message, 'Name must be at least 2 characters', 'Invalid email format' or 'Password must be at least 6 characters' |
| Registration.RegisterUser | app/actions/auth.actions.ts:13-55 | every failure is an error answer that leaves the table unchanged. It succeeds exactly when the form is valid, the email is new and the id is free. The answer is the first schema issue, else the duplicate-email message, else 'Registration failed' when the database refuses the id. On success exactly one user is added, storing hash(password), and the answer carries id, email and name only |
| Registration.ShortNameOrPasswordRejected | app/actions/auth.actions.ts:7-19 | a name under 2 or a password under 6 characters is answered with the first failing field's message and creates no user |
| Registration.DuplicateEmailRejected | app/actions/auth.actions.ts:21-29 | an email already on file is answered with 'User with this email already exists' and the table is unchanged |
| Registration.RegisterKeepsEmailsUnique | app/actions/auth.actions.ts:21-39 | registration preserves email uniqueness across users |

## Left out

- Database, session provider, `revalidatePath` and `NextResponse`: foreign calls. The
  database is an explicit map, the session an argument, and the cache
  revalidation has no effect on the model.
- Id generation and creation timestamps: the database chooses them, so they are
  arguments (`newId`, `now`). A clash with an existing id is the database's
  refusal: `DuplicateId` for events, 'Registration failed' for users.
- The `updatedAt` auto-stamp a database schema may add on update: the schema is
  not part of this model, so an update writes only the parsed fields.
- Date parsing: instants are integers, and an unparseable date string is not modelled.
- The difference between a missing description (`null`, which the schema refuses)
  and an absent one (`undefined`): the description is a plain optional string.
- Email-format validation and bcrypt: opaque function parameters. Because bcrypt
  salts randomly, a real hash is not a function of the password alone.
- String lengths are counted in Dafny characters, while the schema counts UTF-16
  code units; they differ only for characters outside the Basic Multilingual Plane.
- Registration.RegisterUser: failures of the database other than an id clash
  (connection errors, a concurrent insert of the same email) are not modelled.
  timewise reports them as 'Registration failed'.
- The non-atomic find-then-write in update and delete, and concurrent requests
  in general: every action is atomic here.
- The matcher's `.*` does not match line terminators; URL pathnames never
  contain raw ones, so the model accepts any character there.
- Next.js matcher details beyond the regular expression (base path, locale
  prefixes, data routes) are not modelled.
