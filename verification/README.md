# Colour manager and project dashboard — a Dafny model

This project models the decision logic of a small full-stack application.

The main part is the **Tailwind colour manager** page (`app/colors/page.tsx`). It has four pieces:

- the hex validator;
- the two maps per palette group: canonical colours, and the text buffers the hex fields show;
- the nine-stop shade generator;
- the generator of the `tailwind.config.ts` colour snippet.

Around it, the model covers:

- the **project dashboard** logic: status badges, form validation, form edits, list updates, filtering and sorting;
- the **projects API** routes, over a store of rows;
- the **sign-in routes**, with their single-use OAuth `state` store;
- the **token and user helpers** of the back end;
- the two **settings validators**.

Every handler and route is a pure function from state to state, or to a `Result`. Things the code cannot see are parameters:

- the colour library (chroma-js) is a `ColorLib` record of three function values;
- JWT encoding and decoding, URL encoding, the clock and `localeCompare` are passed in;
- a network exchange is an abstract outcome.

All properties below hold for every such parameter.

The modules are:

| module | file | models |
|---|---|---|
| `Wrappers` | wrappers.dfy | `Option`, `Result` |
| `JsObject` | js_object.dfy | JavaScript objects and Python dicts as ordered entry lists (insertion order, as `Object.entries` and dict iteration report it) |
| `Text` | text.dfy | `join`, `split`, `includes`, `toLowerCase`, `trim` / `strip` |
| `HexColor` | hex_color.dfy | the validator `/^#([0-9A-Fa-f]{3}){1,2}$/` |
| `Shades` | shades.dfy | `generateShades` |
| `Palette` | palette.dfy | key lists, defaults, the four change handlers, `brandPalette` / `twPalette` |
| `ConfigCode` | config_code.dfy | `semanticColors`, `colorObjectWithDefaultAndForeground`, `JSON.stringify(…, null, 4)`, the quote replacement, `configCode` |
| `Dashboard` | dashboard.dfy | app/dashboard/page.tsx |
| `ProjectsRouter` | projects_router.dfy | backend/app/routers/projects.py |
| `Settings` | settings.dfy | backend/app/core/config.py |
| `CoreAuth` | core_auth.dfy | backend/app/core/auth.py |
| `AuthRouter` | auth_router.dfy | backend/app/routers/auth.py |

Where the design description and the code differ, the model follows the code:

- **Stop "500".** Stop "500" of a ramp is `chroma(base).hex()`, the library's normalised form of the base (lower-case, six digits). It is not the base verbatim, so the model states `lib.hex(base)`.
- **Brand block order.** The brand blocks of the snippet come in the key order of `BRAND_DEFAULTS`: primary, secondary, success, warning, danger, dark, info. The brand card list `BRAND_COLOR_KEYS` is in a different order. The state objects keep the order of `BRAND_DEFAULTS`, and `Object.entries` reports it.
- **Update permissions.** `update_project` has no owner check, although its docstring promises one. See "## Findings".

## Model

| member | source | states |
|---|---|---|
| HexColor.PatternIsGrammar | app/colors/page.tsx:75 | the anchored pattern accepts a string iff it is `#` followed by exactly three or exactly six hex digits, in either case |
| HexColor.PickerValueIsValid | app/colors/page.tsx:172-175 | every value a colour input reports (`#` and six lower-case hex digits) passes the validator |
| JsObject.Set | app/colors/page.tsx:70 | `{ ...prev, [key]: value }` reads `value` at `key`, reads every other key as before, and keeps the key order when the key was present |
| JsObject.SetAppends | app/colors/page.tsx:70 | assigning an absent key appends exactly one entry at the end |
| JsObject.SetKeepsKeysUnique | app/colors/page.tsx:70 | a spread assignment never duplicates a key |
| Palette.TailwindDefaults | app/colors/page.tsx:40-42 | `TAILWIND_DEFAULTS` has one entry per swatch, in swatch-list order, carrying that swatch's default |
| Palette.Init | app/colors/page.tsx:60-67 | canonical map and text buffers both start as the defaults |
| Palette.PickColor | app/colors/page.tsx:69-72 | a picker change sets the canonical value and the buffer of the key to the new value; every other key keeps both, and key order is kept |
| Palette.TypeHex | app/colors/page.tsx:73-78 | typed text always becomes the buffer of the key; the canonical value becomes the text iff it is valid hex, else stays; other keys are unchanged |
| Palette.StepKeepsCanonicalValid | app/colors/page.tsx:69-88 | one picker or text action keeps every canonical colour valid when a picked value is valid |
| Palette.RunKeepsCanonicalValid | app/colors/page.tsx:60-88 | from valid defaults, any sequence of actions the page can emit leaves every canonical colour valid and both maps' key order unchanged |
| Palette.SwatchDefaultsValid | app/colors/page.tsx:19-28 | every swatch default is valid hex |
| Palette.BrandDefaultsValid | app/colors/page.tsx:30-38 | the initial brand state has only valid canonical colours |
| Palette.BrandDefaultsOrder | app/colors/page.tsx:9-38 | the brand defaults are keyed like the brand list with danger/warning and info/dark swapped |
| Palette.TailwindDefaultsValid | app/colors/page.tsx:19-42 | the initial swatch state has only valid canonical colours, keyed in swatch-list order |
| Palette.Ramps | app/colors/page.tsx:90-95 | one ramp per canonical key, in the canonical map's key order |
| Palette.RampsFromCanonicalOnly | app/colors/page.tsx:90-95 | ramps depend on the canonical colours alone; a key has a ramp iff it has a colour, and its stop "500" is the normalised colour |
| Palette.InvalidTextKeepsRamps | app/colors/page.tsx:73-95 | text that fails the validator changes no ramp but still shows in the buffer |
| Palette.PrimaryEditScenario | app/colors/page.tsx:73-78 | primary: typing `#12` changes only the buffer, and typing `#123456` then reaches both maps |
| Shades.GenerateShades | app/colors/page.tsx:44-57 | a ramp has exactly the stops 100…900 in ascending order, and stop 500 is the normalised base |
| Shades.ShadeAmounts | app/colors/page.tsx:46-55 | stop i below 500 brightens by (4-i)/2 and stop i above it darkens by (i-4)/2 |
| Shades.StopBaseIsNormalizedBase | app/colors/page.tsx:51 | reading key "500" of a ramp gives `chroma(base).hex()` |
| Shades.AmountGrowsWithDistance | app/colors/page.tsx:44-57 | the further a stop lies from 500, the larger its brighten or darken amount |
| ConfigCode.ColorObject | app/colors/page.tsx:122-128 | the colour object reads `DEFAULT` as stop "500" and `foreground` as `#FFFFFF`; every other key reads as in the shades |
| ConfigCode.ColorObjectAppends | app/colors/page.tsx:122-128 | without `DEFAULT` and `foreground` among the shades, the two are appended after the shades, in that order |
| ConfigCode.RampColorObject | app/colors/page.tsx:122-128 | for any base, a ramp's colour object is the nine stops ascending, then `DEFAULT` = normalised base, then `foreground` = `#FFFFFF` |
| ConfigCode.SingleQuotesSpec | app/colors/page.tsx:133 | `.replace(/"/g, "'")` keeps the length, leaves no double quote, turns each one into a single quote and changes nothing else |
| ConfigCode.SingleQuotesJoin | app/colors/page.tsx:130-141 | the quote replacement commutes with joining lines |
| ConfigCode.EscapePlain | app/colors/page.tsx:133 | JSON escaping leaves text with no quote, backslash or control character unchanged |
| ConfigCode.StringifyText | app/colors/page.tsx:133 | a non-empty flat object of plain strings, stringified with indent 4 and requoted, is `{`, one `'key': 'value'` line per entry joined by `,\n`, then `}` |
| ConfigCode.BlockText | app/colors/page.tsx:130-135 | the block of a plain ramp is `  key: ` followed by that single-quoted object and a comma |
| ConfigCode.BlocksHaveNoDoubleQuote | app/colors/page.tsx:130-142 | no double quote is left in the blocks of a palette whose keys have none |
| ConfigCode.SnippetShape | app/colors/page.tsx:130-142 | the snippet is `colors: {`, the preamble, all brand blocks and then all swatch blocks one per line, and `}` |
| ConfigCode.BlocksOfRamps | app/colors/page.tsx:90-95 | a group yields one block per canonical colour, in its key order, each the block of that colour's ramp |
| ConfigCode.ConfigForShape | app/colors/page.tsx:98-142 | the page's snippet is the fixed preamble followed by the brand blocks then the swatch blocks, computed from the canonical colours only |
| ConfigCode.BlocksInKeyOrder | app/colors/page.tsx:90-95 | block `i` of a group is the block of its `i`-th key and that key's ramp |
| ConfigCode.ReachableBlocks | app/colors/page.tsx:24-95 | for a group starting from valid defaults, after any actions the page can emit, the colours stay valid and the snippet lists the group's blocks in its default key order, each with the ramp of the current colour |
| ConfigCode.ReachableBrandBlocks | app/colors/page.tsx:24-142 | every snippet the page can show lists the brand blocks in the order of `BRAND_DEFAULTS`, each with the ramp of that colour's current, valid value |
| ConfigCode.ReachableGroup | app/colors/page.tsx:24-95 | for a group starting from valid defaults, after any emitted actions the colours stay valid and block `i` is that of the `i`-th default key with the ramp of its current colour |
| ConfigCode.ReachableSwatchBlocks | app/colors/page.tsx:24-142 | every snippet the page can show ends with the swatch blocks in the order of `TAILWIND_COLOR_KEYS`, each with the ramp of that swatch's current, valid value |
| Text.Split | backend/app/core/config.py:32 | `split(",")` gives one piece per comma plus one, none holds a comma, and joining them with commas restores the string |
| Text.Strip | backend/app/core/config.py:32 | the stripped string is the middle slice left after cutting leading and trailing spaces, and neither of its ends is a space |
| Text.LowerIdempotent | app/dashboard/page.tsx:64 | lowercasing twice is lowercasing once |
| Dashboard.StatusColor | app/dashboard/page.tsx:63-74 | the green badge iff the lowercased status is "active", blue iff "completed", gray for everything else |
| Dashboard.BadgesDistinct | app/dashboard/page.tsx:66-72 | the three badge class strings differ |
| Dashboard.StatusColorIgnoresCase | app/dashboard/page.tsx:63-64 | statuses differing only in letter case get the same badge |
| Dashboard.Validate | app/dashboard/page.tsx:133-154 | valid iff trimmed name, trimmed description and status are non-empty; an error is recorded for exactly the failing fields; valid iff no error |
| Dashboard.ValidIffNotAllSpace | app/dashboard/page.tsx:137-150 | a form passes iff name and description each hold a non-space character and the status is non-empty |
| Dashboard.FormChange | app/dashboard/page.tsx:167-179 | only the edited field changes; its error is cleared iff one was shown, and no other error changes |
| Dashboard.FormChangeSettles | app/dashboard/page.tsx:167-179 | after an edit the edited field shows no error, and repeating the same edit changes nothing more |
| Dashboard.ReplaceById | app/dashboard/page.tsx:187-189 | the mapped list keeps the length, replaces exactly the entries with the id and keeps the rest in place |
| Dashboard.ReplaceThenRemove | app/dashboard/page.tsx:187-189 | replacing an id's entries by a project with that id, then filtering the id out, equals filtering it out of the original list: nothing else is touched |
| Dashboard.RemoveByIdAppend | app/dashboard/page.tsx:252 | removal works piecewise over concatenation, so survivors keep their relative order |
| Dashboard.RemoveByIdCounts | app/dashboard/page.tsx:252 | removal drops every entry with the id and keeps each other entry as often as it occurred |
| Dashboard.Save | app/dashboard/page.tsx:181-208 | nothing happens without an edited project; an invalid form only records its errors; a successful save replaces the entries with the edited id; a failed one keeps the list |
| Dashboard.SaveReplacesOnlyEdited | app/dashboard/page.tsx:182-189 | a successful save keeps length and order, every entry with the edited id becomes the server's project, and when that project keeps the id, the list without the id is exactly the list before the save |
| Dashboard.Create | app/dashboard/page.tsx:210-239 | an invalid form only records errors; success appends the new project last and resets the form; failure keeps list and form |
| Dashboard.CreateTwiceNeedsInput | app/dashboard/page.tsx:210-221 | after a successful create, the reset form fails validation on name and description only, so a second create adds nothing |
| Dashboard.CanDelete | app/dashboard/page.tsx:563 | the delete control shows only on a project whose owner is the signed-in user |
| Dashboard.ClickDelete | app/dashboard/page.tsx:241-244 | a project is marked for deletion only through its visible control; the list is untouched |
| Dashboard.DeleteConfirm | app/dashboard/page.tsx:246-270 | without a marked project, or when the call fails, nothing changes; otherwise the entries with its id are removed |
| Dashboard.DeleteOnlyOwn | app/dashboard/page.tsx:241-252 | a click followed by a confirm removes only entries sharing the clicked project's id, and only when the user owns it |
| Dashboard.Filter | app/dashboard/page.tsx:273-279 | every kept project matches the search and the status filter |
| Dashboard.FilterCounts | app/dashboard/page.tsx:273-279 | every matching project is kept as often as it occurs, and no other |
| Dashboard.FilterAppend | app/dashboard/page.tsx:273-279 | filtering works piecewise, so kept projects stay in their original order |
| Dashboard.EmptyQueryKeepsAll | app/dashboard/page.tsx:275-277 | an empty query with filter "all" keeps the list as it is |
| Dashboard.QueryIgnoresCase | app/dashboard/page.tsx:275-276 | the search does not depend on the query's letter case |
| Dashboard.ComparatorsReversed | app/dashboard/page.tsx:280-293 | name-desc is name-asc reversed, and newest is oldest reversed |
| Dashboard.ComparatorIsTotalPreorder | app/dashboard/page.tsx:280-293 | each sort key's comparator is total and transitive when the name order is |
| Dashboard.Insert | app/dashboard/page.tsx:280 | insertion adds exactly the one project |
| Dashboard.Sort | app/dashboard/page.tsx:280-293 | sorting is a permutation |
| Dashboard.SortSorted | app/dashboard/page.tsx:280-293 | the sorted list is ordered by the comparator |
| Dashboard.View | app/dashboard/page.tsx:273-293 | the view is a permutation of the filtered list |
| Dashboard.ViewSpec | app/dashboard/page.tsx:273-293 | the view is ordered by the chosen key and holds each project as often as it occurs if it matches, else not at all |
| ProjectsRouter.OwnedBy | backend/app/routers/projects.py:27-28 | every selected row belongs to the user |
| ProjectsRouter.OwnedByCounts | backend/app/routers/projects.py:27-28 | every row of the user is selected as often as it occurs, and no other |
| ProjectsRouter.Paginate | backend/app/routers/projects.py:31 | the page holds min(limit, rows after skip) rows, the i-th being row skip+i |
| ProjectsRouter.PagesConcatenate | backend/app/routers/projects.py:31 | over one fixed row order, two consecutive pages together are the page covering both |
| ProjectsRouter.ReadProjects | backend/app/routers/projects.py:12-35 | at most `limit` rows; with a non-empty `user_id`, the window `skip`/`limit` of exactly that user's rows, taken in the model's fixed scan order |
| ProjectsRouter.ReadProjectsDefaults | backend/app/routers/projects.py:13-19 | a listing that sends neither `skip` nor `limit` gets skip 0 and limit 100: the first hundred rows and no more |
| ProjectsRouter.ReadProjectsOfUser | backend/app/routers/projects.py:24-35 | with skip 0 and a limit covering the table, a user's listing holds each of their rows as often as it is stored, and nothing else |
| ProjectsRouter.ReadProjectsUnfiltered | backend/app/routers/projects.py:24-31 | without a (non-empty) `user_id` it pages through all rows; skip 0 with a large limit returns them all |
| ProjectsRouter.CreateProject | backend/app/routers/projects.py:38-56 | the new row takes the body's name and description, its status or else "active" (the field default at backend/app/models/project.py:13), is owned by the caller whatever the body says, and is added to the store |
| ProjectsRouter.CreateThenRead | backend/app/routers/projects.py:38-76 | with a fresh id the primary key still holds and the new row reads back as created |
| ProjectsRouter.ReadProject | backend/app/routers/projects.py:59-76 | 404 "Project not found" iff no row has the id; otherwise a stored row with that id |
| ProjectsRouter.ReadProjectUnique | backend/app/routers/projects.py:68-76 | with the primary key holding, the row read is the one carrying the id |
| ProjectsRouter.Patch | backend/app/routers/projects.py:99-101 | exactly the fields set in the body change; id, owner and timestamps are kept |
| ProjectsRouter.PatchIdempotent | backend/app/routers/projects.py:99-101 | patching twice with one body equals patching once; an empty body changes nothing |
| ProjectsRouter.UpdateProject | backend/app/routers/projects.py:79-107 | as written: 404 with the store unchanged for an unknown id; otherwise the row is replaced by its patch and returned, whoever the caller is |
| ProjectsRouter.OwnerUpdateProject | backend/app/routers/projects.py:87-88 | as the route documents: 404 for an unknown id, 403 with the store unchanged when the caller is not the owner, otherwise the owner's row is replaced by its patch |
| ProjectsRouter.OwnerUpdateTouchesOnlyOwn | backend/app/routers/projects.py:87-88 | with the owner check, rows of other users never change, and for the owner the result is the unchecked update |
| ProjectsRouter.UpdateIgnoresOwner | backend/app/routers/projects.py:90-107 | the unchecked update renames a row owned by another user, which the checked one refuses with 403 |
| ProjectsRouter.UpdateThenRead | backend/app/routers/projects.py:79-107 | after an update the row reads back patched, every other id reads as before, and ids stay unique |
| ProjectsRouter.DeleteProject | backend/app/routers/projects.py:110-136 | 404 for an unknown id, 403 with the store unchanged when the caller is not the owner, otherwise exactly that row is removed |
| ProjectsRouter.DeleteThenRead | backend/app/routers/projects.py:110-136 | a successful delete was by the owner; the id then reads 404 and every other id reads as before |
| Settings.AssembleCorsOrigins | backend/app/core/config.py:28-35 | a string not opening with `[` becomes its comma-separated pieces, each stripped, one per comma plus one; a list or `[…` string passes through; anything else is an error |
| Settings.CorsOriginsAreTrimmedPieces | backend/app/core/config.py:31-32 | no origin holds a comma or starts or ends with a space |
| Settings.CorsOriginsRoundTrip | backend/app/core/config.py:31-32 | for a string without spaces, joining the origins with commas gives the string back |
| Settings.AssembleDbConnection | backend/app/core/config.py:44-56 | a given string passes through unchanged; otherwise the URI is built from the server settings, with an empty path when no database is named |
| Settings.DbConnectionIndependence | backend/app/core/config.py:46-56 | a given string ignores the server settings entirely; without one, the URI depends only on the settings, not on which non-string value was given |
| Settings.DbPathEmptyIff | backend/app/core/config.py:55 | the built URI has an empty path exactly when the database name is missing or empty |
| CoreAuth.AccessClaims | backend/app/core/auth.py:26-32 | the claims are the input with `exp` set to now plus the given lifetime, or plus the default when none or zero is given; other claims and the key order are kept |
| CoreAuth.DefaultExpiry | backend/app/core/auth.py:28-31 | without a lifetime the token expires 691200 seconds (eight days) after issue |
| CoreAuth.AuthorizationParams | backend/app/core/auth.py:41-48 | the query carries client_id, response_type, redirect_uri, response_mode, scope and state, in that order |
| CoreAuth.AuthorizationParamsValues | backend/app/core/auth.py:41-48 | each parameter reads back its value: the client id, `code`, the redirect address, `query`, the fixed scope and the state |
| CoreAuth.ParamAt | backend/app/core/auth.py:41-48 | no two parameter names coincide, so a read by name finds the parameter at its position |
| CoreAuth.AuthorizationUrl | backend/app/core/auth.py:37-50 | the returned state is the given one when non-empty, else the generated one, and the URL encodes the parameters carrying it |
| CoreAuth.AuthorizationUrlCarriesState | backend/app/core/auth.py:37-50 | the URL's `state` parameter is the state returned alongside it |
| CoreAuth.FindUser | backend/app/core/auth.py:99-100 | a found user is stored and has the id; nothing found means no stored user has it |
| CoreAuth.NewUser | backend/app/core/auth.py:102-109 | a new user has role "user", email = mail if truthy else userPrincipalName (default ""), and name = displayName (default "") |
| CoreAuth.GetOrCreateUser | backend/app/core/auth.py:91-114 | 401 "Invalid user info" with nothing inserted iff the id is missing or empty; an existing user is returned as stored; otherwise the new user is appended when the `users` table accepts it (email and name not null, email unique, backend/app/models/user.py:10-12), and the commit fails iff it does not |
| CoreAuth.GetOrCreateKeepsTable | backend/app/core/auth.py:91-114 | a successful lookup-or-insert keeps the table's unique ids, unique emails and non-null email and name |
| CoreAuth.DuplicateEmailFails | backend/app/core/auth.py:100-110 | a first-time profile whose `mail` another stored user has as email makes the commit fail and stores nothing |
| CoreAuth.GetOrCreateOnce | backend/app/core/auth.py:91-114 | signing in twice with one profile creates the user once |
| CoreAuth.EmailFallback | backend/app/core/auth.py:106-107 | without `mail` the principal name is the email; an empty `mail` and no principal name give an empty email; an explicit null name is kept |
| CoreAuth.VerifyToken | backend/app/core/auth.py:117-133 | the payload is accepted iff it decodes and has a non-null `sub`; otherwise 401 "Could not validate credentials" |
| CoreAuth.GetCurrentUser | backend/app/core/auth.py:136-160 | no token gives "Not authenticated", a bad token gives "Could not validate credentials", a valid token whose `sub` names no stored user gives "User not found", and a returned user is stored and named by the token's `sub` |
| CoreAuth.SessionClaims | backend/app/routers/auth.py:122-124 | the session claims carry the user's id as `sub` |
| CoreAuth.IssuedTokenAuthenticates | backend/app/core/auth.py:136-160 | a session token issued for a stored user authenticates as that user, when decoding returns what was signed |
| AuthRouter.Login | backend/app/routers/auth.py:30-58 | the state is stored with the given return address, or else the front-end URL, and the redirect carries that state to the provider |
| AuthRouter.Complete | backend/app/routers/auth.py:102-151 | an HTTP failure, including a refused profile, redirects with `authentication_failed` and its detail and keeps the users; a refused commit of the new user, like any other exception, redirects with `server_error` and keeps the users; success stores or finds the user and redirects to the return address with a session token for that user |
| AuthRouter.InvalidProfileRejected | backend/app/routers/auth.py:109-140 | a profile without a usable id lands on the login page with "Invalid user info" and no user is stored |
| AuthRouter.ProfileWithIdSignsIn | backend/app/routers/auth.py:109-129 | a profile with an id that is stored, or whose new row the table accepts, adds at most its new user and lands on the return address with a session token for a stored user carrying that id |
| AuthRouter.RefusedRowIsServerError | backend/app/routers/auth.py:109-151 | a first-time profile whose row the table refuses (a taken email, or a null email or name) lands on the login page with `server_error` and stores no user |
| AuthRouter.Callback | backend/app/routers/auth.py:60-151 | a provider error wins and touches nothing; a missing, empty or unknown state gives `invalid_state` and touches nothing; a known state is removed before the exchange, whatever its outcome |
| AuthRouter.StateIsSingleUse | backend/app/routers/auth.py:88-100 | a second callback with the same state is refused as `invalid_state`, however the first one ended |
| AuthRouter.LoginThenCallback | backend/app/routers/auth.py:45-129 | a login then its successful callback consumes the state and lands on the chosen return address with a session token for the profile's user, whenever that user is found or its new row is accepted |
| AuthRouter.ForgedStateKeepsStore | backend/app/routers/auth.py:88-97 | a callback with no state or a forged one leaves the pending states and the users unchanged |
| AuthRouter.Logout | backend/app/routers/auth.py:153-170 | the redirect goes to the given address, or else to the front-end URL, and deletes the `session_token` cookie |
| AuthRouter.FollowRedirect | backend/app/routers/auth.py:168-169 | a browser following a redirect drops exactly the cookies it deletes and keeps the others unchanged |
| AuthRouter.LogoutClearsSessionCookie | backend/app/routers/auth.py:168-169 | after following the logout redirect the browser has no `session_token` cookie and its other cookies are kept |
| AuthRouter.LogoutLandsLikeLogin | backend/app/routers/auth.py:153-170 | logout lands where a login with the same `redirect_uri` would return, both falling back to the front end alike |

## Left out

- chroma-js colour maths (`brighten`, `darken`, `hex`) is floating-point Lab arithmetic in a library. It is a parameter here, so white/black clamping and the exact output of a ramp are not modelled.
- Clipboard copy and the "copied" timers (app/colors/page.tsx:144-154) are asynchronous browser I/O whose only effect is a transient flag.
- JSX rendering, the toasts, the dialog-open flags and the loading spinners are presentation.
- Text.Lower: lowercases ASCII `A`–`Z` only; JavaScript's `toLowerCase` also folds other Unicode letters.
- `localeCompare` and `new Date(...).getTime()` are host-library behaviour. Names are compared by a parameter assumed to be a total preorder, and `created_at` is an integer.
- Dashboard.Sort: `Array.prototype.sort` is modelled as a stable insertion sort. The contract states the sorted order and the permutation but not stability.
- The initial fetch of projects (app/dashboard/page.tsx:105-131) is a network call guarded by the authentication flags.
- `handleEditClick` only copies a project into the form; the model takes the resulting form as input.
- URL encoding, JWT signing and decoding, `secrets.token_urlsafe` and the clock are parameters.
- The Azure token exchange and the Graph profile lookup are one abstract outcome (`SignIn`). Logging is left out.
- The database is a sequence of rows.
  - Id generation and the timestamps of a new row are parameters. ProjectsRouter.CreateProject takes one instant for both `created_at` and `updated_at`, where the two `datetime.now` defaults (backend/app/models/project.py:20-21) are read microseconds apart.
  - The constraints of the `projects` table and the refresh round trip are not modelled. For the `users` table, the NOT NULL `email` and `name` columns and the unique `email` are modelled (CoreAuth.Insertable); the primary key is checked by the lookup before the insert.
  - ProjectsRouter.Patch: an explicit `null` for `name` or `status` cannot be expressed, since those fields hold strings. The database would reject such a value.
- ProjectsRouter.ReadProjects: the store is a sequence, so the model fixes one scan order. The query has no `ORDER BY`, so the database guarantees no order: the exact window of a page, and the fit of consecutive pages (ProjectsRouter.PagesConcatenate), hold only for a stable scan order.
- Dashboard.Matches: a project's `description` is a string, as the page's `Project` interface declares. The API can return `null` there. The page then throws a `TypeError` in the search filter whenever the query does not match the name, and in `validateForm` when such a project is edited. Rows with a null description are not modelled.
- AuthRouter.Logout: deleting the `session_token` cookie is modelled, but no route ever sets that cookie. The session is the bearer token the front end keeps and sends, and logout revokes no issued token: a token issued before logout still authenticates (CoreAuth.IssuedTokenAuthenticates has no logout premise). Only the front end forgets it.
- ProjectsRouter.Paginate: `skip` and `limit` are natural numbers. Negative values, which the SQL layer would reject, are not modelled.
- The `get_current_active_user` dependency (backend/app/deps.py) is a pass-through; the routes take the caller's id directly.
- CoreAuth.VerifyToken: a `sub` that decodes to a non-string is accepted like any non-null `sub`, and the model's lookup then answers "User not found". What the real lookup does with such a value depends on the database driver, which is not modelled. The only signer (backend/app/routers/auth.py:122-124) always writes a string `sub`.
- Settings.AssembleDbConnection: returns the parts of `PostgresDsn.build`, not the rendered URI string. The validation of `BACKEND_CORS_ORIGINS` entries as `AnyHttpUrl` is not modelled.
- AuthRouter.Login: takes the generated state as a parameter and requires it to be non-empty, which `secrets.token_urlsafe(32)` always is.

## Findings

| source | as written | input that shows it | evidently intended | confidence | as-written member | corrected member |
|---|---|---|---|---|---|---|
| backend/app/routers/projects.py:87-107 | `update_project` looks the row up and applies the body without comparing its owner with the caller | a row with id 1 owned by `alice`, patched to the name `Defaced` by any other signed-in user: the row is renamed | as its docstring says and as `delete_project` does, a caller who does not own the row gets 403 and nothing changes | high, not executed | ProjectsRouter.UpdateIgnoresOwner | ProjectsRouter.OwnerUpdateProject |
