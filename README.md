# Store site: access guard, document store and admin editors

This project models the deterministic core of a small model-agency web site.
The site is built with Next.js and kept in MongoDB through Mongoose. The model
covers these parts:

- **The access guard.** The route middleware decides where a request for an
  admin page goes. The `authorized` callback and the matcher select which
  requests it sees. The credentials check signs an administrator in, and the
  `jwt`/`session` callbacks carry the admin's id. A client-side gate shows an
  admin page only once a session is known.
- **The singleton documents.** Site settings, contact information, footer,
  navigation bar, services-page header and about page each live in one
  document. GET creates that document from literal values when the collection
  is empty. PATCH needs a session, and then creates the document or updates
  the stored one.
- **The collection routes.** These are orders, services, portfolio images,
  the list of admins and the registration of a new admin. Each is a guarded
  or public insert, or a sorted listing.
- **The Mongoose schemas.** Each model has its `required`, `enum`,
  `min`/`max`, `trim`, `lowercase` and `default` rules, stated as a cast, a
  validity predicate and a `Create`/`Update` function.
- **The admin pages and the request form, as client state.** This covers:
  - add/update/remove of quick links, buttons, nav links, experiences, skills,
    social links and image URLs;
  - the order filter, counts and status actions;
  - the delete-confirmation dialog;
  - the image-list clean-up;
  - service pre-selection;
  - what each page shows after a save.

Stored documents are `Row(id, createdAt, doc)` values in a `seq`, in natural
(insertion) order. These are the main shapes:

- `Store.Table` is a class holding that sequence. The route handlers are
  methods on it, each proved against a function that gives the outcome and
  the new contents.
- A JSON property is a `Field<T>`: `Absent` (undefined), `Null`, or
  `Present(v)`.
- A thrown value is `JsError(message)` for an `Error`, or `NonError` for
  anything else.
- The store's faults, the new `_id`/`createdAt`, the session, bcrypt and the
  replies a page receives are all parameters.

`encodeURIComponent` is written out as ECMA-262 defines it (UTF-8, then
percent-escapes), and proved to invert.

Three places where the code behaves differently from what its comments suggest
are stated as lemmas:

- `Middleware.NoTokenRedirectUnreachable`: behind `withAuth`, the middleware
  body never sees a request without a token to a page other than the login
  page. The `authorized` callback refuses such a request first, so the
  "redirect to `/admin/login?from=`" branch cannot run.
- `Middleware.MiddlewareRedirectsUnreachable` and `Middleware.SignedInLoginNotRedirected`:
  `withAuth` lets its own sign-in page `/admin/login` through without running the
  middleware, and every other matched path it hands over carries a token. So the
  middleware's redirect of a signed-in visitor of the login page to the dashboard
  never happens: such a visitor sees the login page.
- `ProtectedRoute.StaleAfterSignOut`: the gate's flag is never cleared, so
  after a sign-out the children are still rendered.

Registration hashes the password before the schema's `required` rule sees it.
An empty password "" is therefore accepted, and `RegisterRoute.RegisterAppendsOne`
states the behaviour as written.

## Model

| member | source | states |
|---|---|---|
| Middleware.Handle | middleware.ts:5-29 | the middleware lets a request through exactly when it is for the login page without a token or for another page with one; a redirect goes to the dashboard when there is a token and to `/admin/login?from=` when there is none; it never refuses to the sign-in page |
| Middleware.LoginPage | middleware.ts:8-15 | a login-page request with a token is redirected to `/admin/dashboard`; one without a token passes through |
| Middleware.OtherPages | middleware.ts:17-28 | without a token, any other path is redirected to `/admin/login?from=` plus the percent-encoded `from`, which decodes back to `from`; with a token it proceeds |
| Middleware.FromIsOneParameter | middleware.ts:22-24 | the encoded `from` contains no `&`, `=`, `#` or `?`, so it stays a single query parameter |
| Middleware.Authorized | middleware.ts:32-38 | the `authorized` callback: true for `/admin/login` or with a token; AuthorizedIff states which requests it lets reach the middleware |
| Middleware.AuthorizedIff | middleware.ts:30-42 | on a matched path other than `/admin/login`, `withAuth` hands the request to the middleware exactly when the `authorized` callback holds, and sends it to the sign-in page exactly when it does not; `/admin/login` itself, the configured sign-in page, is let through without the callback |
| Middleware.Matched | middleware.ts:46-58 | `config.matcher`: `/admin/login` exactly, or one of the eight admin sections followed by nothing or by `/` and more; MatcherExamples and LoginPrefixOnlyLogin state what it selects |
| Middleware.MatcherExamples | middleware.ts:46-58 | the matcher selects `/admin/dashboard`, `/admin/orders/123` and `/admin/login`; it skips `/admin/register`, `/` and `/admin/login/reset`, and an unmatched path is left untouched |
| Middleware.LoginPrefixOnlyLogin | middleware.ts:46-58 | no matched path other than `/admin/login` starts with `/admin/login`, since every other pattern names a different section |
| Middleware.Guard | middleware.ts:4-58 | an unmatched path is left alone; the sign-in page `/admin/login` passes through with or without a token; any other matched path goes to the sign-in page without a token and passes through with one; the composition never redirects |
| Middleware.NoTokenRedirectUnreachable | middleware.ts:4-44 | behind `withAuth`, a matched request without a token passes through on the login page; anywhere else it goes to the sign-in page, never to the middleware's own redirect |
| Middleware.SignedInLoginNotRedirected | middleware.ts:10-12 | a signed-in request for `/admin/login` is let through by `withAuth`, although the middleware on its own would send it to the dashboard |
| Middleware.MiddlewareRedirectsUnreachable | middleware.ts:5-29 | every request `withAuth` hands to the middleware is let through by it: neither of its redirects is ever taken |
| UriEncoding.Encode | middleware.ts:22-25 | `encodeURIComponent`: each character becomes itself or one to four `%XX` escapes, so the result is at least as long and at most twelve times as long |
| UriEncoding.Decode | middleware.ts:22-25 | the `decodeURIComponent` that reads `from` back: a bad `%` escape, a bad lead or continuation byte, an overlong form, a surrogate or a value past U+10FFFF gives none; a decoded string is never longer than its encoding |
| UriEncoding.DecodeEncode | middleware.ts:24 | decoding `encodeURIComponent(s)` gives back `s`, for every string of code points |
| UriEncoding.EncodeUnreservedIdentity | middleware.ts:24 | a string made only of unreserved characters is encoded as itself |
| UriEncoding.EncodeAppend | middleware.ts:24 | the encoding of a concatenation is the concatenation of the encodings |
| UriEncoding.OverlongRefused | middleware.ts:24 | the overlong forms `%C0%AF` and `%E0%80%AF` of `/` do not decode, while `%2F` decodes to `/` |
| Auth.SessionMaxAgeIsThirtyDays | lib/auth.ts:61-64 | the session lifetime is 30·24·60·60 = 2,592,000 seconds |
| Auth.FindByEmail | lib/auth.ts:27 | the lookup finds no admin exactly when no stored email equals the trimmed, lower-cased query; otherwise it finds a stored admin |
| Auth.MissingRefusedFirst | lib/auth.ts:16-19 | a missing or empty email or password is refused with "Please enter email and password", whatever the store holds or throws |
| Auth.FailuresIndistinguishable | lib/auth.ts:27-43 | an unknown email and a wrong password both end in the same "Invalid email or password" error |
| Auth.Attempt | lib/auth.ts:21-50 | the `try` block of `authorize` for present credentials: a store fault or a throw of `compare` propagates, an unknown email or a wrong password throws "Invalid email or password", and a match returns the admin's id, email and username; FailuresIndistinguishable and SuccessNamesAdmin state it |
| Auth.Authorize | lib/auth.ts:15-58 | `authorize` succeeds only for present, non-empty credentials, with no fault, when the lookup finds an admin whose password compares true, and then returns that admin's id, email and username; every refusal is an `Error` |
| Auth.SuccessNamesAdmin | lib/auth.ts:35-50 | sign-in succeeds exactly when an admin is found and the password compares true; the user then carries that admin's id, email and username as its name |
| Auth.Rethrow | lib/auth.ts:51-57 | an `Error` is rethrown unchanged; any other thrown value becomes "Authentication failed"; a success passes through |
| Auth.RefusalsAreErrors | lib/auth.ts:21-57 | every refusal is an `Error`; a store fault is rethrown as it is when it is an `Error` |
| Auth.Jwt | lib/auth.ts:69-74 | with a user the token's id becomes the user's id; without one the token is unchanged; the same token object is returned |
| Auth.SessionCallback | lib/auth.ts:75-80 | when the session has a user, that user's id becomes the token's id; the same session object is returned |
| ProtectedRoute.Decide | components/ProtectedRoute.tsx:12-25 | one effect run waits exactly while loading, sends to the login page exactly when unauthenticated or without a session, and authorizes exactly with an authenticated status and a session |
| ProtectedRoute.Next | components/ProtectedRoute.tsx:10-24 | the flag after one run: set once a run authorizes, never cleared; FinalIff and StaleAfterSignOut state it over every history |
| ProtectedRoute.FinalIff | components/ProtectedRoute.tsx:10-25 | after any history the flag is set exactly when it started set, or some run saw a session with the status not loading |
| ProtectedRoute.StaleAfterSignOut | components/ProtectedRoute.tsx:10-40 | once the gate has opened, a later unauthenticated run leaves the flag set, and the children are still rendered |
| ProtectedRoute.Gate.Effect | components/ProtectedRoute.tsx:12-25 | one run of the effect sets the flag as `Decide` says and records a `/admin/login` redirect exactly when it decides so |
| Store.First | app/api/settings/route.ts:12 | `findOne()` gives nothing exactly when the collection is empty, and otherwise a stored document |
| Store.Find | app/request-service/page.tsx:32 | `find` by `_id` gives nothing exactly when no row has the id; otherwise it gives the first row with that id |
| Store.Replace | app/api/contact-info/route.ts:74-78 | an update by id keeps every row's id and creation time, gives the row with that id the new document, and leaves the others as they were |
| Store.Table.FindOne | app/api/settings/route.ts:12 | the method returns `First` of the stored rows |
| Store.Table.Count | app/api/admin/register/route.ts:14 | the method returns the number of stored rows |
| Store.Table.Insert | app/api/orders/route.ts:35 | the method appends exactly one row with the given id, time and document |
| Store.Table.Save | app/api/settings/route.ts:111 | after the method the rows are `Replace` of the old rows |
| Singleton.Get | app/api/settings/route.ts:8-52 | GET never refuses; it serves exactly when there is no fault and a stored document or an acceptable seed; it serves the head when a document is stored; the served document is the stored head; it writes only into an empty collection, and then just the served document under the new id |
| Singleton.Patch | app/api/settings/route.ts:56-124 | PATCH refuses exactly without a session; it succeeds exactly when there is no fault and create (empty store) or update (stored document) accepts the body; anything else writes nothing; on success the served document is the stored head, created under the new id or updated under the old one, and the number of documents is one or unchanged |
| Singleton.Respond | app/api/settings/route.ts:42-52 | the status is 200, 401 or 500 exactly for a served, unauthorized or failed outcome, with the document, the refusal text or the failure text |
| Singleton.ServeGet | app/api/settings/route.ts:8-52 | the GET handler on a table has exactly the outcome and the new rows that `Get` gives |
| Singleton.ServePatch | app/api/settings/route.ts:56-124 | the PATCH handler on a table has exactly the outcome and the new rows that `Patch` gives |
| Singleton.GetBootstraps | app/api/settings/route.ts:12-45 | GET on a non-empty collection serves its first document and writes nothing; on an empty one it stores exactly the seed document and serves it |
| Singleton.GetIdempotent | app/api/settings/route.ts:12-15 | after a successful GET the collection is non-empty, and a second GET serves the same document and writes nothing |
| Singleton.PatchFailureWritesNothing | app/api/settings/route.ts:58-64 | an unauthenticated PATCH is refused with nothing written; any outcome but success leaves the collection as it was |
| Singleton.PatchUpdatesInPlace | app/api/contact-info/route.ts:73-78 | a PATCH on a stored document keeps its id and creation time, changes no other document, and serves exactly what it stored |
| Singleton.ReplayKeepsOneDocument | app/api/settings/route.ts:12-111 | under any sequential history of GETs and PATCHes, a collection starts with at most one document and still has at most one after; once a document exists it stays, under the same id |
| Collection.Post | app/api/services/route.ts:23-43 | POST refuses exactly without a session when one is needed; it never changes or removes a stored document and adds at most the one it serves, under the new id and time |
| Collection.Created | app/api/orders/route.ts:34-43 | the status is 201, 401 or the route's failure status exactly for a created, unauthorized or failed outcome, with the matching body |
| Collection.ServePost | app/api/services/route.ts:23-43 | the POST handler on a table has exactly the outcome and the new rows that `Post` gives |
| Collection.PostAppendsOne | app/api/services/route.ts:25-36 | a POST either appends exactly the one document `create` built, under the new id, or leaves the collection as it was; without a session, when one is needed, it writes nothing |
| Collection.Newest | app/api/services/route.ts:11 | `find({}).sort({ createdAt: -1 })` holds the same documents, each as often as stored, newest first |
| Sorting.SortSorted | app/page.tsx:208-209 | the stable sort orders its output by the comparator, for any total preorder |
| Sorting.InsertPermutes | app/page.tsx:208-209 | inserting into a sorted list adds exactly the one element |
| Sorting.InsertStep | app/page.tsx:208-209 | one pass moves the next element into the sorted prefix exactly as `Insert` places it, and touches nothing after it |
| Sorting.SortInPlace | app/page.tsx:208-209 | the in-place sort of an array leaves it holding the stable sort of its old contents |
| Schema.TrimmedRequired | models/Order.ts:19-34 | a trimmed required path passes exactly when the given text is not blank |
| Schema.SettersIdempotent | models/Admin.ts:18-25 | applying the `trim` and `lowercase` setters a second time changes nothing |
| Schema.SettersNormalise | models/Admin.ts:18-25 | after the setters a value has no surrounding white space and, when lower-cased, no upper-case letter |
| Text.TrimIdempotent | app/admin/services/add/page.tsx:26 | trimming a trimmed string changes nothing |
| Text.TrimEmptyIffBlank | app/admin/portfolio/add/page.tsx:39 | a string trims to "" exactly when it is all white space |
| Text.SplitJoin | app/admin/services/add/page.tsx:25 | joining the pieces of `split(sep)` with `sep` gives back the string |
| OrderModel.Acceptable | models/Order.ts:17-60 | the schema rules read on the body, independently of the cast; CreateAcceptsIff proves `create` accepts exactly these bodies |
| OrderModel.Create | models/Order.ts:17-60 | `Order.create`: the stored document is the body with the defaults and setters applied, and is valid; a refusal is the schema's validation error, raised exactly when the cast body is not valid |
| OrderModel.Valid | models/Order.ts:17-60 | the Order schema on a cast document: the six required texts and the status enum; CreateAcceptsIff and CastValidIff state when a body passes it |
| OrderModel.CreateAcceptsIff | models/Order.ts:19-55 | an order is accepted exactly when the six required texts are given and not blank, and the status is missing or one of the four statuses |
| OrderModel.StatusAccepted | models/Order.ts:51-55 | a missing status passes as "pending"; a given one passes exactly when it is one of the four values, so `null` fails |
| OrderModel.CastValidIff | models/Order.ts:17-60 | the cast document is valid exactly when the body is acceptable |
| OrderModel.CreateNormalises | models/Order.ts:22-33 | an accepted order stores full name, email and phone trimmed, and the email lower-cased |
| OrderModel.CreateDefaults | models/Order.ts:35-55 | an accepted order stores the other paths as given, with notes "" and status "pending" when they are missing |
| OrderModel.CreateIdempotent | models/Order.ts:17-60 | creating from a stored order stores the same order |
| ServiceModel.Acceptable | models/Service.ts:14-42 | the schema rules read on the body, independently of the cast; CreateAcceptsIff proves `create` accepts exactly these bodies |
| ServiceModel.Create | models/Service.ts:14-42 | `Service.create`: the stored document is the body with the defaults and setters applied, and is valid; a refusal is the schema's validation error, raised exactly when the cast body is not valid |
| ServiceModel.Valid | models/Service.ts:14-42 | the Service schema on a cast document: the required texts and a price of at least 0; CreateAcceptsIff and CastValidIff state when a body passes it |
| ServiceModel.CastValidIff | models/Service.ts:14-42 | the cast document is valid exactly when the body is acceptable |
| ServiceModel.CreateAcceptsIff | models/Service.ts:16-37 | a service is accepted exactly when its name is not blank, description and details are given and not empty, and a price is given and is at least 0 |
| ServiceModel.CreateStores | models/Service.ts:16-33 | an accepted service stores the trimmed name, the given texts and price, and `[]` for missing images |
| ServiceModel.CreateIdempotent | models/Service.ts:14-42 | creating from a stored service stores the same service |
| PortfolioModel.Create | models/Portfolio.ts:13-38 | `Portfolio.create`: the stored document is the body with the defaults and setters applied, and is valid; a refusal is the schema's validation error, raised exactly when the cast body is not valid |
| PortfolioModel.Valid | models/Portfolio.ts:13-38 | the Portfolio schema on a cast document: the required image URL; CreateAcceptsIff state when a body passes it |
| PortfolioModel.CreateAcceptsIff | models/Portfolio.ts:15-19 | an image is accepted exactly when its URL is given and not blank |
| PortfolioModel.CreateStores | models/Portfolio.ts:15-33 | an accepted image stores the trimmed URL, the title and description trimmed or "" when missing, and order 0 when missing |
| PortfolioModel.CreateIdempotent | models/Portfolio.ts:13-38 | creating from a stored image stores the same image |
| AboutModel.Update | models/About.ts:3-25 | the update with `runValidators`: a refusal is the schema's validation error, and an accepted update of a valid document is valid; UpdateOverwrites states which paths change |
| AboutModel.Create | models/About.ts:3-25 | `About.create`: the stored document is the body with the defaults and setters applied, and is valid; a refusal is the schema's validation error, raised exactly when the cast body is not valid |
| AboutModel.Valid | models/About.ts:3-25 | the About schema on a cast document: the three required texts, the experience texts and the skill name and 0..100 level; SkillAcceptsIff and UpdateRefusesNull state when a body passes it |
| AboutModel.CastExperience | models/About.ts:3-8 | an experience keeps its three texts, and its order is 0 when missing |
| AboutModel.CastSkill | models/About.ts:10-14 | a skill keeps its name and level, and its order is 0 when missing |
| AboutModel.SkillAcceptsIff | models/About.ts:10-14 | a skill is accepted exactly when it has a non-empty name and a level from 0 to 100 |
| AboutModel.CreateOrders | models/About.ts:3-22 | a created about page stores `[]` for missing arrays, and every experience and skill has an order |
| AboutModel.UpdateOverwrites | app/api/about/route.ts:86 | an accepted update keeps each of the five paths the body leaves out and takes each one it gives, `null` included, with the experiences and skills cast |
| AboutModel.UpdateEmptyKeeps | app/api/about/route.ts:86 | an empty update body leaves the stored document as it was |
| AboutModel.UpdateRefusesNull | models/About.ts:18-20 | an update that sets a required text to `null` is refused |
| SiteSettingsModel.Create | models/SiteSettings.ts:34-134 | `SiteSettings.create`: the stored document is the body with the defaults and setters applied, and is valid; a refusal is the schema's validation error, raised exactly when the cast body is not valid |
| SiteSettingsModel.Valid | models/SiteSettings.ts:34-134 | the SiteSettings schema on a cast document: the required hero image and the button rules; ButtonAcceptsIff and HeroImageRequired state when a body passes it |
| SiteSettingsModel.CastButton | models/SiteSettings.ts:34-51 | a button keeps its label and URL, and has style "primary" and order 0 when they are missing |
| SiteSettingsModel.ButtonAcceptsIff | models/SiteSettings.ts:34-51 | a button is accepted exactly when it has a label and a URL, and its style, if given, is primary or secondary |
| SiteSettingsModel.DefaultButtonsValid | models/SiteSettings.ts:107-113 | the two default buttons are valid, already cast, and ordered 1 and 2 |
| SiteSettingsModel.CreateEmpty | models/SiteSettings.ts:54-131 | a document created from nothing is accepted and holds the schema default on each of the sixteen paths |
| SiteSettingsModel.CastDefaults | models/SiteSettings.ts:56-131 | a missing path takes its default value; a given text path keeps the given value; a given hero link or button array is cast |
| SiteSettingsModel.HeroImageRequired | models/SiteSettings.ts:56-60 | `heroImage` set to `null` or "" is refused; when it is missing the default fills it |
| SiteSettingsModel.EqualAt | models/SiteSettings.ts:53-131 | two documents agreeing on all sixteen paths are equal |
| ContactInfoModel.Update | models/ContactInfo.ts:3-73 | the update with `runValidators`: a refusal is the schema's validation error, and an accepted update of a valid document is valid; UpdateKeepsMissing states when it is refused and which paths change |
| ContactInfoModel.Create | models/ContactInfo.ts:3-73 | `ContactInfo.create`: the stored document is the body with the defaults and setters applied, and is valid; a refusal is the schema's validation error, raised exactly when the cast body is not valid |
| ContactInfoModel.Valid | models/ContactInfo.ts:3-73 | the ContactInfo schema on a cast document: the required email, phone and location and the social-link rules; CreateAcceptsIff state when a body passes it |
| ContactInfoModel.CreateAcceptsIff | models/ContactInfo.ts:3-50 | a create is accepted exactly when email, phone and location are given and not empty, and every social link has a name, a URL and an icon |
| ContactInfoModel.CreateDefaults | models/ContactInfo.ts:19-68 | a create stores the literal header, business-hours and legal defaults for the paths the body leaves out |
| ContactInfoModel.UpdateKeepsMissing | app/api/contact-info/route.ts:74-78 | an update is refused exactly when it sets a required text to null or "" or gives an invalid social link; otherwise each of the eight paths is kept when the body leaves it out and taken from the body when given, `null` included |
| FooterSettingsModel.Update | models/FooterSettings.ts:3-45 | the update with `runValidators`: a refusal is the schema's validation error, and an accepted update of a valid document is valid; UpdateKeepsMissing states which paths change |
| FooterSettingsModel.Create | models/FooterSettings.ts:3-45 | `FooterSettings.create`: the stored document is the body with the defaults and setters applied, and is valid; a refusal is the schema's validation error, raised exactly when the cast body is not valid |
| FooterSettingsModel.Valid | models/FooterSettings.ts:3-45 | the FooterSettings schema on a cast document: the quick-link label and URL; AcceptsIff state when a body passes it |
| FooterSettingsModel.AcceptsIff | models/FooterSettings.ts:3-24 | a create or update is refused exactly when some quick link lacks a label or a URL |
| FooterSettingsModel.CreateDefaults | models/FooterSettings.ts:14-45 | a create stores the literal brand, contact and copyright defaults for the paths left out |
| FooterSettingsModel.UpdateKeepsMissing | app/api/footer-settings/route.ts:66-70 | an accepted update keeps each of the seven paths the body leaves out and takes each one it gives, `null` included |
| NavbarSettingsModel.Update | models/NavbarSettings.ts:3-29 | the update with `runValidators`: a refusal is the schema's validation error, and an accepted update of a valid document is valid; AcceptsIff and LinksOrdered state when it is accepted and that every stored link has an order |
| NavbarSettingsModel.Create | models/NavbarSettings.ts:3-29 | `NavbarSettings.create`: the stored document is the body with the defaults and setters applied, and is valid; a refusal is the schema's validation error, raised exactly when the cast body is not valid |
| NavbarSettingsModel.Valid | models/NavbarSettings.ts:3-29 | the NavbarSettings schema on a cast document: the nav-link label and URL; AcceptsIff state when a body passes it |
| NavbarSettingsModel.CastLink | models/NavbarSettings.ts:3-16 | a link keeps its label and URL, and its order is 0 when missing |
| NavbarSettingsModel.LinksOrdered | models/NavbarSettings.ts:12-15 | every link a create or update stores has an order |
| NavbarSettingsModel.AcceptsIff | models/NavbarSettings.ts:3-24 | a create or update is refused exactly when some link lacks a label or a URL; a missing site name is stored as "ModelPro" |
| AdminModel.Valid | models/Admin.ts:12-35 | the Admin schema on a cast document: the required username, email and password; Create and CreateNormalises state when a body passes it |
| AdminModel.Create | models/Admin.ts:12-35 | a create appends exactly the cast admin, or fails because the admin is invalid or clashes with a stored username or email |
| AdminModel.CreateKeepsUnique | models/Admin.ts:17-23 | a successful create keeps usernames and emails unique across the collection |
| AdminModel.CreateNormalises | models/Admin.ts:14-30 | a stored admin has a username with no surrounding white space and an email with none and no upper-case letter |
| AdminModel.EmailCaseInsensitive | models/Admin.ts:20-26 | an email that differs from a stored one only in ASCII letter case or surrounding white space is refused |
| SettingsRoute.MergeGiven | app/api/settings/route.ts:95-110 | each of the sixteen paths keeps its stored value when the body lacks it, and takes the body's value otherwise, `null` included |
| SettingsRoute.AssignGiven | app/api/settings/route.ts:95-110 | the sixteen guarded assignments, made one by one, give `MergeGiven` |
| SettingsRoute.Update | app/api/settings/route.ts:95-111 | an accepted save stores a valid document equal to the merge of body and stored document |
| SettingsRoute.Get | app/api/settings/route.ts:8-52 | GET answers as `Singleton.Get` with the literal seed, through `Respond` with the route's failure text |
| SettingsRoute.Patch | app/api/settings/route.ts:56-124 | PATCH answers as `Singleton.Patch` with create-from-body and the merge, through `Respond` |
| SettingsRoute.SeedIsDefaults | app/api/settings/route.ts:16-39 | the literal document is accepted, is stored as written, and is the one the schema defaults give |
| SettingsRoute.GetBootstrapsDefaults | app/api/settings/route.ts:12-45 | on an empty collection GET stores the one default document; otherwise it serves the first and writes nothing |
| SettingsRoute.PatchChangesGivenPaths | app/api/settings/route.ts:68-111 | an accepted PATCH keeps every path the body lacks, sets every other path but the cast button list to the body's value, and stores `null` where the body gives `null` |
| SettingsRoute.PatchRefusesEmptyHeroImage | app/api/settings/route.ts:95-111 | a PATCH setting `heroImage` to `null` or "" fails on save |
| ContactInfoRoute.Get | app/api/contact-info/route.ts:8-50 | GET answers as `Singleton.Get` with the literal document and "Failed to fetch contact info" |
| ContactInfoRoute.Patch | app/api/contact-info/route.ts:53-88 | PATCH answers as `Singleton.Patch` with create and update by id, and "Failed to update contact info" |
| ContactInfoRoute.SeedAccepted | app/api/contact-info/route.ts:16-39 | the literal document is accepted and stored as written, with five social links from Facebook to TikTok |
| ContactInfoRoute.GetBootstrapsSeed | app/api/contact-info/route.ts:12-42 | GET on an empty collection stores the literal document; on a non-empty one it serves the first and writes nothing |
| FooterSettingsRoute.Get | app/api/footer-settings/route.ts:8-40 | GET answers as `Singleton.Get` with the literal document |
| FooterSettingsRoute.Patch | app/api/footer-settings/route.ts:43-78 | PATCH answers as `Singleton.Patch` with create and update by id |
| FooterSettingsRoute.SeedAccepted | app/api/footer-settings/route.ts:16-30 | the literal document is accepted and stored as written: the schema defaults plus four quick links, Home to Contact |
| NavbarSettingsRoute.Get | app/api/navbar-settings/route.ts:8-35 | GET answers as `Singleton.Get` with the literal document |
| NavbarSettingsRoute.Patch | app/api/navbar-settings/route.ts:38-73 | PATCH answers as `Singleton.Patch` with create and update by id |
| NavbarSettingsRoute.SeedAccepted | app/api/navbar-settings/route.ts:16-25 | the literal document is accepted and stored as written; its four links have orders 1 to 4, and its site name is the schema's default |
| ServicesPageSettingsRoute.Create | models/ServicesPageSettings.ts:3-17 | a create never fails; each header path takes its default exactly when it is missing |
| ServicesPageSettingsRoute.Update | app/api/services-page-settings/route.ts:54-58 | an update never fails; each given path replaces the stored one, and a missing one keeps it |
| ServicesPageSettingsRoute.Get | app/api/services-page-settings/route.ts:8-30 | GET answers as `Singleton.Get` with the literal document |
| ServicesPageSettingsRoute.Patch | app/api/services-page-settings/route.ts:33-68 | PATCH answers as `Singleton.Patch` with create and update by id |
| ServicesPageSettingsRoute.SeedIsDefaults | app/api/services-page-settings/route.ts:16-20 | the literal document is exactly what the schema defaults give for an empty body |
| ServicesPageSettingsRoute.PatchAlwaysUpdates | app/api/services-page-settings/route.ts:48-59 | with a session and a stored document a PATCH always succeeds and never adds a document |
| AboutRoute.Get | app/api/about/route.ts:7-58 | GET answers as `Singleton.Get` with the literal document |
| AboutRoute.Patch | app/api/about/route.ts:61-102 | PATCH answers as `Singleton.Patch` with create and `findOneAndUpdate`, and "Unauthorized - Please login" as refusal |
| AboutRoute.SeedAccepted | app/api/about/route.ts:18-41 | the literal document is stored as written: two experiences with orders 0 and 1, and three skills with levels 95, 90, 85 and orders 0 to 2 |
| AboutRoute.PatchFailureMessage | app/api/about/route.ts:95-102 | a failed PATCH answers 500 with the thrown error's own message when it is an `Error` |
| HomePage.LatestServices | app/page.tsx:11-25 | at most six services are loaded, and none when the store throws |
| HomePage.LatestAreNewest | app/page.tsx:15-17 | the loaded services are stored ones, newest first, and none left out is newer than one shown |
| HomePage.PortfolioImages | app/page.tsx:27-39 | one URL per stored image, or none when the store throws |
| HomePage.PortfolioImagesOrdered | app/page.tsx:30-34 | the URLs are those of the stored images, each as often as stored, by ascending order, newest first among equal orders |
| HomePage.DisplayImages | app/page.tsx:101-109 | the gallery shows the four stock images exactly when the list is empty or is those images; any other list is shown as it is |
| HomePage.GetSiteSettings | app/page.tsx:41-94 | the loader serves the first document or creates the home defaults; on any failure it returns the constant defaults and writes nothing |
| HomePage.HomeDefaults | app/page.tsx:48-67 | the document the home page creates on an empty store; HomeSeedMatchesRoute states it is the settings route's seed once the schema fills the page titles |
| HomePage.HomeSeedMatchesRoute | app/page.tsx:48-67 | once the schema fills the four page titles, the document created here equals the one the settings route creates |
| HomePage.ByOrderPreorder | app/page.tsx:209 | `a.order - b.order`, with a `null` order counted as 0, is a total preorder; a missing order cannot reach the page, because the schema fills it |
| HomePage.CtaLinks | app/page.tsx:207-237 | with no buttons the two fixed links are shown; otherwise one link per button |
| HomePage.CtaLinksOrdered | app/page.tsx:207-222 | the buttons are shown in ascending order, each once |
| HomePage.RenderCta | app/page.tsx:207-237 | sorting the buttons in place and mapping them gives `CtaLinks` |
| HomePage.PageTexts | app/page.tsx:119-204 | each text shown is the stored one when truthy and the page's literal fallback otherwise; StoredTextShown and FallbacksAreDefaults state both halves |
| HomePage.FallbacksAreDefaults | app/page.tsx:119-204 | an empty document, its cast, and the route's seed all show the same texts as the defaults |
| HomePage.StoredTextShown | app/page.tsx:119-201 | a stored non-empty title is shown as stored |
| HomePage.HeroImage | app/page.tsx:133-150 | the hero image is shown exactly when the stored value is truthy |
| HomePage.ServicesSection | app/page.tsx:155-183 | cards are shown exactly when services were loaded, and they are those services |
| RegisterRoute.Register | app/api/admin/register/route.ts:9-67 | the answer is 201, 400 or 401; 401 exactly when admins exist and there is no session; any answer but 201 writes nothing; a 201 appends exactly one admin, under the new id, with an email no stored admin had |
| RegisterRoute.ServeRegister | app/api/admin/register/route.ts:9-67 | the handler on the admin table has exactly the response and the new rows that `Register` gives |
| RegisterRoute.RegisterAppendsOne | app/api/admin/register/route.ts:40-59 | only a 201 writes, appending one admin with the hashed password, never the plaintext; its summary has only id, username and email |
| RegisterRoute.SessionOnlyOnceAdminsExist | app/api/admin/register/route.ts:13-26 | with no admin the session doesn't matter; once one exists, a request without a session is answered 401 and nothing changes |
| RegisterRoute.EmailTaken | app/api/admin/register/route.ts:30-31 | the `findOne({ email })` filter with the setters applied: some stored admin has the trimmed, lower-cased email, for an undefined email, any admin exists; for `null`, some admin has no email; DuplicateEmailRefused and MissingEmailMatchesAny state the refusals |
| RegisterRoute.DuplicateEmailRefused | app/api/admin/register/route.ts:30-37 | an email already stored, up to ASCII letter case and surrounding white space, is answered 400 "Admin already exists" and nothing changes |
| RegisterRoute.MissingEmailMatchesAny | app/api/admin/register/route.ts:28-37 | a body without an email is refused as a duplicate once any admin exists |
| RegisterRoute.RegisterKeepsUnique | app/api/admin/register/route.ts:43-47 | registration keeps usernames and emails unique |
| AdminsRoute.Get | app/api/admins/route.ts:7-34 | without a session the answer is 401 "Unauthorized"; a fault gives 500 "Failed to fetch admins" |
| AdminsRoute.GetListsNewest | app/api/admins/route.ts:20-26 | a successful GET lists every stored admin exactly as often as stored (the same multiset of views), newest first, without the password |
| OrdersRoute.Get | app/api/orders/route.ts:8-28 | without a session 401; a fault 400 with its message; otherwise all orders, newest first |
| OrdersRoute.Post | app/api/orders/route.ts:31-43 | POST needs no session and answers as `Collection.Post` with `Order.create` |
| OrdersRoute.PostStoresAcceptable | app/api/orders/route.ts:34-43 | an order is stored exactly when the body is acceptable, and is then the only change; otherwise nothing is stored and the answer is 400 |
| OrdersRoute.PostKeepsClientStatus | app/api/orders/route.ts:35 | the stored status is the one the body gives, or "pending" when it gives none |
| ServicesRoute.Get | app/api/services/route.ts:8-19 | GET is public: all services newest first, or 400 with the fault's message |
| ServicesRoute.Post | app/api/services/route.ts:23-43 | POST answers as `Collection.Post` with the session check and `Service.create` |
| ServicesRoute.PostStoresAcceptable | app/api/services/route.ts:25-36 | without a session 401 and nothing stored; a service is stored exactly when there is a session and the body is acceptable |
| PortfolioRoute.GalleryOrderPreorder | app/api/portfolio/route.ts:11 | `sort({ order: 1, createdAt: -1 })` is a total preorder |
| PortfolioRoute.Gallery | app/api/portfolio/route.ts:11 | `sort({ order: 1, createdAt: -1 })` holds the stored images, each as often as stored, by ascending order and newest first among equal orders |
| PortfolioRoute.Get | app/api/portfolio/route.ts:8-24 | GET answers 200 with the gallery, or 500 "Failed to fetch portfolio images" |
| PortfolioRoute.Payload | app/api/portfolio/route.ts:38-52 | only URL, title, description and order are taken from the body, with order 0 when it is missing |
| PortfolioRoute.ServePost | app/api/portfolio/route.ts:27-64 | the handler on a table has exactly the response and the new rows that `Post` gives |
| PortfolioRoute.Post | app/api/portfolio/route.ts:27-64 | the POST handler: 401 without a session, 500 on a fault, 400 for a falsy URL, otherwise `Portfolio.create` through Collection.Post; PostOutcomes and PostNeedsSession state the outcomes and the writes |
| PortfolioRoute.PostOutcomes | app/api/portfolio/route.ts:38-64 | a missing, `null` or empty URL is answered 400 "Image URL is required"; a blank one fails validation with 500; any other is stored and answered 201 |
| PortfolioRoute.PostNeedsSession | app/api/portfolio/route.ts:29-35 | without a session the answer is 401 and nothing is stored |
| SettingsPage.SplitSettings | app/admin/settings/page.tsx:101-106 | the loaded document split into the hero state and the two page-title states; SplitLosesNothing states that nothing is lost |
| SettingsPage.SplitLosesNothing | app/admin/settings/page.tsx:101-106 | the four page titles go to their own states, and the hero state holds every other path |
| SettingsPage.SavingHeroKeepsPageTitles | app/admin/settings/page.tsx:101-106 | saving the hero state leaves the stored page titles as they were |
| SettingsPage.AddQuickLink | app/admin/settings/page.tsx:209-214 | one blank link is appended at the end; the earlier links are unchanged |
| SettingsPage.UpdateQuickLink | app/admin/settings/page.tsx:245-249 | only the named field of link i changes |
| SettingsPage.RemoveQuickLink | app/admin/settings/page.tsx:251-254 | exactly link i is dropped; the rest keep their order |
| SettingsPage.AddCtaButton | app/admin/settings/page.tsx:256-267 | a blank primary button with order = previous count + 1 is appended, treating a missing list as empty |
| SettingsPage.UpdateCtaButton | app/admin/settings/page.tsx:269-273 | only button i changes, by the given edit |
| SettingsPage.RemoveCtaButton | app/admin/settings/page.tsx:275-278 | exactly button i is dropped; the rest keep their order |
| SettingsPage.AddNavLink | app/admin/settings/page.tsx:309-315 | a blank link with order = previous count + 1 is appended |
| SettingsPage.AddedNavLinksNumbered | app/admin/settings/page.tsx:309-315 | n additions from an empty list give n links with orders 1 to n |
| SettingsPage.UpdateNavLink | app/admin/settings/page.tsx:317-325 | only link i changes, by the given edit |
| SettingsPage.RemoveNavLink | app/admin/settings/page.tsx:327-330 | exactly link i is dropped; the rest keep their order |
| SettingsPage.NavOrderPreorder | app/admin/settings/page.tsx:416 | the order comparator, with a missing order as 0, is a total preorder |
| SettingsPage.RenderNavRows | app/admin/settings/page.tsx:415-420 | sorting the links in place leaves the stable sort by order; each row's target is the first link with the same label and URL |
| SettingsPage.NavRowsOrdered | app/admin/settings/page.tsx:415-416 | the listed links are the stored ones, in ascending order |
| SettingsPage.Target | app/admin/settings/page.tsx:418-420 | the `findIndex` of a sorted row back in the stored links; TargetIsFirstSame states that it is the first link with the same label and URL |
| SettingsPage.TargetIsFirstSame | app/admin/settings/page.tsx:418-420 | a row targets the first link with its label and URL, so duplicates all target the first occurrence |
| AboutPage.Load | app/admin/about/page.tsx:46-59 | `fetchAboutData`: a successful reply replaces the data, an unsuccessful one keeps the page, a throw sets the load-failure message; LoadShowsServed ties it to GET |
| AboutPage.LoadShowsServed | app/admin/about/page.tsx:46-59 | loading against GET /api/about puts the served document in the form: the stored one, or on an empty store the literal document GET has just stored; a failed GET leaves the form |
| AboutPage.LoadFailureKeepsInitial | app/admin/about/page.tsx:53-56 | a load failure keeps the empty initial data |
| AboutPage.Save | app/admin/about/page.tsx:61-91 | `handleSave`: a successful reply shows the stored document with the saved message, an unsuccessful one keeps the data and shows the route's error (or "Unknown error"), a throw keeps the data with the save-error message; SaveShowsStored ties it to PATCH |
| AboutPage.SaveShowsStored | app/admin/about/page.tsx:77-84 | after a save, the page shows exactly what the route stored, or keeps its data |
| AboutPage.AddExperience | app/admin/about/page.tsx:93-101 | an empty experience with order = previous count is appended |
| AboutPage.AddSkill | app/admin/about/page.tsx:114-122 | an empty skill with level 50 and order = previous count is appended |
| AboutPage.AddedNumbered | app/admin/about/page.tsx:93-122 | n additions give orders 0 to n-1, and every added skill has level 50 |
| AboutPage.RemoveExperience | app/admin/about/page.tsx:103-106 | exactly entry i is dropped; the rest keep their order |
| AboutPage.RemoveSkill | app/admin/about/page.tsx:124-127 | exactly entry i is dropped; the rest keep their order |
| AboutPage.UpdateExperience | app/admin/about/page.tsx:108-112 | only entry i changes, by the given edit |
| AboutPage.UpdateSkill | app/admin/about/page.tsx:129-133 | only entry i changes, by the given edit |
| AboutPage.UpdateKeepsOrder | app/admin/about/page.tsx:108-133 | an edit keeps the entry's order and changes only the edited field |
| ContactPage.Load | app/admin/contact/page.tsx:60-72 | a successful reply replaces the form data, any other keeps the page; LoadShowsServed ties it to GET |
| ContactPage.LoadShowsServed | app/admin/contact/page.tsx:60-72 | loading against GET /api/contact-info puts the served document in the form: the stored one, or on an empty store the literal document GET has just stored; a failed GET leaves the form |
| ContactPage.Submit | app/admin/contact/page.tsx:74-102 | a successful reply shows the stored document with the success notice, any other keeps the data with an error notice carrying the route's text; SubmitShowsStored ties it to PATCH |
| ContactPage.SubmitShowsStored | app/admin/contact/page.tsx:90-98 | after a submit, the page shows exactly what the route stored; without a session it shows "Unauthorized" and nothing is written |
| ContactPage.AddSocialMedia | app/admin/contact/page.tsx:104-109 | one empty social link is appended at the end |
| ContactPage.UpdateSocialMedia | app/admin/contact/page.tsx:111-115 | only the named field of entry i changes |
| ContactPage.RemoveSocialMedia | app/admin/contact/page.tsx:117-120 | exactly entry i is dropped; the rest keep their order |
| OrdersPage.Filtered | app/admin/orders/page.tsx:60-63 | the filter "all" yields every order |
| OrdersPage.FilteredIff | app/admin/orders/page.tsx:60-63 | a status filter yields exactly the orders with that status, as many as they are |
| OrdersPage.FilteredKeepsOrder | app/admin/orders/page.tsx:60-63 | filtering keeps the original order |
| OrdersPage.StatusCounts | app/admin/orders/page.tsx:65-70 | the total and the number of orders with each of the three statuses; CountsAddUp states how they add up |
| OrdersPage.CountsAddUp | app/admin/orders/page.tsx:65-70 | with known statuses the four counts add up to the total, and the difference `all - pending - completed - cancelled` is the processing count |
| OrdersPage.CreatedStatusKnown | models/Order.ts:51-54 | every created order has one of the four statuses |
| OrdersPage.Restatus | app/admin/orders/page.tsx:44-48 | the orders with the id get the new status; every other order is unchanged |
| OrdersPage.UpdateOrderStatus | app/admin/orders/page.tsx:32-55 | success restatuses the orders with the id, `success: false` and a throw keep the list with their alerts; UpdateAlertsIffKept and UpdateMovesOne state the effect |
| OrdersPage.UpdateAlertsIffKept | app/admin/orders/page.tsx:32-55 | an alert is shown exactly when the server does not report success; then the list is kept; the list changes only on success and only when some order has the id |
| OrdersPage.UpdateMovesOne | app/admin/orders/page.tsx:43-48 | with unique ids, a successful update changes exactly one order, to the new status |
| OrdersPage.StatusColor | app/admin/orders/page.tsx:83-96 | any value other than the four statuses is gray, and only those |
| OrdersPage.ColorsDistinct | app/admin/orders/page.tsx:83-96 | different statuses have different colours |
| OrdersPage.Actions | app/admin/orders/page.tsx:239-256 | actions are offered exactly for pending orders |
| OrdersPage.ActionsOnlyWhilePending | app/admin/orders/page.tsx:239-256 | an action targets a known non-pending status, so afterwards none is offered |
| PortfolioAddPage.AddUrl | app/admin/portfolio/add/page.tsx:19-21 | one empty URL is appended |
| PortfolioAddPage.RemoveUrl | app/admin/portfolio/add/page.tsx:23-25 | exactly entry i is dropped |
| PortfolioAddPage.ChangeUrl | app/admin/portfolio/add/page.tsx:27-31 | only entry i is replaced |
| PortfolioAddPage.FilledIff | app/admin/portfolio/add/page.tsx:39 | a URL counts exactly when it does not trim to "" |
| PortfolioAddPage.ValidUrlsIff | app/admin/portfolio/add/page.tsx:39 | the valid URLs are exactly the non-blank entries, in their original order |
| PortfolioAddPage.TextOrMissing | app/admin/portfolio/add/page.tsx:56-57 | an empty text is sent as undefined; any other as it is |
| PortfolioAddPage.Requests | app/admin/portfolio/add/page.tsx:41-61 | no request is built when there are no valid URLs; otherwise the i-th valid URL is posted with order = form order + i |
| PortfolioAddPage.FilledStored | app/api/portfolio/route.ts:38-56 | a request with a non-blank URL and an order is stored: 201, one row, trimmed URL, given order |
| PortfolioAddPage.RequestsAccepted | app/admin/portfolio/add/page.tsx:48-61 | every request the page builds is accepted by the portfolio route |
| PortfolioAddPage.Alert | app/admin/portfolio/add/page.tsx:42-76 | the four alert texts of `handleSubmit`, with the count of added images written in decimal |
| PortfolioAddPage.Submit | app/admin/portfolio/add/page.tsx:33-78 | no valid URL gives the alert; a throw gives the error; all replies successful gives "added n"; otherwise some failed |
| PortfolioAddPage.OneFailureStays | app/admin/portfolio/add/page.tsx:66-73 | one failed reply keeps the page from navigating |
| DeleteDialog.Pending | app/admin/portfolio/page.tsx:48-50 | there is a pending id exactly when the dialog has a non-empty one |
| DeleteDialog.WithoutIff | app/admin/portfolio/page.tsx:72-73 | the filter removes exactly the rows with the id, keeps all others in order, and changes nothing when no row has it |
| PortfolioListPage.ImageName | app/admin/portfolio/page.tsx:39-46 | the dialog names the image by title, else URL, else "this image"; the name is never empty |
| PortfolioListPage.Alert | app/admin/portfolio/page.tsx:72-85 | there is an alert exactly when the delete did not succeed |
| PortfolioListPage.Page.Load | app/admin/portfolio/page.tsx:25-37 | a successful load replaces the list; nothing else changes |
| PortfolioListPage.Page.HandleDelete | app/admin/portfolio/page.tsx:39-46 | the dialog opens with the id and the image's name; nothing else changes |
| PortfolioListPage.Page.BeginDelete | app/admin/portfolio/page.tsx:48-53 | with no pending id nothing changes; otherwise the dialog closes and `deletingId` is set before the request |
| PortfolioListPage.Page.FinishDelete | app/admin/portfolio/page.tsx:66-92 | success removes exactly that id; failure keeps the list and alerts; `deletingId` is cleared every time |
| PortfolioListPage.Page.ConfirmDelete | app/admin/portfolio/page.tsx:48-92 | confirming either does nothing, when no id is pending, or closes the dialog and finishes the delete |
| PortfolioListPage.OpenThenConfirm | app/admin/portfolio/page.tsx:39-92 | opening then confirming for an id closes the dialog, clears `deletingId`, and removes the id only on success |
| ServicesListPage.ServiceName | app/admin/services/page.tsx:37-44 | the dialog names the service, or "this service"; never empty |
| ServicesListPage.Alert | app/admin/services/page.tsx:68-81 | there is an alert exactly when the delete did not succeed |
| ServicesListPage.Page.Load | app/admin/services/page.tsx:23-35 | a successful load replaces the list |
| ServicesListPage.Page.HandleDelete | app/admin/services/page.tsx:37-44 | the dialog opens with the id and the service's name |
| ServicesListPage.Page.BeginDelete | app/admin/services/page.tsx:46-50 | with no pending id nothing changes; otherwise the dialog closes before the request |
| ServicesListPage.Page.FinishDelete | app/admin/services/page.tsx:62-86 | an OK response removes exactly that id; otherwise the list is kept and an alert shown |
| ServicesListPage.Page.ConfirmDelete | app/admin/services/page.tsx:46-86 | confirming either does nothing or closes the dialog and finishes the delete |
| ServicesAddPage.Clean | app/admin/services/add/page.tsx:26-27 | trimming and dropping empty lines never adds a line |
| ServicesAddPage.CleanFrom | app/admin/services/add/page.tsx:26-27 | every kept URL is non-empty and the trim of some line |
| ServicesAddPage.CleanKeeps | app/admin/services/add/page.tsx:26-27 | every non-blank line is kept, trimmed |
| ServicesAddPage.ImageListIff | app/admin/services/add/page.tsx:24-27 | there are at most as many URLs as lines; each is non-empty and trimmed; each non-blank line is kept |
| ServicesAddPage.ImageListKeepsOrder | app/admin/services/add/page.tsx:24-27 | the URLs keep the textarea's line order |
| ServicesAddPage.Payload | app/admin/services/add/page.tsx:34-38 | the payload is the form with `images` as the list and the parsed price, `null` when it is not a number |
| ServicesAddPage.PayloadAcceptedIff | app/admin/services/add/page.tsx:34-38 | the route accepts the payload exactly when the name is not blank, the description and details are not empty, and the price parses to a number ≥ 0 |
| ServicesAddPage.Submit | app/admin/services/add/page.tsx:41-49 | navigates to `/admin/services` exactly on `response.ok`, otherwise stays with the failure or error alert; SubmitNavigatesIffStored ties it to POST |
| ServicesAddPage.SubmitNavigatesIffStored | app/admin/services/add/page.tsx:19-50 | against the POST route, `response.ok` holds and the page moves to `/admin/services` exactly when there is a session, no fault and `Service.create` accepts the payload; the created service is then the one new document, and otherwise nothing is stored |
| RequestServicePage.Load | app/request-service/page.tsx:21-48 | a successful load stores the services; a matching `serviceId` selects that service; anything else keeps the form |
| RequestServicePage.ChooseService | app/request-service/page.tsx:50-58 | the selection sets `serviceId`, and `serviceName` to the matching name or "" |
| RequestServicePage.SelectionKeepsOtherFields | app/request-service/page.tsx:34-57 | selecting a service changes no other form field |
| RequestServicePage.SubmittedRequestPending | models/Order.ts:54 | a request the form submits is stored as pending |
| RequestServicePage.FormHasNoStatus | app/request-service/page.tsx:11-19 | the form never gains a status |
| RequestServicePage.Submit | app/request-service/page.tsx:60-83 | navigates to the success page exactly on `response.ok`, otherwise stays with the failure or error message; SubmitNavigatesIffStored ties it to POST |
| RequestServicePage.SubmitNavigatesIffStored | app/request-service/page.tsx:60-83 | against the public POST route, `response.ok` holds and the page moves to the success page exactly when there is no fault and `Order.create` accepts the form; the created request is then the one new document, and otherwise nothing is stored |

## Left out

- Database driver, connection caching and the Mongoose internals are not part of this model. The store is a sequence of rows:
  - `findOne()` takes the head;
  - `find().sort()` is a stable sorted copy, with ties in insertion order;
  - an update by id replaces one document;
  - a driver fault is a parameter that fires before any write.
- Mongoose behaviour is assumed rather than derived from its source:
  - defaults fill only missing paths, and only on create;
  - `required` on a String fails for missing, `null` and "";
  - `enum` lets a missing value through and refuses `null`;
  - `trim`/`lowercase` setters also apply to query filters;
  - a filter on an undefined value, such as `findOne({ email: undefined })`, matches every document (RegisterRoute.EmailTaken, RegisterRoute.MissingEmailMatchesAny).
- Validation error texts are reduced to "<Model> validation failed".
- The driver's unique-index error (`AdminModel.DuplicateKey`) is reduced to "E11000 duplicate key error". The real message also names the collection, the index and the key, and the register route sends it back as the 400 body.
- Text.ToLower maps only the ASCII letters A-Z. `toLowerCase` follows the whole Unicode case mapping ("É" to "é"). So AdminModel.EmailCaseInsensitive, RegisterRoute.DuplicateEmailRefused and Auth.FindByEmail say nothing about non-ASCII letters in an email.
- `encodeURIComponent` throws a `URIError` on a lone surrogate. A Dafny string holds only Unicode scalar values, so that input and its error path cannot be represented.
- The `_id` of sub-documents is not modelled, nor is the `.lean()`/JSON round trip of the loaded documents.
- New `_id`s and `createdAt` times come in as a `Stamp` parameter; their uniqueness and their clock are not modelled.
- next-auth's `withAuth` is not part of this model; its behaviour is assumed from its v4 interface. It passes its configured sign-in page through before consulting the `authorized` callback, sends a refused request to that page with the path and query as the callback, and otherwise runs the wrapped middleware. Its other pass-through paths (its error page, `/_next`, `/favicon.ico`) are not selected by the matcher, so they are not modelled.
- `bcrypt.hash`/`compare` are function parameters. The internals of next-auth are not modelled: JWT signing, the cookie settings (lib/auth.ts:82-95) and how a session is found. A session is a boolean or an object given to the handler.
- Concurrency is not modelled: the `Promise.all` fan-out and the find-then-create race. Requests run one after another.
- AboutModel.Experience, AboutModel.Skill, NavbarSettingsModel.NavLink, SiteSettingsModel.CtaButton and PortfolioModel.Portfolio hold their Mongoose `Number` paths (experience and skill `order`, skill `level`, nav-link, button and image `order`) as `int`. A fractional level or order sent straight to the API, such as `level: 99.5` or `order: 1.5`, is not represented; the admin pages always send `parseInt` results. So AboutModel.SkillAcceptsIff, HomePage.CtaLinksOrdered, SettingsPage.NavRowsOrdered and PortfolioRoute.Gallery hold only over integer values.
- `parseFloat` is not modelled. The price reaches the services form as `Option<real>`, with `None` standing for NaN, which serialises as `null`. A NaN skill level or order is not modelled.
- Dates are an abstract integer ordering key; date formatting is not modelled.
- UI side effects are recorded as values only. An alert or message becomes a string, and navigation becomes `Navigate`/`Stay`. Animations, `setTimeout` and logging are not modelled.
- SettingsPage.UpdateQuickLink, SettingsPage.UpdateCtaButton, SettingsPage.UpdateNavLink and ContactPage.UpdateSocialMedia are modelled on values. The source writes into the array element shared with the previous state, and that aliasing is not captured.
- The admin pages keep only the document itself. The `_id` and timestamps the server echoes back are not modelled.
- A `null` array in the loaded about data makes the real page throw. The editors here work on sequences, so this case is not modelled.
- models/ServicesPageSettings.ts is covered only through its two defaults, in `ServicesPageSettingsRoute.Create`.
- The presentational pages and components are not part of this model: markup, classes, and the literal fallbacks of the about, contact, services, dashboard and users pages, Navbar, Footer, ServiceCard and ConfirmDialog.
- Link and button `label` fields are named `labelText`, because `label` is a reserved word in Dafny.
