# FaceRide wiki — a Dafny model of its authorization and reconciliation core

The FaceRide wiki is a thin web client over a hosted document store. It has
two collections: `users` (one profile per account) and `wiki_pages` (the
entries). An identity provider keeps the accounts and a `role` claim for each
of them. This project models the statable logic inside that client and its
server functions, and proves properties of it.

- **Privileged server operations.** These are `setRole`, `syncUsers`,
  `onuserdeleted`, `makeFirstUserAdmin`, `grantAdminRole` and the
  `onUserUpdate` propagation of a renamed or re-pictured user into the pages
  they wrote or last edited. They are methods over a `Backend` object. It holds
  the accounts in listing order, the claims map, and the two collections as
  maps from id to document.
- **The client session.** `syncUser`, the snapshot resync rule, `login` with
  username resolution, `updateUserProfile`, `forceRefresh` and `logout` are
  modelled as a `Session` class.
- **Content authorization and visibility.** This covers:
  - the editor's and the admin dashboard's delete gates;
  - the edit and create gate;
  - the admin page gate;
  - the published-only query for non-editors;
  - the search filter, the entry preview and `stripHtml`.
- **The cart.** It is a keyed list of lines with add, remove, clear and
  totals, modelled as a `CartProvider` class.
- **The editor.** Tag parsing, change detection, the saved record,
  deletion and AI-content insertion are modelled as an `ArticleEditor` class.
- **Small helpers:**
  - `retry`, as a loop proved against its recursive definition;
  - the emit-then-rethrow wrapper for writes;
  - the login and sign-up forms;
  - the display-name, Dev-badge and avatar fallbacks;
  - the associate lookup;
  - the auth-page layout rule;
  - the header's search route. Its `encodeURIComponent` and the search page's
    query decoding are modelled, with a proved round trip.

Calls into the platform, such as claim writes, document reads and writes, and
sign-in, are modelled on the `Backend` state or taken as parameters.
- Whether a write is refused by the security rules is a `rejection`
  parameter.
- The outcome of an operation the model cannot see is a parameter: a retried
  operation's k-th result, an identity-provider sign-up, the email-format
  check.

Two field names for an entry's author are used inconsistently, and the model
keeps the inconsistency as it is.
- The editor stores a new entry's author under `author` and checks `author`
  in its own delete gate.
- The admin dashboard's delete gate checks `authorId`.
- The `onUserUpdate` propagation queries pages by `authorId`.

The lemmas in `AuthorFields` state the consequences:
- an entry created in the editor has no `authorId`;
- so its Editor author may delete it in the editor but not from the dashboard;
- and its author name and photo are never refreshed when the author's profile
  changes.

Similarly, `syncUsers` lists only the first 1000 accounts. The model takes
that first page as the set of known accounts. Lemmas show that any profile
beyond it is deleted as a "ghost" (`SyncDeletesUnlisted`) and that a profile
within it is kept (`SyncKeepsListed`).

## Model

| member | source | states |
|---|---|---|
| Common.ParseRole | src/functions/lib/src/index.js:18 | a role string is accepted iff it is "Admin", "Editor" or "Viewer", and the accepted role has that name |
| Common.RoleNameRoundTrip | src/functions/lib/src/index.js:18 | every role's name parses back to the same role |
| FunctionsLib.ParseRoleArgs | src/functions/lib/src/index.js:17-20 | the arguments are valid iff the uid is a string and the role is one of the three names |
| FunctionsLib.SetRole | src/functions/lib/src/index.js:12-30 | a non-Admin caller gets permission-denied with no writes; bad arguments give invalid-argument with no writes; on success the claim and the profile's role both hold the new role; a missing profile leaves the claim written and gives internal; a missing account gives internal with no writes |
| FunctionsLib.OnUserDeleted | src/functions/lib/src/index.js:36-47 | exactly the deleted account's profile is removed; nothing else changes |
| FunctionsLib.FirstPage | src/functions/lib/src/index.js:67 | the listed accounts are a prefix of at most 1000 accounts, and all of them when there are no more |
| FunctionsLib.GhostIds | src/functions/lib/src/index.js:72-77 | a profile id is a ghost iff it is not among the listed accounts |
| FunctionsLib.SyncUsers | src/functions/lib/src/index.js:52-97 | a non-Admin caller gets permission-denied and nothing is deleted; otherwise exactly the ghost profiles are removed, deletedCount is their number, and the in-sync message comes back iff there are none |
| FunctionsLib.SyncIdempotent | src/functions/lib/src/index.js:79-81 | after a sync, a second sync finds no ghosts |
| FunctionsLib.SyncKeepsListed | src/functions/lib/src/index.js:67-68 | a profile of an account within the first 1000 is never a ghost |
| FunctionsLib.SyncDeletesUnlisted | src/functions/lib/src/index.js:67 | a profile of an account listed after the first 1000 is a ghost, although its account exists |
| FunctionsSrc.CallerUid | src/functions/src/index.ts:40-43 | the caller has a uid iff it is authenticated with a non-empty uid |
| FunctionsSrc.MakeFirstUserAdmin | src/functions/src/index.ts:21-59 | with any Admin profile present the result is already-exists with no writes, before authentication is checked; with no uid it is unauthenticated; otherwise the claim is Admin and, when the profile exists, the profile role is Admin and an Admin exists afterwards; a missing profile gives internal after the claim write |
| FunctionsSrc.AdminPersists | src/functions/src/index.ts:34-37 | changing a non-Admin profile's role keeps an existing Admin, so the first-admin call stays refused |
| FunctionsSrc.GrantAdminRole | src/functions/src/index.ts:172-196 | any authenticated caller gets an Admin claim and an Admin role merged into its profile, created if missing; no uid gives unauthenticated |
| FunctionsSrc.UpdateData | src/functions/src/index.ts:93-99 | a name field is written iff the display name changed, a photo field iff the photo changed, each with the new value, and nothing else |
| FunctionsSrc.UserUpdateOutcome | src/functions/src/index.ts:64-83 | the pages are untouched when either snapshot is missing or neither name nor photo changed |
| FunctionsSrc.UpdatesNonEmpty | src/functions/src/index.ts:100-101 | when the name or the photo changed, both update maps are non-empty, so every matching page is written |
| FunctionsSrc.StageUpdates | src/functions/src/index.ts:92-103 | the batch loop succeeds iff no staged value is undefined, and then stages the update on exactly the matching pages |
| FunctionsSrc.PropagateChanges | src/functions/src/index.ts:88-120 | the two queries' updates are staged without an error iff Throws does not hold, and the staged pages are the propagated ones |
| FunctionsSrc.OnUserUpdate | src/functions/src/index.ts:64-126 | the pages become the outcome of the propagation; users, accounts and claims are untouched |
| FunctionsSrc.StagedIsRefresh | src/functions/src/index.ts:90-119 | staging the author query's update and then the editor query's update gives each page its own refresh |
| FunctionsSrc.RefreshFields | src/functions/src/index.ts:90-119 | each author field changes only on pages with authorId equal to the user and only when its source field changed; likewise each last-editor field for lastEditorId; a page matching both gets both |
| FunctionsSrc.RefreshKeepsOtherFields | src/functions/src/index.ts:93-118 | no field outside the four denormalized ones is touched |
| FunctionsSrc.ThrowsOnlyOnRemovedField | src/functions/src/index.ts:121-125 | the batch fails, and nothing is committed, iff some page matches and a changed name or photo was removed from the profile |
| FunctionsSrc.OutcomePages | src/functions/src/index.ts:88-125 | when nothing throws, every page ends as its own refresh |
| Auth.TokenRole | src/lib/auth.tsx:57-58 | the role is the account's claim, or Viewer when it has none |
| Auth.CachedFromDoc | src/lib/auth.tsx:63-64 | the cached user is the profile's fields plus the uid, with the token role overriding the stored role |
| Auth.NewUserDoc | src/lib/auth.tsx:65-73 | a new profile has exactly uid, email, role, displayName and photoURL, with the token role and the default avatar when there is no photo |
| Auth.Session.SyncUser | src/lib/auth.tsx:48-82 | no account clears the cached user; an existing profile is cached with the token role; a missing one is written and cached; a failing step keeps the cached user; loading always ends false |
| Auth.Session.ForceRefresh | src/lib/auth.tsx:160-164 | with no account nothing changes; otherwise the signed-in account is synced: each failing step keeps the cached user and the profiles, an existing profile is cached with the token role, a missing one is written and cached |
| Auth.Session.UpdateUserProfile | src/lib/auth.tsx:146-158 | with no account it throws "Not authenticated"; otherwise only the given fields are sent and merged into the profile and into a cached user, and a null cached user stays null |
| Auth.Session.Logout | src/lib/auth.tsx:137-144 | a successful sign-out clears the account and the cached user; a failed one changes nothing |
| Auth.ProfileUpdates | src/lib/auth.tsx:149-152 | the update holds exactly the fields that were given, with their values |
| Auth.ResyncAfterSync | src/lib/auth.tsx:92-99 | after a sync from an existing profile, a resync happens iff the stored role is set and differs from the token role |
| Auth.NoResyncAfterCreate | src/lib/auth.tsx:92-99 | a freshly created profile never triggers a resync |
| Auth.FirstWithDisplayName | src/lib/auth.tsx:111-118 | the first profile whose displayName equals the name, or none iff no profile has it |
| Auth.ResolveEmail | src/lib/auth.tsx:108-120 | input with '@' is the email; otherwise "User not found" is thrown iff no profile has that displayName, and else the first match's email is used |
| Auth.Login | src/lib/auth.tsx:107-128 | an unknown display name fails with "User not found"; once an email is resolved (the input itself, or the first matching profile's email), the sign-in succeeds iff that email's stored password matches, and it signs into that email |
| Cart.Find | src/context/cart-context.tsx:27-29 | the first line with the item's id and size, or none iff there is no such line |
| Cart.Increment | src/context/cart-context.tsx:32-36 | exactly the matching lines gain one in quantity; order and every other line are unchanged |
| Cart.Removed | src/context/cart-context.tsx:43 | the lines kept are exactly those not matching both id and size |
| Cart.CartProvider.AddToCart | src/context/cart-context.tsx:25-40 | the cart becomes the added cart and stays well formed: no two lines share id and size, and every quantity is at least 1 |
| Cart.CartProvider.RemoveFromCart | src/context/cart-context.tsx:42-44 | the cart becomes the removed cart and stays well formed |
| Cart.CartProvider.ClearCart | src/context/cart-context.tsx:46-48 | the cart is empty, with total price and total items 0 |
| Cart.AddNewAppends | src/context/cart-context.tsx:38 | adding an absent (id, size) appends one line of quantity 1 at the end |
| Cart.AddExistingIncrements | src/context/cart-context.tsx:31-36 | adding a present (id, size) increments only that line |
| Cart.SizesAreSeparateLines | src/context/cart-context.tsx:28 | adding a size never affects the line of another size of the same item |
| Cart.AddedWellFormed | src/context/cart-context.tsx:25-40 | adding keeps the cart well formed |
| Cart.AddedTotals | src/context/cart-context.tsx:50 | adding raises the item count by 1 and the total by the line's price |
| Cart.TotalsAppend | src/context/cart-context.tsx:50 | the reduce step: appending a line adds price times quantity to the total |
| Cart.RemovedIdempotent | src/context/cart-context.tsx:43 | removing twice is removing once |
| Cart.RemovedNothing | src/context/cart-context.tsx:43 | removing an absent (id, size) changes nothing |
| Cart.RemovedTotals | src/context/cart-context.tsx:50 | removing lowers the totals by exactly the removed line's share |
| Cart.RemovedWellFormed | src/context/cart-context.tsx:42-44 | removing keeps the cart well formed |
| Cart.EmptyCart | src/context/cart-context.tsx:50 | the empty cart is well formed with both totals 0 |
| NonBlockingUpdates.HandleFirestoreOperation | src/firebase/non-blocking-updates.tsx:17-35 | on success the value comes back and nothing is emitted; on failure exactly one permission request, carrying path, operation, data and the original error, is emitted and then thrown |
| NonBlockingUpdates.SetDocument | src/firebase/non-blocking-updates.tsx:42-51 | an allowed set replaces the document; a refused one writes nothing and emits a write request |
| NonBlockingUpdates.AddDocument | src/firebase/non-blocking-updates.tsx:56-65 | an allowed add stores the document under the new id; a refused one emits a create request on the collection |
| NonBlockingUpdates.UpdateDocument | src/firebase/non-blocking-updates.tsx:70-79 | an allowed update of an existing document merges the fields; a refused one or one on a missing document emits an update request |
| NonBlockingUpdates.DeleteDocument | src/firebase/non-blocking-updates.tsx:84-92 | an allowed delete removes the document; a refused one emits a delete request without data |
| Access.RoleOf | src/components/layout/sidebar.tsx:90 | a parsed role is the user's role string |
| Access.CanEditIffRole | src/app/page.tsx:42 | editing is allowed iff the role is Admin or Editor, and admin rights iff the role is Admin |
| Access.AdminCanEdit | src/components/layout/sidebar.tsx:90 | an Admin can always edit |
| ArticleEditor.CanDeleteByRole | src/components/article-editor.tsx:133 | an Admin may delete any open entry; an Editor iff the entry's `author` is its uid; a Viewer never; deleting implies editing rights |
| ArticleEditor.ParseTags | src/components/article-editor.tsx:175 | the tags are the trimmed comma-separated parts, one more than the commas |
| ArticleEditor.ParsedTagsClean | src/components/article-editor.tsx:175 | no tag contains a comma or starts or ends with white space |
| ArticleEditor.CheckChanges | src/components/article-editor.tsx:178-182 | the check throws iff the title is unchanged and the stored tags are missing; the tags passed on are the new ones, sorted exactly when the title is unchanged, and always a permutation of them |
| ArticleEditor.NoChangesIff | src/components/article-editor.tsx:177-192 | no change is detected iff title, content and image are equal and the stored tags are a permutation of the new ones |
| ArticleEditor.ArticleData | src/components/article-editor.tsx:195-203 | the saved fields are the form values, the tags, the image, a server timestamp, the uid, displayName or else email, and photoURL or else null |
| ArticleEditor.NewArticleDoc | src/components/article-editor.tsx:211-220 | a new entry adds its id, a creation timestamp, `author` set to the uid, the author name and photo from the editor fields, and viewCount 0 |
| ArticleEditor.NewArticleRecord | src/components/article-editor.tsx:211-220 | a new entry's author and last editor are the same uid and it has no `authorId` |
| ArticleEditor.Plan | src/components/article-editor.tsx:167-224 | no user means no write; an existing entry is updated or left alone; a new one is created under the new id |
| ArticleEditor.UnchangedEditWritesNothing | src/components/article-editor.tsx:177-192 | an edit with equal title, content, image and tags writes nothing and returns to the entry |
| ArticleEditor.MissingImageAlwaysChanged | src/components/article-editor.tsx:182 | an entry stored without an image always counts as changed, since undefined differs from "" |
| ArticleEditor.InsertGenerated | src/components/article-editor.tsx:314-315 | the result is the generated text when the content is empty, else content, "<br>", generated |
| ArticleEditor.ArticleEditor.constructor | src/components/article-editor.tsx:110 | the editor starts with the entry's image and content, or empty ones |
| ArticleEditor.ArticleEditor.InsertIntoEditor | src/components/article-editor.tsx:312-319 | non-empty generated text is inserted with a "Content Inserted" toast, and the dialog closes either way |
| ArticleEditor.ArticleEditor.HandleDelete | src/components/article-editor.tsx:152-165 | without delete permission nothing happens; an allowed delete removes the entry, toasts and goes home; a refused one toasts "Delete Failed" and ends not submitting |
| ArticleEditor.ArticleEditor.OnSubmit | src/components/article-editor.tsx:167-232 | each plan has its outcome: an authentication toast, a failure toast, a no-change return, a merged update or a created entry, with the right toast and route; submitting ends false |
| ArticleEditor.ArticleEditor.SaveEdit | src/components/article-editor.tsx:205-209 | an allowed update merges the saved fields into the entry and routes to it; otherwise "Submission Failed" |
| ArticleEditor.ArticleEditor.SaveNew | src/components/article-editor.tsx:211-223 | an allowed create stores the record under the new id and routes to it; otherwise "Submission Failed" |
| AuthorFields.CreatedRecordAuthor | src/components/article-editor.tsx:216 | a created entry holds its author under `author` only, so the propagation's author test never matches it |
| AuthorFields.EditorsOwnEntry | src/app/admin/page.tsx:294 | an Editor may delete its own new entry in the editor but not from the dashboard |
| AuthorFields.AuthorNameGoesStale | src/functions/src/index.ts:90 | the author query never finds an editor-created entry, so its author name and photo are never refreshed |
| AdminPage.PageView | src/app/admin/page.tsx:76-82 | the dashboard shows iff loading is over and the user is an Admin; otherwise a waiting or denial view |
| AdminPage.Redirect | src/app/admin/page.tsx:69-74 | the page redirects to "/" iff loading is over and the user is not an Admin |
| AdminPage.UsersQuery | src/app/admin/page.tsx:57-62 | the users collection is queried iff the user is an Admin |
| AdminPage.DashboardDeletesAll | src/app/admin/page.tsx:294 | whoever sees the dashboard may delete every entry |
| AdminPage.CanDeleteArticleByRole | src/app/admin/page.tsx:294 | an Editor may delete an entry iff its `authorId` is its uid; a Viewer never |
| AdminPage.OnlyOwnRowDisabled | src/app/admin/page.tsx:251 | the admin's own row has its role menu disabled, and with distinct uids no other row does |
| AdminPage.OneItemDisabled | src/app/admin/page.tsx:258-260 | at most one role item is disabled, the user's current role, and none for an unknown role |
| AdminPage.Stats | src/app/admin/page.tsx:84-87 | the counts are the list lengths, or 0 when a list is absent |
| AdminPage.Dashboard.constructor | src/app/admin/page.tsx:54-55 | no deletion is pending and there are no toasts |
| AdminPage.Dashboard.ConfirmArticleDelete | src/app/admin/page.tsx:89-108 | with no target nothing happens; an allowed delete removes the entry; a refused one emits a delete request; either way the right toast appears and the target is cleared |
| AdminPage.Dashboard.ConfirmUserDelete | src/app/admin/page.tsx:110-129 | the same for a user's profile |
| AdminPage.Dashboard.HandleRoleChange | src/app/admin/page.tsx:132-148 | the role call's success gives "User Role Updated", sets the target's claim and profile role and changes no other entry; failure gives "Update Failed": a non-Admin caller or a missing account changes nothing, a missing profile still gets the claim |
| ListPages.Fetched | src/app/search/page.tsx:37-41 | the published-only query returns exactly the published entries |
| ListPages.SearchQuery | src/app/search/page.tsx:34-42 | Admins and Editors query the whole collection, everyone else only published entries |
| ListPages.NonEditorsSeePublished | src/app/search/page.tsx:37-41 | a non-editor only ever sees published entries |
| ListPages.SearchTerm | src/app/search/page.tsx:30 | the term is the lowercased parameter, or empty when it is absent |
| ListPages.SearchResults | src/app/search/page.tsx:46-52 | an empty term keeps every entry, and the results come from the fetched entries |
| ListPages.SearchIsMentioning | src/app/search/page.tsx:46-52 | the results are the order-preserving filter of entries whose lowercased title, content or some tag contains the term |
| ListPages.Heading | src/app/search/page.tsx:54 | "All Entries" for an empty term, else `Search Results for "q"` |
| ListPages.ExploreQuery | src/app/explore/page.tsx:33-36 | no query while authentication is loading, else newest first |
| Articles.Mentioning | src/components/layout/sidebar.tsx:44-48 | the entries kept are exactly those mentioning the term, each once |
| Articles.MentioningConcat | src/app/search/page.tsx:46-52 | the filter distributes over concatenation, so it preserves order |
| Articles.MentionsIffOccurs | src/app/search/page.tsx:49-51 | an entry mentions a term iff the term occurs in its lowercased title, content or a tag; missing tags count as none |
| Articles.MentionsEmpty | src/app/search/page.tsx:49-51 | every entry mentions the empty term |
| Articles.Preview | src/app/page.tsx:105 | the preview is at most the first 200 stripped characters followed by "..." |
| Articles.PreviewOfPlainText | src/app/explore/page.tsx:74 | the preview of tag-free text is its first 200 characters |
| Articles.AuthorLabel | src/app/page.tsx:115 | the label is the author's display name when set, else the authorId |
| Articles.ViewCountShownIff | src/app/explore/page.tsx:86 | the view counter shows iff a count is stored, a count of zero included |
| Html.StripHtml | src/app/page.tsx:44-48 | stripping never lengthens the text |
| Html.NoOpenUnchanged | src/app/page.tsx:47 | text without '<' is unchanged |
| Html.TagRemoved | src/app/page.tsx:47 | a run of '<', one or more non-'>' characters and '>' is removed |
| Html.StrippedTagFree | src/app/explore/page.tsx:39-41 | stripped text contains no further tag |
| Html.StripIdempotent | src/app/explore/page.tsx:39-41 | stripping twice is stripping once |
| Sidebar.AssociateArticleCount | src/components/layout/sidebar.tsx:41-49 | the count is 0 while entries are loading and never exceeds their number |
| Sidebar.CountIsSearchCount | src/components/layout/sidebar.tsx:43-48 | the count is the number of search results for the lowercased name |
| Sidebar.TaggedEntryCounts | src/components/layout/sidebar.tsx:47 | an entry tagged with the name makes the count positive |
| Sidebar.NavLinks | src/components/layout/sidebar.tsx:139-172 | the explore link comes first; the create link shows iff the user can edit, the admin link iff the user is an Admin; no link repeats and nothing else shows |
| Sidebar.AdminLinkImpliesCreate | src/components/layout/sidebar.tsx:156 | an admin link always comes with a create link, and a Viewer sees only the explore link |
| Sidebar.SignedInBlock | src/components/layout/sidebar.tsx:176-190 | the placeholder shows while loading; a signed-in user's label is the username fallback; a user without display name or email fails to render |
| UserLabels.Username | src/app/admin/page.tsx:245 | the display name when set, else the email's prefix that ends just before its first '@' (the whole email when it has none) |
| UserLabels.ShownName | src/components/ui/user-display-name.tsx:11 | the display name when set, else "..." |
| UserLabels.DevBadgeIff | src/components/ui/user-display-name.tsx:12 | the badge shows iff the lowercased display name is "maxplasss" |
| UserLabels.DevBadgeIgnoresCase | src/components/ui/user-display-name.tsx:12 | any capitalisation of the name gets the badge |
| UserLabels.AvatarFallback | src/components/layout/header-client.tsx:103 | one upper-cased character of the display name, else of the email, else "U" |
| HeaderClient.CartBadge | src/components/layout/header-client.tsx:87 | the badge shows iff the item count is positive, with that count |
| HeaderClient.TotalItemsAtLeastLines | src/components/layout/header-client.tsx:34 | with every quantity at least 1 the item count is at least the number of lines |
| HeaderClient.BadgeIffNonEmpty | src/components/layout/header-client.tsx:87 | for a well-formed cart the badge shows iff the cart is non-empty |
| HeaderClient.SearchRoute | src/components/layout/header-client.tsx:37-46 | an empty query routes to /search, any other to /search?q= and an encoded query with no separator in it |
| HeaderClient.SearchRouteRoundTrip | src/app/search/page.tsx:30 | the search page reads back exactly the lowercased query the header routed to |
| Uri.Utf8 | src/components/layout/header-client.tsx:42 | a character is one to four UTF-8 bytes, and one byte with its own value iff it is ASCII |
| Uri.Encode | src/components/layout/header-client.tsx:42 | the encoding is no shorter than the input and uses only unreserved characters, '%' and hex digits |
| Uri.EncodedHasNoSeparators | src/components/layout/header-client.tsx:42 | the encoding contains no '&', '#', space or '+', so the query parameter ends with the route |
| Uri.EncodeUnreserved | src/components/layout/header-client.tsx:42 | unreserved text is encoded as itself |
| Uri.Utf8Decodes | src/app/search/page.tsx:30 | decoding one encoded character and a rest gives that character before the rest's decoding |
| Uri.EscapesDecode | src/app/search/page.tsx:30 | percent-escapes decode back to their bytes |
| Uri.DecodeEncode | src/app/search/page.tsx:30 | decoding the encoding of any text gives the text back |
| Retry.Run | src/lib/utils.ts:8-23 | the retry loop returns the result and the waits of the recursive definition |
| Retry.RetryShape | src/lib/utils.ts:8-23 | there are at most `retries` waits, the k-th being delay times 2^k; the result is the last run's outcome, all runs before it failed, and a failure comes back only after every retry |
| Retry.FirstSuccess | src/lib/utils.ts:13-19 | the result is the first success within retries + 1 runs, after that many waits |
| Retry.AllFail | src/lib/utils.ts:21 | when every run fails, the last run's error is rethrown after `retries` waits |
| Associates.FindById | src/lib/associates.ts:42-44 | an associate with the id found at an index before which no entry has that id, or none iff no id matches |
| Associates.GetAssociateById | src/lib/associates.ts:42-44 | a found associate is in the table and has the id; none iff no id matches |
| Associates.FindUnique | src/lib/associates.ts:43 | with distinct ids, the lookup finds the one entry with the id |
| Associates.LookupUnambiguous | src/lib/associates.ts:9-40 | every associate is found by its own id |
| MainLayout.Layout | src/components/layout/main-layout.tsx:14-32 | the page is shown centred iff it is an auth page, and otherwise inside the sidebar and header shell |
| MainLayout.ExactPathsOnly | src/components/layout/main-layout.tsx:12 | only exactly /login and /signup count as auth pages |
| LoginForm.LoginFieldErrors | src/components/auth/login-form.tsx:27-30 | the form is valid iff both fields are non-empty |
| LoginForm.ErrorDescription | src/components/auth/login-form.tsx:58-61 | "User not found" and the three credential codes give the incorrect-credentials text, anything else the generic text |
| LoginForm.RedirectTarget | src/components/auth/login-form.tsx:46-50 | a signed-in user is sent to "/" |
| LoginForm.LoginFailureText | src/components/auth/login-form.tsx:52-70 | an unknown username or a wrong password shows the incorrect-credentials text; a username whose profile has no email shows the generic text |
| LoginForm.Form.HandleSubmit | src/components/auth/login-form.tsx:52-70 | an invalid form only shows its field messages; a valid one signs in or shows "Login Failed" with the mapped text, and submitting ends false |
| SignupForm.SignupFieldErrors | src/components/auth/signup-form.tsx:27-31 | the form is valid iff the name has at least 3 characters, the email passes the email check and the password has at least 6 |
| SignupForm.SignupErrorDescription | src/components/auth/signup-form.tsx:62 | the error's message when non-empty, else the fallback text |
| SignupForm.Form.HandleSubmit | src/components/auth/signup-form.tsx:54-68 | an invalid form only shows its field messages; a valid one requests the account, shows "Sign-up Failed" on failure, and submitting ends false |
| Strings.Lower | src/app/search/page.tsx:30 | lowercasing maps each character and keeps the length |
| Strings.LowerIdempotent | src/app/search/page.tsx:49-51 | lowercasing twice is lowercasing once |
| Strings.ContainsIffOccurs | src/app/search/page.tsx:49-51 | `includes` holds iff the term occurs at some index |
| Strings.SplitLength | src/components/article-editor.tsx:175 | splitting gives one more part than there are separators |
| Strings.SplitJoin | src/components/article-editor.tsx:175 | joining the parts with the separator gives the input back |
| Strings.SplitPartsFree | src/components/article-editor.tsx:175 | no part contains the separator |
| Strings.TrimShape | src/components/article-editor.tsx:175 | trimming removes exactly the leading and trailing white space |
| Strings.TrimIdempotent | src/components/article-editor.tsx:175 | trimming twice is trimming once |
| Strings.Sort | src/components/article-editor.tsx:180 | the sorted tags are ordered and a permutation of the input |
| Strings.SortIgnoresOrder | src/components/article-editor.tsx:180 | two permutations of the same tags sort to the same list |
| Strings.SortedUnique | src/components/article-editor.tsx:180 | two sorted permutations of each other are equal |
| Strings.LexTotal | src/components/article-editor.tsx:180 | the default sort order is total |
| Strings.LexTransitive | src/components/article-editor.tsx:180 | the default sort order is transitive |
| Strings.LexAntisymmetric | src/components/article-editor.tsx:180 | the default sort order is antisymmetric |

## Left out

- I/O, timing and concurrency are not modelled: the real waits of `retry`, console logging, live snapshot listeners and races between them, and transient store or network failures. A call that can fail is a `rejection` or `failure` parameter.
- Image cropping and upload, storage helpers, the AI content route and hook, the rich-text editor widget, and getUnsplashImages, getGoogleFont and getResizedImage are outside the modelled core.
- `makeUserEditor`, src/functions/make-admin.js, temp_delete_all_view_counts.js and the declaration file src/functions/lib/src/index.d.ts are one-off or generated scripts, so they are left out.
- The static pages (about, guidelines, help, merchandise, cart, not-found) and the framework glue (layouts, header wrapper, providers, theme, analytics, `cn`) carry no statable logic.
- Auth `signup` (src/lib/auth.tsx:130-135) is not modelled, because it is identity-provider calls followed by `syncUser`. Its outcome is the `failure` parameter of SignupForm.Form.HandleSubmit.
- src/firebase/errors.ts is not part of this model, so a permission error's `message` is unknown. LoginForm.MessageOf gives none for it, and the sign-up fallback applies.
- Uri.Decode: decodes strictly, refusing malformed UTF-8, where the browser's query parser substitutes U+FFFD. Lone surrogate code units are outside the model, because Dafny characters are Unicode scalar values.
- HeaderClient.QueryParam: reads the `q` parameter only from routes of the shape the header builds, not general query strings.
- The editor form's zod schema and default values (article-editor.tsx:48-52, 126-130) are not modelled beyond the values being strings.
- The search page's DOM-based `stripHtml` (src/app/search/page.tsx:56-60) is not modelled; the pages' regex version is.
- Cart prices are integer cents, where the source uses floating point. The `toFixed` display and float rounding are left out.
- The store's ordering of query results is not modelled. ListPages.ExploreQuery only names the newest-first order, and the search and sidebar filters keep whatever order they receive.
- Strings.Lower: lowercasing covers ASCII letters only; `toLowerCase` maps all of Unicode.
- Strings in the model are sequences of Unicode scalar values, while the source's strings are UTF-16 code units. Lengths, `substring` and `charAt` therefore differ for characters outside the Basic Multilingual Plane. The lines below name the members this affects.
- UserLabels.AvatarFallback: takes the first scalar value, where `charAt(0)` takes one UTF-16 unit, and upper-cases ASCII letters only, where `toUpperCase` can map one character to several (German sharp s becomes "SS"). The promise that the fallback is exactly one character therefore holds for the model only.
- Articles.Preview: cuts after 200 scalar values, where `substring(0, 200)` counts UTF-16 units and can split a surrogate pair. The same holds for Articles.PreviewOfPlainText.
- SignupForm.SignupFieldErrors: the minimum lengths 3 and 6 count scalar values, where the schema counts UTF-16 units, so a name of two astral characters passes in the source but not in the model.
- Strings.Sort: orders strings by scalar value (Strings.LexLe), where the default `sort` compares UTF-16 units. The two orders differ only between astral characters and characters from U+E000 to U+FFFF.
- Route highlighting (`isActive`), the header dropdown's label, and the associates' logos and descriptions are display data, so they are left out.
- ArticleEditor.ArticleEditor.HandleDelete: when the delete is refused, the contract states only that one request is emitted, not its contents. The wrapper's own contract, NonBlockingUpdates.DeleteDocument, states the contents. The same holds for ArticleEditor.ArticleEditor.OnSubmit, ArticleEditor.ArticleEditor.SaveEdit and ArticleEditor.ArticleEditor.SaveNew.
