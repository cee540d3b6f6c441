# omnify blog: a Dafny model

This project models the logic of the omnify blog application. It has two
Spring services and a React client.

**The Spring services:**
- the blog store of the `backend` module and of the `omnify` module;
- the account service and its signup constraints;
- the `omnify` response mapping.

**The React client:**
- the session context;
- the dashboard, create, edit and view pages.

Files whose code changes state step by step are modelled as classes. Their
fields are the changing state: the repositories, the signed-in user and
browser storage, each page's React state. Their methods are the handlers.
Expression-only code is modelled as functions, and what the code promises
is proved as lemmas.

**How the environment is represented:**
- Java `null` is `None`, and exceptions are `Failure` values.
- `Instant.now()` and `Date.now()` become a `now` parameter.
- Repository-generated ids become a `freshId` parameter not yet in use.
- The repository's iteration order becomes an `order` parameter.
- The password encoder, the token generator, `JSON.parse`,
  `JSON.stringify` and the `@Email` check are functions the model is
  given; none of their properties is assumed.
- Each HTTP call a page awaits becomes a `Response` parameter. The page
  records what it sent and what it showed: the requests with their
  `Authorization` header (none for the dashboard's), the toasts, and where
  `navigate` sent the browser.

**Modules:**
- `Wrappers`: Option and Result.
- `Strings`: shared string operations.
- `JsText`: JavaScript trim, the `\s` class and `split(/\s+/)`. Whitespace
  is the exact ECMAScript WhiteSpace and LineTerminator set.
- `JavaText`: Java `trim` (code points up to U+0020), `isBlank` and
  `toLowerCase`.
- `Entities`: records and exceptions.
- `Paging`: `PageRequest` and `Page`.
- `BlogResponses`, `BackendBlogService`, `OmnifyBlogService`,
  `SignupRequests`, `AuthService`: the Spring side.
- `AuthContext`, `PageEffects` (toasts, the `||` fallback, requests),
  `BlogForm`, `Preview` (excerpt and read time), `Dashboard`,
  `CreateBlog`, `EditBlog`, `ViewBlog`: the client side.

**Notable behaviour of the code as written:**
- The `omnify` `fromEntity` passes content and author name in swapped
  positions, and the client then shows a post's content as its author.
- The session context stores its token under `omnify_token`. The create
  page reads `token`, and the edit and view pages read `authToken`. So a
  signed-in user never sends any of those three pages' requests. Lemmas
  state each consequence.
- The view page marks every post without an update stamp as updated. The
  dashboard never marks a post from the `omnify` service as updated.
- The dashboard sends its list and delete requests through the shared axios
  client (frontend/src/utils/api.ts), which sets only a content type and
  registers no interceptor. So those requests carry no `Authorization`
  header, although the backend lets only `/api/auth/**` through
  unauthenticated (SecurityConfig.java:33-34). The list request names no
  page or size, so the controller's defaults, page 0 of size 10, apply.

## Model

| member | source | states |
|---|---|---|
| BackendBlogService.PatchKeepsSupplied | backend/src/main/java/com/assignment/omnify/service/BlogService.java:73-78 | a field's update keeps a non-blank value non-blank; applying it twice equals applying it once; the result is the old value or the request's |
| BackendBlogService.Supplied | backend/src/main/java/com/assignment/omnify/service/BlogService.java:73-76 | the update's test on a request field: not null and not blank |
| BackendBlogService.Patch | backend/src/main/java/com/assignment/omnify/service/BlogService.java:73-78 | one field's update: a supplied request value replaces the stored one, anything else keeps it |
| BackendBlogService.Updated | backend/src/main/java/com/assignment/omnify/service/BlogService.java:73-81 | the saved blog keeps id, owner and creation stamp; takes each of title and content from the request only when it is non-null and not blank (Java `isBlank`), independently; and has `updatedAt` set to now |
| BackendBlogService.Responses | backend/src/main/java/com/assignment/omnify/service/BlogService.java:47-51 | mapping a page's blogs succeeds exactly when every author exists, with responses in page order, each the blog paired with its author's name; otherwise "User not found" |
| BackendBlogService.BlogService.CreateBlog | backend/src/main/java/com/assignment/omnify/service/BlogService.java:27-40 | the new blog (caller as owner, the request's title and content, created now, no update stamp) is stored under a fresh id before the author lookup; so an unknown author gives "User not found" with the blog still stored; otherwise the response pairs it with the author's name |
| BackendBlogService.BlogService.GetAllBlogs | backend/src/main/java/com/assignment/omnify/service/BlogService.java:42-52 | a negative page or a size below one is rejected; otherwise the page's slice of the repository order, each blog with its author's name, page number, size and total; "User not found" exactly when some author on the page is missing |
| BackendBlogService.BlogService.GetBlogById | backend/src/main/java/com/assignment/omnify/service/BlogService.java:54-62 | "Blog not found" for an absent id, "User not found" for a missing author, otherwise that blog with its author's name |
| BackendBlogService.BlogService.UpdateBlog | backend/src/main/java/com/assignment/omnify/service/BlogService.java:65-87 | NOT_FOUND "Blog not found" for an absent id and FORBIDDEN "You are not the author of this blog" for another caller, both with the store unchanged; for the owner, exactly that blog becomes `Updated` and every other blog stays |
| BackendBlogService.BlogService.DeleteBlog | backend/src/main/java/com/assignment/omnify/service/BlogService.java:90-99 | "Blog not found" and "You are not allowed to delete this blog" leave the store unchanged; the owner's call removes exactly that blog |
| OmnifyBlogService.Overwritten | omnify/src/main/java/com/assignment/omnify/service/BlogService.java:69-70 | the blog takes the request's title and content as they are, null and blank included; id, owner and both stamps stay |
| OmnifyBlogService.OverwriteAgreesWithPatchIff | omnify/src/main/java/com/assignment/omnify/service/BlogService.java:61-78 | setting the backend's stamp aside, the two updates agree exactly when each request field is supplied or equal to the stored one |
| OmnifyBlogService.BlogService.CreateBlog | omnify/src/main/java/com/assignment/omnify/service/BlogService.java:23-36 | as the backend: stored under a fresh id before the author lookup, then the response or "User not found"; no stored blog ever has an update stamp |
| OmnifyBlogService.BlogService.GetAllBlogs | omnify/src/main/java/com/assignment/omnify/service/BlogService.java:38-48 | as the backend's paged listing |
| OmnifyBlogService.BlogService.GetBlogById | omnify/src/main/java/com/assignment/omnify/service/BlogService.java:50-58 | "Blog not found", "User not found", or the blog with its author's name |
| OmnifyBlogService.BlogService.UpdateBlog | omnify/src/main/java/com/assignment/omnify/service/BlogService.java:61-78 | "Blog not found" and "You are not allowed to edit this blog" leave the store unchanged; the owner's call overwrites exactly that blog and never sets `updatedAt` |
| OmnifyBlogService.BlogService.DeleteBlog | omnify/src/main/java/com/assignment/omnify/service/BlogService.java:80-89 | "Blog not found" and "You are not allowed to delete this blog" leave the store unchanged; the owner's call removes exactly that blog |
| Paging.PageOf | backend/src/main/java/com/assignment/omnify/service/BlogService.java:43-45 | a page holds at most `size` elements |
| Paging.TotalPages | backend/src/main/java/com/assignment/omnify/service/BlogService.java:43-45 | the page count of the listing: the least number of pages of the requested size that holds every blog |
| Paging.FirstPagesArePrefix | omnify/src/main/java/com/assignment/omnify/service/BlogService.java:39-41 | the pages read in turn give the repository order with no gap or repeat: the first n pages are the first n·size elements |
| Paging.PageNonEmptyIff | backend/src/main/java/com/assignment/omnify/service/BlogService.java:43 | for a positive size, a page has content exactly when its index is below the page count |
| BlogResponses.FromEntity | omnify/src/main/java/com/assignment/omnify/dto/BlogResponse.java:22-30 | the response keeps the blog's id, title and creation stamp; its `authorName` holds the blog's content and its `content` the author's name |
| BlogResponses.RecoverFromEntity | omnify/src/main/java/com/assignment/omnify/dto/BlogResponse.java:16-20 | reading the fields crossed recovers the blog's id, title, content, creation stamp and the author's name: only owner and update stamp are lost |
| BlogResponses.FromEntityForgetsOwnerAndStamp | omnify/src/main/java/com/assignment/omnify/dto/BlogResponse.java:23-29 | blogs differing only in owner or update stamp give the same response |
| BlogResponses.FromEntityCrossesFields | omnify/src/main/java/com/assignment/omnify/dto/BlogResponse.java:16-19 | unless the content equals the author's name, the `authorName` field is not the author's name and `content` is not the blog's content |
| AuthService.NormalizeIdempotent | backend/src/main/java/com/assignment/omnify/service/AuthService.java:25 | trimming then lowercasing an already normalised email changes nothing |
| AuthService.NormalizeEmail | backend/src/main/java/com/assignment/omnify/service/AuthService.java:25 | the email as both services look it up (signup here, login at line 47): Java `trim`, then `toLowerCase` |
| AuthService.NormalizeIgnoresCaseAndPadding | backend/src/main/java/com/assignment/omnify/service/AuthService.java:47 | emails differing only in letter case and in padding of code points up to U+0020 normalise alike |
| AuthService.InsertKeepsUnique | backend/src/main/java/com/assignment/omnify/service/AuthService.java:30-39 | a new account under a new id with an untaken email keeps unique emails |
| AuthService.AuthService.Signup | backend/src/main/java/com/assignment/omnify/service/AuthService.java:24-44 | CONFLICT "Email already exists" with no account saved when the normalised email is taken; otherwise exactly one account is added, holding the normalised email, the name as given and the encoder's output; the response carries the token for its id and email, the name and the normalised email; emails stay unique |
| AuthService.AuthService.ValidatedSignup | backend/src/main/java/com/assignment/omnify/controller/AuthController.java:20 | a body violating any constraint is rejected before the service runs, and no account is added; a valid body with an untaken email always gets an account |
| AuthService.AuthService.Login | backend/src/main/java/com/assignment/omnify/service/AuthService.java:46-62 | NOT_FOUND "User not found" when no account has the normalised email; UNAUTHORIZED "Invalid credentials" when the encoder reports a mismatch; otherwise a token for that account; the accounts are only read |
| AuthService.SignupTwice | backend/src/main/java/com/assignment/omnify/service/AuthService.java:30-32 | the second of two signups whose emails normalise alike is a CONFLICT |
| SignupRequests.BlankEmailInvalid | backend/src/main/java/com/assignment/omnify/dto/SignupRequest.java:15-17 | an empty or padding-only email makes the request invalid |
| SignupRequests.ValidBounds | backend/src/main/java/com/assignment/omnify/dto/SignupRequest.java:19-25 | a valid request has all fields present, a name of 3 to 50 characters and a password of at least 6 |
| SignupRequests.PasswordUnbounded | backend/src/main/java/com/assignment/omnify/dto/SignupRequest.java:23-25 | there is no upper bound: lengthening a valid request's password keeps it valid |
| SignupRequests.NotBlank | backend/src/main/java/com/assignment/omnify/dto/SignupRequest.java:15-23 | `@NotBlank`: not null and not empty after `trim` |
| SignupRequests.SizeWithin | backend/src/main/java/com/assignment/omnify/dto/SignupRequest.java:20-24 | `@Size`: the length is at least the minimum and, when there is a maximum, at most it |
| SignupRequests.Valid | backend/src/main/java/com/assignment/omnify/dto/SignupRequest.java:15-25 | every constraint of the body: email not blank and passing `@Email`, name not blank with 3 to 50 characters, password not blank with at least 6 |
| AuthContext.MockToken | frontend/src/contexts/AuthContext.tsx:61 | the token is the mock prefix followed by decimal digits whose value is the clock reading |
| AuthContext.NameFromEmail | frontend/src/contexts/AuthContext.tsx:58 | the login name is the longest prefix of the email with no '@'; the whole email when there is none |
| AuthContext.Cleared | frontend/src/contexts/AuthContext.tsx:99-100 | removing the session deletes both entries and keeps every other key |
| AuthContext.SessionTouchesOnlyItsKeys | frontend/src/contexts/AuthContext.tsx:63-64 | saving or removing a session leaves every other key, such as 'token' or 'authToken', as it was |
| AuthContext.Persisted | frontend/src/contexts/AuthContext.tsx:63-64 | the storage after a session is saved: the token under `omnify_token` and the user under `omnify_user` |
| AuthContext.ClearedIdempotent | frontend/src/contexts/AuthContext.tsx:98-102 | removing the session twice is removing it once |
| AuthContext.AuthProvider.constructor | frontend/src/contexts/AuthContext.tsx:29-30 | the provider mounts with no user and loading |
| AuthContext.AuthProvider.Restore | frontend/src/contexts/AuthContext.tsx:32-46 | with both entries non-empty, a parsing user entry becomes the user and the storage stays, and a throwing one removes both entries; with either missing or empty nothing changes; loading ends in every case; a signed-in user always has both entries |
| AuthContext.AuthProvider.Login | frontend/src/contexts/AuthContext.tsx:48-71 | both entries are written and the user is id '1' with the email and the email's part before the first '@'; the user is signed in and loading has ended |
| AuthContext.AuthProvider.Signup | frontend/src/contexts/AuthContext.tsx:73-96 | both entries are written and the user is id '1' with the email and the given name; loading has ended |
| AuthContext.AuthProvider.Logout | frontend/src/contexts/AuthContext.tsx:98-102 | from any state both entries are removed and there is no user |
| AuthContext.AuthProvider.IsAuthenticated | frontend/src/contexts/AuthContext.tsx:110 | `!!user`: signed in exactly when there is a user |
| AuthContext.LoginThenReload | frontend/src/contexts/AuthContext.tsx:34-39 | when the stored user reads back as written, a fresh mount after login restores the same user and storage |
| AuthContext.LogoutTwice | frontend/src/contexts/AuthContext.tsx:99-101 | logging out twice leaves the state one logout leaves |
| PageEffects.Or | frontend/src/pages/Dashboard.tsx:237 | `value \|\| fallback` is the value when present and non-empty and the fallback otherwise; never empty when the fallback is not |
| PageEffects.ErrorToast | frontend/src/pages/Dashboard.tsx:243-248 | a failure's toast is destructive and titled "Error": the server's message when present and non-empty, otherwise the page's fallback |
| Dashboard.ToPost | frontend/src/pages/Dashboard.tsx:233-240 | a card keeps id, title, content and creation stamp; an empty or missing author becomes 'Unknown'; an empty or missing update stamp becomes the creation stamp |
| Dashboard.ToPosts | frontend/src/pages/Dashboard.tsx:232-241 | one card per record, in the same order |
| Dashboard.LoadedContent | frontend/src/pages/Dashboard.tsx:232 | `res.data.content \|\| []`: the page's records, none when `content` is missing |
| Dashboard.ShowsUpdated | frontend/src/pages/Dashboard.tsx:339 | a card is marked "Updated" when its update stamp differs from its creation stamp |
| Dashboard.IsOwnPost | frontend/src/pages/Dashboard.tsx:331-346 | the "Your Post" badge and the edit and delete buttons: a user is signed in and the card's author is that user's name |
| Dashboard.ShowsUpdatedIff | frontend/src/pages/Dashboard.tsx:339 | "Updated" appears exactly when the record has a non-empty update stamp other than its creation stamp |
| Dashboard.UnknownUserOwnsAuthorless | frontend/src/pages/Dashboard.tsx:331 | a user named 'Unknown' sees every post without an author as their own |
| Dashboard.OwnershipByNameOnly | frontend/src/pages/Dashboard.tsx:346 | the edit and delete controls depend only on the user's name |
| Dashboard.CardExcerpt | frontend/src/pages/Dashboard.tsx:335 | the first 100 characters of the content, followed by '...' exactly when it is longer |
| Dashboard.OmnifyCards | frontend/src/pages/Dashboard.tsx:236-239 | against the `omnify` responses a card shows the blog's content as its author ('Unknown' when it is empty) and the author's name as its content, and is never marked updated |
| Dashboard.RemoveId | frontend/src/pages/Dashboard.tsx:258 | after deleting, a post is on the list exactly when it was before and has another id |
| Dashboard.RemoveIdAbsent | frontend/src/pages/Dashboard.tsx:256-258 | deleting an id that no post has leaves the list as it was |
| Dashboard.RemoveIdAppend | frontend/src/pages/Dashboard.tsx:254-258 | deleting works piece by piece on a concatenation, so the surviving posts keep their order |
| Dashboard.RemoveIdIdempotent | frontend/src/pages/Dashboard.tsx:255-258 | deleting the same id twice leaves the list of the first deletion |
| Dashboard.RemoveIdCommutes | frontend/src/pages/Dashboard.tsx:257-258 | two deletions give the same list in either order |
| Dashboard.DashboardPage.constructor | frontend/src/pages/Dashboard.tsx:213-214 | the page starts with no cards and loading |
| Dashboard.DashboardPage.Mount | frontend/src/pages/Dashboard.tsx:219-225 | a signed-out visitor is sent to /login and nothing is sent or loaded; otherwise the list request is sent and the posts are loaded |
| Dashboard.DashboardPage.LoadBlogs | frontend/src/pages/Dashboard.tsx:227-252 | `GET /blogs` is sent with no `Authorization` header; on success the cards are the mapped records, none when `content` is missing; on failure the cards stay and the error toast shows; loading ends either way |
| Dashboard.DashboardPage.HandleDelete | frontend/src/pages/Dashboard.tsx:254-270 | `DELETE /blogs/<id>` is sent with no `Authorization` header; on success the cards are the old ones without that id and the toast confirms it; on failure the cards stay and the error toast shows |
| BlogForm.WithField | frontend/src/pages/CreateBlog.tsx:23-28 | the named field takes the value and the other field stays |
| BlogForm.WithFieldLastWins | frontend/src/pages/CreateBlog.tsx:25-26 | the last change to a field is the one that counts |
| BlogForm.WithFieldCommutes | frontend/src/pages/EditBlog.tsx:57-59 | changes to different fields commute |
| BlogForm.WithFieldUnchanged | frontend/src/pages/CreateBlog.tsx:24-27 | typing a field's current value back in changes nothing |
| BlogForm.CreateCheck | frontend/src/pages/CreateBlog.tsx:31-47 | the create page rejects a blank title first and then blank content, each with its own message; it accepts exactly the complete forms |
| BlogForm.EditCheck | frontend/src/pages/EditBlog.tsx:62-69 | the edit page rejects a form with either field blank, with one combined message; it accepts exactly the complete forms |
| BlogForm.ChecksAgree | frontend/src/pages/EditBlog.tsx:62 | the create and edit pages accept the same forms |
| BlogForm.PaddingKeepsComplete | frontend/src/pages/CreateBlog.tsx:54 | the check trims but the form is sent untrimmed: padding a complete form keeps it complete |
| CreateBlog.Submitted | frontend/src/pages/CreateBlog.tsx:30-73 | one toast and at most one request; the form is posted as typed exactly when it is complete and 'token' is non-empty; the check's message, the generic failure, the server's message or "Blog created!" as the case may be; navigates to /dashboard exactly on success |
| CreateBlog.CreateBlogPage.constructor | frontend/src/pages/CreateBlog.tsx:15-19 | an empty form, not publishing |
| CreateBlog.CreateBlogPage.HandleChange | frontend/src/pages/CreateBlog.tsx:23-28 | only the named field changes |
| CreateBlog.CreateBlogPage.HandleSubmit | frontend/src/pages/CreateBlog.tsx:30-73 | toasts, requests and location follow `Submitted`; publishing has ended whenever the checks passed, and is untouched when they failed |
| CreateBlog.SignedInCannotPublish | frontend/src/pages/CreateBlog.tsx:51-52 | with the session the sign-in writes and no 'token' entry, a complete form is never sent and gets the generic failure |
| Preview.Excerpt | frontend/src/pages/CreateBlog.tsx:75-77 | the content itself up to the limit; otherwise its first `limit` characters and '...'; never longer than limit + 3 |
| Preview.ExcerptIdempotent | frontend/src/pages/EditBlog.tsx:97-99 | the excerpt of an excerpt is the excerpt |
| Preview.ReadTime | frontend/src/pages/CreateBlog.tsx:79-83 | at least one minute; the least whole number of minutes covering the pieces at 200 a minute; exactly one when there are at most 200 pieces |
| JsText.SplitOnWhitespaceCount | frontend/src/pages/EditBlog.tsx:103 | splitting on whitespace runs gives one piece more than there are runs |
| JsText.BlankIffAllWhitespace | frontend/src/pages/CreateBlog.tsx:31 | a string trims to empty exactly when all its characters are whitespace |
| EditBlog.Loaded | frontend/src/pages/EditBlog.tsx:33-55 | fetches exactly when 'authToken' is non-empty; every failure, including a missing token, shows the error and goes back to /dashboard; a success shows nothing and stays |
| EditBlog.Submitted | frontend/src/pages/EditBlog.tsx:61-95 | one toast and at most one request; the form is saved as typed exactly when it is complete and 'authToken' is non-empty; "Blog updated!" and /dashboard exactly on success |
| EditBlog.EditBlogPage.constructor | frontend/src/pages/EditBlog.tsx:21-24 | nothing loaded, an empty form, loading, not saving |
| EditBlog.EditBlogPage.LoadBlog | frontend/src/pages/EditBlog.tsx:33-55 | toasts, requests and location follow `Loaded`; a success keeps the post and fills the form with its title and content; otherwise both stay; loading ends |
| EditBlog.EditBlogPage.Mount | frontend/src/pages/EditBlog.tsx:29-31 | without a route id nothing changes; with one, the load's toasts, requests and location follow `Loaded`, a success keeps the post and fills the form with its title and content, anything else keeps both, and loading ends; saving is untouched |
| EditBlog.EditBlogPage.HandleChange | frontend/src/pages/EditBlog.tsx:57-59 | only the named field changes |
| EditBlog.EditBlogPage.HandleSubmit | frontend/src/pages/EditBlog.tsx:61-95 | toasts, requests and location follow `Submitted`; saving has ended whenever the check passed, and is untouched when it failed |
| EditBlog.LoadThenSave | frontend/src/pages/EditBlog.tsx:43-44 | with a token present, saving straight after loading a post whose title and content are not blank sends exactly the fetch and then the loaded title and content back |
| EditBlog.SignedInCannotLoad | frontend/src/pages/EditBlog.tsx:36-37 | with the session the sign-in writes and no 'authToken' entry, the post is never fetched and the page returns to /dashboard |
| EditBlog.SignedInCannotSave | frontend/src/pages/EditBlog.tsx:72-73 | nor is a complete form ever saved |
| ViewBlog.AbsentStampShowsUpdated | frontend/src/pages/ViewBlog.tsx:121 | a post without an update stamp is shown as updated |
| ViewBlog.ShowsUpdated | frontend/src/pages/ViewBlog.tsx:121 | the "Updated" line shows when the update stamp is not the creation stamp, an absent stamp included |
| ViewBlog.Loaded | frontend/src/pages/ViewBlog.tsx:33-53 | fetches exactly when 'authToken' is non-empty; a missing token or failed fetch shows the error; never navigates |
| ViewBlog.SignedInCannotRead | frontend/src/pages/ViewBlog.tsx:36-37 | with the session the sign-in writes and no 'authToken' entry, the post is never fetched |
| ViewBlog.LeadingDigits | frontend/src/pages/ViewBlog.tsx:69 | the length of the longest prefix of ASCII digits |
| ViewBlog.UpToLineTerminator | frontend/src/pages/ViewBlog.tsx:70 | what `(.*)` matches: the longest prefix without a line terminator |
| ViewBlog.ClassifyLine | frontend/src/pages/ViewBlog.tsx:64-73 | a line is a spacer exactly when it is empty or whitespace only |
| ViewBlog.FormatContent | frontend/src/pages/ViewBlog.tsx:63-75 | one block per '\n'-separated line, in order, each from `ClassifyLine` |
| ViewBlog.FormatContentCount | frontend/src/pages/ViewBlog.tsx:64 | there is one block more than there are newlines |
| ViewBlog.NumberedLine | frontend/src/pages/ViewBlog.tsx:69-70 | the page's test for a numbered item: the trimmed line and the line itself both start with digits and a full stop |
| ViewBlog.NumberedLineIff | frontend/src/pages/ViewBlog.tsx:69 | the page's two-part test (trimmed line, then the line itself) holds exactly when the line itself starts with digits and a full stop |
| ViewBlog.NumberedItem | frontend/src/pages/ViewBlog.tsx:70-71 | the match of `^(\d+\.\s*)(.*)`: the marker is a prefix of the line made of its leading digits, the full stop and the whitespace after it, and the character after the marker is not whitespace; the text is what follows the marker up to the first line terminator |
| ViewBlog.WhitespaceEnd | frontend/src/pages/ViewBlog.tsx:70 | where `\s*` stops: every character from the start up to that index is whitespace and the one there is not |
| ViewBlog.NumberedIff | frontend/src/pages/ViewBlog.tsx:69-72 | a line is a numbered item exactly when it starts with digits and a full stop; the trimmed-line test never decides on its own, so an indented number falls through |
| ViewBlog.MarkedIff | frontend/src/pages/ViewBlog.tsx:65-68 | a line is an h2, an h3 or a bullet exactly when it starts with '## ', '### ' or '- ', and the text is the rest of the line after that prefix |
| ViewBlog.ParagraphIff | frontend/src/pages/ViewBlog.tsx:65-73 | a line is a paragraph exactly when it has none of the three prefixes, is not blank and does not start with digits and a full stop; the paragraph is the whole line |
| ViewBlog.IndentedIsParagraph | frontend/src/pages/ViewBlog.tsx:65-73 | a non-blank line starting with whitespace is a paragraph of the whole line |
| ViewBlog.SourceOfClassify | frontend/src/pages/ViewBlog.tsx:65-73 | putting each block's markup back ('## ', '### ', '- ', the numbered marker) gives the non-blank line back when it has no line terminator |
| ViewBlog.FormatContentReassembles | frontend/src/pages/ViewBlog.tsx:63-75 | when no line is blank or holds a line terminator such as a carriage return, joining the blocks' sources with newlines gives the content back |
| ViewBlog.ViewBlogPage.constructor | frontend/src/pages/ViewBlog.tsx:24-25 | nothing loaded, loading |
| ViewBlog.ViewBlogPage.LoadBlog | frontend/src/pages/ViewBlog.tsx:33-53 | toasts and requests follow `Loaded`; a success keeps the post; otherwise the page keeps what it had; loading ends |
| ViewBlog.ViewBlogPage.Mount | frontend/src/pages/ViewBlog.tsx:29-31 | without a route id nothing changes; with one, the load's toasts and requests follow `Loaded`, a success keeps the post, anything else keeps what the page had, and loading ends |

## Left out

- JWT signing, parsing and the authentication filter. Token generation is a function the account service is given.
- Spring configuration, the exception handler and the controllers. The caller's id, page and size are plain parameters. Bean validation before signup is `ValidatedSignup`.
- The repositories' own behaviour: each is a map, with the iteration order and the generated id as parameters. `PageRequest`'s messages are not modelled; its rejection is `InvalidPageRequest`.
- The `backend` module's `Blog`, `BlogRequest`, `BlogResponse`, `LoginRequest` and `TokenResponse` files are not part of this model. Both services use the `omnify` `BlogRequest` and `BlogResponse` shapes. The `Blog` fields are taken from the setters the services call.
- A stored blog with a null owner is not modelled (an owner id is a string). The services would throw a `NullPointerException` where the model compares ids.
- AuthService.AuthService.Signup: requires non-null email, name and password, which the controller's validation guarantees (`ValidatedSignup`, AuthController.java:20). On its own the service dereferences only the email (AuthService.java:25): it would store a null name as given (line 36), and the encoder would refuse a null password (line 37).
- AuthService.AuthService.constructor: requires unique emails of the accounts it starts from. The source has no unique index; it keeps emails unique only by checking `existsByEmail` before each save, which `Signup` preserves.
- AuthService.AuthService.Login: takes the request's email and password as non-null strings. The login body passes `@Valid` (AuthController.java:27), but `LoginRequest` is not part of this model, so its constraints are unknown; a null email would throw a `NullPointerException` at AuthService.java:47.
- The console logging of the request and normalised email in signup and login (AuthService.java:27-28, 48-49): it changes no state.
- The validation messages, such as the password's custom one: a rejected body is `ValidationFailed` without text.
- JavaText.ToLowerCase: folds only the ASCII letters A-Z. Java's locale- and Unicode-aware lowercasing is not modelled.
- String lengths count characters, not UTF-16 code units. A `@Size` bound or a 100- or 150-character excerpt therefore differs from the source for characters outside the Basic Multilingual Plane.
- The password encoder's salting and its `matches` are uninterpreted functions. So is the `@Email` check.
- Asynchrony: the 1-second simulated delay of the session context, and any interleaving of handlers. Each handler runs as one step, with the awaited response as a parameter.
- `formatDate`, JSX markup, the loading spinner and the index page. The axios client's base URL is not modelled: the dashboard's requests are recorded with the paths the page writes.
- OmnifyBlogService.BlogService.constructor: starts from an empty blog store, so `NeverStamped` holds because only this service writes the store. A store that already holds stamped blogs, such as one shared with the `backend` module, is outside the model.
- Render-time failures are not modelled:
  - a card or an edit form whose title or content is null;
  - the view page's `blog.author.name`, which the `omnify` response does not have.
- The commented-out earlier dashboard.
