# A verified model of a couple's-page web application

The application is a small site with a relationship day counter, a photo
gallery grouped into sections and an editable "our story" text. A single
admin login guards every change. This project models its decision rules
and state updates in Dafny and proves what they promise:

- **Authentication gate** (`AuthGate`, auth_gate.dfy). An active session
  wins. Otherwise an `Authorization` header is split on single spaces into
  exactly two parts. The scheme must equal `Bearer`, ignoring ASCII case.
  Then the token is verified. Every step that fails has its own 401
  message. Token verification is an oracle (`string -> Verified`).
- **Login, logout and the authentication check** (`AuthController`).
  Password comparison and token signing are oracles that may throw. The
  session record is a `Session` object whose `userId` login writes.
- **Upload middleware** (`Upload`). The image-only filter, the generated
  file name, the fixed destination and the 5 MiB ceiling. The file name
  uses `Date.now()` and the rounded random number, which are parameters.
  `path.extname` follows Node's POSIX rule.
- **Store** (`Store`). An in-memory stand-in for the ORM. It holds four
  tables in insertion order, with autoincrement counters and a logical
  creation clock. `Database` is a class whose methods are the ORM calls.
  They throw while the database is unreachable, and on a missing id where
  Prisma's `update`/`delete` would.
- **Content handlers** (`PhotoController`, `StoryController`). They cover
  status selection, the upload URL, and the story's get-or-create-default
  and update.
- **Seed script** (`Seed`): an admin upsert, then a story and a section,
  each created only if none exists.
- **Day counter** (`LoveCounter`). A millisecond difference becomes days,
  hours, minutes and seconds, with singular or plural labels.
- **Client state** (`PhotosPage`, `StoryPage`, `AuthContext`). The
  gallery's list transforms, the story editor's buffer and flags, and the
  auth context's user, stored token and loading flag. Each page is a
  class. Each handler's new state is tied to a pure transition function,
  and the properties are proved about those functions.

Shared pieces: `Common` holds `Option`, `Try` (a call that resolves or
throws) and an order-preserving `Filter`. `Http` holds the response shape
and the application's fallback error handler.

In these places the model follows the code:

- A non-image upload is refused by multer with an error that carries no
  status. The fallback handler of backend/src/index.ts turns it into 500
  `{ error }`, not 400. An oversized file ("File too large") is also a
  500, not 413.
- Adding a photo to a section that does not exist fails the foreign key.
  The handler's `catch` answers 500 `Erro ao adicionar foto`. There is no
  separate "section not found".
- The gate has no separate "unauthenticated" outcome. A missing or empty
  header gives `Token não fornecido`. A header that does not split into
  two parts gives `Erro no formato do token`. A wrong scheme gives
  `Token mal formatado`. A token that fails verification gives
  `Token inválido`.
- `updateStory` writes only the fields present in the request body. The
  story page sends `{ content }` alone, so the stored title survives.

Ids are integers (Prisma `Int` autoincrement). JavaScript truthiness is
written out: an id of `0`, an absent value and an empty string are falsy.
The session's `userId` is declared a string in TypeScript, but at run
time it holds the numeric `user.id`.

## Model

| member | source | states |
|---|---|---|
| AuthGate.Gate | backend/src/middlewares/auth.middleware.ts:19-57 | Every path ends in exactly one of `Next` or a 401 `Reject`. Acceptance holds iff there is a session, or a two-part header with a `Bearer` scheme whose token verifies. The userId passed on is the session's, else the decoded token id. |
| AuthGate.SessionWins | backend/src/middlewares/auth.middleware.ts:25-28 | With a session userId, the outcome is `Next(session)` whatever the header and the verifier are: the header is never examined. |
| AuthGate.RejectionMessages | backend/src/middlewares/auth.middleware.ts:31-52 | With no session: no header gives 'Token não fornecido'; a space count other than one gives 'Erro no formato do token'; a non-Bearer scheme gives 'Token mal formatado'; a failed verification gives 'Token inválido'. |
| AuthGate.Split | backend/src/middlewares/auth.middleware.ts:36 | `split(' ')` yields one more part than there are spaces, no part contains a space, and joining the parts gives back the header. |
| AuthGate.BearerHeaderRoundTrip | backend/src/middlewares/auth.middleware.ts:36-55 | The header `Bearer <token>` splits into exactly the scheme and that token, so the gate's verdict is the verifier's verdict on the token. |
| AuthGate.DoubleSpaceRejected | backend/src/middlewares/auth.middleware.ts:36-39 | `Bearer` followed by two spaces is rejected with 'Erro no formato do token'. |
| AuthController.DecideLogin | backend/src/controllers/auth.controller.ts:14-52 | Success iff the user exists, the password matches and signing succeeds. The token is the one signed for `{id}` with '24h'. An unknown user and a wrong password both give the single 401 'Credenciais inválidas'. Anything that throws gives 500. |
| AuthController.SameRefusalForUnknownUserAndWrongPassword | backend/src/controllers/auth.controller.ts:20-28 | An unknown username and a wrong password for a known user produce identical 401 responses. |
| AuthController.Login | backend/src/controllers/auth.controller.ts:11-52 | On success the session records `user.id`, and the 200 body holds id, username and token and no password hash. On failure the session is untouched. A body without `username` makes Prisma's unique lookup throw, which gives 500 'Erro ao fazer login'. |
| AuthController.Logout | backend/src/controllers/auth.controller.ts:58-67 | A destroy error answers 500 and keeps the session. Otherwise the session's userId is cleared and the answer is 200. Nothing else changes. |
| AuthController.CheckAuth | backend/src/controllers/auth.controller.ts:72-101 | No userId gives 401 'Usuário não autenticado'. A missing user gives 401 'Usuário não encontrado'. A store failure gives 500. Otherwise the answer is 200 with `authenticated: true` and the user. |
| AuthController.IssuedTokenPassesGate | backend/src/controllers/auth.controller.ts:31-37 | With a verifier that accepts what the signer produced, the token from a successful login passes the gate with no session. Logout, which only clears the session, does not revoke it. |
| AuthController.LoginThenCheck | backend/src/controllers/auth.controller.ts:40 | After a 200 login, the gate lets the next request through on the session alone, and checkAuth answers 200 with the same user. |
| Upload.FilterIsCaseSensitive | backend/src/middlewares/upload.middleware.ts:18-27 | `image/png` is accepted. `IMAGE/PNG`, `Image/png`, `text/plain` and `image` are refused: the test is a case-sensitive prefix test. |
| Upload.Filename | backend/src/middlewares/upload.middleware.ts:10-14 | The name starts with the field name and `-`, and ends with the original file's extension. |
| Upload.FilenameInjective | backend/src/middlewares/upload.middleware.ts:12-13 | For the same field and file, two names are equal only if both timestamp and random number coincide. |
| Upload.DecimalRoundTrip | backend/src/middlewares/upload.middleware.ts:12 | The decimal rendering of a number in the name reads back as that number. |
| Upload.Extname | backend/src/middlewares/upload.middleware.ts:13 | The extension is empty, or a `.` followed by no further `.` or `/`. It is a suffix of the path without its trailing slashes. |
| Upload.ExtnameOfDotFile | backend/src/middlewares/upload.middleware.ts:13 | A leading dot (`.env`) does not start an extension. |
| Upload.SingleUpload | backend/src/middlewares/upload.middleware.ts:6-36 | The request passes iff there is no file, or the file uses field 'photo', is an image and is at most the limit. A non-image gives the filter's error. A stored file goes to 'uploads/' under the generated name. |
| Upload.SizeCeiling | backend/src/middlewares/upload.middleware.ts:33-35 | The limit is 5242880 bytes. An image of exactly that size passes; one byte more fails. |
| Http.FallbackHandler | backend/src/index.ts:91-96 | An error without a status becomes a 500 `{ error }` response. |
| Store.RemoveSection | backend/src/controllers/photo.controller.ts:101-103 | Deleting a section removes exactly that section and, by the schema's cascade (an assumption), exactly its photos. Users and stories are untouched. |
| Store.RemovePhoto | backend/src/controllers/photo.controller.ts:151-153 | Only the photo with that id disappears; every other table is unchanged. |
| Store.RetitleSection | backend/src/controllers/photo.controller.ts:80-85 | Only the title of the section with that id changes. Ids, creation times and order are kept. |
| Store.ReviseStory | backend/src/controllers/story.controller.ts:38-44 | Only the story with that id changes, and only in the fields given. Every other story is unchanged. |
| Store.Database.UpsertUser | backend/prisma/seed.ts:12-19 | An existing user is returned unchanged (`update: {}`). Otherwise exactly one user is inserted. |
| PhotoController.ListSectionsSorted | backend/src/controllers/photo.controller.ts:11-20 | In a valid store, the listing is strictly ascending by creation time and lists every section exactly once. |
| PhotoController.GetAllPhotoSections | backend/src/controllers/photo.controller.ts:9-25 | Answers 200 with every section and its photos in ascending creation order, or 500 with the list message. |
| PhotoController.GetPhotoSectionById | backend/src/controllers/photo.controller.ts:30-50 | A missing id gives 404 with only the message. Otherwise the answer is 200 with that section and exactly its photos. A store failure gives 500. |
| PhotoController.CreatePhotoSection | backend/src/controllers/photo.controller.ts:55-70 | Answers 201 with a new section of that title, appended after the existing ones, which are unchanged. A store failure gives 500 and no change. |
| PhotoController.RetitleThenFind | backend/src/controllers/photo.controller.ts:80-87 | After a retitle, looking up that id finds the same row with only the new title. |
| PhotoController.UpdatePhotoSection | backend/src/controllers/photo.controller.ts:75-92 | Answers 200 with the row the store now holds under that id. A body with a `title` changes only that section's title. A body without one (Prisma skips `undefined`) leaves the store unchanged. A missing id or store failure gives 500 and no change. |
| PhotoController.DeletePhotoSection | backend/src/controllers/photo.controller.ts:97-110 | Answers 204 after removing the section and its photos. A missing id gives 500 and no change. |
| PhotoController.PhotoUrl | backend/src/controllers/photo.controller.ts:125 | The URL is `/uploads/` followed by exactly the stored file name. |
| PhotoController.AddPhotoToSection | backend/src/controllers/photo.controller.ts:115-142 | No file gives 400 and no row. Otherwise one photo row is created with URL `/uploads/<filename>` and the route's section id, answering 201. A missing section or store failure gives 500 and no row. |
| PhotoController.DeletePhoto | backend/src/controllers/photo.controller.ts:147-160 | Answers 204 after removing only that photo row. A missing id gives 500 and no change. |
| PhotoController.AddPhotoRoute | backend/src/routes/photo.routes.ts:24 | A gate refusal gives 401 and an upload refusal gives the fallback 500, both with no change. A passing request without a file gives 400 and no change. A passing request with a file gives 201 and the store with one photo row added, URL `/uploads/<generated name>`, when the store answers and the section exists; otherwise 500 and no change. A 201 implies an image within the limit. |
| StoryController.FirstOrCreate | backend/src/controllers/story.controller.ts:12-21 | A non-empty store is returned unchanged, with its first story. An empty store gains exactly one story, 'Nossa História' / 'Escreva sua história aqui...', which is returned. |
| StoryController.FirstOrCreateChangesOnlyStories | backend/src/controllers/story.controller.ts:12-23 | Only the story table changes, by at most one row, and the answer is its first row. |
| StoryController.FirstOrCreateTwice | backend/src/controllers/story.controller.ts:12-21 | A second read returns the same story and creates nothing. |
| StoryController.GetStory | backend/src/controllers/story.controller.ts:9-28 | Answers 200 with the first-or-created story, or 500 'Erro ao buscar história' with no change. |
| StoryController.GetStoryTwice | backend/src/controllers/story.controller.ts:12-23 | Two consecutive requests give equal answers and leave the store as one request does. |
| StoryController.ReviseThenFind | backend/src/controllers/story.controller.ts:38-44 | After an update, looking up that id finds the row with the given fields written and the omitted ones kept. |
| StoryController.ContentOnlyUpdateKeepsTitle | backend/src/controllers/story.controller.ts:36-44 | An update carrying only `content` keeps the stored title. |
| StoryController.UpdateStory | backend/src/controllers/story.controller.ts:33-51 | Answers 200 with the updated row, which is what the store now holds under that id. A missing id or store failure gives 500 with no change. |
| Seed.SeedOutcome | backend/prisma/seed.ts:12-43 | Afterwards an admin, a story and a section exist. An existing admin keeps its record; otherwise exactly one admin with the hash is added. An empty story table gains exactly the default story, and an empty section table exactly the default section. Existing stories, sections and photos stay as they were. |
| Seed.SeedIdempotent | backend/prisma/seed.ts:12-43 | Running the seed twice, whatever hash the second run computes, yields the store a single run yields. |
| Seed.SeedValid | backend/prisma/seed.ts:12-43 | Seeding keeps the store's integrity constraints. |
| Seed.SeedAdmin | backend/prisma/seed.ts:12-19 | The upsert succeeds exactly when the store answers, and then the store holds the admin; otherwise it is unchanged. |
| Seed.SeedStory | backend/prisma/seed.ts:24-33 | On success the store has a story, created only if none existed; on failure it is unchanged. The step fails exactly when the lookup fails, or when the table was empty and the create fails. The create is made only on an empty table. |
| Seed.SeedSection | backend/prisma/seed.ts:36-43 | On success the store has a section, created only if none existed; on failure it is unchanged. The step fails exactly when the lookup fails, or when the table was empty and the create fails. |
| Seed.RunSeed | backend/prisma/seed.ts:6-55 | Each store call may fail on its own. A hashing failure, or a failing first call, gives exit code 1 with no change. A failing story lookup or create gives exit code 1 with only the admin step applied. A failing section lookup or create gives exit code 1 with the admin and story steps applied. Exit code 0 happens exactly when every call made answers, and gives the seeded store. |
| Seed.ResumeAfterPartialSeed | backend/prisma/seed.ts:12-43 | Re-running the seed after a run that stopped after the admin or the story reaches the store a complete first run reaches. |
| LoveCounter.CalculateTime | frontend/src/components/LoveCounter.tsx:20-46 | Always exactly four units, in the order days, hours, minutes, seconds, with non-negative values. |
| LoveCounter.NegativeDiffIsZero | frontend/src/components/LoveCounter.tsx:25-32 | A negative difference gives four zeros labelled 'dias', 'horas', 'minutos', 'segundos'. |
| LoveCounter.UnitsInRange | frontend/src/components/LoveCounter.tsx:36-38 | Hours are below 24; minutes and seconds are below 60. |
| LoveCounter.Decomposition | frontend/src/components/LoveCounter.tsx:35-38 | days·86400000 + hours·3600000 + minutes·60000 + seconds·1000 ≤ diff < that + 1000. |
| LoveCounter.LabelsAgreeWithValues | frontend/src/components/LoveCounter.tsx:40-45 | Each label is singular iff its value is 1. |
| PhotosPage.AddPhotoTo | frontend/src/pages/Photos.tsx:51-55 | The photo is appended to the matching sections' photos only. Every other section and the order are unchanged. |
| PhotosPage.WithoutPhoto | frontend/src/pages/Photos.tsx:97-105 | Photos with that id leave the given section only; other sections are unchanged. |
| PhotosPage.WithoutSection | frontend/src/pages/Photos.tsx:77 | Exactly the sections with that id are removed. |
| PhotosPage.Retitle | frontend/src/pages/Photos.tsx:136-138 | Only the matching sections' titles change; ids, photos and order are kept. |
| PhotosPage.AppendSection | frontend/src/pages/Photos.tsx:261 | The new section, with no photos, is appended after the unchanged list. |
| PhotosPage.DeleteUndoesAddPhoto | frontend/src/pages/Photos.tsx:51-55 | With a fresh photo id, deleting the photo just added restores the list. |
| PhotosPage.DeleteUndoesAppendSection | frontend/src/pages/Photos.tsx:258-261 | With a fresh section id, deleting the section just created restores the list, order included. |
| PhotosPage.WithoutSectionIdempotent | frontend/src/pages/Photos.tsx:77 | Deleting a section twice is deleting it once. |
| PhotosPage.WithoutSectionKeepsOrder | frontend/src/pages/Photos.tsx:77 | Deleting a section whose id is unique removes it and leaves the sections before and after it in order. |
| PhotosPage.RetitleLastWins | frontend/src/pages/Photos.tsx:136-138 | Two renames equal one rename to the last title. |
| PhotosPage.RetitleBack | frontend/src/pages/Photos.tsx:133-138 | With unique ids, renaming back restores the list. |
| PhotosPage.PhotosPage.FetchPhotoSections | frontend/src/pages/Photos.tsx:19-36 | The answer replaces the list and a failure keeps it. Loading ends either way. |
| PhotosPage.PhotosPage.HandleAddPhoto | frontend/src/pages/Photos.tsx:42-71 | The list changes by `AddPhotoTo` only when a file was chosen and the upload succeeded. |
| PhotosPage.PhotosPage.HandleDeleteSection | frontend/src/pages/Photos.tsx:73-91 | A declined confirm or a failed call leaves the list unchanged. Otherwise the section is removed. |
| PhotosPage.PhotosPage.HandleDeletePhoto | frontend/src/pages/Photos.tsx:93-119 | A declined confirm or a failed call leaves the list unchanged. Otherwise the photo is removed from that section. |
| PhotosPage.PhotosPage.RenameSection | frontend/src/pages/Photos.tsx:131-152 | The title changes only for a non-empty, different answer that the server accepted. |
| PhotosPage.PhotosPage.CreateSection | frontend/src/pages/Photos.tsx:256-275 | An empty new section is appended only for a non-empty title that the server accepted. |
| StoryPage.Fetched | frontend/src/pages/Story.tsx:26-41 | Loading ends false. On success the fetched content is shown; on failure the shown text is kept. Nothing else changes. |
| StoryPage.EditClicked | frontend/src/pages/Story.tsx:43-46 | The buffer becomes the shown text and the dialog opens. |
| StoryPage.Typed | frontend/src/pages/Story.tsx:138 | Only the buffer changes. |
| StoryPage.Saved | frontend/src/pages/Story.tsx:48-68 | Success shows the buffer and closes the dialog. Failure keeps the shown text and the dialog state. `isSaving` is false on both paths. |
| StoryPage.Cancelled | frontend/src/pages/Story.tsx:162 | The dialog closes and nothing else changes. |
| StoryPage.EditThenCancel | frontend/src/pages/Story.tsx:43-46 | Opening the editor and cancelling leaves the shown text and the flags as they were. |
| StoryPage.EditTypeSave | frontend/src/pages/Story.tsx:43-68 | Editing to a text and saving successfully shows exactly that text, with the dialog closed. |
| StoryPage.SaveUnchangedBuffer | frontend/src/pages/Story.tsx:43-53 | Saving without typing shows the text that was already shown. |
| StoryPage.RetryAfterFailure | frontend/src/pages/Story.tsx:48-68 | A failed save keeps the buffer, so a later successful retry ends where a first success would have. |
| StoryPage.FirstVisitShowsDefault | frontend/src/pages/Story.tsx:29-30 | On an empty store, the first visit shows the server's default story content. |
| StoryPage.StoryPage.FetchStory | frontend/src/pages/Story.tsx:26-41 | The new state is `Fetched` of the old one. |
| StoryPage.StoryPage.HandleEditClick | frontend/src/pages/Story.tsx:43-46 | The new state is `EditClicked` of the old one. |
| StoryPage.StoryPage.OnEditorChange | frontend/src/pages/Story.tsx:138 | The new state is `Typed` of the old one. |
| StoryPage.StoryPage.HandleSaveStory | frontend/src/pages/Story.tsx:48-68 | The new state is `Saved` of the old one. |
| StoryPage.StoryPage.Cancel | frontend/src/pages/Story.tsx:162 | The new state is `Cancelled` of the old one. |
| AuthContext.CheckAuthStep | frontend/src/contexts/AuthContext.tsx:44-82 | Signed in afterwards iff a truthy token was stored and the server confirmed it; the user is then the server's and the token is kept. Without a token, the user becomes null and nothing else changes. Every other outcome removes the token. Loading ends false. |
| AuthContext.LoginStep | frontend/src/contexts/AuthContext.tsx:84-125 | Returns true iff the response was ok, in which case the token is stored and the user set. Otherwise token and user are untouched. Loading ends false. |
| AuthContext.LogoutStep | frontend/src/contexts/AuthContext.tsx:127-151 | Once the request settles, token and user are gone. If it throws, both remain. Loading ends false. |
| AuthContext.TransitionsKeepToken | frontend/src/contexts/AuthContext.tsx:44-157 | Every transition keeps the invariant that a signed-in user (`isAuthenticated`) has a token stored. |
| AuthContext.RecheckAfterRejection | frontend/src/contexts/AuthContext.tsx:47-52 | After a check that signs nobody in, a second check makes no request and changes nothing. |
| AuthContext.LoginThenConfirmedCheck | frontend/src/contexts/AuthContext.tsx:63-66 | A login, then a check the server confirms, keeps that user and token. |
| AuthContext.LoginThenLogout | frontend/src/contexts/AuthContext.tsx:139-140 | Logging out after logging in leaves no user and no token. |
| AuthContext.AuthProvider.CheckAuth | frontend/src/contexts/AuthContext.tsx:44-82 | The new state is `CheckAuthStep` of the old one. |
| AuthContext.AuthProvider.Login | frontend/src/contexts/AuthContext.tsx:84-125 | The new state and the result are `LoginStep` of the old state. |
| AuthContext.AuthProvider.Logout | frontend/src/contexts/AuthContext.tsx:127-151 | The new state is `LogoutStep` of the old one. |

## Left out

- Server wiring (Express, helmet, CORS, the Redis session store, the listen and shutdown code) is not modelled. The session's 24-hour lifetime belongs to the cookie and Redis machinery, so no expiry is modelled. Of the routes, only the add-photo chain (gate, upload, handler) is modelled.
- bcrypt hashing and comparison, and JWT signing and verification including expiry, are oracles. The algorithms are not modelled.
- Prisma internals are not modelled: `parseInt` of a non-numeric parameter (NaN), `createdAt`/`updatedAt` timestamps (a logical clock stands in), and its exact error shapes.
- Store.RemoveSection: the cascade of a section's photos comes from a schema that is not part of this model. It is stated as an assumption, not derived.
- Creating a section without a `title` in the body fails Prisma's required-field check. This is not distinguished: the title is always a string here.
- AuthController.Login: a body without `password` is not distinguished from a string password. `bcrypt.compare` then throws, which the comparison oracle can express as `Thrown`, giving the same 500.
- multer's disk writes, and reading `Date.now()` and `Math.random()`, are not modelled; the timestamp and random number are parameters. A request with more than one file part is not modelled.
- The day counter's clock, `START_DATE` parsing, time zones, date formatting and the one-second timer are left out. Only the decomposition of a given difference is modelled.
- The frontend service wrappers, the `fetch` transport, toasts, navigation, `prompt`/`confirm` dialogs and the file picker are not modelled; their answers are parameters. The browser's storage is one optional token cell.
- UI-only files (Home, NotFound, Layout, App, Login, Navigation), the rich-text editor and HTML rendering are not modelled.
- Within one request handler the store is either answering or not for the whole call. For example, `getStory`'s `findFirst` and `create` cannot fail separately, and a failing `create` gives the same 500 and unchanged store. Only the seed script lets each call fail on its own, since there a partial failure leaves earlier steps applied.
- Concurrency is not modelled: racing story updates or racing get-or-create calls, and the save button's `disabled={isSaving}`. The model is sequential.
