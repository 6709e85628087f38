# TaskAPI user and task records, modelled in Dafny

TaskAPI is a small Express/Mongoose service: users with session tokens,
profile fields and an avatar image, and tasks owned by users. This project
models two parts of it.

- **The user router's edits to the authenticated user's record**
  (`UserRouter`, `user_router.dfy`). `UserRecord` is a class whose methods
  change its fields in place, as the handlers change `req.user` before saving:
  logout filters the list of `{ token }` entries, logout-all clears it, the
  profile patch checks its keys against the allow-list `name`, `email`,
  `password`, `age` and then assigns them one by one, and the avatar is
  uploaded (after multer's filename filter and 1000000-byte limit), deleted or
  fetched. The pure parts (the token filter, the allow-list check, the filename
  filter, the "last assignment wins" value of a patched field) are functions,
  and lemmas state what they keep and what they remove.
- **The Task document** (`TaskModel`, `task_model.dfy`): creation under the
  schema (`description` required and trimmed, `owner` required, `completed`
  defaulting to false, both timestamps set at creation) and the `toJSON`
  projection, which hides `__v` and hides `updatedAt` when it equals
  `createdAt`. Timestamps are integer milliseconds. For valid dates, comparing
  `toISOString()` strings is the same as comparing these integers.

`Wrappers` (`wrappers.dfy`) holds `Option` and `Result`.

Points of the code the model keeps exactly:

- Token list entries are `{ token }` sub-documents, each with its own `_id`. Logout removes every
  entry whose `token` equals the request token, so duplicates all go (src/routers/user.js:42-44).
- A patch with a key outside the allow-list gets 404 "Wrong parameters" (src/routers/user.js:75-77).
- A task's `toJSON` removes `updatedAt` when its timestamp equals `createdAt` (src/models/task.js:32-36).

## Model

| member | source | states |
|---|---|---|
| `UserRouter.CountToken` | src/routers/user.js:42-44 | the number of entries holding a token is at most the list length, and is zero exactly when the token is not live |
| `UserRouter.WithoutToken` | src/routers/user.js:42-44 | logout filtering never grows the list: it shrinks by exactly the number of entries holding the request token |
| `UserRouter.WithoutTokenMembers` | src/routers/user.js:42-44 | after logout filtering, an entry is kept exactly when it was in the list and holds a different token, so the request token is no longer live |
| `UserRouter.WithoutTokenConcat` | src/routers/user.js:42-44 | filtering distributes over concatenation, so kept entries stay in their original order |
| `UserRouter.WithoutAbsentToken` | src/routers/user.js:42-44 | logout with a token no entry holds leaves the list exactly as it was |
| `UserRouter.LogoutIdempotent` | src/routers/user.js:42-44 | logging out twice with one token equals logging out once |
| `UserRouter.LogoutKeepsOtherSessions` | src/routers/user.js:42-44 | every other token is live after the logout exactly when it was live before |
| `UserRouter.Keys` | src/routers/user.js:68 | the keys of the body, one per entry, in body order |
| `UserRouter.FieldAfter` | src/routers/user.js:80 | after the assignments a field holds its current value or the value of a body entry with its key; one more entry naming it overrides what came before (the last assignment wins, see `FieldAfterStep`) |
| `UserRouter.FieldAfterStep` | src/routers/user.js:80 | assigning one more body entry changes exactly the field it names, to the entry's value |
| `UserRouter.IsValidOperation` | src/routers/user.js:68-73 | a patch is valid exactly when every key is one of name, email, password, age. The empty patch is valid |
| `UserRouter.PatchAssignsNamedKey` | src/routers/user.js:80 | with distinct keys, as `Object.keys` gives them, each named field ends up holding the body's value for it |
| `UserRouter.PatchKeepsUnnamedKey` | src/routers/user.js:80 | a field the body does not name keeps its value |
| `UserRouter.AcceptsImageName` | src/routers/user.js:104-110 | a filename passes the upload filter exactly when some suffix of it is ".jpg", ".jpeg" or ".png", case-sensitively |
| `UserRouter.UserRecord.constructor` | src/routers/user.js:11 | a new record holds exactly the paths the body gives: the profile fields, and the token list and avatar when the body carries them |
| `UserRouter.UserRecord.AddToken` | src/routers/user.js:32 | issuing a session appends its entry at the end of the list, makes its token live and changes no other field |
| `UserRouter.UserRecord.Logout` | src/routers/user.js:40-51 | the new list is the filtered old list. The token is no longer live, the length drops by the number of matching entries, and no other field changes |
| `UserRouter.UserRecord.LogoutAll` | src/routers/user.js:53-61 | the list becomes empty, no token is live, and no other field changes |
| `UserRouter.UserRecord.ApplyPatch` | src/routers/user.js:67-88 | the outcome is Updated exactly when every key is allowed. A rejected patch leaves the record unchanged. An accepted one assigns each field its last value in the body and leaves unnamed fields, tokens and avatar as they were |
| `UserRouter.UserRecord.UploadAvatar` | src/routers/user.js:100-129 | an upload is stored exactly when its name passes the filter and it has at most 1000000 bytes. A bad name is rejected with "Please upload an image", checked before size. An oversize file is rejected with "File too large". A rejected upload leaves the avatar unchanged. Other fields are unchanged |
| `UserRouter.UserRecord.DeleteAvatar` | src/routers/user.js:131-135 | the avatar is absent afterwards and no other field changes |
| `UserRouter.FetchAvatar` | src/routers/user.js:137-150 | fetching succeeds exactly when the user exists and has an avatar, and then returns the stored bytes |
| `TaskModel.TrimStart` | src/models/task.js:8 | the result is a suffix of the input. Everything dropped is white space, and the result does not start with white space |
| `TaskModel.TrimEnd` | src/models/task.js:8 | the result is a prefix of the input. Everything dropped is white space, and the result does not end with white space |
| `TaskModel.Trim` | src/models/task.js:8 | a trimmed string is empty or starts and ends with a character that is not white space |
| `TaskModel.TrimSurrounded` | src/models/task.js:8 | trimming white space + core + white space gives back the core |
| `TaskModel.TrimIdempotent` | src/models/task.js:8 | trimming twice equals trimming once |
| `TaskModel.NewTask` | src/models/task.js:3-23 | creation fails exactly when the description is missing or empty after trimming, or the owner is missing, and the error names exactly the failing paths. Otherwise the stored description is the trimmed input, `completed` defaults to false, the owner and id are those given, both timestamps are the creation time, and the revision is 0 |
| `TaskModel.ToObject` | src/models/task.js:28 | `toObject()` has exactly the seven keys `_id`, `description`, `completed`, `owner`, `createdAt`, `updatedAt`, `__v`, each holding the stored value of that path |
| `TaskModel.ToJson` | src/models/task.js:25-38 | the projection never contains `__v`. It contains `updatedAt` exactly when that differs from `createdAt`. Every shown key carries the stored value, and every other stored key is shown |
| `TaskModel.ToJsonKeepsIdentity` | src/models/task.js:28-37 | the projection always shows `_id` and `owner`, each with its stored value |
| `TaskModel.FreshTaskHidesUpdatedAt` | src/models/task.js:21-36 | a task that has just been created shows no `updatedAt`, and its `completed` shows the value given, or false if none was given |

## Left out

- Token minting and verification, password hashing, `findByCredentials` and the cascade delete are not part of this model. They live in `src/models/user.js` and `src/middleware/auth.js`. Issuing a session is reduced to appending an entry (`AddToken`). `IsLive` states the membership test the authentication gate relies on.
- Account creation (`POST /users`) is modelled by the constructor and `AddToken`, login by `AddToken` alone, and `DELETE /users/me` not at all. Persistence, the email notifications they trigger and removal of the record are I/O.
- `GET /users/me` returns the record unchanged. It holds no logic to model.
- Saving is treated as committing the in-memory record. A failing `save`, and the 400/500 answers it produces, are not modelled. Neither is Mongoose's casting and validation of patched fields at save (email shape, password policy, age), which lives in the user model.
- HTTP status codes and response bodies are reduced to outcome tags. `PatchOutcome.WrongParameters` stands for the 404 "Wrong parameters" reply, `FetchError` for the 404 reply, and `UploadRejected` for the 400 `{ error }` reply.
- Image resizing by sharp is a function parameter, `resize`, that is assumed to succeed. A sharp failure is not modelled: it escapes the async handler and never reaches the error handler.
- An upload with no file, which makes `req.file.buffer` throw, is not modelled. Neither is a file under another field name (multer's "Unexpected field").
- Request body values are JSON scalars with integer numbers. Nested objects, arrays and fractional numbers are not modelled.
- Characters are Unicode code points, not UTF-16 code units, so `trim` is modelled on code points.
- UserRouter.UserRecord.constructor: the schema defaults of the user model, which is not part of this model (such as a default `age` when the body has none), are not applied; the caller passes every field's initial value.
- TaskModel.NewTask: an explicit `completed: null`, stored and shown as null because Mongoose applies a default only to an undefined path, is not modelled; nor are non-boolean `completed` values such as `"true"` or `1` that Mongoose casts.
- Task owner ids are naturals. Casting a malformed id or a non-string description is not modelled.
- `toJSON` on a task without timestamps, where `toISOString` would throw, is not modelled: every stored task has both timestamps.
- Concurrent requests on the same user document are not modelled.
