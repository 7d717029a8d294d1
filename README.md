# Droply file metadata: a Dafny model

Droply is a personal cloud-storage web application. Its metadata lives in
one Postgres table, `files`. Each row is a file or a folder. Rows are linked
to each other through a nullable `parentId`. The model has five parts:

- **The table** (module `Schema`, `schema.dfy`). It gives the shape of a row,
  which columns can be null, the column defaults and the `parent`/`children`
  self-relation. The table is a `map<Id, Entry>` keyed by the primary key.
  `WellKeyed` says that every row is stored under its own `id`.
  `ParentsValid` is the tree invariant: a set `parentId` names a folder with
  the same owner. The database does not enforce this invariant, because
  `parentId` has no foreign-key constraint. `InsertAcceptsDanglingParent`
  shows a row that the database accepts even though it breaks the invariant.
- **The database handle** (module `Db`, `store.dfy`). A `Store` class holds
  the table in a `rows` field. It has the two operations the handlers use:
  the parent-folder lookup and the insert. The insert takes the key that
  `defaultRandom()` generated, refuses it when a row already uses it, and
  stamps both timestamps with the clock.
- **`POST /api/files/upload`** (module `FilesUploadRoute`,
  `files_upload.dfy`). `Admit` is the handler's sequence of checks, in order:
  sign-in, the form's `userId`, file present, parent folder, MIME blocklist.
  `Extension`, `StoredFileName` and `FolderPath` build the stored name and
  the storage folder. `Handle` is the whole request as a function from
  (signed-in user, form, table, generated values, storage answer) to (response,
  new table, what was sent to storage). `Post` is the handler written against
  a `Store`, and it is proved to give what `Handle` gives for the same key.
- **`POST /api/upload`** (module `UploadRoute`, `upload.dfy`). The same
  structure is used for the handler that records an upload the client has
  already made: the checks, the defaults for missing fields, one root-level
  insert.
- **The middleware** (module `Middleware`, `middleware.dfy`). `Decide` takes
  the signed-in user and the path and returns one of `Redirect("/dashboard")`,
  `Protect` (sign-in required) or `Pass`.

Module `Web` (`web.dfy`) gives the JavaScript semantics that the handlers
depend on. A value is falsy when it is `null`, the empty string or `0`. The
`x || d` idiom gives a default for a falsy value. A missing JSON field is
`undefined`, and a template literal prints a missing field as the word
"undefined".

The inputs from outside are parameters:

- the signed-in user from the identity provider;
- the parsed form or JSON body;
- the storage service's answer (`None` when the upload throws);
- the `uuidv4()` value used in the stored name;
- the key the database's `defaultRandom()` generates for the new row;
- the clock.

A 500 answer comes from a fault caught by the handler's `catch`. The faults
modelled are a failed storage upload and a refused insert. Postgres refuses
an insert whose generated key is already in use, whose `size` does not fit
the 32-bit `integer` column, or whose text holds the character U+0000.

The handlers do not check that `name` is non-empty: a file's own name is
stored as given, and a falsy JSON name becomes "Untitled". `Children` and
`Roots` are modelled only as the relation the schema declares.

## Model

| member | source | states |
|---|---|---|
| `Schema.WellKeyed` | lib/db/schema.ts:12 | definition used by the contracts of `InsertRow`, `UniqueIds`, both `Handle`s and `Db.Store.Valid`: the primary key, every row stored under its own `id` |
| `Schema.StorableText` | lib/db/schema.ts:14-24 | definition used by the contracts of `InsertRow` and both `Handle`s through `Storable`: a `text` column cannot hold U+0000 |
| `Schema.FitsInteger` | lib/db/schema.ts:16 | definition used by the contracts of `InsertRow` and both `Handle`s through `Storable`: the 32-bit range of the `integer` column |
| `Schema.Storable` | lib/db/schema.ts:14-24 | definition used by the contracts of `InsertRow`, `Db.Store.Insert` and both `Handle`s: every text value is free of U+0000 and `size` fits the `integer` range |
| `Schema.FlagOrFalse` | lib/db/schema.ts:28-30 | definition used by the contract of `Materialize`: an omitted flag takes its `.default(false)` |
| `Schema.OwnedFolder` | app/api/files/upload/route.ts:53-55 | definition used by the contracts of `FilesUploadRoute.Admit`, `Db.Store.SelectOwnedFolder` and `InsertKeepsParentsValid`: the row exists, belongs to the user and is a folder |
| `Schema.ValidParent` | lib/db/schema.ts:25 | definition used by the contract of `ParentsValid`: one row's set `parentId` names a folder of the row's owner |
| `Schema.Materialize` | lib/db/schema.ts:12-34 | the stored row has the generated `id`; `isFolder`, `isStarred` and `isTrash` are false when the insert omits them and take the given value otherwise; `createdAt` and `updatedAt` are both the insertion time |
| `Schema.InsertRow` | lib/db/schema.ts:11-35 | an insert fails exactly when the generated key is already in use, a text value holds U+0000 or `size` is outside the 32-bit `integer` range; on success the table gains exactly the new key, holding the materialized row; every old row is unchanged; the primary-key property is kept |
| `Schema.UniqueIds` | lib/db/schema.ts:12 | two different rows of a keyed table never share an `id` |
| `Schema.ChildrenInverseOfParent` | lib/db/schema.ts:44-51 | `k` is among the children of `x` exactly when the `parent` relation links `k` to `x` |
| `Schema.ChildrenDisjoint` | lib/db/schema.ts:44-48 | a row has at most one parent: the children sets of two different ids are disjoint |
| `Schema.RootIffNoParent` | lib/db/schema.ts:25 | a row is at root level (`parentId` null) exactly when it is nobody's child |
| `Schema.ChildOfOwnedFolder` | lib/db/schema.ts:38-41 | under the tree invariant, the parent of every child is a folder with the child's owner |
| `Schema.FilesHaveNoChildren` | lib/db/schema.ts:38-41 | under the tree invariant, a file (a row with `isFolder` false) has no children |
| `Schema.InsertLinks` | lib/db/schema.ts:38-51 | an insert adds the new row to the children of its `parentId`, or to the roots when that is null, and changes no other children set |
| `Schema.InsertKeepsParentsValid` | lib/db/schema.ts:25 | an insert whose parent, if any, is a folder with the new row's owner keeps the tree invariant |
| `Schema.NulTextRefused` | lib/db/schema.ts:14 | a row whose `name` holds U+0000 is refused, whatever the table |
| `Schema.Parent` | lib/db/schema.ts:44-48 | definition used by the contracts of `ChildrenInverseOfParent`: the `parent` relation, the row whose `id` is the `parentId`, if there is one |
| `Schema.Children` | lib/db/schema.ts:44-51 | definition used by the contracts of `ChildrenInverseOfParent`, `ChildrenDisjoint`, `InsertLinks` and `UploadLinksIntoParent`: the `children` relation, the rows whose `parentId` is the given id |
| `Schema.Roots` | lib/db/schema.ts:25 | definition used by the contracts of `RootIffNoParent`, `InsertLinks` and `UploadLinksIntoParent`: the rows whose `parentId` is null |
| `Schema.ParentsValid` | lib/db/schema.ts:37-41 | definition used by the contracts of `InsertKeepsParentsValid` and both `Handle`s: every set `parentId` names a folder with the row's owner |
| `Schema.InsertAcceptsDanglingParent` | lib/db/schema.ts:25 | the database accepts a row whose `parentId` names no row, which breaks the tree invariant: the constraint is not enforced by the schema |
| `Db.MaxLength` | lib/db/schema.ts:12 | proof helper for `FreshIdExists`, not a model of the source line: every key in a finite set of ids is at most this long |
| `Db.FreshIdExists` | lib/db/schema.ts:12 | whatever the table holds, some id is not yet used, so a generated key can always be fresh |
| `Db.Store.SelectOwnedFolder` | app/api/files/upload/route.ts:48-57 | the lookup finds a row exactly when some row matches the filter `id = parentId`, `userId = caller`, `isFolder = true`, and then it returns that row; with the primary key this is "the parent is a folder owned by the caller" |
| `Db.Store.Insert` | app/api/files/upload/route.ts:114-117 | the insert does what `InsertRow` says: it refuses a key in use or a value the column types reject and leaves the table as it was, or stores the materialized row under the generated key and returns that row; the primary-key property is kept |
| `FilesUploadRoute.Split` | app/api/files/upload/route.ts:85 | `split(".")` always returns at least one part |
| `FilesUploadRoute.SplitJoin` | app/api/files/upload/route.ts:85 | joining the parts of `split(".")` with dots gives back the name, and no part contains a dot |
| `FilesUploadRoute.SplitLast` | app/api/files/upload/route.ts:85 | the last part of `split(".")` is a dot-free suffix of the name, preceded by a dot unless it is the whole name |
| `FilesUploadRoute.Extension` | app/api/files/upload/route.ts:85 | the extension is a suffix of the name that contains no dot and is either the whole name or preceded by a dot, i.e. the text after the last dot |
| `FilesUploadRoute.ExtensionUnique` | app/api/files/upload/route.ts:85 | only one suffix of a name has those three properties, so they define the extension completely |
| `FilesUploadRoute.StoredFileName` | app/api/files/upload/route.ts:84-86 | definition used by the contracts of `StoredNameKeepsExtension`, `StoredNameWithoutDot`, `StoredNameTrailingDot` and `AdmittedUploadSent`: `uuid.` followed by the extension |
| `FilesUploadRoute.StoredNameKeepsExtension` | app/api/files/upload/route.ts:84-86 | the stored name starts with `uuid.` and has the same extension as the original name, whatever the uuid |
| `FilesUploadRoute.StoredNameWithoutDot` | app/api/files/upload/route.ts:84-86 | a name without a dot is stored as `uuid.` followed by the whole name |
| `FilesUploadRoute.StoredNameTrailingDot` | app/api/files/upload/route.ts:84-86 | a name that ends in a dot is stored as `uuid.` with an empty extension |
| `FilesUploadRoute.FolderPath` | app/api/files/upload/route.ts:89-91 | definition used by the contracts of `FolderPathLayout` and `AdmittedUploadSent`: `/droply/{userId}/folders/{parentId}` with a parent, `/droply/{userId}` without |
| `FilesUploadRoute.FolderPathLayout` | app/api/files/upload/route.ts:89-91 | every storage folder lies under `/droply/{userId}`, and two different parents (or none) give two different folders |
| `FilesUploadRoute.IsExecutableType` | app/api/files/upload/route.ts:68-74 | definition used by the contracts of `Admit` and `BlockedTypeRejected`: the five executable and shell MIME types |
| `FilesUploadRoute.Admit` | app/api/files/upload/route.ts:18-79 | a request is admitted exactly when the user is signed in, the form's `userId` is theirs, a file is present, the non-empty `parentId` if any is a folder they own, and the MIME type is not blocked; an admitted request carries the caller, the parent with empty read as null, and the file; a rejection is 400, 401 or 404 |
| `FilesUploadRoute.RowFor` | app/api/files/upload/route.ts:100-112 | definition used by the contract of `Handle`: the values inserted, taken from the file, the caller, the parent and the storage answer, with all three flags false |
| `FilesUploadRoute.Handle` | app/api/files/upload/route.ts:16-127 | something is sent to storage exactly when the checks admit the request; the answer is 200 exactly when the checks pass, storage answers, the generated key is unused and the column types accept the row; a rejection answers with the check's status and message, and an admitted request that fails answers 500; on an error the table is unchanged; on success exactly one row is added (all others unchanged), with the caller as owner, the original name, the given parent, all flags false and both timestamps the insertion time; the primary key and the tree invariant are kept |
| `FilesUploadRoute.SignedOutUnauthorized` | app/api/files/upload/route.ts:18-24 | with no signed-in user the answer is 401, nothing is sent and the table is unchanged |
| `FilesUploadRoute.ForeignUserIdUnauthorized` | app/api/files/upload/route.ts:28-44 | a form `userId` other than the caller's gives 401 with no change, even when no file is present |
| `FilesUploadRoute.MissingFileRejected` | app/api/files/upload/route.ts:39-44 | a form without a file from the right caller gives 400 with no change |
| `FilesUploadRoute.EmptyParentIsRoot` | app/api/files/upload/route.ts:29 | an empty `parentId` is handled exactly like a missing one, so an upload with it lands at root |
| `FilesUploadRoute.UnknownParentNotFound` | app/api/files/upload/route.ts:47-64 | a `parentId` that names no folder of the caller gives 404 with no change, whatever the MIME type |
| `FilesUploadRoute.FileOrForeignFolderNotFound` | app/api/files/upload/route.ts:47-64 | a file named as the parent, or another user's folder, gives 404 |
| `FilesUploadRoute.BlockedTypeRejected` | app/api/files/upload/route.ts:67-79 | once the parent check has passed, one of the five executable or shell MIME types gives 400 with no change |
| `FilesUploadRoute.AdmittedUploadSent` | app/api/files/upload/route.ts:84-112 | an admitted upload is sent under `uuid.ext` to the parent's folder; a recorded one stores the storage service's url, path and thumbnail (empty read as null) and the file's size and type |
| `FilesUploadRoute.UploadLinksIntoParent` | app/api/files/upload/route.ts:100-117 | a successful upload becomes a child of its parent folder, or a root entry when there is no parent, and of nothing else |
| `FilesUploadRoute.SomeKeySucceeds` | app/api/files/upload/route.ts:114-117 | a request that passes the checks, with a storage answer and a row the column types accept, succeeds for some generated key |
| `FilesUploadRoute.Post` | app/api/files/upload/route.ts:16-127 | the handler, run against the store, gives the response, the new table and the storage request that `Handle` gives for the same generated key; the primary key is kept |
| `UploadRoute.HasUploadData` | app/api/upload/route.ts:21 | definition used by the contracts of `Handle` and `MissingUploadDataUnauthorized`: an `imagekit` object whose `url` is a non-empty string |
| `UploadRoute.RowFor` | app/api/upload/route.ts:30-42 | definition used by the contract of `Handle`: the values inserted, each falsy field replaced by its default, at root, with all three flags false |
| `UploadRoute.Handle` | app/api/upload/route.ts:6-60 | the answer is 200 exactly when the user is signed in, the body's `userId` is theirs, `imagekit.url` is a non-empty string, the generated key is unused and the column types accept the row; each error is 401 or 500 and leaves the table unchanged; on success exactly one row is added (all others unchanged): owned by the caller, at root, with `fileURL` equal to `imagekit.url`, all flags false, timestamps the insertion time; the primary key and the tree invariant are kept |
| `UploadRoute.SignedOutUnauthorized` | app/api/upload/route.ts:8-11 | with no signed-in user the answer is 401 and the table is unchanged |
| `UploadRoute.ForeignUserIdUnauthorized` | app/api/upload/route.ts:15-19 | a body `userId` other than the caller's gives 401 and no change |
| `UploadRoute.MissingUploadDataUnauthorized` | app/api/upload/route.ts:21-28 | a missing `imagekit` object or an empty `url` gives 401 (not 400) and no change |
| `UploadRoute.DefaultsApplied` | app/api/upload/route.ts:30-36 | a recorded upload gets "Untitled" for a falsy name, `/droply/{userId}/{name}` for a falsy path, 0 for a falsy size, "image" for a falsy type, and null for a falsy thumbnail |
| `UploadRoute.FallbackPathUsesRawName` | app/api/upload/route.ts:31-32 | with neither name nor path the row is named "Untitled" but stored at `/droply/{userId}/undefined`: the path uses the raw field, not the default |
| `UploadRoute.SomeKeySucceeds` | app/api/upload/route.ts:44-47 | a request that passes the checks, with a row the column types accept, succeeds for some generated key |
| `UploadRoute.Post` | app/api/upload/route.ts:6-60 | the handler, run against the store, gives the response and the new table that `Handle` gives for the same generated key; the primary key is kept |
| `Web.Truthy` | app/api/files/upload/route.ts:19 | definition used by the contracts of `FilesUploadRoute.Admit`, `UploadRoute.Handle` and `Middleware.Decide`: the `!userId` test (also `if (parentId)` at line 47, app/api/upload/route.ts:9 and middleware.ts:17), true for a present non-empty string |
| `Web.TruthyText` | app/api/upload/route.ts:21 | definition used by the contracts of `UploadRoute.HasUploadData` and `UploadRoute.DefaultsApplied`: the `!imagekit.url` test and the `||` tests of lines 31-36, true for a present non-empty string |
| `Web.StartsWith` | middleware.ts:5 | definition used by the contract of `Middleware.Decide` through `IsPublic`: the `(.*)` suffix of the matcher patterns, `s.startsWith(p)` |
| `Web.OrNull` | app/api/files/upload/route.ts:29 | definition used by the contracts of `FilesUploadRoute.Admit`, `FilesUploadRoute.Handle` and `FilesUploadRoute.AdmittedUploadSent`: `s || null`, the empty string read as null (also applied to the thumbnail at line 106) |
| `Web.TextOr` | app/api/upload/route.ts:31-34 | definition used by the contract of `UploadRoute.Handle` through `UploadRoute.RowFor`: `j || d` for a JSON string field |
| `Web.TextOrNull` | app/api/upload/route.ts:36 | definition used by the contract of `UploadRoute.Handle` through `UploadRoute.RowFor`: `j || null` for a JSON string field |
| `Web.NumberOr` | app/api/upload/route.ts:33 | definition used by the contract of `UploadRoute.Handle` through `UploadRoute.RowFor`: `j || d` for a JSON number field, with 0 falsy |
| `Web.Interpolate` | app/api/upload/route.ts:32 | definition used by the contracts of `UploadRoute.DefaultsApplied` and `UploadRoute.FallbackPathUsesRawName`: a template literal prints a missing field as "undefined" and a null one as "null" |
| `Middleware.IsPublic` | middleware.ts:5 | definition used by the contracts of `Decide` and `PublicRoutes`: `/`, or a path starting with `/sign-in` or `/sign-up` |
| `Middleware.Decide` | middleware.ts:7-26 | a redirect, always to `/dashboard`, happens exactly for a signed-in user on a public path other than `/`; sign-in is demanded exactly on non-public paths; the request passes exactly on a public path reached signed out or at `/` |
| `Middleware.PublicRoutes` | middleware.ts:5 | examples of the definition: `/`, `/sign-in`, `/sign-up` and the paths under the last two are public; the empty path, `/dashboard`, `/sign` and `/api/upload` are not |
| `Middleware.HomeNeverRedirected` | middleware.ts:17 | `/` passes whether or not the user is signed in |
| `Middleware.PrivateAlwaysProtected` | middleware.ts:23-25 | every non-public path demands a signed-in user, whoever asks |
| `Middleware.SignedOutPassesPublic` | middleware.ts:17-25 | a signed-out request to a public path passes untouched |
| `Middleware.RedirectTargetProtected` | middleware.ts:17-25 | the redirect target is itself a protected path, so a redirect is never followed by a second one |

## Left out

- The storage upload is left out: the file bytes (`arrayBuffer`, `Buffer.from`) and the `imagekit.upload` call. The model records what is sent (name and folder) and takes the service's answer as an input. A failure is `None`.
- Parsing the form data and the JSON body is left out. The handlers get already-parsed values.
- A form field holding a value of the other kind (a text `file`, a file as `parentId` or `userId`) is not modelled: `FormData.get` returns a `File`, a string or null, and the model's form has a file in `file` and strings elsewhere. In the source a non-empty text `file` passes the presence and MIME checks and ends in 500 at `arrayBuffer()`.
- JSON fields of a type other than string (or number for `size`) are not modelled. In JavaScript, a number `name` or a non-object `imagekit` has its own truthiness and interpolation.
- `uuidv4()` is a parameter, and so is the key the database's `defaultRandom()` generates; neither is modelled as an algorithm. A generated key already in use is refused, as the primary key demands.
- A `parentId` that is not in uuid syntax is not modelled. Postgres rejects such a lookup with an error, which the handler answers with 500. The model treats every string as an id, so such a request gets 404.
- `Admit`, `Db.Store.SelectOwnedFolder`, `FilesUploadRoute.Handle`: ids are compared as strings. Postgres reads other spellings of the same uuid (upper case, braces, no hyphens) as the same value, so the source finds an owned folder under such a spelling where the model answers 404; the source then also stores the canonical `parentId` while the storage folder uses the raw spelling.
- A JSON `size` that is not a whole number, such as 1.5, is not modelled: `Json<int>` cannot express it, and the source's insert is refused by the `integer` column and answered with 500.
- Other exceptions are left out: a lost connection, an identity-provider failure and the like would also end in the 500 `catch`. Only the faults named above are modelled.
- Reparenting and cycle checks, star and trash toggles, purge and child listing are not modelled: none of the modelled routes performs them.
- The two success bodies differ in shape: one route returns the row and the other wraps it as `{ newFile }`. Both are modelled as `Ok(row)`.
- JSON error bodies and plain-text error bodies are not told apart. Only the status and the message are kept.
- The middleware's `config.matcher` is left out, because it depends on the web framework's path-matching rules. `IsPublic` stands for the route matcher's patterns read as "equal to `/`, or starting with `/sign-in` or `/sign-up`". Case and trailing-slash handling of the matcher are not modelled.
- What `protect` does is left out. It sends a signed-out visitor to sign in and lets a signed-in user through, and happens inside the identity provider.
- `async`/`await` ordering and concurrent requests are not modelled. Each request runs as one step against the table.
- `lib/db/index.ts`, `lib/db/migrate.ts` and `drizzle.config.ts` are not part of this model. They hold connection setup and migration configuration.
- `components/SignUpForm.tsx` and `zodSchemas/signInSchema.ts` are not part of this model. They hold interface state and a declarative validation schema whose rules live in a library.
