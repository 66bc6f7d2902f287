# btpv password vault — a Dafny model of the service layer

The vault's backend keeps shared credentials for groups of users. Users
register and log in with a bearer token. A user creates groups and becomes
their owner and first member. The owner adds and removes members. Any member
stores, reads, edits and deletes the group's credential entries. The server
encrypts each secret with one process-wide Fernet key, derived from the
configured secret. An audit log records user creation and tags each log entry
with the objects it concerns.

This project models the service classes behind those operations, and a draft
variant of the list route, over an in-memory database:

| file | module | models |
|---|---|---|
| `wrappers.dfy` | `Wrappers` | `Option`, `Result` |
| `entities.dfy` | `Entities` | the table rows, the request payloads, partial-update patches, the `setattr` loop |
| `store.dfy` | `Store` | the six tables as one `Db` object, their keys, unique columns and foreign keys, and the row operations the ORM performs |
| `security.dfy` | `Security` | bcrypt and JWT, as abstract functions with the properties the services rely on |
| `encryption.dfy` | `Encryption` | key derivation (UTF-8, cut/pad to 32 bytes, base64) and the encrypt/decrypt wrappers |
| `log_service.dfy` | `Logging` | `LogService` |
| `group_service.dfy` | `Groups` | `GroupService` |
| `password_service.dfy` | `Passwords` | `PasswordService` |
| `user_service.dfy` | `Users` | `UserService` |
| `auth_service.dfy` | `Auth` | `AuthService` |
| `transfer.dfy` | `Transfer` | the list variant of `get_group_passwords` and its route |

Each service is a class holding the shared `Db`. As in the source, an
operation that writes the database is a `method` that `modifies db`. Its
`ensures` give the error returned for each failed check, in the source's
order, and the complete new state. A `Result` is returned instead of raising.
A failed call leaves the database unchanged. A read-only operation is a
`function` that `reads db`.

`Db.Valid()` states the schema's integrity:
- primary keys and id sequences;
- unique usernames and unique non-null emails;
- every foreign key points to an existing row;
- the owner of a group is one of its members.

Every mutator requires and preserves `Valid()`. The invariant "the owner is a
member" is therefore proved for `create_group`, `add_member`, `remove_member`,
`update_group` and `delete_user`.

The service classes receive external inputs as parameters:
- the clock is a `now: Timestamp` argument;
- bcrypt and JWT are the function fields of a `Security` value;
- Fernet is a `Cipher` value.

Their guarantees appear only as hypotheses of the lemmas that need them:
`HashSound` (a hash verifies against its own password), `TokenSound` (a token
decodes to its subject) and `RoundTrips` (what was encrypted decrypts).

The `setattr` loops of the three update operations are modelled as one loop,
`Entities.SetEach`. It is proved against the fold `Entities.ApplyAll`. A lemma
per entity shows that folding the patch dict sets exactly the fields the
client sent. `update_user`'s loop that deletes disallowed keys is
`Users.DropDisallowed`.

Query results without an `ORDER BY` are modelled in ascending id order.
`.first()` on a unique column returns the single matching row.

## Model

| member | source | states |
|---|---|---|
| `Entities.Patched` | backend/app/models/schemas/password.py:15-20 | a field the client left out keeps its value; a sent field takes the sent value, an explicit null included |
| `Entities.ApplyAll` | backend/app/services/group_service.py:91-92 | the effect of setting each item of a patch dict in turn; no items leave the row as it was, one item is one assignment |
| `Entities.SetEach` | backend/app/services/group_service.py:91-92 | the `for field, value in ...: setattr(...)` loop computes exactly that fold |
| `Entities.ApplyAllAppend` | backend/app/services/password_service.py:84-85 | setting the items of two dicts one after the other equals setting the items of their concatenation |
| `Entities.NatToString` | backend/app/services/auth_service.py:83 | `str()` of an id is a non-empty string of decimal digits with no leading zero, and the digits read back as the id itself |
| `Entities.NatToStringInjective` | backend/app/services/user_service.py:51 | two ids render to the same text exactly when they are equal, so a log message names exactly the ids it was built from |
| `Store.AscendingIds` | backend/app/services/user_service.py:25 | a listing contains every id of the selected set exactly once, no other id, in strictly ascending order |
| `Store.Db.MembersOf` | backend/app/models/entities/group.py:15-19 | `group.members` holds exactly the users with a group_members row for the group |
| `Store.Db.PasswordIdsOf` | backend/app/services/password_service.py:108 | the `group_id == g` query finds exactly the ids of the group's entries, ascending |
| `Store.Db.UserByName` | backend/app/services/auth_service.py:50 | the username lookup returns a stored row with that name, and finds nothing exactly when no user has the name |
| `Store.Db.UserByNameFindsRow` | backend/app/models/entities/user.py:10 | because usernames are unique, looking up a stored user's name returns that very row |
| `Store.Db.InsertUser` | backend/app/services/user_service.py:47-49 | adding a user with a fresh id, an unused username and an unused email keeps the schema valid; only the users table and its sequence change |
| `Store.Db.ReplaceUser` | backend/app/services/user_service.py:157-161 | committing a user row whose email no other user holds keeps the schema valid and changes only that row |
| `Store.Db.DeleteUserRow` | backend/app/services/user_service.py:183-184 | deleting a user also deletes its membership rows and clears owner_id of the groups it owned; nothing else changes |
| `Encryption.Utf8Char` | backend/app/services/encryption_service.py:11 | one code point encodes to 1 to 4 bytes; it takes one byte exactly when it is ASCII, and every later byte is a continuation byte |
| `Encryption.Utf8Encode` | backend/app/services/encryption_service.py:11 | `encode()` yields between one and four bytes per character |
| `Encryption.AsciiEncodesToCodes` | backend/app/services/encryption_service.py:11 | an ASCII secret encodes to its own character codes, one byte each |
| `Encryption.RawKey` | backend/app/services/encryption_service.py:11 | the raw key is always 32 bytes: the first min(32, n) bytes of the secret, then `'='` (0x3D) padding |
| `Encryption.Base64Encode` | backend/app/services/encryption_service.py:11 | the encoding of n bytes has 4·⌈n/3⌉ characters |
| `Encryption.Base64RoundTrip` | backend/app/services/encryption_service.py:11 | decoding the base64 encoding of any byte string gives back those bytes |
| `Encryption.DeriveKey` | backend/app/services/encryption_service.py:11 | the derived Fernet key is always 44 characters long |
| `Encryption.DerivedKeyDecodes` | backend/app/services/encryption_service.py:11 | the derived key decodes to the 32-byte raw key |
| `Encryption.DerivedKeyIsValid` | backend/app/services/encryption_service.py:11-12 | every secret, the empty one and one longer than 32 bytes included, derives a key that `Fernet` accepts (32 bytes after decoding) |
| `Encryption.KeyIgnoresSecretTail` | backend/app/services/encryption_service.py:11 | two secrets that agree on their first 32 UTF-8 bytes derive the same key |
| `Encryption.EncryptionService.EncryptPassword` | backend/app/services/encryption_service.py:14-20 | success exactly when a string was given and the cipher encrypts it, returning the cipher's text; every failure, `None` included, is a RuntimeError whose message starts "Password encryption failed: " |
| `Encryption.EncryptionService.DecryptPassword` | backend/app/services/encryption_service.py:22-28 | plaintext exactly when the cipher decrypts; every failure is a RuntimeError whose message starts "Password decryption failed: " and carries no plaintext |
| `Encryption.NewEncryptionService` | backend/app/services/encryption_service.py:9-12 | the process-wide key is a valid Fernet key and decodes to the raw key of the configured secret |
| `Encryption.DecryptAfterEncrypt` | backend/app/services/encryption_service.py:14-28 | under the cipher's round trip, decrypting what `encrypt_password` returned gives back the password |
| `Logging.LogService.CreateLog` | backend/app/services/log_service.py:11-19 | exactly one log with the given message is added under a fresh id and returned; every existing log is unchanged |
| `Logging.LogService.CreateAssociation` | backend/app/services/log_service.py:21-32 | the triple (log id, id, type) is added; the same triple again violates the three-column primary key and changes nothing |
| `Logging.LogService.GetLogs` | backend/app/services/log_service.py:34-35 | every stored log and only those, whoever asks, in id order |
| `Logging.LogService.GetLogsBy` | backend/app/services/log_service.py:37-40 | exactly the logs with some association of that id and some association, possibly another one, of that type |
| `Groups.GroupItems` | backend/app/services/group_service.py:91 | the patch dict carries each sent field (name, description) with its sent value, and nothing that was not sent |
| `Groups.SetGroupField` | backend/app/services/group_service.py:92 | `setattr` changes only the named column |
| `Groups.GroupItemsApply` | backend/app/services/group_service.py:91-92 | the loop changes exactly name and description as patched, and never the id or the owner |
| `Groups.GroupService.CreateGroup` | backend/app/services/group_service.py:13-25 | the creator owns the new group and is its only member; only the groups and members tables change |
| `Groups.GroupService.GetGroup` | backend/app/services/group_service.py:27-34 | a missing group is NotFound; succeeds exactly for a member and returns the stored group |
| `Groups.GroupService.AddMember` | backend/app/services/group_service.py:36-53 | checks in order: group exists (NotFound), caller is owner (PermissionDenied), user exists (NotFound); then exactly that user is a member, and an existing member is a no-op |
| `Groups.GroupService.RemoveMember` | backend/app/services/group_service.py:55-75 | the same check order, then PermissionDenied when the owner names themselves; then exactly that user leaves, and removing a non-member is a no-op |
| `Groups.GroupService.GetUserGroups` | backend/app/services/group_service.py:77-81 | exactly the groups the user owns or belongs to, in id order |
| `Groups.GroupService.UpdateGroup` | backend/app/services/group_service.py:83-96 | owner only, NotFound before PermissionDenied; only the patched name and description change, and owner, members and entries stay |
| `Groups.UserGroupsAreMemberships` | backend/app/services/group_service.py:79-81 | since the owner is a member, the listing is exactly the user's memberships |
| `Groups.OwnerPassesGetGroup` | backend/app/services/group_service.py:20 | the owner of a group can always read it and gets the stored row |
| `Passwords.PlainCopy` | backend/app/services/password_service.py:51-59 | the returned copy keeps the id, group and displayed fields, holds the plaintext, and has no timestamps |
| `Passwords.PatchedEntry` | backend/app/services/password_service.py:77-85 | after an update: the patched fields take the sent values; id, group and created_at never change; updated_at is stamped with the update time exactly when some other column changed, and otherwise the row is unchanged |
| `Passwords.UpdateItems` | backend/app/services/password_service.py:77-81 | the update dict carries `encrypted_password` exactly when a secret was sent |
| `Passwords.SetPasswordField` | backend/app/services/password_service.py:84-85 | `setattr` changes only the named column |
| `Passwords.UpdateItemsApply` | backend/app/services/password_service.py:77-85 | the loop sets exactly the patched columns, and the blob only when a secret was sent |
| `Passwords.UpdatedEntry` | backend/app/models/entities/password.py:17 | the loop followed by the commit yields the patched entry, stamped with the update time when it changed |
| `Passwords.SecretOnlyPatchKeepsFields` | backend/app/services/password_service.py:77-85 | a patch that carries only a secret leaves title, username, url and notes as they were |
| `Passwords.PasswordService.VerifyGroupAccess` | backend/app/services/password_service.py:110-126 | succeeds exactly for an existing group the user belongs to; a missing group and a non-member both give PermissionDenied, never NotFound |
| `Passwords.PasswordService.CreatePassword` | backend/app/services/password_service.py:19-39 | access is checked before encryption; the new entry is in the requested group, stores the ciphertext of the secret and copies the other fields; under the cipher's round trip, reading it back yields the secret; decryptability of all entries is preserved |
| `Passwords.PasswordService.GetPassword` | backend/app/services/password_service.py:41-61 | a missing id is NotFound even for a non-member; succeeds exactly for a member when the blob decrypts, returning the plaintext copy |
| `Passwords.PasswordService.UpdatePassword` | backend/app/services/password_service.py:62-89 | NotFound, then access, then encryption of a sent secret (an explicit null fails); exactly the patched entry replaces the old one |
| `Passwords.PasswordService.DeletePassword` | backend/app/services/password_service.py:91-101 | after the NotFound and access checks, exactly that entry is removed |
| `Passwords.PasswordService.GetGroupPasswords` | backend/app/services/password_service.py:103-108 | after the access check, exactly the stored entries of the group, still encrypted, in id order |
| `Passwords.GuardsAgree` | backend/app/services/password_service.py:113-126 | the membership guard agrees with `get_group`'s on existing groups; on a missing group it says PermissionDenied where `get_group` says NotFound |
| `Passwords.OutsidersAreRefused` | backend/app/services/password_service.py:43-48 | a non-member can neither read an existing entry nor list its group |
| `Users.AllowedUpdate` | backend/app/services/user_service.py:143-154 | an administrator's patch applies as sent; anyone else's keeps only the email |
| `Users.ApplyUserUpdate` | backend/app/services/user_service.py:157-158 | the patched columns take the sent values; id, username and hash never change |
| `Users.UserItems` | backend/app/services/user_service.py:148 | the patch dict has at most the three schema fields |
| `Users.OnlyEmail` | backend/app/services/user_service.py:149-152 | after the deletion loop only `email` entries remain |
| `Users.DropDisallowed` | backend/app/services/user_service.py:150-152 | the key-deletion loop keeps exactly the email entry |
| `Users.OnlyEmailOfItems` | backend/app/services/user_service.py:148-152 | deleting every key but email leaves the dict of an email-only patch |
| `Users.AllowedItems` | backend/app/services/user_service.py:143-154 | the dict the update loop iterates is the dict of the allowed patch |
| `Users.SetUserField` | backend/app/services/user_service.py:158 | `setattr` changes only the named column |
| `Users.UserItemsApply` | backend/app/services/user_service.py:157-158 | the loop sets exactly the patched columns |
| `Users.UpdatedRow` | backend/app/services/user_service.py:142-158 | the row after the loop is the allowed patch applied to the stored row |
| `Users.UserService.GetUsers` | backend/app/services/user_service.py:20-25 | PermissionDenied for a non-admin; for an admin, every user, in id order |
| `Users.UserService.CreateUser` | backend/app/services/user_service.py:27-55 | admin check, then duplicate username, then duplicate email; the new user is active with the requested admin flag; one log "User <a> created User <b>" is tagged with both ids |
| `Users.UserService.GetUser` | backend/app/services/user_service.py:57-79 | NotFound first; succeeds exactly for an admin or the user themselves, returning the stored row |
| `Users.UserService.UpdatePassword` | backend/app/services/user_service.py:81-120 | NotFound, then self only (admins too), then the current password must verify; only the hash changes, and under a sound hash the new password verifies |
| `Users.UserService.UpdateUser` | backend/app/services/user_service.py:122-162 | NotFound; a non-admin updates only themselves and only their email, so their admin and active flags stay; an email held by another user is rejected with no change |
| `Users.UserService.DeleteUser` | backend/app/services/user_service.py:164-184 | admin check before the lookup; the user, its memberships and its ownerships are gone |
| `Users.UserService.GetAvailableUsers` | backend/app/services/user_service.py:187-202 | NotFound, then owner only; exactly the active users outside the group, in id order, never the owner |
| `Auth.AuthService.CreateAccessToken` | backend/app/services/auth_service.py:23-30 | the token type is always "bearer"; the token expires 30 minutes after issue, and a sound token scheme reads the subject back |
| `Auth.AuthService.GetCurrentUser` | backend/app/services/auth_service.py:32-45 | no subject or an empty one is "Invalid token", an unknown subject is "User not found", and every failure is an AuthenticationError; success returns the stored user named by the token, and a token whose non-empty subject names a stored user always succeeds |
| `Auth.AuthService.AuthenticateUser` | backend/app/services/auth_service.py:48-57 | succeeds exactly for a known username whose hash accepts the password; both failures give the same "Invalid username or password" |
| `Auth.AuthService.CreateUser` | backend/app/services/auth_service.py:59-86 | duplicate username before duplicate email; the new user is active and not an admin; one log "Created User <id>" is tagged with the id; under a sound hash the new user can log in |
| `Auth.TokenResolvesToUser` | backend/app/services/auth_service.py:23-45 | under a sound token scheme, the token issued for a stored user resolves to that user |
| `Transfer.Summary` | transfer.py:67-76 | a summary copies id, title, username, url, notes, group and timestamps, and has no secret |
| `Transfer.Summaries` | transfer.py:66-77 | one summary per row, in the rows' order |
| `Transfer.PasswordService.GetGroupPasswords` | transfer.py:52-77 | NotFound for a missing group, PermissionDenied for a non-member; otherwise exactly one summary per entry of the group, in id order |
| `Transfer.ListsAgree` | transfer.py:52-77 | the variant succeeds exactly when the stored operation does and lists the same entries in the same order without secrets; they differ only in the error for a missing group |
| `Transfer.Str` | transfer.py:36-40 | `str()` of a service error is its message; an HTTPException renders as "<status>: <detail>" |
| `Transfer.Handle` | transfer.py:35-40 | NotFound is 404, PermissionDenied is 403, and anything else, an HTTPException included, is 500 |
| `Transfer.TryBody` | transfer.py:26-33 | group id 0 raises the 422; every other id runs the list operation |
| `Transfer.RouteAsWritten` | transfer.py:19-40 | as written, the route never answers 422; it answers 404 for a missing group, 403 for a non-member, and lists for a member |
| `Transfer.ZeroGroupIdIsServerError` | transfer.py:26-40 | as written, group id 0 is answered with 500 "422: Invalid group ID provided" |
| `Transfer.Route` | transfer.py:26-40 | corrected: group id 0 is answered with 422, and every other answer is the as-written one; the route only answers 403, 404 or 422 when it fails |

## Left out

- bcrypt, JWT and Fernet are not modelled internally. They are abstract function values with soundness predicates, used only as hypotheses. bcrypt's random salt is folded into the hash function. Fernet's random IV and timestamp are folded into the encrypt function.
- Token expiry is computed (now + 30 minutes) but never checked: verifying a token is the abstract `decodeToken`.
- Auth.AuthService.GetCurrentUser: when the inner AuthenticationError is wrapped again, the message is taken to be the inner message. The text that `str()` gives for the wrapped exception depends on app/core/exceptions.py, which is not part of this model. Database failures inside the `try` are not modelled.
- Transfer.Str: an HTTPException is rendered as "<status>: <detail>", the way the web framework renders it; that framework is not part of this model.
- Timestamps are opaque integers passed in as `now`. The database clock (`server_default`, `onupdate`) is that parameter.
- `commit`, `refresh`, sessions, transactions, `async`/`await` and concurrency are not modelled. Each operation is one sequential step against the in-memory tables.
- Rows of an unordered query come back in ascending id order in this model. The database gives no such guarantee. "Same order" in `Transfer.ListsAgree` is therefore about this model's order.
- Users.UserService.CreateUser: the user row and the log are written by separate commits in the source. The model proves that neither association insert can fail here, so it does not model a half-finished creation.
- Auth.AuthService.CreateUser: the same holds for the one association of self-registration.
- Users.UserService.UpdateUser: the model does not validate the email format (EmailStr). A clashing email is reported as `Integrity` with a fixed constraint message. The exact text of the database error is not modelled.
- Users.UserService.DeleteUser: the cascades are the ORM's defaults. Membership rows are deleted, and owned groups keep their rows with no owner. A database that refused the delete because of the owner_id foreign key is not modelled.
- Base64 decoding in `Encryption` is strict RFC 4648 (section 4) decoding. Fernet decodes keys leniently with the URL-safe alphabet. The two agree on every derived key, because the derived key uses only the standard alphabet and correct padding.
- The configured secret is a parameter of `Encryption.NewEncryptionService`. Generating a random default secret per process is not modelled.
- The HTTP routes under backend/app/api/routes are not modelled, except the draft route of transfer.py. Two of them behave oddly. groups.py turns every error into status 400. passwords.py calls a `generate_password` that the encryption service does not define.
- Pydantic validation of payloads is not modelled: URL parsing, email syntax, and rejecting a non-integer path parameter before the route runs.
- Unicode normalisation is not modelled. `encode()` is plain UTF-8 over the string's code points.

## Findings

| source | as written | input that shows it | evidently intended | confidence | as-written member | corrected member |
|---|---|---|---|---|---|---|
| transfer.py:26-40 | the `HTTPException(422)` for a falsy group id is raised inside the `try`; `except Exception` catches it and re-raises it as 500 | `GET /passwords/group/0` by any authenticated user | answer 422 "Invalid group ID provided" | high; not executed | `Transfer.RouteAsWritten`, `Transfer.ZeroGroupIdIsServerError` | `Transfer.Route` |
