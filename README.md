# cromptch: recipe store, users and request checks in Dafny

This project models the server core of cromptch, a recipe-sharing web service
written in Rust. It covers:

- the recipe aggregate store over the `recipes`, `recipe_ingredients` and
  `recipe_steps` tables (`Recipe::create`, `from_uuid`, `list_brief`, `delete`);
- users and login tokens (`User::create`, `from_uuid`, `from_login`,
  `create_token`), including the unpadded URL-safe base64 of section 5 of
  RFC 4648 that turns 48 random bytes into a token;
- the admin capability gate and the admin endpoints (user listing, recipe
  deletion);
- the registration, login and profile endpoints;
- the validation `upload_image` performs on the multipart form and on the image
  service's reply;
- the application error type: kinds, HTTP status codes, display text and
  responses.

The database is modelled as in-memory tables. The recipe store
(`Recipes.RecipeStore`) and the user store (`Users.UserStore`) are classes
whose `seq` fields are the tables; `create`, `create_token` and `delete` are
methods that reassign them. `Recipe::create` works on local copies of the
tables that stand for the transaction's view and assigns them back only at
the commit, so the all-or-nothing behaviour is stated in its contract. Reads
(`from_uuid`, `list_brief`, `from_login`) are functions of the tables.

Everything outside the process is a parameter. This covers the new recipe
id (`Uuid::new_v4`), the new user id, the server clock, the salt, the 48
random bytes, argon2's `hash_encoded` and `verify_encoded` (the `Argon2`
datatype of two functions), `Uuid::parse_str`, the hCaptcha reply, the image
service's reply, and every database failure. Database failures are fault
parameters: a `CreateFault` names the statement of `create` that fails, a
`ReadFault` names the query of `from_uuid` that fails, and a boolean stands
for the single statement of the other operations.

Strings are Dafny strings. `Values.Utf8Len` gives a string's UTF-8 byte
count, which is what Rust's `String::len` returns, so the length checks
compare bytes and not characters (`UserApi.UsernameLengthIsBytes`).

Some behaviour of the code worth knowing, which the model follows:

- `Recipe::create` (src/models/recipe.rs:79-142) validates no field of its
  input, and neither does the model.
- `User::create` checks only the password length (src/models/user.rs:27).
  The username and email checks are in the registration handler
  (src/api/user.rs:72-84).
- Login matches on the email only (src/models/user.rs:73-84).
- A duplicate token is not retried. The rejected insert is reported as an
  internal error (src/models/user.rs:98-108).

## Model

| member | source | states |
|---|---|---|
| Values.Utf8Len | src/models/user.rs:27 | `String::len` counts UTF-8 bytes: between one and four per character, and one per character exactly when the text is ASCII |
| AppErrors.StatusCode | src/error.rs:40-50 | every kind maps to an error status between 400 and 599, and to a 5xx status exactly when it is the internal error |
| AppErrors.StatusCodeRoundTrip | src/error.rs:40-50 | the mapping is BadRequest 400, Unauthorized 401, Forbidden 403, NotFound 404, InternalServerError 500, and the kind can be read back from the status |
| AppErrors.StatusCodeInjective | src/error.rs:40-50 | distinct kinds get distinct status codes |
| AppErrors.Prefix | src/error.rs:26-38 | each kind's display prefix ends in ": " |
| AppErrors.Display | src/error.rs:26-38 | the displayed text is the kind's prefix followed by the message, verbatim |
| AppErrors.DisplayInjective | src/error.rs:26-38 | distinct errors display differently: kind and message can both be recovered from the text |
| AppErrors.IntoResponse | src/error.rs:52-57 | the response carries the kind's status and the bare message, without the display prefix |
| AppErrors.BadRequestError | src/error.rs:60-65 | sets the BadRequest kind and keeps the message |
| AppErrors.UnauthorizedError | src/error.rs:67-72 | sets the Unauthorized kind and keeps the message |
| AppErrors.ForbiddenError | src/error.rs:74-79 | sets the Forbidden kind and keeps the message |
| AppErrors.NotFoundError | src/error.rs:81-86 | sets the NotFound kind and keeps the message |
| AppErrors.InternalError | src/error.rs:88-93 | sets the InternalServerError kind and keeps the message |
| AppErrors.ConstructorResponses | src/error.rs:52-93 | each constructor's error becomes a response with its status (400, 401, 403, 404, 500) and the given message as body |
| Base64Url.CharSextet | src/models/user.rs:97 | a character has a 6-bit value exactly when it is in the URL-safe alphabet, and that value encodes back to it |
| Base64Url.Encode | src/models/user.rs:94-97 | the encoding has 4 characters per 3 bytes plus 2 or 3 for a 1- or 2-byte tail, no padding, all from `A-Z a-z 0-9 - _` |
| Base64Url.DecodeEncode | src/models/user.rs:97 | decoding an encoding gives back the bytes |
| Base64Url.EncodeInjective | src/models/user.rs:97 | distinct byte strings give distinct tokens |
| Recipes.FindRecipe | src/models/recipe.rs:145-156 | the metadata lookup finds a row with the id exactly when one exists |
| Recipes.InsertWithSorted | src/models/recipe.rs:164 | inserting a value into a sequence sorted under a total preorder keeps it sorted; this one sort serves both `ORDER BY num` and the listing's clause |
| Recipes.SortWith | src/models/recipe.rs:164 | sorting under a total preorder returns a permutation of the input that is sorted |
| Recipes.SortWithOfSorted | src/models/recipe.rs:164 | input already sorted comes back unchanged |
| Recipes.OrderByNum | src/models/recipe.rs:158-184 | `ORDER BY num` gives a permutation of the recipe's child rows, ordered by position |
| Recipes.OrderByNumOfSorted | src/models/recipe.rs:164 | rows already in position order are read back unchanged |
| Recipes.OrderByNumReadsInOrder | src/models/recipe.rs:158-184 | the children read back are those of a position-ordered permutation of the stored rows |
| Recipes.FromUuid | src/models/recipe.rs:144-200 | `from_uuid` fails exactly when no metadata row has the id or one of its three queries fails, always with NotFound "Recipe not found"; on success the aggregate has the id, the metadata of that row (title as `name`), and its children in position order |
| Recipes.NumberedInOrder | src/models/recipe.rs:104-164 | rows written at their enumeration index come back from `ORDER BY num` exactly as written |
| Recipes.RowsOfNumbered | src/models/recipe.rs:104-164 | under an id no other row uses, `WHERE recipe_id = $1` selects exactly the rows just written for the new recipe |
| Recipes.NumberedReadsBack | src/models/recipe.rs:104-184 | children written at their enumeration index and read back `ORDER BY num` come back as the original sequence, whatever rows other recipes have |
| Recipes.CreatedRecipeReadsBack | src/models/recipe.rs:86-199 | after the rows of a new recipe are written under an unused id, reading the id back gives the creation data: name, description, author, image, time estimates, source URL, and ingredients and steps in their given order |
| Recipes.InsertNumbered | src/models/recipe.rs:104-135 | one insert loop writes item `num` at position `num` and stops at the first rejected insert, reporting whether all inserts went through |
| Recipes.RecipeStore.Create | src/models/recipe.rs:79-142 | a failing begin or commit gives Internal "Internal db error"; a failing insert gives Internal "Error creating recipe"; in every failure no table changes; after a commit the three tables gain exactly the new rows and the result is `from_uuid` on the new id, which with no read failure echoes the input |
| Recipes.WithoutId | src/models/recipe.rs:229-234 | the delete removes exactly the metadata rows with the id |
| Recipes.DeletedRecipeNotFound | src/models/recipe.rs:228-240 | after the delete, `from_uuid` on the id fails with NotFound |
| Recipes.WithoutIdRemovesOne | src/models/recipe.rs:229-234 | with unique ids, the delete removes exactly one metadata row when the id is present and none otherwise |
| Recipes.DeleteKeepsOthers | src/models/recipe.rs:229-234 | after the delete, every other recipe reads back exactly as before, whether or not its children cascade |
| Recipes.RecipeStore.Delete | src/models/recipe.rs:228-240 | a storage failure gives Internal "Deletion failed" and changes nothing; otherwise exactly one metadata row goes when the id is present, the recipe is gone for every read and the others are unchanged |
| Recipes.SortCode | src/models/recipe.rs:70-76 | the four orderings have discriminants 1 to 4 |
| Recipes.TextLeTotal | src/models/recipe.rs:215-216 | any two titles are comparable |
| Recipes.TextLeTransitive | src/models/recipe.rs:215-216 | title order is transitive |
| Recipes.PrecedesTotal | src/models/recipe.rs:212-216 | under each ORDER BY clause any two rows can be ordered |
| Recipes.PrecedesTransitive | src/models/recipe.rs:212-216 | each ORDER BY clause is transitive |
| Recipes.ClauseTotalPreorder | src/models/recipe.rs:212-216 | each ORDER BY clause, taken as a relation on rows, is a total preorder, so the shared sort applies to it |
| Recipes.Sort | src/models/recipe.rs:212-216 | the sorted listing is a permutation of the rows ordered by the selected clause |
| Recipes.PrefixComesFirst | src/models/recipe.rs:217 | the rows kept by LIMIT come no later than any row left out |
| Recipes.AsI64 | src/models/recipe.rs:219 | `max_count as i64` keeps counts below 2^63 and turns larger ones negative |
| Recipes.SortedByOrdering | src/models/recipe.rs:212-216 | a listing sorted by a clause is ordered by creation time ascending or descending, or by title ascending or descending, as selected |
| Recipes.ListBrief | src/models/recipe.rs:202-226 | `list_brief` fails with Internal "Error fetching recipes" exactly when the query fails or the count is 2^63 or more; otherwise it returns min(max_count, number of recipes) metadata rows taken from the table, ordered as selected, none ranked after a row it left out |
| Users.FindUser | src/models/user.rs:53-84 | the lookup by id or by email finds a user matching the key exactly when one exists, and returns a stored row |
| Users.FromUuid | src/models/user.rs:52-66 | fails with NotFound "User not found" exactly when the query fails or no user has the id; otherwise returns a stored user with that id |
| Users.FromLogin | src/models/user.rs:68-91 | a failed query or an unknown email gives NotFound "User not found"; success needs a working query and returns a stored user with that email whose hash verifies the password; the only other error is Internal "Failed to retrieve user", exactly when the query works, finds the email and verification itself errs |
| Users.LoginOutcomes | src/models/user.rs:68-91 | with unique emails, logging in as a stored user succeeds exactly when the query works and the hash verifies, gives NotFound exactly when the query fails or the hash does not verify, and Internal exactly when the query works and verification errs, so a wrong password looks like an unknown email |
| Users.RegisteredUserCanLogIn | src/models/user.rs:19-91 | a user stored with the hash of a password can log in with its email and that password |
| Users.UserStore.Create | src/models/user.rs:19-50 | a password under 8 bytes gives BadRequest before hashing; a hashing error gives Internal "Failed to hash password"; a rejected insert gives BadRequest "Failed to create user"; success appends exactly one user, holding the argon2 encoding and not the password |
| Users.UserStore.CreateToken | src/models/user.rs:93-110 | the token is the base64url encoding of the 48 bytes, 64 characters from `A-Z a-z 0-9 - _`; success appends exactly one (token, user id) row; a rejected insert gives Internal "Failed to issue token" and changes nothing |
| Admins.FromRequestParts | src/models/admin.rs:25-30 | an extraction error is passed on unchanged; the result is an `Admin` exactly when the user is an admin, wrapping that same user; otherwise Unauthorized "user is not an admin" |
| Admins.NonAdminsLookAlike | src/models/admin.rs:27-29 | every non-admin is rejected with the same 401 response |
| AdminApi.Entries | src/api/admin.rs:39-48 | one entry per user, in order, with its id, username, email and admin flag |
| AdminApi.EntriesIgnorePasswords | src/api/admin.rs:25-32 | users differing only in their password hashes are listed identically |
| AdminApi.GetUsers | src/api/admin.rs:34-50 | a rejected caller's error comes first, then a listing error; otherwise one entry per user in order |
| AdminApi.DeleteRecipe | src/api/admin.rs:52-61 | a rejected caller gets its error and an unknown id gets NotFound, with no delete attempted and no change; a success removes the recipe for every read and leaves all other recipes reading as before |
| UserApi.CheckCaptcha | src/api/user.rs:49-71 | without a site key the step passes; with one, a missing token gives BadRequest "Missing hCaptcha token", a failed request or unparsable reply gives Internal, and a rejected token gives BadRequest "Invalid hCaptcha token" |
| UserApi.ValidateRegistration | src/api/user.rs:72-84 | the fields pass exactly when the username has 3 or more bytes, the password 8 or more, and the email an '@'; otherwise the first failing check, in that order, gives its BadRequest message |
| UserApi.UsernameLengthIsBytes | src/api/user.rs:72-76 | the username check counts bytes: "éé" passes and "ab" fails |
| UserApi.CreateUser | src/api/user.rs:39-87 | the captcha step runs first, then the field checks; nothing is stored unless both pass; on success exactly one non-admin user is added and the reply is "User created" |
| UserApi.LoginUser | src/api/user.rs:105-120 | login succeeds exactly when `from_login` succeeds, the token insert is accepted and the new token is not already stored; a failed login is returned unchanged with no token issued; a rejected token insert gives Internal "Failed to issue token"; on success the response carries the user's id, username, email, admin flag and the token just stored for that user |
| UserApi.GetSelf | src/api/user.rs:130-137 | the profile copies id, username, email and admin flag of the requesting user |
| UserApi.GetSelfIgnoresPassword | src/api/user.rs:122-128 | the profile does not depend on the stored password hash |
| ImageApi.SplitOnce | src/api/image.rs:94-99 | `split_once(".")` succeeds exactly when there is a '.', and returns the dot-free text before the first one and the rest after it |
| ImageApi.SplitOnceJoin | src/api/image.rs:94-99 | splitting `stem.ext` with a dot-free stem gives back the stem and the extension |
| ImageApi.StoredName | src/api/image.rs:94-99 | the image id text is the stored file's name up to its first '.' |
| ImageApi.UploadImage | src/api/image.rs:62-108 | each failure gives its own error, in source order: no readable field, no field, no field name, a name other than "file", no file name, an unreadable body, a failed upload, a file count other than one, no '.' in the stored name (Internal "Image uploaded failed", spelled as in the source), an id or delete token that does not parse, a rejected ledger insert; success records the parsed image id and delete token and returns that id |
| ImageApi.UploadReturnsStoredId | src/api/image.rs:94-107 | for a stored file `<id>.<ext>` whose id parses, a successful upload returns exactly that id |

## Left out

- Startup (src/main.rs), axum routing and extractors, async execution, `Arc`, logging and the Postgres engine. Transactions are modelled only as all-or-nothing.
- `User::from_request_parts` (bearer-token lookup and the `last_used` update) and `User::get_all` are not part of this model. The admin gate, `get_users` and `get_self` take their outcome as an input.
- The image service client (src/external/image.rs), `get_image` and `get_thumbnail`. They are HTTP I/O, and the upload reply is a parameter.
- The image ledger insert (src/models/image.rs) is a fault flag. Its definition takes an owner argument that the call at src/api/image.rs:105 does not pass, so the model records only the id and delete token. The error on a rejected insert is Internal "Failed to create image entry".
- The recipe HTTP handlers (src/api/recipe.rs). Their call to `Recipe::create` does not match the model-layer signature, which is the one modelled.
- The hCaptcha HTTP exchange is the `CaptchaReply` parameter. The `unwrap` of the missing secret key, which panics, is not modelled.
- argon2, `rand`, `Uuid::new_v4` and `Uuid::parse_str` are foreign. They are function or value parameters.
- Users.UserStore.Create: does not state that the stored hash differs from the plaintext password. argon2's output is not modelled, only that the hash is what `hash_encoded` returned.
- Recipes.RecipeStore.Create: requires the new id to be unused in all three tables. This stands for the uniqueness of `Uuid::new_v4`, which the code relies on.
- Recipes.RecipeStore.Create: `num as i32` is not modelled. It would wrap only for more than 2^31 ingredients or steps.
- Recipes.RecipeStore.Delete: whether ingredient and step rows cascade depends on the schema migrations, which are not part of this model. The store's `cascades` flag leaves both cases open, and the contract holds in both.
- Recipes.ListBrief: titles are compared by code point. This matches the C collation. Locale-aware database collations are not modelled. Rows with equal keys may come in any order, as in SQL. The model fixes one such order, and the contract states only what every order satisfies.
- Timestamps are opaque ordered integers supplied by the caller, and `BigDecimal` is an opaque exact value with no arithmetic.
- The uniqueness of usernames, emails and tokens is a database constraint. The model states it as the stores' `Valid` invariant, and a violating insert is a rejected insert.
- Users.UserStore.CreateToken: the 48-byte buffer that `fill_bytes` writes in place is taken as a finished input.
