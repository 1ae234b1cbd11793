# In-memory record stores and request handlers of the sla-con-2024 examples

This project is a Dafny model of the request-handling logic in the repository's TypeScript examples. It covers four groups:

- **Todo REST API** (`typescript-basics-with-api/api.ts`). `GET`, `POST`, `PUT` and `DELETE` on `/todos` over a module-level `todos` array.
- **Reminders route** (`next-test/src/app/api/reminders/route.ts`). `GET` lists the `reminders` array. `POST` checks three required fields and then appends a reminder whose id is the clock reading.
- **tRPC demo server** (`trpc-demo/src/server.ts`). The procedures `getUsers`, `getUserById`, `createUser` (with its password rule), `login`, `getCurrentUser` and `updateUser`, over a seeded `users` array.
- **Lambda handlers and string helpers.** The `users.ts` handler validates a new user and answers 400 or 201. The `hello.ts` handler answers a greeting. Both use fixed CORS headers. From `demo.ts`, the model covers `identity`, `padLeft`, `numberRegexp` and `ZipCodeValidator.isAcceptable`.

Every handler is a pure function. The REST handlers and the tRPC procedures that write the array (createUser, updateUser) take the current array and the decoded request, and return the next array and the response. The other tRPC procedures, the `login` mutation included, return only their reply, and the Lambda handlers, which hold no array, return only their response. Some inputs are outside the program, so they become parameters:

- the clock reading `Date.now()` is `now: nat`;
- the UUID generator's value is `freshId`;
- the tRPC context's user is an `Option<UserView>`;
- the schema library's email check is `isEmail: string -> bool`.

Modules:

- `Wrappers`: `Option` and `Result`.
- `JsValues`: JavaScript truthiness, `||` defaulting, and `Number.prototype.toString` for non-negative integers, together with the decimal reading it is checked against.
- `JsArray`: `findIndex`, `find`, `filter`, `join` and `Array(n)` on sequences.
- `Http`: status codes and the status-plus-payload response.
- `TodoApi`, `Reminders`, `UserSchemas` and `TrpcServer`: one module per store.
- `LambdaHandlers`: the two Lambda handlers.
- `Demo`: the `demo.ts` helpers.

Three facts about the code as written are proved:

- **Todo ids can repeat.** A new todo is numbered by the array's length plus one, so a create after a delete can repeat an id that is still stored (`TodoApi.CreateAfterDeleteDuplicatesId`). A PUT body may also overwrite `id` (`TodoApi.UpdateCanDuplicateId`).
- **Reminder ids can repeat.** They are clock readings with no uniqueness check (`Reminders.SameClockSharesId`).
- **Todo DELETE never answers 404.** It answers 204 whether or not anything matched (`TodoApi.Delete`).

## Model

| member | source | states |
|---|---|---|
| `TodoApi.List` | typescript-basics-with-api/api.ts:20-22 | GET answers 200 with the stored todos, in order, and leaves the array unchanged |
| `TodoApi.Create` | typescript-basics-with-api/api.ts:25-33 | POST appends exactly one todo at the end and leaves every earlier entry as it was. The new todo has id = old length + 1, the body's title (possibly absent) and completed = false. The answer is 201 with that todo |
| `TodoApi.Merge` | typescript-basics-with-api/api.ts:42 | the spread merge: each field present in the body replaces the stored one, `id` included, and absent fields keep their old values |
| `TodoApi.MergeLaws` | typescript-basics-with-api/api.ts:42 | a body with no keys leaves the todo unchanged, and applying the same body twice is the same as once |
| `TodoApi.Update` | typescript-basics-with-api/api.ts:36-47 | PUT answers 404 "Todo not found" exactly when no todo has the parsed id (always when it is NaN), and then the array is unchanged. Otherwise only the first matching position is replaced by the merge, and the answer is 200 with the merged todo |
| `TodoApi.Delete` | typescript-basics-with-api/api.ts:50-54 | DELETE always answers 204, even when nothing matched. No survivor has the id, every todo without the id survives, and the length drops by the number of matches |
| `TodoApi.DeleteKeepsOrder` | typescript-basics-with-api/api.ts:52 | deleting from a concatenation deletes from each part, so survivors keep their original relative order |
| `TodoApi.DeleteIdempotent` | typescript-basics-with-api/api.ts:52-53 | a second DELETE of the same id leaves the array and the answer unchanged |
| `TodoApi.DeleteMissLeavesStore` | typescript-basics-with-api/api.ts:51-53 | a DELETE that matches nothing, NaN included, leaves the array exactly as it was and still answers 204 |
| `TodoApi.CreateAfterDeleteDuplicatesId` | typescript-basics-with-api/api.ts:26-52 | with one todo of id k and a todo whose id equals the length, a DELETE of k followed by a POST gives the new todo an id that is already stored |
| `TodoApi.UpdateCanDuplicateId` | typescript-basics-with-api/api.ts:38-42 | a PUT whose body carries another todo's id leaves two todos with the same id |
| `TodoApi.Handle` | typescript-basics-with-api/api.ts:20-54 | routing by method: GET keeps the array, POST grows it by one, PUT keeps its length, DELETE never grows it |
| `TodoApi.CreatesNumberByPosition` | typescript-basics-with-api/api.ts:26-31 | starting from ids 1..n by position, any run of GETs and POSTs keeps ids equal to position + 1, so they stay unique |
| `JsArray.FindIndex` | typescript-basics-with-api/api.ts:38 | `findIndex` is -1 exactly when no element passes. Otherwise it is the first passing position |
| `JsArray.Filter` | typescript-basics-with-api/api.ts:52 | every kept element passes and occurs in the input, every passing input element is kept, the result's length is the number of passing elements, and no element is kept more often than it occurs |
| `JsArray.FilterMultiplicity` | typescript-basics-with-api/api.ts:52 | each passing element is kept exactly as often as it occurs, and every failing element is dropped |
| `JsArray.FilterConcat` | typescript-basics-with-api/api.ts:52 | filtering a concatenation is the concatenation of the filtered parts, so kept elements stay in their original order |
| `JsArray.Find` | trpc-demo/src/server.ts:40 | `find` is absent exactly when no element passes. Otherwise it is the element at the first passing position |
| `Reminders.List` | next-test/src/app/api/reminders/route.ts:12-14 | GET answers 200 with the stored reminders in insertion order and leaves the array unchanged |
| `Reminders.Create` | next-test/src/app/api/reminders/route.ts:22-44 | POST succeeds with 201 exactly when title, description and dueDate are all present and non-empty. On success one reminder is appended at the end, with the input's fields and the clock's decimal string as its id, earlier reminders are unchanged, and the body is that very reminder. Otherwise the answer is 400 "Missing required fields" and the array is unchanged |
| `Reminders.CreatedIdIsClock` | next-test/src/app/api/reminders/route.ts:36 | a created reminder's id is all digits and reads back as the clock value it was made at |
| `Reminders.DistinctClocksDistinctIds` | next-test/src/app/api/reminders/route.ts:35-40 | two successive creates get equal ids exactly when the clock readings are equal |
| `Reminders.SameClockSharesId` | next-test/src/app/api/reminders/route.ts:35-42 | two creates in the same millisecond are both stored with the same id, because nothing checks the new id against the stored ones |
| `Reminders.RunAppendsAccepted` | next-test/src/app/api/reminders/route.ts:12-43 | serving any sequence of GETs and POSTs appends exactly the accepted POST bodies to the array, in request order, and changes nothing else |
| `Reminders.ListAfterRequests` | next-test/src/app/api/reminders/route.ts:12-43 | after any sequence of GETs and POSTs, GET lists the starting reminders followed by exactly the accepted POST bodies, in request order, each with its clock reading's decimal string as id |
| `JsValues.NumberToString` | next-test/src/app/api/reminders/route.ts:36 | the decimal string of a non-negative integer is non-empty, all digits, and has no leading zero |
| `JsValues.DecimalRoundTrip` | next-test/src/app/api/reminders/route.ts:36 | reading the decimal string back gives the original number |
| `JsValues.NumberToStringInjective` | next-test/src/app/api/reminders/route.ts:36 | two numbers have the same decimal string exactly when they are equal |
| `JsValues.Truthy` | next-test/src/app/api/reminders/route.ts:28 | a possibly absent string is truthy exactly when it is present and non-empty, which is what `!title` tests |
| `JsValues.OrElse` | typesafe-lambda-api/src/handlers/hello.ts:7 | `s \|\| fallback` is the string itself when truthy and the fallback otherwise, so it is never empty when the fallback is not |
| `UserSchemas.PasswordRegexIsStrongPassword` | trpc-demo/src/server.ts:52-59 | the length bounds plus the pattern (`PasswordRegexMatches`), read with its lookaheads and line-break-excluding `.`, hold exactly when the password has 8 to 100 characters, at least one lowercase letter, one uppercase letter, one digit and one of `@$!%*?&`, and no other characters |
| `UserSchemas.CheckPassword` | trpc-demo/src/server.ts:52-59 | a single scan over the password accepts exactly the passwords of that rule |
| `TrpcServer.ParseView` | trpc-demo/src/server.ts:43 | the passwordless output parse returns the view unchanged exactly when its id is positive, its name has 2..50 characters and its email passes the check, and otherwise fails with an internal server error |
| `TrpcServer.GetUsers` | trpc-demo/src/server.ts:32-34 | one view per stored user, in the same order, with id, name and email copied and the password dropped |
| `TrpcServer.GetUserById` | trpc-demo/src/server.ts:37-44 | a non-positive id fails the input schema. A positive id fails with NOT_FOUND exactly when no user has it. A success is the first user with that id, without the password |
| `TrpcServer.CreateUser` | trpc-demo/src/server.ts:47-66 | the input schema is `NewUserOk`. It succeeds exactly when the name has 2..50 characters, the email passes the email check and the password meets the strength rule. It then appends the user numbered count + 1 with the input's name, email and password, and answers the passwordless view. Otherwise it answers BAD_REQUEST and the array is unchanged |
| `TrpcServer.Login` | trpc-demo/src/server.ts:69-86 | input that fails its schema (`CredentialsOk`: the email passes the email check and the password has 8..100 characters) is BAD_REQUEST. Otherwise it fails with UNAUTHORIZED exactly when no user has both the email and the password. A success is the first such user, without the password |
| `TrpcServer.LoginIffCredentialsMatch` | trpc-demo/src/server.ts:76-85 | on any array the server can reach, login succeeds exactly when some stored user has an equal email and an equal password |
| `TrpcServer.GetCurrentUser` | trpc-demo/src/server.ts:89-102 | a context without a user is UNAUTHORIZED. A valid context user is returned as is |
| `TrpcServer.ApplyPatch` | trpc-demo/src/server.ts:118 | the spread merge takes the input's id, keeps the stored password, and replaces the name and the email only when supplied |
| `TrpcServer.UpdateUser` | trpc-demo/src/server.ts:105-120 | input that fails its schema (`UserPatchOk`: positive id, a supplied name of 2..50 characters, a supplied email passing the email check) is BAD_REQUEST. Otherwise it fails with NOT_FOUND exactly when no user has the id, and then the array is unchanged. Any other valid patch writes the first user with the id, even if the answer then fails its output schema. That user's supplied name and email replace the old ones; its id, its password, the array's length and all other users stay as they were. The answer is that user's new view, parsed by the output schema |
| `TrpcServer.UpdateUserByPosition` | trpc-demo/src/server.ts:105-120 | on any reachable array, a valid patch succeeds exactly for 1 <= id <= count. It rewrites the user at position id - 1 and answers that user's new view |
| `TrpcServer.InitialStoreInvariant` | trpc-demo/src/server.ts:6-9 | the seeded Alice and Bob records satisfy the user schema and are numbered 1 and 2 by position |
| `TrpcServer.GetUserByIdByPosition` | trpc-demo/src/server.ts:37-44 | on any reachable array, getUserById(k) succeeds exactly for 1 <= k <= count and returns the user at position k - 1 |
| `TrpcServer.Call` | trpc-demo/src/server.ts:30-121 | routing of a procedure call. Only createUser and updateUser change the array |
| `TrpcServer.CallPreservesInvariant` | trpc-demo/src/server.ts:30-121 | with a valid context user, every procedure keeps the array invariant, and none answers an internal error |
| `TrpcServer.RunPreservesInvariant` | trpc-demo/src/server.ts:30-121 | every array reached by any sequence of calls from a valid array is still valid and numbered by position |
| `LambdaHandlers.CreateUserHandler` | typesafe-lambda-api/src/handlers/users.ts:6-38 | the answer is 201 exactly when the body exists with a non-empty name and email. Then the body is the user with the generated id and the input's name and email. Otherwise (an absent body included) it is 400 "Name and email are required" with no id. Both branches carry the same CORS headers |
| `LambdaHandlers.FreshIdOnlyInCreatedBody` | typesafe-lambda-api/src/handlers/users.ts:22-30 | two calls differing only in the generated id agree on status and headers and are identical on a 400. On a 201 their bodies differ only in the id |
| `LambdaHandlers.HelloHandler` | typesafe-lambda-api/src/handlers/hello.ts:5-22 | always 200 with the fixed CORS headers. The message is "Hello, World!" without a non-empty name, and "Hello, " + name + "!" otherwise |
| `LambdaHandlers.HelloGreetsName` | typesafe-lambda-api/src/handlers/hello.ts:7-9 | the greeting reads back: the text between "Hello, " and the final "!" is the name, or "World" |
| `JsArray.NewArray` | typescript-basics-with-api/demo.ts:118 | `Array(len)` gives `len` holes exactly when `len` is at most 2^32 - 1, and otherwise a RangeError |
| `JsArray.Join` | typescript-basics-with-api/demo.ts:118 | `join` of no elements is empty, and of one element is that element's rendering, a hole rendering as "" |
| `JsArray.JoinSnoc` | typescript-basics-with-api/demo.ts:118 | appending one element to a non-empty array appends one separator and that element's rendering to the join |
| `JsArray.JoinHoles` | typescript-basics-with-api/demo.ts:118 | `Array(n + 1).join(" ")` is exactly n spaces |
| `JsArray.JoinSplit` | typescript-basics-with-api/demo.ts:118 | joining two non-empty arrays end to end is their joins with one separator between them |
| `Demo.Identity` | typescript-basics-with-api/demo.ts:103-105 | returns its argument unchanged |
| `Demo.PadLeft` | typescript-basics-with-api/demo.ts:116-124 | a numeric padding n gives n spaces followed by the value, and fails with a RangeError exactly when n + 1 exceeds 2^32 - 1. A string padding is put in front of the value |
| `Demo.PadLeftShape` | typescript-basics-with-api/demo.ts:116-122 | a successful result ends with the value and is longer by n or by the padding string's length |
| `Demo.PadLeftCountIsSpaces` | typescript-basics-with-api/demo.ts:117-118 | every character before the value is a space, and a count of 0 returns the value unchanged |
| `Demo.NumberRegexpTest` | typescript-basics-with-api/demo.ts:272 | `/^[0-9]+$/` matches exactly the non-empty strings of ASCII digits |
| `Demo.IsAcceptableZipCode` | typescript-basics-with-api/demo.ts:274-277 | a zip code is accepted exactly when it has five characters, all ASCII digits |

## Left out

- Transport is not modelled. HTTP servers, routing middleware, `listen`, console output and JSON encoding are outside the model. Request bodies arrive already decoded, and response bodies are datatypes rather than JSON text.
- Todo request bodies carry only the three todo keys, with their declared types and integral ids only. A fractional id such as 1.5 would be stored by the spread, and no parsed path id could match it afterwards; that is not modelled. Extra keys that the spread would copy into the stored todo are not modelled, nor are values of the wrong type. `parseInt` of the path is modelled only by its outcome, a number or NaN.
- Reminder and Lambda `users` bodies are modelled only as objects whose fields are strings or absent. A JSON `null` body is not modelled; the source's destructuring and `body.name` read would throw a TypeError on it. Non-string field values are not modelled either: in the source a truthy number or boolean passes the required-field test and is stored or returned as is.
- `JsValues.NumberToString`: writes every non-negative integer in positional decimal. JavaScript switches to exponent notation at 10^21, which a millisecond clock does not reach. Negative clock readings are excluded.
- `next-test/src/app/api/reminders/[id]/route.ts` is not part of this model. It holds its own separate array, and its single-reminder GET, PUT and DELETE are not modelled. The reminder types in `next-test/src/app/types/reminder.ts` appear as the `Reminder` and `NewReminder` datatypes.
- The schema library's email-format rule is a parameter. Its error reports are reduced to the code BAD_REQUEST. Schema numbers are modelled as integers, so a fractional id is not modelled. String lengths are counted in Unicode scalar values rather than UTF-16 code units, which differ only outside the Basic Multilingual Plane.
- The tRPC `createContext` that always supplies Alice is wiring. The context user is an input. The HTTP client and the OpenAPI, standalone and Lambda adapters are not modelled.
- Malformed JSON in the Lambda `users` body is not modelled; in the source `JSON.parse` would throw. The UUID format is not modelled, since the generator's value is a parameter.
- `padLeft` paddings are natural numbers. A negative or fractional count, which makes `Array` throw or yields floats, is not modelled. The final `throw` for a padding that is neither string nor number cannot arise under the `Padding` type.
- `Demo.PadLeft`: the RangeError for n + 1 > 2^32 - 1 is modelled, but the JavaScript engine's own maximum string length is not. A real engine throws inside `join` for counts far below 2^32, while the model returns the padded string.
- The rest of `demo.ts` (classes, decorators, `makeDate`, timers and promises) and `zod.ts` are demonstrations of language or library features with no logic of their own.
- Interleaving of requests is not modelled. The reminders route and the Lambda handlers are `async`, while the Express handlers and tRPC resolvers are synchronous. In every case the read and write of an array happen with no suspension between them.
