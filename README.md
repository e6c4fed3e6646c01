# Estante Infinita backend: the ownership-gated mutation protocol in Dafny

Estante Infinita is a second-hand book marketplace. Its backend is an Express
and Prisma service with users, listings (`anuncio`), ratings (`avaliacao`) and
comments (`comentario`). This project models the request handlers that read
and change those four tables:

- the bearer-token gate in front of the private routes;
- the guard chains that answer 401, 400, 404 or 403 before any write;
- the single-row writes that follow those guards;
- the transactional account deletion.

It then proves what each handler promises about its answer and about the
tables.

Layout, one module per file:

- `wrappers.dfy` (`Wrappers`): `Option` and `Result`.
- `http.dfy` (`Http`): JSON body fields (missing, `null` or a string), JavaScript truthiness, Prisma's reading of `undefined`/`null`/value in an update (`Patch`), guard verdicts (`Gate`) and replies (`Reply`).
- `numeric_id.dfy` (`NumericId`): `parseInt(s, 10)` and the `parseNumericId` helper built on it, `Number(s)` on integer literals (`ToNumber`), and the round trips and agreement between the two.
- `auth_middleware.dfy` (`AuthMiddleware`): `split(' ')`, extraction of the bearer token, and the middleware as a module-level method that takes the request object.
- `store.dfy` (`Store`): the row types, the `Database` class with its four tables and autoincrement counters, and its invariant `Valid()`. `Valid()` says primary keys match row ids, ids stay below their counters, emails are unique and each (user, listing) rating pair is unique. The module also holds `findMany` with a filter (`SelectRows`) and `deleteMany` (`Without`).
- `guards.dfy` (`Guards`): the guard chains shared by the rating, comment and account handlers. These cover the caller checks, the create checks and the numeric ownership check over an integer-keyed table. The table, the owner field and the messages are parameters.
- `anuncio_controller.dfy`, `avaliacao_controller.dfy`, `comentario_controller.dfy`, `user_controller.dfy`, `auth_controller.dfy`: one module per controller.

Each handler is a module-level method that takes the `Database` as a parameter. Its pure guard chain is a function whose
`ensures` determine every outcome. Most outcomes are stated as an if-and-only-if. `Guards.CreateGate` is the exception: its required-field message is a parameter, so it states its rejections one way. The method's `ensures`
states the reply and the whole new content of every table it may change, and
its `modifies` clause names only those tables.

Password hashing and comparison (bcrypt) and token signing and verification
(JWT) are function parameters. So are the store-generated listing key and the
current time. The signing secret `process.env.JWT_SECRET` is an
`Option<string>` parameter.

Some behaviour of the code worth knowing before reading the contracts:

- A second rating of the same listing by the same user answers 409 (the unique index's P2002). The handler does not upsert. See `AvaliacaoController.CreateAvaliacao`.
- `deleteAnuncio` deletes only the listing row. The model has no foreign-key actions. The account deletion removes the user's own ratings, comments and listings. Ratings and comments that other users left on those listings stay.
- The listing handlers read the caller from the route parameters (`req.params.userId`, and `req.params.userID` in `deleteAnuncio`). They compare it as a string with the listing's `ownerId`. They do not use the id the token gate attaches. The route table in `src/routes/anuncio.routes.ts` declares only `:id`. The model takes the parameters as the handlers read them.

## Model

| member | source | states |
|---|---|---|
| NumericId.ParseInt | src/helpers/number.ts:6-7 | `parseInt(s, 10)`: NaN exactly when, after leading white space and one optional sign, no decimal digit follows; otherwise the signed value of the longest leading digit run |
| NumericId.ParseNumericId | src/helpers/number.ts:1-11 | a missing id fails with "ID não fornecido"; it fails with "ID inválido" exactly when `parseInt` is NaN; any success is the `parseInt` value |
| NumericId.DigitPrefixParses | src/helpers/number.ts:6-10 | a digit run followed by a non-digit parses to the run's value; trailing text is ignored |
| NumericId.TwelveAbc | src/helpers/number.ts:6-10 | `parseNumericId("12abc")` is 12 |
| NumericId.ParseIntRoundTrip | src/helpers/number.ts:6-10 | for every integer n, `parseInt` and `parseNumericId` of n's plain decimal rendering give back n. This is `String(n)` for n of absolute value below 2^53 |
| NumericId.ToNumber | src/controllers/avaliacaoController.ts:14 | `Number(s)` as every rating, comment and account guard uses it. Blank text reads as 0, not NaN. A negative value comes only from text whose first non-blank character is `-` |
| NumericId.ToNumberRoundTrip | src/controllers/avaliacaoController.ts:14 | for every integer n, `Number` of n's plain decimal rendering is n |
| NumericId.NumberAgreesWithParseInt | src/controllers/avaliacaoController.ts:14-15 | wherever `Number` reads an integer from text that is not blank, `parseInt` reads the same integer |
| AuthMiddleware.Split | src/middlewares/authMiddleware.ts:15 | `split(' ')` gives at least one piece, no piece contains the separator, and joining the pieces with it rebuilds the string |
| AuthMiddleware.ExtractToken | src/middlewares/authMiddleware.ts:9-19 | a missing header, or one not starting with "Bearer ", gives the "malformatado" 401. Otherwise the token is the text after "Bearer " up to the next space; when that is empty the answer is the "Token não fornecido." 401 |
| AuthMiddleware.TokenIsSecondField | src/middlewares/authMiddleware.ts:15-19 | an extracted token is exactly `header.split(' ')[1]`, which is non-empty and has no space |
| AuthMiddleware.EmptyTokenExamples | src/middlewares/authMiddleware.ts:11-19 | "Bearer " and "Bearer  x" carry no token; "bearer x" is malformed |
| AuthMiddleware.Authenticate | src/middlewares/authMiddleware.ts:8-33 | passes iff a token is extracted, the secret is set and verification succeeds. On pass it sets `req.userId` to the decoded id and calls `next` once. Any rejection is a 401 with the matching message and leaves the request untouched |
| Http.Nullable | src/controllers/avaliacaoController.ts:27 | `x ?? null` for a body field: a string is stored as itself, `null` and a missing field as null |
| Http.Patch | src/controllers/avaliacaoController.ts:63-65 | an `undefined` field leaves the column unchanged, otherwise the column takes the field's stored value |
| Http.PatchIdempotent | src/controllers/avaliacaoController.ts:63-67 | applying the same field twice equals applying it once |
| Store.ListingOf | src/controllers/userController.ts:87 | the `usuarioId` filter of the listing `deleteMany`, read as `Number(ownerId)`. A listing whose owner id is the decimal rendering of a user id belongs to that user |
| Store.Public | src/controllers/userController.ts:30-36 | the password-free projection keeps id, nome, email and both timestamps of the row |
| Store.OneRowPerPair | src/controllers/avaliacaoController.ts:35-39 | under the unique index, a taken (user, listing) pair is held by exactly one row |
| Store.Without | src/controllers/userController.ts:85-87 | `deleteMany`: a row stays iff it was there and the filter does not select it, and a row that stays is unchanged |
| Store.SelectRows | src/controllers/avaliacaoController.ts:105 | `findMany` with a filter: each stored row the filter selects appears exactly once, and nothing else appears |
| Store.Database.FindUserByEmail | src/controllers/authController.ts:16 | `findUnique({ where: { email } })`: none iff no user has the email, otherwise the stored row with it |
| Guards.CallerGate | src/controllers/userController.ts:11-19 | 401 without a caller, then 400 for a caller id that is not a number; passes iff the caller id is a number |
| Guards.CreateGate | src/controllers/avaliacaoController.ts:11-21 | the guards of a rating or comment create: the caller guards first, then 400 for a missing required field or `anuncioId`, then 400 for a non-numeric `anuncioId`; passes iff none applies |
| Guards.OwnerGate | src/controllers/avaliacaoController.ts:48-61 | the guards of a rating or comment update or delete: 401; 400 for a non-numeric row id before the lookup; 404; 403 unless `Number(caller)` equals the row's owner. Each outcome is an iff |
| Guards.NonNumericCallerNeverOwns | src/controllers/avaliacaoController.ts:51-61 | a caller id that `Number` reads as NaN never passes the ownership check |
| Guards.NotFoundForEveryCaller | src/controllers/comentarioController.ts:51-53 | a missing rating or comment answers 404 to every caller: the lookup comes before the ownership test |
| AnuncioController.NewAnuncio | src/controllers/anuncioController.ts:63-73 | the inserted row has the body's fields, the caller as `ownerId` and the generated key |
| AnuncioController.ApplyPatch | src/controllers/anuncioController.ts:106-109 | the update keeps `id` and `ownerId`; every field present in the body takes its stored value (`null` clears it), and every field missing from the body keeps its value |
| AnuncioController.ApplyPatchIdempotent | src/controllers/anuncioController.ts:106-109 | sending the same update twice leaves the row as sending it once |
| AnuncioController.EmptyPatchIsIdentity | src/controllers/anuncioController.ts:106-109 | an update body naming no field leaves the row unchanged |
| AnuncioController.OwnerGate | src/controllers/anuncioController.ts:85-104 | the fixed order 400 (no listing id), 401 (no caller), 404, 403 (owner differs), each outcome as an iff |
| AnuncioController.GuardsBeforeLookup | src/controllers/anuncioController.ts:85-91 | the 400 and 401 answers do not depend on the table |
| AnuncioController.NotFoundForEveryCaller | src/controllers/anuncioController.ts:96-100 | a missing listing answers the same to every caller: 404 is decided before ownership |
| AnuncioController.GetAllAnuncios | src/controllers/anuncioController.ts:11-20 | 200 with every stored listing exactly once |
| AnuncioController.GetAnuncioById | src/controllers/anuncioController.ts:26-47 | 400 without an id, before any lookup; 404 for a missing row; else 200 with that row |
| AnuncioController.CreateAnuncio | src/controllers/anuncioController.ts:53-74 | without a caller, 401 and no insert. Otherwise 201 with one new row under the fresh key, owned by the caller; the other listings are unchanged |
| AnuncioController.UpdateAnuncio | src/controllers/anuncioController.ts:81-111 | a rejected request leaves the table unchanged. The owner's request patches only the target row. No update changes the key set or any listing's owner |
| AnuncioController.DeleteAnuncio | src/controllers/anuncioController.ts:118-146 | a rejected request changes nothing. The owner's request removes exactly the target row and returns it with the success message |
| AvaliacaoController.ApplyPatch | src/controllers/avaliacaoController.ts:63-67 | only `avaliacao` and `comentario` can change, each only when present in the body; id, user and listing are kept |
| AvaliacaoController.CreateAvaliacao | src/controllers/avaliacaoController.ts:10-39 | a rejected guard means no insert. A taken pair answers 409 and leaves the table unchanged. Otherwise one new row with the next id, the caller, the listing and `comentario ?? null`. The unique-pair invariant is preserved |
| AvaliacaoController.UpdateAvaliacao | src/controllers/avaliacaoController.ts:47-68 | a rejected request leaves the table unchanged; the owner's request writes the patched target row and nothing else |
| AvaliacaoController.DeleteAvaliacao | src/controllers/avaliacaoController.ts:76-91 | a rejected request leaves the table unchanged; the owner's request removes exactly the target row and returns it |
| AvaliacaoController.ListByAnuncio | src/controllers/avaliacaoController.ts:99-106 | 400 for a non-numeric listing id; otherwise every rating of that listing exactly once, and no other |
| ComentarioController.UpdateGate | src/controllers/comentarioController.ts:40-53 | the owner gate with a 400 for a missing `texto` after the id check and before the lookup: that answer comes exactly when a caller and a numeric id are given and `texto` is absent. Passing requires `texto` and ownership |
| ComentarioController.TextoCheckedBeforeLookup | src/controllers/comentarioController.ts:48-52 | the answer to an update without `texto` does not depend on the table |
| ComentarioController.SortNewestFirst | src/controllers/comentarioController.ts:100-102 | `orderBy: { criadoEm: 'desc' }`: the result is a permutation of the input and is ordered by creation time, newest first |
| ComentarioController.CreateComentario | src/controllers/comentarioController.ts:9-30 | a rejected guard means no insert. Otherwise one new row with the next id, the caller's numeric id, the numeric listing id and the text |
| ComentarioController.UpdateComentario | src/controllers/comentarioController.ts:38-56 | a rejected request leaves the table unchanged; on success only `texto` of the target row changes |
| ComentarioController.DeleteComentario | src/controllers/comentarioController.ts:63-78 | a non-owner or a missing row leaves the table unchanged; the owner removes exactly the target row |
| ComentarioController.ListByAnuncio | src/controllers/comentarioController.ts:85-105 | 400 for a non-numeric listing id; otherwise each comment of that listing exactly once, newest first |
| UserController.GetMe | src/controllers/userController.ts:8-38 | the guards, then 404 for a missing row, else 200 with the row's password-free projection |
| UserController.EditMe | src/controllers/userController.ts:44-67 | only the caller's `nome` is written: kept when the body omits it, cleared by null (the column is taken to be nullable). A missing row answers 500 with no change |
| UserController.RatingsWithout | src/controllers/userController.ts:85 | after the ratings step no rating of the user remains, and every other rating is kept unchanged |
| UserController.CommentsWithout | src/controllers/userController.ts:86 | after the comments step no comment of the user remains, and every other comment is kept unchanged |
| UserController.ListingsWithout | src/controllers/userController.ts:87 | after the listings step no listing of the user remains, and every other listing is kept unchanged |
| UserController.DeleteMe | src/controllers/userController.ts:70-97 | on success the user row and all of the user's ratings, comments and listings are gone, and every other row is kept. When the user row is missing, the answer is 500 and all four tables are as before |
| AuthController.Register | src/controllers/authController.ts:6-55 | 400 and no write without nome, email or senha; 409 and no write for a taken email. Otherwise one new row storing `hash(senha, 10)`, never the plaintext. The answer is 201 with the password-free user and a token signed over its id. A missing secret answers 500 with the row already inserted |
| AuthController.Login | src/controllers/authController.ts:58-99 | 400 without email or senha; an unknown email and a wrong password give the identical 401; a missing secret gives 500. On success, 200 with id, nome and email only, and a token signed over the id |
| AuthController.RegisterThenLogin | src/controllers/authController.ts:6-99 | a registration followed by a login with the same email and password reaches the same user |

## Left out

- Asynchrony, concurrent requests and isolation levels. Each handler is one sequential step, and the `deleteMe` transaction is one atomic method. The `P2025` answer of `deleteAnuncio` (a row deleted between the lookup and the delete) cannot occur in a sequential model, so that branch is not modelled.
- Store failures that do not come from the modelled state: lost connections, schema validation of enum and number fields, foreign-key checks, a unique-email race in `register`. These all answer 500. Foreign-key actions declared in the Prisma schema, which is not part of this model, are not modelled either.
- The `include` joins of `getAllAnuncios`, `getAnuncioById` and the comment listing (owner name and email, commenter name). The model returns the rows only.
- ComentarioController.UpdateComentario: the `texto` column is modelled as nullable, so `{"texto": null}` from the owner answers 200 and stores null. `createComentario` demands a truthy `texto`, which suggests a required column. Prisma would reject null in a required column, and the handler would answer 500 with no change.
- UserController.EditMe: the `nome` column is modelled as nullable, so `{"nome": null}` answers 200 and stores null. `register` demands a truthy `nome`, which suggests a required column. Prisma would reject null in a required column, and the handler would answer 500 with no change.
- Column defaults and `@updatedAt`. A new listing stores `publicado` as null. Ids and timestamps come from counters and a `now` parameter. `UserController.EditMe` does not refresh `atualizadoEm`.
- JSON body values other than strings and `null` (numbers, booleans, objects). A body field is missing, `null` or a string.
- NumericId.ToNumber: models `Number(s)` only on integer literals (trimmed blank text is 0, a signed digit run is its value, anything else is NaN). It leaves out decimals, exponents, hexadecimal, `Infinity`, precision loss beyond 2^53 and `-0`.
- NumericId.ParseNumericId: no controller calls it; it is modelled on its own.
- NumericId.ParseInt: the result is an unbounded integer. JavaScript rounds a digit run above 2^53 to the nearest double. `String(n)` switches to exponent form for |n| >= 1e21, and `parseInt` then stops at the `e` (`parseInt("1e+21", 10)` is 1). `IntToDecimal` is the plain decimal rendering, so `NumericId.ParseIntRoundTrip` and `NumericId.ToNumberRoundTrip` hold as JavaScript behaviour only for |n| < 2^53.
- Store.ListingOf: the code names the listing's owner column two ways. The listing handlers write and compare it as the string `ownerId` (`src/controllers/anuncioController.ts` lines 71, 102 and 137). `deleteMe` filters listings on `usuarioId` with a number (`src/controllers/userController.ts` line 87). No single schema accepts both, so one side would answer 500. The model assumes they are one owner column, and it reads that column through `Number` when comparing with a user id. So an `ownerId` of "05" or " 5" counts as user 5's listing, which a filter on an integer column would not see.
- UserController.ListingsWithout: filters on `Store.ListingOf`, so it inherits the owner-column assumption above. It does not model `deleteMe` failing with 500 where the listing table has no `usuarioId` column.
- The listing handlers are modelled on the fields they read and write: a string key `id`, a string `ownerId`, and `titulo`, `autor`, `descricao`, `tipo`, `condicao`, `preco` and `publicado`, all nullable. Ratings and comments store `anuncioId` as a number, which cannot match a string listing key; the model keeps the two key types apart and does not link them. The `include` selects `owner.name`, while the user row's field is `nome`. Because the joins are not modelled, that mismatch is not captured. Required `titulo`/`autor` columns would make a create without them answer 500, where the model answers 201.
- AuthMiddleware.Authenticate: `jwt.verify` is a parameter that yields the payload's id or fails. A valid token whose payload has no `id` (which sets `req.userId` to `undefined`) is not distinguished.
- bcrypt and JWT internals (parameters `hash`, `compare`, `sign`, `verify`), and token expiry: "8h" is passed to `sign` only.
- The `AnuncioController` router class, the route files, `index.ts`, `src/server.ts`, the Supabase upload and client, `prisma/seed.ts`, the Jest harness and the empty `livroController.ts`: wiring, network I/O and test scaffolding.
- Logging with `console.error`.
