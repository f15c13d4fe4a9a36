# GamerVerse backend: cart, news and user-listing controllers in Dafny

This project models the three Express controllers of the GamerVerse backend
and proves what each one promises about the tables behind it:

- **Cart** (`cart.dfy`): the controller mounted at `/api/carrito`. It works
  on a cart table of `(user, game, quantity)` lines over a read-only game
  catalog. Its four handlers list a user's cart with a subtotal, upsert a
  line, remove a line, and clear the user's cart. `CartStore` is a class
  whose `lines` field is the cart table; `Add`, `Remove` and `Clear` are
  methods that change it step by step, in the handlers' order of checks.
  The item views, the subtotal `reduce`, and the store primitives
  (`Find`, `Upserted`, `Deleted`, `WithoutUser`) are pure functions.
- **News** (`news.dfy`): the controller mounted at `/noticias`. Two public
  reads (`ListNews`, `GetNews`) are functions of the table. Three writes
  sit behind the `authenticateAdmin` guard (`IsAdmin`).
  `NewsBoard.Create`, `Update` and `Delete` are methods on the table the
  router holds. `nextId` is the NoticiaID auto-increment counter.
- **User listing** (`users.dfy`): the controller mounted at `/listausers`.
  It is a pure function from the caller's role and the user table to a
  reply.
- **Shared pieces**: `common.dfy` holds `Option`, the statuses, the reply
  type `Outcome`, and the role `'ADMIN'` of the stub identity that
  `src/index.ts` attaches to every request (src/index.ts:23). The stub's
  id only has to be present, so the handlers take the user id as
  `Option<int>`. `jsvalues.dfy` holds
  JavaScript's `parseInt` on path segments and the truthiness of optional
  body strings.

Tables are sequences of rows in one fixed order, so that the list
responses are definite lists. The store itself promises no order: no
`findMany` has an `orderBy`. The order is therefore a choice of the
model, not a property of the program (see "## Left out"). The
composite-unique key `(UsuarioID, JuegoID)` of the cart and the unique
`NoticiaID` of the news table are invariants (`UniqueKeys`, `UniqueIds`)
that every write preserves. `Quantity` and `Lookup` are the key-level views
used to state frame properties ("every other key is unchanged").

Prices are integer cents. `None` in `Game.price` stands for a stored price
that `parseFloat` turns into `NaN`; the subtotal counts it as 0
(`PriceOrZero`). A request's missing user id, missing role, missing body
field or non-number `cantidad` is an `Option` argument set to `None`.

Two behaviours of the code are easy to miss, and the model keeps both as
written:
- The listing guard compares the role with lower-case `'admin'`
  (src/controllers/ListadoUserController.ts:17), while the news guard and
  the stub identity use `'ADMIN'` (src/controllers/NoticiaController.ts:14,
  src/index.ts:23). So the listing refuses the stub identity with 403
  (`UserListing.StubRoleIsRefused`), although an administrator is meant to
  be able to list users.
- The add handler overwrites the quantity of an existing line. It does not
  add to it (`Cart.UpsertOverwrites`).

## Model

| member | source | states |
|---|---|---|
| `Cart.CartStore.List` | src/controllers/CarritoController.ts:12-50 | 401 without a user id; otherwise 200 with exactly the caller's item views and a subtotal equal to the caller's cart total over the table |
| `Cart.SubtotalIsCartTotal` | src/controllers/CarritoController.ts:37-45 | the `reduce` over the item views equals the sum of price × quantity over the caller's lines of the table, an unparsable price counting 0; a user with no lines gets no items and subtotal 0 |
| `Cart.ItemsMatchCart` | src/controllers/CarritoController.ts:108-121 | an item with id g and quantity q is in the caller's returned list if and only if the table holds quantity q for (caller, g) |
| `Cart.ItemsFromLines` | src/controllers/CarritoController.ts:170-180 | every returned item is the join of one line of the caller with its catalog game: id and quantity from the line, name, price and image from the game (no other user's line is listed) |
| `Cart.CartStore.Add` | src/controllers/CarritoController.ts:61-126 | checks in order 401 (no user), 400 (no game id, non-number or < 1 quantity), 404 (game not in catalog), each leaving the table unchanged; otherwise the table becomes the upsert of (user, game, quantity), the invariant is kept, and the reply is 200 with the caller's post-change cart |
| `Cart.UpsertedQuantity` | src/controllers/CarritoController.ts:84-106 | after an upsert (user, game) holds the submitted quantity, keys stay unique so there is exactly one such line, and every other key keeps its quantity |
| `Cart.UpsertOverwrites` | src/controllers/CarritoController.ts:93-97 | adding a game a second time leaves the second quantity, not the sum |
| `Cart.UpsertedWellFormed` | src/controllers/CarritoController.ts:93-106 | upserting a catalog game with quantity ≥ 1 keeps unique keys, linked games and positive quantities |
| `Cart.UpsertedTotal` | src/controllers/CarritoController.ts:93-106 | an upsert changes the caller's total from old quantity × price to new quantity × price and leaves every other user's total unchanged |
| `Cart.CartStore.Remove` | src/controllers/CarritoController.ts:137-185 | 401 (no user), then 400 (id that `parseInt` rejects), then 404 (no line for (user, game)), each with no change; otherwise the table loses exactly that line and the reply is 200 with the caller's post-change cart |
| `Cart.DeletedQuantity` | src/controllers/CarritoController.ts:152-168 | deleting the found line removes exactly its key, keeps keys unique and leaves every other key's quantity unchanged |
| `Cart.DeletedWellFormed` | src/controllers/CarritoController.ts:166-168 | deleting a line keeps the table invariant |
| `Cart.DeletedTotal` | src/controllers/CarritoController.ts:166-168 | deleting a line takes its price × quantity off its owner's total and leaves every other user's total unchanged |
| `Cart.CartStore.Clear` | src/controllers/CarritoController.ts:196-209 | 401 with no change without a user id; otherwise always 200, including on an empty cart, and the table becomes the table without the caller's lines |
| `Cart.WithoutUser` | src/controllers/CarritoController.ts:206-208 | a line survives `deleteMany` if and only if it was in the table and belongs to another user |
| `Cart.WithoutUserQuantity` | src/controllers/CarritoController.ts:206-208 | after a clear the caller has no key left and every other user's keys keep their quantities |
| `Cart.WithoutUserItems` | src/controllers/CarritoController.ts:206-209 | after a clear the caller's cart lists nothing and every other user's cart lists exactly what it did before |
| `Cart.WithoutUserIdempotent` | src/controllers/CarritoController.ts:206-209 | clearing a cart twice gives the same table as clearing it once |
| `Cart.WithoutUserWellFormed` | src/controllers/CarritoController.ts:206-208 | clearing a user's lines keeps the table invariant |
| `Cart.Find` | src/controllers/CarritoController.ts:84-91 | the composite-key lookup returns a position holding (user, game), or none when no line has that key |
| `Cart.QuantityAt` | src/controllers/CarritoController.ts:152-159 | with unique keys, the lookup by a line's key finds that very line |
| `JsValues.ParseIntOfIntToString` | src/controllers/CarritoController.ts:140 | `parseInt` of a path segment spelling an integer, followed by any non-digit text, yields that integer |
| `JsValues.ParseIntRejectsNonNumeric` | src/controllers/NoticiaController.ts:41-45 | a segment that starts with neither white space, a sign nor a digit parses as `NaN` |
| `JsValues.OrNull` | src/controllers/NoticiaController.ts:84 | an empty `imagen` is never stored, and a truthy one is stored as given |
| `JsValues.OrNullIdempotent` | src/controllers/NoticiaController.ts:84 | what `imagen \|\| null` stores is null or truthy, so applying `\|\| null` to it again changes nothing |
| `News.IsAdmin` | src/controllers/NoticiaController.ts:12-19 | the guard passes if and only if the role is present and exactly "ADMIN" |
| `News.StubRoleIsAdmin` | src/index.ts:22-25 | the stub identity's role passes the news guard |
| `News.ListNews` | src/controllers/NoticiaController.ts:22-32 | the list has one entry per row, in the modelled table order, each the row's `{NoticiaID, Titulo, Texto, Imagen}` |
| `News.ListIncludesEveryRow` | src/controllers/NoticiaController.ts:24-31 | the list does not filter on `Activo`: every row's projection is listed |
| `News.GetNews` | src/controllers/NoticiaController.ts:40-63 | 400 for an id `parseInt` rejects; for a parsed id, 404 exactly when no row has it and 200 exactly when some row has it, with the projection of a row with that id |
| `News.GetFindsRow` | src/controllers/NoticiaController.ts:41-63 | with unique ids, any segment that `parseInt` reads as a row's id (leading zeros, white space, `+`, trailing text) gets 200 with that row's projection |
| `News.GetByDecimalId` | src/controllers/NoticiaController.ts:41-63 | with unique ids, the decimal spelling of a row's id gets 200 with that row's projection |
| `News.FindNews` | src/controllers/NoticiaController.ts:48-56 | the lookup by NoticiaID returns a position holding that id, or none exactly when no row has it |
| `News.LookupAt` | src/controllers/NoticiaController.ts:111-113 | with unique ids, the lookup by a row's id finds that very row |
| `News.NewsBoard.Create` | src/controllers/NoticiaController.ts:71-88 | 403 (guard) before 400 (falsy title or text, including ""), each with no change; otherwise one row is appended with a fresh id, the given title and text, the image or null when it is falsy, and `Activo = 1`, and the reply is 201 with that row |
| `News.AppendedLookup` | src/controllers/NoticiaController.ts:80-87 | appending a row with a fresh id keeps ids unique, makes that id find the new row, and leaves every other id's row unchanged |
| `News.NewsBoard.Update` | src/controllers/NoticiaController.ts:96-129 | 403, then 400 (bad id), then 400 (falsy title or text), then 404 (no row), each with no change; otherwise only that row's title, text and image are overwritten and the reply is 200 with the updated row |
| `News.OverwrittenLookup` | src/controllers/NoticiaController.ts:120-127 | an update gives the id a row with the new title, text and image and the same id and `Activo`; every other id's row is unchanged |
| `News.NewsBoard.Delete` | src/controllers/NoticiaController.ts:137-159 | 403, then 400 (bad id), then 404 (no row), each with no change; otherwise 200 and the table loses exactly that row |
| `News.RemovedLookup` | src/controllers/NoticiaController.ts:155-157 | deleting the found row removes exactly its id, keeps ids unique and leaves every other id's row unchanged |
| `UserListing.MayList` | src/controllers/ListadoUserController.ts:15-19 | the guard passes if and only if the role is present and exactly the lower-case "admin" |
| `UserListing.ListUsers` | src/controllers/ListadoUserController.ts:13-33 | 403 if and only if the role is not exactly "admin"; otherwise 200 with one `{UsuarioID, Nombre, Correo, Alias, Foto}` entry per user, unfiltered and in the modelled table order |
| `UserListing.ProjectAll` | src/controllers/ListadoUserController.ts:23-31 | the five-column projection keeps every user, position by position |
| `UserListing.RefusalIgnoresUsers` | src/controllers/ListadoUserController.ts:17-23 | a refused caller gets the same 403 whatever the user table holds, because the role is checked before any user data is read |
| `UserListing.StubRoleIsRefused` | src/controllers/ListadoUserController.ts:17-19 | the stub role "ADMIN" (src/index.ts:23) differs in case from "admin", so the listing always refuses the stub identity |

## Left out

- The 500 branches (`catch`, `console.error`): the in-memory store never fails, so no operation models a store failure.
- The Prisma client lifecycle (`new PrismaClient()` per request, `$disconnect()` in `finally`): resource handling of a foreign library. The tables are in-memory values.
- Floating point: `parseFloat(Precio)` and `toFixed(2)` are not modelled. Prices are integer cents, so the two-decimal rounding of the subtotal is exact and the subtotal is an integer sum.
- Concurrency: interleaved requests and the race between two adds for the same (user, game) are not modelled. Each handler runs to completion on its own.
- Express plumbing: routing, `next()`, JSON serialisation and the Spanish message texts. A reply is a status plus a payload.
- Row order: the store promises no order for `findMany` without `orderBy`, and an update may move a row. The model fixes one order: a create appends (`News.NewsBoard.Create`, `Cart.Upserted`), an update keeps the row's position (`Cart.Upserted`, `News.Overwritten`), and a delete keeps the order of the others (`Cart.Deleted`, `News.Removed`). The "in order" parts of `News.ListNews`, `UserListing.ProjectAll` and `UserListing.ListUsers` are about that chosen order; the key-level lemmas (`Quantity`, `Lookup`) do not depend on it.
- src/index.ts: bootstrap, environment, CORS, static files and `listen`. Only its stub identity is used, as an input to the guards.
- JsValues.ParseInt: models decimal `parseInt` only (space, tab, CR and LF skipped, optional sign, digit prefix). It does not model the `0x` hexadecimal prefix, other Unicode white space, or the precision loss of very long digit strings.
- Cart.CartStore.Add: a `juegoId` that is present but not an integer (a string, `null`) makes the store throw, giving a 500; the model takes the game id as an integer or absent. A non-integer numeric `cantidad` (passed by the code) is not modelled; quantities are integers.
- News.NewsBoard.Create, News.NewsBoard.Update: a truthy `Titulo`, `Texto` or `imagen` that is not a string makes the store throw, giving a 500; the model takes body fields as strings or absent.
- News.ListNews, News.GetNews: the reads are functions of the table value (`NewsBoard.rows`), not methods of `NewsBoard`, since they change nothing.
- UserListing.User: the user table's columns other than the five selected are abstracted as one field, `other`.
