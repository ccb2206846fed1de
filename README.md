# Burning Bush storefront and admin: a Dafny model

This project models the logic at the core of the Burning Bush storefront, a
Next.js site with an admin panel over a Prisma database. The model covers:

- **Authentication pipeline.** The credential check, the JWT token codec, the
  Bearer-header admin check, the per-route role gate, the page middleware and
  the login endpoint.
- **Slug.** The slug the admin create routes derive from a name.
- **List routes.** Their pagination arithmetic and filter construction.
- **Create and intake handlers.** Product, category and team-store creation,
  the contact form and the team-store inquiry form.
- **Shop.** The static product catalogue, the shop's category routing and
  counts, and the category sidebar.
- **Client-side state.** The featured-product carousel, the file manager's
  selection list and size label, and the admin team-store search box.

Each piece follows the source's form:

- **Decision chains are pure functions.** Every early return becomes an
  outcome of a datatype.
- **Database tables are classes.** Each holds a `seq` of rows. Its `Post`
  method appends exactly the row that a pure specification function computes
  from the old rows, or changes nothing.
- **Crypto libraries are parameters.** bcryptjs and jose are records of
  functions (`Crypto.Bcrypt`, `Crypto.Jose`). Their laws are predicates
  (`BcryptLaws`, `JoseLaws`) that the lemmas needing them require. bcrypt's
  law is stated over the 72 key bytes its key schedule reads, so passwords
  that agree on their first 72 UTF-8 bytes match the same hash.
- **Outside inputs are parameters.** Clocks, `process.env`, `Date.now()`,
  `confirm` and the success of `fetch` are all passed in.
- **Request bodies are JSON values with JavaScript truthiness.** A body that
  cannot be parsed is `None`. A field that is truthy but is not a string,
  where the code calls a string method on it or the store needs a string,
  is the 500 that the handler's `catch` returns.

## Model

| member | source | states |
|---|---|---|
| Common.Lower | app/api/admin/products/route.ts:98 | `toLowerCase` on ASCII: same length, each letter lowered in place |
| Common.LowerIdempotent | app/admin/team-stores/page.tsx:161-163 | lower-casing twice is lower-casing once |
| Common.Split | lib/auth.ts:125 | `split(' ')`: at least one part, and no part contains a space |
| Common.JoinSplit | app/api/contact/route.ts:34 | joining the parts of `split(' ')` with spaces gives back the string |
| Common.SplitHead | app/api/contact/route.ts:34-35 | with a space, the string is the first part, a space and the rest joined; without one, the split is the string alone |
| Common.Filled | lib/middleware/auth.ts:18-20 | a cookie or query parameter counts exactly when it is present and non-empty, and then reads as its value |
| Crypto.Utf8Char | lib/auth.ts:14-20 | the UTF-8 encoding of a code point: one to four bytes, zero only for NUL, the code itself below 0x80 |
| Crypto.Utf8 | lib/auth.ts:14-20 | the UTF-8 bytes bcryptjs hashes; no zero byte unless the text has a NUL |
| Crypto.BcryptKey | lib/auth.ts:14-20 | 72 key bytes; for a password of 72 or more UTF-8 bytes, exactly its first 72 |
| Crypto.ShortKeysDistinct | lib/auth.ts:14-20 | below 72 bytes and without NUL, two passwords have the same key iff they have the same bytes |
| Crypto.Utf8OfAscii | lib/auth.ts:14-20 | plain ASCII encodes as its character codes, one byte each |
| Crypto.ShortAsciiKeysDistinct | lib/auth.ts:14-20 | plain ASCII passwords under 72 characters have the same key iff they are equal |
| Http.ApplySetCookie | middleware.ts:21-26 | a positive `maxAge` stores the value; `maxAge: 0` removes the cookie and keeps every other one |
| Auth.Lookup | lib/auth.ts:62-73 | `findUnique` on the email or id column: a found account is in the store with that value; none is found iff no account has it |
| Auth.LookupUnique | lib/auth.ts:133-143 | on a unique column, the lookup by an account's value returns that account |
| Auth.AuthenticateUser | lib/auth.ts:60-95 | null when no active account has the email, whatever the password; a result always comes from an active account with that email |
| Auth.AuthenticateUserExact | lib/auth.ts:75-90 | for a stored account: accepted iff active and the password matches its hash, and then the result is exactly its id, email, username, name and role (no hash) |
| Auth.NewRecord | lib/auth.ts:97-115 | the stored row holds the bcrypt hash, not the password; role defaults to ADMIN; the other fields are copied |
| Auth.CreateThenAuthenticate | lib/auth.ts:97-115 | a freshly created account authenticates with its own password, and with exactly the attempts that share its bcrypt key |
| Auth.LongPasswordTailIgnored | lib/auth.ts:79-90 | an attempt agreeing with a password of 72 or more UTF-8 bytes on its first 72 bytes is accepted, whatever follows |
| Auth.ShortPasswordExact | lib/auth.ts:79-90 | for plain ASCII passwords under 72 characters, the created account authenticates with its password and with no other |
| Auth.AdminUserTable.CreateAdminUser | lib/auth.ts:97-115 | inserts exactly `NewRecord` iff email and id are unused (the store's unique constraints), otherwise changes nothing; emails and ids stay unique |
| Auth.SecretKey | lib/auth.ts:23 | `JWT_SECRET` when set and non-empty, otherwise the fallback secret |
| Auth.TokenPayload | lib/auth.ts:26-33 | claims are exactly id, email, username and role (no name), expiring 24 hours after issue |
| Auth.Claim | lib/auth.ts:47-51 | an absent claim reads as the empty string |
| Auth.IdentityOf | lib/auth.ts:46-52 | copies id, email, username and role; name is the name claim, else the username claim |
| Auth.VerifyToken | lib/auth.ts:39-58 | null whenever jose's verification fails |
| Auth.TokenRoundTrip | lib/auth.ts:22-58 | before expiry a generated token decodes to the same id, email, username and role, with name equal to the username |
| Auth.TokenExpires | lib/auth.ts:33 | from 24 hours after issue on, the token is refused |
| Auth.ForeignTokenRefused | lib/auth.ts:41-44 | a token signed under another secret is refused |
| Auth.VerifiedTokenWasSigned | lib/auth.ts:44 | a token that verifies was signed with the key, over an unexpired payload |
| Auth.BearerTokenRoundTrip | lib/auth.ts:121-125 | the token is the second space-separated field of "Bearer <token>" |
| Auth.VerifyAdmin | lib/auth.ts:117-160 | null without a header starting with "Bearer "; a result is always the stored record of an active account; a Bearer token that verifies and names an active stored account is accepted with that account's stored record |
| Auth.VerifyAdminAcceptsActiveAccount | lib/auth.ts:117-155 | an active account's unexpired token, sent as "Bearer <token>", is accepted and yields that account's identity |
| Auth.VerifyAdminRechecksStore | lib/auth.ts:132-147 | a deactivated account is refused even with a valid token |
| RoleGate.RequireRole | lib/middleware/auth.ts:14-46 | no cookie gives 401 "Authentication required" and a bad token 401 "Invalid token"; the handler runs iff the token verifies with an allowed role, sees the decoded user, and its response is returned unchanged |
| RoleGate.ForbiddenOnlyWhenAuthenticated | lib/middleware/auth.ts:18-41 | a 403 is only given to a request whose token is present and verifies |
| RoleGate.EmptyAllowListForbidsAll | lib/middleware/auth.ts:36-41 | with no allowed role, every valid token gets 403 |
| RoleGate.GateTrustsTokenAlone | lib/middleware/auth.ts:27-46 | a deactivated account's unexpired token still passes the gate (it does not re-check the store) |
| RoleGate.AsWrittenHandlerNeverRuns | app/api/admin/products/route.ts:6 | as exported, a route gives no response and never runs its handler |
| RoleGate.ExportedRoute | lib/middleware/auth.ts:14-16 | the intended export always responds, and runs the handler exactly when the gate admits the request |
| PageMiddleware.ClearCookie | middleware.ts:21-26 | the reset cookie is empty, httpOnly, lax, with `maxAge` 0 |
| PageMiddleware.MiddlewareWith | middleware.ts:4-49 | a protected path without a token redirects to login; a bad token redirects and clears the cookie; a non-admin role redirects without clearing; an admin passes; the login page redirects to "/admin" only for a verified admin; any other path passes |
| PageMiddleware.OutsideAdminPasses | middleware.ts:8 | a path not under "/admin" always passes |
| PageMiddleware.NeverRedirectsToSelf | middleware.ts:13-43 | no redirect points at the requested path |
| PageMiddleware.InvalidTokenClearedOnce | middleware.ts:17-28 | after a rejected token the browser holds no session cookie, so the next request is a plain redirect |
| LoginRoute.SessionCookie | app/api/auth/login/route.ts:38-43 | the cookie `auth-token` is httpOnly and lax, and lives 86400 seconds, the token's lifetime |
| LoginRoute.AuthenticateJson | app/api/auth/login/route.ts:15 | non-string credentials never authenticate; strings go to `authenticateUser` |
| LoginRoute.Post | app/api/auth/login/route.ts:4-53 | 500 for an unreadable body, 400 for a missing or empty field, 401 when authentication fails; success iff it succeeds, with the stored identity and a fresh session cookie |
| LoginRoute.PostAsWritten | app/api/auth/login/route.ts:2-24 | as written, every request ends in an error response |
| LoginRoute.AsWrittenLoginNeverSucceeds | app/api/auth/login/route.ts:2-24 | as written, correct credentials of an active account get a 500 |
| LoginRoute.LoginSucceedsForActiveAccount | app/api/auth/login/route.ts:15-45 | with the token function fixed, an active account's correct password signs in with exactly its identity |
| LoginRoute.LoginThenGatePasses | app/api/auth/login/route.ts:38-43 | the cookie the login sets gets the user through `requireRole` for an allowed role until the token expires |
| LoginRoute.LoginCookieUnseenByMiddleware | middleware.ts:9 | the page middleware does not see the login's cookie and redirects a freshly signed-in admin to login |
| LoginRoute.SessionMiddlewareAdmitsAfterLogin | middleware.ts:8-35 | reading `auth-token`, the middleware admits a freshly signed-in admin to every protected page |
| Slug.DropNonAlnum | app/api/admin/products/route.ts:99 | removes exactly the leading run of characters outside `[a-z0-9]` |
| Slug.CollapseRuns | app/api/admin/products/route.ts:99 | output has only slug characters and no double hyphen; it starts with `-` iff the input starts outside `[a-z0-9]`; it is empty iff the input is |
| Slug.TrimStart | app/api/admin/products/route.ts:100 | removes exactly the leading hyphens |
| Slug.TrimEnd | app/api/admin/products/route.ts:100 | removes exactly the trailing hyphens |
| Slug.SliceShape | app/api/admin/products/route.ts:99-100 | a substring of a string of slug characters with no double hyphen is one too |
| Slug.SlugifyIsSlug | app/api/admin/products/route.ts:97-100 | every slug has only `a-z`, `0-9` and `-`, no leading or trailing `-`, and no `--` |
| Slug.DropNonAlnumKeepsAlnums | app/api/admin/products/route.ts:99 | dropping a run outside `[a-z0-9]` keeps every letter and digit |
| Slug.CollapseKeepsAlnums | app/api/admin/products/route.ts:99 | collapsing runs keeps the letters and digits in order |
| Slug.TrimStartKeepsAlnums | app/api/admin/products/route.ts:100 | trimming the front drops only hyphens |
| Slug.TrimEndKeepsAlnums | app/api/admin/products/route.ts:100 | trimming the back drops only hyphens |
| Slug.TrimKeepsAlnums | app/api/admin/products/route.ts:100 | trimming drops only hyphens |
| Slug.SlugifyKeepsAlnums | app/api/admin/categories/route.ts:39-42 | the slug without its hyphens is exactly the lower-cased name's letters and digits, in order |
| Slug.SlugifyEmpty | app/api/admin/categories/route.ts:39-42 | a name without an ASCII letter or digit has the empty slug |
| Slug.AllHyphens | app/api/admin/categories/route.ts:39-42 | a string whose hyphen-free part is empty is all hyphens |
| Slug.CollapseStableTail | app/api/admin/products/route.ts:99 | the tail of a string the run replacement leaves alone is left alone too |
| Slug.CollapseFixpoint | app/api/admin/products/route.ts:99 | slug characters without `--` and without a trailing `-` are unchanged by the run replacement |
| Slug.LowerOfSlug | app/api/admin/products/route.ts:98 | lower-casing leaves slug characters alone |
| Slug.SlugFixpoint | app/api/admin/products/route.ts:97-100 | a slug is its own slug |
| Slug.SlugifyIdempotent | app/api/admin/products/route.ts:97-100 | slugging twice is slugging once |
| Numbers.TrimLeadingWhite | app/api/admin/products/route.ts:9 | removes exactly the leading white space that `parseInt` skips |
| Numbers.DigitValue | app/api/admin/products/route.ts:9 | decimal digits have their values; no character exceeds 36 |
| Numbers.DigitPrefixLength | app/api/admin/products/route.ts:9 | the longest prefix of digits of the radix |
| Numbers.ParseUnsigned | app/api/admin/products/route.ts:9 | NaN exactly when no digit follows (hexadecimal after `0x`) |
| Numbers.ParseInt | app/api/admin/products/route.ts:9-10 | NaN iff the digits are missing; a leading `-` negates |
| Numbers.NatToDecimal | app/admin/files/page.tsx:155 | decimal digits without leading zeros |
| Numbers.DecimalValue | app/admin/files/page.tsx:155 | the digits of a rendering denote the number |
| Numbers.AllDigitsPrefix | app/api/admin/products/route.ts:9 | a string of digits is its own digit prefix |
| Numbers.DecimalDigitsReadBack | app/api/admin/products/route.ts:9 | the unsigned reading of a decimal rendering is the number |
| Numbers.ParseDecimal | app/api/admin/products/route.ts:9-10 | `parseInt` reads back every rendered non-negative integer |
| Numbers.CeilDiv | app/api/admin/products/route.ts:56 | the least integer at or above the quotient, for either sign of the divisor |
| Pagination.Param | app/api/admin/products/route.ts:9-10 | a missing or empty parameter gives the fallback, otherwise its value |
| Pagination.ParamsDefaultAndParse | app/api/admin/products/route.ts:9-10 | page defaults to 1 and limit to 10; a decimal parameter reads as its number |
| Pagination.DefaultsParse | app/api/admin/products/route.ts:9-10 | the defaults "1" and "10" read as 1 and 10 |
| Pagination.PageRequestOf | app/api/admin/products/route.ts:9-14 | the request's page, limit and `skip = (page - 1) * limit` |
| Pagination.FirstPageByDefault | app/api/admin/products/route.ts:9-14 | without parameters, page 1 of 10 rows at offset 0 |
| Pagination.Skip | app/api/admin/products/route.ts:14 | NaN in gives NaN out; page 1 gives offset 0 |
| Pagination.SkipIsPageOffset | app/api/admin/products/route.ts:14 | for page ≥ 1 the offset is a non-negative multiple of the limit, one limit further per page |
| Pagination.TotalPages | app/api/admin/products/route.ts:56 | a page count exists exactly for a non-zero numeric limit |
| Pagination.TotalPagesIsLeast | app/api/admin/products/route.ts:56 | for a positive limit, the count covers every row, has no empty last page, and is 0 for no rows |
| Pagination.Window | app/api/admin/products/route.ts:27-30 | the rows a `skip`/`take` query returns, at most `take` of them |
| Pagination.WindowExtends | app/api/admin/products/route.ts:27-30 | the rows before an offset, followed by its window, are a longer prefix |
| Pagination.FirstPagesPrefix | app/api/admin/products/route.ts:14 | the first `k` pages are the first `k * limit` rows |
| Pagination.PagesCoverAll | app/api/admin/products/route.ts:14-56 | pages 1 to `totalPages` together return every row once, in order |
| Pagination.RowOnPage | app/api/admin/products/route.ts:14-56 | every row is on a page between 1 and `totalPages` |
| ProductsRoute.ListWhere | app/api/admin/products/route.ts:16-24 | the category filter exists iff a category is given; the search filter iff a search is given |
| ProductsRoute.PlainListRequest | app/api/admin/products/route.ts:9-24 | a request without parameters filters nothing and asks for page 1 of 10 |
| ProductsRoute.Details | app/api/admin/products/route.ts:74-116 | exactly the passed-through body fields, unchanged |
| ProductsRoute.CreateProduct | app/api/admin/products/route.ts:69-139 | 500 for an unreadable body; 400 for a falsy name, price or category; created iff all three are truthy and the name is a string; the row has the slug of the name and the caller's id as creator |
| ProductsRoute.ZeroPriceRefused | app/api/admin/products/route.ts:89-94 | a price of 0 is refused like a missing one |
| ProductsRoute.CreatedProductSlug | app/api/admin/products/route.ts:97-100 | a created product's slug is well formed and holds the name's letters and digits |
| ProductsRoute.ProductTable.Post | app/api/admin/products/route.ts:102-131 | appends exactly the created product; a failure changes nothing |
| CategoriesRoute.CreateCategory | app/api/admin/categories/route.ts:32-61 | created iff the name is a string; any other name is a 500; the row's slug is the name's slug |
| CategoriesRoute.MissingNameIsServerError | app/api/admin/categories/route.ts:36-39 | a missing name is a 500, not a 400 |
| CategoriesRoute.NameWithoutLettersGetsEmptySlug | app/api/admin/categories/route.ts:39-51 | a name without letters or digits is accepted with the empty slug |
| CategoriesRoute.CategoryTable.Post | app/api/admin/categories/route.ts:44-53 | appends exactly the created category; a failure changes nothing |
| TeamStoresRoute.ListWhere | app/api/admin/team-stores/route.ts:16-29 | the search filter exists iff a search is given, the status filter iff a status is given |
| TeamStoresRoute.Details | app/api/admin/team-stores/route.ts:79-124 | exactly the passed-through body fields, unchanged |
| TeamStoresRoute.SlugTaken | app/api/admin/team-stores/route.ts:102-104 | true iff a stored store has the slug |
| TeamStoresRoute.CreateTeamStore | app/api/admin/team-stores/route.ts:76-149 | 500 for an unreadable body; 400 for a missing name, slug or email; 400 "Slug already exists" for a taken slug; 500 when the creator is no stored account; created iff the name, slug and email are non-empty strings, the slug is free and the creator is a stored account; status defaults to PENDING and isActive to false |
| TeamStoresRoute.CreatorIsFixed | app/api/admin/team-stores/route.ts:127 | as written, the recorded creator is the constant `admin-user-id` whoever is signed in |
| TeamStoresRoute.AsWrittenCreateRefused | app/api/admin/team-stores/route.ts:114-136 | as written, no store is created unless an account has the id `admin-user-id`; an acceptable body then gets 500 |
| TeamStoresRoute.CreateAsCaller | app/api/admin/team-stores/route.ts:114-136 | with the caller as creator, a store is created iff the caller is a stored account and the body is acceptable, and the caller is recorded |
| TeamStoresRoute.CreateKeepsSlugsUnique | app/api/admin/team-stores/route.ts:102-128 | a created store keeps slugs unique |
| TeamStoresRoute.TeamStoreTable.Post | app/api/admin/team-stores/route.ts:101-140 | appends exactly the store `CreateAsCaller` creates, with the signed-in caller as creator (the corrected behaviour of the Findings row, not the literal `admin-user-id` of line 127), otherwise changes nothing; slugs stay unique |
| ContactRoute.SplitName | app/api/contact/route.ts:34-41 | the first name has no space; without a space the name is the first name and the last name is ""; otherwise first + " " + last is the name |
| ContactRoute.SplitNameAtFirstSpace | app/api/contact/route.ts:34-35 | the split is at the first space |
| ContactRoute.FindCustomer | app/api/contact/route.ts:28-30 | a found customer has the email; none is found iff no customer has it |
| ContactRoute.FindAfterAppend | app/api/contact/route.ts:28-45 | a created customer is found by its email afterwards |
| ContactRoute.FindUnique | app/api/contact/route.ts:28-30 | with unique emails, the lookup returns the customer with that email |
| ContactRoute.NewCustomer | app/api/contact/route.ts:37-44 | the new customer has the email, the phone and the split name |
| ContactRoute.Submit | app/api/contact/route.ts:5-77 | 500 for an unreadable body; 400 for a missing name, email or message, creating nothing; 500 when a required field is not a string; submitted iff name, email and message are non-empty strings; a customer is created iff name and email are text, the message is given and no customer has the email; an accepted submission creates one NEW, NORMAL inquiry linked to the found or created customer |
| ContactRoute.AsSeq | app/api/contact/route.ts:37 | the created customer as a list of at most one |
| ContactRoute.SubmitKeepsEmailsUnique | app/api/contact/route.ts:28-45 | customer emails stay unique |
| ContactRoute.ResubmitReusesCustomer | app/api/contact/route.ts:28-45 | a second submission with the same email creates no customer |
| ContactRoute.KnownEmailReusesCustomer | app/api/contact/route.ts:28-50 | a known email creates no customer, and the inquiry links to the existing one |
| ContactRoute.ContactStore.Post | app/api/contact/route.ts:27-61 | looks up, creates the customer if needed and inserts the inquiry: the response, the new customers and the new inquiries are exactly those `Submit` computes; emails stay unique |
| ContactRoute.ListWhere | app/api/contact/route.ts:90-93 | the status and priority filters exist iff the parameters are non-empty, and carry their values |
| TeamStoreInquiriesRoute.UploadUrl | app/api/team-store-inquiries/route.ts:27-39 | null iff no file was sent; otherwise it starts with the folder and ends with the stamp, "-" and the file name |
| TeamStoreInquiriesRoute.AfterDigits | app/api/team-store-inquiries/route.ts:33 | the text after the first hyphen following a run of digits |
| TeamStoreInquiriesRoute.UploadUrlRoundTrip | app/api/team-store-inquiries/route.ts:33-38 | the uploaded file's name can be read back from its URL |
| TeamStoreInquiriesRoute.TextOrNull | app/api/team-store-inquiries/route.ts:46-48 | null iff the field is absent or empty, otherwise the text |
| TeamStoreInquiriesRoute.Submit | app/api/team-store-inquiries/route.ts:4-76 | 500 for an unreadable form; 400 for a missing name, email, organization or description; an accepted inquiry is NEW and NORMAL and stores the text of every field sent, with empty optionals and absent files as null; a file where text is expected is 500 |
| TeamStoreInquiriesRoute.EmptyOptionalsAreNull | app/api/team-store-inquiries/route.ts:46-50 | an empty phone is stored as null, and a sent logo has a URL |
| TeamStoreInquiriesRoute.InquiryTable.Post | app/api/team-store-inquiries/route.ts:42-55 | appends exactly the accepted inquiry, whose every column Submit states (including the phone and website text); a failure changes nothing |
| TeamStoreInquiriesRoute.ListWhere | app/api/team-store-inquiries/route.ts:89-107 | the search, status and priority filters exist iff the parameters are non-empty, with their values |
| Catalog.GetProductsByCategory | lib/products.ts:170-172 | exactly the products of the category |
| Catalog.GetFeaturedProducts | lib/products.ts:174-176 | exactly the featured products |
| Catalog.FindById | lib/products.ts:178-180 | none iff no product has the id; otherwise the first one with it |
| Catalog.GetProductById | lib/products.ts:178-180 | the product with the id, or none |
| Catalog.GetAllProducts | lib/products.ts:182-184 | the table unchanged |
| Catalog.IdsRunOneToEleven | lib/products.ts:17-168 | the ids are 1 to 11 in table order |
| Catalog.EveryProductCategorised | lib/products.ts:17-168 | every product is a hat, a shirt or a gift |
| Catalog.HatsContents | lib/products.ts:170-172 | the hats are the first three products |
| Catalog.ShirtsContents | lib/products.ts:170-172 | the shirts are products four to seven |
| Catalog.GiftsContents | lib/products.ts:170-172 | the gifts are the last four products |
| Catalog.CategoriesPartition | lib/products.ts:17-172 | the three categories have 3, 4 and 4 products and together are the table |
| Catalog.QueriesKeepTableOrder | lib/products.ts:170-176 | both queries keep table order |
| Catalog.FeaturedOf | lib/products.ts:174-176 | a table with the catalogue's featured pattern has those five featured products |
| Catalog.FeaturedProducts | lib/products.ts:174-176 | the featured products are entries 1, 4, 5, 6 and 8 of the table |
| Catalog.FeaturedIds | lib/products.ts:174-176 | five featured products, with ids 1, 4, 5, 6 and 8 in order |
| Catalog.ProductByIdIsUnique | lib/products.ts:178-180 | ids 1 to 11 find the product with that id, and any other id finds none |
| ShopLayout.CategoryFromPath | components/shop/shop-layout.tsx:14-24 | the first category path the pathname contains picks the category; none contained gives null |
| ShopLayout.FilteredProducts | components/shop/shop-layout.tsx:26-29 | no (or an empty) selection shows the table, a category its products |
| ShopLayout.Counts | components/shop/shop-layout.tsx:31-36 | `all` counts the table and equals hats + shirts + gifts |
| ShopLayout.CountValues | components/shop/shop-layout.tsx:31-36 | the counts are 11, 3, 4 and 4 |
| ShopLayout.CategoryTitle | components/shop/shop-layout.tsx:38-49 | each category has its fixed title, anything else "All Products" |
| ShopLayout.CategoryPathsDistinct | components/shop/shop-layout.tsx:15-19 | no category path contains one checked before it |
| ShopLayout.PathRoundTrip | components/shop/shop-layout.tsx:15-23 | "/shop/" + c selects c for each category |
| ShopLayout.ShopPathSelectsNone | components/shop/shop-layout.tsx:21-22 | "/shop" selects no category |
| ShopLayout.ShopState.constructor | components/shop/shop-layout.tsx:10 | no category is selected at first |
| ShopLayout.ShopState.OnPathname | components/shop/shop-layout.tsx:14-24 | the selection becomes the category the pathname picks |
| ShopLayout.ShopState.OnCategoryChange | components/shop/shop-layout.tsx:10 | the selection becomes the given one |
| CategorySidebar.HandleCategoryClick | components/shop/category-sidebar.tsx:28-37 | first `onCategoryChange` with the id, then navigation to "/shop" for null or "/shop/" + id |
| CategorySidebar.CountFor | components/shop/category-sidebar.tsx:47-50 | `all` for null, the hats and shirts counts for those ids, and the gifts count for any other id |
| CategorySidebar.AllBadge | components/shop/category-sidebar.tsx:47 | the "All Products" badge counts the products shown for it |
| CategorySidebar.HatsBadge | components/shop/category-sidebar.tsx:48 | the hats badge counts the hats shown |
| CategorySidebar.ShirtsBadge | components/shop/category-sidebar.tsx:49 | the shirts badge counts the shirts shown |
| CategorySidebar.GiftsBadge | components/shop/category-sidebar.tsx:50 | the gifts badge counts the gifts shown |
| CategorySidebar.BadgeCountsShownProducts | components/shop/category-sidebar.tsx:45-50 | every entry's badge counts exactly what the grid shows once that entry is selected |
| CategorySidebar.ExactlyOneSelected | components/shop/category-sidebar.tsx:18-23 | for null or one of the three categories, exactly one entry is highlighted, and the title is its name |
| CategorySidebar.ClickAgreesWithPath | components/shop/category-sidebar.tsx:28-37 | the route a click navigates to selects the clicked id again |
| FeaturedCarousel.TotalPages | components/layout/featured-products.tsx:17 | the fewest pages of four that hold the products |
| FeaturedCarousel.SliderIffSeveralPages | components/layout/featured-products.tsx:17-18 | the slider shows iff there are at least two pages |
| FeaturedCarousel.NextIndex | components/layout/featured-products.tsx:20-22 | the next index is a page that exists |
| FeaturedCarousel.PrevIndex | components/layout/featured-products.tsx:24-26 | the previous index is a page that exists |
| FeaturedCarousel.NextIndexCases | components/layout/featured-products.tsx:20-22 | one page on, wrapping from the last page to the first |
| FeaturedCarousel.PrevIndexCases | components/layout/featured-products.tsx:24-26 | one page back, wrapping from the first page to the last |
| FeaturedCarousel.PrevUndoesNext | components/layout/featured-products.tsx:20-26 | back undoes forward and forward undoes back |
| FeaturedCarousel.NextTimesAdd | components/layout/featured-products.tsx:20-22 | a moves then b moves are a + b moves |
| FeaturedCarousel.NextTimesNoWrap | components/layout/featured-products.tsx:20-22 | before the last page, k moves go k pages on |
| FeaturedCarousel.LastPageWraps | components/layout/featured-products.tsx:20-22 | a move from the last page reaches the first |
| FeaturedCarousel.FullCycle | components/layout/featured-products.tsx:20-22 | `totalPages` moves return to the starting page |
| FeaturedCarousel.Slice | components/layout/featured-products.tsx:56-57 | `slice` with its bounds clamped to the length |
| FeaturedCarousel.Page | components/layout/featured-products.tsx:56 | a page holds at most four products |
| FeaturedCarousel.PagesArePrefix | components/layout/featured-products.tsx:56 | the first k pages are the first 4k products |
| FeaturedCarousel.PagesCoverAll | components/layout/featured-products.tsx:55-57 | the pages 0 to `totalPages - 1` together are the whole list, in order |
| FeaturedCarousel.CurrentProducts | components/layout/featured-products.tsx:55-57 | the current page with the slider; otherwise the whole (at most four) list |
| FeaturedCarousel.ReachablePageNonEmpty | components/layout/featured-products.tsx:55-57 | a page the carousel can be on is non-empty |
| FeaturedCarousel.FeaturedMakesTwoPages | components/layout/featured-products.tsx:12-18 | the five featured products make two pages, the second with one product |
| FeaturedCarousel.Carousel.constructor | components/layout/featured-products.tsx:12-13 | the featured products, on page 0 |
| FeaturedCarousel.Carousel.NextSlide | components/layout/featured-products.tsx:20-22 | the index moves one page on and stays valid |
| FeaturedCarousel.Carousel.PrevSlide | components/layout/featured-products.tsx:24-26 | the index moves one page back and stays valid |
| FeaturedCarousel.Carousel.HandleKeyPress | components/layout/featured-products.tsx:40-53 | without the slider, or for another key, nothing changes; the arrow keys move back and on |
| FeaturedCarousel.Carousel.Shown | components/layout/featured-products.tsx:55-57 | at most four products on screen |
| FileSelection.Toggle | app/admin/files/page.tsx:190-196 | flips whether the id is selected and leaves every other id as it was; an absent id is appended |
| FileSelection.ToggleTwiceRestores | app/admin/files/page.tsx:190-196 | toggling an absent id twice restores the exact list |
| FileSelection.FilterKeepsNoDuplicates | app/admin/files/page.tsx:193 | filtering keeps a list free of duplicates |
| FileSelection.ToggleKeepsNoDuplicates | app/admin/files/page.tsx:190-196 | toggling never creates a duplicate |
| FileSelection.BulkDeleteRequest | app/admin/files/page.tsx:128-139 | nothing is sent for an empty selection or a declined confirmation; otherwise the selection is sent |
| FileSelection.FormatFileSize | app/admin/files/page.tsx:154-158 | B below 1024, KB below 1024 * 1024, MB otherwise; bytes print exactly |
| FileSelection.ByteLabelReadsBack | app/admin/files/page.tsx:155 | the byte label reads back as the size |
| FileSelection.FilesPage.constructor | app/admin/files/page.tsx:43-49 | no files and no selection at first |
| FileSelection.FilesPage.ToggleFileSelection | app/admin/files/page.tsx:190-196 | the selection becomes its toggle |
| FileSelection.FilesPage.SelectAllFiles | app/admin/files/page.tsx:198-200 | the selection becomes the file ids in list order |
| FileSelection.FilesPage.DeselectAllFiles | app/admin/files/page.tsx:202-204 | the selection becomes empty |
| FileSelection.FilesPage.HandleBulkDelete | app/admin/files/page.tsx:128-152 | sends what `BulkDeleteRequest` says; a success clears the selection, anything else keeps it |
| TeamStoreSearch.FilteredTeamStores | app/admin/team-stores/page.tsx:160-164 | a store is kept iff its name, email or slug contains the term, ignoring case; order is kept |
| TeamStoreSearch.FilteredInquiries | app/admin/team-stores/page.tsx:166-170 | an inquiry is kept iff its name, email or organization contains the term, ignoring case; order is kept |
| TeamStoreSearch.EmptyTermKeepsAll | app/admin/team-stores/page.tsx:160-170 | an empty term keeps every store and inquiry |
| TeamStoreSearch.TermCaseIgnored | app/admin/team-stores/page.tsx:160-170 | terms differing only in case give the same lists |
| TeamStoreSearch.OwnSlugFindsStore | app/admin/team-stores/page.tsx:163 | searching for a store's slug, in any case, finds it |

## Left out

- Exceptions beyond the modelled ones are left out. Each handler's `catch` is modelled for an unreadable body, for a string method called on a value that is not a string, for the store refusing a value that is not a string in a required text field (the contact form's name, email and message; a team store's name, slug and email; the team-store inquiry form's name, email, organization, description, phone and website, where a file is sent in place of text), and for the store refusing a team store whose creator is no stored account. No other refusal of the store has an outcome: the type of any other column, unique constraints and other foreign keys. Failures of jose appear only as `None` results.
- ContactRoute.Submit: the store's refusals of the optional columns are not modelled, so a submission is stated to succeed for any body whose name, email and message are text; a non-string phone, for one, is a 500 in the code and a submission here.
- TeamStoresRoute.CreateTeamStore: the store's refusals of the other columns are not modelled, so a store is stated to be created for any acceptable body from a stored account; an `isActive` of "yes", or a status or description of the wrong type, is a 500 in the code and a creation here.
- ProductsRoute.CreateProduct: the store's refusals are not modelled, so a product is stated to be created whenever name, price and category are truthy and the name is a string; any refusal by the store (a column's type, a unique constraint, a category id naming no category) is a 500 in the code and a creation here.
- CategoriesRoute.CreateCategory: the store's refusals are not modelled, so a category is stated to be created whenever the name is a string; any refusal by the store (a column's type, a unique constraint) is a 500 in the code and a creation here.
- Crypto internals are left out. bcrypt's hashing and jose's signing and verification are parameters constrained by `BcryptLaws` and `JoseLaws`. The laws treat hash and MAC collisions as absent. The cost factor 12, the HS256 header and `TextEncoder` are not represented.
- Crypto.Utf8: strings are sequences of Unicode scalar values, so a JavaScript string holding a lone surrogate is not modelled.
- Auth.VerifyToken: a missing claim reads as "". JavaScript gives `undefined`, which the identity would then carry.
- Auth.AdminUserTable.CreateAdminUser: the database's unique constraints on email and id stand in for Prisma's create errors. Column defaults other than `isActive` are not modelled.
- Prisma queries are abstract. `include`, `orderBy`, counts and the case-insensitive `contains` that the list routes send to the database are left out. The list routes are modelled up to the `where` and the `skip`/`take` they build.
- Pagination.Window: the window is stated for non-negative `skip` and `take`. A negative or NaN page or limit reaches Prisma, whose answer is not modelled.
- Numbers.ParseInt: it reads decimal and `0x` hexadecimal digits after ASCII white space and a sign. Unicode white space and numbers beyond 2^53 are not modelled.
- Common.Lower: it lower-cases the ASCII letters only. `toLowerCase` also folds non-ASCII letters, so slugs and searches over non-ASCII names are modelled only for ASCII text.
- Date.now() and clocks are parameters: `now` for token time, and the stamps of the upload names.
- FileSelection.FormatFileSize: the KB and MB figures are real quotients. Their `toFixed(1)` text is left out, because it is floating-point formatting.
- Request bodies that are JSON but not objects are not modelled: a top-level array, number or string.
- Common.JsonValue has no array or object variant: a field holding an array or object is represented by a non-zero number, which every handler here treats the same way (truthy, not a string). Its contents are not modelled.
- The categories `GET` route is left out: it is a single ORM query. So are the analytics, CSV export, orders, customers, inquiries and projects routes, and their inline copies of the role gate.
- The user interface is left out: JSX rendering, the autoplay `setInterval`, `router.push` side effects, `alert`, `confirm` (its answer is a parameter), `fetch` and the reload after a bulk delete.
- Product fields used only for display are left out: image, description, features, materials, colors and sizes. So is the category description text of the shop layout.

## Findings

| source | as written | input that shows it | evidently intended | confidence | as-written member | corrected member |
|---|---|---|---|---|---|---|
| app/api/auth/login/route.ts:2 | the login route imports `createToken`, which lib/auth.ts does not export, so the call on line 24 throws after a successful authentication | an active account's correct email and password | sign the token with `generateToken` (lib/auth.ts:22) | not executed | LoginRoute.AsWrittenLoginNeverSucceeds | LoginRoute.LoginSucceedsForActiveAccount |
| app/api/admin/products/route.ts:6 | `requireRole(roles, handler)` passes the handler as a second argument to a curried function (lib/middleware/auth.ts:14-15), so the export is the function that expects a handler | any request to the route | `requireRole(roles)(handler)` | not executed | RoleGate.AsWrittenHandlerNeverRuns | RoleGate.ExportedRoute |
| app/api/admin/team-stores/route.ts:127 | the new store's creator is the literal id `admin-user-id`, but no code creates an account with that id: scripts/create-admin.js:21 and scripts/seed-database.js:31 let the store generate ids, and prisma/seed-team-stores.ts:31 uses the id of a stored admin | any acceptable `POST` from a signed-in admin; the store's `createdBy` relation refuses the insert and the catch answers 500 | record the signed-in caller, as app/api/admin/products/route.ts:116 does | not executed | TeamStoresRoute.AsWrittenCreateRefused | TeamStoresRoute.CreateAsCaller |
| middleware.ts:9 | the page middleware reads `admin-token`, but the login sets `auth-token` (app/api/auth/login/route.ts:38) | a request to "/admin" right after a successful login | read the cookie the login sets | not executed | LoginRoute.LoginCookieUnseenByMiddleware | LoginRoute.SessionMiddlewareAdmitsAfterLogin |
