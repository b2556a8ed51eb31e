# Product catalog service — a verified model of its core

This project models the core of a small product catalog: an in-memory product store, a product
service that memoizes searches by their criteria, an audit trail that attributes every entry to
the logged-in user, and a login session. It also models the SQL text that the database-backed
store builds for a search. The models are written in Dafny and come with their proofs:

- **Product store** (`ProductRepository.InMemoryProductRepository`): a map from id to product and
  an id counter. It assigns ids to new products and saves, finds, lists, deletes and searches
  products. A search applies the category, brand and price filters. Category and brand are
  compared ignoring case. A filter on a product field that is null fails the way Java's
  `NullPointerException` does.
- **Product service** (`Catalog.ProductService`): a facade over the store with a search cache
  keyed by `SearchCriteria`.
  - A cache miss writes a `CACHE_MISS` audit entry and asks the store.
  - Add, update and delete go through the store, then drop the cache. They write a
    `CACHE_INVALIDATED` entry only when the cache was not empty.
  - The invariant `Coherent` says that every cached list is what the store's search returns now.
    Every operation keeps it.
- **Audit and authentication** (`Services`): the audit service formats
  `[<timestamp>] User: [<name>] - Action: [<action>]`. The name is the logged-in user's, or
  `SYSTEM` when nobody is logged in or the authentication service is not wired yet. Login succeeds
  exactly when the stored password matches verbatim. Logout clears the session.
- **User and audit stores** (`UserRepository`, `AuditRepository`): users keyed by username, and
  an append-only list of audit lines.
- **Entities** (`ProductModel`, `UserModel`, `Criteria`): products and users are objects with
  setters. Each has a `Value()` record that equality is defined on. Product equality looks at
  every field. User equality ignores the password. Search criteria are an immutable value.
- **Search SQL** (`SearchQuery`): the fixed statements of the database-backed store. The search
  statement is built from the criteria, one `AND … ?` clause and one parameter per non-null
  criterion. Binding puts parameter `i` at position `i + 1`.
- **Start-up wiring** (`Wiring.Bootstrap`): it resolves the cycle between the audit and
  authentication services with a setter.

Java's `long` is the subset type `JavaLong.Long`. The id counter wraps around the way
`AtomicLong.incrementAndGet` does. Nullable strings are `Option<string>`. Hash-map iteration
order, which Java leaves unspecified, is modelled as ascending id.

## Model

| member | source | states |
|---|---|---|
| JavaLong.IncrementAndGet | src/main/java/repository/InMemoryProductRepository.java:41-43 | the next counter value is one more, except at the largest long, where it wraps to the smallest |
| Text.FoldCase | src/main/java/repository/InMemoryProductRepository.java:95-99 | case folding keeps the length and lower-cases each character on its own |
| Text.FoldCaseIdempotent | src/main/java/repository/InMemoryProductRepository.java:95-99 | folding twice is folding once |
| Text.EqualsIgnoreCase | src/main/java/repository/InMemoryProductRepository.java:96-99 | equalsIgnoreCase holds for equal strings, and only between strings of the same length |
| Text.EqualsIgnoreCaseLetterwise | src/main/java/repository/InMemoryProductRepository.java:96-99 | two strings are equal ignoring case exactly when they have the same length and agree letter by letter up to case |
| Text.NatToString | src/main/java/model/User.java:135 | the decimal text of a number is non-empty, all digits, and has no leading zero |
| Text.NatToStringValue | src/main/java/model/User.java:135 | the printed digits denote the number itself |
| Text.IntToString | src/main/java/model/User.java:135 | a long prints as digits, after a minus sign exactly when it is negative |
| Text.IntToStringValue | src/main/java/model/User.java:135 | the digits a long prints denote its magnitude, and a negative long prints a minus sign first |
| ProductModel.Product.constructor | src/main/java/model/Product.java:44-50 | a new product has id 0 and the given name, category, brand, price and stock |
| ProductModel.Product.Empty | src/main/java/model/Product.java:31-32 | the empty product has id 0, null strings, and zero price and stock |
| ProductModel.Product.SetId | src/main/java/model/Product.java:62-64 | the id changes and no other field does |
| ProductModel.Product.SetName | src/main/java/model/Product.java:76-78 | the name changes and no other field does |
| ProductModel.Product.SetCategory | src/main/java/model/Product.java:90-92 | the category changes and no other field does |
| ProductModel.Product.SetBrand | src/main/java/model/Product.java:104-106 | the brand changes and no other field does |
| ProductModel.Product.SetPrice | src/main/java/model/Product.java:118-120 | the price changes and no other field does |
| ProductModel.Product.SetStock | src/main/java/model/Product.java:132-134 | the stock changes and no other field does |
| ProductModel.Product.Equals | src/main/java/model/Product.java:143-151 | two products are equal exactly when all six fields are equal |
| ProductModel.EqualsIsEquivalence | src/main/java/model/Product.java:143-151 | product equality is reflexive, symmetric and transitive |
| ProductModel.EqualsSeesEveryField | src/main/java/model/Product.java:147-150 | products that differ in any one field are not equal |
| UserModel.RoleName | src/main/java/model/User.java:137 | a role prints as its constant's name: ADMIN exactly for the ADMIN role, USER otherwise |
| UserModel.UserToString | src/main/java/model/User.java:133-139 | the text opens with the id and the quoted username, closes with the role, and its length leaves nothing else in between |
| UserModel.ToStringIgnoresPassword | src/main/java/model/User.java:133-139 | changing the password never changes the printed text |
| UserModel.User.constructor | src/main/java/model/User.java:36-41 | a new user holds exactly the given id, username, password and role |
| UserModel.User.SetId | src/main/java/model/User.java:53-55 | the id changes and no other field does |
| UserModel.User.SetUsername | src/main/java/model/User.java:67-69 | the username changes and no other field does |
| UserModel.User.SetPasswordHash | src/main/java/model/User.java:81-83 | the password changes, no other field does, and the user's identity for equality stays the same |
| UserModel.User.SetRole | src/main/java/model/User.java:95-97 | the role changes and no other field does |
| UserModel.User.Equals | src/main/java/model/User.java:107-113 | two users are equal exactly when id, username and role are equal, whatever their passwords |
| UserModel.EqualsIgnoresPassword | src/main/java/model/User.java:107-113 | two user objects with the same id, username and role are equal, whatever their passwords |
| Criteria.EqualByComponents | src/main/java/service/dto/SearchCriteria.java:16-19 | two criteria are the same cache key exactly when all four components are pairwise equal |
| ProductRepository.SortedIds | src/main/java/repository/InMemoryProductRepository.java:25 | the traversal order lists each stored id exactly once, strictly increasing |
| ProductRepository.InIdOrder | src/main/java/repository/InMemoryProductRepository.java:67-69 | the traversal lists as many products as are stored, each stored product appears, and ids increase when every product is stored under its own id |
| ProductRepository.ListedByKeys | src/main/java/repository/InMemoryProductRepository.java:67-69 | listing the values under all keys, with the keys sorted, lists every stored value, in increasing id order |
| ProductRepository.Check | src/main/java/repository/InMemoryProductRepository.java:95-105 | the filter chain on one product fails exactly on a null field it has to compare, and otherwise answers whether the product matches |
| ProductRepository.SearchValues | src/main/java/repository/InMemoryProductRepository.java:93-108 | filtering fails exactly when some product throws; otherwise it keeps exactly the matching products, never more than it was given, and keeps increasing ids increasing |
| ProductRepository.SearchWithoutFiltersReturnsAll | src/main/java/repository/InMemoryProductRepository.java:95-105 | with every criterion null the filter keeps the whole list in order |
| ProductRepository.InMemoryProductRepository.constructor | src/main/java/repository/InMemoryProductRepository.java:25-31 | the store starts empty with the counter at 0 |
| ProductRepository.InMemoryProductRepository.Save | src/main/java/repository/InMemoryProductRepository.java:40-46 | id 0 takes the incremented counter and any other id is kept; the product is stored under its id, replacing the old entry, and the same object comes back; a fresh id is new while stored ids stay at or below the counter |
| ProductRepository.InMemoryProductRepository.FindById | src/main/java/repository/InMemoryProductRepository.java:55-57 | present exactly when the id is stored, and then the stored product |
| ProductRepository.InMemoryProductRepository.FindAll | src/main/java/repository/InMemoryProductRepository.java:67-69 | a list of exactly the stored products, as many as are stored |
| ProductRepository.InMemoryProductRepository.DeleteById | src/main/java/repository/InMemoryProductRepository.java:77-79 | the id is gone and every other entry and the counter are unchanged |
| ProductRepository.InMemoryProductRepository.Search | src/main/java/repository/InMemoryProductRepository.java:89-109 | fails exactly when a non-null category or brand filter meets a product whose field is null; otherwise returns exactly the stored products matching every non-null criterion, in ascending id order |
| ProductRepository.InMemoryProductRepository.SearchWithoutFilters | src/main/java/repository/InMemoryProductRepository.java:89-109 | a search with all criteria null returns what listing all products returns |
| UserRepository.InMemoryUserRepository.constructor | src/main/java/repository/InMemoryUserRepository.java:22-28 | the store starts empty with the counter at 0 |
| UserRepository.InMemoryUserRepository.FindByUsername | src/main/java/repository/InMemoryUserRepository.java:37-39 | present exactly when the name is stored, and then the user stored under it, whose username is that name |
| UserRepository.InMemoryUserRepository.Save | src/main/java/repository/InMemoryUserRepository.java:49-55 | id 0 takes the incremented counter and any other id is kept; the user is stored under the username, replacing an earlier user of that name, and other names are untouched; the same object comes back |
| AuditRepository.InMemoryAuditRepository.constructor | src/main/java/repository/InMemoryAuditRepository.java:18 | the trail starts empty |
| AuditRepository.InMemoryAuditRepository.Save | src/main/java/repository/InMemoryAuditRepository.java:27-29 | the entry is appended at the end and nothing before it changes |
| AuditRepository.InMemoryAuditRepository.FindAll | src/main/java/repository/InMemoryAuditRepository.java:38-40 | the whole trail in insertion order |
| Services.ActorName | src/main/java/service/AuditServiceImpl.java:65-72 | the logged-in user's name, or SYSTEM when nobody is logged in |
| Services.FormatEntry | src/main/java/service/AuditServiceImpl.java:75-76 | an entry is 24 characters longer than its timestamp, name and action together |
| Services.EntryLayout | src/main/java/service/AuditServiceImpl.java:74-76 | an entry opens with the timestamp and the name and closes with the action |
| Services.EntryDeterminesActor | src/main/java/service/AuditServiceImpl.java:74-76 | for the same timestamp and action, equal entries name the same user |
| Services.AuditService.constructor | src/main/java/service/AuditServiceImpl.java:41-43 | the audit service writes to the given trail and has no authentication service yet |
| Services.AuditService.SetAuthService | src/main/java/service/AuditServiceImpl.java:52-54 | the authentication service is the one given |
| Services.AuditService.CurrentActor | src/main/java/service/AuditServiceImpl.java:65-72 | SYSTEM without an authentication service or without a session, else the session user's name |
| Services.AuditService.LogAction | src/main/java/service/AuditServiceImpl.java:64-79 | exactly one entry is appended, attributed to the actor at the moment of the call |
| Services.AuditService.GetAuditHistory | src/main/java/service/AuditServiceImpl.java:87-89 | the whole trail, as the store returns it |
| Services.AuthService.constructor | src/main/java/service/AuthServiceImpl.java:40-43 | nobody is logged in at startup |
| Services.AuthService.Login | src/main/java/service/AuthServiceImpl.java:57-69 | succeeds exactly when the name is stored and the password matches verbatim; on success the session holds that user and returns it, on failure the session is unchanged |
| Services.AuthService.Logout | src/main/java/service/AuthServiceImpl.java:80-84 | the session ends up empty, and logging out with nobody logged in changes nothing |
| Services.AuthService.GetCurrentUser | src/main/java/service/AuthServiceImpl.java:94-96 | present exactly when somebody is logged in, and then that user |
| Services.AuthService.IsAdmin | src/main/java/service/AuthServiceImpl.java:106-108 | true exactly when somebody is logged in and has the ADMIN role |
| Services.LoginChangesAttribution | src/test/java/service/AuditServiceImplTest.java:38-67 | an entry before login goes to SYSTEM and an entry after a successful login carries the username |
| Catalog.ProductService.constructor | src/main/java/service/ProductServiceImpl.java:49-53 | the service starts with an empty cache, which is coherent with the store |
| Catalog.ProductService.InvalidateCache | src/main/java/service/ProductServiceImpl.java:145-150 | the cache ends empty; one CACHE_INVALIDATED entry is written only when it was not empty |
| Catalog.ProductService.AddProduct | src/main/java/service/ProductServiceImpl.java:64-68 | the product is saved as the store saves it, the cache ends empty and coherent, and the trail grows only by the invalidation entry |
| Catalog.ProductService.UpdateProduct | src/main/java/service/ProductServiceImpl.java:79-84 | the same as adding: the store decides by the id, the cache ends empty and coherent |
| Catalog.ProductService.DeleteProduct | src/main/java/service/ProductServiceImpl.java:95-99 | the id is removed from the store, the cache ends empty and coherent, and the counter is untouched |
| Catalog.ProductService.GetProductById | src/main/java/service/ProductServiceImpl.java:109-111 | the store's lookup, present exactly when the id is stored |
| Catalog.ProductService.GetAllProducts | src/main/java/service/ProductServiceImpl.java:118-120 | exactly the stored products, as many as are stored |
| Catalog.ProductService.SearchProducts | src/main/java/service/ProductServiceImpl.java:131-139 | the answer is always what the store's search gives now; a hit writes nothing and changes no state; a miss writes one CACHE_MISS entry and caches a successful answer only |
| Catalog.SearchTwice | src/test/java/service/ProductServiceImplTest.java:79-96 | starting from criteria not in the cache, two equal searches in a row return the same answer; when the first succeeds, the pair writes exactly one CACHE_MISS entry (a failing search caches nothing, so the second one misses again) |
| Catalog.SearchAddSearch | src/test/java/service/ProductServiceImplTest.java:98-114 | search, add, search writes CACHE_MISS, CACHE_INVALIDATED, CACHE_MISS in that order |
| Catalog.AddThenSearch | src/main/java/service/ProductServiceImpl.java:64-68 | a search after an add sees the added product whenever it matches: no stale list survives an add |
| SearchQuery.Filters | src/main/java/repository/JdbcProductRepository.java:241-256 | the search binds one parameter per non-null criterion |
| SearchQuery.Params | src/main/java/repository/JdbcProductRepository.java:243-255 | the parameters follow the filters one for one, in order |
| SearchQuery.FilterPerCriterion | src/main/java/repository/JdbcProductRepository.java:241-256 | a set criterion contributes its clause with its value as the parameter; a null one contributes no clause |
| SearchQuery.AddedPlaceholders | src/main/java/repository/JdbcProductRepository.java:241-256 | the clauses a search adds carry exactly one `?` per parameter it binds |
| SearchQuery.SearchSqlFraming | src/main/java/repository/JdbcProductRepository.java:236-239 | a search statement starts with the base select and ` WHERE 1=1` and ends with ` ORDER BY name`; with every criterion null it is exactly those and binds nothing |
| SearchQuery.BuildSearchQuery | src/main/java/repository/JdbcProductRepository.java:235-261 | the built text and parameters are the base select, ` WHERE 1=1`, the clauses of the set criteria in the order category, brand, minimum price, maximum price, and ` ORDER BY name`, with their values in the same order |
| SearchQuery.PreparedStatement.SetObject | src/main/java/repository/JdbcProductRepository.java:301 | the value is bound at the given position and every other slot keeps its value |
| SearchQuery.SetParameters | src/main/java/repository/JdbcProductRepository.java:299-303 | parameter `i` is bound at position `i + 1` for every `i`, and slots past the list keep their values |
| Wiring.Bootstrap | src/main/java/Main.java:56-61 | the audit and authentication services reference each other, nobody is logged in, entries go to SYSTEM, and the product service starts with an empty coherent cache |

## Left out

- Concurrency: the Java stores use concurrent maps, an atomic counter and a synchronized list. The model is sequential, and every operation is one atomic step.
- Aliasing of entity objects: the model hands out values where Java shares mutable objects, in three places. The in-memory stores keep a snapshot of the product or user at save time; Java keeps the object, so a later setter call changes the stored product too. The search cache returns its lists as values; Java hands out the same `List<Product>` and `Product` objects it keeps. `AuthServiceImpl.currentUser` is a snapshot of the user; Java holds the `User` object from the store. No caller in the core mutates these shared objects.
- Prices are Java `double` values. The model uses unbounded integers, so there is no rounding, NaN or negative zero, and `Double.compare` becomes integer equality.
- Stock is a Java `int` and is modelled without 32-bit wrap-around, because no operation computes with it.
- Case-insensitive comparison folds ASCII letters only. Java's `equalsIgnoreCase` also folds other alphabets, including the Cyrillic used in the catalog's data.
- Timestamps: `LocalDateTime.now()` and its formatting are a string parameter of `LogAction` and of the service methods that log.
- Hash-map iteration order: `findAll` and the search return products in ascending id order. Java's order is unspecified.
- The aspects are not part of this model. `AuditAspect` (AuditAspect.java) runs after an `@Audit` method returns normally. It writes `logAction` with the annotation's action and swallows any exception. `LoggingAspect` (LoggingAspect.java) times `@Loggable` methods with `System.currentTimeMillis()` and prints the time to standard output, writing nothing to the trail. The trail here therefore holds only the entries the services write themselves.
- The JDBC bodies of the database-backed store are not part of this model: connecting, executing, mapping rows, the `insert`/`update`/`findById`/`findAll`/`deleteById` calls, and JDBC's own range check in `setObject`. Neither are the database-backed user and audit stores, the repository factory, the console UI, the servlet, the mappers and DTOs, validation, Liquibase and configuration.
- SearchQuery: the placeholder counts of the fixed statements (FIND_BY_ID_SQL, DELETE_BY_ID_SQL, INSERT_SQL, UPDATE_SQL) are not proved. Only the search statement's clauses are counted.
- The repository interfaces declare a four-argument `search(category, brand, minPrice, maxPrice)`, and the in-memory store implements that signature. The database-backed store implements `search(SearchCriteria)`, and the product service calls `search` with a `SearchCriteria`. The model follows the call and gives the in-memory search a `SearchCriteria` with the same four filters.
- The no-argument `User` constructor, and null username, password or role, are not modelled. Users are always built with all four fields.
- `Product.hashCode`, `Product.toString` and `User.hashCode` are not modelled. `Equals` takes a non-null argument of the same class, so the `null` and different-class branches of Java's `equals` are not modelled.
- Store instances: the program never builds the in-memory stores. `Main` (Main.java:52-54) and the web listener take their stores from `RepositoryFactory`, which returns the database-backed stores (RepositoryFactory.java:18-34). The model runs the services over the in-memory stores instead. The Java in-memory stores keep their state in static fields, so two stores of the same class share it, while two model objects do not. The model therefore assumes one instance per store.
- `model/Role.java` is not part of this model. The two roles come from their uses, and a role prints as its constant's name.
- Exception classes are not modelled. The only failure modelled is a null field met by a search filter, which is a `Failure(NullPointer)` result. Null arguments are excluded by Dafny's non-null types, so the exceptions the Java code raises on them are not modelled: a null search criteria as a cache key, a null username in `login` or `findByUsername`, and a null product in `save`.
- The unit tests for adding, deleting and logging in expect audit calls (`ADD_PRODUCT:`, `DELETE_PRODUCT: id=42`, `LOGIN_SUCCESS`, `LOGOUT`) that the services no longer make. The model follows the services.
- Services.AuthService.Login: the login attempt's audit entry comes from the `@Audit` aspect, which is left out, so the model writes no entry for it.
