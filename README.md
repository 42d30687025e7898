# Core services of a microservices e-commerce shop, in Dafny

This project models the business logic of the shop's Spring services and proves properties of it:

- the cart service: one cart per user, with an ordered list of item lines;
- the wishlist service: one set of product ids per user;
- the order service: orders, plus a best-effort buyer notification;
- the product service: a catalogue with three optional search filters and image uploads;
- the user service: registration, login and lookup;
- the API gateway's route table and its CORS policy.

Each JPA repository is an in-memory store. It is a `map` from id to record, plus a counter that hands out the next id on the first save, the way an IDENTITY column does. The model lists `findAll()` in ascending id order, which is the order of first saves (the source fixes no order; see "## Left out"). In the cart and wishlist repositories `findByUserId`, and in the user repository `findByEmail`, return the record with that key; those services' `Valid()` invariants keep that record unique. The order repository's `findByUserId` returns every order of the user.

A service that changes records in place is a `class`. Its fields are the store and the counter, and its methods have `modifies this`. Pure logic is written as module-level functions with lemmas. This covers the cart line merge, the product filter chain, DTO mapping, the route table and the CORS check.

Module by module:

- `Wrappers`: `Option`, `Result` and `Outcome`.
- `JavaInt`: Java's 32-bit `int`, with wrap-around addition, and Java's `byte`.
- `Text`: `startsWith`, `contains`, lower-casing and decimal rendering of ids.
- `Seqs`: `stream().filter` and `stream().map` over lists, with their laws.
- `Repository`: the in-memory store.
- `Carts`, `Wishlists`, `Orders`, `Products`, `Users`: one module per service.
- `Gateway`: the route table and the CORS mapping.

Exceptions the services throw are modelled as `Err(message)` results, with the source's exact messages, and the state is left unchanged. The notifier, the password encoder, its `matches`, and the JWT generator are collaborators. They are passed to the model as function values, so the services' contracts hold for any such function. The scenario methods (`ServiceWithAnn`, `WrongPasswordAndDuplicate`, `CreateSurvivesFailingNotifier`) fix concrete ones, and `LoginAfterRegister` assumes only that `matches` accepts what `encode` makes.

## Model

| member | source | states |
|---|---|---|
| JavaInt.WrapAdd | cart-service/src/main/java/com/example/cartservice/service/CartService.java:45 | `int` addition: the exact sum when it fits in 32 bits, and in all cases equal to the sum modulo 2^32 |
| Text.StartsWith | api-gateway/src/main/java/com/example/apigateway/ApiGatewayApplication.java:27-28 | `startsWith`: when true, the prefix is no longer than the string and the string is the prefix followed by the rest |
| Text.DecimalString | order-service/src/main/java/com/example/orderservice/service/OrderService.java:82 | string concatenation of a `Long`: at least one character, a leading minus sign exactly for negative numbers, and decimal digits after it |
| Text.DigitsRoundTrip | order-service/src/main/java/com/example/orderservice/service/OrderService.java:82 | the decimal digits of a natural number read back as that number |
| Text.DecimalRoundTrip | order-service/src/main/java/com/example/orderservice/service/OrderService.java:82 | the decimal form of any `Long` reads back as that number |
| Text.DecimalStringInjective | order-service/src/main/java/com/example/orderservice/service/OrderService.java:82 | different numbers have different decimal forms |
| Text.Contains | product-service/src/main/java/com/example/productservice/service/ProductService.java:28 | `String.contains`: true exactly when the query occurs at some position of the string |
| Text.PrefixesOfOneString | api-gateway/src/main/java/com/example/apigateway/ApiGatewayApplication.java:27-28 | two prefixes of one string are prefixes of each other, one way or the other |
| Text.Lower | product-service/src/main/java/com/example/productservice/service/ProductService.java:28 | `toLowerCase` keeps the length and lower-cases each character on its own |
| Seqs.Keep | product-service/src/main/java/com/example/productservice/service/ProductService.java:27-29 | `stream().filter(...)` returns no more elements than it was given, and each one it returns was given and passes the filter |
| Seqs.KeepMembers | product-service/src/main/java/com/example/productservice/service/ProductService.java:27-29 | an element is in a filter's result exactly when it was in the input and passes the filter |
| Seqs.KeepIsSubseq | product-service/src/main/java/com/example/productservice/service/ProductService.java:24-38 | a filter's result is a subsequence of its input, in the same order |
| Seqs.KeepTwice | product-service/src/main/java/com/example/productservice/service/ProductService.java:26-37 | two filters in a row are one filter by their conjunction |
| Seqs.KeepAscending | order-service/src/main/java/com/example/orderservice/service/OrderService.java:20-22 | filtering a list with strictly ascending keys leaves the keys strictly ascending |
| Seqs.MapSeq | order-service/src/main/java/com/example/orderservice/service/OrderService.java:51 | `stream().map(f)` keeps the length and applies `f` at every position, so every output is `f` of some input |
| Repository.Listing | order-service/src/main/java/com/example/orderservice/service/OrderService.java:50-52 | `findAll()` holds no more records than there are ids below the counter, and only stored records |
| Repository.FindBy | cart-service/src/main/java/com/example/cartservice/service/CartService.java:32 | `findByUserId`/`findByEmail`: a found id is stored and has the key, no lower id has it, and nothing is found exactly when no stored record has the key |
| Repository.ListingMembers | user-service/src/main/java/com/example/userservice/service/UserService.java:71-73 | `findAll()` returns exactly the stored records |
| Repository.ListingAscending | user-service/src/main/java/com/example/userservice/service/UserService.java:71-73 | `findAll()` returns records in strictly ascending id order, which is the order of first saves |
| Repository.ListingOfEmpty | user-service/src/main/java/com/example/userservice/service/UserService.java:71-73 | an empty store lists nothing |
| Repository.ListingAfterInsert | order-service/src/main/java/com/example/orderservice/service/OrderService.java:35 | saving a new record puts it last in `findAll()` |
| Repository.UniqueAfterInsert | cart-service/src/main/java/com/example/cartservice/service/CartService.java:20-26 | saving a record whose key no stored record has keeps keys unique, and the key then finds that record |
| Repository.UniqueAfterUpdate | cart-service/src/main/java/com/example/cartservice/service/CartService.java:47 | saving a record back under its id with an unchanged key keeps keys unique and changes nothing any key finds |
| Carts.FirstLine | cart-service/src/main/java/com/example/cartservice/service/CartService.java:34-37 | `filter(...).findFirst()`: the found line has the product and no earlier line does; nothing is found exactly when no line has it |
| Carts.Merged | cart-service/src/main/java/com/example/cartservice/service/CartService.java:34-46 | after `addItem` the lines keep their products in order, at most one line is added, and some line holds the product |
| Carts.MergeIntoExistingLine | cart-service/src/main/java/com/example/cartservice/service/CartService.java:44-46 | when the product has a line, `addItem` adds the quantity to the first such line (wrapping like `int`), adds no line and changes no other line |
| Carts.MergeAppendsNewLine | cart-service/src/main/java/com/example/cartservice/service/CartService.java:38-43 | when the product has no line, `addItem` appends exactly one line with that product and quantity, after the unchanged old lines |
| Carts.MergeLinewise | cart-service/src/main/java/com/example/cartservice/service/CartService.java:34-46 | with at most one line per product, merging keeps that property, keeps the length exactly when the product was present, and changes only the product's line |
| Carts.WithoutProduct | cart-service/src/main/java/com/example/cartservice/service/CartService.java:68 | `removeIf` never adds a line, and every remaining line was there before and is for another product |
| Carts.RemoveDropsOnlyThatProduct | cart-service/src/main/java/com/example/cartservice/service/CartService.java:68 | `removeIf` keeps exactly the lines of other products, in their original order |
| Carts.RemoveAbsentIsNoOp | cart-service/src/main/java/com/example/cartservice/service/CartService.java:68 | removing a product that has no line leaves the lines unchanged |
| Carts.RemoveKeepsOneLinePerProduct | cart-service/src/main/java/com/example/cartservice/service/CartService.java:68 | removal keeps at most one line per product |
| Carts.SetQuantityKeepsOneLinePerProduct | cart-service/src/main/java/com/example/cartservice/service/CartService.java:59 | overwriting one line's quantity keeps at most one line per product |
| Carts.ToDto | cart-service/src/main/java/com/example/cartservice/service/CartService.java:80-92 | id and owner are copied, and each line's product and quantity are copied in order |
| Carts.CartService.GetCart | cart-service/src/main/java/com/example/cartservice/service/CartService.java:19-28 | an existing cart is returned with no save; otherwise exactly one empty cart for the user is saved under the next id |
| Carts.CartService.AddItem | cart-service/src/main/java/com/example/cartservice/service/CartService.java:30-49 | no cart is "Cart not found" and creates none; otherwise only the user's cart changes, its lines become the merged lines, and those are returned |
| Carts.CartService.UpdateItem | cart-service/src/main/java/com/example/cartservice/service/CartService.java:51-62 | no cart is "Cart not found"; no line for the product is "Item not found"; otherwise the first such line's quantity becomes exactly the given value |
| Carts.CartService.RemoveItem | cart-service/src/main/java/com/example/cartservice/service/CartService.java:64-71 | no cart is "Cart not found"; otherwise the cart keeps exactly its lines for other products |
| Carts.CartService.ClearCart | cart-service/src/main/java/com/example/cartservice/service/CartService.java:73-78 | no cart is "Cart not found"; otherwise the cart record keeps its id and owner and has no lines |
| Carts.FirstAddNeedsGetCart | cart-service/src/main/java/com/example/cartservice/service/CartService.java:19-49 | a new user's `addItem` fails, and after `getCart` the same call gives a cart with one line |
| Wishlists.ToDto | wishlist-service/src/main/java/com/example/wishlistservice/service/WishlistService.java:46-52 | id, owner and product set are copied unchanged |
| Wishlists.WishlistService.FindOrCreate | wishlist-service/src/main/java/com/example/wishlistservice/service/WishlistService.java:15-21 | an existing wishlist is found with no save; otherwise one empty wishlist for the user is saved under the next id |
| Wishlists.WishlistService.GetWishlist | wishlist-service/src/main/java/com/example/wishlistservice/service/WishlistService.java:14-23 | an existing wishlist is returned with no save; otherwise an empty one is created, saved and returned |
| Wishlists.WishlistService.AddProduct | wishlist-service/src/main/java/com/example/wishlistservice/service/WishlistService.java:25-36 | the user's set becomes the old set plus the product; with no wishlist, one holding just the product is created |
| Wishlists.WishlistService.RemoveProduct | wishlist-service/src/main/java/com/example/wishlistservice/service/WishlistService.java:38-44 | no wishlist is "Not found" with no save; otherwise the set loses exactly that product, and an absent product leaves the set unchanged |
| Wishlists.AddCreatesWishlist | wishlist-service/src/main/java/com/example/wishlistservice/service/WishlistService.java:25-36 | on an empty store, `addProduct` creates wishlist 1 holding the product |
| Wishlists.AddTwiceKeepsOne | wishlist-service/src/main/java/com/example/wishlistservice/model/Wishlist.java:21 | on an empty store, adding product 400 for user 3 twice returns the same wishlist {400} both times |
| Orders.ToDto | order-service/src/main/java/com/example/orderservice/service/OrderService.java:58-73 | id, owner, total and status are copied, and each line's product, quantity and price in order |
| Orders.NotificationText | order-service/src/main/java/com/example/orderservice/service/OrderService.java:82 | the notification text is "Your order #", then the decimal form of the order id, then " successfully created!" |
| Orders.NotificationTextNamesOrder | order-service/src/main/java/com/example/orderservice/service/OrderService.java:82 | the order id reads back from the composed text, so two orders never get the same text |
| Orders.BeforeFragment | order-service/src/main/java/com/example/orderservice/service/OrderService.java:79-82 | the part of a URL before its first '#': a prefix of it, holding no '#', and ending just before a '#' when shorter |
| Orders.BeforeFragmentAppend | order-service/src/main/java/com/example/orderservice/service/OrderService.java:79-82 | a leading part without '#' is kept whole, and the cut happens in the rest |
| Orders.ReceivedTextLosesId | order-service/src/main/java/com/example/orderservice/service/OrderService.java:79-82 | as written, the backend receives the text "Your order " for every order |
| Orders.ReceivedTextSameForAll | order-service/src/main/java/com/example/orderservice/service/OrderService.java:79-82 | as written, the received text is the same for every order id |
| Orders.OrdersByUserExact | order-service/src/main/java/com/example/orderservice/service/OrderService.java:20-22 | `getOrdersByUser` lists exactly the stored orders of that user, in ascending id order, and none for a user without orders |
| Orders.AttachItems | order-service/src/main/java/com/example/orderservice/service/OrderService.java:33-34 | each item, in order, now points at the new order, and is otherwise unchanged |
| Orders.OrderService.GetOrdersByUser | order-service/src/main/java/com/example/orderservice/service/OrderService.java:20-22 | every listed DTO is the DTO of a stored order of that user |
| Orders.OrderService.GetAllOrders | order-service/src/main/java/com/example/orderservice/service/OrderService.java:50-52 | every listed DTO is the DTO of a stored order |
| Orders.OrderService.GetAllOrdersExact | order-service/src/main/java/com/example/orderservice/service/OrderService.java:50-52 | `getAllOrders` holds the DTO of every stored order and nothing else, in strictly ascending id order, and nothing for an empty store |
| Orders.OrderService.GetOrder | order-service/src/main/java/com/example/orderservice/service/OrderService.java:24-26 | the stored order's DTO when the id is present, and "Not found" exactly when it is absent |
| Orders.OrderService.CreateOrder | order-service/src/main/java/com/example/orderservice/service/OrderService.java:28-42 | saves under the next id an order with the given user and total (not recomputed), status "NEW", and the items in order pointing at it; the notification, with the caller's email and the new id, is requested after the save; the saved order is returned whatever the notifier answers |
| Orders.OrderService.UpdateStatus | order-service/src/main/java/com/example/orderservice/service/OrderService.java:44-48 | the status is overwritten with any string and saved; an absent id is "Not found" with no write |
| Orders.OrderService.DeleteOrder | order-service/src/main/java/com/example/orderservice/service/OrderService.java:54-56 | deletes by id with no existence check; an absent id changes no order |
| Orders.CreateSurvivesFailingNotifier | order-service/src/main/java/com/example/orderservice/service/OrderService.java:36-41 | with a notifier that always fails, the order is still created, returned and stored |
| Products.Patched | product-service/src/main/java/com/example/productservice/service/ProductService.java:78-85 | each present argument replaces its field and each absent one keeps it; the id never changes |
| Products.PatchedNothing | product-service/src/main/java/com/example/productservice/service/ProductService.java:78-85 | a patch with every field absent, keeping category and images, leaves the product as it was |
| Products.PatchedTwice | product-service/src/main/java/com/example/productservice/service/ProductService.java:78-85 | two patches in a row equal one patch in which the later present values win and earlier ones survive where the later patch has none |
| Products.Filtered | product-service/src/main/java/com/example/productservice/service/ProductService.java:26-37 | the filter chain returns no more products than it was given, and each one returned was given and passes every requested filter |
| Products.FilteredIsConjunction | product-service/src/main/java/com/example/productservice/service/ProductService.java:26-37 | the three filters applied one after another equal one filter by "passes every requested filter" |
| Products.FilteredExact | product-service/src/main/java/com/example/productservice/service/ProductService.java:24-38 | a product is returned exactly when it was listed and passes the title filter (lower-cased containment, only for a non-empty title), the category filter (a category with that id; none fails) and the inclusive price filter; and the result is a subsequence of the listing |
| Products.FilteredKeepsOrder | product-service/src/main/java/com/example/productservice/service/ProductService.java:24-38 | the search keeps repository order |
| Products.NoFilterKeepsAll | product-service/src/main/java/com/example/productservice/service/ProductService.java:26-37 | with no title (absent or empty), no category and no price, every product is returned |
| Products.SearchExample | product-service/src/test/java/com/example/productservice/ProductServiceTest.java:32-57 | "Pen", category 1 and price 150 keep only "Blue Pen"; "Red Pencil" passes the title and category filters and is dropped by the price filter |
| Products.ImagesFromNonEmpty | product-service/src/main/java/com/example/productservice/service/ProductService.java:58-71 | the upload loop skips empty files and makes one image per non-empty file, in order |
| Products.ImagesFromHaveContent | product-service/src/main/java/com/example/productservice/service/ProductService.java:60-65 | every uploaded image has non-empty content |
| Products.AppendImages | product-service/src/main/java/com/example/productservice/service/ProductService.java:86-99 | the loop keeps the earlier images and appends one image per non-empty file, in order |
| Products.ToDto | product-service/src/main/java/com/example/productservice/service/ProductService.java:124-141 | scalar fields are copied; category id and name are set exactly when there is a category; image content is emitted only for images that have content, in order |
| Products.DtoImagesExact | product-service/src/main/java/com/example/productservice/service/ProductService.java:135-139 | a content appears in the DTO exactly when some stored image has it |
| Products.CategoryOr | product-service/src/main/java/com/example/productservice/service/ProductService.java:82 | `findById(id).orElse(null)`: the category when the id is known, and nothing otherwise |
| Products.ProductService.GetProducts | product-service/src/main/java/com/example/productservice/service/ProductService.java:24-39 | every returned DTO is the DTO of a stored product that passes every requested filter |
| Products.ProductService.GetProductsExact | product-service/src/main/java/com/example/productservice/service/ProductService.java:24-39 | `getProducts` maps exactly the stored products that pass every requested filter, in ascending id order |
| Products.ProductService.GetProduct | product-service/src/main/java/com/example/productservice/service/ProductService.java:41-44 | the stored product's DTO, and "Product not found" exactly when the id is absent |
| Products.ProductService.CreateProduct | product-service/src/main/java/com/example/productservice/service/ProductService.java:46-74 | an unknown category is "No such category: <id>" and saves nothing; otherwise a product with the given fields, not on sale, the category when one is given, and one image per non-empty file is saved under the next id |
| Products.ProductService.UpdateProduct | product-service/src/main/java/com/example/productservice/service/ProductService.java:76-102 | an unknown product is "Not found" with no change; each present argument replaces its field and each absent one keeps it; a given category id that is unknown clears the category; images from non-empty files are appended to the earlier ones |
| Products.UpdateNothingExample | product-service/src/main/java/com/example/productservice/service/ProductService.java:76-102 | an update with every argument absent returns the product as it was |
| Products.CreateUnknownCategoryExample | product-service/src/main/java/com/example/productservice/service/ProductService.java:52-56 | an unknown category fails with its id in the message, and the catalogue stays empty |
| Products.CreateWithCategoryExample | product-service/src/test/java/com/example/productservice/ProductServiceTest.java:59-81 | creating with known category 5 gives a product with that category's id and name, not on sale |
| Users.ToDto | user-service/src/main/java/com/example/userservice/service/UserService.java:59-70 | id, name, email, phone and role are copied, the avatar only when present, and the password never |
| Users.UserService.AuthFor | user-service/src/main/java/com/example/userservice/service/UserService.java:52-57 | the response holds the user's DTO and `generateToken` of the user's email |
| Users.UserService.Register | user-service/src/main/java/com/example/userservice/service/UserService.java:22-35 | a registered email is "Пользователь с таким email уже есть!" and saves nothing; otherwise saves under the next id the given name, email and phone, `encode(password)`, active, no avatar and role "ROLE_USER"; returns its DTO and `generateToken(email)`; emails stay unique |
| Users.UserService.Login | user-service/src/main/java/com/example/userservice/service/UserService.java:37-45 | "Пользователь не найден!" exactly when no user has the email; "Неверный пароль!" exactly when that user's stored hash does not `matches` the password; otherwise that user's DTO with a token for their email |
| Users.UserService.GetUser | user-service/src/main/java/com/example/userservice/service/UserService.java:47-50 | the stored user's DTO, and "Нет такого пользователя" exactly when the id is absent |
| Users.UserService.GetAllUsers | user-service/src/main/java/com/example/userservice/service/UserService.java:71-73 | every listed DTO is the DTO of a stored user |
| Users.UserService.GetAllUsersExact | user-service/src/main/java/com/example/userservice/service/UserService.java:71-73 | `getAllUsers` holds the DTO of every stored user and nothing else, in strictly ascending id order, and nothing for an empty store |
| Users.LoginAfterRegister | user-service/src/main/java/com/example/userservice/service/UserService.java:22-45 | for any service whose `matches` accepts what its `encode` makes of a password, registering a new email and then logging in with the same password returns the response registration gave |
| Users.WrongPasswordAndDuplicate | user-service/src/main/java/com/example/userservice/service/UserService.java:23-43 | a wrong password is refused with "Неверный пароль!", and the same email cannot register twice |
| Gateway.FirstMatch | api-gateway/src/main/java/com/example/apigateway/ApiGatewayApplication.java:24-84 | the position of the first route whose predicate accepts the path, with no earlier one accepting; nothing exactly when none accepts |
| Gateway.Select | api-gateway/src/main/java/com/example/apigateway/ApiGatewayApplication.java:24-84 | the selected route is in the table and accepts the path, no earlier route does, and nothing is selected exactly when no route accepts |
| Gateway.Backend | api-gateway/src/main/java/com/example/apigateway/ApiGatewayApplication.java:24-84 | a path reaches a backend exactly when some route of the table accepts it, and then the backend is that route's uri |
| Gateway.PrefixesUnrelated | api-gateway/src/main/java/com/example/apigateway/ApiGatewayApplication.java:27-78 | no configured prefix is a prefix of another |
| Gateway.AtMostOneMatch | api-gateway/src/main/java/com/example/apigateway/ApiGatewayApplication.java:27-78 | at most one route of the table accepts any path |
| Gateway.RouteFor | api-gateway/src/main/java/com/example/apigateway/ApiGatewayApplication.java:24-84 | a route that accepts the path is the one selected |
| Gateway.OrderIndependent | api-gateway/src/main/java/com/example/apigateway/ApiGatewayApplication.java:24-84 | any registration order of the same routes selects the same route |
| Gateway.NoPrefixNoBackend | api-gateway/src/main/java/com/example/apigateway/ApiGatewayApplication.java:24-84 | a path that starts with no configured prefix reaches no backend |
| Gateway.UsersAndAuthToUserService | api-gateway/src/main/java/com/example/apigateway/ApiGatewayApplication.java:26-31 | paths starting with "/api/users" or "/api/auth" go to http://user-service:8081 |
| Gateway.ProductsAndCategoriesToProductService | api-gateway/src/main/java/com/example/apigateway/ApiGatewayApplication.java:37-42 | paths starting with "/api/products" or "/api/categories" go to http://product-service:8082 |
| Gateway.CartToCartService | api-gateway/src/main/java/com/example/apigateway/ApiGatewayApplication.java:48-52 | paths starting with "/api/cart" go to http://cart-service:8083 |
| Gateway.WishlistToWishlistService | api-gateway/src/main/java/com/example/apigateway/ApiGatewayApplication.java:57-61 | paths starting with "/api/wishlist" go to http://wishlist-service:8085 |
| Gateway.OrdersToOrderService | api-gateway/src/main/java/com/example/apigateway/ApiGatewayApplication.java:67-71 | paths starting with "/api/orders" go to http://order-service:8084 |
| Gateway.NotificationsToNotificationService | api-gateway/src/main/java/com/example/apigateway/ApiGatewayApplication.java:77-81 | paths starting with "/api/notifications" go to http://notification-service:8086 |
| Gateway.RawPrefixExamples | api-gateway/src/main/java/com/example/apigateway/ApiGatewayApplication.java:49 | matching is on raw characters: "/api/cartX" goes to the cart backend, and "/api" goes nowhere |
| Gateway.CartXToCart | api-gateway/src/main/java/com/example/apigateway/ApiGatewayApplication.java:49 | "/api/cartX" goes to http://cart-service:8083 |
| Gateway.ApiAloneNowhere | api-gateway/src/main/java/com/example/apigateway/ApiGatewayApplication.java:24-84 | "/api" reaches no backend |
| Gateway.CorsOnlyLocalhost | api-gateway/src/main/java/com/example/apigateway/ApiGatewayApplication.java:86-97 | a cross-origin request to any path, with any method and headers, is granted exactly when its origin is http://localhost:3000 |

## Left out

- HTTP forwarding by the gateway's `http()` handler, and the `RestTemplate` call in `sendOrderNotification`, are network I/O. The model keeps route selection and, for the notifier, the request the service composes and whether the call failed. What the backend receives differs; see "## Findings".
- The console message printed when the notification fails is output only. It is not modelled.
- Concurrency is not modelled, so neither are get-or-create races or `@Transactional` rollback. Every operation runs alone on the in-memory store.
- JPA persistence is replaced by the map-based store: cascades, lazy and eager loading, and the entity references between records.
- Carts.CartService.RemoveItem: `Cart.items` is mapped with `cascade = ALL` but without `orphanRemoval` (cart-service/src/main/java/com/example/cartservice/model/Cart.java:18). So in the source, `removeIf` changes only the loaded list, and the line's row keeps its cart id. The removed lines can reappear the next time the cart is loaded. The model's store keeps the list as saved, so it does not show this.
- Carts.CartService.ClearCart: for the same reason, `clear` may leave the old lines in the database, where they reappear on the next load. The model does not show this.
- Orders.OrderService.CreateOrder: the notifier is a `RestTemplate` with no timeouts. A notification backend that accepts the connection and never answers blocks `createOrder` after the save, so it never returns. The model's notifier always answers, with success or a failure, so this is not modelled.
- Gateway.CorsOnlyLocalhost: Spring compares an origin with the allowed origins ignoring case and a trailing slash, so it also grants e.g. "HTTP://LOCALHOST:3000". The model compares the origin exactly.
- `CartItem`'s own id and its back-reference to the cart are not modelled. `Image`'s id and its back-reference to the product are not modelled either. Lines and images are values inside their owner.
- OrderItem.java is not part of this model. An order line's fields are taken from the DTO and the service's use of them.
- Base64 encoding of avatars and images is library code. DTOs carry the raw bytes.
- `toLowerCase` covers ASCII letters and the basic Cyrillic alphabet (А-Я and Ё) only; it is not full Unicode case mapping.
- Creation timestamps, and their rendering in the order DTO, are not modelled because they depend on the clock.
- `MultipartFile.getBytes` failing ("File error") is I/O. Uploads are modelled as name-and-content values.
- Java `null` is modelled as `None` in the arguments of `getProducts` and `updateProduct`. A product stored with a null title is not modelled; for one, the title filter would throw.
- Ids (`Long`) are unbounded integers, because the counter never overflows in practice. Prices, totals and quantities are 32-bit `int`.
- Products.ProductService.CreateProduct: the source saves the product twice, before and after adding the images. The model performs the single insert both saves amount to.
- Wishlists.WishlistService.AddProduct: for a user without a wishlist, the source saves an empty wishlist and then saves it again with the product. The model inserts the final wishlist once.
- Category management, `deleteProduct` and the controllers are outside the modelled core. The notification service's mail sending and the frontend are outside it too.
- The email in the notification URL is not encoded either, so a '+' in it would arrive as a space and an '&' would split the parameter. The model does not show this.
- Repository order: `findAll()` and `findByUserId` carry no ORDER BY, so the database may return rows in any order. The model fixes ascending id order, which is the order of first saves. Likewise `Cart.items`, `Order.items` and `Product.images` carry no `@OrderColumn` or `@OrderBy`, so their order after a reload is the database's; the model keeps them in the order they were added.
- Gateway.Covers: only the all-paths pattern `/**` and exact paths are interpreted. The registry uses only `/**`.

## Findings

| source | as written | input that shows it | evidently intended | confidence | as-written member | corrected member |
|---|---|---|---|---|---|---|
| order-service/src/main/java/com/example/orderservice/service/OrderService.java:79-82 | the text `Your order #<id> successfully created!` is pasted unencoded as the last query parameter, so its '#' starts the URI fragment, which is never sent (for an email without '#'; one with '#' cuts the URL earlier still) | any order, e.g. id 1: the composed text is "Your order #1 successfully created!", and the backend receives "Your order " | the backend receives the whole text, so it names the order | not executed | Orders.ReceivedTextLosesId | Orders.NotificationTextNamesOrder |
