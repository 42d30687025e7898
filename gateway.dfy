/** The API gateway: an ordered route table of path-prefix predicates, each
    forwarding to one backend, and the CORS policy applied to every path. */
module Gateway {
  import opened Wrappers
  import Text

  /** A route: its id, the path prefixes its predicate accepts (any of them), and its backend. */
  datatype Route = Route(id: string, prefixes: seq<string>, uri: string)

  const UserRoute := Route("user_service", ["/api/users", "/api/auth"], "http://user-service:8081")
  const ProductRoute := Route("product_service", ["/api/products", "/api/categories"], "http://product-service:8082")
  const CartRoute := Route("cart_service", ["/api/cart"], "http://cart-service:8083")
  const WishlistRoute := Route("wishlist_service", ["/api/wishlist"], "http://wishlist-service:8085")
  const OrderRoute := Route("order_service", ["/api/orders"], "http://order-service:8084")
  const NotificationRoute := Route("notification_service", ["/api/notifications"], "http://notification-service:8086")

  /** `gatewayRoutes`, in registration order. */
  const Routes: seq<Route> := [UserRoute, ProductRoute, CartRoute, WishlistRoute, OrderRoute, NotificationRoute]

  /** Every prefix of the table. */
  const AllPrefixes: seq<string> :=
    ["/api/users", "/api/auth", "/api/products", "/api/categories", "/api/cart", "/api/wishlist", "/api/orders", "/api/notifications"]

  /** A route's predicate: the raw path starts with one of its prefixes
      (a plain string test, not a path-segment match). */
  predicate Matches(r: Route, path: string)
  {
    exists p :: p in r.prefixes && Text.StartsWith(path, p)
  }

  /** The position of the first route from `from` on whose predicate accepts the path. */
  function FirstMatch(routes: seq<Route>, path: string, from: nat): (r: Option<nat>)
    requires from <= |routes|
    ensures r.Some? ==> from <= r.value < |routes| && Matches(routes[r.value], path)
    ensures r.Some? ==> forall j :: from <= j < r.value ==> !Matches(routes[j], path)
    ensures r.None? <==> forall j :: from <= j < |routes| ==> !Matches(routes[j], path)
    decreases |routes| - from
  {
    if from == |routes| then None
    else if Matches(routes[from], path) then Some(from)
    else FirstMatch(routes, path, from + 1)
  }

  /** The first route, in order, whose predicate accepts the path. */
  function Select(routes: seq<Route>, path: string): (r: Option<Route>)
    ensures r.None? <==> forall x :: x in routes ==> !Matches(x, path)
    ensures r.Some? ==> r.value in routes && Matches(r.value, path)
    ensures r.Some? ==> exists i :: 0 <= i < |routes| && routes[i] == r.value
                                    && forall j :: 0 <= j < i ==> !Matches(routes[j], path)
  {
    match FirstMatch(routes, path, 0)
    case None => None
    case Some(i) => Some(routes[i])
  }

  /** The backend the gateway forwards the path to, if any. */
  function Backend(path: string): (r: Option<string>)
    ensures r.None? <==> forall x :: x in Routes ==> !Matches(x, path)
    ensures r.Some? ==> exists x :: x in Routes && Matches(x, path) && r.value == x.uri
  {
    match Select(Routes, path)
    case None => None
    case Some(r) => Some(r.uri)
  }

  /** Every prefix of every route of the table is in the list of all prefixes. */
  lemma PrefixesOfRoutes()
    ensures forall r, p :: r in Routes && p in r.prefixes ==> p in AllPrefixes
  {
  }

  /** No configured prefix is a prefix of another: all differ at position 5, except
      "/api/categories" and "/api/cart", which differ at position 7. */
  lemma PrefixesUnrelated()
    ensures forall p, q :: p in AllPrefixes && q in AllPrefixes && p != q ==> !Text.StartsWith(p, q)
  {
    forall p, q | p in AllPrefixes && q in AllPrefixes && p != q
      ensures !Text.StartsWith(p, q)
    {
      if p[5] != q[5] {
        Text.DiffersAt(p, q, 5);
      } else {
        Text.DiffersAt(p, q, 7);
      }
    }
  }

  /** Each prefix appears in exactly one route. */
  lemma PrefixOwner(r1: Route, r2: Route, p: string)
    requires r1 in Routes && r2 in Routes && p in r1.prefixes && p in r2.prefixes
    ensures r1 == r2
  {
  }

  /** At most one route of the table accepts any path. */
  lemma AtMostOneMatch(path: string, r1: Route, r2: Route)
    requires r1 in Routes && r2 in Routes && Matches(r1, path) && Matches(r2, path)
    ensures r1 == r2
  {
    var p :| p in r1.prefixes && Text.StartsWith(path, p);
    var q :| q in r2.prefixes && Text.StartsWith(path, q);
    PrefixesOfRoutes();
    PrefixesUnrelated();
    Text.PrefixesOfOneString(path, p, q);
    assert p == q;
    PrefixOwner(r1, r2, p);
  }

  /** A route of the table that accepts the path is the one selected. */
  lemma RouteFor(r: Route, path: string)
    requires r in Routes && Matches(r, path)
    ensures Select(Routes, path) == Some(r)
  {
    var s := Select(Routes, path);
    assert s.Some?;
    AtMostOneMatch(path, r, s.value);
  }

  /** The selection does not depend on the order in which the routes are registered. */
  lemma OrderIndependent(routes: seq<Route>, path: string)
    requires forall r :: r in routes <==> r in Routes
    ensures Select(routes, path) == Select(Routes, path)
  {
    var a := Select(routes, path);
    var b := Select(Routes, path);
    if a.Some? {
      assert a.value in Routes;
      RouteFor(a.value, path);
    }
  }

  /** A path that starts with none of the prefixes reaches no backend. */
  lemma NoPrefixNoBackend(path: string)
    requires forall p :: p in AllPrefixes ==> !Text.StartsWith(path, p)
    ensures Backend(path) == None
  {
    PrefixesOfRoutes();
  }

  lemma UsersAndAuthToUserService(path: string)
    requires Text.StartsWith(path, "/api/users") || Text.StartsWith(path, "/api/auth")
    ensures Backend(path) == Some("http://user-service:8081")
  {
    RouteFor(UserRoute, path);
  }

  lemma ProductsAndCategoriesToProductService(path: string)
    requires Text.StartsWith(path, "/api/products") || Text.StartsWith(path, "/api/categories")
    ensures Backend(path) == Some("http://product-service:8082")
  {
    RouteFor(ProductRoute, path);
  }

  lemma CartToCartService(path: string)
    requires Text.StartsWith(path, "/api/cart")
    ensures Backend(path) == Some("http://cart-service:8083")
  {
    RouteFor(CartRoute, path);
  }

  lemma WishlistToWishlistService(path: string)
    requires Text.StartsWith(path, "/api/wishlist")
    ensures Backend(path) == Some("http://wishlist-service:8085")
  {
    RouteFor(WishlistRoute, path);
  }

  lemma OrdersToOrderService(path: string)
    requires Text.StartsWith(path, "/api/orders")
    ensures Backend(path) == Some("http://order-service:8084")
  {
    RouteFor(OrderRoute, path);
  }

  lemma NotificationsToNotificationService(path: string)
    requires Text.StartsWith(path, "/api/notifications")
    ensures Backend(path) == Some("http://notification-service:8086")
  {
    RouteFor(NotificationRoute, path);
  }

  /** The match is on raw characters: "/api/cartX" goes to the cart backend, while
      "/api" alone goes nowhere. */
  lemma RawPrefixExamples()
    ensures Backend("/api/cartX") == Some("http://cart-service:8083")
    ensures Backend("/api") == None
  {
    CartXToCart();
    ApiAloneNowhere();
  }

  lemma ApiAloneNowhere()
    ensures Backend("/api") == None
  {
    forall p | p in AllPrefixes ensures !Text.StartsWith("/api", p) {
      assert |"/api"| < |p|;
    }
    NoPrefixNoBackend("/api");
  }

  lemma CartXToCart()
    ensures Backend("/api/cartX") == Some("http://cart-service:8083")
  {
    assert ("/api/cartX")[..|"/api/cart"|] == "/api/cart";
    CartToCartService("/api/cartX");
  }

  // ---------------------------------------------------------------------------
  // CORS

  /** One `addMapping` entry of a CORS registry. */
  datatype CorsMapping = CorsMapping(pathPattern: string, allowedOrigins: seq<string>,
                                     allowedMethods: seq<string>, allowedHeaders: seq<string>)

  /** `corsConfigurer`. */
  const Cors := CorsMapping("/**", ["http://localhost:3000"], ["*"], ["*"])

  /** A value is allowed by a list that holds it or the wildcard. */
  predicate Allows(allowed: seq<string>, value: string)
  {
    "*" in allowed || value in allowed
  }

  // The all-paths pattern covers every path; any other pattern is taken literally.
  predicate Covers(pattern: string, path: string)
  {
    pattern == "/**" || pattern == path
  }

  /** A cross-origin request is granted when the mapping covers its path and allows
      its origin, its method and every header it asks for. */
  predicate Permits(m: CorsMapping, path: string, origin: string, httpMethod: string, headers: seq<string>)
  {
    && Covers(m.pathPattern, path)
    && Allows(m.allowedOrigins, origin)
    && Allows(m.allowedMethods, httpMethod)
    && forall h :: h in headers ==> Allows(m.allowedHeaders, h)
  }

  /** The gateway grants CORS for every path, method and header, and to exactly one origin. */
  lemma CorsOnlyLocalhost(path: string, origin: string, httpMethod: string, headers: seq<string>)
    ensures Permits(Cors, path, origin, httpMethod, headers) <==> origin == "http://localhost:3000"
  {
    assert "*" != "http://localhost:3000" by {
      assert |"*"| != |"http://localhost:3000"|;
    }
  }
}
