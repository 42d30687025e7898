/** The product catalogue: products with an optional category and uploaded images,
    searched by up to three optional filters applied one after the other. */
module Products {
  import opened Wrappers
  import opened JavaInt
  import Repository
  import Seqs
  import Text

  datatype Category = Category(id: int, name: string, description: string)

  /** A stored image; `bytes` is `None` for an image whose content column is null. */
  datatype Image = Image(originalFileName: string, bytes: Option<seq<byte>>)

  datatype Product = Product(id: int, title: string, description: string, price: int32,
                             onSale: bool, category: Option<Category>, images: seq<Image>)

  /** The wire form; `images` carries the content of each image that has one,
      in the order the images are stored (the Base64 text of it, in the source). */
  datatype ProductDto = ProductDto(id: int, title: string, description: string, price: int32,
                                   onSale: bool, categoryId: Option<int>, categoryName: Option<string>,
                                   images: seq<seq<byte>>)

  /** An uploaded multipart file: its original file name and its content. */
  datatype Upload = Upload(originalFilename: string, content: seq<byte>)

  const ProductNotFound := "Product not found"
  const NotFound := "Not found"

  function NoSuchCategory(categoryId: int): string
  {
    "No such category: " + Text.DecimalString(categoryId)
  }

  function IdOf(p: Product): int { p.id }

  // ---------------------------------------------------------------------------
  // Searching

  /** The title filter: the lower-cased title contains the lower-cased query. */
  predicate TitleMatches(p: Product, query: string)
  {
    Text.Contains(Text.Lower(p.title), Text.Lower(query))
  }

  /** The category filter: the product has a category, and it is that one. */
  predicate InCategory(p: Product, categoryId: int)
  {
    p.category.Some? && p.category.value.id == categoryId
  }

  /** The price filter, inclusive. */
  predicate WithinPrice(p: Product, maxPrice: int32)
  {
    p.price <= maxPrice
  }

  function ByTitle(ps: seq<Product>, query: string): seq<Product>
  {
    Seqs.Keep(ps, (p: Product) => TitleMatches(p, query))
  }

  function ByCategory(ps: seq<Product>, categoryId: int): seq<Product>
  {
    Seqs.Keep(ps, (p: Product) => InCategory(p, categoryId))
  }

  function ByMaxPrice(ps: seq<Product>, maxPrice: int32): seq<Product>
  {
    Seqs.Keep(ps, (p: Product) => WithinPrice(p, maxPrice))
  }

  /** The title filter applies only to a present, non-empty query. */
  predicate TitleActive(title: Option<string>)
  {
    title.Some? && title.value != ""
  }

  /** The three filters of `getProducts`, each applied (when requested) to what the previous left. */
  function Filtered(ps: seq<Product>, title: Option<string>, categoryId: Option<int>, maxPrice: Option<int32>): (r: seq<Product>)
    ensures |r| <= |ps|
    ensures forall p :: p in r ==> p in ps && Selected(p, title, categoryId, maxPrice)
  {
    var byTitle := if TitleActive(title) then ByTitle(ps, title.value) else ps;
    var byCategory := if categoryId.Some? then ByCategory(byTitle, categoryId.value) else byTitle;
    if maxPrice.Some? then ByMaxPrice(byCategory, maxPrice.value) else byCategory
  }

  /** A product passes the search when it passes every filter that was requested. */
  predicate Selected(p: Product, title: Option<string>, categoryId: Option<int>, maxPrice: Option<int32>)
  {
    && (TitleActive(title) ==> TitleMatches(p, title.value))
    && (categoryId.Some? ==> InCategory(p, categoryId.value))
    && (maxPrice.Some? ==> WithinPrice(p, maxPrice.value))
  }

  /** Applying the filters one after the other is a single filter by their conjunction. */
  lemma FilteredIsConjunction(ps: seq<Product>, title: Option<string>, categoryId: Option<int>, maxPrice: Option<int32>)
    ensures Filtered(ps, title, categoryId, maxPrice) == Seqs.Keep(ps, (p: Product) => Selected(p, title, categoryId, maxPrice))
  {
    var h1 := (p: Product) => TitleActive(title) ==> TitleMatches(p, title.value);
    var h2 := (p: Product) => h1(p) && (categoryId.Some? ==> InCategory(p, categoryId.value));
    var h3 := (p: Product) => h2(p) && (maxPrice.Some? ==> WithinPrice(p, maxPrice.value));
    var s1 := if TitleActive(title) then ByTitle(ps, title.value) else ps;
    if TitleActive(title) {
      Seqs.KeepSameFilter(ps, (p: Product) => TitleMatches(p, title.value), h1);
    } else {
      Seqs.KeepEverything(ps, h1);
    }
    assert s1 == Seqs.Keep(ps, h1);
    var s2 := if categoryId.Some? then ByCategory(s1, categoryId.value) else s1;
    if categoryId.Some? {
      Seqs.KeepTwice(ps, h1, (p: Product) => InCategory(p, categoryId.value), h2);
    } else {
      Seqs.KeepSameFilter(ps, h1, h2);
    }
    assert s2 == Seqs.Keep(ps, h2);
    if maxPrice.Some? {
      Seqs.KeepTwice(ps, h2, (p: Product) => WithinPrice(p, maxPrice.value), h3);
    } else {
      Seqs.KeepSameFilter(ps, h2, h3);
    }
    Seqs.KeepSameFilter(ps, h3, (p: Product) => Selected(p, title, categoryId, maxPrice));
  }

  /** The search returns exactly the products that pass every requested filter,
      in the order they were listed. */
  lemma FilteredExact(ps: seq<Product>, title: Option<string>, categoryId: Option<int>, maxPrice: Option<int32>)
    ensures forall p :: p in Filtered(ps, title, categoryId, maxPrice) <==> p in ps && Selected(p, title, categoryId, maxPrice)
    ensures Seqs.Subseq(Filtered(ps, title, categoryId, maxPrice), ps)
  {
    var f := (p: Product) => Selected(p, title, categoryId, maxPrice);
    FilteredIsConjunction(ps, title, categoryId, maxPrice);
    Seqs.KeepMembers(ps, f);
    Seqs.KeepIsSubseq(ps, f);
  }

  /** The search keeps the products in the order it was given them. */
  lemma FilteredKeepsOrder(ps: seq<Product>, title: Option<string>, categoryId: Option<int>, maxPrice: Option<int32>)
    requires forall i, j :: 0 <= i < j < |ps| ==> ps[i].id < ps[j].id
    ensures var r := Filtered(ps, title, categoryId, maxPrice);
      forall i, j :: 0 <= i < j < |r| ==> r[i].id < r[j].id
  {
    FilteredIsConjunction(ps, title, categoryId, maxPrice);
    Seqs.KeepAscending(ps, (p: Product) => Selected(p, title, categoryId, maxPrice), IdOf);
  }

  /** With no filter requested (or only an empty title), every product is returned. */
  lemma NoFilterKeepsAll(ps: seq<Product>, title: Option<string>)
    requires !TitleActive(title)
    ensures Filtered(ps, title, None, None) == ps
  {
  }

  /** Searching "Pen" in category 1 up to price 150 keeps the blue pen (category 1, price 100)
      and drops the red pencil (category 1, price 200), though its title matches too. */
  lemma SearchExample()
    ensures var cat := Some(Category(1, "Pens", ""));
      var pen := Product(1, "Blue Pen", "", 100, false, cat, []);
      var pencil := Product(2, "Red Pencil", "", 200, false, cat, []);
      && Filtered([pen, pencil], Some("Pen"), Some(1), Some(150)) == [pen]
      && TitleMatches(pencil, "Pen") && InCategory(pencil, 1) && !WithinPrice(pencil, 150)
  {
    var cat := Some(Category(1, "Pens", ""));
    var pen := Product(1, "Blue Pen", "", 100, false, cat, []);
    var pencil := Product(2, "Red Pencil", "", 200, false, cat, []);
    PenInBluePen();
    PenInRedPencil();
    var f := (p: Product) => Selected(p, Some("Pen"), Some(1), Some(150));
    FilteredIsConjunction([pen, pencil], Some("Pen"), Some(1), Some(150));
    assert f(pen);
    assert !f(pencil);
    assert [pen, pencil][1..] == [pencil];
    assert Seqs.Keep([pencil], f) == [];
  }

  /** "pen" occurs in "blue pen" at position 5. */
  lemma PenInBluePen()
    ensures Text.Contains(Text.Lower("Blue Pen"), Text.Lower("Pen"))
  {
    var low := Text.Lower("Blue Pen");
    var q := Text.Lower("Pen");
    assert q[0] == 'p' && q[1] == 'e' && q[2] == 'n';
    assert low[5] == 'p' && low[6] == 'e' && low[7] == 'n';
    assert low[5..][..|q|] == q;
    assert Text.StartsWith(low[5..], q);
  }

  /** "pen" occurs in "red pencil" at position 4. */
  lemma PenInRedPencil()
    ensures Text.Contains(Text.Lower("Red Pencil"), Text.Lower("Pen"))
  {
    var low := Text.Lower("Red Pencil");
    var q := Text.Lower("Pen");
    assert q[0] == 'p' && q[1] == 'e' && q[2] == 'n';
    assert low[4] == 'p' && low[5] == 'e' && low[6] == 'n';
    assert low[4..][..|q|] == q;
    assert Text.StartsWith(low[4..], q);
  }

  // ---------------------------------------------------------------------------
  // Images

  predicate HasContent(f: Upload) { |f.content| > 0 }

  function ToImage(f: Upload): Image
  {
    Image(f.originalFilename, Some(f.content))
  }

  /** The images the upload loop adds for these files: one per non-empty file, in order. */
  function ImagesFrom(files: seq<Upload>): seq<Image>
  {
    if files == [] then []
    else
      var last := files[|files| - 1];
      ImagesFrom(files[..|files| - 1]) + (if HasContent(last) then [ToImage(last)] else [])
  }

  /** Empty files are skipped and every other file becomes exactly one image, in order. */
  lemma {:induction false} ImagesFromNonEmpty(files: seq<Upload>)
    ensures ImagesFrom(files) == Seqs.MapSeq(Seqs.Keep(files, HasContent), ToImage)
    decreases |files|
  {
    if files != [] {
      var init := files[..|files| - 1];
      var last := files[|files| - 1];
      assert files == init + [last];
      ImagesFromNonEmpty(init);
      Seqs.KeepAppend(init, [last], HasContent);
      assert Seqs.Keep([last], HasContent) == if HasContent(last) then [last] else [];
      var kept := Seqs.Keep(init, HasContent);
      var tail := Seqs.Keep([last], HasContent);
      assert Seqs.MapSeq(kept + tail, ToImage) == Seqs.MapSeq(kept, ToImage) + Seqs.MapSeq(tail, ToImage);
    }
  }

  /** Every image made from uploads has content. */
  lemma {:induction false} ImagesFromHaveContent(files: seq<Upload>)
    ensures forall img :: img in ImagesFrom(files) ==> img.bytes.Some? && |img.bytes.value| > 0
    decreases |files|
  {
    if files != [] {
      ImagesFromHaveContent(files[..|files| - 1]);
    }
  }

  /** The loop of `createProduct`/`updateProduct`: appends an image for each
      non-empty file, skipping the empty ones. */
  method AppendImages(images: seq<Image>, files: seq<Upload>) returns (r: seq<Image>)
    ensures r == images + Seqs.MapSeq(Seqs.Keep(files, HasContent), ToImage)
  {
    r := images;
    for n := 0 to |files|
      invariant r == images + ImagesFrom(files[..n])
    {
      assert files[..n + 1][..n] == files[..n];
      if !HasContent(files[n]) {
        continue;
      }
      r := r + [ToImage(files[n])];
    }
    assert files[..|files|] == files;
    ImagesFromNonEmpty(files);
  }

  function HasBytes(img: Image): bool { img.bytes.Some? }

  function BytesOf(img: Image): seq<byte>
  {
    if img.bytes.Some? then img.bytes.value else []
  }

  /** `toDto`: the scalar fields as stored, the category's id and name when there
      is a category, and the content of every image that has content, in order. */
  function ToDto(p: Product): (d: ProductDto)
    ensures d.id == p.id && d.title == p.title && d.description == p.description
    ensures d.price == p.price && d.onSale == p.onSale
    ensures d.categoryId.Some? <==> p.category.Some?
    ensures d.categoryName.Some? <==> p.category.Some?
    ensures p.category.Some? ==> d.categoryId.value == p.category.value.id && d.categoryName.value == p.category.value.name
    ensures d.images == Seqs.MapSeq(Seqs.Keep(p.images, HasBytes), BytesOf)
  {
    var categoryId := if p.category.Some? then Some(p.category.value.id) else None;
    var categoryName := if p.category.Some? then Some(p.category.value.name) else None;
    ProductDto(p.id, p.title, p.description, p.price, p.onSale, categoryId, categoryName,
               Seqs.MapSeq(Seqs.Keep(p.images, HasBytes), BytesOf))
  }

  /** An image's content reaches the wire form exactly when it is present. */
  lemma DtoImagesExact(p: Product)
    ensures forall b :: b in ToDto(p).images <==> exists img :: img in p.images && img.bytes == Some(b)
  {
    var kept := Seqs.Keep(p.images, HasBytes);
    Seqs.KeepMembers(p.images, HasBytes);
    forall b ensures b in ToDto(p).images <==> exists img :: img in p.images && img.bytes == Some(b) {
      if b in ToDto(p).images {
        var i :| 0 <= i < |kept| && Seqs.MapSeq(kept, BytesOf)[i] == b;
        assert kept[i] in kept;
      }
      if exists img :: img in p.images && img.bytes == Some(b) {
        var img :| img in p.images && img.bytes == Some(b);
        assert img in kept;
        var i :| 0 <= i < |kept| && kept[i] == img;
        assert Seqs.MapSeq(kept, BytesOf)[i] == b;
      }
    }
  }

  /** `categoryRepository.findById(id).orElse(null)`. */
  function CategoryOr(categories: map<int, Category>, categoryId: int): (r: Option<Category>)
    ensures r.Some? <==> categoryId in categories
    ensures r.Some? ==> r.value == categories[categoryId]
  {
    if categoryId in categories then Some(categories[categoryId]) else None
  }

  /** `updateProduct`'s field assignments: each present value replaces its field,
      each absent one keeps it; category and images are given as they end up. */
  function Patched(p: Product, title: Option<string>, description: Option<string>, price: Option<int32>,
                   onSale: Option<bool>, category: Option<Category>, images: seq<Image>): (r: Product)
    ensures r.id == p.id && r.category == category && r.images == images
    ensures r.title == (if title.Some? then title.value else p.title)
    ensures r.description == (if description.Some? then description.value else p.description)
    ensures r.price == (if price.Some? then price.value else p.price)
    ensures r.onSale == (if onSale.Some? then onSale.value else p.onSale)
  {
    Product(p.id,
            if title.Some? then title.value else p.title,
            if description.Some? then description.value else p.description,
            if price.Some? then price.value else p.price,
            if onSale.Some? then onSale.value else p.onSale,
            category, images)
  }

  /** The first present one of two optional values. */
  function FirstOf<T>(a: Option<T>, b: Option<T>): (r: Option<T>)
    ensures r.None? <==> a.None? && b.None?
    ensures a.Some? ==> r == a
    ensures a.None? ==> r == b
  {
    if a.Some? then a else b
  }

  /** A patch with nothing present, keeping category and images, gives the product back. */
  lemma PatchedNothing(p: Product)
    ensures Patched(p, None, None, None, None, p.category, p.images) == p
  {
  }

  /** Two patches in a row are one patch in which the later present values win,
      and the earlier ones survive where the later patch has nothing. */
  lemma PatchedTwice(p: Product,
                     t1: Option<string>, d1: Option<string>, pr1: Option<int32>, s1: Option<bool>, c1: Option<Category>, i1: seq<Image>,
                     t2: Option<string>, d2: Option<string>, pr2: Option<int32>, s2: Option<bool>, c2: Option<Category>, i2: seq<Image>)
    ensures Patched(Patched(p, t1, d1, pr1, s1, c1, i1), t2, d2, pr2, s2, c2, i2)
         == Patched(p, FirstOf(t2, t1), FirstOf(d2, d1), FirstOf(pr2, pr1), FirstOf(s2, s1), c2, i2)
  {
  }

  /** The product and category repositories and the service on them. */
  class ProductService {
    var products: map<int, Product>
    var nextId: nat
    var categories: map<int, Category>

    /** Products are stored under the ids the repository assigned; each category under its own id. */
    ghost predicate Valid()
      reads this
    {
      && 1 <= nextId
      && Repository.Keyed(products, nextId, IdOf)
      && forall k :: k in categories ==> categories[k].id == k
    }

    /** A catalogue with no products and the given categories. */
    constructor (categories: map<int, Category>)
      requires forall k :: k in categories ==> categories[k].id == k
      ensures Valid() && products == map[] && nextId == 1 && this.categories == categories
    {
      products := map[];
      nextId := 1;
      this.categories := categories;
    }

    /** `getProducts`: the filtered products, in repository order. */
    function GetProducts(title: Option<string>, categoryId: Option<int>, maxPrice: Option<int32>): (r: seq<ProductDto>)
      reads this
      ensures forall d :: d in r ==>
        exists k :: k in products && Selected(products[k], title, categoryId, maxPrice) && ToDto(products[k]) == d
    {
      Seqs.MapSeq(Filtered(Repository.Listing(products, nextId), title, categoryId, maxPrice), ToDto)
    }

    /** `getProducts` answers exactly the stored products that pass every requested
        filter, in ascending id order. */
    lemma GetProductsExact(title: Option<string>, categoryId: Option<int>, maxPrice: Option<int32>)
      requires Valid()
      ensures var r := Filtered(Repository.Listing(products, nextId), title, categoryId, maxPrice);
        && GetProducts(title, categoryId, maxPrice) == Seqs.MapSeq(r, ToDto)
        && (forall p :: p in r <==> (exists k :: k in products && products[k] == p) && Selected(p, title, categoryId, maxPrice))
        && (forall i, j :: 0 <= i < j < |r| ==> r[i].id < r[j].id)
    {
      var all := Repository.Listing(products, nextId);
      Repository.ListingMembers(products, nextId);
      Repository.ListingAscending(products, nextId, IdOf, nextId);
      FilteredExact(all, title, categoryId, maxPrice);
      FilteredKeepsOrder(all, title, categoryId, maxPrice);
      forall p | exists k :: k in products && products[k] == p ensures p in all {
        var k :| k in products && products[k] == p;
        assert 0 <= k < nextId;
      }
    }

    /** `getProduct`: the stored product, or "Product not found". */
    function GetProduct(id: int): (r: Result<ProductDto>)
      reads this
      ensures r.Ok? <==> id in products
      ensures r.Ok? ==> r.value == ToDto(products[id])
      ensures r.Err? ==> r.message == ProductNotFound
    {
      if id in products then Ok(ToDto(products[id])) else Err(ProductNotFound)
    }

    /** `createProduct`: an unknown category fails before anything is saved; otherwise
        the product is saved not on sale, with an image per non-empty file. */
    method CreateProduct(title: string, description: string, price: int32, categoryId: Option<int>,
                         files: Option<seq<Upload>>) returns (r: Result<ProductDto>)
      requires Valid()
      modifies this
      ensures Valid() && categories == old(categories)
      ensures categoryId.Some? && categoryId.value !in categories ==>
        r == Err(NoSuchCategory(categoryId.value)) && products == old(products) && nextId == old(nextId)
      ensures !(categoryId.Some? && categoryId.value !in categories) ==>
        var id := old(nextId);
        var category := if categoryId.Some? then Some(categories[categoryId.value]) else None;
        var uploads := if files.Some? then files.value else [];
        var p := Product(id, title, description, price, false, category, Seqs.MapSeq(Seqs.Keep(uploads, HasContent), ToImage));
        && products == old(products)[id := p]
        && nextId == id + 1
        && r == Ok(ToDto(p))
    {
      var category: Option<Category> := None;
      if categoryId.Some? {
        if categoryId.value !in categories {
          return Err(NoSuchCategory(categoryId.value));
        }
        category := Some(categories[categoryId.value]);
      }
      var id := nextId;
      var uploads := if files.Some? then files.value else [];
      var images := AppendImages([], uploads);
      assert images == Seqs.MapSeq(Seqs.Keep(uploads, HasContent), ToImage);
      var p := Product(id, title, description, price, false, category, images);
      products := products[id := p];
      nextId := nextId + 1;
      r := Ok(ToDto(p));
    }

    /** `updateProduct`: each present argument replaces its field and each absent one
        keeps it; a present but unknown category clears the category; images from
        non-empty files are appended. An unknown product is "Not found" and nothing changes. */
    method UpdateProduct(id: int, title: Option<string>, description: Option<string>, price: Option<int32>,
                         categoryId: Option<int>, onSale: Option<bool>, files: Option<seq<Upload>>)
      returns (r: Result<ProductDto>)
      requires Valid()
      modifies this
      ensures Valid() && categories == old(categories) && nextId == old(nextId)
      ensures id !in old(products) ==> r == Err(NotFound) && products == old(products)
      ensures id in old(products) ==>
        var p := old(products)[id];
        var uploads := if files.Some? then files.value else [];
        var category := if categoryId.Some? then CategoryOr(categories, categoryId.value) else p.category;
        var q := Patched(p, title, description, price, onSale, category,
                         p.images + Seqs.MapSeq(Seqs.Keep(uploads, HasContent), ToImage));
        && products == old(products)[id := q]
        && r == Ok(ToDto(q))
    {
      if id !in products {
        return Err(NotFound);
      }
      var p := products[id];
      var images := AppendImages(p.images, if files.Some? then files.value else []);
      var q := Patched(p, title, description, price, onSale,
                       if categoryId.Some? then CategoryOr(categories, categoryId.value) else p.category, images);
      products := products[id := q];
      r := Ok(ToDto(q));
    }
  }

  /** An update with every argument absent leaves the product as it was. */
  method UpdateNothingExample() returns (before: Result<ProductDto>, after: Result<ProductDto>)
    ensures before.Ok? && after == before
  {
    var service := new ProductService(map[1 := Category(1, "Pens", "")]);
    var created := service.CreateProduct("Blue Pen", "ink", 100, Some(1), None);
    assert created.Ok?;
    before := service.GetProduct(1);
    after := service.UpdateProduct(1, None, None, None, None, None, None);
  }

  /** Creating with an unknown category fails with its id in the message and saves nothing. */
  method CreateUnknownCategoryExample() returns (r: Result<ProductDto>, listed: seq<ProductDto>)
    ensures r == Err(NoSuchCategory(9)) && listed == []
  {
    var service := new ProductService(map[]);
    r := service.CreateProduct("Blue Pen", "ink", 100, Some(9), None);
    listed := service.GetProducts(None, None, None);
    Repository.ListingOfEmpty(service.products, service.nextId);
  }

  /** Creating with a known category stores the product with that category, not on sale. */
  method CreateWithCategoryExample() returns (dto: Result<ProductDto>)
    ensures dto.Ok? && dto.value.title == "Notebook A5" && dto.value.price == 300 && !dto.value.onSale
    ensures dto.value.categoryId == Some(5) && dto.value.categoryName == Some("Notebooks")
  {
    var service := new ProductService(map[5 := Category(5, "Notebooks", "")]);
    dto := service.CreateProduct("Notebook A5", "Good one", 300, Some(5), None);
  }
}
