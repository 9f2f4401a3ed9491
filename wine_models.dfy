/**
 * The wine record's derived values: stock counted from the storage items, the image URLs shown
 * for a wine, its category label, the price shown with a currency symbol, and the ranges the
 * rating and vintage validators accept.
 */
module WineModels {
  import opened Common
  import opened Conf
  import opened StorageModels
  import opened UserModels
  import opened UserViews

  // ---------------------------------------------------------------------------------------
  // Records
  // ---------------------------------------------------------------------------------------

  /** The sweetness categories, stored by a two-letter code. */
  datatype Category = Dry | SemiDry | MediumSweet | Sweet | Feinherb

  /** The two-letter code stored in the `category` column. */
  function CategoryCode(c: Category): (code: string)
    ensures |code| == 2
  {
    match c
    case Dry => "DR"
    case SemiDry => "SD"
    case MediumSweet => "MS"
    case Sweet => "SW"
    case Feinherb => "FH"
  }

  /** The label shown for a category. */
  function CategoryLabel(c: Category): (text: string)
    ensures text != ""
  {
    match c
    case Dry => "Dry"
    case SemiDry => "Semi-Dry"
    case MediumSweet => "Medium Sweet"
    case Sweet => "Sweet"
    case Feinherb => "Feinherb"
  }

  /** `Category(code)`: the member with this code, if there is one. */
  function CategoryFromCode(code: string): (r: Option<Category>)
    ensures r.Some? ==> CategoryCode(r.value) == code
  {
    if code == "DR" then Some(Dry)
    else if code == "SD" then Some(SemiDry)
    else if code == "MS" then Some(MediumSweet)
    else if code == "SW" then Some(Sweet)
    else if code == "FH" then Some(Feinherb)
    else None
  }

  /** Every category is found again from its stored code. */
  lemma CategoryCodeRoundTrip(c: Category)
    ensures CategoryFromCode(CategoryCode(c)) == Some(c)
  {
  }

  /** The kinds of wine photo. */
  datatype ImageType = Front | Back | LabelFront | LabelBack

  /** The order in which `image_thumbnails` lists the kinds. */
  const ImageOrder: seq<ImageType> := [Front, Back, LabelFront, LabelBack]

  /** A stored file: its name (empty when the field is blank or NULL) and the URL storage gives it. */
  datatype FileRef = FileRef(name: string, url: string)

  /** A file field is truthy when it names a file. */
  predicate IsSet(f: FileRef)
  {
    f.name != ""
  }

  /** A photo of a wine: the image, an optional thumbnail and its kind. */
  datatype WineImage = WineImage(image: FileRef, thumbnail: FileRef, imageType: ImageType)

  /** The fields of a wine the derived values read. `category` is the stored code, possibly NULL. */
  datatype Wine = Wine(id: nat, user: nat, category: Option<string>, vintage: Option<int>, rating: Option<int>)

  // ---------------------------------------------------------------------------------------
  // Stock
  // ---------------------------------------------------------------------------------------

  /** `get_stock`: the wine's storage items that are not deleted, in table order. */
  function GetStock(w: Wine, items: seq<StorageItem>): (r: seq<StorageItem>)
    ensures forall x :: multiset(r)[x] == if x.wine == w.id && !x.deleted then multiset(items)[x] else 0
  {
    Filter(items, (x: StorageItem) => x.wine == w.id && !x.deleted)
  }

  /** `total_stock`: the database's count over the same filter, row by row. */
  function TotalStock(w: Wine, items: seq<StorageItem>): (n: nat)
    ensures n <= |items|
  {
    if items == [] then 0
    else (if items[0].wine == w.id && !items[0].deleted then 1 else 0) + TotalStock(w, items[1..])
  }

  /** The count is the size of the stock list. */
  lemma {:induction false} TotalStockIsStockSize(w: Wine, items: seq<StorageItem>)
    ensures TotalStock(w, items) == |GetStock(w, items)|
  {
    if items != [] {
      TotalStockIsStockSize(w, items[1..]);
    }
  }

  /** A freshly created bottle of the wine adds one to its stock, wherever it is and whatever its placement. */
  lemma NewItemAddsStock(w: Wine, items: seq<StorageItem>, id: nat, storage: nat, user: Option<nat>,
                          row: Option<nat>, column: Option<nat>, price: Option<int>)
    ensures TotalStock(w, items + [NewStorageItem(id, storage, w.id, user, row, column, price)]) == TotalStock(w, items) + 1
  {
    var x := NewStorageItem(id, storage, w.id, user, row, column, price);
    var p := (y: StorageItem) => y.wine == w.id && !y.deleted;
    TotalStockIsStockSize(w, items);
    TotalStockIsStockSize(w, items + [x]);
    FilterAppend(items, [x], p);
  }

  /** Deleted bottles and bottles of other wines never count. */
  lemma {:induction false} StockIgnoresDeletedAndOtherWines(w: Wine, items: seq<StorageItem>)
    requires forall i :: 0 <= i < |items| ==> items[i].deleted || items[i].wine != w.id
    ensures TotalStock(w, items) == 0
  {
    if items != [] {
      StockIgnoresDeletedAndOtherWines(w, items[1..]);
    }
  }

  // ---------------------------------------------------------------------------------------
  // Images
  // ---------------------------------------------------------------------------------------

  /** The URL shown for a photo: its thumbnail when it has one, else the image itself. */
  function Src(img: WineImage): (url: string)
    ensures IsSet(img.thumbnail) ==> url == img.thumbnail.url
    ensures !IsSet(img.thumbnail) ==> url == img.image.url
  {
    if IsSet(img.thumbnail) then img.thumbnail.url else img.image.url
  }

  /** `image`: the first photo's image URL, or the default wine image when there is no photo. */
  function Image(images: seq<WineImage>, cfg: Config): (url: string)
    ensures images == [] ==> url == cfg.defaultWineImage
    ensures images != [] ==> url == images[0].image.url
  {
    if images == [] then cfg.defaultWineImage else images[0].image.url
  }

  /** The position of the first photo of kind `t`. */
  function FirstOfType(images: seq<WineImage>, t: ImageType): (r: Option<nat>)
    ensures r.Some? ==> r.value < |images| && images[r.value].imageType == t
    ensures r.Some? ==> forall j :: 0 <= j < r.value ==> images[j].imageType != t
    ensures r.None? ==> forall j :: 0 <= j < |images| ==> images[j].imageType != t
  {
    if images == [] then None
    else if images[0].imageType == t then Some(0)
    else
      match FirstOfType(images[1..], t)
      case None => None
      case Some(k) => Some(k + 1)
  }

  /** `image_thumbnail`: the first front photo's thumbnail, else its image, else the default wine image. */
  function ImageThumbnail(images: seq<WineImage>, cfg: Config): (url: string)
    ensures (forall j :: 0 <= j < |images| ==> images[j].imageType != Front) ==> url == cfg.defaultWineImage
    ensures forall i :: 0 <= i < |images| && images[i].imageType == Front && (forall j :: 0 <= j < i ==> images[j].imageType != Front) ==>
              url == Src(images[i])
  {
    match FirstOfType(images, Front)
    case None => cfg.defaultWineImage
    case Some(i) => Src(images[i])
  }

  /** The photo of kind `t` that a dictionary keyed by kind keeps: the last one. */
  function LatestOfType(images: seq<WineImage>, t: ImageType): (r: Option<WineImage>)
    ensures r.Some? ==> exists i :: 0 <= i < |images| && images[i] == r.value && r.value.imageType == t &&
                                    forall j :: i < j < |images| ==> images[j].imageType != t
    ensures r.None? ==> forall j :: 0 <= j < |images| ==> images[j].imageType != t
  {
    if images == [] then None
    else if images[|images| - 1].imageType == t then Some(images[|images| - 1])
    else
      var r := LatestOfType(images[..|images| - 1], t);
      assert forall j :: 0 <= j < |images| - 1 ==> images[..|images| - 1][j] == images[j];
      r
  }

  /** What the listing shows for kind `t`: the latest photo's URL, or nothing when there is none. */
  function Shown(images: seq<WineImage>, t: ImageType): (r: seq<string>)
    ensures |r| <= 1
    ensures r == [] <==> forall j :: 0 <= j < |images| ==> images[j].imageType != t
  {
    match LatestOfType(images, t)
    case Some(img) => [Src(img)]
    case None => []
  }

  /** For the kinds in `types`, in that order, what is shown for each. */
  function ThumbnailsFor(types: seq<ImageType>, images: seq<WineImage>): (r: seq<string>)
    ensures |r| <= |types|
  {
    if types == [] then []
    else ThumbnailsFor(types[..|types| - 1], images) + Shown(images, types[|types| - 1])
  }

  /**
   * `image_thumbnails`: index the photos by kind (a later photo replaces an earlier one of the
   * same kind), then list front, back, label front and label back in that order, skipping kinds
   * with no photo.
   */
  method ImageThumbnails(images: seq<WineImage>) returns (result: seq<string>)
    ensures result == ThumbnailsFor(ImageOrder, images)
    ensures |result| <= 4
  {
    var byType: map<ImageType, WineImage> := map[];
    for i := 0 to |images|
      invariant forall t :: Lookup(byType, t) == LatestOfType(images[..i], t)
    {
      assert images[..i + 1][..i] == images[..i];
      byType := byType[images[i].imageType := images[i]];
    }
    assert images[..|images|] == images;
    result := [];
    for k := 0 to |ImageOrder|
      invariant result == ThumbnailsFor(ImageOrder[..k], images)
    {
      assert ImageOrder[..k + 1][..k] == ImageOrder[..k];
      var image := Lookup(byType, ImageOrder[k]);
      if image.Some? {
        result := result + [Src(image.value)];
      }
    }
    assert ImageOrder[..|ImageOrder|] == ImageOrder;
  }

  /** The listing is what is shown for front, back, label front and label back, in that order. */
  lemma ThumbnailsInOrder(images: seq<WineImage>)
    ensures ThumbnailsFor(ImageOrder, images) ==
            Shown(images, Front) + Shown(images, Back) + Shown(images, LabelFront) + Shown(images, LabelBack)
  {
    var order := [Front, Back, LabelFront, LabelBack];
    assert ImageOrder == order;
    assert order[..3] == [Front, Back, LabelFront];
    assert [Front, Back, LabelFront][..2] == [Front, Back];
    assert [Front, Back][..1] == [Front];
    assert [Front][..0] == [];
    calc {
      ThumbnailsFor(order, images);
      ThumbnailsFor([Front, Back, LabelFront], images) + Shown(images, LabelBack);
      ThumbnailsFor([Front, Back], images) + Shown(images, LabelFront) + Shown(images, LabelBack);
      ThumbnailsFor([Front], images) + Shown(images, Back) + Shown(images, LabelFront) + Shown(images, LabelBack);
      Shown(images, Front) + Shown(images, Back) + Shown(images, LabelFront) + Shown(images, LabelBack);
    }
  }

  /**
   * At most one URL per kind, so at most four; none without photos; all four, in order, when
   * every kind has a photo; and a front photo's URL comes first.
   */
  lemma ThumbnailsBounds(images: seq<WineImage>)
    ensures |ThumbnailsFor(ImageOrder, images)| <= 4
    ensures ThumbnailsFor(ImageOrder, images) == [] <==> images == []
    ensures (forall t :: LatestOfType(images, t).Some?) ==>
              ThumbnailsFor(ImageOrder, images) == [Src(LatestOfType(images, Front).value), Src(LatestOfType(images, Back).value),
                                                   Src(LatestOfType(images, LabelFront).value), Src(LatestOfType(images, LabelBack).value)]
    ensures LatestOfType(images, Front).Some? ==> ThumbnailsFor(ImageOrder, images)[0] == Src(LatestOfType(images, Front).value)
  {
    ThumbnailsInOrder(images);
    if images != [] {
      var t := images[0].imageType;
      assert Shown(images, t) != [];
    }
  }

  /**
   * With two front photos, `image_thumbnail` shows the first and `image_thumbnails` the last:
   * the two properties pick different photos of the same kind.
   */
  lemma FrontChoiceDiffers(cfg: Config)
    ensures var a := WineImage(FileRef("a.jpg", "/a.jpg"), FileRef("", ""), Front);
            var b := WineImage(FileRef("b.jpg", "/b.jpg"), FileRef("", ""), Front);
            ImageThumbnail([a, b], cfg) == "/a.jpg" && ThumbnailsFor(ImageOrder, [a, b]) == ["/b.jpg"]
  {
    var a := WineImage(FileRef("a.jpg", "/a.jpg"), FileRef("", ""), Front);
    var b := WineImage(FileRef("b.jpg", "/b.jpg"), FileRef("", ""), Front);
    ThumbnailsInOrder([a, b]);
    assert LatestOfType([a, b], Front) == Some(b);
  }

  // ---------------------------------------------------------------------------------------
  // Category
  // ---------------------------------------------------------------------------------------

  /** Raised by `Category(code)` for a stored code that is not a category. */
  datatype CategoryError = UnknownCategory(code: string)

  /** `get_category`: the label when a category is stored, nothing when it is NULL or empty. */
  function GetCategory(w: Wine): (r: Result<Option<string>, CategoryError>)
    ensures (w.category.None? || w.category == Some("")) ==> r == Ok(None)
    ensures r == Ok(None) ==> w.category.None? || w.category == Some("")
    ensures r.Ok? && r.value.Some? ==> exists c :: w.category == Some(CategoryCode(c)) && r.value.value == CategoryLabel(c)
    ensures r.Err? ==> w.category.Some? && w.category.value != "" && CategoryFromCode(w.category.value).None?
  {
    if w.category.None? || w.category.value == "" then Ok(None)
    else
      match CategoryFromCode(w.category.value)
      case None => Err(UnknownCategory(w.category.value))
      case Some(c) => Ok(Some(CategoryLabel(c)))
  }

  /** A wine whose category was set through the choices shows that category's label. */
  lemma GetCategoryOfChoice(w: Wine, c: Category)
    requires w.category == Some(CategoryCode(c))
    ensures GetCategory(w) == Ok(Some(CategoryLabel(c)))
  {
    CategoryCodeRoundTrip(c);
  }

  // ---------------------------------------------------------------------------------------
  // Prices
  // ---------------------------------------------------------------------------------------

  /** The symbol shown when the currency code has none. */
  const FallbackSymbol: string := "€"

  /**
   * The symbol chosen for a settings record's currency: a missing currency attribute reads as
   * "EUR", and a code without a symbol shows the euro sign.
   */
  function CurrencySymbol(currency: Option<string>, symbols: map<string, string>): (sym: string)
    ensures var code := if currency.Some? then currency.value else DefaultCurrency;
            sym == if code in symbols then symbols[code] else FallbackSymbol
  {
    Lookup(symbols, currency.GetOr(DefaultCurrency)).GetOr(FallbackSymbol)
  }

  /** A formatted amount followed directly by the symbol. */
  function WithSymbol(formatted: string, sym: string): (r: string)
    ensures |r| == |formatted| + |sym| && r[..|formatted|] == formatted && r[|formatted|..] == sym
  {
    formatted + sym
  }

  /**
   * `get_price_with_currency`: look up (or create) the owner's settings, pick the symbol of
   * their currency and append it to the formatted price.
   */
  method GetPriceWithCurrency(table: SettingsTable, w: Wine, formattedPrice: string, cfg: Config) returns (r: string)
    requires table.Valid()
    modifies table
    ensures table.Valid()
    ensures var (records, nextId, s) := GetOrCreate(old(table.records), old(table.nextId), w.user, cfg);
            && table.records == records && table.nextId == nextId
            && r == WithSymbol(formattedPrice, CurrencySymbol(Some(s.currency), cfg.currencySymbols))
  {
    var settings := GetUserSettings(table, w.user, cfg);
    var currency := CurrencySymbol(Some(settings.currency), cfg.currencySymbols);
    r := formattedPrice + currency;
  }

  /** Whether any of the wine's items carries a price: the average over them is not NULL. */
  predicate HasPricedItem(w: Wine, items: seq<StorageItem>)
  {
    exists i :: 0 <= i < |items| && items[i].wine == w.id && items[i].price.Some?
  }

  /** `Avg("price")` skips NULL prices, so it is NULL exactly when the wine has no priced row. */
  lemma HasPricedItemMeansPricedRows(w: Wine, items: seq<StorageItem>)
    ensures HasPricedItem(w, items) <==> Filter(items, (x: StorageItem) => x.wine == w.id && x.price.Some?) != []
  {
    var priced := (x: StorageItem) => x.wine == w.id && x.price.Some?;
    var rows := Filter(items, priced);
    if rows != [] {
      FilterMembership(items, priced, rows[0]);
      var i :| 0 <= i < |items| && items[i] == rows[0];
    } else {
      forall i | 0 <= i < |items| && priced(items[i]) ensures false {
        FilterMembership(items, priced, items[i]);
      }
    }
  }

  /**
   * The display of the average price: nothing when none of the wine's items (deleted ones
   * included) has a price; else the formatted average followed by the symbol.
   */
  function AveragePriceDisplay(w: Wine, items: seq<StorageItem>, formattedAverage: string, sym: string): (r: Option<string>)
    ensures r.None? <==> forall i :: 0 <= i < |items| && items[i].wine == w.id ==> items[i].price.None?
    ensures r.Some? ==> r.value == WithSymbol(formattedAverage, sym)
  {
    if HasPricedItem(w, items) then Some(formattedAverage + sym) else None
  }

  /** `get_average_price_with_currency`: as above, after looking up (or creating) the owner's settings. */
  method GetAveragePriceWithCurrency(table: SettingsTable, w: Wine, items: seq<StorageItem>, formattedAverage: string, cfg: Config)
    returns (r: Option<string>)
    requires table.Valid()
    modifies table
    ensures table.Valid()
    ensures var (records, nextId, s) := GetOrCreate(old(table.records), old(table.nextId), w.user, cfg);
            && table.records == records && table.nextId == nextId
            && r == AveragePriceDisplay(w, items, formattedAverage, CurrencySymbol(Some(s.currency), cfg.currencySymbols))
  {
    var settings := GetUserSettings(table, w.user, cfg);
    var currency := CurrencySymbol(Some(settings.currency), cfg.currencySymbols);
    r := AveragePriceDisplay(w, items, formattedAverage, currency);
  }

  // ---------------------------------------------------------------------------------------
  // Validators
  // ---------------------------------------------------------------------------------------

  /** The value validators attached to the integer fields. */
  datatype Validator = MinValue(limit: int) | MaxValue(limit: int)

  predicate Accepts(v: Validator, x: int)
  {
    match v
    case MinValue(limit) => x >= limit
    case MaxValue(limit) => x <= limit
  }

  /** Whether some validator of `vs` is a minimum of at least `lo`. */
  predicate HasMinAtLeast(vs: seq<Validator>, lo: int)
  {
    exists i :: 0 <= i < |vs| && vs[i].MinValue? && vs[i].limit >= lo
  }

  /**
   * The validators of a positive integer field: the declared ones, followed by the backend's
   * lower bound 0, which is added only when no declared minimum is already as strict.
   */
  function PositiveFieldValidators(declared: seq<Validator>): (vs: seq<Validator>)
    ensures |vs| >= |declared| && vs[..|declared|] == declared
    ensures HasMinAtLeast(vs, 0)
    ensures HasMinAtLeast(declared, 0) ==> vs == declared
  {
    if HasMinAtLeast(declared, 0) then declared
    else
      assert (declared + [MinValue(0)])[|declared|] == MinValue(0);
      declared + [MinValue(0)]
  }

  const RatingValidators: seq<Validator> := PositiveFieldValidators([MinValue(0), MaxValue(10)])
  const VintageValidators: seq<Validator> := PositiveFieldValidators([MinValue(1900)])

  /** The validators a value fails, in order. A NULL value is not validated. */
  function Failures(vs: seq<Validator>, x: Option<int>): (r: seq<Validator>)
    ensures x.None? ==> r == []
    ensures x.Some? ==> (r == [] <==> forall i :: 0 <= i < |vs| ==> Accepts(vs[i], x.value))
  {
    if x.None? then []
    else
      var failed := Filter(vs, (v: Validator) => !Accepts(v, x.value));
      if failed == [] then
        forall i | 0 <= i < |vs| ensures Accepts(vs[i], x.value) {
          assert vs[i] in multiset(vs);
        }
        failed
      else
        assert failed[0] in multiset(failed);
        failed
  }

  /** A rating is accepted exactly when it lies in 0..10. */
  lemma RatingRange(x: int)
    ensures Failures(RatingValidators, Some(x)) == [] <==> 0 <= x <= 10
  {
    assert [MinValue(0), MaxValue(10)][0] == MinValue(0);
    assert RatingValidators == [MinValue(0), MaxValue(10)];
    if !(0 <= x <= 10) {
      assert !Accepts(RatingValidators[if x < 0 then 0 else 1], x);
    }
  }

  /** A vintage is accepted exactly when it is 1900 or later. */
  lemma VintageRange(x: int)
    ensures Failures(VintageValidators, Some(x)) == [] <==> x >= 1900
  {
    assert [MinValue(1900)][0] == MinValue(1900);
    assert VintageValidators == [MinValue(1900)];
    if x < 1900 {
      assert !Accepts(VintageValidators[0], x);
    }
  }

  /** Whatever the declared validators, a positive integer field refuses every negative value. */
  lemma PositiveFieldRefusesNegatives(declared: seq<Validator>, x: int)
    requires x < 0
    ensures Failures(PositiveFieldValidators(declared), Some(x)) != []
  {
    var vs := PositiveFieldValidators(declared);
    var i :| 0 <= i < |vs| && vs[i].MinValue? && vs[i].limit >= 0;
    assert !Accepts(vs[i], x);
  }
}
