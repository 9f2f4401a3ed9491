# Wine cellar: storage grid, stock, images and account bootstrap

A Dafny model of the deterministic core of a personal wine-cellar web application. Users keep
wines, place bottles (storage items) on shelves or racks addressed by row and column, and have one
settings record each (language, currency, notifications).

The database tables become Dafny values:

- The storage-item table is one `seq<StorageItem>`. A storage's `items` and a wine's
  `storageitem_set` are filters over it.
- The storage table and the settings table are classes (`StorageTable`, `SettingsTable`), because
  the source inserts rows into them.
- Every read-only query is a function over these values, except `image_thumbnails`. Its two loops
  (building the dictionary, then walking the fixed kind order) are a method, proved equal to a
  function over the photos.

The modules follow the source files:

| module | file | what it holds |
|---|---|---|
| `Common` | | `Option`, `Result`, dictionary `get` (`Lookup`) and queryset `filter` (`Filter`) with its lemmas |
| `Conf` | | the project settings the core reads (`LANGUAGE_CODE`, `LANGUAGES`, `CURRENCIES`, `CURRENCY_SYMBOLS`, the default wine image), passed in as one record |
| `StorageModels` | `storage/models.py` | `Storage`, `StorageItem`, the grid queries, `order_by("row", "column")`, the cascade from a storage to its items |
| `StorageSignals` | `storage/signals.py` | the default storage created for a new user, and the storage table |
| `UserModels` | `user/models.py` | `UserSettings` and its defaults; the settings table with its one-to-one constraint and the cascade on user deletion |
| `UserViews` | `user/views.py` | `get_user_settings`, a get-or-create on that table |
| `WineModels` | `wine/models.py` | stock, image URL choice, category label, price display with currency symbol, rating and vintage validators |
| `WineUtils` | `wine/utils.py` | the upload path, `os.path.splitext` and the thumbnail name, the EXIF orientation-tag search and rotation |

The model keeps the code's quirks:

- `used_slots` counts every item linked to the storage, deleted and unplaced ones included.
- `is_slot_occupied` checks neither the deletion flag nor the grid's bounds.
- A grid with a zero dimension (the default 0 x 0) is always full.
- `image_thumbnail` uses the first front photo, but `image_thumbnails` uses the last photo of each
  kind, because it builds a dictionary keyed by kind (`FrontChoiceDiffers`).
- Only orientation values 3, 6 and 8 rotate the image. The mirrored EXIF orientations 2, 4, 5 and 7
  are left as they are.
- If the EXIF tag table has no entry named "Orientation", the tag-search loop variable keeps the
  last key. If the table is empty, the variable is never bound. When the image then has EXIF data,
  the uncaught `UnboundLocalError` comes out of the model as the `OrientationUnbound` error.

The code has no resize, place, remove or soft-delete operation, no free-slot listing and no
out-of-range or slot-occupied error, so the model has none.

## Model

| member | source | states |
|---|---|---|
| `StorageModels.NewStorageItem` | wine_cellar/apps/storage/models.py:43-49 | a new item is not deleted; its storage, wine, row, column (each possibly absent) and price are the given ones |
| `StorageModels.ItemsOf` | wine_cellar/apps/storage/models.py:44 | `storage.items` holds exactly the rows whose foreign key is the storage, each as often as in the table |
| `StorageModels.Live` | wine_cellar/apps/storage/models.py:40 | `filter(deleted=False)` keeps exactly the rows not flagged deleted, with their multiplicity |
| `StorageModels.TotalSlots` | wine_cellar/apps/storage/models.py:23-25 | the slot count is 0 exactly when a dimension is 0, and otherwise at least each dimension |
| `StorageModels.UsedSlots` | wine_cellar/apps/storage/models.py:27-29 | the used-slot count never exceeds the size of the item table |
| `StorageModels.UsedSlotsZeroIffNoItems` | wine_cellar/apps/storage/models.py:27-29 | `used_slots` is 0 exactly when no row points at the storage |
| `StorageModels.UsedSlotsCountsDeleted` | wine_cellar/apps/storage/models.py:27-29 | `used_slots` is the number of live plus the number of deleted items of the storage |
| `StorageModels.UsedSlotsIgnoresPlacementAndDeletion` | wine_cellar/apps/storage/models.py:27-29 | changing any item's placement or deletion flag, but not its storage, leaves `used_slots` unchanged |
| `StorageModels.IsFull` | wine_cellar/apps/storage/models.py:31-33 | a grid with no slots is full, and a full grid has at least as many item rows as slots |
| `StorageModels.DegenerateGridIsFull` | wine_cellar/apps/storage/models.py:31-33 | a grid with no rows or no columns is full for every item table, the empty one included |
| `StorageModels.FullStaysFull` | wine_cellar/apps/storage/models.py:31-33 | adding an item row never makes a full grid stop being full |
| `StorageModels.IsSlotOccupied` | wine_cellar/apps/storage/models.py:35-36 | an occupied slot means the storage has at least one used slot |
| `StorageModels.IsSlotOccupiedMeaning` | wine_cellar/apps/storage/models.py:35-36 | `is_slot_occupied(r, c)` holds exactly when some row of the storage has row r and column c |
| `StorageModels.IsSlotOccupiedNoDeletedFilterNoBounds` | wine_cellar/apps/storage/models.py:35-36 | a deleted item still occupies its slot, whatever the grid's dimensions |
| `StorageModels.UnplacedItemsOccupyNoSlot` | wine_cellar/apps/storage/models.py:46-47 | items with no row or no column never occupy a slot with integer coordinates |
| `StorageModels.UsedSlotsCanExceedTotal` | wine_cellar/apps/storage/models.py:23-36 | on a 0 x 0 grid, one deleted item at (5, 5) gives one used slot, more than the grid's zero, and still occupies (5, 5) |
| `StorageModels.SortByPlacement` | wine_cellar/apps/storage/models.py:40 | ordering by (row, column) is a permutation of its input and sorted, rows first, NULL first |
| `StorageModels.GetWines` | wine_cellar/apps/storage/models.py:38-40 | `get_wines` holds exactly the non-deleted items of the storage, each as often as in the table, sorted by (row, column) |
| `StorageModels.GetWinesWithinUsedSlots` | wine_cellar/apps/storage/models.py:29-40 | `get_wines` is never longer than `used_slots` |
| `StorageModels.GetWinesPlacedRowMajor` | wine_cellar/apps/storage/models.py:40 | any two placed items of `get_wines` come in row-major order |
| `StorageModels.NewItemIsCounted` | wine_cellar/apps/storage/models.py:27-49 | creating an item in the storage raises `used_slots` by one and puts the item in `get_wines` |
| `StorageModels.DeleteStorageItems` | wine_cellar/apps/storage/models.py:44 | deleting a storage drops exactly its items and keeps every other row with its multiplicity |
| `StorageModels.DeleteStorageCascades` | wine_cellar/apps/storage/models.py:44 | after the cascade the storage has no items, and every other storage has exactly the items it had, in order |
| `StorageSignals.DefaultStorage` | wine_cellar/apps/storage/signals.py:18-25 | the created storage belongs to the user, is named "Default Shelf", has location "Cellar" and the fixed description, and has 0 slots |
| `StorageSignals.StorageTable.CreateStorage` | wine_cellar/apps/storage/signals.py:17-25 | a newly created user gets exactly one default storage appended; a re-save changes nothing; existing rows are untouched |
| `StorageSignals.CreateStorageAddsOne` | wine_cellar/apps/storage/signals.py:18-25 | the insert leaves old rows as they were, adds one storage for the user, and its key is unique |
| `StorageSignals.DefaultStorageIsFull` | wine_cellar/apps/storage/signals.py:23-24 | the default storage is full for every item table, and lists no wines while no item row points at it |
| `UserModels.DefaultSettings` | wine_cellar/apps/user/models.py:14-29 | a new settings record has language `LANGUAGE_CODE`, currency "EUR" and notifications on; both are among their choices when the configuration lists them (`Conf.WellFormed`, assumed) |
| `UserModels.SettingsLabel` | wine_cellar/apps/user/models.py:35-36 | the label is "Settings for " followed by the user |
| `UserModels.SettingsTable.Find` | wine_cellar/apps/user/views.py:34 | the lookup finds a row exactly when the user has one, and that row is the user's |
| `UserModels.SettingsTable.Insert` | wine_cellar/apps/user/models.py:8-13 | inserting for a user who has a row fails and changes nothing; otherwise it adds the default row under a fresh key |
| `UserModels.SettingsTable.DeleteUser` | wine_cellar/apps/user/models.py:8-13 | deleting a user removes that user's row and no other |
| `UserViews.GetOrCreate` | wine_cellar/apps/user/views.py:32-35 | returns the existing row unchanged, or inserts and returns the default row; afterwards the user has a row, and other users' rows are untouched |
| `UserViews.GetUserSettings` | wine_cellar/apps/user/views.py:32-35 | the method's new table and result are those of `GetOrCreate`, and it keeps the table's invariant |
| `UserViews.GetOrCreateIdempotent` | wine_cellar/apps/user/views.py:34 | a second call returns the same row and changes nothing |
| `UserViews.GetOrCreateLeavesOneRow` | wine_cellar/apps/user/views.py:32-35 | afterwards the users with a row are the earlier ones plus this user, and the table grew by at most one row |
| `UserViews.CreatedSettingsHaveValidChoices` | wine_cellar/apps/user/models.py:14-29 | assuming the configuration lists `LANGUAGE_CODE` and "EUR" among its choices (`Conf.WellFormed`), a created row's language and currency are valid choices; notifications are on |
| `WineModels.CategoryCode` | wine_cellar/apps/wine/models.py:50-55 | every category is stored as a two-letter code |
| `WineModels.CategoryLabel` | wine_cellar/apps/wine/models.py:50-55 | every category has a non-empty label |
| `WineModels.CategoryFromCode` | wine_cellar/apps/wine/models.py:50-55 | a code maps only to the category that has it |
| `WineModels.CategoryCodeRoundTrip` | wine_cellar/apps/wine/models.py:50-55 | each category is found again from its stored code |
| `WineModels.GetCategory` | wine_cellar/apps/wine/models.py:260-263 | a NULL or empty category gives nothing (and only those do); a known code gives its label; an unknown code raises |
| `WineModels.GetCategoryOfChoice` | wine_cellar/apps/wine/models.py:260-263 | a category set from the choices shows that category's label |
| `WineModels.GetStock` | wine_cellar/apps/wine/models.py:269-271 | `get_stock` holds exactly the wine's non-deleted items, with their multiplicity |
| `WineModels.TotalStock` | wine_cellar/apps/wine/models.py:265-267 | the stock count never exceeds the table size |
| `WineModels.TotalStockIsStockSize` | wine_cellar/apps/wine/models.py:265-271 | `total_stock` equals the length of `get_stock` |
| `WineModels.NewItemAddsStock` | wine_cellar/apps/wine/models.py:265-267 | a newly created bottle of the wine adds one to its stock, even when unplaced |
| `WineModels.StockIgnoresDeletedAndOtherWines` | wine_cellar/apps/wine/models.py:265-267 | deleted bottles and other wines' bottles never count |
| `WineModels.Src` | wine_cellar/apps/wine/models.py:304 | a photo shows its thumbnail URL when it has a thumbnail, else its image URL |
| `WineModels.Image` | wine_cellar/apps/wine/models.py:273-278 | `image` is the default wine image when there is no photo, else the first photo's image URL |
| `WineModels.FirstOfType` | wine_cellar/apps/wine/models.py:282-285 | finds the first photo of a kind, or reports that there is none |
| `WineModels.ImageThumbnail` | wine_cellar/apps/wine/models.py:280-289 | with no front photo this is the default image; otherwise it is the first front photo's thumbnail, falling back to its image |
| `WineModels.LatestOfType` | wine_cellar/apps/wine/models.py:293 | the dictionary keeps, per kind, the last photo of that kind, or none |
| `WineModels.Shown` | wine_cellar/apps/wine/models.py:302-305 | a kind yields at most one URL, and none exactly when it has no photo |
| `WineModels.ImageThumbnails` | wine_cellar/apps/wine/models.py:291-306 | the two loops compute `ThumbnailsFor` over the fixed kind order, so the list has at most four entries |
| `WineModels.ThumbnailsFor` | wine_cellar/apps/wine/models.py:301-305 | walking a list of kinds yields at most one URL per kind |
| `WineModels.ThumbnailsInOrder` | wine_cellar/apps/wine/models.py:294-306 | the list is front, back, label front and label back, in that order, each present kind once |
| `WineModels.ThumbnailsBounds` | wine_cellar/apps/wine/models.py:291-306 | at most four URLs; none exactly when there are no photos; all four in order when every kind has a photo; the front URL first |
| `WineModels.FrontChoiceDiffers` | wine_cellar/apps/wine/models.py:280-293 | with two front photos, `image_thumbnail` shows the first and `image_thumbnails` the second |
| `WineModels.CurrencySymbol` | wine_cellar/apps/wine/models.py:229-232 | a missing currency reads as "EUR"; a code without a symbol shows "€" |
| `WineModels.WithSymbol` | wine_cellar/apps/wine/models.py:233-234 | the display is the formatted amount followed directly by the symbol |
| `WineModels.GetPriceWithCurrency` | wine_cellar/apps/wine/models.py:227-234 | the display uses the symbol of the owner's currency, and the settings table changes as `get_user_settings` changes it |
| `WineModels.HasPricedItemMeansPricedRows` | wine_cellar/apps/wine/models.py:242-246 | the average is non-NULL exactly when the wine's rows with a non-NULL price, over which `Avg` runs, are not empty |
| `WineModels.AveragePriceDisplay` | wine_cellar/apps/wine/models.py:242-250 | the average display is absent exactly when none of the wine's items (deleted included) has a price |
| `WineModels.GetAveragePriceWithCurrency` | wine_cellar/apps/wine/models.py:236-250 | the average display after get-or-create of the owner's settings |
| `WineModels.Failures` | wine_cellar/apps/wine/models.py:185-197 | a NULL value is not validated; otherwise no validator fails exactly when every validator accepts |
| `WineModels.PositiveFieldValidators` | wine_cellar/apps/wine/models.py:185-197 | a positive integer field runs its declared validators first, then a lower bound of 0 unless a declared minimum is at least 0, so some minimum of at least 0 always applies |
| `WineModels.PositiveFieldRefusesNegatives` | wine_cellar/apps/wine/models.py:185-197 | whatever its declared validators, a positive integer field refuses every negative value |
| `WineModels.RatingRange` | wine_cellar/apps/wine/models.py:193-197 | with the declared validators and the field's own range check, a rating is accepted exactly when it is in 0..10 |
| `WineModels.VintageRange` | wine_cellar/apps/wine/models.py:185-190 | with the declared validator and the field's own range check, a vintage is accepted exactly when it is at least 1900 |
| `WineUtils.DecimalRoundTrip` | wine_cellar/apps/wine/utils.py:13 | the decimal form of a primary key reads back as the same number |
| `WineUtils.UserDirectoryPath` | wine_cellar/apps/wine/utils.py:11-13 | the path fails exactly when the image has no user; otherwise it starts with `user_` and ends with the file name |
| `WineUtils.UploadPathRoundTrip` | wine_cellar/apps/wine/utils.py:11-13 | the upload path reads back as the owner's key and the file name, so different owners or names give different paths |
| `WineUtils.SplitExt` | wine_cellar/apps/wine/utils.py:46 | `os.path.splitext` cuts the path in two: base followed by ext is the path, and ext is empty or starts with a dot |
| `WineUtils.SplitExtShape` | wine_cellar/apps/wine/utils.py:46 | base followed by ext is the path; ext is empty, or one leading dot with no other dot and no "/"; a non-empty ext follows a base with a non-dot character |
| `WineUtils.ThumbnailName` | wine_cellar/apps/wine/utils.py:46-47 | the thumbnail name is six characters (`_thumb`) longer than the image path |
| `WineUtils.ThumbnailNameWithoutExtension` | wine_cellar/apps/wine/utils.py:46-47 | for a path with no extension, the thumbnail name has none either |
| `WineUtils.ThumbnailNameWithExtension` | wine_cellar/apps/wine/utils.py:46-47 | for a path with an extension, the thumbnail name splits into base plus `_thumb` and the same extension |
| `WineUtils.ThumbnailKeepsExtension` | wine_cellar/apps/wine/utils.py:46-47 | the thumbnail name keeps the extension, its base gains `_thumb`, and it is six characters longer, so it never equals the image path |
| `WineUtils.FirstNamed` | wine_cellar/apps/wine/utils.py:26-28 | finds the first tag-table entry with the name, or reports that there is none |
| `WineUtils.FindOrientationTag` | wine_cellar/apps/wine/utils.py:26-28 | the loop stops at the first key named "Orientation"; with none it ends on the last key; with an empty table it binds nothing |
| `WineUtils.RotationFor` | wine_cellar/apps/wine/utils.py:31-37 | the angle is a multiple of 90 below 360, and is 0 except for values 3, 6 and 8 |
| `WineUtils.RotationMatchesExif` | wine_cellar/apps/wine/utils.py:29-37 | for the EXIF values 1, 3, 6 and 8, the counter-clockwise angle equals the standard's clockwise correction |
| `WineUtils.OrientationAngle` | wine_cellar/apps/wine/utils.py:25-40 | no EXIF support, missing or empty EXIF, or an unknown value: no rotation; otherwise the value under the found key decides the angle; an unbound tag fails |
| `WineUtils.MakeThumbnail` | wine_cellar/apps/wine/utils.py:16-51 | fails only through the unbound tag; otherwise returns the thumbnail name, which differs from the image path and keeps its extension, at the given height (225 by default), with the rotation `OrientationAngle` gives: 0 without EXIF support or with missing or empty EXIF data, else the angle for the value under the found (or last) tag key |

## Left out

- `StorageModels.GetWines`: the database decides where NULL rows and columns go. The model puts
  them first, as SQLite and MySQL do; PostgreSQL puts them last. Its ordering contract is therefore
  stated for that one convention.
- `StorageModels.SortByPlacement`: the order of items with equal (row, column) is the database's
  choice. The model fixes one order and promises only sortedness and permutation.
- `WineModels.AveragePriceDisplay`: the Decimal average, its `quantize` to two places and
  `number_format` are library calls. The formatted average is a parameter, and only the NULL case
  and the appended symbol are modelled.
- `WineModels.GetPriceWithCurrency`: `number_format` of the price is a parameter and is not modelled.
- `WineModels.PositiveFieldValidators`: a positive integer field also has an upper bound that
  depends on the database backend, added the same way as the lower bound. Only the lower bound 0
  is modelled.
- `WineModels.Src` and `WineModels.Image`: reading `.url` of a file field whose name is empty
  raises `ValueError`. The photo's image field is required, so the model assumes it is set and
  returns its URL. `ImageThumbnail` and `ImageThumbnails` inherit this through `Src`.
- `UserViews.CreatedSettingsHaveValidChoices` and `UserModels.DefaultSettings`: that the defaults
  are among their choices is a property of the configuration (`Conf.WellFormed`). The application
  does not check it, so the model assumes it rather than proving it. Only "notifications are on"
  follows from the code alone.
- `WineModels.Wine`: the wine's owner can be NULL. `get_user_settings` with no user would fail in
  the database, and that case is not modelled: the owner is always a user key.
- `WineModels.Image` and `WineModels.ImageThumbnail`: `first()` on an unordered queryset orders by
  primary key, and iterating all photos uses the database's order. The model takes the photos in
  primary-key order for all three image properties.
- `WineModels.CategoryLabel`: labels are translated with `gettext_lazy`. The model uses the
  untranslated English labels.
- URLs from `static(...)`, `reverse(...)` and file storage are opaque strings. The default wine
  image is a configuration value.
- Pixel work in `make_thumbnail` is not modelled: opening the file, `rotate`, the floating-point
  aspect ratio and width, the LANCZOS resize, saving, and `os.path.join` with the media root. EXIF
  values are modelled as integers.
- `WineUtils.OrientationAngle`: `KeyError` and `IndexError` are listed in the `except` clause, but
  none of the modelled steps can raise them. The only caught failure modelled is the missing
  `_getexif` (an `AttributeError`).
- The settings module that defines `LANGUAGE_CODE`, `LANGUAGES`, `CURRENCIES`, `CURRENCY_SYMBOLS`
  and `DEFAULT_WINE_IMAGE` is not part of this model, so these values are parameters (`Conf.Config`).
- `UserSettingsView` is not modelled: `form_valid` (activating the translation, setting the
  language cookie) is HTTP and localisation, and `get_object` only calls `get_user_settings`.
- The admin registration, the signup adapter and the deployment settings modules are configuration,
  not logic, and are not modelled.
- The signal wiring (`@receiver(post_save, ...)`) is not modelled. Only the handler's effect is
  modelled, with `created` as a parameter.
- `created`/`modified` timestamps are not modelled.
- The other wine-catalogue records and their string forms (sizes, grapes, vineyards, pycountry
  names and flags) are outside this core and are not modelled.
- Concurrency and transactions are not modelled: each operation is one atomic step.
