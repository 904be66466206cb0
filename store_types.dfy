/**
 * The records the server and the client exchange: the item row, the
 * arguments of a partial update and an uploaded file's description.
 */
module StoreTypes {
  import opened Wrappers

  /**
   * One row of the items table. The price is in integer cents; createdAt is
   * the clock reading the store took when the row was inserted.
   */
  datatype StoreItem = StoreItem(
    id: int,
    name: string,
    price: int,
    imagePath: Option<string>,
    soundFile: Option<string>,
    createdAt: int)

  /** A JavaScript number handed to the store as a price: NaN, or an amount in cents. */
  datatype PriceArg = NotANumber | Cents(cents: int)

  /** The optional arguments of a partial update; None stands for `undefined`. */
  datatype ItemPatch = ItemPatch(
    name: Option<string>,
    price: Option<PriceArg>,
    imagePath: Option<string>,
    soundFile: Option<string>)

  predicate SuppliesNothing(p: ItemPatch) {
    p.name.None? && p.price.None? && p.imagePath.None? && p.soundFile.None?
  }

  /** A file as the browser and multer describe it; its bytes are not modelled. */
  datatype UploadFile = UploadFile(originalName: string, mimeType: string, size: nat)

  /** JavaScript truthiness of an optional string: present and not empty. */
  predicate IsTruthy(s: Option<string>) {
    s.Some? && s.value != ""
  }
}
