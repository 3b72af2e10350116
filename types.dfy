/** The two record types of the storefront: a catalog product and a cart line. */
module Types {

  datatype Option<+T> = None | Some(value: T)

  /** A catalog entry. Prices are whole amounts (see README on floating point). */
  datatype Product = Product(id: string, name: string, price: int, category: string, image: string)

  /** A cart line: every field of a Product plus the quantity ordered. */
  datatype CartItem = CartItem(id: string, name: string, price: int, category: string, image: string, quantity: int)
}
