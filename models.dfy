/** The storefront's records. Money is held in integer cents and star ratings in
    integer tenths of a star; timestamps are integers. Statuses and roles are the
    strings the application compares against. */
module Models {
  import opened Wrappers

  /** A catalogue product. */
  datatype Product = Product(
    id: int,
    name: string,
    description: string,
    price: int,       // cents
    image: string,
    category: string,
    rating: int,      // tenths of a star: 45 is 4.5 stars
    stock: int)

  /** A cart line: a copy of the product as it was added and how many of it. */
  datatype CartItem = CartItem(product: Product, quantity: int)

  /** An order as the admin order view reads it; the buyer fields may be absent. */
  datatype Order = Order(
    id: int,
    orderNumber: string,
    email: Option<string>,
    firstName: Option<string>,
    lastName: Option<string>,
    total: int,       // cents
    status: string)

  const PENDING := "pending"
  const PROCESSING := "processing"
  const SHIPPED := "shipped"
  const DELIVERED := "delivered"
  const CANCELLED := "cancelled"

  /** An account as the user directory holds it. */
  datatype AdminUser = AdminUser(
    id: int,
    email: string,
    firstName: string,
    lastName: string,
    role: string,
    status: string,
    registeredAt: int,
    orderCount: int,
    totalSpent: int)  // cents

  const ADMIN := "admin"
  const USER := "user"
  const ACTIVE := "active"
  const SUSPENDED := "suspended"

  /** The authenticated session identity; only its id and role are read by this core. */
  datatype User = User(id: int, email: string, role: string)

  /** A saved checkout profile, keyed by its owner's id. */
  datatype UserProfile = UserProfile(
    userId: int,
    firstName: string,
    lastName: string,
    email: string,
    shippingAddress: string,
    shippingCity: string,
    shippingState: string,
    shippingZip: string,
    cardName: string,
    cardNumber: string,
    cardExpiry: string,
    cardCvv: string)

  /** The error value a service call settles with, as `{ status: 404, error: 'User not found' }`. */
  datatype ServiceError = ServiceError(status: int, message: string)
}
