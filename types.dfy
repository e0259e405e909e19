/**
 * The storefront's records. Product, User, Category, CartItem, Order and
 * OrderItem follow the shared front-end types; BackendOrder and
 * BackendOrderItem are the JSON shape the order API returns and the admin
 * order page consumes.
 *
 * All money amounts are integers in millimes (1 TND = 1000 millimes).
 * Timestamps the back end sorts by are integers (milliseconds); timestamps
 * that are only copied around stay strings.
 */
module Types {

  /** A value that may be absent (`undefined`/`null` in the source). */
  datatype Option<+T> = None | Some(value: T)

  /** The outcome of an awaited request: its body, or a rejection. */
  datatype Response<+T> = Success(body: T) | Failure

  /** Number of millimes in one dinar. */
  const Millimes: int := 1000

  datatype Role = Customer | Admin | SuperAdmin

  /** The wire spelling of a role. */
  function RoleName(r: Role): string
  {
    match r
    case Customer => "customer"
    case Admin => "admin"
    case SuperAdmin => "super_admin"
  }

  datatype User = User(
    id: string,
    email: string,
    full_name: string,
    role: Role,
    created_at: string)

  datatype Category = Category(id: string, name: string, image_url: string, created_at: string)

  datatype Gender = Homme | Femme | Unisexe

  /**
   * A catalogue product. `gender` is optional because products mapped from
   * the admin API never carry one; `category` is optional as in the type.
   */
  datatype Product = Product(
    id: string,
    name: string,
    description: string,
    price: int,
    category_id: string,
    category: Option<Category>,
    images: seq<string>,
    sizes: seq<string>,
    colors: seq<string>,
    gender: Option<Gender>,
    stock_quantity: int,
    is_featured: bool,
    created_at: string)

  datatype CartItem = CartItem(
    id: string,
    product_id: string,
    product: Product,
    size: string,
    color: string,
    quantity: int)

  datatype OrderStatus = Pending | Confirmed | Shipped | Delivered | Cancelled

  datatype OrderItem = OrderItem(
    id: string,
    order_id: string,
    product_id: string,
    product: Product,
    size: string,
    color: string,
    quantity: int,
    price: int)

  datatype Order = Order(
    id: string,
    user_id: string,
    user: Option<User>,
    items: seq<OrderItem>,
    total_amount: int,
    status: OrderStatus,
    shipping_address: string,
    phone: string,
    created_at: string)

  /** One line of a stored order, as the order API returns it. */
  datatype BackendOrderItem = BackendOrderItem(
    product_id: string,
    name: string,
    size: string,
    color: string,
    quantity: int,
    price: int)

  /**
   * A stored order as the order API returns it. `orderId` is the document's
   * `_id`; `status` is kept as the raw string so that values outside
   * 'pending' | 'approved' | 'rejected' can be represented.
   */
  datatype BackendOrder = BackendOrder(
    orderId: string,
    user_email: string,
    user_full_name: string,
    items: seq<BackendOrderItem>,
    total_amount: int,
    status: string,
    shipping_address: string,
    phone: string,
    createdAt: int)

  /**
   * One call into the cart context: `addToCart(product, size, color, quantity)`.
   * Size and colour are optional because the quick-add handlers pass
   * `sizes[0]` / `colors[0]`, which is `undefined` for an empty list.
   */
  datatype CartRequest = CartRequest(
    product: Product,
    size: Option<string>,
    color: Option<string>,
    quantity: int)

  /** One call into the favourites context. */
  datatype FavoriteCall = AddToFavorites(product: Product) | RemoveFromFavorites(productId: string)
}
