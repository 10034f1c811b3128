/**
 * Rows of the bakery's relational store, the shape of one order line as the
 * client keeps it and posts it, and the small failure-carrying wrappers the
 * rest of the model uses.
 *
 * Money is exact (`real`); quantities and stock are unbounded integers, since
 * neither the client nor the server bounds them.
 */
module Tables {

  datatype Option<T> = None | Some(value: T)

  datatype Result<T, E> = Ok(value: T) | Err(error: E)

  /** A row of `producto`. */
  datatype Product = Product(
    id: int,
    name: string,
    description: string,
    price: real,
    stock: int,
    category: string,
    active: bool)

  /** A row of `cliente`; `discount` is `descuento_actual`, a percentage. */
  datatype Customer = Customer(
    id: int,
    name: string,
    phone: string,
    email: string,
    discount: real,
    active: bool)

  /** A row of `usuario`; the password is stored already hashed. */
  datatype User = User(
    id: int,
    name: string,
    email: string,
    passwordHash: string,
    role: string)

  /** A row of `pedido`: the order header. */
  datatype Order = Order(
    id: int,
    customerId: int,
    total: real,
    discount: real,
    finalTotal: real,
    notes: string)

  /** A row of `detalle_pedido`: one line of an order, with its price snapshot. */
  datatype Detail = Detail(
    orderId: int,
    productId: int,
    productName: string,
    quantity: int,
    unitPrice: real,
    subtotal: real)

  /**
   * One order line: an element of the client's cart and, unchanged, an
   * element of the `productos` array posted to the server
   * (`id_producto`, `nombre`, `precio_unitario`, `cantidad`).
   */
  datatype Line = Line(productId: int, name: string, unitPrice: real, quantity: int)

  /** The whole persistent store, one sequence of rows per table. */
  datatype Store = Store(
    users: seq<User>,
    products: seq<Product>,
    customers: seq<Customer>,
    orders: seq<Order>,
    details: seq<Detail>)

  function ProductName(p: Product): string { p.name }

  function CustomerName(c: Customer): string { c.name }
}
