/**
 * The entities of the store: catalog products, order lines and orders, the
 * errors a handler can answer with, the five order statuses and the catalog
 * the server starts with.
 */
module Records {

  /** An ISO-8601 timestamp; the clock is outside the model and is passed in. */
  type Timestamp = string

  /** The customer data an order carries through unchanged. */
  type CustomerInfo = map<string, string>

  /** A catalog entry. Prices are whole amounts, as in the seed catalog. */
  datatype Product = Product(
    id: int,
    name: string,
    description: string,
    price: int,
    emoji: string,
    stock: int,
    category: string)

  /** One requested line of a new order: a product id and a quantity. */
  datatype LineRequest = LineRequest(id: int, quantity: int)

  /** A stored order line; name and price are copied from the product at order time. */
  datatype OrderLine = OrderLine(id: int, name: string, price: int, quantity: int, total: int)

  datatype Order = Order(
    id: int,
    items: seq<OrderLine>,
    totalAmount: int,
    customerInfo: CustomerInfo,
    status: string,
    createdAt: Timestamp,
    updatedAt: Timestamp)

  /** Why a handler refused a request. */
  datatype Error =
    | MissingFields                                    // new product without name, description or price
    | ProductNotFound                                  // product id unknown to get/update/delete
    | EmptyOrder                                       // order without items
    | LineProductNotFound(productId: int)              // an order line names an unknown product
    | InsufficientStock(productName: string, available: int)
    | OrderNotFound
    | InvalidStatus
    | EmptyQuery                                       // search without a query

  /** The two classes of failure the HTTP surface distinguishes (400 and 404). */
  datatype ErrorKind = InvalidRequest | NotFound

  function Kind(e: Error): ErrorKind {
    match e
    case ProductNotFound | LineProductNotFound(_) | OrderNotFound => NotFound
    case _ => InvalidRequest
  }

  const Pending: string := "pending"

  /** The statuses an order may be given. */
  const ValidStatuses: seq<string> := ["pending", "confirmed", "shipped", "delivered", "cancelled"]

  /** The catalog the server starts with. */
  function SeedCatalog(): seq<Product> {
    [ Product(1, "هاتف ذكي", "هاتف ذكي بمواصفات عالية وكاميرا متطورة", 1500, "📱", 25, "إلكترونيات"),
      Product(2, "لابتوب", "لابتوب قوي للألعاب والعمل", 3500, "💻", 10, "إلكترونيات"),
      Product(3, "سماعات لاسلكية", "سماعات بلوتوث عالية الجودة", 250, "🎧", 50, "إكسسوارات"),
      Product(4, "ساعة ذكية", "ساعة ذكية لتتبع اللياقة والصحة", 800, "⌚", 15, "إلكترونيات"),
      Product(5, "كاميرا رقمية", "كاميرا احترافية للتصوير", 2200, "📷", 8, "إلكترونيات"),
      Product(6, "تلفزيون ذكي", "تلفزيون 55 بوصة بدقة 4K", 2800, "📺", 5, "إلكترونيات") ]
  }
}
