/** The responses the handlers send and the verdict of a middleware guard. */
module Http {
  import opened OrderSchema

  datatype Response =
    | Created(orderId: OrderId)                 // 200 {success: true, orderId}
    | OrderList(orders: seq<Order>)             // 200, the orders as a JSON array
    | AdminPage(orders: seq<Order>)             // 200, the admin view rendered over the orders
    | JsonError(status: nat, error: string)     // {error: ...} with that status
    | Text(status: nat, body: string)           // a plain body with that status
    | Redirect(location: string)                // 302 to that path
    | Uncaught                                  // Express's default error handler: 500

  /** A middleware either passes the request on (`next()`) or answers it. */
  datatype Gate = Next | Halt(response: Response)

  const LoginPath := "/login"
  const AdminPath := "/admin"
  const LoginRequired := JsonError(401, "Login required")
  const ServerError := JsonError(500, "server error")
  const AdminOnly := Text(403, "Restricted \U{2014} admin access only")
  const OrderNotFound := Text(404, "Order not found")
}
