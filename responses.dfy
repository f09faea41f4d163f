/** The error codes the handlers answer with, and the HTTP status each is sent with. */
module Responses {

  datatype ErrorCode =
    // order management
    | NoProductsInCart
    | ProductUnsatisfiable
    | OrderNotFound
    | OrderNotOwned
    | PaymentAlreadyAdded
    | IdMissing
    // cart management
    | NoProductFound
    | YouAreUnauthorized
    // products
    | NoIdSupplied
    | NoObjectFound
    | InvalidProduct
    | InvalidCategory
    // accounts
    | AccountAlreadyRegistered
    | EmailAlreadyVerified
    | IneligibleTooSoon
    | UserIdInvalid
    | TokenIdInvalid
    | EmailNotVerified
    | RequestedLessThanOneHourAgo
    | TokenNotFound
    | InvalidSecret
    // the admin gate
    | AdminOnly
    // the handler throws (a null document dereferenced, a length mismatch in a
    // constant-time comparison, a rejected insert): its promise rejects, nothing
    // catches it, and the request is never answered
    | HandlerThrew

  /** The status code of the response carrying each error; a thrown handler sends
      no response, so it has none. */
  function HttpStatus(e: ErrorCode): int
    requires e != HandlerThrew
  {
    match e
    case YouAreUnauthorized => 401
    case NoIdSupplied => 400
    case NoObjectFound => 404
    case AdminOnly => 403
    case _ => 200
  }
}
