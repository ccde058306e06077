/** The persisted records. Timestamps (created/updated/deleted at) are not modelled. */
module Entities {
  import opened Builtins

  datatype Product = Product(
    id: int64,
    categoryId: int64,
    name: string,
    description: string,
    stock: int64,
    price: int64,
    imageUrl: string,
    isActive: bool,
    createdBy: string,
    updatedBy: string)

  datatype Account = Account(
    username: string,
    displayName: string,
    email: string,
    loginPassword: string,
    registeredAddress: string,
    isActive: bool,
    createdBy: string,
    updatedBy: string)

  datatype Order = Order(
    orderReference: string,
    accountUsername: string,
    deliveryAddress: string,
    status: string,
    total: int64,
    createdBy: string,
    updatedBy: string)

  datatype OrderItem = OrderItem(
    orderItemReference: string,
    orderReference: string,
    productId: int64,
    priceSnapshot: int64,
    quantity: int64,
    total: int64,
    productNameSnapshot: string,
    productImageUrlSnapshot: string,
    createdBy: string,
    updatedBy: string)

  /** The card number is kept as the bytes of the Go string: masking slices it by byte. */
  datatype Payment = Payment(
    paymentReference: string,
    orderReference: string,
    total: int64,
    cardHolderName: string,
    cardNumber: seq<byte>,
    status: string,
    createdBy: string,
    updatedBy: string)
}
