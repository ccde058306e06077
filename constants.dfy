/** Status values of orders and payments, and the response codes and messages of the API. */
module Constants {

  // Order statuses.
  const OrderStatusPendingPayment: string := "PENDING PAYMENT"
  const OrderStatusPaymentReceived: string := "PAYMENT RECEIVED"
  const OrderStatusProcessed: string := "PROCESSED"
  const OrderStatusFinished: string := "FINISHED"
  const OrderStatusCancelled: string := "CANCELLED"

  // Payment statuses.
  const PaymentStatusPending: string := "PENDING"
  const PaymentStatusReceived: string := "RECEIVED"
  const PaymentStatusCancelled: string := "CANCELLED"
  const PaymentStatusRefunded: string := "REFUNDED"

  /** The `updated_by` value written by stock changes. */
  const System: string := "SYSTEM"

  // Response codes and messages.
  const SuccessCode: string := "00"
  const SuccessMessage: string := "Success"
  const ResourceNotFoundCode: string := "01"
  const ResourceNotFoundMessage: string := "Resource Not Found"
  const AuthFailedCode: string := "02"
  const AuthFailedMessage: string := "Authentication Failed"
  const AccessDeniedCode: string := "03"
  const AccessDeniedMessage: string := "Access Denied"
  const ValidationFailedCode: string := "04"
  const ValidationFailedMessage: string := "Validation failed"
  const ConflictResourceCode: string := "05"
  const ConflictResourceMessage: string := "Conflict Resource"
  const UnexpectedErrorCode: string := "99"
  const UnexpectedErrorMessage: string := "Unexpected Error"
}
