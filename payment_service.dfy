/** Payment confirmation: an order's PENDING payment is marked RECEIVED with the card
    details masked, or the request is acknowledged without change when it says CANCELLED. */
module PaymentService {
  import opened Builtins
  import opened Wrappers
  import opened AppErrors
  import opened Constants
  import opened Entities
  import opened Store
  import opened Masking

  /** `SubmitPaymentRequest`; the card number as the bytes of its text. */
  datatype SubmitPaymentRequest = SubmitPaymentRequest(
    orderReference: string,
    cardHolderName: string,
    cardNumber: seq<byte>,
    status: string)

  datatype PaymentOutcome = PaymentOutcome(err: Option<Error>, db: Db)

  /** The order and payment rows a RECEIVED confirmation writes. */
  function ReceivedOrder(order: Order): Order {
    order.(status := OrderStatusPaymentReceived)
  }

  function ReceivedPayment(payment: Payment, request: SubmitPaymentRequest): Payment {
    payment.(status := PaymentStatusReceived, cardNumber := MaskCard(request.cardNumber),
             cardHolderName := MaskNameSpec(request.cardHolderName))
  }

  /** `SubmitPayment`: the order lookup (its error wrapped once more as ResourceNotFound),
      the status whitelist, then in one transaction the payment lookup and, for RECEIVED,
      the order and payment updates. */
  function SubmitPaymentSpec(db: Db, request: SubmitPaymentRequest): PaymentOutcome {
    if request.orderReference !in db.orders then
      PaymentOutcome(Some(NewError(Some(Fail(RecordNotFound, ResourceNotFound)), ResourceNotFound)), db)
    else if request.status != PaymentStatusReceived && request.status != PaymentStatusCancelled then
      PaymentOutcome(Some(Fail("payment status not recognized", Validation)), db)
    else
      var order := db.orders[request.orderReference];
      if order.orderReference !in db.payments then
        PaymentOutcome(Some(Fail(RecordNotFound, ResourceNotFound)), db)
      else if request.status == PaymentStatusReceived then
        var newOrder := ReceivedOrder(order);
        var newPayment := ReceivedPayment(db.payments[order.orderReference], request);
        PaymentOutcome(None, db.(orders := db.orders[newOrder.orderReference := newOrder],
                                 payments := db.payments[newPayment.orderReference := newPayment]))
      else
        PaymentOutcome(None, db)
  }

  class PaymentService {
    const store: Store

    constructor (store: Store)
      ensures this.store == store
    {
      this.store := store;
    }

    method SubmitPayment(request: SubmitPaymentRequest) returns (err: Option<Error>)
      modifies store
      ensures PaymentOutcome(err, store.Snapshot()) == SubmitPaymentSpec(old(store.Snapshot()), request)
    {
      if request.orderReference !in store.orders {
        return Some(NewError(Some(Fail(RecordNotFound, ResourceNotFound)), ResourceNotFound));
      }
      var order := store.orders[request.orderReference];
      if request.status != PaymentStatusReceived && request.status != PaymentStatusCancelled {
        return Some(Fail("payment status not recognized", Validation));
      }
      if order.orderReference !in store.payments {
        return Some(Fail(RecordNotFound, ResourceNotFound));
      }
      var payment := store.payments[order.orderReference];
      if request.status == PaymentStatusReceived {
        order := order.(status := OrderStatusPaymentReceived);
        var holder := MaskName(request.cardHolderName);
        payment := payment.(status := PaymentStatusReceived, cardNumber := MaskCard(request.cardNumber),
                            cardHolderName := holder);
        store.UpdateOrder(order);
        store.UpdatePayment(payment);
      }
      err := None;
    }
  }

  /** The order is looked up first: a missing order is ResourceNotFound whatever the status
      token says, and nothing changes. */
  lemma SubmitPaymentOrderMissing(db: Db, request: SubmitPaymentRequest)
    requires request.orderReference !in db.orders
    ensures var out := SubmitPaymentSpec(db, request);
            out.err.Some? && Is(out.err.value, ResourceNotFound) && out.db == db
  {
    IsAppError(Some(Fail(RecordNotFound, ResourceNotFound)), ResourceNotFound, ResourceNotFound);
  }

  /** A status other than RECEIVED and CANCELLED is a Validation error and changes nothing. */
  lemma SubmitPaymentRejectsStatus(db: Db, request: SubmitPaymentRequest)
    requires request.orderReference in db.orders
    requires request.status != PaymentStatusReceived && request.status != PaymentStatusCancelled
    ensures var out := SubmitPaymentSpec(db, request);
            out.err.Some? && Is(out.err.value, Validation) && out.db == db
  {
    IsAppError(Some(Plain("payment status not recognized")), Validation, Validation);
  }

  /** An order without payment is ResourceNotFound and nothing changes. */
  lemma SubmitPaymentPaymentMissing(db: Db, request: SubmitPaymentRequest)
    requires WellKeyed(db)
    requires request.orderReference in db.orders && request.orderReference !in db.payments
    requires request.status == PaymentStatusReceived || request.status == PaymentStatusCancelled
    ensures var out := SubmitPaymentSpec(db, request);
            out.err.Some? && Is(out.err.value, ResourceNotFound) && out.db == db
  {
    IsAppError(Some(Plain(RecordNotFound)), ResourceNotFound, ResourceNotFound);
  }

  /** RECEIVED marks the order PAYMENT RECEIVED and the payment RECEIVED with the masked card
      number and holder name, whatever the order's current status; nothing else changes. */
  lemma SubmitPaymentReceived(db: Db, request: SubmitPaymentRequest)
    requires WellKeyed(db)
    requires request.orderReference in db.orders && request.orderReference in db.payments
    requires request.status == PaymentStatusReceived
    ensures var out := SubmitPaymentSpec(db, request);
            var ref := request.orderReference;
            var payment := db.payments[ref];
            out.err.None? &&
            out.db.orders == db.orders[ref := db.orders[ref].(status := OrderStatusPaymentReceived)] &&
            out.db.payments == db.payments[ref := payment.(status := PaymentStatusReceived,
                                                           cardNumber := MaskCard(request.cardNumber),
                                                           cardHolderName := MaskNameSpec(request.cardHolderName))] &&
            out.db.products == db.products && out.db.accounts == db.accounts && out.db.items == db.items
  {
  }

  /** On an ASCII holder name the stored mask is exactly the one `maskName` computes as
      written, byte by byte; the two differ only on names with multibyte characters. */
  lemma SubmitPaymentReceivedAscii(db: Db, request: SubmitPaymentRequest)
    requires WellKeyed(db)
    requires request.orderReference in db.orders && request.orderReference in db.payments
    requires request.status == PaymentStatusReceived
    requires forall i :: 0 <= i < |request.cardHolderName| ==> request.cardHolderName[i] as int < 0x80
    ensures SubmitPaymentSpec(db, request).db.payments[request.orderReference].cardHolderName ==
            MaskNameAsWritten(request.cardHolderName)
  {
    MaskNameAgreesOnAscii(request.cardHolderName);
  }

  /** CANCELLED is acknowledged without touching the order or the payment. */
  lemma SubmitPaymentCancelledKeepsStore(db: Db, request: SubmitPaymentRequest)
    requires request.orderReference in db.orders && request.orderReference in db.payments
    requires WellKeyed(db)
    requires request.status == PaymentStatusCancelled
    ensures SubmitPaymentSpec(db, request) == PaymentOutcome(None, db)
  {
  }

  /** Confirming again with the stored (masked) card details leaves the store as it is: each
      masker is idempotent. */
  lemma ResubmitMaskedDetails(db: Db, request: SubmitPaymentRequest)
    requires WellKeyed(db)
    requires request.orderReference in db.orders && request.orderReference in db.payments
    requires request.status == PaymentStatusReceived
    ensures var db1 := SubmitPaymentSpec(db, request).db;
            var stored := db1.payments[request.orderReference];
            var again := request.(cardNumber := stored.cardNumber, cardHolderName := stored.cardHolderName);
            SubmitPaymentSpec(db1, again).db == db1
  {
    MaskCardIdempotent(request.cardNumber);
    MaskNameIdempotent(request.cardHolderName);
    var db1 := SubmitPaymentSpec(db, request).db;
    var ref := request.orderReference;
    assert db1.orders[ref] == db1.orders[ref].(status := OrderStatusPaymentReceived);
    assert db1.orders == db1.orders[ref := db1.orders[ref]];
    assert db1.payments == db1.payments[ref := db1.payments[ref]];
  }

  /** A payment confirmation keeps every row under its own key. */
  lemma SubmitPaymentKeepsWellKeyed(db: Db, request: SubmitPaymentRequest)
    requires WellKeyed(db)
    ensures WellKeyed(SubmitPaymentSpec(db, request).db)
  {
  }
}
