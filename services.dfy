/** The two outside services the controllers call: the payment gateway and
    mail. The gateway's HTTP exchange is an oracle passed in by the caller;
    what the service itself decides before and after that exchange is
    modelled. Mail is only the message a request tries to send. */
module Services {
  import opened Common
  import opened Store

  /** `PaymentRequest`: the amount to charge and the order it pays for. */
  datatype PaymentRequest = PaymentRequest(amount: int, orderId: int)

  /** What the gateway answers: a payment with its id and the confirmation
      URL to send the buyer to, or a refusal. */
  datatype PaymentReply = Created(paymentId: string, confirmationUrl: string) | Failed

  /** `CreatePayment`: an amount that is not positive is refused before the
      gateway is asked (`ArgumentException`); a reply without a payment id
      or without a confirmation URL is refused too (`InvalidOperationException`).
      Every refusal surfaces as `Failed`. */
  function CreatePayment(gateway: PaymentRequest -> PaymentReply, request: PaymentRequest): (r: PaymentReply)
    ensures request.amount <= 0 ==> r == Failed
    ensures r.Created? <==>
              && request.amount > 0 && gateway(request).Created?
              && gateway(request).paymentId != "" && gateway(request).confirmationUrl != ""
    ensures r.Created? ==> r == gateway(request)
  {
    if request.amount <= 0 then Failed
    else
      match gateway(request)
      case Created(id, url) => if id != "" && url != "" then Created(id, url) else Failed
      case Failed => Failed
  }

  /** The messages the store mails out, reduced to what they carry. */
  datatype Mail =
    | PendingPayment(to: string, orderId: int, amount: int, paymentUrl: string)
    | PaymentSucceeded(to: string, orderId: int, lines: seq<OrderLine>)
    | PaymentCancelled(to: string, orderId: int)
    | VerificationMail(to: string, code: string)
}
