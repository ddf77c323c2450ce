/** Payment verification: the gateway signs `orderId|paymentId` with the shared
    secret (hex HMAC-SHA256); the handler recomputes that signature and
    compares. The HMAC is a parameter: `hmacHex(secret, message)`. */
module Payment {
  import opened Common
  import Strings

  /** The sentinel signature the handler accepts without computing anything. */
  const BypassSignature := "signature_test_dummy"

  /** What the gateway returns after a completed payment. */
  datatype PaymentProof = PaymentProof(orderId: string, paymentId: string, signature: string)

  /** The signed message: the order id and the payment id joined by '|'. */
  function SignedMessage(orderId: string, paymentId: string): (m: string)
    ensures |m| == |orderId| + 1 + |paymentId|
    ensures m[..|orderId|] == orderId && m[|orderId|] == '|' && m[|orderId| + 1..] == paymentId
  {
    orderId + "|" + paymentId
  }

  /** The handler's verdict: 200 "Payment Verified Successfully!" when the signature
      is the expected HMAC or the sentinel, otherwise 400. Nothing else happens
      either way: no appointment is created here. */
  function VerifyPayment(hmacHex: (string, string) -> string, secret: string, proof: PaymentProof): (r: Result<string>)
    ensures proof.signature != BypassSignature ==>
              (r.Ok? <==> proof.signature == hmacHex(secret, SignedMessage(proof.orderId, proof.paymentId)))
    ensures proof.signature == BypassSignature ==> r.Ok?
    ensures r.Ok? ==> r.value == "Payment Verified Successfully!"
    ensures r.Err? ==> r.error == HttpError(400, "Payment Verification Failed!")
  {
    var expected := hmacHex(secret, SignedMessage(proof.orderId, proof.paymentId));
    if expected == proof.signature || proof.signature == BypassSignature then
      Ok("Payment Verified Successfully!")
    else
      Err(HttpError(400, "Payment Verification Failed!"))
  }

  /** For given ids, at most one signature besides the sentinel is accepted: any
      altered signature is rejected unless it happens to be the sentinel. */
  lemma OneSignaturePerPayment(hmacHex: (string, string) -> string, secret: string,
                               orderId: string, paymentId: string, s1: string, s2: string)
    requires VerifyPayment(hmacHex, secret, PaymentProof(orderId, paymentId, s1)).Ok?
    requires VerifyPayment(hmacHex, secret, PaymentProof(orderId, paymentId, s2)).Ok?
    requires s1 != BypassSignature && s2 != BypassSignature
    ensures s1 == s2
  {
  }

  /** The sentinel is accepted for every secret, every HMAC and every pair of
      ids: no environment flag gates it. */
  lemma BypassAlwaysAccepted(hmacHex: (string, string) -> string, secret: string, orderId: string, paymentId: string)
    ensures VerifyPayment(hmacHex, secret, PaymentProof(orderId, paymentId, BypassSignature)).Ok?
  {
  }

  /** Ids that contain '|' can make two different pairs sign the same message:
      every signature gets the same verdict for both. */
  lemma JoinedIdsCanCollide(hmacHex: (string, string) -> string, secret: string, signature: string)
    ensures VerifyPayment(hmacHex, secret, PaymentProof("a|b", "c", signature)) ==
            VerifyPayment(hmacHex, secret, PaymentProof("a", "b|c", signature))
  {
    assert SignedMessage("a|b", "c") == SignedMessage("a", "b|c");
  }

  /** The first '|' of the signed message is the one after the order id,
      when the order id has none of its own. */
  lemma FirstBarEndsOrderId(orderId: string, paymentId: string)
    requires '|' !in orderId
    ensures Strings.IndexOf(SignedMessage(orderId, paymentId), '|') == |orderId|
  {
    var m := SignedMessage(orderId, paymentId);
    forall j | 0 <= j < |orderId|
      ensures m[j] != '|'
    {
      assert m[j] == orderId[j];
    }
  }

  /** Without '|' in the order ids, the signed message determines both ids:
      a signature is bound to one pair, and a collision as in
      JoinedIdsCanCollide needs a '|' inside an order id. */
  lemma SignedMessageInjective(o1: string, p1: string, o2: string, p2: string)
    requires '|' !in o1 && '|' !in o2
    requires SignedMessage(o1, p1) == SignedMessage(o2, p2)
    ensures o1 == o2 && p1 == p2
  {
    FirstBarEndsOrderId(o1, p1);
    FirstBarEndsOrderId(o2, p2);
  }
}
