/** The pure parts of the round-up payment form
    (src/components/RazorpayRoundUpForm.tsx): the amount rule of its
    schema, the preview, and the payment request its submit handler builds.
    The round-up it draws is the flat strategy of RoundUp. */
module RoundUpForm {
  import opened Common
  import opened RoundUp
  import Text

  /** The amount rule: the field is non-empty and parses to a number above
      zero. `parsed` is what parseFloat makes of the field, in paise, None
      when it is not a number. */
  predicate AmountValid(field: string, parsed: Option<Paise>) {
    |field| >= 1 && parsed.Some? && parsed.value > 0
  }

  /** The shown round-up: none while the amount field is empty, otherwise a
      fresh flat draw. */
  function Preview(field: string, u: real): (r: Paise)
    requires 0.0 <= u < 1.0
    ensures r == 0 <==> field == ""
    ensures field != "" ==> 500 <= r <= 999
  {
    if field == "" then 0 else FlatRoundUp(u)
  }

  /** What onSubmit hands to onInitiatePayment. */
  datatype PaymentRequest = PaymentRequest(amount: Paise, description: string)

  const Prefix := "Round-up payment: "
  const Rupee := "₹"

  /** onSubmit: the original amount is paid; the drawn round-up appears only
      in the description. */
  function Submit(original: nat, description: string, u: real): PaymentRequest
    requires 0.0 <= u < 1.0
  {
    PaymentRequest(original, Prefix + OrDefault(description, "Purchase") + Amounts(original, FlatRoundUp(u)))
  }

  /** The form's submit: the schema lets a submission through only when the
      amount field passes AmountValid, and onSubmit then asks for the parsed
      amount, which is therefore positive, with the round-up description. */
  function SubmitForm(field: string, parsed: Option<Paise>, description: string, u: real): (r: Option<PaymentRequest>)
    requires 0.0 <= u < 1.0
    ensures r.Some? <==> AmountValid(field, parsed)
    ensures r.Some? ==> r.value.amount == parsed.value > 0
    ensures r.Some? ==> Text.Contains(r.value.description, "Round-up")
  {
    if AmountValid(field, parsed) then
      SubmitMentionsRoundUp(parsed.value, description, u);
      Some(Submit(parsed.value, description, u))
    else None
  }

  /** The tail of the description: both amounts as the template renders them. */
  function Amounts(original: nat, r: nat): string {
    " (Original: " + Rupee + Text.RupeeText(original) + ", Round-up: " + Rupee + Text.RupeeText(r) + ")"
  }

  /** The payment is for the original amount, not the amount plus the
      round-up; the description starts with the round-up prefix and then
      names the purchase, "Purchase" when none was given. */
  lemma SubmitShape(original: nat, description: string, u: real)
    requires 0.0 <= u < 1.0
    ensures var p := Submit(original, description, u);
      && p.amount == original
      && p.amount != original + FlatRoundUp(u)
      && |p.description| >= |Prefix| && p.description[..|Prefix|] == Prefix
      && var name := OrDefault(description, "Purchase");
      && |p.description| >= |Prefix| + |name|
      && p.description[|Prefix|..|Prefix| + |name|] == name
      && (description == "" ==> name == "Purchase")
  {
    var p := Submit(original, description, u);
    var name := OrDefault(description, "Purchase");
    Text.ConcatPieces(Prefix, name, Amounts(original, FlatRoundUp(u)));
  }

  /** Every description the form submits contains "Round-up". */
  lemma SubmitMentionsRoundUp(original: nat, description: string, u: real)
    requires 0.0 <= u < 1.0
    ensures Text.Contains(Submit(original, description, u).description, "Round-up")
  {
    var p := Submit(original, description, u);
    SubmitShape(original, description, u);
    assert Prefix[..|"Round-up"|] == "Round-up";
    assert p.description == Prefix + p.description[|Prefix|..];
    Text.ContainsPrefix(Prefix, p.description[|Prefix|..], "Round-up");
  }
}
