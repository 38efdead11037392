/**
 * `PaymentProcessor.processPayment`: one charge, one audit save, and a
 * confirmation email whose failure is swallowed. The payment API, the
 * repository and the email service are collaborators: what they answer is an
 * input. The calls on the payment API, the repository and the email service
 * are recorded, in order, as a trace of effects; reading the configured API
 * key is not, and the key is an input.
 */
module Payment {
  import opened Wrappers

  datatype PaymentStatus = Failed | Success
  {
    /** `PaymentStatus.name()`, the text the repository stores: the constant's own name. */
    function Name(): (name: string)
      ensures name == "FAILED" <==> this == Failed
      ensures name == "SUCCESS" <==> this == Success
    {
      match this
      case Failed => "FAILED"
      case Success => "SUCCESS"
    }
  }

  /** What the payment API's `charge` does: answer with a response, or throw. */
  datatype ChargeResponse = Responded(success: bool) | Threw

  /** A call on a collaborator. */
  datatype Effect =
    | Charge(apiKey: string, amount: real)
    | Save(amount: real, status: string)
    | SendPaymentConfirmation(email: string, amount: real)

  /** How `processPayment` ends. */
  datatype Outcome =
    | Returned(value: bool)
      /** `IllegalArgumentException(message)`. */
    | IllegalArgument(message: string)
      /** `PaymentException("Payment failed with amount: " + amount)`. */
    | PaymentFailed(amount: real)
      /** Whatever `charge` threw, passed on uncaught. */
    | ChargeThrew

  const NullArgumentMessage := "Email and amount cannot be null"

  /** The number of charges in a trace. */
  function Charges(trace: seq<Effect>): nat
  {
    if trace == [] then 0 else Charges(trace[..|trace| - 1]) + (if trace[|trace| - 1].Charge? then 1 else 0)
  }

  /** The statuses saved in a trace, in order. */
  function SavedStatuses(trace: seq<Effect>): seq<string>
  {
    if trace == [] then []
    else SavedStatuses(trace[..|trace| - 1]) + (if trace[|trace| - 1].Save? then [trace[|trace| - 1].status] else [])
  }

  /** Recording one more effect extends the counts by that effect alone. */
  lemma RecordOne(trace: seq<Effect>, e: Effect)
    ensures Charges(trace + [e]) == Charges(trace) + (if e.Charge? then 1 else 0)
    ensures SavedStatuses(trace + [e]) == SavedStatuses(trace) + (if e.Save? then [e.status] else [])
  {
    assert (trace + [e])[..|trace|] == trace;
  }

  /** Whether a trace sends a confirmation email. */
  predicate SendsEmail(trace: seq<Effect>)
  {
    exists i :: 0 <= i < |trace| && trace[i].SendPaymentConfirmation?
  }

  /** What a trace of a lone charge shows. */
  lemma ObservedOne(charge: Effect)
    requires charge.Charge?
    ensures Charges([charge]) == 1 && SavedStatuses([charge]) == [] && !SendsEmail([charge])
  {
    RecordOne([], charge);
  }

  /** What a trace of a charge and then a save shows. */
  lemma ObservedTwo(charge: Effect, save: Effect)
    requires charge.Charge? && save.Save?
    ensures Charges([charge, save]) == 1 && SavedStatuses([charge, save]) == [save.status]
    ensures !SendsEmail([charge, save])
  {
    RecordOne([], charge);
    RecordOne([charge], save);
    assert [charge] + [save] == [charge, save];
  }

  /** What a trace of a charge, a save and then an email shows. */
  lemma ObservedThree(charge: Effect, save: Effect, email: Effect)
    requires charge.Charge? && save.Save? && email.SendPaymentConfirmation?
    ensures Charges([charge, save, email]) == 1 && SavedStatuses([charge, save, email]) == [save.status]
    ensures SendsEmail([charge, save, email])
  {
    ObservedTwo(charge, save);
    RecordOne([charge, save], email);
    assert [charge, save] + [email] == [charge, save, email];
    assert [charge, save, email][2].SendPaymentConfirmation?;
  }

  /**
   * `processPayment(email, amount)`, with `apiKey` the configured API key,
   * `response` what the payment API does with the charge and `emailThrows`
   * whether the email service throws `NotificationException`.
   */
  method ProcessPayment(apiKey: string, response: ChargeResponse, emailThrows: bool,
                        email: Option<string>, amount: Option<real>)
    returns (outcome: Outcome, trace: seq<Effect>)
    // A missing argument is refused before any collaborator is called.
    ensures email.None? || amount.None? ==>
      outcome == IllegalArgument(NullArgumentMessage) && trace == []
    // Otherwise the amount is charged first, exactly once, with the configured key.
    ensures email.Some? && amount.Some? ==>
      0 < |trace| && trace[0] == Charge(apiKey, amount.value) && Charges(trace) == 1
    // A charge that throws is not caught, and nothing is saved.
    ensures email.Some? && amount.Some? && response.Threw? ==>
      outcome == ChargeThrew && trace == [Charge(apiKey, amount.value)]
    // A declined charge is saved as FAILED, throws PaymentException, and sends no email.
    ensures email.Some? && amount.Some? && response == Responded(false) ==>
      && outcome == PaymentFailed(amount.value)
      && trace == [Charge(apiKey, amount.value), Save(amount.value, Failed.Name())]
    // A successful charge is saved as SUCCESS, then the email is attempted,
    // and the answer is true whether or not the email service throws.
    ensures email.Some? && amount.Some? && response == Responded(true) ==>
      && outcome == Returned(true)
      && trace == [Charge(apiKey, amount.value), Save(amount.value, Success.Name()),
                   SendPaymentConfirmation(email.value, amount.value)]
    // A normal return is always true.
    ensures outcome.Returned? ==> outcome.value
    // A call that got a response saves exactly once, SUCCESS exactly when an email is sent.
    ensures email.Some? && amount.Some? && response.Responded? ==>
      && |SavedStatuses(trace)| == 1
      && (SavedStatuses(trace)[0] == Success.Name() <==> SendsEmail(trace))
    ensures !(Success.Name() in SavedStatuses(trace) && Failed.Name() in SavedStatuses(trace))
  {
    if email.None? || amount.None? {
      return IllegalArgument(NullArgumentMessage), [];
    }
    var charge := Charge(apiKey, amount.value);
    if response.Threw? {
      ObservedOne(charge);
      return ChargeThrew, [charge];
    }
    if !response.success {
      var save := Save(amount.value, Failed.Name());
      ObservedTwo(charge, save);
      return PaymentFailed(amount.value), [charge, save];
    }
    var save := Save(amount.value, Success.Name());
    // The attempt is made either way; a NotificationException is caught and ignored.
    var confirmation := SendPaymentConfirmation(email.value, amount.value);
    ObservedThree(charge, save, confirmation);
    trace := [charge, save, confirmation];
    return Returned(true), trace;
  }
}
