/** The donation dialog (frontend/components/DonationModal.tsx): the amount and e-mail checks,
    the split between Chapa (redirect to the hosted checkout) and Stripe (a payment intent, then
    the embedded card form), which of its three views shows, and the card form's submit. The
    backend's and Stripe's replies are inputs; `Number(amount)` is given as an input too, None
    standing for NaN. */
module DonationModal {
  import opened Common

  datatype Gateway = Stripe | Chapa

  /** The three views of the dialog. */
  datatype View = SuccessView | CheckoutView | OptionsView

  /** A request the dialog sends to the backend. */
  datatype Request =
    | ChapaInitialize(amount: real, email: string, firstName: string, lastName: string, campaignTitle: Option<string>)
    | CreatePaymentIntent(amount: real, currency: string)
    | StripeVerify(paymentIntentId: string, campaignTitle: Option<string>, amount: real, donorEmail: string)

  /** What the user sees or where the browser goes after a click. */
  datatype Effect = Alert(message: string) | Redirect(url: string) | NoEffect

  const DefaultAmount: string := "50"
  const InvalidAmountAlert: string := "Please enter a valid amount"
  const InvalidEmailAlert: string := "Please enter a valid email address for Chapa receipt."
  const ChapaFailedAlert: string := "Failed to connect to Chapa. Please try again or use a card."
  const StripeFailedAlert: string := "Failed to initialize payment. Please try again."
  const UnexpectedError: string := "An unexpected error occurred."

  // ---------------------------------------------------------------- checks

  /** `!amount || isNaN(Number(amount)) || Number(amount) <= 0` fails. */
  predicate ValidAmount(amount: string, number: Option<real>) {
    amount != "" && number.Some? && number.value > 0.0
  }

  /** `!email || !email.includes('@')` fails. */
  predicate ValidChapaEmail(email: string) {
    '@' in email
  }

  /** Which view renders: the success view whenever `defaultSuccess` is set, whatever else
      holds; the card form exactly while a client secret is held; the options otherwise. */
  function ViewOf(defaultSuccess: bool, clientSecret: Option<string>): (v: View)
    ensures defaultSuccess <==> v == SuccessView
    ensures v == CheckoutView <==> !defaultSuccess && Truthy(clientSecret)
    ensures v == OptionsView <==> !defaultSuccess && !Truthy(clientSecret)
  {
    if defaultSuccess then SuccessView else if Truthy(clientSecret) then CheckoutView else OptionsView
  }

  // ---------------------------------------------------------------- initializePayment

  /** The outcome of one click on "Continue": the request sent if any, the effect, and the
      client secret afterwards. */
  datatype InitStep = InitStep(sent: Option<Request>, effect: Effect, clientSecret: Option<string>)

  /** `initializePayment`. `reply` is the backend's answer: for Chapa its `checkout_url`, for
      Stripe its `clientSecret` (either possibly missing), or an error. */
  function Initialize(amount: string, number: Option<real>, email: string, gateway: Gateway,
                      campaignTitle: Option<string>, clientSecret: Option<string>,
                      reply: Outcome<Option<string>>): (s: InitStep)
    ensures !ValidAmount(amount, number) ==>
      s == InitStep(None, Alert(InvalidAmountAlert), clientSecret)
    ensures ValidAmount(amount, number) && gateway == Chapa && !ValidChapaEmail(email) ==>
      s == InitStep(None, Alert(InvalidEmailAlert), clientSecret)
    ensures ValidAmount(amount, number) && gateway == Chapa && ValidChapaEmail(email) ==>
      && s.sent == Some(ChapaInitialize(number.value, email, "Guest", "Donor", campaignTitle))
      && s.clientSecret == clientSecret
      && (reply.Raise? ==> s.effect == Alert(ChapaFailedAlert))
      && (reply.Ok? && Truthy(reply.value) ==> s.effect == Redirect(reply.value.value))
      && (reply.Ok? && !Truthy(reply.value) ==> s.effect == NoEffect)
    ensures ValidAmount(amount, number) && gateway == Stripe ==>
      && s.sent == Some(CreatePaymentIntent(number.value, "usd"))
      && (reply.Raise? ==> s.effect == Alert(StripeFailedAlert) && s.clientSecret == clientSecret)
      && (reply.Ok? ==> s.effect == NoEffect && s.clientSecret == reply.value)
  {
    if !ValidAmount(amount, number) then InitStep(None, Alert(InvalidAmountAlert), clientSecret)
    else if gateway == Chapa then
      if !ValidChapaEmail(email) then InitStep(None, Alert(InvalidEmailAlert), clientSecret)
      else
        var req := ChapaInitialize(number.value, email, "Guest", "Donor", campaignTitle);
        match reply
        case Raise(_) => InitStep(Some(req), Alert(ChapaFailedAlert), clientSecret)
        case Ok(url) => InitStep(Some(req), if Truthy(url) then Redirect(url.value) else NoEffect, clientSecret)
    else
      var req := CreatePaymentIntent(number.value, "usd");
      match reply
      case Raise(_) => InitStep(Some(req), Alert(StripeFailedAlert), clientSecret)
      case Ok(secret) => InitStep(Some(req), NoEffect, secret)
  }

  /** Nothing is sent unless the amount is valid and, for Chapa, the e-mail has an '@'; the
      card form opens only after a Stripe request whose reply carries a secret, and Chapa never
      opens it. */
  lemma InitializeGuards(amount: string, number: Option<real>, email: string, gateway: Gateway,
                         campaignTitle: Option<string>, reply: Outcome<Option<string>>)
    ensures var s := Initialize(amount, number, email, gateway, campaignTitle, None, reply);
      && (s.sent.Some? <==> ValidAmount(amount, number) && (gateway == Chapa ==> ValidChapaEmail(email)))
      && (s.sent.Some? ==> s.sent.value.amount == number.value && s.sent.value.amount > 0.0)
      && (ViewOf(false, s.clientSecret) == CheckoutView <==>
            ValidAmount(amount, number) && gateway == Stripe && reply.Ok? && Truthy(reply.value))
      && (s.effect.Redirect? ==> gateway == Chapa && s.sent.Some?)
  {
  }

  /** The dialog's state. */
  class Modal {
    var amount: string
    var email: string
    var gateway: Gateway
    var clientSecret: Option<string>
    var loadingSecret: bool

    constructor ()
      ensures amount == DefaultAmount && email == "" && gateway == Stripe
      ensures clientSecret == None && !loadingSecret
    {
      amount := DefaultAmount;
      email := "";
      gateway := Stripe;
      clientSecret := None;
      loadingSecret := false;
    }

    method SetAmount(value: string)
      modifies this`amount
      ensures amount == value
    {
      amount := value;
    }

    method SetEmail(value: string)
      modifies this`email
      ensures email == value
    {
      email := value;
    }

    method SetGateway(g: Gateway)
      modifies this`gateway
      ensures gateway == g
    {
      gateway := g;
    }

    /** "Back to options": the secret is dropped and the options show again. */
    method BackToOptions()
      modifies this`clientSecret
      ensures clientSecret == None
      ensures ViewOf(false, clientSecret) == OptionsView
    {
      clientSecret := None;
    }

    /** The "Continue" button. */
    method InitializePayment(number: Option<real>, campaignTitle: Option<string>, reply: Outcome<Option<string>>)
      returns (sent: Option<Request>, effect: Effect)
      modifies this`clientSecret, this`loadingSecret
      ensures var s := Initialize(amount, number, email, gateway, campaignTitle, old(clientSecret), reply);
        sent == s.sent && effect == s.effect && clientSecret == s.clientSecret
      ensures sent.Some? ==> !loadingSecret
      ensures sent.None? ==> loadingSecret == old(loadingSecret)
    {
      if amount == "" || number.None? || number.value <= 0.0 {
        return None, Alert(InvalidAmountAlert);
      }
      if gateway == Chapa {
        if email == "" || '@' !in email {
          return None, Alert(InvalidEmailAlert);
        }
        loadingSecret := true;
        sent := Some(ChapaInitialize(number.value, email, "Guest", "Donor", campaignTitle));
        if reply.Raise? {
          effect := Alert(ChapaFailedAlert);
        } else if Truthy(reply.value) {
          effect := Redirect(reply.value.value);
        } else {
          effect := NoEffect;
        }
        loadingSecret := false;
        return;
      }
      loadingSecret := true;
      sent := Some(CreatePaymentIntent(number.value, "usd"));
      if reply.Ok? {
        clientSecret := reply.value;
        effect := NoEffect;
      } else {
        effect := Alert(StripeFailedAlert);
      }
      loadingSecret := false;
    }
  }

  // ---------------------------------------------------------------- CheckoutForm

  /** Stripe's view of the payment intent after confirming: its id and status. */
  datatype IntentInfo = IntentInfo(id: string, status: string)

  /** Where Stripe sends the browser if the payment needs a redirect: the /donate page, with
      the campaign title as `campaign` when there is one. */
  function ReturnTarget(origin: string, campaignTitle: Option<string>): (t: (string, seq<(string, string)>))
    ensures t.0 == origin + "/donate"
    ensures Truthy(campaignTitle) ==> t.1 == [("campaign", campaignTitle.value)]
    ensures !Truthy(campaignTitle) ==> t.1 == []
  {
    (origin + "/donate", if Truthy(campaignTitle) then [("campaign", campaignTitle.value)] else [])
  }

  /** The outcome of submitting the card form. */
  datatype SubmitStep = SubmitStep(verify: Option<Request>, success: bool, errorMessage: Option<string>)

  /** `handleSubmit` once Stripe is loaded. `confirmError` is the error `confirmPayment` gave
      (with its message, which may be missing), None when it confirmed; `intent` is what
      `retrievePaymentIntent` gave, or an exception. */
  function Submit(confirmError: Option<Option<string>>, intent: Outcome<Option<IntentInfo>>,
                  campaignTitle: Option<string>, amount: real, email: string,
                  success: bool, errorMessage: Option<string>): (s: SubmitStep)
    ensures confirmError.Some? ==>
      && s.verify == None && s.success == success
      && s.errorMessage == Some(if Truthy(confirmError.value) then confirmError.value.value else UnexpectedError)
    ensures confirmError.None? ==> s.success && s.errorMessage == errorMessage
    ensures s.verify.Some? <==>
      confirmError.None? && intent.Ok? && intent.value.Some? && intent.value.value.status == "succeeded"
    ensures s.verify.Some? ==>
      s.verify.value == StripeVerify(intent.value.value.id, campaignTitle, amount, email)
  {
    match confirmError
    case Some(message) =>
      SubmitStep(None, success, Some(if Truthy(message) then message.value else UnexpectedError))
    case None =>
      var verify :=
        if intent.Ok? && intent.value.Some? && intent.value.value.status == "succeeded"
        then Some(StripeVerify(intent.value.value.id, campaignTitle, amount, email))
        else None;
      SubmitStep(verify, true, errorMessage)
  }

  /** Once Stripe confirms, the thank-you view shows whatever happens afterwards: the intent
      cannot be read, it has not succeeded, or the backend call fails (its outcome is never
      consulted). A confirmation error never shows it. */
  lemma ConfirmedMeansSuccess(intent: Outcome<Option<IntentInfo>>, campaignTitle: Option<string>,
                              amount: real, email: string, errorMessage: Option<string>)
    ensures Submit(None, intent, campaignTitle, amount, email, false, errorMessage).success
    ensures forall m: Option<string> ::
      !Submit(Some(m), intent, campaignTitle, amount, email, false, errorMessage).success
  {
  }

  /** The card form's state. */
  class CheckoutForm {
    var errorMessage: Option<string>
    var isProcessing: bool
    var success: bool

    constructor ()
      ensures errorMessage == None && !isProcessing && !success
    {
      errorMessage := None;
      isProcessing := false;
      success := false;
    }

    /** `handleSubmit`. Before Stripe has loaded (`stripeReady` false) nothing happens; otherwise
        the form confirms, and the processing flag is down again at the end on every path. */
    method HandleSubmit(stripeReady: bool, confirmError: Option<Option<string>>,
                        intent: Outcome<Option<IntentInfo>>, campaignTitle: Option<string>,
                        amount: real, email: string)
      returns (verify: Option<Request>)
      modifies this
      ensures !stripeReady ==>
        verify == None && errorMessage == old(errorMessage) && success == old(success)
        && isProcessing == old(isProcessing)
      ensures stripeReady ==>
        var s := Submit(confirmError, intent, campaignTitle, amount, email, old(success), old(errorMessage));
        verify == s.verify && success == s.success && errorMessage == s.errorMessage && !isProcessing
    {
      if !stripeReady {
        return None;
      }
      isProcessing := true;
      if confirmError.Some? {
        var message := confirmError.value;
        errorMessage := Some(if Truthy(message) then message.value else UnexpectedError);
        isProcessing := false;
        return None;
      }
      verify := None;
      if intent.Ok? && intent.value.Some? && intent.value.value.status == "succeeded" {
        verify := Some(StripeVerify(intent.value.value.id, campaignTitle, amount, email));
      }
      success := true;
      isProcessing := false;
    }
  }
}
