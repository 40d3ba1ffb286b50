/** The giving page: preset amounts, the donation form's rules, the submit
    button, the simulated submit, and the campaign progress bar. */
module DonationsPage {
  import opened Seqs
  import opened Text
  import opened FormRules
  import opened DonationModels

  const PresetAmounts: seq<nat> := [25, 50, 100, 250, 500, 1000]

  datatype DonationForm = DonationForm(amount: string, donorName: string, donorEmail: string, donorPhone: string,
                                       donationType: string, message: string, isAnonymous: bool)

  const DefaultForm := DonationForm("", "", "", "", "offering", "", false)

  /** The amount rules: required, and at least 1. The field holds a decimal
      numeral; for a non-negative one, being at least 1 is decided by its
      integer part, which is what `ParseInt` reads. */
  predicate AmountAccepted(amount: string)
    ensures AmountAccepted(amount) ==> amount != "" && IsDigit(amount[0])
  {
    Required(amount) && ParseInt(amount).Some? && ParseInt(amount).value >= 1
  }

  /** The whole form: amount, a name, and an email matching the pattern. */
  predicate FormAccepts(f: DonationForm)
    ensures FormAccepts(f) ==> SubmitEnabled(false, f.amount)
  {
    AmountAccepted(f.amount) && Required(f.donorName) && Required(f.donorEmail) && EmailPattern(f.donorEmail)
  }

  /** The submit button is enabled unless processing or the amount is empty. */
  predicate SubmitEnabled(isProcessing: bool, amount: string)
    ensures SubmitEnabled(isProcessing, amount) ==> !isProcessing && |amount| > 0
  {
    !(isProcessing || amount == "")
  }

  /** Every preset passes the amount rule and enables the button. */
  lemma PresetsAccepted()
    ensures forall a :: a in PresetAmounts ==> AmountAccepted(NatToString(a)) && SubmitEnabled(false, NatToString(a))
  {
    forall a | a in PresetAmounts
      ensures AmountAccepted(NatToString(a)) && SubmitEnabled(false, NatToString(a))
    {
      ParseIntOfNumeral(a);
    }
  }

  /** An empty amount keeps the button disabled and fails the form. */
  lemma EmptyAmountBlocks(f: DonationForm, isProcessing: bool)
    requires f.amount == ""
    ensures !SubmitEnabled(isProcessing, f.amount) && !FormAccepts(f)
  {
  }

  /** The progress bar's width: `Math.min(progress, 100)`. */
  function ProgressWidth(progress: real): (w: real)
    ensures w <= 100.0
    ensures progress <= 100.0 ==> w == progress
    ensures progress > 100.0 ==> w == 100.0
  {
    if progress < 100.0 then progress else 100.0
  }

  /** The server's percentage is already capped, so the bar shows it as is. */
  lemma WidthIsProgress(c: DonationCampaign)
    ensures ProgressWidth(ProgressPercentage(c)) == ProgressPercentage(c)
  {
  }

  /** The "Active Campaigns" figure: the number of campaigns, or "3" when the
      list is missing or empty. */
  function ActiveCampaignsStat(campaigns: Option<seq<DonationCampaign>>): (shown: string)
    ensures campaigns.Some? && |campaigns.value| > 0 ==> ParseInt(shown) == Some(|campaigns.value|)
    ensures campaigns.None? || campaigns.value == [] ==> shown == "3"
  {
    CountOrElse(if campaigns.Some? then Some(|campaigns.value|) else None, "3")
  }

  class DonationsView {
    var selectedAmount: string
    var form: DonationForm
    var isProcessing: bool

    constructor()
      ensures selectedAmount == "" && form == DefaultForm && !isProcessing
    {
      selectedAmount := "";
      form := DefaultForm;
      isProcessing := false;
    }

    /** `handleAmountSelect`: the highlighted preset and the form's amount
        become the same numeral. */
    method HandleAmountSelect(amount: nat)
      modifies this
      ensures selectedAmount == NatToString(amount) && form == old(form).(amount := NatToString(amount))
      ensures isProcessing == old(isProcessing)
      ensures ParseInt(form.amount) == Some(amount)
    {
      selectedAmount := NatToString(amount);
      form := form.(amount := NatToString(amount));
      ParseIntOfNumeral(amount);
    }

    /** `onSubmit`: the payment is only simulated, so nothing is sent and the
        form is kept; processing is over afterwards in every case. */
    method OnSubmit()
      modifies this
      ensures !isProcessing && form == old(form) && selectedAmount == old(selectedAmount)
    {
      isProcessing := true;
      isProcessing := false;
    }
  }
}

/** The contact page: the message form, its submit, and the contact details
    with their built-in fallbacks. */
module ContactPage {
  import opened Seqs
  import opened FormRules

  datatype ContactForm = ContactForm(name: string, email: string, phone: string, messageType: string,
                                     subject: string, message: string)

  const EmptyForm := ContactForm("", "", "", "", "", "")

  /** Name, email, subject and message are required, and the email must
      match the pattern. */
  predicate FormAccepts(f: ContactForm)
    ensures FormAccepts(f) ==> |f.email| >= 3 && f.name != "" && f.subject != "" && f.message != ""
  {
    Required(f.name) && Required(f.email) && EmailPattern(f.email) && Required(f.subject) && Required(f.message)
  }

  /** Phone and message type are optional. */
  lemma OptionalFields(f: ContactForm, phone: string, messageType: string)
    ensures FormAccepts(f) <==> FormAccepts(f.(phone := phone, messageType := messageType))
  {
  }

  /** The church record's contact fields as fetched. */
  datatype ChurchContact = ChurchContact(address: Option<string>, phone: Option<string>, phoneSecondary: Option<string>,
                                         email: Option<string>, sundayServiceTime: Option<string>,
                                         wednesdayServiceTime: Option<string>)

  datatype ContactInfo = ContactInfo(address: string, phone: string, phoneSecondary: Option<string>, email: string,
                                     sunday: string, wednesday: string)

  const FallbackAddress := "Lilanda West, Lusaka, Zambia"
  const FallbackPhone := "+260 975 639 834"
  const FallbackEmail := "newclassroyalministries@gmail.com"
  const FallbackSunday := "09:00 AM - 12:00 PM"
  const FallbackWednesday := "06:00 PM - 08:00 PM"

  /** A field of the loaded record that is present and not empty. */
  predicate Given(field: Option<string>)
  {
    field.Some? && field.value != ""
  }

  /** The contact cards: each field of the loaded record, or its fallback
      when the record is missing or the field is missing or empty; the second
      phone only when present and non-empty, with no fallback. */
  function ContactInfoShown(church: Option<ChurchContact>): (info: ContactInfo)
    ensures church.Some? && Given(church.value.address) ==> info.address == church.value.address.value
    ensures !(church.Some? && Given(church.value.address)) ==> info.address == FallbackAddress
    ensures church.Some? && Given(church.value.phone) ==> info.phone == church.value.phone.value
    ensures !(church.Some? && Given(church.value.phone)) ==> info.phone == FallbackPhone
    ensures church.Some? && Given(church.value.email) ==> info.email == church.value.email.value
    ensures !(church.Some? && Given(church.value.email)) ==> info.email == FallbackEmail
    ensures church.Some? && Given(church.value.sundayServiceTime) ==> info.sunday == church.value.sundayServiceTime.value
    ensures !(church.Some? && Given(church.value.sundayServiceTime)) ==> info.sunday == FallbackSunday
    ensures church.Some? && Given(church.value.wednesdayServiceTime) ==> info.wednesday == church.value.wednesdayServiceTime.value
    ensures !(church.Some? && Given(church.value.wednesdayServiceTime)) ==> info.wednesday == FallbackWednesday
    ensures church.Some? && Given(church.value.phoneSecondary) ==> info.phoneSecondary == church.value.phoneSecondary
    ensures !(church.Some? && Given(church.value.phoneSecondary)) ==> info.phoneSecondary.None?
  {
    match church
    case None => ContactInfo(FallbackAddress, FallbackPhone, None, FallbackEmail, FallbackSunday, FallbackWednesday)
    case Some(c) =>
      ContactInfo(OrElse(c.address, FallbackAddress), OrElse(c.phone, FallbackPhone),
                  if c.phoneSecondary.Some? && c.phoneSecondary.value != "" then c.phoneSecondary else None,
                  OrElse(c.email, FallbackEmail), OrElse(c.sundayServiceTime, FallbackSunday),
                  OrElse(c.wednesdayServiceTime, FallbackWednesday))
  }

  class ContactView {
    var form: ContactForm
    var isSubmitting: bool

    constructor()
      ensures form == EmptyForm && !isSubmitting
    {
      form := EmptyForm;
      isSubmitting := false;
    }

    /** `onSubmit`: a sent message resets the form, a failure keeps what was
        typed; submitting is over afterwards in every case. */
    method OnSubmit(sent: bool)
      modifies this
      ensures sent ==> form == EmptyForm
      ensures !sent ==> form == old(form)
      ensures !isSubmitting
    {
      isSubmitting := true;
      if sent {
        form := EmptyForm;
      }
      isSubmitting := false;
    }
  }
}
