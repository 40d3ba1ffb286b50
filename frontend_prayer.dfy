/** The prayer wall page: its client-side filter, the request form's rules
    and reset, and the body of a "pray" click. */
module PrayerPage {
  import opened Seqs
  import opened Text
  import opened Users
  import opened FormRules
  import opened PrayerModels
  import opened PrayerSerializers
  import opened PrayerViews

  /** The fields of a listed request the page uses; `category` is
      `category?.name`. */
  datatype RequestCard = RequestCard(id: nat, title: string, requestText: string, category: Option<string>)

  predicate MatchesSearch(r: RequestCard, term: string)
  {
    IContains(r.title, term) || IContains(r.requestText, term)
  }

  predicate MatchesCategory(r: RequestCard, category: string)
  {
    category == "" || r.category == Some(category)
  }

  function Shown(term: string, category: string): RequestCard -> bool
  {
    (r: RequestCard) => MatchesSearch(r, term) && MatchesCategory(r, category)
  }

  /** `filteredRequests`: `[]` while there is no data. */
  function FilteredRequests(data: Option<seq<RequestCard>>, term: string, category: string): (r: seq<RequestCard>)
    ensures data.None? ==> r == []
    ensures data.Some? ==> IsSubsequence(r, data.value)
    ensures data.Some? ==> forall x :: x in r <==> x in data.value && MatchesSearch(x, term) && MatchesCategory(x, category)
    ensures data.Some? && term == "" && category == "" ==> r == data.value
  {
    match data
    case None => []
    case Some(rows) =>
      FilterIsSubsequence(rows, Shown(term, category));
      if term == "" && category == "" then
        forall x | x in rows ensures Shown(term, category)(x) {
          EmptyIsContained(x.title);
        }
        FilterAll(rows, Shown(term, category));
        Filter(rows, Shown(term, category))
      else Filter(rows, Shown(term, category))
  }

  /** The create form's fields. */
  datatype RequestForm = RequestForm(name: string, email: string, category: string, urgency: string,
                                     title: string, requestText: string, isPublic: bool, isAnonymous: bool)

  /** What `reset()` restores: the form was created without default values. */
  const EmptyForm := RequestForm("", "", "", "", "", "", false, false)

  /** The form's rules: name and title required, details required and at
      least ten characters long, counted raw. */
  predicate FormAccepts(f: RequestForm)
    ensures FormAccepts(f) ==> f.name != "" && f.title != "" && |f.requestText| >= 10
  {
    Required(f.name) && Required(f.title) && Required(f.requestText) && MinLength(f.requestText, 10)
  }

  /** Whatever the server accepts, the form accepts; the converse fails:
      ten blanks pass the form and are refused by the server. */
  lemma FormLooserThanServer(f: RequestForm)
    ensures Required(f.name) && Required(f.title) && ValidateRequestText(f.requestText).Ok? ==> FormAccepts(f)
    ensures var blank := f.(name := "n", title := "t", requestText := "          ");
      FormAccepts(blank) && ValidateRequestText(blank.requestText).Err?
  {
    StripIsCore(f.requestText);
    BlankTextRefused("          ");
  }

  /** The body a "pray" click sends: always anonymous, signed "Anonymous". */
  function PrayBody(): (p: PrayPayload)
    ensures p.prayedByName == Some("Anonymous") && p.isAnonymous == Some(true) && p.message.None?
  {
    PrayPayload(Some("Anonymous"), None, Some(true))
  }

  /** The anonymous flag in the body does not stop de-duplication: the
      server keys it on the signed-in user the bearer header names, so a
      second click by that user changes nothing. */
  lemma SecondClickIgnored(requests: seq<PrayerRequest>, prayers: seq<Prayer>, pk: nat, u: User)
    requires Pray(requests, prayers, pk, Some(u), PrayBody()).status == 201
    ensures var once := Pray(requests, prayers, pk, Some(u), PrayBody());
      Pray(once.requests, once.prayers, pk, Some(u), PrayBody()).status == 200
  {
    SecondPrayerIgnored(requests, prayers, pk, u, PrayBody(), PrayBody());
  }

  class PrayerWall {
    var form: RequestForm
    var showCreateForm: bool

    constructor()
      ensures form == EmptyForm && !showCreateForm
    {
      form := EmptyForm;
      showCreateForm := false;
    }

    /** `onSubmitPrayerRequest`: a successful create resets the form and
        closes the modal; a failure leaves both as they were. */
    method OnSubmitPrayerRequest(created: bool)
      modifies this
      ensures created ==> form == EmptyForm && !showCreateForm
      ensures !created ==> form == old(form) && showCreateForm == old(showCreateForm)
    {
      if created {
        form := EmptyForm;
        showCreateForm := false;
      }
    }
  }
}
