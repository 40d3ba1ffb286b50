/** The prayer app: prayer requests with moderation flags and a prayer
    counter, the `Prayer` records of who prayed, the request-text check, the
    public list, and "pray for this request" with its per-user de-duplication. */
module PrayerModels {
  import opened Seqs
  import Text
  import opened Users

  datatype Urgency = Low | Normal | High | Urgent

  /** The value stored in the `urgency` column. */
  function UrgencyCode(u: Urgency): string
  {
    match u
    case Low => "low"
    case Normal => "normal"
    case High => "high"
    case Urgent => "urgent"
  }

  datatype RequestStatus = ActiveStatus | Answered | Closed

  datatype PrayerRequest = PrayerRequest(
    id: nat, userId: Option<nat>, name: string, email: string, title: string,
    requestText: string, categoryId: Option<nat>, urgency: Urgency, status: RequestStatus,
    isPublic: bool, isAnswered: bool, isAnonymous: bool, isApproved: bool,
    prayerCount: nat, createdAt: int)

  datatype Prayer = Prayer(requestId: nat, user: Option<User>, prayedByName: string,
                           message: string, isAnonymous: bool)

  /** `PrayerRequest.requester_display_name`: an anonymous request never shows its name. */
  function RequesterDisplayName(r: PrayerRequest): (n: string)
    ensures r.isAnonymous ==> n == "Anonymous"
    ensures !r.isAnonymous ==> n == r.name
  {
    if r.isAnonymous then "Anonymous" else r.name
  }

  /** Who `Prayer.__str__` names: the given name, else the user's full name
      (which may be empty: there is no username fallback), else "Anonymous". */
  function PrayedBy(p: Prayer): (n: string)
    ensures p.prayedByName != "" ==> n == p.prayedByName
    ensures p.prayedByName == "" && p.user.None? ==> n == "Anonymous"
    ensures p.prayedByName == "" && p.user.Some? ==> n == FullName(p.user.value)
  {
    if p.prayedByName != "" then p.prayedByName
    else if p.user.Some? then FullName(p.user.value)
    else "Anonymous"
  }

  /** `Prayer.__str__`, given the title of the request prayed for. */
  function PrayerDisplay(p: Prayer, requestTitle: string): (s: string)
    ensures Text.StartsWith(s, "Prayer by ")
    ensures s == "Prayer by " + PrayedBy(p) + " for " + requestTitle
  {
    "Prayer by " + PrayedBy(p) + " for " + requestTitle
  }

  /** The default list order `['-urgency', '-created_at']`: urgency strings
      descending, then newest first. */
  predicate ListedBefore(a: PrayerRequest, b: PrayerRequest)
  {
    Text.LexLess(UrgencyCode(b.urgency), UrgencyCode(a.urgency))
    || (a.urgency == b.urgency && a.createdAt >= b.createdAt)
  }

  function ListOrder(): (PrayerRequest, PrayerRequest) -> bool
  {
    (a: PrayerRequest, b: PrayerRequest) => ListedBefore(a, b)
  }

  /** The order is on the stored strings, not on severity: "urgent" first, then
      "normal", "low", and "high" last, whatever the creation times. */
  lemma UrgencyOrderIsLexicographic(a: PrayerRequest, b: PrayerRequest)
    ensures a.urgency == Urgent && b.urgency != Urgent ==> ListedBefore(a, b) && !ListedBefore(b, a)
    ensures a.urgency == Normal && (b.urgency == Low || b.urgency == High) ==> ListedBefore(a, b) && !ListedBefore(b, a)
    ensures a.urgency == Low && b.urgency == High ==> ListedBefore(a, b) && !ListedBefore(b, a)
  {
    assert UrgencyCode(Urgent) == "urgent" && UrgencyCode(Normal) == "normal";
    assert UrgencyCode(Low) == "low" && UrgencyCode(High) == "high";
  }

  /** The fields a client may send with a new request (`status`, approval and
      the counter are not among them); `None` is a field left out. */
  datatype RequestPayload = RequestPayload(
    name: string, email: Option<string>, title: Option<string>, requestText: string,
    categoryId: Option<nat>, urgency: Option<Urgency>, isPublic: Option<bool>, isAnonymous: Option<bool>)

  /** The row a new request becomes: the submitted fields and the model defaults. */
  function NewPrayerRequest(id: nat, user: Option<User>, p: RequestPayload, now: int): (r: PrayerRequest)
    ensures r.title == (if p.title.Some? then p.title.value else "Prayer Request")
    ensures r.urgency == (if p.urgency.Some? then p.urgency.value else Normal)
    ensures r.isPublic == (p.isPublic.Some? && p.isPublic.value)
    ensures r.status == ActiveStatus && r.isApproved && !r.isAnswered && r.prayerCount == 0
    ensures r.userId == (if user.Some? then Some(user.value.id) else None)
    ensures r.requestText == p.requestText
  {
    PrayerRequest(id, if user.Some? then Some(user.value.id) else None, p.name,
      if p.email.Some? then p.email.value else "",
      if p.title.Some? then p.title.value else "Prayer Request",
      p.requestText, p.categoryId,
      if p.urgency.Some? then p.urgency.value else Normal,
      ActiveStatus,
      p.isPublic.Some? && p.isPublic.value,
      false,
      p.isAnonymous.Some? && p.isAnonymous.value,
      true, 0, now)
  }
}

module PrayerSerializers {
  import opened Seqs
  import Text
  import opened Users
  import opened PrayerModels

  /** `PrayerRequestCreateSerializer.validate_request_text`: at least ten
      characters once surrounding whitespace is removed; the accepted text is
      returned as sent, unstripped. */
  function ValidateRequestText(v: string): (r: Result<string>)
    ensures r.Ok? <==> |Text.Strip(v)| >= 10
    ensures r.Ok? ==> r.value == v
  {
    if |Text.Strip(v)| < 10 then Err("Prayer request must be at least 10 characters long.") else Ok(v)
  }

  /** Ten blanks are refused, however long the raw text is. */
  lemma BlankTextRefused(v: string)
    requires forall k :: 0 <= k < |v| ==> Text.IsSpace(v[k])
    ensures ValidateRequestText(v).Err?
  {
    Text.StripEmptyIffBlank(v);
  }

  /** The fields of `PrayForRequestSerializer`. */
  datatype PrayPayload = PrayPayload(prayedByName: Option<string>, message: Option<string>, isAnonymous: Option<bool>)

  /** The `Prayer` row `Prayer.objects.create` inserts: the request and the
      user from the server, the payload's fields or their blank defaults. */
  function NewPrayer(requestId: nat, user: Option<User>, p: PrayPayload): (prayer: Prayer)
    ensures prayer.requestId == requestId && prayer.user == user
    ensures prayer.isAnonymous <==> p.isAnonymous == Some(true)
    ensures p.prayedByName.None? ==> prayer.prayedByName == ""
    ensures p.message.None? ==> prayer.message == ""
  {
    Prayer(requestId, user,
      if p.prayedByName.Some? then p.prayedByName.value else "",
      if p.message.Some? then p.message.value else "",
      p.isAnonymous.Some? && p.isAnonymous.value)
  }

  /** `PrayForRequestSerializer.create` on the request at index `i`: one new
      `Prayer` recording the user (None when anonymous), and that request's
      counter one higher. Only `prayer_count` of the request is written. */
  function PrayFor(requests: seq<PrayerRequest>, prayers: seq<Prayer>, i: nat,
                   user: Option<User>, p: PrayPayload): (out: (seq<PrayerRequest>, seq<Prayer>))
    requires i < |requests|
    ensures |out.0| == |requests| && out.1 == prayers + [NewPrayer(requests[i].id, user, p)]
    ensures out.0[i] == requests[i].(prayerCount := requests[i].prayerCount + 1)
    ensures forall k :: 0 <= k < |requests| && k != i ==> out.0[k] == requests[k]
  {
    (requests[i := requests[i].(prayerCount := requests[i].prayerCount + 1)],
     prayers + [NewPrayer(requests[i].id, user, p)])
  }
}

module PrayerViews {
  import opened Seqs
  import Text
  import opened Users
  import opened PrayerModels
  import opened PrayerSerializers

  function Listed(): PrayerRequest -> bool
  {
    (r: PrayerRequest) => r.isPublic && r.isApproved && r.status == ActiveStatus
  }

  /** `PrayerRequestListView.get_queryset` over the table in its default
      order: public, approved, active requests, still in that order. */
  function PrayerRequestList(rows: seq<PrayerRequest>): (r: seq<PrayerRequest>)
    ensures IsSubsequence(r, rows)
    ensures forall x :: x in r <==> x in rows && x.isPublic && x.isApproved && x.status == ActiveStatus
    ensures SortedBy(rows, ListOrder()) ==> SortedBy(r, ListOrder())
  {
    FilterIsSubsequence(rows, Listed());
    if SortedBy(rows, ListOrder()) then
      FilterKeepsSorted(rows, Listed(), ListOrder());
      Filter(rows, Listed())
    else Filter(rows, Listed())
  }

  function OwnedBy(u: User): PrayerRequest -> bool
  {
    (r: PrayerRequest) => r.userId == Some(u.id)
  }

  /** `MyPrayerRequestsView.get_queryset`: every request of the caller, public or not. */
  function MyPrayerRequests(rows: seq<PrayerRequest>, u: User): (r: seq<PrayerRequest>)
    ensures IsSubsequence(r, rows)
    ensures forall x :: x in r <==> x in rows && x.userId == Some(u.id)
  {
    FilterIsSubsequence(rows, OwnedBy(u));
    Filter(rows, OwnedBy(u))
  }

  function PrayableWithId(pk: nat): PrayerRequest -> bool
  {
    (r: PrayerRequest) => r.id == pk && r.isPublic && r.isApproved
  }

  /** `prayer` was said for request `pk` by the user with `u`'s primary key. */
  predicate SaidBy(prayer: Prayer, pk: nat, u: User)
  {
    prayer.requestId == pk && prayer.user.Some? && prayer.user.value.id == u.id
  }

  /** An authenticated user who already has a `Prayer` on request `pk`; the
      query compares the user's primary key. */
  predicate AlreadyPrayed(prayers: seq<Prayer>, pk: nat, user: Option<User>)
  {
    user.Some? && exists k :: 0 <= k < |prayers| && SaidBy(prayers[k], pk, user.value)
  }

  /** An HTTP status with both tables after the request. */
  datatype Outcome = Outcome(status: nat, requests: seq<PrayerRequest>, prayers: seq<Prayer>)

  /** `PrayForRequestView.create`: the de-duplication check comes first (200,
      nothing saved), then the lookup of a public, approved request (404),
      then the serializer's `create` (201). */
  function Pray(requests: seq<PrayerRequest>, prayers: seq<Prayer>, pk: nat,
                user: Option<User>, p: PrayPayload): (out: Outcome)
    ensures out.status == 200 || out.status == 201 || out.status == 404
    ensures out.status == 200 <==> AlreadyPrayed(prayers, pk, user)
    ensures AlreadyPrayed(prayers, pk, user) ==> out == Outcome(200, requests, prayers)
    ensures out.status == 404 <==> (!AlreadyPrayed(prayers, pk, user)
      && forall k :: 0 <= k < |requests| ==> !(requests[k].id == pk && requests[k].isPublic && requests[k].isApproved))
    ensures !AlreadyPrayed(prayers, pk, user)
      && (exists k :: 0 <= k < |requests| && requests[k].id == pk && requests[k].isPublic && requests[k].isApproved)
      ==> out.status == 201
    ensures out.status != 201 ==> out.requests == requests && out.prayers == prayers
    ensures out.status == 201 ==> out.prayers == prayers + [NewPrayer(pk, user, p)]
    ensures out.status == 201 ==> (exists i :: (0 <= i < |requests| && requests[i].id == pk && requests[i].isPublic
      && requests[i].isApproved && out.requests == requests[i := requests[i].(prayerCount := requests[i].prayerCount + 1)]))
  {
    if AlreadyPrayed(prayers, pk, user) then Outcome(200, requests, prayers)
    else match FindIndex(requests, PrayableWithId(pk))
      case None => Outcome(404, requests, prayers)
      case Some(i) =>
        var after := PrayFor(requests, prayers, i, user, p);
        Outcome(201, after.0, after.1)
  }

  /** Anonymous callers are never de-duplicated: every call on a prayable
      request records a prayer. */
  lemma AnonymousAlwaysCounted(requests: seq<PrayerRequest>, prayers: seq<Prayer>, pk: nat, p: PrayPayload, i: nat)
    requires i < |requests| && requests[i].id == pk && requests[i].isPublic && requests[i].isApproved
    ensures Pray(requests, prayers, pk, None, p).status == 201
  {
  }

  /** A signed-in user's second prayer on the same request is answered 200
      and changes nothing: the counter went up once. */
  lemma SecondPrayerIgnored(requests: seq<PrayerRequest>, prayers: seq<Prayer>, pk: nat,
                            u: User, p: PrayPayload, q: PrayPayload)
    requires Pray(requests, prayers, pk, Some(u), p).status == 201
    ensures var once := Pray(requests, prayers, pk, Some(u), p);
      Pray(once.requests, once.prayers, pk, Some(u), q) == Outcome(200, once.requests, once.prayers)
  {
    var once := Pray(requests, prayers, pk, Some(u), p);
    var k := |prayers|;
    assert once.prayers[k] == NewPrayer(pk, Some(u), p);
    assert AlreadyPrayed(once.prayers, pk, Some(u));
  }

  datatype PrayerStats = PrayerStats(totalRequests: nat, activeRequests: nat, answeredRequests: nat,
                                     totalPrayers: nat, publicRequests: nat)

  function Approved(): PrayerRequest -> bool { (r: PrayerRequest) => r.isApproved }
  function ApprovedActive(): PrayerRequest -> bool { (r: PrayerRequest) => r.isApproved && r.status == ActiveStatus }
  function ApprovedAnswered(): PrayerRequest -> bool { (r: PrayerRequest) => r.isApproved && r.isAnswered }
  function ApprovedPublic(): PrayerRequest -> bool { (r: PrayerRequest) => r.isPublic && r.isApproved }

  /** `prayer_stats`: every request figure counts within the approved requests. */
  function Stats(requests: seq<PrayerRequest>, prayers: seq<Prayer>): (st: PrayerStats)
    ensures st.answeredRequests <= st.totalRequests
    ensures st.activeRequests <= st.totalRequests
    ensures st.publicRequests <= st.totalRequests
    ensures st.totalRequests <= |requests| && st.totalPrayers == |prayers|
  {
    CountMonotone(requests, ApprovedActive(), Approved());
    CountMonotone(requests, ApprovedAnswered(), Approved());
    CountMonotone(requests, ApprovedPublic(), Approved());
    PrayerStats(Count(requests, Approved()), Count(requests, ApprovedActive()),
                Count(requests, ApprovedAnswered()), |prayers|, Count(requests, ApprovedPublic()))
  }

  /** The two tables behind the create and pray endpoints. */
  class PrayerTables {
    var requests: seq<PrayerRequest>
    var prayers: seq<Prayer>

    constructor ()
      ensures requests == [] && prayers == []
    {
      requests := [];
      prayers := [];
    }

    /** `PrayerRequestCreateView`: 400 when the text is too short, otherwise a
        new row with the submitting user (None when anonymous). */
    method CreateRequest(id: nat, user: Option<User>, p: RequestPayload, now: int) returns (status: nat)
      modifies this`requests
      ensures status == 400 <==> ValidateRequestText(p.requestText).Err?
      ensures status == 400 ==> requests == old(requests)
      ensures status != 400 ==> status == 201 && requests == old(requests) + [NewPrayerRequest(id, user, p, now)]
    {
      if ValidateRequestText(p.requestText).Err? {
        return 400;
      }
      requests := requests + [NewPrayerRequest(id, user, p, now)];
      status := 201;
    }

    /** `PrayForRequestView`. */
    method PrayForRequest(pk: nat, user: Option<User>, p: PrayPayload) returns (status: nat)
      modifies this
      ensures Outcome(status, requests, prayers) == Pray(old(requests), old(prayers), pk, user, p)
    {
      if AlreadyPrayed(prayers, pk, user) {
        return 200;
      }
      var found := FindIndex(requests, PrayableWithId(pk));
      if found.None? {
        return 404;
      }
      var i := found.value;
      var prayer := Prayer(requests[i].id, user,
        if p.prayedByName.Some? then p.prayedByName.value else "",
        if p.message.Some? then p.message.value else "",
        p.isAnonymous.Some? && p.isAnonymous.value);
      assert prayer == NewPrayer(requests[i].id, user, p);
      ghost var expected := PrayFor(requests, prayers, i, user, p);
      prayers := prayers + [prayer];
      requests := requests[i := requests[i].(prayerCount := requests[i].prayerCount + 1)];
      status := 201;
      assert (requests, prayers) == expected;
    }
  }
}
