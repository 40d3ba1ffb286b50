/** The newsletter app: subscribers and their lifecycle (subscribe,
    reactivate, confirm by token, unsubscribe by e-mail or by token) and the
    subscriber statistics. The subscriber table is a sequence of rows whose
    e-mails and tokens are unique; the UUIDs a new row receives are passed in. */
module NewsletterModels {
  import opened Seqs
  import Text

  datatype Frequency = Weekly | Monthly | Special

  datatype Subscriber = Subscriber(
    email: string, name: string, firstName: string, lastName: string,
    isActive: bool, isConfirmed: bool, confirmationToken: nat, confirmedAt: Option<int>,
    frequency: Frequency, subscribedAt: int, unsubscribedAt: Option<int>, unsubscribeToken: nat)

  /** `NewsletterSubscriber.full_name`: `name` when set, else "first last" stripped. */
  function FullName(s: Subscriber): (n: string)
    ensures s.name != "" ==> n == s.name
    ensures s.name == "" && s.firstName == "" && s.lastName == "" ==> n == ""
    ensures s.name == "" && s.firstName != "" && s.lastName != ""
         && Text.NoSpace(s.firstName) && Text.NoSpace(s.lastName)
         ==> n == s.firstName + " " + s.lastName
  {
    if s.name != "" then s.name else Text.JoinName(s.firstName, s.lastName)
  }

  /** `NewsletterSubscriber.__str__`: the display name with the e-mail in
      parentheses, or the bare e-mail when there is no display name. Its
      display name is the one `full_name` gives. */
  function Display(s: Subscriber): (r: string)
    ensures FullName(s) != "" ==> r == FullName(s) + " (" + s.email + ")"
    ensures FullName(s) == "" ==> r == s.email
  {
    var displayName := if s.name != "" then s.name else Text.JoinName(s.firstName, s.lastName);
    if displayName != "" then displayName + " (" + s.email + ")" else s.email
  }

  /** A freshly created row: the submitted fields and the model defaults
      (active, unconfirmed, weekly unless a frequency was given). */
  function NewSubscriber(email: string, name: Option<string>, firstName: Option<string>,
                         lastName: Option<string>, frequency: Option<Frequency>,
                         now: int, confirmationToken: nat, unsubscribeToken: nat): (s: Subscriber)
    ensures s.email == email && s.isActive && !s.isConfirmed && s.confirmedAt.None?
    ensures s.frequency == if frequency.Some? then frequency.value else Weekly
    ensures s.confirmationToken == confirmationToken && s.unsubscribeToken == unsubscribeToken
  {
    Subscriber(email,
      if name.Some? then name.value else "",
      if firstName.Some? then firstName.value else "",
      if lastName.Some? then lastName.value else "",
      true, false, confirmationToken, None,
      if frequency.Some? then frequency.value else Weekly,
      now, None, unsubscribeToken)
  }

  /** The table keeps e-mails (`unique=True`) and both kinds of token unique. */
  predicate Valid(rows: seq<Subscriber>)
  {
    forall i, j :: 0 <= i < j < |rows| ==>
      rows[i].email != rows[j].email
      && rows[i].confirmationToken != rows[j].confirmationToken
      && rows[i].unsubscribeToken != rows[j].unsubscribeToken
  }

  /** Neither new UUID is in use yet. */
  predicate TokensUnused(rows: seq<Subscriber>, confirmationToken: nat, unsubscribeToken: nat)
  {
    forall k :: 0 <= k < |rows| ==>
      rows[k].confirmationToken != confirmationToken && rows[k].unsubscribeToken != unsubscribeToken
  }
}

module NewsletterSerializers {
  import opened Seqs
  import opened NewsletterModels

  /** The fields of `NewsletterSubscribeSerializer`; `None` is a field the
      client left out. */
  datatype SubscribePayload = SubscribePayload(
    email: string, name: Option<string>, firstName: Option<string>,
    lastName: Option<string>, frequency: Option<Frequency>)

  function HasEmail(email: string): Subscriber -> bool
  {
    (s: Subscriber) => s.email == email
  }

  function ActiveWithEmail(email: string): Subscriber -> bool
  {
    (s: Subscriber) => s.email == email && s.isActive
  }

  /** `NewsletterSubscribeSerializer.validate_email`: refused while an active
      subscriber has the address. */
  function ValidateSubscribeEmail(rows: seq<Subscriber>, email: string): (r: Result<string>)
    ensures r.Ok? <==> forall k :: 0 <= k < |rows| ==> !(rows[k].email == email && rows[k].isActive)
    ensures r.Ok? ==> r.value == email
  {
    if FindIndex(rows, ActiveWithEmail(email)).Some?
    then Err("This email is already subscribed to our newsletter.")
    else Ok(email)
  }

  /** The `setattr` loop of `create`: every submitted field overwrites the
      row's value, and nothing else changes. */
  function ApplyPayload(s: Subscriber, p: SubscribePayload): (t: Subscriber)
    ensures t.email == p.email
    ensures t.name == (if p.name.Some? then p.name.value else s.name)
    ensures t.firstName == (if p.firstName.Some? then p.firstName.value else s.firstName)
    ensures t.lastName == (if p.lastName.Some? then p.lastName.value else s.lastName)
    ensures t.frequency == (if p.frequency.Some? then p.frequency.value else s.frequency)
    ensures t.isActive == s.isActive && t.isConfirmed == s.isConfirmed && t.confirmedAt == s.confirmedAt
    ensures t.confirmationToken == s.confirmationToken && t.unsubscribeToken == s.unsubscribeToken
    ensures t.subscribedAt == s.subscribedAt && t.unsubscribedAt == s.unsubscribedAt
  {
    var t0 := s.(email := p.email);
    var t1 := if p.name.Some? then t0.(name := p.name.value) else t0;
    var t2 := if p.firstName.Some? then t1.(firstName := p.firstName.value) else t1;
    var t3 := if p.lastName.Some? then t2.(lastName := p.lastName.value) else t2;
    if p.frequency.Some? then t3.(frequency := p.frequency.value) else t3
  }

  /** `NewsletterSubscribeSerializer.create`: an existing row with the
      address is reactivated (overwritten, active, unconfirmed again), and
      otherwise a new row is appended. */
  function CreateSubscriber(rows: seq<Subscriber>, p: SubscribePayload, now: int,
                            confirmationToken: nat, unsubscribeToken: nat): (out: seq<Subscriber>)
    ensures FindIndex(rows, HasEmail(p.email)).Some? ==>
      var i := FindIndex(rows, HasEmail(p.email)).value;
      out == rows[i := ApplyPayload(rows[i], p).(isActive := true, isConfirmed := false)]
    ensures FindIndex(rows, HasEmail(p.email)).None? ==>
      out == rows + [NewSubscriber(p.email, p.name, p.firstName, p.lastName, p.frequency,
                                   now, confirmationToken, unsubscribeToken)]
  {
    match FindIndex(rows, HasEmail(p.email))
    case Some(i) => rows[i := ApplyPayload(rows[i], p).(isActive := true, isConfirmed := false)]
    case None => rows + [NewSubscriber(p.email, p.name, p.firstName, p.lastName, p.frequency,
                                       now, confirmationToken, unsubscribeToken)]
  }

  /** `NewsletterUnsubscribeSerializer.validate_email`: the address must belong
      to an active subscriber. */
  function ValidateUnsubscribeEmail(rows: seq<Subscriber>, email: string): (r: Result<nat>)
    ensures r.Ok? <==> exists k :: 0 <= k < |rows| && rows[k].email == email && rows[k].isActive
    ensures r.Ok? ==> r.value < |rows| && rows[r.value].email == email && rows[r.value].isActive
  {
    match FindIndex(rows, ActiveWithEmail(email))
    case Some(i) => Ok(i)
    case None => Err("This email is not subscribed to our newsletter.")
  }
}

module NewsletterViews {
  import opened Seqs
  import opened NewsletterModels
  import opened NewsletterSerializers

  /** An HTTP status and the subscriber table after the request. */
  datatype Outcome = Outcome(status: nat, rows: seq<Subscriber>)

  /** Subscribing as the serializer is meant to work: refused (400) while the
      address is actively subscribed, otherwise saved by `create` (201). */
  function Subscribe(rows: seq<Subscriber>, p: SubscribePayload, now: int,
                     confirmationToken: nat, unsubscribeToken: nat): (out: Outcome)
    ensures out.status == 400 <==> exists k :: 0 <= k < |rows| && rows[k].email == p.email && rows[k].isActive
    ensures out.status == 400 ==> out.rows == rows
    ensures out.status != 400 ==> out.status == 201
    ensures out.status != 400 ==> out.rows == CreateSubscriber(rows, p, now, confirmationToken, unsubscribeToken)
  {
    if ValidateSubscribeEmail(rows, p.email).Err? then Outcome(400, rows)
    else Outcome(201, CreateSubscriber(rows, p, now, confirmationToken, unsubscribeToken))
  }

  /** After a successful subscribe the address has exactly one row, which is
      active and unconfirmed, and the table stays valid. */
  lemma SubscribeEndsActiveUnconfirmed(rows: seq<Subscriber>, p: SubscribePayload, now: int,
                                       confirmationToken: nat, unsubscribeToken: nat)
    requires Valid(rows) && TokensUnused(rows, confirmationToken, unsubscribeToken)
    requires Subscribe(rows, p, now, confirmationToken, unsubscribeToken).status == 201
    ensures var after := Subscribe(rows, p, now, confirmationToken, unsubscribeToken).rows;
      Valid(after)
      && (exists k :: 0 <= k < |after| && after[k].email == p.email
            && after[k].isActive && !after[k].isConfirmed)
      && |after| <= |rows| + 1
  {
    var after := Subscribe(rows, p, now, confirmationToken, unsubscribeToken).rows;
    match FindIndex(rows, HasEmail(p.email))
    case Some(i) =>
      assert after[i].email == p.email && after[i].isActive && !after[i].isConfirmed;
      forall a, b | 0 <= a < b < |after|
        ensures after[a].email != after[b].email
      {
        if a != i && b != i {
          assert after[a] == rows[a] && after[b] == rows[b];
        } else if a == i {
          assert rows[i].email == p.email && after[b] == rows[b];
        } else {
          assert rows[i].email == p.email && after[a] == rows[a];
        }
      }
    case None =>
      var k := |rows|;
      assert after[k].email == p.email && after[k].isActive && !after[k].isConfirmed;
  }

  /** A subscribe never adds a second row for an address already in the table. */
  lemma SubscribeKeepsOneRowPerEmail(rows: seq<Subscriber>, p: SubscribePayload, now: int,
                                     confirmationToken: nat, unsubscribeToken: nat)
    requires exists k :: 0 <= k < |rows| && rows[k].email == p.email
    ensures |Subscribe(rows, p, now, confirmationToken, unsubscribeToken).rows| == |rows|
  {
    var k :| 0 <= k < |rows| && rows[k].email == p.email;
    assert HasEmail(p.email)(rows[k]);
  }

  /** Subscribing as the code runs: the serializer generated for the unique
      `email` field refuses every address already in the table (400) before
      `validate_email` or `create` is reached, so `create` only ever inserts. */
  function SubscribeAsWritten(rows: seq<Subscriber>, p: SubscribePayload, now: int,
                              confirmationToken: nat, unsubscribeToken: nat): (out: Outcome)
    ensures out.status == 400 <==> exists k :: 0 <= k < |rows| && rows[k].email == p.email
    ensures out.status != 400 ==> out.status == 201
    ensures out.status != 400 ==>
      out.rows == rows + [NewSubscriber(p.email, p.name, p.firstName, p.lastName, p.frequency,
                                        now, confirmationToken, unsubscribeToken)]
  {
    if FindIndex(rows, HasEmail(p.email)).Some? || ValidateSubscribeEmail(rows, p.email).Err? then Outcome(400, rows)
    else Outcome(201, CreateSubscriber(rows, p, now, confirmationToken, unsubscribeToken))
  }

  /** An unsubscribed address cannot subscribe again as written, while the
      intended flow reactivates its row. */
  lemma ReactivationUnreachableAsWritten(rows: seq<Subscriber>, p: SubscribePayload, now: int,
                                         confirmationToken: nat, unsubscribeToken: nat, k: nat)
    requires Valid(rows) && k < |rows| && rows[k].email == p.email && !rows[k].isActive
    ensures SubscribeAsWritten(rows, p, now, confirmationToken, unsubscribeToken).status == 400
    ensures var out := Subscribe(rows, p, now, confirmationToken, unsubscribeToken);
      out.status == 201 && out.rows[k].isActive && |out.rows| == |rows|
  {
    assert HasEmail(p.email)(rows[k]);
    assert FindIndex(rows, HasEmail(p.email)) == Some(k) by {
      var i := FindIndex(rows, HasEmail(p.email)).value;
      assert rows[i].email == p.email;
    }
  }

  function ConfirmableBy(token: nat): Subscriber -> bool
  {
    (s: Subscriber) => s.confirmationToken == token && s.isActive
  }

  function UnsubscribableBy(token: nat): Subscriber -> bool
  {
    (s: Subscriber) => s.unsubscribeToken == token && s.isActive
  }

  /** `newsletter_confirm`: 400 and no change unless an active subscriber has
      the token; confirms an unconfirmed one, stamping `confirmed_at`; leaves
      an already confirmed one as it is. */
  function Confirm(rows: seq<Subscriber>, token: nat, now: int): (out: Outcome)
    ensures out.status == 400 <==> forall k :: 0 <= k < |rows| ==> !(rows[k].confirmationToken == token && rows[k].isActive)
    ensures out.status != 400 ==> out.status == 200
    ensures out.status == 400 ==> out.rows == rows
    ensures out.status == 200 ==> var i := FindIndex(rows, ConfirmableBy(token)).value;
      out.rows == rows[i := rows[i].(isConfirmed := true,
                                     confirmedAt := if rows[i].isConfirmed then rows[i].confirmedAt else Some(now))]
  {
    match FindIndex(rows, ConfirmableBy(token))
    case None => Outcome(400, rows)
    case Some(i) =>
      if !rows[i].isConfirmed
      then Outcome(200, rows[i := rows[i].(isConfirmed := true, confirmedAt := Some(now))])
      else Outcome(200, rows)
  }

  /** Confirming twice is the same as confirming once, `confirmed_at` included. */
  lemma ConfirmIdempotent(rows: seq<Subscriber>, token: nat, now1: int, now2: int)
    ensures var once := Confirm(rows, token, now1).rows;
      Confirm(once, token, now2).rows == once
  {
    var once := Confirm(rows, token, now1).rows;
    match FindIndex(rows, ConfirmableBy(token))
    case None =>
    case Some(i) =>
      assert ConfirmableBy(token)(once[i]);
      assert FindIndex(once, ConfirmableBy(token)) == Some(i);
  }

  /** `newsletter_unsubscribe_token`: 400 and no change unless an active
      subscriber has the token; otherwise that row becomes inactive with
      `unsubscribed_at` stamped, and its confirmation is kept. */
  function UnsubscribeByToken(rows: seq<Subscriber>, token: nat, now: int): (out: Outcome)
    ensures out.status == 400 <==> forall k :: 0 <= k < |rows| ==> !(rows[k].unsubscribeToken == token && rows[k].isActive)
    ensures out.status != 400 ==> out.status == 200
    ensures out.status == 400 ==> out.rows == rows
    ensures out.status == 200 ==> var i := FindIndex(rows, UnsubscribableBy(token)).value;
      out.rows == rows[i := rows[i].(isActive := false, unsubscribedAt := Some(now))]
      && out.rows[i].isConfirmed == rows[i].isConfirmed
  {
    match FindIndex(rows, UnsubscribableBy(token))
    case None => Outcome(400, rows)
    case Some(i) => Outcome(200, rows[i := rows[i].(isActive := false, unsubscribedAt := Some(now))])
  }

  /** A second use of the same unsubscribe link fails with 400. */
  lemma UnsubscribeByTokenTwice(rows: seq<Subscriber>, token: nat, now1: int, now2: int)
    requires Valid(rows)
    requires UnsubscribeByToken(rows, token, now1).status == 200
    ensures UnsubscribeByToken(UnsubscribeByToken(rows, token, now1).rows, token, now2) == Outcome(400, UnsubscribeByToken(rows, token, now1).rows)
  {
    var i := FindIndex(rows, UnsubscribableBy(token)).value;
    var after := UnsubscribeByToken(rows, token, now1).rows;
    forall k | 0 <= k < |after|
      ensures !(after[k].unsubscribeToken == token && after[k].isActive)
    {
      if k != i {
        assert after[k] == rows[k];
        assert rows[k].unsubscribeToken != rows[i].unsubscribeToken;
      }
    }
  }

  /** `NewsletterUnsubscribeView.create` as the serializer is meant to work:
      400 for an address with no active subscriber, otherwise that row
      becomes inactive. */
  function Unsubscribe(rows: seq<Subscriber>, email: string, now: int): (out: Outcome)
    ensures out.status == 400 <==> forall k :: 0 <= k < |rows| ==> !(rows[k].email == email && rows[k].isActive)
    ensures out.status == 400 ==> out.rows == rows
    ensures out.status != 400 ==> out.status == 200
    ensures out.status != 400 ==> (var i := ValidateUnsubscribeEmail(rows, email).value;
      out.rows == rows[i := rows[i].(isActive := false, unsubscribedAt := Some(now))])
  {
    match ValidateUnsubscribeEmail(rows, email)
    case Err(_) => Outcome(400, rows)
    case Ok(i) => Outcome(200, rows[i := rows[i].(isActive := false, unsubscribedAt := Some(now))])
  }

  /** The same request as the code runs: `save` names `timezone`, which the
      serializer module never imports, so every valid request fails with a
      server error (500) before the row is saved. */
  function UnsubscribeAsWritten(rows: seq<Subscriber>, email: string, now: int): (out: Outcome)
    ensures out.rows == rows
    ensures out.status == 400 <==> forall k :: 0 <= k < |rows| ==> !(rows[k].email == email && rows[k].isActive)
    ensures out.status != 400 ==> out.status == 500
  {
    match ValidateUnsubscribeEmail(rows, email)
    case Err(_) => Outcome(400, rows)
    case Ok(_) => Outcome(500, rows)
  }

  /** An active subscriber who unsubscribes by e-mail stays active as written,
      and is deactivated by the intended flow. */
  lemma UnsubscribeAsWrittenKeepsActive(rows: seq<Subscriber>, email: string, now: int, k: nat)
    requires Valid(rows) && k < |rows| && rows[k].email == email && rows[k].isActive
    ensures UnsubscribeAsWritten(rows, email, now) == Outcome(500, rows)
    ensures Unsubscribe(rows, email, now).status == 200 && !Unsubscribe(rows, email, now).rows[k].isActive
  {
    var i := ValidateUnsubscribeEmail(rows, email).value;
    assert i == k;
  }

  datatype NewsletterStats = NewsletterStats(total: nat, confirmed: nat, weekly: nat, monthly: nat)

  function IsActive(): Subscriber -> bool { (s: Subscriber) => s.isActive }
  function IsActiveConfirmed(): Subscriber -> bool { (s: Subscriber) => s.isActive && s.isConfirmed }
  function IsActiveWeekly(): Subscriber -> bool { (s: Subscriber) => s.isActive && s.frequency == Weekly }
  function IsActiveMonthly(): Subscriber -> bool { (s: Subscriber) => s.isActive && s.frequency == Monthly }

  /** `newsletter_stats`: counts over the active subscribers. */
  function Stats(rows: seq<Subscriber>): (st: NewsletterStats)
    ensures st.confirmed <= st.total && st.weekly + st.monthly <= st.total
    ensures st.total <= |rows|
  {
    CountMonotone(rows, IsActiveConfirmed(), IsActive());
    CountDisjointWithin(rows, IsActive(), IsActiveWeekly(), IsActiveMonthly());
    NewsletterStats(Count(rows, IsActive()), Count(rows, IsActiveConfirmed()),
                    Count(rows, IsActiveWeekly()), Count(rows, IsActiveMonthly()))
  }

  /** The subscriber table and the confirmation mails handed to the mailer. */
  class NewsletterTable {
    var rows: seq<Subscriber>
    var outbox: seq<string>

    constructor ()
      ensures rows == [] && outbox == []
    {
      rows := [];
      outbox := [];
    }

    /** `NewsletterSubscribeView`: validate, save, then try to mail the
        confirmation link. Whether the mail goes out (`delivered`) never
        changes the status or the table. */
    method HandleSubscribe(p: SubscribePayload, now: int, confirmationToken: nat, unsubscribeToken: nat,
                     delivered: bool)
      returns (status: nat)
      modifies this
      ensures Outcome(status, rows) == Subscribe(old(rows), p, now, confirmationToken, unsubscribeToken)
      ensures outbox == if status == 201 && delivered then old(outbox) + [p.email] else old(outbox)
    {
      if ValidateSubscribeEmail(rows, p.email).Err? {
        return 400;
      }
      var found := FindIndex(rows, HasEmail(p.email));
      if found.Some? {
        var i := found.value;
        var s := ApplyPayload(rows[i], p);
        s := s.(isActive := true);
        s := s.(isConfirmed := false);
        rows := rows[i := s];
      } else {
        rows := rows + [NewSubscriber(p.email, p.name, p.firstName, p.lastName, p.frequency,
                                      now, confirmationToken, unsubscribeToken)];
      }
      if delivered {
        outbox := outbox + [p.email];
      }
      status := 201;
    }

    /** `newsletter_confirm`. */
    method HandleConfirm(token: nat, now: int) returns (status: nat)
      modifies this`rows
      ensures Outcome(status, rows) == Confirm(old(rows), token, now)
    {
      var found := FindIndex(rows, ConfirmableBy(token));
      if found.None? {
        return 400;
      }
      var i := found.value;
      if !rows[i].isConfirmed {
        rows := rows[i := rows[i].(isConfirmed := true, confirmedAt := Some(now))];
      }
      status := 200;
    }

    /** `newsletter_unsubscribe_token`. */
    method HandleUnsubscribeByToken(token: nat, now: int) returns (status: nat)
      modifies this`rows
      ensures Outcome(status, rows) == UnsubscribeByToken(old(rows), token, now)
    {
      var found := FindIndex(rows, UnsubscribableBy(token));
      if found.None? {
        return 400;
      }
      var i := found.value;
      rows := rows[i := rows[i].(isActive := false, unsubscribedAt := Some(now))];
      status := 200;
    }

    /** `NewsletterUnsubscribeView.create` with the serializer's `save` as intended. */
    method HandleUnsubscribe(email: string, now: int) returns (status: nat)
      modifies this`rows
      ensures Outcome(status, rows) == Unsubscribe(old(rows), email, now)
    {
      var valid := ValidateUnsubscribeEmail(rows, email);
      if valid.Err? {
        return 400;
      }
      var i := valid.value;
      rows := rows[i := rows[i].(isActive := false, unsubscribedAt := Some(now))];
      status := 200;
    }
  }
}
