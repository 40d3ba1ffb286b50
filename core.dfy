/** The core app: church information, staff, announcements with their
    "current" window, the verse of the day, and contact messages. */
module CoreModels {
  import opened Seqs
  import Text

  datatype ChurchInfo = ChurchInfo(id: nat, name: string, tagline: string, isActive: bool)

  datatype Position = Pastor | AssociatePastor | Elder | Deacon | WorshipLeader
                    | YouthPastor | ChildrenPastor | Administrator | OtherPosition

  /** The human-readable label of a staff position. */
  function PositionDisplay(p: Position): (shown: string)
    ensures shown != ""
  {
    match p
    case Pastor => "Pastor"
    case AssociatePastor => "Associate Pastor"
    case Elder => "Elder"
    case Deacon => "Deacon"
    case WorshipLeader => "Worship Leader"
    case YouthPastor => "Youth Pastor"
    case ChildrenPastor => "Children Pastor"
    case Administrator => "Administrator"
    case OtherPosition => "Other"
  }

  datatype Staff = Staff(id: nat, name: string, position: Position, order: nat, isActive: bool)

  /** `Staff.__str__`: "name - Position". */
  function StaffDisplay(s: Staff): (shown: string)
    ensures Text.StartsWith(shown, s.name + " - ")
    ensures shown[|s.name| + 3..] == PositionDisplay(s.position)
  {
    var shown := s.name + " - " + PositionDisplay(s.position);
    assert shown[..|s.name| + 3] == s.name + " - ";
    shown
  }

  /** The staff ordering `['order', 'name']`. */
  predicate StaffBefore(a: Staff, b: Staff)
  {
    a.order < b.order || (a.order == b.order && !Text.LexLess(b.name, a.name))
  }

  /** The `order` column decides first; the name only breaks ties. */
  lemma StaffOrderFirst(a: Staff, b: Staff)
    ensures a.order < b.order ==> StaffBefore(a, b) && !StaffBefore(b, a)
    ensures a.order == b.order && Text.LexLess(a.name, b.name) ==> StaffBefore(a, b)
  {
    if a.order == b.order && Text.LexLess(a.name, b.name) {
      LexLessAsymmetric(a.name, b.name);
    }
  }

  lemma {:induction false} LexLessAsymmetric(x: string, y: string)
    requires Text.LexLess(x, y)
    ensures !Text.LexLess(y, x)
  {
    if x != [] && y != [] && x[0] == y[0] {
      LexLessAsymmetric(x[1..], y[1..]);
    }
  }

  datatype Priority = Low | Normal | High | Urgent

  /** The value stored in the `priority` column. */
  function PriorityCode(p: Priority): string
  {
    match p
    case Low => "low"
    case Normal => "normal"
    case High => "high"
    case Urgent => "urgent"
  }

  datatype Announcement = Announcement(id: nat, title: string, priority: Priority,
                                       startDate: int, endDate: int, isActive: bool, createdBy: nat)

  /** `Announcement.is_current` at instant `now`. */
  predicate IsCurrent(a: Announcement, now: int)
    ensures IsCurrent(a, now) ==> a.isActive && a.startDate <= a.endDate
  {
    a.startDate <= now <= a.endDate && a.isActive
  }

  /** An inactive announcement, or one whose window is empty, is never current. */
  lemma NeverCurrent(a: Announcement, now: int)
    ensures !a.isActive ==> !IsCurrent(a, now)
    ensures a.startDate > a.endDate ==> !IsCurrent(a, now)
  {
  }

  /** The ordering `['-priority', '-start_date']`: priority strings
      descending, then the latest start first. */
  predicate AnnouncementBefore(a: Announcement, b: Announcement)
  {
    Text.LexLess(PriorityCode(b.priority), PriorityCode(a.priority))
    || (a.priority == b.priority && a.startDate >= b.startDate)
  }

  /** The priority order is the strings', not the urgency's: "urgent" first,
      then "normal", "low", and "high" last. */
  lemma PriorityOrderIsLexicographic(a: Announcement, b: Announcement)
    ensures a.priority == Urgent && b.priority != Urgent ==> AnnouncementBefore(a, b) && !AnnouncementBefore(b, a)
    ensures a.priority == Normal && (b.priority == Low || b.priority == High) ==> AnnouncementBefore(a, b) && !AnnouncementBefore(b, a)
    ensures a.priority == Low && b.priority == High ==> AnnouncementBefore(a, b) && !AnnouncementBefore(b, a)
  {
    assert PriorityCode(Urgent) == "urgent" && PriorityCode(Normal) == "normal";
    assert PriorityCode(Low) == "low" && PriorityCode(High) == "high";
  }

  /** A verse of the day; `date` is a day number. */
  datatype Verse = Verse(id: nat, verseText: string, reference: string, date: int, isActive: bool)

  /** The `unique=True` constraint on `VerseOfTheDay.date`: at most one verse per date. */
  predicate UniqueDates(verses: seq<Verse>)
  {
    forall i, j :: 0 <= i < j < |verses| ==> verses[i].date != verses[j].date
  }

  datatype ContactMessage = ContactMessage(id: nat, name: string, email: string, phone: string,
                                           subject: string, message: string, isRead: bool, createdAt: int)
}

module CoreViews {
  import opened Seqs
  import opened Users
  import opened CoreModels

  function ActiveInfo(): ChurchInfo -> bool
  {
    (c: ChurchInfo) => c.isActive
  }

  /** `ChurchInfoView.get_object`: the first active record, or none. */
  function ChurchInfoObject(rows: seq<ChurchInfo>): (r: Option<ChurchInfo>)
    ensures r.None? <==> forall c :: c in rows ==> !c.isActive
    ensures r.Some? ==> r.value.isActive && exists i :: (0 <= i < |rows| && rows[i] == r.value
      && forall k :: 0 <= k < i ==> !rows[k].isActive)
  {
    match FindIndex(rows, ActiveInfo())
    case None => None
    case Some(i) => Some(rows[i])
  }

  function CurrentAt(now: int): Announcement -> bool
  {
    (a: Announcement) => IsCurrent(a, now)
  }

  /** `AnnouncementListView.get_queryset`: exactly the current announcements,
      in the table's order. */
  function AnnouncementList(rows: seq<Announcement>, now: int): (r: seq<Announcement>)
    ensures IsSubsequence(r, rows)
    ensures forall a :: a in r <==> a in rows && IsCurrent(a, now)
    ensures SortedBy(rows, (a: Announcement, b: Announcement) => AnnouncementBefore(a, b)) ==>
      SortedBy(r, (a: Announcement, b: Announcement) => AnnouncementBefore(a, b))
  {
    FilterIsSubsequence(rows, CurrentAt(now));
    var before := (a: Announcement, b: Announcement) => AnnouncementBefore(a, b);
    if SortedBy(rows, before) then
      FilterKeepsSorted(rows, CurrentAt(now), before);
      Filter(rows, CurrentAt(now))
    else Filter(rows, CurrentAt(now))
  }

  /** The active verse with the latest date (the first of the active verses
      in the `-date` order). */
  function LatestActive(verses: seq<Verse>): (r: Option<Verse>)
    ensures r.None? <==> forall v :: v in verses ==> !v.isActive
    ensures r.Some? ==> r.value in verses && r.value.isActive
    ensures r.Some? ==> forall v :: v in verses && v.isActive ==> v.date <= r.value.date
  {
    if verses == [] then None
    else
      var rest := LatestActive(verses[1..]);
      assert forall v :: v in verses[1..] ==> v in verses;
      assert forall v :: v in verses ==> v == verses[0] || v in verses[1..];
      if !verses[0].isActive then rest
      else if rest.Some? && rest.value.date > verses[0].date then rest
      else Some(verses[0])
  }

  function ActiveOn(today: int): Verse -> bool
  {
    (v: Verse) => v.date == today && v.isActive
  }

  /** `verse_of_the_day`: today's active verse; failing that, the active
      verse with the latest date, which may lie in the past or the future;
      `None` (answered 404) only when no verse is active. */
  function VerseOfTheDay(verses: seq<Verse>, today: int): (r: Option<Verse>)
    ensures r.None? <==> forall v :: v in verses ==> !v.isActive
    ensures r.Some? ==> r.value in verses && r.value.isActive
    ensures (exists v :: v in verses && v.date == today && v.isActive) ==> r.Some? && r.value.date == today
    ensures r.Some? && r.value.date != today ==>
      forall v :: v in verses && v.isActive ==> v.date != today && v.date <= r.value.date
  {
    match FindFirst(verses, ActiveOn(today))
    case Some(v) => Some(v)
    case None => LatestActive(verses)
  }

  /** With unique dates, the verse returned for today is the only one
      dated today. */
  lemma TodayVerseUnique(verses: seq<Verse>, today: int, i: nat)
    requires UniqueDates(verses)
    requires i < |verses| && verses[i].date == today && verses[i].isActive
    ensures VerseOfTheDay(verses, today) == Some(verses[i])
  {
    var r := VerseOfTheDay(verses, today).value;
    var j :| 0 <= j < |verses| && verses[j] == r;
    assert verses[j].date == today;
  }

  /** The fallback can hand out a verse dated after today. */
  lemma FallbackMayBeFuture(today: int)
    ensures var v := Verse(1, "text", "John 3:16", today + 7, true);
      VerseOfTheDay([v], today) == Some(v)
  {
    var v := Verse(1, "text", "John 3:16", today + 7, true);
    assert FindFirst([v], ActiveOn(today)).None?;
  }

  /** `ContactMessageListView.get_queryset`: every message for staff, none
      for anyone else. */
  function ContactMessages(rows: seq<ContactMessage>, user: User): (r: seq<ContactMessage>)
    ensures user.isStaff ==> r == rows
    ensures !user.isStaff ==> r == []
  {
    if user.isStaff then rows else []
  }
}
