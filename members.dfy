/** The members app: a member's profile, its display name and the age
    computed from the date of birth. */
module MemberModels {
  import opened Seqs
  import opened Users

  /** A calendar date. */
  datatype Date = Date(year: int, month: int, day: int)

  /** `(a.month, a.day) < (b.month, b.day)`, Python's tuple comparison. */
  predicate MonthDayBefore(a: Date, b: Date)
  {
    a.month < b.month || (a.month == b.month && a.day < b.day)
  }

  /** `a < b` on dates. */
  predicate DateBefore(a: Date, b: Date)
  {
    a.year < b.year || (a.year == b.year && MonthDayBefore(a, b))
  }

  predicate IsLeapYear(y: int)
  {
    (y % 4 == 0 && y % 100 != 0) || y % 400 == 0
  }

  datatype MembershipStatus = Visitor | RegularAttendee | Member | Inactive

  datatype MemberProfile = MemberProfile(user: User, dateOfBirth: Option<Date>, membershipStatus: MembershipStatus)

  /** `MemberProfile.full_name`: the user's full name, else the username. */
  function FullName(m: MemberProfile): (name: string)
    ensures name == FullNameOrUsername(m.user)
    ensures m.user.firstName == [] && m.user.lastName == [] ==> name == m.user.username
  {
    FullNameOrUsername(m.user)
  }

  /** `MemberProfile.age` on `today`: the difference of the years, one less
      while this year's birthday is still to come; `None` without a date of birth. */
  function Age(dateOfBirth: Option<Date>, today: Date): (age: Option<int>)
    ensures age.None? <==> dateOfBirth.None?
    ensures dateOfBirth.Some? && today.month == dateOfBirth.value.month && today.day == dateOfBirth.value.day
      ==> age == Some(today.year - dateOfBirth.value.year)
    ensures dateOfBirth.Some? && !DateBefore(today, dateOfBirth.value) ==> age.value >= 0
  {
    match dateOfBirth
    case None => None
    case Some(dob) => Some(today.year - dob.year - (if MonthDayBefore(today, dob) then 1 else 0))
  }

  /** The birthday `n` years after birth. */
  function Birthday(dob: Date, n: int): Date
  {
    dob.(year := dob.year + n)
  }

  /** The age is the number of birthdays already reached: the last one is
      not after today and the next one is. */
  lemma AgeCountsBirthdays(dob: Date, today: Date)
    ensures var n := Age(Some(dob), today).value;
      !DateBefore(today, Birthday(dob, n)) && DateBefore(today, Birthday(dob, n + 1))
  {
  }

  /** The age goes up by exactly one between the day before a birthday and
      the birthday itself, within one year. */
  lemma AgeStepsOnBirthday(dob: Date, before: Date, on: Date)
    requires before.year == on.year && on.month == dob.month && on.day == dob.day
    requires MonthDayBefore(before, on)
    ensures Age(Some(dob), on).value == Age(Some(dob), before).value + 1
  {
  }

  /** Someone born on 29 February ages on 1 March in a year without that day. */
  lemma LeapDayBirthday(birthYear: int, year: int)
    requires !IsLeapYear(year)
    ensures Age(Some(Date(birthYear, 2, 29)), Date(year, 2, 28)) == Some(year - birthYear - 1)
    ensures Age(Some(Date(birthYear, 2, 29)), Date(year, 3, 1)) == Some(year - birthYear)
  {
  }
}
