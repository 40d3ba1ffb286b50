/** The home page: ministry anchors, description snippets, the truncated
    lists and the impact figures. */
module HomePage {
  import opened Seqs
  import opened Text
  import opened FormRules
  import opened PageText

  /** `name.toLowerCase().replace(/\s+/g, '-')`: letters lowered, and each
      maximal run of whitespace replaced by one `-`. */
  function Slug(s: string): (r: string)
    ensures r == [] <==> s == []
    decreases |s|
  {
    if s == [] then []
    else if IsSpace(s[0]) then "-" + Slug(TrimStart(s))
    else [LowerChar(s[0])] + Slug(s[1..])
  }

  /** The slug holds no whitespace and is no longer than the name. */
  lemma {:induction false} SlugHasNoSpace(s: string)
    ensures |Slug(s)| <= |s| && NoSpace(Slug(s))
    decreases |s|
  {
    if s != [] {
      var rest := if IsSpace(s[0]) then TrimStart(s) else s[1..];
      var head := if IsSpace(s[0]) then '-' else LowerChar(s[0]);
      if IsSpace(s[0]) {
        assert rest == [] || rest[0] == s[|s| - |rest|];
      }
      SlugHasNoSpace(rest);
      assert Slug(s) == [head] + Slug(rest);
      assert !IsSpace(head);
      assert forall k :: 0 < k < |Slug(s)| ==> Slug(s)[k] == Slug(rest)[k - 1];
    }
  }

  /** A name without whitespace is only lowered. */
  lemma {:induction false} SlugOfWord(s: string)
    requires NoSpace(s)
    ensures Slug(s) == Lower(s)
    decreases |s|
  {
    if s != [] {
      assert !IsSpace(s[0]);
      SlugOfWord(s[1..]);
    }
  }

  /** A whitespace run between a word and the rest becomes one `-`. */
  lemma {:induction false} SlugOfRun(a: string, w: string, b: string)
    requires NoSpace(a)
    requires w != [] && forall k :: 0 <= k < |w| ==> IsSpace(w[k])
    requires b == [] || !IsSpace(b[0])
    ensures Slug(a + (w + b)) == Lower(a) + "-" + Slug(b)
    decreases |a|
  {
    if a == [] {
      assert a + (w + b) == w + b;
      SlugOfLeadingRun(w, b);
      assert Lower(a) == [];
    } else {
      NoSpaceTail(a);
      SlugOfRun(a[1..], w, b);
      SlugOfLetter(a, w + b);
      LowerOfCons(a);
      AppendAssoc([LowerChar(a[0])], Lower(a[1..]), "-", Slug(b));
    }
  }

  lemma NoSpaceTail(a: string)
    requires a != [] && NoSpace(a)
    ensures !IsSpace(a[0]) && NoSpace(a[1..])
  {
    assert forall k :: 0 <= k < |a| - 1 ==> a[1..][k] == a[k + 1];
  }

  lemma AppendAssoc(x: string, y: string, z: string, u: string)
    ensures x + (y + z + u) == x + y + z + u
  {
  }

  /** A leading whitespace run becomes one `-`. */
  lemma SlugOfLeadingRun(w: string, b: string)
    requires w != [] && forall k :: 0 <= k < |w| ==> IsSpace(w[k])
    requires b == [] || !IsSpace(b[0])
    ensures Slug(w + b) == "-" + Slug(b)
  {
    assert (w + b)[0] == w[0];
    TrimStartOfRun(w, b);
  }

  /** A leading non-space character is lowered and kept. */
  lemma SlugOfLetter(a: string, rest: string)
    requires a != [] && !IsSpace(a[0])
    ensures Slug(a + rest) == [LowerChar(a[0])] + Slug(a[1..] + rest)
  {
    var s := a + rest;
    assert s[0] == a[0];
    assert s[1..] == a[1..] + rest;
  }

  lemma LowerOfCons(a: string)
    requires a != []
    ensures Lower(a) == [LowerChar(a[0])] + Lower(a[1..])
  {
  }

  /** Leading whitespace is all that `TrimStart` removes. */
  lemma {:induction false} TrimStartOfRun(w: string, b: string)
    requires forall k :: 0 <= k < |w| ==> IsSpace(w[k])
    requires b == [] || !IsSpace(b[0])
    ensures TrimStart(w + b) == b
    decreases |w|
  {
    if w != [] {
      assert (w + b)[0] == w[0];
      assert (w + b)[1..] == w[1..] + b;
      TrimStartOfRun(w[1..], b);
    } else {
      assert w + b == b;
    }
  }

  const SnippetLength: nat := 120

  /** `description?.replace(/<[^>]*>/g, '').substring(0, 120)` followed by
      "...": the first 120 characters of the tag-stripped text, and only the
      dots when there is no description. */
  function Snippet(description: Option<string>): (r: string)
    ensures 3 <= |r| <= SnippetLength + 3
    ensures r[|r| - 3..] == "..."
    ensures TagFree(r[..|r| - 3])
    ensures description.None? ==> r == "..."
    ensures description.Some? && '<' !in description.value && |description.value| <= SnippetLength
      ==> r == description.value + "..."
    ensures description.Some? ==>
      var text := StripTags(description.value);
      |r| - 3 == (if |text| < SnippetLength then |text| else SnippetLength) && r[..|r| - 3] == text[..|r| - 3]
  {
    var stripped := if description.Some? then StripTags(description.value) else [];
    var text := Take(stripped, SnippetLength);
    TagFreePrefix(stripped, |text|);
    assert description.Some? && '<' !in description.value ==> stripped == description.value by {
      if description.Some? && '<' !in description.value {
        StripTagsPlain(description.value);
      }
    }
    var r := text + "...";
    assert r[..|text|] == text && r[|text|..] == "...";
    r
  }

  datatype MinistryCard = MinistryCard(id: nat, name: string, description: Option<string>)

  /** A rendered ministry card: name, snippet and the `/ministries#<slug>` link. */
  datatype MinistryTile = MinistryTile(name: string, snippet: string, link: string)

  function Tile(m: MinistryCard): (t: MinistryTile)
    ensures t.name == m.name && t.snippet == Snippet(m.description)
    ensures t.link == "/ministries#" + Slug(m.name)
    ensures StartsWith(t.link, "/ministries#") && NoSpace(t.link)
  {
    var link := "/ministries#" + Slug(m.name);
    SlugHasNoSpace(m.name);
    AnchorLink(Slug(m.name));
    MinistryTile(m.name, Snippet(m.description), link)
  }

  lemma AnchorLink(slug: string)
    requires NoSpace(slug)
    ensures StartsWith("/ministries#" + slug, "/ministries#") && NoSpace("/ministries#" + slug)
  {
    var link := "/ministries#" + slug;
    assert link[..12] == "/ministries#";
    forall k | 0 <= k < |link| ensures !IsSpace(link[k]) {
      if k >= 12 {
        assert link[k] == slug[k - 12];
      }
    }
  }

  function Tiles(ms: seq<MinistryCard>): (ts: seq<MinistryTile>)
    ensures |ts| == |ms| && forall k :: 0 <= k < |ms| ==> ts[k] == Tile(ms[k])
  {
    seq(|ms|, k requires 0 <= k < |ms| => Tile(ms[k]))
  }

  /** The fetched impact figures. */
  datatype Stats = Stats(totalStaff: Option<nat>, totalMinistries: Option<nat>)

  /** What the page renders. */
  datatype HomeView = Spinner | Page(ministries: seq<MinistryTile>, sermonIds: seq<nat>, eventIds: seq<nat>,
                                     staffFigure: string, ministryFigure: string)

  /** The home page: only the spinner while church info loads; otherwise at
      most six ministries and three featured sermons and upcoming events, in
      the order the API gave, and the impact figures with their fallbacks. */
  function Home(churchLoading: bool, ministries: Option<seq<MinistryCard>>, sermonIds: Option<seq<nat>>,
                eventIds: Option<seq<nat>>, stats: Option<Stats>): (v: HomeView)
    ensures churchLoading <==> v == Spinner
    ensures v.Page? ==> |v.ministries| <= 6 && |v.sermonIds| <= 3 && |v.eventIds| <= 3
    ensures v.Page? && ministries.Some? ==> (|v.ministries| <= |ministries.value|
      && v.ministries == Tiles(ministries.value[..|v.ministries|]) && (|v.ministries| == 6 || |v.ministries| == |ministries.value|))
    ensures v.Page? && sermonIds.Some? ==> (|v.sermonIds| <= |sermonIds.value|
      && v.sermonIds == sermonIds.value[..|v.sermonIds|] && (|v.sermonIds| == 3 || v.sermonIds == sermonIds.value))
    ensures v.Page? && eventIds.Some? ==> (|v.eventIds| <= |eventIds.value|
      && v.eventIds == eventIds.value[..|v.eventIds|] && (|v.eventIds| == 3 || v.eventIds == eventIds.value))
    ensures v.Page? && ministries.None? ==> v.ministries == []
    ensures v.Page? && sermonIds.None? ==> v.sermonIds == []
    ensures v.Page? && eventIds.None? ==> v.eventIds == []
    ensures v.Page? && (stats.None? || stats.value.totalStaff.None? || stats.value.totalStaff.value == 0) ==> v.staffFigure == "10+"
    ensures v.Page? && (stats.None? || stats.value.totalMinistries.None? || stats.value.totalMinistries.value == 0) ==> v.ministryFigure == "5+"
    ensures v.Page? && stats.Some? && stats.value.totalStaff.Some? && stats.value.totalStaff.value != 0
      ==> ParseInt(v.staffFigure) == stats.value.totalStaff
    ensures v.Page? && stats.Some? && stats.value.totalMinistries.Some? && stats.value.totalMinistries.value != 0
      ==> ParseInt(v.ministryFigure) == stats.value.totalMinistries
  {
    if churchLoading then Spinner
    else
      var ms := if ministries.Some? then Take(ministries.value, 6) else [];
      Page(Tiles(ms),
           if sermonIds.Some? then Take(sermonIds.value, 3) else [],
           if eventIds.Some? then Take(eventIds.value, 3) else [],
           CountOrElse(if stats.Some? then stats.value.totalStaff else None, "10+"),
           CountOrElse(if stats.Some? then stats.value.totalMinistries else None, "5+"))
  }
}

/** The about page: the apostle, the rest of the team, their bios, and the
    mission and vision texts. */
module AboutPage {
  import opened Seqs
  import opened FormRules
  import opened PageText

  datatype StaffCard = StaffCard(id: nat, name: string, position: string, bio: string)

  function IsApostle(): StaffCard -> bool
  {
    (m: StaffCard) => m.position == "apostle"
  }

  function NotApostle(): StaffCard -> bool
  {
    (m: StaffCard) => m.position != "apostle"
  }

  /** `staff?.data?.find(position === 'apostle')`: the first apostle, if any. */
  function Apostle(staff: Option<seq<StaffCard>>): (a: Option<StaffCard>)
    ensures a.Some? ==> staff.Some? && a.value in staff.value && a.value.position == "apostle"
    ensures a.Some? ==> exists i :: (0 <= i < |staff.value| && staff.value[i] == a.value
                                      && forall k :: 0 <= k < i ==> staff.value[k].position != "apostle")
    ensures a.None? <==> staff.None? || forall m :: m in staff.value ==> m.position != "apostle"
  {
    if staff.None? then None else FindFirst(staff.value, IsApostle())
  }

  /** The team grid: every member who is not an apostle, in order. Every
      apostle is dropped, not only the one shown above. */
  function Team(staff: seq<StaffCard>): (team: seq<StaffCard>)
    ensures IsSubsequence(team, staff)
    ensures forall m :: m in team <==> m in staff && m.position != "apostle"
  {
    FilterIsSubsequence(staff, NotApostle());
    Filter(staff, NotApostle())
  }

  /** The team and the apostles together account for all the staff. */
  lemma TeamAndApostles(staff: seq<StaffCard>)
    ensures |Team(staff)| + Count(staff, IsApostle()) == |staff|
  {
    CountIsFilterLength(staff, NotApostle());
    CountSplit(staff, NotApostle(), IsApostle());
  }

  /** The team section renders only with more than one staff member,
      counting the apostle shown above it. */
  predicate ShowsTeam(staff: Option<seq<StaffCard>>)
    ensures ShowsTeam(staff) ==> staff.Some? && |staff.value| >= 2
    ensures staff.Some? && |staff.value| >= 2 ==> ShowsTeam(staff)
  {
    staff.Some? && |staff.value| > 1
  }

  /** A single staff member who is not an apostle is in the team but the
      team section stays hidden: the guard counts all the staff, not the team. */
  lemma LoneMemberHidden(m: StaffCard)
    requires m.position != "apostle"
    ensures Team([m]) == [m] && !ShowsTeam(Some([m]))
  {
    assert NotApostle()(m);
    assert Filter([m], NotApostle()) == [m] by {
      assert [m][1..] == [];
    }
  }

  /** Two apostles open the team section with an empty grid. */
  lemma TwoApostlesEmptyTeam(a: StaffCard, b: StaffCard)
    requires a.position == "apostle" && b.position == "apostle"
    ensures ShowsTeam(Some([a, b])) && Team([a, b]) == []
  {
    assert !NotApostle()(a) && !NotApostle()(b);
    assert [a, b][1..] == [b] && [b][1..] == [];
  }

  /** A team member's bio as shown: tags stripped. */
  function Bio(m: StaffCard): (shown: string)
    ensures shown == StripTags(m.bio)
    ensures TagFree(shown) && |shown| <= |m.bio|
    ensures shown == m.bio <==> TagFree(m.bio)
    ensures '<' !in m.bio ==> shown == m.bio
  {
    assert '<' !in m.bio ==> StripTags(m.bio) == m.bio by {
      if '<' !in m.bio {
        StripTagsPlain(m.bio);
      }
    }
    StripTags(m.bio)
  }

  const DefaultMission := "Called for Community Influence"
  const DefaultVision := "To build resilient communities through holistic ministry that addresses spiritual, mental, and physical well-being."

  /** Mission and vision, with their built-in texts when missing or empty. */
  function MissionAndVision(mission: Option<string>, vision: Option<string>): (shown: (string, string))
    ensures mission.None? || mission.value == "" ==> shown.0 == DefaultMission
    ensures vision.None? || vision.value == "" ==> shown.1 == DefaultVision
    ensures mission.Some? && mission.value != "" ==> shown.0 == mission.value
    ensures vision.Some? && vision.value != "" ==> shown.1 == vision.value
  {
    (OrElse(mission, DefaultMission), OrElse(vision, DefaultVision))
  }
}
