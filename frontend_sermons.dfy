/** The sermon list page: its client-side search and series filter, the
    duration label, and the list it falls back to when the fetch throws. */
module SermonsPage {
  import opened Seqs
  import opened Text

  /** The fields of a fetched sermon the page uses. */
  datatype SermonCard = SermonCard(id: nat, title: string, description: string, scriptureReference: string,
                                   seriesTitle: Option<string>, durationMinutes: nat, viewCount: nat)

  /** The search term matches title, description or scripture reference,
      ignoring case. */
  predicate MatchesSearch(s: SermonCard, term: string)
  {
    IContains(s.title, term) || IContains(s.description, term) || IContains(s.scriptureReference, term)
  }

  /** No series selected, or exactly the selected series title. */
  predicate MatchesSeries(s: SermonCard, series: string)
  {
    series == "" || s.seriesTitle == Some(series)
  }

  function Shown(term: string, series: string): SermonCard -> bool
  {
    (s: SermonCard) => MatchesSearch(s, term) && MatchesSeries(s, series)
  }

  /** `filteredSermons`. */
  function FilteredSermons(sermons: seq<SermonCard>, term: string, series: string): (r: seq<SermonCard>)
    ensures IsSubsequence(r, sermons)
    ensures forall s :: s in r <==> s in sermons && MatchesSearch(s, term) && MatchesSeries(s, series)
    ensures term == "" && series == "" ==> r == sermons
  {
    FilterIsSubsequence(sermons, Shown(term, series));
    if term == "" && series == "" then
      forall s | s in sermons ensures Shown(term, series)(s) {
        EmptyIsContained(s.title);
      }
      FilterAll(sermons, Shown(term, series));
      Filter(sermons, Shown(term, series))
    else Filter(sermons, Shown(term, series))
  }

  /** `formatDuration`: "<m>m" below an hour, "<h>h <m>m" from an hour on. */
  function FormatDuration(minutes: nat): (r: string)
    ensures minutes < 60 ==> r == NatToString(minutes) + "m"
    ensures minutes >= 60 ==> 'h' in r
  {
    var hours := minutes / 60;
    var mins := minutes % 60;
    if hours > 0 then
      assert (NatToString(hours) + "h " + NatToString(mins) + "m")[|NatToString(hours)|] == 'h';
      NatToString(hours) + "h " + NatToString(mins) + "m"
    else NatToString(mins) + "m"
  }

  /** Reads a duration label back: "<h>h <m>m" or "<m>m". */
  function ParseDuration(s: string): Option<nat>
  {
    if |s| < 2 || s[|s| - 1] != 'm' then None else ParseLabelBody(s[..|s| - 1])
  }

  /** A label without its final `m`: "<h>h <m>" or "<m>". */
  function ParseLabelBody(body: string): Option<nat>
  {
    if 'h' in body then ParseHoursAt(body, IndexOf(body, 'h')) else ParseInt(body)
  }

  /** "<h>h <m>" whose `h` is at index `i`. */
  function ParseHoursAt(body: string, i: nat): Option<nat>
    requires i < |body|
  {
    if i + 1 < |body| && body[i + 1] == ' ' then
      match (ParseInt(body[..i]), ParseInt(body[i + 2..]))
      case (Some(h), Some(m)) => Some(h * 60 + m)
      case _ => None
    else None
  }

  /** The label determines the duration: reading it back gives the minutes. */
  lemma DurationRoundTrip(minutes: nat)
    ensures ParseDuration(FormatDuration(minutes)) == Some(minutes)
  {
    HoursAndMinutes(minutes);
    var hours, mins := minutes / 60, minutes % 60;
    if hours > 0 {
      HoursLabelParses(hours, mins);
      assert FormatDuration(minutes) == NatToString(hours) + "h " + NatToString(mins) + "m";
    } else {
      MinutesLabelParses(mins);
      assert mins == minutes;
    }
  }

  /** Splitting a duration into whole hours and the minutes left over. */
  lemma HoursAndMinutes(minutes: nat)
    ensures minutes == minutes / 60 * 60 + minutes % 60 && minutes % 60 < 60
    ensures minutes >= 60 <==> minutes / 60 > 0
  {
  }

  lemma HoursLabelParses(hours: nat, mins: nat)
    requires hours > 0
    ensures ParseDuration(NatToString(hours) + "h " + NatToString(mins) + "m") == Some(hours * 60 + mins)
  {
    var H, M := NatToString(hours), NatToString(mins);
    var body := H + "h " + M;
    assert H + "h " + M + "m" == body + "m";
    NumeralHasNoLetter(hours, 'h');
    HoursBodyShape(H, M);
    ParseIntOfNumeral(hours);
    ParseIntOfNumeral(mins);
    LabelWithHours(body, |H|, hours, mins);
  }

  /** In "<H>h <M>" the first `h` ends the hours and the minutes follow the space. */
  lemma HoursBodyShape(H: string, M: string)
    requires 'h' !in H
    ensures var body := H + "h " + M;
      'h' in body && IndexOf(body, 'h') == |H| && |H| + 1 < |body| && body[|H| + 1] == ' '
      && body[..|H|] == H && body[|H| + 2..] == M
  {
    var body := H + "h " + M;
    IndexAfterPrefix(H, " " + M, 'h');
    assert H + "h" + (" " + M) == body;
    assert body[..|H|] == H;
    assert body[|H| + 2..] == M;
  }

  lemma LabelWithHours(body: string, i: nat, hours: nat, mins: nat)
    requires 'h' in body && IndexOf(body, 'h') == i && i + 1 < |body| && body[i + 1] == ' '
    requires ParseInt(body[..i]) == Some(hours) && ParseInt(body[i + 2..]) == Some(mins)
    ensures ParseDuration(body + "m") == Some(hours * 60 + mins)
  {
    assert ParseHoursAt(body, i) == Some(hours * 60 + mins);
    LabelBody(body);
  }

  /** The final `m` is all `ParseDuration` removes before reading the body. */
  lemma LabelBody(body: string)
    requires body != []
    ensures ParseDuration(body + "m") == ParseLabelBody(body)
  {
    var s := body + "m";
    assert s[..|s| - 1] == body;
  }

  lemma MinutesLabelParses(mins: nat)
    ensures ParseDuration(NatToString(mins) + "m") == Some(mins)
  {
    var M := NatToString(mins);
    assert (M + "m")[..|M|] == M;
    NumeralHasNoLetter(mins, 'h');
    ParseIntOfNumeral(mins);
  }

  lemma NumeralHasNoLetter(n: nat, c: char)
    requires !IsDigit(c)
    ensures c !in NatToString(n)
  {
  }

  lemma IndexAfterPrefix(prefix: string, rest: string, c: char)
    requires c !in prefix
    ensures c in prefix + [c] + rest && IndexOf(prefix + [c] + rest, c) == |prefix|
  {
    var s := prefix + [c] + rest;
    assert s[|prefix|] == c;
    assert s[..|prefix|] == prefix;
  }

  const FallbackSermons: seq<SermonCard> := [
    SermonCard(1, "Walking in Faith", "A powerful message about trusting God in uncertain times.",
               "Hebrews 11:1", Some("Faith Series"), 45, 150),
    SermonCard(2, "Community Influence", "Understanding our calling to impact our communities for Christ.",
               "Matthew 5:13-16", Some("Called for Influence"), 52, 203),
    SermonCard(3, "Healing and Restoration", "God's heart for healing broken lives and communities.",
               "Isaiah 61:1-3", Some("Restoration Series"), 48, 178)
  ]

  /** A fetch: the list the response held, or a thrown error. */
  datatype Fetch<T> = Fetched(items: seq<T>) | Threw

  /** The page's state. */
  class SermonList {
    var sermons: seq<SermonCard>
    var loading: bool

    constructor()
      ensures sermons == [] && loading
    {
      sermons := [];
      loading := true;
    }

    /** `fetchSermons`: the fetched list, or the three fallback sermons when
        the fetch throws; loading ends either way. */
    method FetchSermons(response: Fetch<SermonCard>)
      modifies this
      ensures response.Fetched? ==> sermons == response.items
      ensures response.Threw? ==> sermons == FallbackSermons && |sermons| == 3
      ensures !loading
    {
      if response.Fetched? {
        sermons := response.items;
      } else {
        sermons := FallbackSermons;
      }
      loading := false;
    }
  }
}

/** The sermon detail page: play and download counters kept in component
    state, and the fallback sermon shown when the fetch fails. */
module SermonDetailPage {
  import opened Seqs
  import opened Text

  datatype SermonDetail = SermonDetail(id: Option<nat>, title: string, viewCount: int, downloadCount: int,
                                       durationMinutes: nat)

  /** The counters and the play toggle. */
  datatype Player = Player(sermon: Option<SermonDetail>, isPlaying: bool)

  /** `handlePlay`: toggles playing, and counts a view when playback starts. */
  function Play(p: Player): (q: Player)
    ensures q.isPlaying == !p.isPlaying
    ensures p.sermon.None? ==> q.sermon.None?
    ensures p.sermon.Some? ==> (q.sermon.Some? && q.sermon.value.downloadCount == p.sermon.value.downloadCount
      && q.sermon.value.viewCount == p.sermon.value.viewCount + (if p.isPlaying then 0 else 1))
  {
    Player(if p.sermon.Some? && !p.isPlaying then Some(p.sermon.value.(viewCount := p.sermon.value.viewCount + 1))
           else p.sermon,
           !p.isPlaying)
  }

  /** `handleDownload`: counts a download of any file type. */
  function Download(p: Player): (q: Player)
    ensures q.isPlaying == p.isPlaying
    ensures p.sermon.None? ==> q.sermon.None?
    ensures p.sermon.Some? ==> (q.sermon.Some? && q.sermon.value.viewCount == p.sermon.value.viewCount
      && q.sermon.value.downloadCount == p.sermon.value.downloadCount + 1)
  {
    Player(if p.sermon.Some? then Some(p.sermon.value.(downloadCount := p.sermon.value.downloadCount + 1))
           else p.sermon,
           p.isPlaying)
  }

  /** Play then pause comes back to the start with one more view. */
  lemma PlayPauseCountsOnce(p: Player)
    requires p.sermon.Some? && !p.isPlaying
    ensures Play(Play(p)) == Player(Some(p.sermon.value.(viewCount := p.sermon.value.viewCount + 1)), false)
  {
  }

  /** Pausing never counts a view. */
  lemma PauseCountsNothing(p: Player)
    requires p.isPlaying
    ensures Play(p).sermon == p.sermon
  {
  }

  /** Playing and downloading do not interfere. */
  lemma PlayDownloadCommute(p: Player)
    ensures Play(Download(p)) == Download(Play(p))
  {
  }

  /** The sermon shown when the fetch fails, numbered by `parseInt` of the route id. */
  function FallbackSermon(routeId: string): (s: SermonDetail)
    ensures s.id == ParseInt(routeId)
    ensures s.viewCount == 234 && s.downloadCount == 67
  {
    SermonDetail(ParseInt(routeId), "Walking in Faith", 234, 67, 45)
  }

  /** The page's state. */
  class SermonDetailView {
    var sermon: Option<SermonDetail>
    var isPlaying: bool
    var loading: bool

    constructor()
      ensures sermon.None? && !isPlaying && loading
    {
      sermon := None;
      isPlaying := false;
      loading := true;
    }

    /** `fetchSermon`: an ok response's sermon; a non-ok response or a thrown
        error both give the fallback. */
    method FetchSermon(routeId: string, response: Option<SermonDetail>)
      modifies this
      ensures sermon == Some(if response.Some? then response.value else FallbackSermon(routeId))
      ensures !loading && isPlaying == old(isPlaying)
    {
      if response.Some? {
        sermon := response;
      } else {
        sermon := Some(FallbackSermon(routeId));
      }
      loading := false;
    }

    method HandlePlay()
      modifies this
      ensures Player(sermon, isPlaying) == Play(old(Player(sermon, isPlaying)))
      ensures loading == old(loading)
    {
      var wasPlaying := isPlaying;
      isPlaying := !wasPlaying;
      if sermon.Some? && !wasPlaying {
        sermon := Some(sermon.value.(viewCount := sermon.value.viewCount + 1));
      }
    }

    /** The tracking request sent to the server is not modelled; its
        failure is only logged. */
    method HandleDownload(fileType: string)
      modifies this
      ensures Player(sermon, isPlaying) == Download(old(Player(sermon, isPlaying)))
      ensures loading == old(loading)
    {
      if sermon.Some? {
        sermon := Some(sermon.value.(downloadCount := sermon.value.downloadCount + 1));
      }
    }
  }
}
