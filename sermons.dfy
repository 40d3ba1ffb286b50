/** The sermons app: sermons with their media fields and the two counters,
    series and playlists with their sermon counts, the filter set, the
    search endpoint, the detail and download endpoints that move the
    counters, and comments with their recursively serialised replies. */
module SermonModels {
  import opened Seqs

  /** A sermon row. A file field is `None` when NULL and `Some("")` when
      blank; the preacher's name and the series title are the joined rows'
      columns, and `tags` the names of its tags. */
  datatype Sermon = Sermon(
    id: nat, title: string, description: string,
    preacherId: nat, preacherName: string, seriesId: Option<nat>, seriesTitle: Option<string>,
    scriptureReference: string, audioFile: Option<string>, videoFile: Option<string>, videoUrl: string,
    datePreached: int, durationMinutes: Option<nat>, viewCount: nat, downloadCount: nat,
    isPublished: bool, isFeatured: bool, tags: seq<string>)

  /** A sermon as first saved: no views or downloads, not published, not featured. */
  function NewSermon(id: nat, title: string, preacherId: nat, preacherName: string, now: int): (s: Sermon)
    ensures s.viewCount == 0 && s.downloadCount == 0
    ensures !s.isPublished && !s.isFeatured
    ensures s.id == id && s.title == title && s.preacherId == preacherId && s.datePreached == now
  {
    Sermon(id, title, "", preacherId, preacherName, None, None, "", None, None, "",
           now, None, 0, 0, false, false, [])
  }

  /** The row after `increment_view_count`: one more view, and only
      `view_count` written. */
  function ViewCounted(s: Sermon): (t: Sermon)
    ensures t.viewCount == s.viewCount + 1
    ensures t == s.(viewCount := t.viewCount)
  {
    s.(viewCount := s.viewCount + 1)
  }

  /** The row after `increment_download_count`: one more download, and only
      `download_count` written. */
  function DownloadCounted(s: Sermon): (t: Sermon)
    ensures t.downloadCount == s.downloadCount + 1
    ensures t == s.(downloadCount := t.downloadCount)
  {
    s.(downloadCount := s.downloadCount + 1)
  }

  /** The two counters never affect each other: counting a view and a
      download gives the same row in either order. */
  lemma CountersCommute(s: Sermon)
    ensures ViewCounted(DownloadCounted(s)) == DownloadCounted(ViewCounted(s))
    ensures ViewCounted(s).downloadCount == s.downloadCount
    ensures DownloadCounted(s).viewCount == s.viewCount
  {
  }

  function InSeries(seriesId: nat): Sermon -> bool
  {
    (s: Sermon) => s.seriesId == Some(seriesId)
  }

  /** `SermonSeries.sermon_count`: the sermons that belong to the series. */
  function SermonCount(sermons: seq<Sermon>, seriesId: nat): (n: nat)
    ensures n <= |sermons|
    ensures n == |Filter(sermons, InSeries(seriesId))|
  {
    CountIsFilterLength(sermons, InSeries(seriesId));
    Count(sermons, InSeries(seriesId))
  }

  /** Adding a sermon raises its series' count by one and no other series'. */
  lemma SermonCountAfterAdd(sermons: seq<Sermon>, s: Sermon, seriesId: nat)
    ensures SermonCount(sermons + [s], seriesId) == SermonCount(sermons, seriesId) + (if s.seriesId == Some(seriesId) then 1 else 0)
  {
    CountAppend(sermons, [s], InSeries(seriesId));
  }
}

module SermonFilters {
  import opened Seqs
  import Text
  import opened SermonModels

  function AudioIs(value: bool): Sermon -> bool
  {
    (s: Sermon) => if value then s.audioFile != Some("") else s.audioFile == Some("")
  }

  /** `filter_has_audio`: `true` drops the sermons whose audio file is blank
      (a NULL file stays), `false` keeps exactly those. */
  function HasAudio(rows: seq<Sermon>, value: bool): (r: seq<Sermon>)
    ensures IsSubsequence(r, rows)
    ensures value ==> forall s :: s in r <==> s in rows && s.audioFile != Some("")
    ensures !value ==> forall s :: s in r <==> s in rows && s.audioFile == Some("")
  {
    FilterIsSubsequence(rows, AudioIs(value));
    Filter(rows, AudioIs(value))
  }

  /** Every sermon lands in exactly one of the two `has_audio` results. */
  lemma HasAudioPartitions(rows: seq<Sermon>)
    ensures forall s :: s in rows ==> (s in HasAudio(rows, true) <==> s !in HasAudio(rows, false))
    ensures |HasAudio(rows, true)| + |HasAudio(rows, false)| == |rows|
  {
    CountIsFilterLength(rows, AudioIs(true));
    CountIsFilterLength(rows, AudioIs(false));
    CountSplit(rows, AudioIs(true), AudioIs(false));
  }

  function VideoIs(value: bool): Sermon -> bool
  {
    (s: Sermon) => if value then s.videoFile != Some("") && s.videoUrl != ""
                   else s.videoFile == Some("") && s.videoUrl == ""
  }

  /** `filter_has_video`: `true` keeps the sermons with a video URL whose file
      is not blank; `false` keeps those with both a blank file and a blank
      URL. (The `isnull` test on the URL, which is never NULL, keeps all.) */
  function HasVideo(rows: seq<Sermon>, value: bool): (r: seq<Sermon>)
    ensures IsSubsequence(r, rows)
    ensures value ==> forall s :: s in r <==> s in rows && s.videoUrl != "" && s.videoFile != Some("")
    ensures !value ==> forall s :: s in r <==> s in rows && s.videoUrl == "" && s.videoFile == Some("")
  {
    FilterIsSubsequence(rows, VideoIs(value));
    Filter(rows, VideoIs(value))
  }

  /** A sermon with only one of the two video fields filled in is in neither
      `has_video` result, and no sermon is in both. */
  lemma HalfVideoInNeither(rows: seq<Sermon>, s: Sermon)
    requires s in rows
    requires (s.videoFile == Some("")) != (s.videoUrl == "")
    ensures s !in HasVideo(rows, true) && s !in HasVideo(rows, false)
  {
  }

  lemma HasVideoDisjoint(rows: seq<Sermon>)
    ensures forall s :: s in HasVideo(rows, true) ==> s !in HasVideo(rows, false)
  {
  }

  /** `[tag.strip() for tag in value.split(',')]`. */
  function TagList(value: string): (tags: seq<string>)
    ensures |tags| == |Text.Split(value, ',')| >= 1
    ensures forall k :: 0 <= k < |tags| ==> tags[k] == Text.Strip(Text.Split(value, ',')[k])
  {
    var pieces := Text.Split(value, ',');
    seq(|pieces|, k requires 0 <= k < |pieces| => Text.Strip(pieces[k]))
  }

  /** Every name in the list is free of commas and of surrounding whitespace. */
  lemma TagListClean(value: string)
    ensures forall k :: 0 <= k < |TagList(value)| ==> ',' !in TagList(value)[k]
    ensures forall k :: 0 <= k < |TagList(value)| ==>
      TagList(value)[k] == [] || (!Text.IsSpace(TagList(value)[k][0]) && !Text.IsSpace(TagList(value)[k][|TagList(value)[k]| - 1]))
  {
    var pieces := Text.Split(value, ',');
    forall k | 0 <= k < |pieces| ensures ',' !in Text.Strip(pieces[k]) {
      Text.StripIsCore(pieces[k]);
      var i, j :| 0 <= i <= j <= |pieces[k]| && Text.Strip(pieces[k]) == pieces[k][i..j];
      assert forall c :: c in pieces[k][i..j] ==> c in pieces[k];
    }
    forall k | 0 <= k < |pieces| ensures Text.Strip(pieces[k]) == [] ||
      (!Text.IsSpace(Text.Strip(pieces[k])[0]) && !Text.IsSpace(Text.Strip(pieces[k])[|Text.Strip(pieces[k])| - 1])) {
      Text.StripIsCore(pieces[k]);
    }
  }

  /** The sermon carries a tag named in the list (`tags__name__in`). */
  predicate HasListedTag(s: Sermon, tags: seq<string>)
  {
    exists k :: 0 <= k < |s.tags| && s.tags[k] in tags
  }

  function TaggedWith(value: string): Sermon -> bool
  {
    (s: Sermon) => HasListedTag(s, TagList(value))
  }

  /** `filter_by_tags`: the sermons with at least one listed tag, each once. */
  function ByTags(rows: seq<Sermon>, value: string): (r: seq<Sermon>)
    ensures IsSubsequence(r, rows)
    ensures forall s :: s in r <==> s in rows && HasListedTag(s, TagList(value))
    ensures NoDuplicates(rows) ==> NoDuplicates(r)
  {
    FilterIsSubsequence(rows, TaggedWith(value));
    if NoDuplicates(rows) then
      FilterNoDuplicates(rows, TaggedWith(value));
      Filter(rows, TaggedWith(value))
    else Filter(rows, TaggedWith(value))
  }

  function PreachedSince(start: int): Sermon -> bool { (s: Sermon) => s.datePreached >= start }
  function PreachedBy(end: int): Sermon -> bool { (s: Sermon) => s.datePreached <= end }

  /** `date_from` and `date_to`, given as instants: both bounds inclusive. */
  function DateRange(rows: seq<Sermon>, dateFrom: Option<int>, dateTo: Option<int>): (r: seq<Sermon>)
    ensures forall s :: s in r <==> (s in rows
      && (dateFrom.None? || s.datePreached >= dateFrom.value)
      && (dateTo.None? || s.datePreached <= dateTo.value))
  {
    var since := if dateFrom.Some? then Filter(rows, PreachedSince(dateFrom.value)) else rows;
    if dateTo.Some? then Filter(since, PreachedBy(dateTo.value)) else since
  }

  /** A sermon preached exactly at both bounds passes both. */
  lemma DateBoundsInclusive(rows: seq<Sermon>, s: Sermon)
    requires s in rows
    ensures s in DateRange(rows, Some(s.datePreached), Some(s.datePreached))
  {
  }
}

module SermonViews {
  import opened Seqs
  import Text
  import opened Users
  import opened SermonModels
  import opened SermonFilters

  function Published(): Sermon -> bool
  {
    (s: Sermon) => s.isPublished
  }

  function PublishedWithId(id: nat): Sermon -> bool
  {
    (s: Sermon) => s.id == id && s.isPublished
  }

  /** The query term matches title, description or scripture reference,
      ignoring case. */
  predicate MatchesQuery(s: Sermon, q: string)
  {
    Text.IContains(s.title, q) || Text.IContains(s.description, q) || Text.IContains(s.scriptureReference, q)
  }

  /** What `sermon_search` keeps: a published sermon meeting every non-empty
      criterion. A sermon without a series never meets a series criterion. */
  predicate SearchMatch(s: Sermon, q: string, preacher: string, series: string, tags: string)
  {
    s.isPublished
    && (q == "" || QueryIs(q)(s))
    && (preacher == "" || PreacherIs(preacher)(s))
    && (series == "" || SeriesIs(series)(s))
    && (tags == "" || TaggedWith(tags)(s))
  }

  function QueryIs(q: string): Sermon -> bool { (s: Sermon) => MatchesQuery(s, q) }
  function PreacherIs(p: string): Sermon -> bool { (s: Sermon) => Text.IContains(s.preacherName, p) }
  function SeriesIs(t: string): Sermon -> bool
  {
    (s: Sermon) => s.seriesTitle.Some? && Text.IContains(s.seriesTitle.value, t)
  }

  /** `sermon_search`: the published sermons narrowed by each criterion that
      was given, in table order, each sermon once. */
  method SermonSearch(rows: seq<Sermon>, q: string, preacher: string, series: string, tags: string)
    returns (sermons: seq<Sermon>)
    ensures IsSubsequence(sermons, rows)
    ensures forall s :: s in sermons <==> s in rows && SearchMatch(s, q, preacher, series, tags)
    ensures NoDuplicates(rows) ==> NoDuplicates(sermons)
    ensures q == "" && preacher == "" && series == "" && tags == "" ==> sermons == Filter(rows, Published())
  {
    sermons := Filter(rows, Published());
    FilterIsSubsequence(rows, Published());
    if NoDuplicates(rows) {
      FilterNoDuplicates(rows, Published());
    }
    if q != "" {
      sermons := Narrow(rows, sermons, QueryIs(q));
    }
    assert forall s :: s in sermons <==> s in rows && s.isPublished && (q == "" || QueryIs(q)(s));
    if preacher != "" {
      sermons := Narrow(rows, sermons, PreacherIs(preacher));
    }
    assert forall s :: s in sermons <==> (s in rows && s.isPublished && (q == "" || QueryIs(q)(s))
      && (preacher == "" || PreacherIs(preacher)(s)));
    if series != "" {
      sermons := Narrow(rows, sermons, SeriesIs(series));
    }
    assert forall s :: s in sermons <==> (s in rows && s.isPublished && (q == "" || QueryIs(q)(s))
      && (preacher == "" || PreacherIs(preacher)(s)) && (series == "" || SeriesIs(series)(s)));
    if tags != "" {
      sermons := Narrow(rows, sermons, TaggedWith(tags));
    }
  }

  /** One `.filter(...)` step of the search. */
  method Narrow(rows: seq<Sermon>, sermons: seq<Sermon>, p: Sermon -> bool) returns (r: seq<Sermon>)
    requires IsSubsequence(sermons, rows)
    ensures r == Filter(sermons, p)
    ensures forall s :: s in r <==> s in sermons && p(s)
    ensures IsSubsequence(r, rows)
    ensures NoDuplicates(sermons) ==> NoDuplicates(r)
  {
    r := Filter(sermons, p);
    FilterIsSubsequence(sermons, p);
    SubsequenceTrans(r, sermons, rows);
    if NoDuplicates(sermons) {
      FilterNoDuplicates(sermons, p);
    }
  }

  /** The empty query matches every published sermon. */
  lemma EmptyCriteriaKeepAllPublished(s: Sermon)
    requires s.isPublished
    ensures SearchMatch(s, "", "", "", "")
  {
  }

  function Featured(): Sermon -> bool
  {
    (s: Sermon) => s.isPublished && s.isFeatured
  }

  /** `FeaturedSermonsView`: published and featured. */
  function FeaturedSermons(rows: seq<Sermon>): (r: seq<Sermon>)
    ensures IsSubsequence(r, rows)
    ensures forall s :: s in r <==> s in rows && s.isPublished && s.isFeatured
  {
    FilterIsSubsequence(rows, Featured());
    Filter(rows, Featured())
  }

  function LaterPreachedFirst(): (Sermon, Sermon) -> bool
  {
    (a: Sermon, b: Sermon) => a.datePreached >= b.datePreached
  }

  function MoreViewedFirst(): (Sermon, Sermon) -> bool
  {
    (a: Sermon, b: Sermon) => a.viewCount >= b.viewCount
  }

  lemma LaterPreachedFirstIsOrder()
    ensures Total(LaterPreachedFirst()) && Transitive(LaterPreachedFirst())
  {
  }

  lemma MoreViewedFirstIsOrder()
    ensures Total(MoreViewedFirst()) && Transitive(MoreViewedFirst())
  {
  }

  /** The ten published sermons first in `before`'s order. */
  function TopTen(rows: seq<Sermon>, before: (Sermon, Sermon) -> bool): (r: seq<Sermon>)
    requires Total(before) && Transitive(before)
    ensures |r| == if Count(rows, Published()) <= 10 then Count(rows, Published()) else 10
    ensures forall s :: s in r ==> s in rows && s.isPublished
    ensures SortedBy(r, before)
    ensures Count(rows, Published()) <= 10 ==> forall s :: s in rows && s.isPublished ==> s in r
    ensures forall s, t :: s in r && t in rows && t.isPublished && t !in r ==> before(s, t)
  {
    var published := Filter(rows, Published());
    var sorted := SortBy(published, before);
    SameMembers(sorted, published);
    CountIsFilterLength(rows, Published());
    assert |sorted| == |published| by {
      assert |multiset(sorted)| == |multiset(published)|;
    }
    var r := Take(sorted, 10);
    assert forall s :: s in r ==> s in sorted;
    TakeComesFirst(sorted, 10, before);
    assert forall t :: t in rows && t.isPublished ==> t in sorted;
    r
  }

  /** `RecentSermonsView`: the ten latest published sermons, latest first
      (the table's own `-date_preached` order, sliced). */
  function RecentSermons(rows: seq<Sermon>): (r: seq<Sermon>)
    ensures |r| == if Count(rows, Published()) <= 10 then Count(rows, Published()) else 10
    ensures SortedBy(r, LaterPreachedFirst())
    ensures forall s :: s in r ==> s in rows && s.isPublished
    ensures forall s, t :: s in r && t in rows && t.isPublished && t !in r ==> s.datePreached >= t.datePreached
  {
    LaterPreachedFirstIsOrder();
    var r := TopTen(rows, LaterPreachedFirst());
    assert forall s, t :: s in r && t in rows && t.isPublished && t !in r ==> s.datePreached >= t.datePreached by {
      forall s, t | s in r && t in rows && t.isPublished && t !in r ensures s.datePreached >= t.datePreached {
        assert LaterPreachedFirst()(s, t);
      }
    }
    r
  }

  /** `PopularSermonsView`: the ten most viewed published sermons, most viewed first. */
  function PopularSermons(rows: seq<Sermon>): (r: seq<Sermon>)
    ensures |r| == if Count(rows, Published()) <= 10 then Count(rows, Published()) else 10
    ensures SortedBy(r, MoreViewedFirst())
    ensures forall s :: s in r ==> s in rows && s.isPublished
    ensures forall s, t :: s in r && t in rows && t.isPublished && t !in r ==> s.viewCount >= t.viewCount
  {
    MoreViewedFirstIsOrder();
    var r := TopTen(rows, MoreViewedFirst());
    assert forall s, t :: s in r && t in rows && t.isPublished && t !in r ==> s.viewCount >= t.viewCount by {
      forall s, t | s in r && t in rows && t.isPublished && t !in r ensures s.viewCount >= t.viewCount {
        assert MoreViewedFirst()(s, t);
      }
    }
    r
  }

  /** A `SermonDownload` record. */
  datatype SermonDownload = SermonDownload(sermonId: nat, userId: Option<nat>, ipAddress: string, fileType: string)

  /** The sermon and download tables behind the detail and download endpoints. */
  class SermonTable {
    var rows: seq<Sermon>
    var downloads: seq<SermonDownload>

    constructor (rows0: seq<Sermon>)
      ensures rows == rows0 && downloads == []
    {
      rows := rows0;
      downloads := [];
    }

    /** `Sermon.increment_view_count`. */
    method IncrementViewCount(i: nat)
      requires i < |rows|
      modifies this`rows
      ensures rows == old(rows)[i := ViewCounted(old(rows)[i])]
    {
      var s := rows[i];
      s := s.(viewCount := s.viewCount + 1);
      rows := rows[i := s];
    }

    /** `Sermon.increment_download_count`. */
    method IncrementDownloadCount(i: nat)
      requires i < |rows|
      modifies this`rows
      ensures rows == old(rows)[i := DownloadCounted(old(rows)[i])]
    {
      var s := rows[i];
      s := s.(downloadCount := s.downloadCount + 1);
      rows := rows[i := s];
    }

    /** `SermonDetailView.retrieve`: 404 for a missing or unpublished sermon;
        otherwise one more view, and the sermon shown already counts it. */
    method Retrieve(id: nat) returns (status: nat, shown: Option<Sermon>)
      modifies this`rows
      ensures status == 404 <==> FindIndex(old(rows), PublishedWithId(id)).None?
      ensures status == 404 ==> rows == old(rows) && shown.None?
      ensures status != 404 ==> status == 200 && (var i := FindIndex(old(rows), PublishedWithId(id)).value;
        rows == old(rows)[i := ViewCounted(old(rows)[i])]
        && shown == Some(rows[i]) && rows[i].viewCount == old(rows)[i].viewCount + 1)
    {
      var found := FindIndex(rows, PublishedWithId(id));
      if found.None? {
        return 404, None;
      }
      IncrementViewCount(found.value);
      status, shown := 200, Some(rows[found.value]);
    }

    /** `track_sermon_download`: 404 with nothing recorded for a missing or
        unpublished sermon; otherwise one download record, with the file type
        "audio" when none is given, and one more download. */
    method TrackDownload(id: nat, user: Option<User>, ipAddress: string, fileType: Option<string>) returns (status: nat)
      modifies this
      ensures status == 404 <==> FindIndex(old(rows), PublishedWithId(id)).None?
      ensures status == 404 ==> rows == old(rows) && downloads == old(downloads)
      ensures status != 404 ==> status == 200 && (var i := FindIndex(old(rows), PublishedWithId(id)).value;
        rows == old(rows)[i := DownloadCounted(old(rows)[i])]
        && downloads == old(downloads) + [SermonDownload(old(rows)[i].id,
             if user.Some? then Some(user.value.id) else None, ipAddress,
             if fileType.Some? then fileType.value else "audio")])
    {
      var found := FindIndex(rows, PublishedWithId(id));
      if found.None? {
        return 404;
      }
      var kind := if fileType.Some? then fileType.value else "audio";
      downloads := downloads + [SermonDownload(rows[found.value].id,
        if user.Some? then Some(user.value.id) else None, ipAddress, kind)];
      IncrementDownloadCount(found.value);
      status := 200;
    }
  }

  /** Comments --------------------------------------------------------- */

  datatype SermonComment = SermonComment(id: nat, sermonId: nat, user: User, comment: string,
                                         isApproved: bool, parentId: Option<nat>, createdAt: int)

  /** The fields a client may send: `user` and `is_approved` are not among them. */
  datatype CommentPayload = CommentPayload(sermonId: nat, comment: string, parentId: Option<nat>)

  /** `SermonCommentCreateView.perform_create`: the caller as author, and
      not approved until a moderator approves it. */
  function NewComment(id: nat, user: User, p: CommentPayload, now: int): (c: SermonComment)
    ensures !c.isApproved && c.user == user
    ensures c.sermonId == p.sermonId && c.comment == p.comment && c.parentId == p.parentId
  {
    SermonComment(id, p.sermonId, user, p.comment, false, p.parentId, now)
  }

  function ListedComment(sermonId: nat): SermonComment -> bool
  {
    (c: SermonComment) => c.sermonId == sermonId && c.isApproved && c.parentId.None?
  }

  /** `SermonCommentListView.get_queryset`: the approved top-level comments
      of the sermon. */
  function CommentList(comments: seq<SermonComment>, sermonId: nat): (r: seq<SermonComment>)
    ensures IsSubsequence(r, comments)
    ensures forall c :: c in r <==> c in comments && c.sermonId == sermonId && c.isApproved && c.parentId.None?
  {
    FilterIsSubsequence(comments, ListedComment(sermonId));
    Filter(comments, ListedComment(sermonId))
  }

  /** A freshly posted comment is not listed. */
  lemma NewCommentNotListed(comments: seq<SermonComment>, id: nat, user: User, p: CommentPayload, now: int)
    ensures NewComment(id, user, p, now) !in CommentList(comments + [NewComment(id, user, p, now)], p.sermonId)
  {
  }

  function ApprovedOn(sermonId: nat): SermonComment -> bool
  {
    (c: SermonComment) => c.sermonId == sermonId && c.isApproved
  }

  /** `get_comments_count`: every approved comment on the sermon, replies included. */
  function CommentsCount(comments: seq<SermonComment>, sermonId: nat): (n: nat)
    ensures n == |Filter(comments, ApprovedOn(sermonId))|
    ensures |CommentList(comments, sermonId)| <= n
  {
    CountIsFilterLength(comments, ApprovedOn(sermonId));
    CountIsFilterLength(comments, ListedComment(sermonId));
    CountMonotone(comments, ListedComment(sermonId), ApprovedOn(sermonId));
    Count(comments, ApprovedOn(sermonId))
  }

  /** A comment with the replies that point at it, each with its own. */
  datatype CommentTree = CommentTree(comment: SermonComment, replies: seq<CommentTree>)

  /** What `SermonCommentSerializer` renders for one comment. The author is
      kept and `user_name` is read from it by `UserName`. */
  datatype CommentData = CommentData(id: nat, sermonId: nat, user: User, comment: string,
                                     isApproved: bool, parentId: Option<nat>, replies: seq<CommentData>)
  {
    /** The `user_name` field: `user.get_full_name`. */
    function UserName(): string
    {
      FullName(user)
    }
  }

  /** `SermonCommentSerializer`, with `get_replies` rendering the approved
      direct replies the same way. */
  function Serialize(t: CommentTree): (d: CommentData)
    ensures d.id == t.comment.id && d.comment == t.comment.comment && d.isApproved == t.comment.isApproved
    ensures d.user == t.comment.user
    ensures |d.replies| <= |t.replies|
    decreases t, 1
  {
    CommentData(t.comment.id, t.comment.sermonId, t.comment.user, t.comment.comment,
                t.comment.isApproved, t.comment.parentId, SerializeReplies(t.replies))
  }

  /** The approved trees among `ts`, rendered, in order. */
  function SerializeReplies(ts: seq<CommentTree>): (ds: seq<CommentData>)
    ensures |ds| <= |ts|
    decreases ts, 0
  {
    if ts == [] then []
    else if ts[0].comment.isApproved then [Serialize(ts[0])] + SerializeReplies(ts[1..])
    else SerializeReplies(ts[1..])
  }

  /** Nothing is rendered exactly when no tree in the list is approved. */
  lemma {:induction false} RepliesEmptyIffNoneApproved(ts: seq<CommentTree>)
    ensures SerializeReplies(ts) == [] <==> forall k :: 0 <= k < |ts| ==> !ts[k].comment.isApproved
  {
    if ts != [] {
      RepliesEmptyIffNoneApproved(ts[1..]);
      assert forall k :: 1 <= k < |ts| ==> ts[k] == ts[1..][k - 1];
    }
  }

  /** No unapproved comment appears anywhere in the rendered reply tree. */
  predicate AllRepliesApproved(d: CommentData)
    decreases d
  {
    forall k :: 0 <= k < |d.replies| ==> d.replies[k].isApproved && AllRepliesApproved(d.replies[k])
  }

  lemma {:induction false} SerializedRepliesApproved(t: CommentTree)
    ensures AllRepliesApproved(Serialize(t))
    decreases t, 1
  {
    SerializedListApproved(t.replies);
  }

  lemma {:induction false} SerializedListApproved(ts: seq<CommentTree>)
    ensures forall k :: 0 <= k < |SerializeReplies(ts)| ==>
      SerializeReplies(ts)[k].isApproved && AllRepliesApproved(SerializeReplies(ts)[k])
    decreases ts, 0
  {
    if ts != [] {
      SerializedListApproved(ts[1..]);
      if ts[0].comment.isApproved {
        SerializedRepliesApproved(ts[0]);
        var ds := SerializeReplies(ts);
        assert ds == [Serialize(ts[0])] + SerializeReplies(ts[1..]);
      }
    }
  }

  /** An unapproved reply is left out together with its whole subtree:
      adding it, whatever it holds, changes nothing rendered; an approved one
      adds exactly its own rendering. */
  lemma ReplyAdded(t: CommentTree, r: CommentTree)
    ensures !r.comment.isApproved ==> Serialize(t.(replies := t.replies + [r])) == Serialize(t)
    ensures r.comment.isApproved ==>
      Serialize(t.(replies := t.replies + [r])).replies == Serialize(t).replies + [Serialize(r)]
  {
    SerializeRepliesAppend(t.replies, r);
  }

  lemma {:induction false} SerializeRepliesAppend(ts: seq<CommentTree>, r: CommentTree)
    ensures SerializeReplies(ts + [r]) == SerializeReplies(ts) + (if r.comment.isApproved then [Serialize(r)] else [])
  {
    var tail := if r.comment.isApproved then [Serialize(r)] else [];
    if ts == [] {
      assert [] + [r] == [r];
    } else {
      var u := ts + [r];
      assert u[0] == ts[0];
      assert u[1..] == ts[1..] + [r];
      SerializeRepliesAppend(ts[1..], r);
      assert SerializeReplies(u[1..]) == SerializeReplies(ts[1..]) + tail;
      if ts[0].comment.isApproved {
        var d := Serialize(ts[0]);
        assert SerializeReplies(u) == [d] + SerializeReplies(u[1..]);
        assert SerializeReplies(ts) == [d] + SerializeReplies(ts[1..]);
        assert [d] + (SerializeReplies(ts[1..]) + tail) == ([d] + SerializeReplies(ts[1..])) + tail;
      } else {
        assert SerializeReplies(u) == SerializeReplies(u[1..]);
        assert SerializeReplies(ts) == SerializeReplies(ts[1..]);
      }
    }
  }

  /** Playlists ---------------------------------------------------------- */

  datatype SermonPlaylist = SermonPlaylist(id: nat, name: string, createdBy: nat, isPublic: bool)

  datatype PlaylistItem = PlaylistItem(playlistId: nat, sermonId: nat, order: nat)

  function ItemOf(playlistId: nat): PlaylistItem -> bool
  {
    (it: PlaylistItem) => it.playlistId == playlistId
  }

  /** `get_sermons_count`: the sermons on the playlist, one item each. */
  function SermonsCount(items: seq<PlaylistItem>, playlistId: nat): (n: nat)
    ensures n <= |items|
    ensures n == |Filter(items, ItemOf(playlistId))|
  {
    CountIsFilterLength(items, ItemOf(playlistId));
    Count(items, ItemOf(playlistId))
  }

  function VisibleTo(user: Option<User>): SermonPlaylist -> bool
  {
    (p: SermonPlaylist) => p.isPublic || (user.Some? && p.createdBy == user.value.id)
  }

  /** `SermonPlaylistListView.get_queryset`: the public playlists, and the
      caller's own when signed in. */
  function PlaylistList(playlists: seq<SermonPlaylist>, user: Option<User>): (r: seq<SermonPlaylist>)
    ensures IsSubsequence(r, playlists)
    ensures forall p :: p in r <==> p in playlists && (p.isPublic || (user.Some? && p.createdBy == user.value.id))
    ensures user.None? ==> forall p :: p in r ==> p.isPublic
  {
    FilterIsSubsequence(playlists, VisibleTo(user));
    Filter(playlists, VisibleTo(user))
  }
}
