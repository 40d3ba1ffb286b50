/** The livestream app: a stream's status and its platform links, the public
    querysets, and the viewer counter that `join_stream` / `leave_stream`
    move, with its high-water mark. */
module LivestreamModels {

  datatype StreamStatus = Scheduled | Live | Ended | Cancelled

  datatype LiveStream = LiveStream(
    id: nat, title: string,
    youtubeUrl: string, facebookUrl: string, zoomUrl: string, otherPlatformUrl: string,
    scheduledStart: int, status: StreamStatus, isFeatured: bool, isPublic: bool,
    viewerCount: nat, maxViewers: nat)

  predicate IsLive(s: LiveStream)
    ensures IsLive(s) ==> s.status != Scheduled
  {
    s.status == Live
  }

  predicate IsUpcoming(s: LiveStream, now: int)
    ensures IsUpcoming(s, now) ==> s.scheduledStart > now && s.status != Live
  {
    s.status == Scheduled && s.scheduledStart > now
  }

  /** A stream is never both live and upcoming. */
  lemma NeverLiveAndUpcoming(s: LiveStream, now: int)
    ensures !(IsLive(s) && IsUpcoming(s, now))
  {
  }

  /** `LiveStream.primary_stream_url`: the first non-empty link in the order
      YouTube, Facebook, Zoom, other. */
  function PrimaryStreamUrl(s: LiveStream): (url: string)
    ensures s.youtubeUrl != "" ==> url == s.youtubeUrl
    ensures s.youtubeUrl == "" && s.facebookUrl != "" ==> url == s.facebookUrl
    ensures s.youtubeUrl == "" && s.facebookUrl == "" && s.zoomUrl != "" ==> url == s.zoomUrl
    ensures url in {s.youtubeUrl, s.facebookUrl, s.zoomUrl, s.otherPlatformUrl}
    ensures url == "" <==>
      s.youtubeUrl == "" && s.facebookUrl == "" && s.zoomUrl == "" && s.otherPlatformUrl == ""
  {
    if s.youtubeUrl != "" then s.youtubeUrl
    else if s.facebookUrl != "" then s.facebookUrl
    else if s.zoomUrl != "" then s.zoomUrl
    else s.otherPlatformUrl
  }

  /** The high-water mark never lies below the current count. */
  predicate CountersValid(s: LiveStream) { s.viewerCount <= s.maxViewers }

  /** The counters after one viewer joins (`join_stream`, lines 111-113). */
  function Joined(s: LiveStream): (t: LiveStream)
    ensures t.viewerCount == s.viewerCount + 1
    ensures CountersValid(t) && t.maxViewers >= s.maxViewers
    ensures CountersValid(s) ==> t.maxViewers == if s.viewerCount + 1 > s.maxViewers then s.viewerCount + 1 else s.maxViewers
    ensures t == s.(viewerCount := t.viewerCount, maxViewers := t.maxViewers)
  {
    var count := s.viewerCount + 1;
    s.(viewerCount := count, maxViewers := if count > s.maxViewers then count else s.maxViewers)
  }

  /** The counters after one viewer leaves (`leave_stream`, lines 134-136). */
  function Left(s: LiveStream): (t: LiveStream)
    ensures s.viewerCount > 0 ==> t.viewerCount == s.viewerCount - 1
    ensures s.viewerCount == 0 ==> t == s
    ensures t.maxViewers == s.maxViewers
    ensures CountersValid(s) ==> CountersValid(t)
    ensures t == s.(viewerCount := t.viewerCount)
  {
    if s.viewerCount > 0 then s.(viewerCount := s.viewerCount - 1) else s
  }

  /** A join followed by a leave restores the viewer count. */
  lemma JoinThenLeave(s: LiveStream)
    ensures Left(Joined(s)).viewerCount == s.viewerCount
    ensures Left(Joined(s)).maxViewers >= s.maxViewers
  {
  }
}

module LivestreamViews {
  import opened Seqs
  import opened LivestreamModels

  function CurrentOf(): LiveStream -> bool
  {
    (s: LiveStream) => s.isPublic && s.status == Live
  }

  function UpcomingOf(now: int): LiveStream -> bool
  {
    (s: LiveStream) => s.isPublic && IsUpcoming(s, now)
  }

  /** `CurrentLiveStreamView.get_queryset`: the public streams that are live. */
  function CurrentStreams(rows: seq<LiveStream>): (r: seq<LiveStream>)
    ensures IsSubsequence(r, rows)
    ensures forall s :: s in r <==> s in rows && s.isPublic && IsLive(s)
  {
    FilterIsSubsequence(rows, CurrentOf());
    Filter(rows, CurrentOf())
  }

  /** The table's `ordering = ['-scheduled_start']`: the latest start first. */
  function LaterScheduledFirst(): (LiveStream, LiveStream) -> bool
  {
    (a: LiveStream, b: LiveStream) => a.scheduledStart >= b.scheduledStart
  }

  function EarlierScheduledFirst(): (LiveStream, LiveStream) -> bool
  {
    (a: LiveStream, b: LiveStream) => a.scheduledStart <= b.scheduledStart
  }

  /** `UpcomingStreamsView.get_queryset` as written: the first five public
      streams scheduled to start after `now`, in table order. The table runs
      latest start first, so when more than five are scheduled, every stream
      left out starts no later than each listed one: these are the five
      furthest ahead, not the next five. */
  function UpcomingStreams(rows: seq<LiveStream>, now: int): (r: seq<LiveStream>)
    ensures IsSubsequence(r, rows)
    ensures forall s :: s in r ==> s in rows && s.isPublic && s.status == Scheduled && s.scheduledStart > now
    ensures |r| == if Count(rows, UpcomingOf(now)) < 5 then Count(rows, UpcomingOf(now)) else 5
    ensures |r| <= |Filter(rows, UpcomingOf(now))| && r == Filter(rows, UpcomingOf(now))[..|r|]
    ensures SortedBy(rows, LaterScheduledFirst()) ==>
      forall s, t :: s in r && t in rows && UpcomingOf(now)(t) && t !in r ==> s.scheduledStart >= t.scheduledStart
  {
    TakeFilterIsSubsequence(rows, UpcomingOf(now), 5);
    CountIsFilterLength(rows, UpcomingOf(now));
    var upcoming := Filter(rows, UpcomingOf(now));
    var r := Take(upcoming, 5);
    assert forall s :: s in r ==> s in upcoming;
    assert SortedBy(rows, LaterScheduledFirst()) ==>
      forall s, t :: s in r && t in rows && UpcomingOf(now)(t) && t !in r ==> s.scheduledStart >= t.scheduledStart by {
      if SortedBy(rows, LaterScheduledFirst()) {
        TakeFilterComesFirst(rows, UpcomingOf(now), 5, LaterScheduledFirst());
        forall s, t | s in r && t in rows && UpcomingOf(now)(t) && t !in r
          ensures s.scheduledStart >= t.scheduledStart
        {
          assert LaterScheduledFirst()(s, t);
        }
      }
    }
    r
  }

  /** A scheduled public stream starting at `start`. */
  function ScheduledAt(id: nat, start: int): LiveStream
  {
    LiveStream(id, "Service", "", "", "", "", start, Scheduled, false, true, 0, 0)
  }

  /** Six public streams scheduled at times 6, 5, ..., 1, in the table's order. */
  function SixAhead(): (rows: seq<LiveStream>)
    ensures |rows| == 6
  {
    seq(6, k requires 0 <= k < 6 => ScheduledAt(6 - k, 6 - k))
  }

  /** On that table at time 0 the stream that starts next, at time 1, is not
      among the five the view lists. */
  lemma UpcomingStreamsSkipsNext()
    ensures SortedBy(SixAhead(), LaterScheduledFirst())
    ensures SixAhead()[5] == ScheduledAt(1, 1) && UpcomingOf(0)(ScheduledAt(1, 1))
    ensures ScheduledAt(1, 1) !in UpcomingStreams(SixAhead(), 0)
  {
    var rows := SixAhead();
    assert forall k :: 0 <= k < 6 ==> rows[k] == ScheduledAt(6 - k, 6 - k);
    forall i, j | 0 <= i < j < 6 ensures LaterScheduledFirst()(rows[i], rows[j]) {
      assert rows[i].scheduledStart == 6 - i && rows[j].scheduledStart == 6 - j;
    }
    FilterAll(rows, UpcomingOf(0));
    CountIsFilterLength(rows, UpcomingOf(0));
    var r := UpcomingStreams(rows, 0);
    assert r == rows[..5];
    forall k | 0 <= k < 5 ensures r[k] != rows[5] {
      assert r[k].id == 6 - k;
    }
  }

  /** The upcoming streams as the view's name means them: the five public
      streams scheduled soonest after `now`, soonest first. */
  function NextStreams(rows: seq<LiveStream>, now: int): (r: seq<LiveStream>)
    ensures forall s :: s in r ==> s in rows && s.isPublic && s.status == Scheduled && s.scheduledStart > now
    ensures |r| == if Count(rows, UpcomingOf(now)) < 5 then Count(rows, UpcomingOf(now)) else 5
    ensures SortedBy(r, EarlierScheduledFirst())
    ensures forall s, t :: s in r && t in rows && UpcomingOf(now)(t) && t !in r ==> s.scheduledStart <= t.scheduledStart
  {
    var upcoming := Filter(rows, UpcomingOf(now));
    var sorted := SortBy(upcoming, EarlierScheduledFirst());
    SameMembers(sorted, upcoming);
    CountIsFilterLength(rows, UpcomingOf(now));
    assert |sorted| == |upcoming| by {
      assert |multiset(sorted)| == |multiset(upcoming)|;
    }
    var r := Take(sorted, 5);
    assert forall s :: s in r ==> s in sorted;
    TakeComesFirst(sorted, 5, EarlierScheduledFirst());
    forall s, t | s in r && t in rows && UpcomingOf(now)(t) && t !in r
      ensures s.scheduledStart <= t.scheduledStart
    {
      assert t in sorted;
      assert EarlierScheduledFirst()(s, t);
    }
    r
  }

  /** The row `LiveStream.objects.get(id=stream_id, is_public=True)` finds. */
  function PublicIndex(rows: seq<LiveStream>, id: nat): (i: Option<nat>)
    ensures i.Some? ==> i.value < |rows| && rows[i.value].id == id && rows[i.value].isPublic
    ensures i.None? <==> forall k :: 0 <= k < |rows| ==> !(rows[k].id == id && rows[k].isPublic)
  {
    if rows == [] then None
    else if rows[0].id == id && rows[0].isPublic then Some(0)
    else match PublicIndex(rows[1..], id)
      case None => None
      case Some(k) => Some(k + 1)
  }

  /** A `StreamViewer` record. */
  datatype StreamViewer = StreamViewer(streamId: nat, ipAddress: string, userAgent: string)

  /** The stream and viewer tables behind the two endpoints. */
  class StreamTables {
    var rows: seq<LiveStream>
    var viewers: seq<StreamViewer>

    constructor (rows0: seq<LiveStream>)
      ensures rows == rows0 && viewers == []
    {
      rows := rows0;
      viewers := [];
    }

    /** `join_stream`: 404 with nothing changed for a missing or non-public
        stream; otherwise one viewer record more and the counters of `Joined`. */
    method JoinStream(id: nat, ipAddress: string, userAgent: string) returns (status: nat)
      modifies this
      ensures status == 404 <==> PublicIndex(old(rows), id).None?
      ensures status == 404 ==> rows == old(rows) && viewers == old(viewers)
      ensures status != 404 ==> status == 200
      ensures status != 404 ==> (var i := PublicIndex(old(rows), id).value;
        rows == old(rows)[i := Joined(old(rows)[i])]
        && viewers == old(viewers) + [StreamViewer(id, ipAddress, userAgent)])
    {
      var found := PublicIndex(rows, id);
      if found.None? {
        return 404;
      }
      var i := found.value;
      viewers := viewers + [StreamViewer(id, ipAddress, userAgent)];
      var stream := rows[i];
      var count := stream.viewerCount + 1;
      var high := stream.maxViewers;
      if count > high {
        high := count;
      }
      rows := rows[i := stream.(viewerCount := count, maxViewers := high)];
      status := 200;
    }

    /** `leave_stream`: 404 with nothing changed for a missing or non-public
        stream; otherwise the counters of `Left` and no viewer record change. */
    method LeaveStream(id: nat) returns (status: nat)
      modifies this
      ensures viewers == old(viewers)
      ensures status == 404 <==> PublicIndex(old(rows), id).None?
      ensures status == 404 ==> rows == old(rows)
      ensures status != 404 ==> status == 200
      ensures status != 404 ==> (var i := PublicIndex(old(rows), id).value;
        rows == old(rows)[i := Left(old(rows)[i])])
    {
      var found := PublicIndex(rows, id);
      if found.None? {
        return 404;
      }
      var i := found.value;
      if rows[i].viewerCount > 0 {
        rows := rows[i := rows[i].(viewerCount := rows[i].viewerCount - 1)];
      }
      status := 200;
    }
  }

  /** Every stream keeps its high-water mark at or above its count, through
      any join or leave on the table. */
  predicate AllCountersValid(rows: seq<LiveStream>)
  {
    forall k :: 0 <= k < |rows| ==> CountersValid(rows[k])
  }

  lemma JoinKeepsCountersValid(rows: seq<LiveStream>, i: nat)
    requires i < |rows| && AllCountersValid(rows)
    ensures AllCountersValid(rows[i := Joined(rows[i])])
  {
  }

  lemma LeaveKeepsCountersValid(rows: seq<LiveStream>, i: nat)
    requires i < |rows| && AllCountersValid(rows)
    ensures AllCountersValid(rows[i := Left(rows[i])])
  {
  }
}
