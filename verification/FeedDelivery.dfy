/**
 feed-service around the index: the post.created consumer that fans a post out to the
 author's followers (repository/kafka/post_consumer.go), and the feed service that falls
 back to the last feed it could read (service/feed_service.go).
 */
module FeedDelivery {
  import opened Wrappers
  import opened Text
  import opened Ranking
  import opened FeedIndex

  datatype PostCreated = PostCreated(postID: string, authorID: string, content: string, createdAt: int)

  predicate Acceptable(e: PostCreated) {
    !IsBlank(e.postID) && !IsBlank(e.authorID)
  }

  function ItemOf(e: PostCreated): FeedItem {
    FeedItem(e.postID, e.authorID, e.content, e.createdAt)
  }

  /** One message as the consumer meets it: its decoding, the lookup, the writes, the commit. */
  datatype Message = Message(
    event: Result<PostCreated, string>, followers: Result<seq<string>, string>, fates: int -> Fate,
    commitError: Option<string>)

  /** Some write for the user reached Redis; fates[i] is the fate of the i-th id's write. */
  ghost predicate Reached(ids: seq<string>, fates: int -> Fate, user: string) {
    !IsBlank(user) && exists i :: 0 <= i < |ids| && ids[i] == user && !fates(i).Lost?
  }

  /** The message gets its post into the user's feed. */
  ghost predicate Gets(event: Result<PostCreated, string>, followers: Result<seq<string>, string>, fates: int -> Fate, user: string) {
    event.Ok? && Acceptable(event.value) && followers.Ok? && Reached(followers.value, fates, user)
  }

  class PostConsumer {
    const feedRepo: FeedRepository

    constructor (feedRepo: FeedRepository)
      ensures this.feedRepo == feedRepo
    {
      this.feedRepo := feedRepo;
    }

    /**
     Invalid events and a failing follower lookup change nothing; otherwise exactly the
     users some write reached get the item.
     */
    method HandleMessage(event: Result<PostCreated, string>, followers: Result<seq<string>, string>, fates: int -> Fate)
      returns (err: Option<string>)
      requires feedRepo.Valid()
      modifies feedRepo.client
      ensures feedRepo.Valid()
      ensures err.None? <==> event.Ok? && Acceptable(event.value) && followers.Ok?
      ensures event.Err? ==> err == Some(event.error)
      ensures event.Ok? && Acceptable(event.value) && followers.Err? ==> err == Some(followers.error)
      ensures event.Ok? && (OnlySpaces(event.value.postID) || OnlySpaces(event.value.authorID)) ==>
        err == Some("skip event: missing post_id or author_id")
      ensures forall u ::
        feedRepo.Feed(u) == Delivered(feedRepo.codec, old(feedRepo.Feed(u)), event, Gets(event, followers, fates, u))
    {
      if event.Err? { return Some(event.error); }
      BlankMeans(event.value.postID);
      BlankMeans(event.value.authorID);
      if IsBlank(event.value.postID) || IsBlank(event.value.authorID) {
        return Some("skip event: missing post_id or author_id");
      }
      var item := ItemOf(event.value);
      if followers.Err? { return Some(followers.error); }
      FanOut(item, followers.value, fates);
      return None;
    }

    /**
     The loop of Run: every message is handled and committed whatever became of it, until
     a commit fails or the fetch does for want of messages.
     */
    method Run(ms: seq<Message>, fetchError: string, cancelled: bool) returns (err: Option<string>, handled: nat)
      requires feedRepo.Valid()
      modifies feedRepo.client
      ensures feedRepo.Valid() && handled <= |ms|
      ensures forall u :: feedRepo.Feed(u) == FeedRun(feedRepo.codec, old(feedRepo.Feed(u)), ms[..handled], u)
      ensures forall i :: 0 <= i < handled - 1 ==> ms[i].commitError.None?
      ensures handled > 0 && ms[handled - 1].commitError.Some? ==> err == ms[handled - 1].commitError
      ensures handled == 0 || ms[handled - 1].commitError.None? ==>
        handled == |ms| && err == if cancelled then None else Some(fetchError)
    {
      hide Delivered, Gets, IsBlank;
      handled := 0;
      while handled < |ms|
        invariant handled <= |ms| && feedRepo.Valid()
        invariant forall u :: feedRepo.Feed(u) == FeedRun(feedRepo.codec, old(feedRepo.Feed(u)), ms[..handled], u)
        invariant forall i :: 0 <= i < handled ==> ms[i].commitError.None?
      {
        var m := ms[handled];
        var failure := HandleMessage(m.event, m.followers, m.fates);
        assert ms[..handled + 1][..handled] == ms[..handled];
        handled := handled + 1;
        if m.commitError.Some? { return m.commitError, handled; }
      }
      err := if cancelled then None else Some(fetchError);
    }

    /** The loop over the follower ids; a failed write is logged and the loop goes on. */
    method FanOut(item: FeedItem, ids: seq<string>, fates: int -> Fate)
      requires feedRepo.Valid()
      modifies feedRepo.client
      ensures feedRepo.Valid()
      ensures forall u :: feedRepo.Feed(u) == Added(feedRepo.codec, old(feedRepo.Feed(u)), item, Reached(ids, fates, u))
    {
      hide Top, Float64, IsBlank;
      ghost var codec := feedRepo.codec;
      var i := 0;
      while i < |ids|
        invariant 0 <= i <= |ids|
        invariant feedRepo.Valid()
        invariant forall u :: feedRepo.Feed(u) == Added(codec, old(feedRepo.Feed(u)), item, Reached(ids[..i], fates, u))
      {
        forall u ensures Reached(ids[..i + 1], fates, u) <==>
          Reached(ids[..i], fates, u) || (u == ids[i] && !IsBlank(u) && !fates(i).Lost?)
        {
          ReachedNext(ids, i, fates, u);
        }
        var user := ids[i];
        if !IsBlank(user) {
          AddedTwice(codec, old(feedRepo.Feed(user)), item);
          var err := feedRepo.AddFeedItem(user, item, fates(i));
        }
        i := i + 1;
      }
      assert ids[..i] == ids;
    }
  }

  ghost function Added(codec: Codec, s: set<Entry>, item: FeedItem, reached: bool): set<Entry> {
    if reached then Top(s + {EntryOf(codec, item)}, MAX_FEED_ITEMS) else s
  }

  ghost function Delivered(codec: Codec, s: set<Entry>, event: Result<PostCreated, string>, reached: bool): set<Entry> {
    if event.Ok? then Added(codec, s, ItemOf(event.value), reached) else s
  }

  ghost function FeedRun(codec: Codec, s: set<Entry>, ms: seq<Message>, user: string): set<Entry> {
    if ms == [] then s
    else
      var m := ms[|ms| - 1];
      Delivered(codec, FeedRun(codec, s, ms[..|ms| - 1], user), m.event, Gets(m.event, m.followers, m.fates, user))
  }

  lemma ReachedNext(ids: seq<string>, i: nat, fates: int -> Fate, u: string)
    requires i < |ids|
    ensures Reached(ids[..i + 1], fates, u) <==>
      Reached(ids[..i], fates, u) || (u == ids[i] && !IsBlank(u) && !fates(i).Lost?)
  {
    hide IsBlank;
    var now, next := ids[..i], ids[..i + 1];
    if Reached(next, fates, u) {
      var j :| 0 <= j < |next| && next[j] == u && !fates(j).Lost?;
      if j < i { assert now[j] == u; }
    }
    if Reached(now, fates, u) {
      var j :| 0 <= j < |now| && now[j] == u && !fates(j).Lost?;
      assert next[j] == u;
    }
    if u == ids[i] { assert next[i] == u; }
  }

  /** Adding an item again changes nothing. */
  lemma AddedTwice(codec: Codec, s: set<Entry>, item: FeedItem)
    ensures Added(codec, Added(codec, s, item, true), item, true) == Added(codec, s, item, true)
  {
    hide Top, EntryOf;
    var e := EntryOf(codec, item);
    TopAbsorbs(s + {e}, e, MAX_FEED_ITEMS);
    assert s + {e} + {e} == s + {e};
  }

  /** The message carries a post, its author's followers were found, and a write for the user got through. */
  ghost predicate GetsThrough(event: Result<PostCreated, string>, followers: Result<seq<string>, string>, fates: int -> Fate, user: string) {
    && event.Ok? && !OnlySpaces(event.value.postID) && !OnlySpaces(event.value.authorID)
    && followers.Ok? && !OnlySpaces(user)
    && exists i :: 0 <= i < |followers.value| && followers.value[i] == user && !fates(i).Lost?
  }

  lemma GetsMeans(event: Result<PostCreated, string>, followers: Result<seq<string>, string>, fates: int -> Fate, user: string)
    ensures Gets(event, followers, fates, user) <==> GetsThrough(event, followers, fates, user)
  {
    BlankMeans(user);
    if event.Ok? {
      BlankMeans(event.value.postID);
      BlankMeans(event.value.authorID);
    }
    hide IsBlank, OnlySpaces;
  }

  /**
   Message and feed, field by field: a user whose feed was empty is served exactly the post
   of a message that gets through, and nothing otherwise.
   */
  lemma DeliveredIsServed(
      codec: Codec, event: Result<PostCreated, string>, followers: Result<seq<string>, string>, fates: int -> Fate,
      user: string, feed: seq<FeedItem>)
    requires codec.Lawful() && Shows(codec, feed, Delivered(codec, {}, event, Gets(event, followers, fates, user)))
    ensures if GetsThrough(event, followers, fates, user) then
        |feed| == 1 && feed[0].postID == event.value.postID && feed[0].authorID == event.value.authorID
        && feed[0].content == event.value.content && feed[0].createdAt == event.value.createdAt
      else feed == []
  {
    GetsMeans(event, followers, fates, user);
    hide Gets, GetsThrough, EntryOf, Top, Ranked;
    if GetsThrough(event, followers, fates, user) {
      EventDecoded(event, followers, fates, user);
      var item := ItemOf(event.value);
      var e := EntryOf(codec, item);
      assert {} + {e} == {e};
      TopOfFew({e}, MAX_FEED_ITEMS);
      OneRanked(e);
      SameEntry(codec, feed[0], item);
    }
  }

  lemma EventDecoded(event: Result<PostCreated, string>, followers: Result<seq<string>, string>, fates: int -> Fate, user: string)
    requires GetsThrough(event, followers, fates, user)
    ensures event.Ok?
  {
  }

  lemma OneRanked(e: Entry)
    ensures Ranked({e}) == [e]
  {
    assert IsMax({e}, e);
    MaxUnique({e}, e);
    assert {e} - {e} == {};
  }

  // ---- Any order, any number of deliveries ----

  /** With a fixed follower relation and successful writes, this is who gets the event. */
  ghost predicate Receives(followers: string -> seq<string>, e: PostCreated, user: string) {
    Acceptable(e) && !IsBlank(user) && user in followers(e.authorID)
  }

  lemma ReceivesIsReached(followers: string -> seq<string>, e: PostCreated, user: string, fates: int -> Fate)
    requires forall i :: fates(i).Applied?
    ensures Receives(followers, e, user) <==> Acceptable(e) && Reached(followers(e.authorID), fates, user)
  {
  }

  /** The user's feed after the events, if it held s before. */
  ghost function FeedAfter(codec: Codec, followers: string -> seq<string>, s: set<Entry>, events: seq<PostCreated>, user: string): set<Entry> {
    if events == [] then s
    else
      var last := events[|events| - 1];
      Added(codec, FeedAfter(codec, followers, s, events[..|events| - 1], user), ItemOf(last), Receives(followers, last, user))
  }

  ghost function Received(codec: Codec, followers: string -> seq<string>, events: seq<PostCreated>, user: string): set<Entry> {
    set i | 0 <= i < |events| && Receives(followers, events[i], user) :: EntryOf(codec, ItemOf(events[i]))
  }

  lemma ReceivedGrows(codec: Codec, followers: string -> seq<string>, events: seq<PostCreated>, e: PostCreated, user: string)
    ensures Received(codec, followers, events + [e], user) ==
      Received(codec, followers, events, user) + (if Receives(followers, e, user) then {EntryOf(codec, ItemOf(e))} else {})
  {
    hide EntryOf, Receives, ItemOf;
    var all := events + [e];
    assert all[|events|] == e;
    forall x | x in Received(codec, followers, events, user) ensures x in Received(codec, followers, all, user) {
      var i :| 0 <= i < |events| && Receives(followers, events[i], user) && EntryOf(codec, ItemOf(events[i])) == x;
      assert all[i] == events[i];
    }
  }

  /** A user's feed holds the best 1000 of what it held before and of the events meant for that user. */
  lemma {:induction false} FeedHoldsReceived(codec: Codec, followers: string -> seq<string>, s: set<Entry>, events: seq<PostCreated>, user: string)
    requires |s| <= MAX_FEED_ITEMS
    ensures FeedAfter(codec, followers, s, events, user) == Top(s + Received(codec, followers, events, user), MAX_FEED_ITEMS)
  {
    hide EntryOf, Receives, ItemOf;
    if events == [] {
      TopOfFew(s, MAX_FEED_ITEMS);
      assert s + Received(codec, followers, [], user) == s;
    } else {
      hide Top;
      var before, last := events[..|events| - 1], events[|events| - 1];
      var held, e := s + Received(codec, followers, before, user), EntryOf(codec, ItemOf(last));
      FeedHoldsReceived(codec, followers, s, before, user);
      assert events == before + [last];
      ReceivedGrows(codec, followers, before, last, user);
      TopAbsorbs(held, e, MAX_FEED_ITEMS);
      assert s + (Received(codec, followers, before, user) + {e}) == held + {e};
      assert Received(codec, followers, before, user) + {} == Received(codec, followers, before, user);
    }
  }

  lemma ReceivedWithin(codec: Codec, followers: string -> seq<string>, a: seq<PostCreated>, b: seq<PostCreated>, user: string)
    requires forall e :: e in a ==> e in b
    ensures Received(codec, followers, a, user) <= Received(codec, followers, b, user)
  {
    forall x | x in Received(codec, followers, a, user) ensures x in Received(codec, followers, b, user) {
      var i :| 0 <= i < |a| && Receives(followers, a[i], user) && EntryOf(codec, ItemOf(a[i])) == x;
      assert a[i] in b;
    }
  }

  /** Reordered, repeated and redelivered events leave every user with the same feed. */
  lemma {:induction false} DeliveryOrderIrrelevant(
      codec: Codec, followers: string -> seq<string>, s: set<Entry>, a: seq<PostCreated>, b: seq<PostCreated>, user: string)
    requires |s| <= MAX_FEED_ITEMS && forall e :: e in a <==> e in b
    ensures FeedAfter(codec, followers, s, a, user) == FeedAfter(codec, followers, s, b, user)
  {
    hide *;
    FeedHoldsReceived(codec, followers, s, a, user);
    FeedHoldsReceived(codec, followers, s, b, user);
    ReceivedWithin(codec, followers, a, b, user);
    ReceivedWithin(codec, followers, b, a, user);
    assert Received(codec, followers, a, user) == Received(codec, followers, b, user);
  }

  /** The events put their items into the feeds of all followers, unless a full feed has better ones. */
  lemma FollowersReceive(
      codec: Codec, followers: string -> seq<string>, s: set<Entry>, events: seq<PostCreated>, user: string, e: PostCreated)
    requires |s| <= MAX_FEED_ITEMS && e in events && !OnlySpaces(e.postID) && !OnlySpaces(e.authorID)
    requires !OnlySpaces(user) && user in followers(e.authorID)
    ensures var feed := FeedAfter(codec, followers, s, events, user);
      EntryOf(codec, FeedItem(e.postID, e.authorID, e.content, e.createdAt)) in feed || |feed| == 1000
  {
    BlankMeans(user);
    BlankMeans(e.postID);
    BlankMeans(e.authorID);
    FeedHoldsReceived(codec, followers, s, events, user);
    hide IsBlank, OnlySpaces, EntryOf, FeedAfter, Ranked;
    var all := s + Received(codec, followers, events, user);
    var i :| 0 <= i < |events| && events[i] == e;
    var entry := EntryOf(codec, ItemOf(events[i]));
    assert entry in all;
    if entry !in Top(all, MAX_FEED_ITEMS) {
      Subset(Above(all, entry), all);
      RankedTop(all, MAX_FEED_ITEMS);
    }
  }

  // ---- Runs of the consumer ----

  function EventsOf(ms: seq<Message>): seq<PostCreated> {
    if ms == [] then []
    else
      var before, last := EventsOf(ms[..|ms| - 1]), ms[|ms| - 1].event;
      if last.Ok? then before + [last.value] else before
  }

  /** Lookups answer with the fixed relation and every write is applied. */
  ghost predicate Smooth(followers: string -> seq<string>, ms: seq<Message>) {
    forall i :: 0 <= i < |ms| && ms[i].event.Ok? ==>
      ms[i].followers == Ok(followers(ms[i].event.value.authorID)) && forall k :: ms[i].fates(k).Applied?
  }

  lemma {:induction false} RunDelivers(codec: Codec, followers: string -> seq<string>, s: set<Entry>, ms: seq<Message>, user: string)
    requires Smooth(followers, ms)
    ensures FeedRun(codec, s, ms, user) == FeedAfter(codec, followers, s, EventsOf(ms), user)
  {
    hide Added, IsBlank;
    if ms != [] {
      var before, m := ms[..|ms| - 1], ms[|ms| - 1];
      RunDelivers(codec, followers, s, before, user);
      if m.event.Ok? {
        ReceivesIsReached(followers, m.event.value, user, m.fates);
        assert EventsOf(ms)[..|EventsOf(before)|] == EventsOf(before);
      }
    }
  }

  /**
   From any trimmed feed, two runs of the consumer over the same posts, in any order and each one
   or more times, leave every user with the same feed.
   */
  lemma {:induction false} RunOrderIrrelevant(
      codec: Codec, followers: string -> seq<string>, s: set<Entry>, a: seq<Message>, b: seq<Message>, user: string)
    requires Smooth(followers, a) && Smooth(followers, b) && |s| <= MAX_FEED_ITEMS
    requires forall e :: e in EventsOf(a) <==> e in EventsOf(b)
    ensures FeedRun(codec, s, a, user) == FeedRun(codec, s, b, user)
  {
    hide *;
    RunDelivers(codec, followers, s, a, user);
    RunDelivers(codec, followers, s, b, user);
    DeliveryOrderIrrelevant(codec, followers, s, EventsOf(a), EventsOf(b), user);
  }

  /** The events add an item to a user's feed only if the user follows its author. */
  lemma {:induction false} OnlyFollowersReceive(
      codec: Codec, followers: string -> seq<string>, s: set<Entry>, events: seq<PostCreated>, user: string, item: FeedItem)
    requires codec.Lawful() && |s| <= MAX_FEED_ITEMS
    requires EntryOf(codec, item) in FeedAfter(codec, followers, s, events, user) - s
    ensures !OnlySpaces(user) && user in followers(item.authorID)
    ensures PostCreated(item.postID, item.authorID, item.content, item.createdAt) in events
    ensures !OnlySpaces(item.postID) && !OnlySpaces(item.authorID)
  {
    BlankMeans(user);
    FeedHoldsReceived(codec, followers, s, events, user);
    hide IsBlank, OnlySpaces, EntryOf;
    var i :| 0 <= i < |events| && Receives(followers, events[i], user) && EntryOf(codec, ItemOf(events[i])) == EntryOf(codec, item);
    BlankMeans(events[i].postID);
    BlankMeans(events[i].authorID);
    SameEntry(codec, ItemOf(events[i]), item);
  }

  // ---- The feed service and its stale fallback ----

  datatype FeedResult = FeedResult(items: seq<FeedItem>, degraded: bool, stale: bool)

  /** A sequential run of the service: writes to the index, and reads that may fail. */
  datatype Step = Add(user: string, item: FeedItem) | Read(user: string, failing: bool)

  datatype Served = Page(moment: nat, degraded: bool) | Unavailable

  ghost function IndexAt(codec: Codec, run: seq<Step>, user: string): set<Entry> {
    if run == [] then {}
    else
      var last, before := run[|run| - 1], IndexAt(codec, run[..|run| - 1], user);
      if last.Add? && last.user == user then Top(before + {EntryOf(codec, last.item)}, MAX_FEED_ITEMS) else before
  }

  /** The fallback map after the run, each feed given by the moment it was read at. */
  ghost function FallbackAt(run: seq<Step>): (m: map<string, nat>)
    ensures forall u :: u in m ==> m[u] < |run|
  {
    if run == [] then map[]
    else
      var last, before := run[|run| - 1], FallbackAt(run[..|run| - 1]);
      if last.Read? && !last.failing then before[last.user := |run| - 1] else before
  }

  ghost function Serve(run: seq<Step>, user: string, failing: bool): Served {
    if !failing then Served.Page(|run|, false)
    else if user in FallbackAt(run) then Served.Page(FallbackAt(run)[user], true)
    else Unavailable
  }

  /** The index of the user at the moment of the feed that the fallback holds. */
  ghost function Remembered(codec: Codec, run: seq<Step>, user: string): set<Entry>
    requires user in FallbackAt(run)
  {
    IndexAt(codec, run[..FallbackAt(run)[user]], user)
  }

  lemma RunGrows(codec: Codec, run: seq<Step>, step: Step)
    ensures FallbackAt(run + [step]).Keys == FallbackAt(run).Keys + (if step.Read? && !step.failing then {step.user} else {})
    ensures forall u :: u in FallbackAt(run + [step]) ==>
      (Remembered(codec, run + [step], u) == if step == Read(u, false) then IndexAt(codec, run, u) else Remembered(codec, run, u))
    ensures forall u :: IndexAt(codec, run + [step], u) == if step.Add? && step.user == u
      then Top(IndexAt(codec, run, u) + {EntryOf(codec, step.item)}, MAX_FEED_ITEMS) else IndexAt(codec, run, u)
  {
    hide Top, EntryOf;
    var next := run + [step];
    assert next[..|run|] == run;
    forall u | u in FallbackAt(next)
      ensures Remembered(codec, next, u) == if step == Read(u, false) then IndexAt(codec, run, u) else Remembered(codec, run, u)
    {
      assert next[..FallbackAt(next)[u]] == run[..FallbackAt(next)[u]];
      assert run[..|run|] == run;
    }
  }

  class FeedService {
    const repo: FeedRepository
    var fallback: map<string, seq<FeedItem>>

    constructor (repo: FeedRepository)
      ensures this.repo == repo && fallback == map[]
      ensures repo.Valid() && (forall u :: repo.Feed(u) == {}) ==> Tracks([])
    {
      this.repo, fallback := repo, map[];
    }

    /** The index and the fallback map are those of the run so far. */
    ghost predicate Tracks(run: seq<Step>)
      reads this, repo, repo.client
    {
      && repo.Valid()
      && (forall u :: repo.Feed(u) == IndexAt(repo.codec, run, u))
      && fallback.Keys == FallbackAt(run).Keys
      && (forall u :: u in fallback ==> Shows(repo.codec, fallback[u], Remembered(repo.codec, run, u)))
    }

    /** One read: the page of the moment that Serve names, and nothing but the fallback changes. */
    method GetFeed(user: string, fault: Option<string>, ghost run: seq<Step>) returns (r: Result<FeedResult, string>)
      requires Tracks(run)
      modifies this
      ensures Tracks(run + [Read(user, fault.Some?)])
      ensures Matches(repo.codec, r, run, user, Serve(run, user, fault.Some?), fault)
      ensures fault.None? ==> r.Ok? && !r.value.degraded && !r.value.stale
      ensures fault.Some? ==> if r.Ok? then r.value.degraded && r.value.stale else r.error == fault.value
    {
      hide IndexAt, Shows, Remembered, Matches, FallbackAt, Serve, DecodeAll, Encoded, FeedIndex.Page, Members, Entries;
      var feed := repo.GetFeed(user, fault);
      MatchesServe(repo.codec, run, user, fault);
      RunGrows(repo.codec, run, Read(user, fault.Some?));
      if feed.Ok? {
        fallback := fallback[user := feed.value];
        return Ok(FeedResult(feed.value, false, false));
      }
      if user in fallback { return Ok(FeedResult(fallback[user], true, true)); }
      return Err(feed.error);
    }

    /** One write by the consumer, between reads. */
    method Write(user: string, item: FeedItem, ghost run: seq<Step>)
      requires Tracks(run)
      modifies repo.client
      ensures Tracks(run + [Add(user, item)])
    {
      hide IndexAt, Shows, Remembered;
      RunGrows(repo.codec, run, Add(user, item));
      var err := repo.AddFeedItem(user, item, Applied);
    }
  }

  ghost predicate Matches(codec: Codec, r: Result<FeedResult, string>, run: seq<Step>, user: string, served: Served, fault: Option<string>) {
    match served
    case Page(moment, degraded) =>
      && moment <= |run| && r.Ok? && r.value.degraded == r.value.stale == degraded
      && Shows(codec, r.value.items, IndexAt(codec, run[..moment], user))
    case Unavailable => fault.Some? && r == Err(fault.value)
  }

  lemma MatchesServe(codec: Codec, run: seq<Step>, user: string, fault: Option<string>)
    ensures var served := Serve(run, user, fault.Some?); forall items: seq<FeedItem> ::
      && (fault.None? && Shows(codec, items, IndexAt(codec, run, user)) ==>
            Matches(codec, Ok(FeedResult(items, false, false)), run, user, served, fault))
      && (fault.Some? && user in FallbackAt(run) && Shows(codec, items, Remembered(codec, run, user)) ==>
            Matches(codec, Ok(FeedResult(items, true, true)), run, user, served, fault))
    ensures fault.Some? && user !in FallbackAt(run) ==>
      Matches(codec, Err(fault.value), run, user, Serve(run, user, true), fault)
  {
    hide IndexAt, Shows;
    assert run[..|run|] == run;
  }

  ghost predicate GoodRead(run: seq<Step>, i: int, user: string) {
    0 <= i < |run| && run[i] == Read(user, false)
  }

  /** The fallback holds the user's latest successful read, if there was one. */
  lemma {:induction false} FallbackIsLatestRead(run: seq<Step>, user: string)
    ensures user in FallbackAt(run) <==> exists i :: GoodRead(run, i, user)
    ensures user in FallbackAt(run) ==> GoodRead(run, FallbackAt(run)[user], user)
    ensures user in FallbackAt(run) ==> forall i :: GoodRead(run, i, user) ==> i <= FallbackAt(run)[user]
  {
    if run != [] {
      var before := run[..|run| - 1];
      FallbackIsLatestRead(before, user);
      forall i ensures GoodRead(run, i, user) <==> GoodRead(before, i, user) || (i == |run| - 1 && run[i] == Read(user, false)) {
        if 0 <= i < |before| { assert before[i] == run[i]; }
      }
      assert GoodRead(run, |run| - 1, user) <==> run[|run| - 1] == Read(user, false);
      if user in FallbackAt(before) { assert GoodRead(before, FallbackAt(before)[user], user); }
    }
  }

  /**
   Every feed served is the user's page at a moment not later than now; it is degraded
   exactly when the repository failed; an error is returned only if no earlier read of the
   user succeeded; and from one read to a later one that moment never moves back.
   */
  lemma ServedMomentsAdvance(run: seq<Step>, user: string, failing: bool, m: nat, failingThen: bool)
    requires m <= |run| && (m < |run| ==> run[m] == Read(user, failingThen))
    ensures var now, then' := Serve(run, user, failing), Serve(run[..m], user, failingThen);
      && (now.Page? ==> now.moment <= |run| && (now.degraded <==> failing))
      && (now.Unavailable? <==> failing && forall i :: !GoodRead(run, i, user))
      && (m < |run| && then'.Page? ==> now.Page? && then'.moment <= now.moment)
      && (now.Page? && now.degraded ==> GoodRead(run, now.moment, user))
  {
    FallbackIsLatestRead(run, user);
    FallbackIsLatestRead(run[..m], user);
    forall i | GoodRead(run[..m], i, user) ensures GoodRead(run, i, user) { assert run[..m][i] == run[i]; }
    if m < |run| && !failingThen { assert GoodRead(run, m, user); }
  }
}
