/**
 The home feed of feed-service (repository/redis/feed_repository.go): per user a Redis
 sorted set, trimmed to 1000 entries on every insert and read from the top 20.
 */
module FeedIndex {
  import opened Arithmetic
  import opened Wrappers
  import opened Text
  import opened Ranking

  const MAX_FEED_ITEMS := 1000
  const PAGE := 20
  const TWO_53 := 0x20_0000_0000_0000

  datatype FeedItem = FeedItem(postID: string, authorID: string, content: string, createdAt: int)

  /** encoding/json on feed items, as far as the index depends on it. */
  datatype Codec = Codec(marshal: FeedItem -> string, unmarshal: string -> Option<FeedItem>) {
    ghost predicate Lawful() { forall i :: unmarshal(marshal(i)) == Some(i) }
  }

  // ---- float64(int64): round to nearest, ties to even ----

  function Unit(magnitude: nat, u: nat): (r: nat)
    requires u > 0
    ensures r > 0
    decreases magnitude - u
  {
    if magnitude < TWO_53 * u then u else Unit(magnitude, 2 * u)
  }

  /** How many units of u are nearest to the magnitude. */
  function Nearest(magnitude: nat, u: nat): nat
    requires u > 0
  {
    var q, r := magnitude / u, magnitude % u;
    if 2 * r > u || (2 * r == u && q % 2 == 1) then q + 1 else q
  }

  function Rounded(magnitude: nat): int {
    var u := Unit(magnitude, 1);
    Nearest(magnitude, u) * u
  }

  function Float64(x: int): int {
    if x < 0 then -Rounded(-x) else Rounded(x)
  }

  lemma {:induction false} Float64Exact(x: int)
    requires -TWO_53 <= x <= TWO_53
    ensures Float64(x) == x
  {
    if x == TWO_53 || x == -TWO_53 { assert Unit(TWO_53, 1) == Unit(TWO_53, 2) == 2; }
  }

  /** Beyond 2^53 two creation times can share a score, and the payload bytes decide. */
  lemma Float64Collides()
    ensures Float64(TWO_53 + 1) == Float64(TWO_53)
  {
    assert Unit(TWO_53 + 1, 1) == Unit(TWO_53 + 1, 2) == 2;
    Float64Exact(TWO_53);
  }

  lemma {:induction false} UnitCovers(x: nat, u: nat)
    requires u > 0
    ensures x < TWO_53 * Unit(x, u)
    decreases x - u
  {
    if x >= TWO_53 * u { UnitCovers(x, 2 * u); }
  }

  lemma {:induction false} UnitDoubles(y: nat, u: nat)
    requires u > 0 && y >= TWO_53 * u
    ensures 2 * u <= Unit(y, u) && Unit(y, u) % 2 == 0 && TWO_53 * (Unit(y, u) / 2) <= y
    decreases y - u
  {
    if y >= TWO_53 * (2 * u) { UnitDoubles(y, 2 * u); }
  }

  /** The unit of a larger magnitude is the same, or at least twice as large and needed. */
  lemma {:induction false} UnitGrows(x: nat, y: nat, u: nat)
    requires u > 0 && x <= y
    ensures Unit(x, u) == Unit(y, u) ||
      (2 * Unit(x, u) <= Unit(y, u) && Unit(y, u) % 2 == 0 && TWO_53 * (Unit(y, u) / 2) <= y)
    decreases x - u
  {
    if x >= TWO_53 * u { UnitGrows(x, y, 2 * u); }
    else if y >= TWO_53 * u { UnitDoubles(y, u); }
  }

  lemma NearestGrows(x: nat, y: nat, u: nat)
    requires u > 0 && x <= y
    ensures Nearest(x, u) <= Nearest(y, u)
  {
    DivisionGrows(x / u, x % u, y / u, y % u, u);
  }

  lemma DivisionGrows(q: int, r: int, q': int, r': int, u: int)
    requires 0 <= r < u && 0 <= r' < u && q * u + r <= q' * u + r'
    ensures q < q' || (q == q' && r <= r')
  {
    assert (q' + 1) * u == q' * u + u;
    if q > q' { MulMono(u, q' + 1, q); }
  }

  lemma NearestAtMost(x: nat, u: nat, n: nat)
    requires u > 0 && x < n * u
    ensures Nearest(x, u) <= n
  {
    if x / u >= n { MulMono(u, n, x / u); }
  }

  lemma NearestAtLeast(x: nat, u: nat, n: nat)
    requires u > 0 && n * u <= x
    ensures Nearest(x, u) >= n
  {
    if x / u < n { MulMono(u, x / u + 1, n); }
  }

  lemma RoundedGrows(x: nat, y: nat)
    requires x <= y
    ensures Rounded(x) <= Rounded(y)
  {
    var u, v := Unit(x, 1), Unit(y, 1);
    UnitGrows(x, y, 1);
    if u == v {
      NearestGrows(x, y, u);
      MulMono(u, Nearest(x, u), Nearest(y, u));
    } else {
      UnitCovers(x, 1);
      NearestAtMost(x, u, TWO_53);
      NearestAtLeast(y, v, TWO_53 / 2);
      MulMono(u, Nearest(x, u), TWO_53);
      MulMono(v, TWO_53 / 2, Nearest(y, v));
    }
  }

  /** Rounding keeps the order of times, though it may make two of them equal. */
  lemma Float64Monotone(x: int, y: int)
    requires x <= y
    ensures Float64(x) <= Float64(y)
  {
    hide Rounded;
    if x >= 0 { RoundedGrows(x, y); }
    else if y < 0 { RoundedGrows(-y, -x); }
    else {
      RoundedGrows(0, y);
      RoundedGrows(0, -x);
      assert Rounded(0) == 0 by { RoundedZero(); }
    }
  }

  lemma RoundedZero()
    ensures Rounded(0) == 0
  {
  }

  // ---- Redis sorted sets ----

  type ZSet = map<string, int>

  function Entries(z: ZSet): set<Entry> { set m | m in z :: Entry(z[m], m) }

  /** The ranks start..stop count from the lowest entry; negative ones from the highest. */
  predicate InRange(n: nat, start: int, stop: int, rank: nat) {
    (if start < 0 then n + start else start) <= rank <= (if stop < 0 then n + stop else stop)
  }

  function Remaining(z: ZSet, start: int, stop: int): ZSet {
    var s := Entries(z);
    map m | m in z && !InRange(|s|, start, stop, |Below(s, Entry(z[m], m))|) :: z[m]
  }

  function Members(r: seq<Entry>): (m: seq<string>)
    ensures |m| == |r| && forall i :: 0 <= i < |r| ==> m[i] == r[i].member
  {
    seq(|r|, i requires 0 <= i < |r| => r[i].member)
  }

  class SortedSets {
    var sets: map<string, ZSet>

    constructor ()
      ensures sets == map[]
    {
      sets := map[];
    }

    function Get(key: string): ZSet
      reads this
    {
      if key in sets then sets[key] else map[]
    }

    method ZAdd(key: string, score: int, member: string)
      modifies this
      ensures sets == old(sets)[key := old(Get(key))[member := score]]
    {
      sets := sets[key := Get(key)[member := score]];
    }

    method ZRemRangeByRank(key: string, start: int, stop: int)
      modifies this
      ensures sets == old(sets)[key := Remaining(old(Get(key)), start, stop)]
    {
      sets := sets[key := Remaining(Get(key), start, stop)];
    }

    /** ZRANGE with REV, for 0 <= start. */
    method ZRangeRev(key: string, start: nat, stop: nat) returns (members: seq<string>)
      requires start <= stop
      ensures var r := Ranked(Entries(Get(key)));
        members == if start >= |r| then [] else Members(r[start..Least(stop + 1, |r|)])
    {
      var r := Ranked(Entries(Get(key)));
      members := if start >= |r| then [] else Members(r[start..Least(stop + 1, |r|)]);
    }
  }

  lemma EntriesAfterAdd(z: ZSet, member: string, score: int)
    requires member in z ==> z[member] == score
    ensures Entries(z[member := score]) == Entries(z) + {Entry(score, member)}
  {
    var z' := z[member := score];
    forall e | e in Entries(z) ensures e in Entries(z') {
      assert e.member in z' && z'[e.member] == e.score;
    }
    assert member in z';
  }

  /** ZREMRANGEBYRANK 0 -(k+1) keeps exactly the best k. */
  lemma TrimKeepsTop(z: ZSet, k: nat)
    ensures Entries(Remaining(z, 0, -1 - k)) == Top(Entries(z), k)
  {
    var s, z' := Entries(z), Remaining(z, 0, -1 - k);
    forall m | m in z ensures m in z' <==> Entry(z[m], m) in Top(s, k) {
      RankPlusAbove(s, Entry(z[m], m));
    }
    forall e | e in Top(s, k) ensures e in Entries(z') { assert e.member in z'; }
  }

  // ---- The repository ----

  function FeedKey(user: string): string { "feed:home:" + user }

  lemma FeedKeyInjective(u: string, v: string)
    requires FeedKey(u) == FeedKey(v)
    ensures u == v
  {
    assert u == FeedKey(u)[|"feed:home:"|..] && v == FeedKey(v)[|"feed:home:"|..];
  }

  function EntryOf(codec: Codec, item: FeedItem): Entry {
    Entry(Float64(item.createdAt), codec.marshal(item))
  }

  /** Every stored member is the encoding of an item, filed under that item's score. */
  ghost predicate Encoded(codec: Codec, z: ZSet) {
    forall m :: m in z ==>
      codec.unmarshal(m).Some? && Entry(z[m], m) == EntryOf(codec, codec.unmarshal(m).value)
  }

  function DecodeAll(codec: Codec, raw: seq<string>): Result<seq<FeedItem>, string> {
    if raw == [] then Ok([])
    else
      match DecodeAll(codec, raw[..|raw| - 1])
      case Err(e) => Err(e)
      case Ok(items) =>
        var item := codec.unmarshal(raw[|raw| - 1]);
        if item.None? then Err("decode feed item") else Ok(items + [item.value])
  }

  lemma DecodeStep(codec: Codec, raw: seq<string>, i: nat)
    requires i < |raw| && DecodeAll(codec, raw[..i]).Ok?
    ensures codec.unmarshal(raw[i]).None? ==> DecodeAll(codec, raw[..i + 1]) == Err("decode feed item")
    ensures codec.unmarshal(raw[i]).Some? ==>
      DecodeAll(codec, raw[..i + 1]) == Ok(DecodeAll(codec, raw[..i]).value + [codec.unmarshal(raw[i]).value])
  {
    assert raw[..i + 1][..i] == raw[..i];
  }

  lemma {:induction false} DecodePrefix(codec: Codec, raw: seq<string>, n: nat)
    requires n <= |raw| && DecodeAll(codec, raw[..n]).Err?
    ensures DecodeAll(codec, raw) == Err("decode feed item")
    decreases |raw|
  {
    assert DecodeAll(codec, raw[..n]) == Err("decode feed item") by { DecodeError(codec, raw[..n]); }
    if n < |raw| {
      assert raw[..|raw| - 1][..n] == raw[..n];
      DecodePrefix(codec, raw[..|raw| - 1], n);
    } else {
      assert raw[..n] == raw;
    }
  }

  lemma {:induction false} DecodeError(codec: Codec, raw: seq<string>)
    ensures DecodeAll(codec, raw).Err? ==> DecodeAll(codec, raw) == Err("decode feed item")
  {
    if raw != [] { DecodeError(codec, raw[..|raw| - 1]); }
  }

  lemma {:induction false} DecodeEncoded(codec: Codec, r: seq<Entry>)
    requires forall i :: 0 <= i < |r| ==>
      codec.unmarshal(r[i].member).Some? && r[i] == EntryOf(codec, codec.unmarshal(r[i].member).value)
    ensures var d := DecodeAll(codec, Members(r));
      d.Ok? && |d.value| == |r| && forall i :: 0 <= i < |r| ==> EntryOf(codec, d.value[i]) == r[i]
  {
    if r != [] {
      hide EntryOf;
      assert Members(r)[..|r| - 1] == Members(r[..|r| - 1]);
      DecodeEncoded(codec, r[..|r| - 1]);
    }
  }

  class FeedRepository {
    const client: SortedSets
    const codec: Codec

    constructor (client: SortedSets, codec: Codec)
      ensures this.client == client && this.codec == codec
    {
      this.client, this.codec := client, codec;
    }

    ghost predicate Valid()
      reads client
    {
      codec.Lawful() && forall user :: Encoded(codec, client.Get(FeedKey(user)))
    }

    function Feed(user: string): set<Entry>
      reads client
    {
      Entries(client.Get(FeedKey(user)))
    }

    method AddFeedItem(user: string, item: FeedItem, fate: Fate) returns (err: Option<string>)
      requires Valid()
      modifies client
      ensures Valid()
      ensures err == if fate.Applied? then None else Some(fate.error)
      ensures Feed(user) == if fate.Lost? then old(Feed(user))
        else Top(old(Feed(user)) + {Entry(Float64(item.createdAt), codec.marshal(item))}, 1000)
      ensures forall key :: key != "feed:home:" + user ==> client.Get(key) == old(client.Get(key))
      ensures forall u :: u != user ==> Feed(u) == old(Feed(u))
    {
      hide Top, Float64, Remaining;
      var key := FeedKey(user);
      var payload := codec.marshal(item);
      if fate.Lost? { return Some(fate.error); }
      ghost var z := client.Get(key);
      client.ZAdd(key, Float64(item.createdAt), payload);
      client.ZRemRangeByRank(key, 0, -MAX_FEED_ITEMS - 1);
      EntriesAfterAdd(z, payload, Float64(item.createdAt));
      TrimKeepsTop(z[payload := Float64(item.createdAt)], MAX_FEED_ITEMS);
      RemainingIsPart(z[payload := Float64(item.createdAt)], 0, -MAX_FEED_ITEMS - 1);
      forall u | u != user ensures FeedKey(u) != key { if FeedKey(u) == key { FeedKeyInjective(u, user); } }
      return if fate.Applied? then None else Some(fate.error);
    }

    method GetFeed(user: string, fault: Option<string>) returns (r: Result<seq<FeedItem>, string>)
      ensures fault.Some? ==> r == Err(fault.value)
      ensures fault.None? ==> r == DecodeAll(codec, Members(Page(Feed(user))))
      ensures fault.None? && Valid() ==> r.Ok? && Shows(codec, r.value, Feed(user))
    {
      if fault.Some? { return Err(fault.value); }
      if Valid() { PageDecodes(codec, client.Get(FeedKey(user))); }
      var results := client.ZRangeRev(FeedKey(user), 0, PAGE - 1);
      assert results == Members(Page(Feed(user)));
      r := Decode(results);
    }

    /** The decoding loop of GetFeed. */
    method Decode(results: seq<string>) returns (r: Result<seq<FeedItem>, string>)
      ensures r == DecodeAll(codec, results)
    {
      var feed := [];
      var i := 0;
      while i < |results|
        invariant 0 <= i <= |results|
        invariant DecodeAll(codec, results[..i]) == Ok(feed)
      {
        var item := codec.unmarshal(results[i]);
        DecodeStep(codec, results, i);
        if item.None? {
          DecodePrefix(codec, results, i + 1);
          return Err("decode feed item");
        }
        feed := feed + [item.value];
        i := i + 1;
      }
      assert results[..i] == results;
      return Ok(feed);
    }
  }

  lemma RemainingIsPart(z: ZSet, start: int, stop: int)
    ensures forall m :: m in Remaining(z, start, stop) ==> m in z && Remaining(z, start, stop)[m] == z[m]
  {
  }

  /** The first page of a set of entries. */
  function Page(s: set<Entry>): seq<Entry> {
    Ranked(s)[..Least(PAGE, |s|)]
  }

  /** feed lists the items of the first page of s, in rank order. */
  ghost predicate Shows(codec: Codec, feed: seq<FeedItem>, s: set<Entry>) {
    |feed| == |Page(s)| && forall i :: 0 <= i < |feed| ==> EntryOf(codec, feed[i]) == Page(s)[i]
  }

  lemma PageDecodes(codec: Codec, z: ZSet)
    requires Encoded(codec, z)
    ensures var d := DecodeAll(codec, Members(Page(Entries(z)))); d.Ok? && Shows(codec, d.value, Entries(z))
  {
    var s := Entries(z);
    var page := Page(s);
    forall i | 0 <= i < |page|
      ensures codec.unmarshal(page[i].member).Some? && page[i] == EntryOf(codec, codec.unmarshal(page[i].member).value)
    {
      assert page[i] in Ranked(s);
    }
    DecodeEncoded(codec, page);
  }

  // ---- The index against the untrimmed history ----

  /** The stored set after adding the items one by one. */
  ghost function Index(codec: Codec, items: seq<FeedItem>): set<Entry> {
    if items == [] then {}
    else Top(Index(codec, items[..|items| - 1]) + {EntryOf(codec, items[|items| - 1])}, MAX_FEED_ITEMS)
  }

  ghost function History(codec: Codec, items: seq<FeedItem>): set<Entry> {
    set i | 0 <= i < |items| :: EntryOf(codec, items[i])
  }

  lemma HistoryGrows(codec: Codec, items: seq<FeedItem>, item: FeedItem)
    ensures History(codec, items + [item]) == History(codec, items) + {EntryOf(codec, item)}
  {
    hide EntryOf;
    var all := items + [item];
    assert all[|items|] == item;
    forall e | e in History(codec, items) ensures e in History(codec, all) {
      var i :| 0 <= i < |items| && EntryOf(codec, items[i]) == e;
      assert all[i] == items[i];
    }
  }

  /** Trimming on every insert loses nothing: the index is the best 1000 of all items ever added. */
  lemma {:induction false} IndexIsTopOfHistory(codec: Codec, items: seq<FeedItem>)
    ensures Index(codec, items) == Top(History(codec, items), 1000)
  {
    if items == [] {
      assert Top({}, MAX_FEED_ITEMS) == {};
    } else {
      hide Top, EntryOf;
      var before, last := items[..|items| - 1], items[|items| - 1];
      IndexIsTopOfHistory(codec, before);
      TopAbsorbs(History(codec, before), EntryOf(codec, last), MAX_FEED_ITEMS);
      HistoryGrows(codec, before, last);
      assert items == before + [last];
    }
  }

  /** The page read from the trimmed index is the page of the untrimmed history. */
  lemma FeedReadsHistory(codec: Codec, items: seq<FeedItem>)
    ensures Page(Index(codec, items)) == Page(History(codec, items))
  {
    hide Top, Ranked;
    var s := History(codec, items);
    IndexIsTopOfHistory(codec, items);
    RankedTop(s, MAX_FEED_ITEMS);
    var n := Least(MAX_FEED_ITEMS, |s|);
    assert Ranked(s)[..n][..Least(PAGE, n)] == Ranked(s)[..Least(PAGE, n)];
  }

  lemma HistoryWithin(codec: Codec, a: seq<FeedItem>, b: seq<FeedItem>)
    requires forall item :: item in a ==> item in b
    ensures History(codec, a) <= History(codec, b)
  {
    forall e | e in History(codec, a) ensures e in History(codec, b) {
      var i :| 0 <= i < |a| && EntryOf(codec, a[i]) == e;
      assert a[i] in b;
    }
  }

  /** Redelivery and reordering do not matter: the index depends on the set of items only. */
  lemma {:induction false} SameItemsSameIndex(codec: Codec, a: seq<FeedItem>, b: seq<FeedItem>)
    requires forall item :: item in a <==> item in b
    ensures Index(codec, a) == Index(codec, b)
  {
    hide *;
    IndexIsTopOfHistory(codec, a);
    IndexIsTopOfHistory(codec, b);
    HistoryWithin(codec, a, b);
    HistoryWithin(codec, b, a);
    assert History(codec, a) == History(codec, b);
  }

  // ---- What a served feed means for its reader ----

  /** Older and newer item get different scores, or the payload bytes order them like their times. */
  predicate Told(codec: Codec, older: FeedItem, newer: FeedItem) {
    Float64(older.createdAt) != Float64(newer.createdAt) || Less(codec.marshal(older), codec.marshal(newer))
  }

  /** The index ranks a newer item above an older one exactly when the two are told apart. */
  lemma RankedByTime(codec: Codec, older: FeedItem, newer: FeedItem)
    requires older.createdAt < newer.createdAt
    ensures Before(EntryOf(codec, older), EntryOf(codec, newer)) <==> Told(codec, older, newer)
  {
    hide Float64, Less;
    Float64Monotone(older.createdAt, newer.createdAt);
  }

  /** From newer to older, and an item left out is no newer than any item shown. */
  ghost predicate NewestFirst(feed: seq<FeedItem>, items: seq<FeedItem>) {
    && (forall i, j :: 0 <= i < j < |feed| ==> feed[j].createdAt <= feed[i].createdAt)
    && (forall x, y :: x in items && x !in feed && y in feed ==> x.createdAt <= y.createdAt)
  }

  /** Every item among the best 20 of the history is told from every newer item of the history. */
  ghost predicate AllTold(codec: Codec, items: seq<FeedItem>) {
    forall x, y :: x in items && y in items && InTop(codec, items, x) && x.createdAt < y.createdAt ==> Told(codec, x, y)
  }

  ghost predicate InTop(codec: Codec, items: seq<FeedItem>, x: FeedItem) {
    EntryOf(codec, x) in Top(History(codec, items), 20)
  }

  /** The items shown are those among the best 20 of the history. */
  lemma ShownIsTop(codec: Codec, items: seq<FeedItem>, feed: seq<FeedItem>, x: FeedItem)
    requires codec.Lawful() && Shows(codec, feed, History(codec, items))
    ensures x in feed <==> InTop(codec, items, x)
  {
    hide Float64, Ranked, Top, EntryOf, History;
    var s, e := History(codec, items), EntryOf(codec, x);
    RankedTop(s, PAGE);
    assert Ranked(Top(s, PAGE)) == Page(s);
    assert e in Page(s) <==> e in Top(s, PAGE);
    forall i | 0 <= i < |feed| ensures feed[i] == x <==> Page(s)[i] == e { SameEntry(codec, feed[i], x); }
  }

  /** Where item x of the history stands: at its rank on the page, or below the whole of it. */
  lemma Standing(codec: Codec, items: seq<FeedItem>, feed: seq<FeedItem>, i: nat, x: FeedItem)
    requires codec.Lawful() && Shows(codec, feed, History(codec, items)) && i < |feed| && x in items
    ensures Before(EntryOf(codec, feed[i]), EntryOf(codec, x)) <==> exists k :: 0 <= k < i && feed[k] == x
    ensures x !in feed ==> |feed| == PAGE
    ensures x != feed[i] ==> Before(EntryOf(codec, feed[i]), EntryOf(codec, x)) || Before(EntryOf(codec, x), EntryOf(codec, feed[i]))
  {
    hide Float64, Ranked, Top, EntryOf, Before;
    var s, e := History(codec, items), EntryOf(codec, x);
    var r := Ranked(s);
    assert e in s by { InHistory(codec, items, x); }
    var n :| 0 <= n < |r| && r[n] == e;
    assert EntryOf(codec, feed[i]) == r[i];
    BeforeOrders(r[i], e);
    SameEntry(codec, feed[i], x);
    if n < i { RankedDescends(s, n, i); }
    if i < n { RankedDescends(s, i, n); }
    if n < |feed| {
      assert EntryOf(codec, feed[n]) == r[n];
      SameEntry(codec, feed[n], x);
    }
    forall k | 0 <= k < i && feed[k] == x ensures k == n {
      assert EntryOf(codec, feed[k]) == r[k];
      RanksDiffer(s, k, n);
    }
  }

  lemma InHistory(codec: Codec, items: seq<FeedItem>, x: FeedItem)
    requires x in items
    ensures EntryOf(codec, x) in History(codec, items)
  {
    hide EntryOf;
    var i :| 0 <= i < |items| && items[i] == x;
  }

  lemma RanksDiffer(s: set<Entry>, k: nat, n: nat)
    requires k < |s| && n < |s| && Ranked(s)[k] == Ranked(s)[n]
    ensures k == n
  {
    hide Ranked;
    BeforeOrders(Ranked(s)[k], Ranked(s)[n]);
    if k < n { RankedDescends(s, k, n); }
    if n < k { RankedDescends(s, n, k); }
  }

  /** Nothing is shown that was not added, nothing is shown twice, and only a full page leaves items out. */
  lemma FeedIsFromHistory(codec: Codec, items: seq<FeedItem>, feed: seq<FeedItem>)
    requires codec.Lawful() && Shows(codec, feed, History(codec, items))
    ensures forall i :: 0 <= i < |feed| ==> feed[i] in items
    ensures forall i, j :: 0 <= i < j < |feed| ==> feed[i] != feed[j]
    ensures (exists x :: x in items && x !in feed) ==> |feed| == 20
    ensures |feed| == if |History(codec, items)| < 20 then |History(codec, items)| else 20
  {
    hide Ranked, EntryOf;
    var s := History(codec, items);
    forall i | 0 <= i < |feed| ensures feed[i] in items {
      assert Page(s)[i] == Ranked(s)[i] && Ranked(s)[i] in s;
      Shown(codec, items, feed[i], Ranked(s)[i]);
    }
    forall i, j | 0 <= i < j < |feed| ensures feed[i] != feed[j] {
      assert Page(s)[i] == Ranked(s)[i] && Page(s)[j] == Ranked(s)[j];
      if feed[i] == feed[j] { RanksDiffer(s, i, j); }
    }
    if x :| x in items && x !in feed {
      InHistory(codec, items, x);
      assert |feed| == Least(PAGE, |s|);
      if |feed| > 0 { Standing(codec, items, feed, 0, x); }
    }
  }

  /**
   A served feed is newest first exactly when every item among the best 20 of the history is
   told from every newer item of the history: their scores differ, or their payload bytes
   order them like their creation times. All int64 creation times are allowed.
   */
  lemma FeedIsNewestFirst(codec: Codec, items: seq<FeedItem>, feed: seq<FeedItem>)
    requires codec.Lawful() && Shows(codec, feed, History(codec, items))
    ensures NewestFirst(feed, items) <==> AllTold(codec, items)
  {
    hide Told, Shows, EntryOf, Before, InTop;
    FeedIsFromHistory(codec, items, feed);
    forall x ensures x in feed <==> InTop(codec, items, x) { ShownIsTop(codec, items, feed, x); }
    forall i, x | 0 <= i < |feed| && x in items && feed[i].createdAt < x.createdAt
      ensures Told(codec, feed[i], x) <==> exists k :: 0 <= k < i && feed[k] == x
    {
      Standing(codec, items, feed, i, x);
      RankedByTime(codec, feed[i], x);
    }
  }

  /** Times that float64 represents exactly always give a newest-first feed. */
  lemma ExactTimesNewestFirst(codec: Codec, items: seq<FeedItem>, feed: seq<FeedItem>)
    requires codec.Lawful() && Shows(codec, feed, History(codec, items))
    requires forall x :: x in items ==> -TWO_53 <= x.createdAt <= TWO_53
    ensures NewestFirst(feed, items)
  {
    hide NewestFirst, Shows, Float64, InTop;
    FeedIsNewestFirst(codec, items, feed);
    forall x, y | x in items && y in items && x.createdAt < y.createdAt ensures Told(codec, x, y) {
      Float64Exact(x.createdAt);
      Float64Exact(y.createdAt);
    }
  }

  /** The feed of a two-item history, in either order of arrival. */
  lemma TwoItemFeed(codec: Codec, older: FeedItem, newer: FeedItem, feed: seq<FeedItem>)
    requires codec.Lawful() && older.createdAt < newer.createdAt && Shows(codec, feed, History(codec, [older, newer]))
    ensures feed == if Told(codec, older, newer) then [newer, older] else [older, newer]
    ensures NewestFirst(feed, [older, newer]) <==> Told(codec, older, newer)
  {
    hide Told, Shows, EntryOf, Before;
    var items := [older, newer];
    FeedIsFromHistory(codec, items, feed);
    assert older in items && newer in items;
    assert older in feed && newer in feed by { TwoShown(codec, older, newer, feed); }
    var i :| 0 <= i < |feed| && feed[i] == older;
    var j :| 0 <= j < |feed| && feed[j] == newer;
    Standing(codec, items, feed, i, newer);
    RankedByTime(codec, older, newer);
    TwoPlaces(feed, i, j);
  }

  lemma TwoShown(codec: Codec, older: FeedItem, newer: FeedItem, feed: seq<FeedItem>)
    requires codec.Lawful() && older != newer && Shows(codec, feed, History(codec, [older, newer]))
    ensures older in feed && newer in feed
  {
    hide Shows, EntryOf;
    var items := [older, newer];
    FeedIsFromHistory(codec, items, feed);
    AtMostTwo(feed, older, newer);
    assert older in items && newer in items;
  }

  lemma AtMostTwo(feed: seq<FeedItem>, x: FeedItem, y: FeedItem)
    requires forall i, j :: 0 <= i < j < |feed| ==> feed[i] != feed[j]
    ensures (forall i :: 0 <= i < |feed| ==> feed[i] in [x, y]) ==> |feed| <= 2
  {
    assert |feed| > 2 ==> !(feed[0] in [x, y] && feed[1] in [x, y] && feed[2] in [x, y]);
  }

  lemma TwoPlaces(feed: seq<FeedItem>, i: nat, j: nat)
    requires i < |feed| && j < |feed| && i != j
    requires forall m, n :: 0 <= m < n < |feed| ==> feed[m] != feed[n]
    requires forall m :: 0 <= m < |feed| ==> feed[m] in [feed[i], feed[j]]
    ensures feed == if i < j then [feed[i], feed[j]] else [feed[j], feed[i]]
  {
    AtMostTwo(feed, feed[i], feed[j]);
  }

  const OLDER := FeedItem("b", "author", "older", TWO_53)
  const NEWER := FeedItem("a", "author", "newer", TWO_53 + 1)

  /**
   A page out of order: at creation times 2^53 and 2^53 + 1 the post with the greater id is
   shown first although it is the older one. encoding/json prints the post id first.
   */
  lemma PageOutOfOrder(codec: Codec, feed: seq<FeedItem>)
    requires codec.Lawful() && Shows(codec, feed, History(codec, [OLDER, NEWER]))
    requires "{\"PostID\":\"b\"" <= codec.marshal(OLDER) && "{\"PostID\":\"a\"" <= codec.marshal(NEWER)
    ensures feed == [OLDER, NEWER] && !NewestFirst(feed, [OLDER, NEWER])
  {
    hide Float64, Shows;
    var prefix, a, b := "{\"PostID\":\"", codec.marshal(NEWER), codec.marshal(OLDER);
    LessAfter(prefix, a[|prefix|..], b[|prefix|..]);
    assert a == prefix + a[|prefix|..] && b == prefix + b[|prefix|..];
    BeforeOrders(Entry(0, a), Entry(0, b));
    hide Less;
    Float64Collides();
    TwoItemFeed(codec, OLDER, NEWER, feed);
  }

  lemma {:induction false} LessAfter(prefix: string, a: string, b: string)
    requires a != "" && b != "" && a[0] < b[0]
    ensures Less(prefix + a, prefix + b)
  {
    if prefix == "" {
      assert prefix + a == a && prefix + b == b;
    } else {
      LessAfter(prefix[1..], a, b);
      assert (prefix + a)[1..] == prefix[1..] + a && (prefix + b)[1..] == prefix[1..] + b;
    }
  }

  lemma SameEntry(codec: Codec, a: FeedItem, b: FeedItem)
    requires codec.Lawful()
    ensures EntryOf(codec, a) == EntryOf(codec, b) <==> a == b
  {
    assert codec.unmarshal(codec.marshal(a)) == Some(a) && codec.unmarshal(codec.marshal(b)) == Some(b);
  }

  lemma Shown(codec: Codec, items: seq<FeedItem>, item: FeedItem, e: Entry)
    requires codec.Lawful() && EntryOf(codec, item) == e && e in History(codec, items)
    ensures item in items
  {
    var i :| 0 <= i < |items| && EntryOf(codec, items[i]) == e;
    SameEntry(codec, items[i], item);
  }
}
