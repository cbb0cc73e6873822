/**
 The in-memory follow repository of users-service (repository/postgres/follow_repository.go):
 edges kept as strings "follower NUL followee", listed by suffix.
 */
module FollowGraph {
  import opened Text

  const NUL := '\0'

  datatype FollowRel = Rel(followerID: string, followeeID: string)

  predicate Clean(id: string) { NUL !in id }

  function FollowKey(rel: FollowRel): string {
    rel.followerID + [NUL] + rel.followeeID
  }

  // ---- sort.Strings ----

  ghost predicate Ascending(s: seq<string>) {
    forall i, j :: 0 <= i < j < |s| ==> Less(s[i], s[j])
  }

  /** Insertion into a list without duplicates. */
  function Insert(x: string, s: seq<string>): (r: seq<string>)
    requires Ascending(s) && x !in s
    ensures Ascending(r) && forall y :: y in r <==> y == x || y in s
  {
    if s == [] then [x]
    else
      LessTotal(x, s[0]);
      if Less(x, s[0]) then
        assert Ascending([x] + s) by {
          forall j | 0 <= j < |s| ensures Less(x, s[j]) { if j > 0 { LessTransitive(x, s[0], s[j]); } }
        }
        [x] + s
      else
        var rest := Insert(x, s[1..]);
        assert Ascending([s[0]] + rest) by {
          forall j | 0 <= j < |rest| ensures Less(s[0], rest[j]) { assert rest[j] in rest; }
        }
        [s[0]] + rest
  }

  function Sorted(s: seq<string>): (r: seq<string>)
    requires forall i, j :: 0 <= i < j < |s| ==> s[i] != s[j]
    ensures Ascending(r) && forall y :: y in r <==> y in s
  {
    if s == [] then [] else Insert(s[0], Sorted(s[1..]))
  }

  predicate HasSuffix(s: string, suffix: string) {
    |suffix| <= |s| && s[|s| - |suffix|..] == suffix
  }

  function TrimSuffix(s: string, suffix: string): string {
    if HasSuffix(s, suffix) then s[..|s| - |suffix|] else s
  }

  lemma SuffixIsKey(k: string, followee: string)
    ensures HasSuffix(k, [NUL] + followee) <==> exists id :: k == FollowKey(Rel(id, followee))
    ensures HasSuffix(k, [NUL] + followee) ==> k == FollowKey(Rel(TrimSuffix(k, [NUL] + followee), followee))
    ensures forall id :: k == FollowKey(Rel(id, followee)) ==> TrimSuffix(k, [NUL] + followee) == id
  {
    var suffix := [NUL] + followee;
    if HasSuffix(k, suffix) {
      assert k == k[..|k| - |suffix|] + suffix;
      assert k == FollowKey(Rel(TrimSuffix(k, suffix), followee));
    }
    forall id | k == FollowKey(Rel(id, followee)) ensures TrimSuffix(k, suffix) == id {
      assert k == id + suffix;
    }
  }

  class InMemoryFollowRepository {
    var follows: set<string>

    constructor ()
      ensures follows == {}
    {
      follows := {};
    }

    method Follow(rel: FollowRel) returns (added: bool)
      modifies this
      ensures added <==> FollowKey(rel) !in old(follows)
      ensures follows == old(follows) + {FollowKey(rel)}
    {
      var k := FollowKey(rel);
      if k in follows { return false; }
      follows := follows + {k};
      return true;
    }

    method Unfollow(rel: FollowRel)
      modifies this
      ensures follows == old(follows) - {FollowKey(rel)}
    {
      follows := follows - {FollowKey(rel)};
    }

    /** Exactly the ids whose key with this followee is stored, in strictly ascending order. */
    method ListFollowerIDs(followeeID: string) returns (out: seq<string>)
      ensures Ascending(out)
      ensures forall id :: id in out <==> FollowKey(Rel(id, followeeID)) in follows
    {
      var suffix := [NUL] + followeeID;
      out := [];
      var todo := follows;
      while todo != {}
        invariant todo <= follows
        invariant forall i, j :: 0 <= i < j < |out| ==> out[i] != out[j]
        invariant forall id :: id in out <==> FollowKey(Rel(id, followeeID)) in follows - todo
        decreases todo
      {
        var k :| k in todo;
        SuffixIsKey(k, followeeID);
        hide HasSuffix, FollowKey, TrimSuffix;
        if HasSuffix(k, suffix) { out := out + [TrimSuffix(k, suffix)]; }
        todo := todo - {k};
      }
      out := Sorted(out);
    }
  }

  // ---- The string set as a set of pairs ----

  /** keys stores exactly these edges. */
  ghost predicate Represents(keys: set<string>, edges: set<FollowRel>) {
    && (forall e :: e in edges ==> Clean(e.followeeID))
    && (forall k :: k in keys <==> exists e :: e in edges && FollowKey(e) == k)
  }

  /** If one string splits at two places, both sides of the gap hold a NUL. */
  lemma TwoSplits(d: FollowRel, e: FollowRel)
    requires FollowKey(d) == FollowKey(e) && |d.followerID| < |e.followerID|
    ensures !Clean(e.followerID) && !Clean(d.followeeID)
  {
    var k, m, n := FollowKey(d), |d.followerID|, |e.followerID|;
    assert k[m] == NUL && e.followerID[m] == k[m];
    assert k[n] == NUL && d.followeeID[n - m - 1] == k[n];
  }

  lemma OneSplit(d: FollowRel, e: FollowRel)
    requires FollowKey(d) == FollowKey(e) && |d.followerID| == |e.followerID|
    ensures d == e
  {
    var k, m := FollowKey(d), |d.followerID|;
    assert k[..m] == d.followerID && k[..m] == e.followerID;
    assert k[m + 1..] == d.followeeID && k[m + 1..] == e.followeeID;
  }

  lemma KeyDeterminesPair(d: FollowRel, e: FollowRel)
    requires FollowKey(d) == FollowKey(e)
    requires (Clean(d.followeeID) && Clean(e.followeeID)) || (Clean(d.followerID) && Clean(d.followeeID))
    ensures d == e
  {
    hide FollowKey;
    if |d.followerID| == |e.followerID| { OneSplit(d, e); }
    else if |d.followerID| < |e.followerID| { TwoSplits(d, e); }
    else { TwoSplits(e, d); }
  }

  /** Follow and Unfollow on keys are insertion and removal of one pair; added means it was absent. */
  lemma KeysRefinePairs(keys: set<string>, edges: set<FollowRel>, rel: FollowRel)
    requires Represents(keys, edges) && Clean(rel.followeeID)
    ensures FollowKey(rel) in keys <==> rel in edges
    ensures Represents(keys + {FollowKey(rel)}, edges + {rel})
    ensures Represents(keys - {FollowKey(rel)}, edges - {rel})
  {
    hide FollowKey;
    forall e | e in edges + {rel} && FollowKey(e) == FollowKey(rel) ensures e == rel { KeyDeterminesPair(e, rel); }
    forall k ensures k in keys - {FollowKey(rel)} <==> exists e :: e in edges - {rel} && FollowKey(e) == k {
      if k in keys - {FollowKey(rel)} {
        var e :| e in edges && FollowKey(e) == k;
        assert e in edges - {rel};
      }
    }
    forall k ensures k in keys + {FollowKey(rel)} <==> exists e :: e in edges + {rel} && FollowKey(e) == k {
      if k in keys {
        var e :| e in edges && FollowKey(e) == k;
        assert e in edges + {rel};
      }
      if k == FollowKey(rel) { assert rel in edges + {rel}; }
    }
  }

  datatype Op = Add(rel: FollowRel) | Remove(rel: FollowRel)

  ghost function Keys(ops: seq<Op>): set<string> {
    if ops == [] then {}
    else
      var before, k := Keys(ops[..|ops| - 1]), FollowKey(ops[|ops| - 1].rel);
      if ops[|ops| - 1].Add? then before + {k} else before - {k}
  }

  ghost function Edges(ops: seq<Op>): set<FollowRel> {
    if ops == [] then {}
    else
      var before, rel := Edges(ops[..|ops| - 1]), ops[|ops| - 1].rel;
      if ops[|ops| - 1].Add? then before + {rel} else before - {rel}
  }

  /**
   Over every sequence of follows and unfollows whose followee ids are free of NUL, the
   string set is the set of pairs: membership of a key, and so the lists and the added
   flags, agree with membership of the pair.
   */
  lemma {:induction false} StoreIsPairSet(ops: seq<Op>, rel: FollowRel)
    requires Clean(rel.followeeID) && forall i :: 0 <= i < |ops| ==> Clean(ops[i].rel.followeeID)
    ensures Represents(Keys(ops), Edges(ops))
    ensures FollowKey(rel) in Keys(ops) <==> rel in Edges(ops)
  {
    hide FollowKey, Clean, Represents;
    if ops != [] {
      var before, last := ops[..|ops| - 1], ops[|ops| - 1];
      StoreIsPairSet(before, last.rel);
      KeysRefinePairs(Keys(before), Edges(before), last.rel);
    } else {
      NothingRepresentsNothing();
    }
    KeysRefinePairs(Keys(ops), Edges(ops), rel);
  }

  lemma NothingRepresentsNothing()
    ensures Represents({}, {})
  {
  }

  /** A pair's key is shared with no other pair exactly when both its ids are free of NUL. */
  lemma UniquelyKeyed(rel: FollowRel)
    ensures (forall other :: FollowKey(other) == FollowKey(rel) ==> other == rel) <==> Clean(rel.followerID) && Clean(rel.followeeID)
  {
    var k, a, b := FollowKey(rel), rel.followerID, rel.followeeID;
    if !Clean(a) {
      var i :| 0 <= i < |a| && a[i] == NUL;
      var other := Rel(a[..i], a[i + 1..] + [NUL] + b);
      assert a == a[..i] + [NUL] + a[i + 1..];
      assert FollowKey(other) == k;
    } else if !Clean(b) {
      var i :| 0 <= i < |b| && b[i] == NUL;
      var other := Rel(a + [NUL] + b[..i], b[i + 1..]);
      assert b == b[..i] + [NUL] + b[i + 1..];
      assert FollowKey(other) == k;
    } else {
      forall other | FollowKey(other) == k ensures other == rel { KeyDeterminesPair(rel, other); }
    }
  }
}
