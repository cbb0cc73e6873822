/**
 Following in users-service (service/user_service.go over the in-memory repositories):
 users come into being when they follow or are followed, and a user.followed event is
 published when an edge appears.
 */
module UserService {
  import opened Wrappers
  import opened Text
  import opened FollowGraph

  datatype User = User(id: string, name: string, bio: string, profilePicture: string)

  datatype Error = MissingUserID | CannotFollowSelf

  class InMemoryUserRepository {
    var users: map<string, User>

    constructor ()
      ensures users == map[]
    {
      users := map[];
    }

    method Save(user: User)
      modifies this
      ensures users == old(users)[user.id := user]
    {
      users := users[user.id := user];
    }

    method GetByID(id: string) returns (u: Option<User>)
      ensures u == if id in users then Some(users[id]) else None
    {
      u := if id in users then Some(users[id]) else None;
    }
  }

  function Refusal(followerID: string, followeeID: string): Option<Error> {
    if IsBlank(followerID) || IsBlank(followeeID) then Some(MissingUserID)
    else if followerID == followeeID then Some(CannotFollowSelf)
    else None
  }

  /** Blank ids are refused before a self-follow is. */
  lemma RefusalMeans(followerID: string, followeeID: string)
    ensures Refusal(followerID, followeeID) == if OnlySpaces(followerID) || OnlySpaces(followeeID) then Some(MissingUserID)
      else if followerID == followeeID then Some(CannotFollowSelf) else None
  {
    BlankMeans(followerID);
    BlankMeans(followeeID);
    hide IsBlank, OnlySpaces;
  }

  class Service {
    const users: InMemoryUserRepository
    const follows: InMemoryFollowRepository
    /** The rels handed to PublishFollowed, in order, whether or not publishing succeeded. */
    var published: seq<FollowRel>

    constructor (users: InMemoryUserRepository, follows: InMemoryFollowRepository)
      ensures this.users == users && this.follows == follows && published == []
    {
      this.users, this.follows, published := users, follows, [];
    }

    method EnsureUser(id: string)
      modifies users
      ensures users.users.Keys == old(users.users).Keys + {id}
      ensures forall u :: u in old(users.users) ==> users.users[u] == old(users.users)[u]
      ensures id !in old(users.users) ==> users.users[id] == User(id, "", "", "")
    {
      var u := users.GetByID(id);
      if u.Some? { return; }
      users.Save(User(id, "", "", ""));
    }

    /** An event is published exactly when the edge was absent. */
    method FollowUser(followerID: string, followeeID: string) returns (err: Option<Error>)
      modifies this, users, follows
      ensures err == Refusal(followerID, followeeID)
      ensures err == if OnlySpaces(followerID) || OnlySpaces(followeeID) then Some(MissingUserID)
        else if followerID == followeeID then Some(CannotFollowSelf) else None
      ensures err.Some? ==>
        users.users == old(users.users) && follows.follows == old(follows.follows) && published == old(published)
      ensures err.None? ==>
        && users.users.Keys == old(users.users).Keys + {followerID, followeeID}
        && (forall u :: u in old(users.users) ==> users.users[u] == old(users.users)[u])
        && (forall u :: u in users.users && u !in old(users.users) ==> users.users[u] == User(u, "", "", ""))
        && follows.follows == old(follows.follows) + {followerID + "\0" + followeeID}
        && published == old(published) +
             if followerID + "\0" + followeeID in old(follows.follows) then [] else [Rel(followerID, followeeID)]
    {
      RefusalMeans(followerID, followeeID);
      hide IsBlank, OnlySpaces;
      if IsBlank(followerID) || IsBlank(followeeID) { return Some(MissingUserID); }
      if followerID == followeeID { return Some(CannotFollowSelf); }
      EnsureUser(followerID);
      EnsureUser(followeeID);
      var rel := Rel(followerID, followeeID);
      var added := follows.Follow(rel);
      if added { published := published + [rel]; }
      return None;
    }

    method UnfollowUser(followerID: string, followeeID: string) returns (err: Option<Error>)
      modifies follows
      ensures err == if OnlySpaces(followerID) || OnlySpaces(followeeID) then Some(MissingUserID)
        else if followerID == followeeID then Some(CannotFollowSelf) else None
      ensures follows.follows == old(follows.follows) - if err.Some? then {} else {followerID + "\0" + followeeID}
    {
      RefusalMeans(followerID, followeeID);
      if IsBlank(followerID) || IsBlank(followeeID) { return Some(MissingUserID); }
      if followerID == followeeID { return Some(CannotFollowSelf); }
      follows.Unfollow(Rel(followerID, followeeID));
      return None;
    }

    method ListFollowerIDs(followeeID: string) returns (r: Result<seq<string>, Error>)
      ensures OnlySpaces(followeeID) ==> r == Err(MissingUserID)
      ensures !OnlySpaces(followeeID) ==>
        r.Ok? && Ascending(r.value) && forall id :: id in r.value <==> id + "\0" + followeeID in follows.follows
    {
      BlankMeans(followeeID);
      hide IsBlank, OnlySpaces;
      if IsBlank(followeeID) { return Err(MissingUserID); }
      var ids := follows.ListFollowerIDs(followeeID);
      return Ok(ids);
    }
  }

  // ---- Concurrent calls ----

  /** Where a FollowUser call that passed validation stands; each phase is one locked step. */
  datatype Phase = EnsureFollower | EnsureFollowee | AddEdge | Publish | Finished

  datatype Call = Call(rel: FollowRel, phase: Phase)

  /** keys is the follow repository's string set. */
  datatype System = System(users: set<string>, keys: set<string>, calls: seq<Call>, published: seq<FollowRel>)

  datatype Action = Begin(rel: FollowRel) | Proceed(call: nat) | Unfollow(rel: FollowRel) | SaveUser(id: string)

  const EMPTY := System({}, {}, [], [])

  predicate Accepted(rel: FollowRel) { Refusal(rel.followerID, rel.followeeID).None? }

  function Proceeded(s: System, i: nat): System
    requires i < |s.calls|
  {
    var rel, phase := s.calls[i].rel, s.calls[i].phase;
    match phase
    case EnsureFollower => s.(users := s.users + {rel.followerID}, calls := s.calls[i := Call(rel, EnsureFollowee)])
    case EnsureFollowee => s.(users := s.users + {rel.followeeID}, calls := s.calls[i := Call(rel, AddEdge)])
    case AddEdge =>
      s.(keys := s.keys + {FollowKey(rel)},
         calls := s.calls[i := Call(rel, if FollowKey(rel) in s.keys then Finished else Publish)])
    case Publish => s.(published := s.published + [rel], calls := s.calls[i := Call(rel, Finished)])
    case Finished => s
  }

  function Do(s: System, a: Action): System {
    match a
    case Begin(rel) => if Accepted(rel) then s.(calls := s.calls + [Call(rel, EnsureFollower)]) else s
    case Proceed(i) => if i < |s.calls| then Proceeded(s, i) else s
    case Unfollow(rel) => if Accepted(rel) then s.(keys := s.keys - {FollowKey(rel)}) else s
    case SaveUser(id) => s.(users := s.users + {id})
  }

  function Exec(run: seq<Action>): System {
    if run == [] then EMPTY else Do(Exec(run[..|run| - 1]), run[|run| - 1])
  }

  // ---- Who stands behind a stored key ----

  predicate Proper(rel: FollowRel) { rel.followerID != rel.followeeID }

  predicate Ends(users: set<string>, rel: FollowRel) { rel.followerID in users && rel.followeeID in users }

  /** A pair that was followed under this key and both of whose ends exist. */
  ghost predicate Backed(users: set<string>, k: string) {
    exists rel :: FollowKey(rel) == k && Accepted(rel) && Ends(users, rel)
  }

  ghost predicate Ready(users: set<string>, c: Call) {
    && Accepted(c.rel)
    && (!c.phase.EnsureFollower? ==> c.rel.followerID in users)
    && (!c.phase.EnsureFollower? && !c.phase.EnsureFollowee? ==> c.rel.followeeID in users)
  }

  /** What every reachable state keeps about its keys and calls. */
  ghost predicate Sound(s: System) {
    && (forall k :: k in s.keys ==> Backed(s.users, k))
    && (forall i :: 0 <= i < |s.calls| ==> Ready(s.users, s.calls[i]))
  }

  lemma BackedGrows(users: set<string>, more: set<string>)
    requires users <= more
    ensures forall k :: Backed(users, k) ==> Backed(more, k)
    ensures forall c :: Ready(users, c) ==> Ready(more, c)
  {
    hide FollowKey, Accepted;
    forall k | Backed(users, k) ensures Backed(more, k) {
      var rel :| FollowKey(rel) == k && Accepted(rel) && Ends(users, rel);
      assert Ends(more, rel);
    }
  }

  lemma DoSound(s: System, a: Action)
    requires Sound(s)
    ensures Sound(Do(s, a))
  {
    hide FollowKey, Accepted;
    BackedGrows(s.users, Do(s, a).users);
    if a.Proceed? && a.call < |s.calls| {
      var c := s.calls[a.call];
      assert Ready(s.users, c);
      if c.phase == AddEdge { assert Ends(s.users, c.rel) && Backed(s.users, FollowKey(c.rel)); }
    }
    hide Backed;
  }

  lemma {:induction false} AlwaysSound(run: seq<Action>)
    ensures Sound(Exec(run))
  {
    hide Do, Sound;
    if run == [] {
      EmptySound();
    } else {
      AlwaysSound(run[..|run| - 1]);
      DoSound(Exec(run[..|run| - 1]), run[|run| - 1]);
    }
  }

  lemma EmptySound()
    ensures Sound(EMPTY)
  {
  }

  /**
   In every interleaving every stored key comes from a pair of two different existing users
   that was followed; and a pair of NUL-free ids whose key is stored is that pair, so it is
   no self edge and both its ends exist.
   */
  lemma EdgesAlwaysSound(run: seq<Action>, rel: FollowRel)
    requires FollowKey(rel) in Exec(run).keys
    ensures exists d :: FollowKey(d) == FollowKey(rel) && Accepted(d) && Proper(d) && Ends(Exec(run).users, d)
    ensures Clean(rel.followerID) && Clean(rel.followeeID) ==> Proper(rel) && Ends(Exec(run).users, rel)
  {
    AlwaysSound(run);
    hide Exec, FollowKey, Clean;
    assert Backed(Exec(run).users, FollowKey(rel));
    var d :| FollowKey(d) == FollowKey(rel) && Accepted(d) && Ends(Exec(run).users, d);
    if Clean(rel.followerID) && Clean(rel.followeeID) { KeyDeterminesPair(rel, d); }
  }

  /** Whoever shares the key of rel and may be followed vouches for it: same ends, no self edge. */
  ghost predicate Vouched(rel: FollowRel) {
    forall d :: FollowKey(d) == FollowKey(rel) && Accepted(d) ==> Proper(rel) && Ends({d.followerID, d.followeeID}, rel)
  }

  /** The run of one call, from the empty state to its end. */
  function LoneRun(d: FollowRel): seq<Action> { [Begin(d), Proceed(0), Proceed(0), Proceed(0), Proceed(0)] }

  lemma LoneRunStores(d: FollowRel)
    requires Accepted(d)
    ensures Exec(LoneRun(d)).users == {d.followerID, d.followeeID} && Exec(LoneRun(d)).keys == {FollowKey(d)}
  {
    hide FollowKey, Accepted;
    var run := LoneRun(d);
    LoneCall(EMPTY, d);
    assert run[..4] == [Begin(d), Proceed(0), Proceed(0), Proceed(0)];
    assert run[..4][..3] == [Begin(d), Proceed(0), Proceed(0)];
    assert run[..4][..3][..2] == [Begin(d), Proceed(0)];
    assert run[..4][..3][..2][..1] == [Begin(d)];
    assert run[..4][..3][..2][..1][..0] == [];
    hide Do, Exec;
    ExecOf(run);
    ExecOf(run[..4]);
    ExecOf(run[..4][..3]);
    ExecOf(run[..4][..3][..2]);
    ExecOf([Begin(d)]);
    ExecNone();
  }

  lemma ExecOf(run: seq<Action>)
    requires run != []
    ensures Exec(run) == Do(Exec(run[..|run| - 1]), run[|run| - 1])
  {
    hide Do;
  }

  lemma ExecNone()
    ensures Exec([]) == EMPTY
  {
  }

  /** For ids of any kind: the pair is sound in every run exactly when those who share its key vouch for it. */
  lemma EdgesSoundExactly(rel: FollowRel)
    ensures (forall run :: FollowKey(rel) in Exec(run).keys ==> Proper(rel) && Ends(Exec(run).users, rel)) <==> Vouched(rel)
  {
    hide FollowKey, Accepted, Exec, LoneRun;
    if Vouched(rel) {
      forall run | FollowKey(rel) in Exec(run).keys ensures Proper(rel) && Ends(Exec(run).users, rel) {
        EdgesAlwaysSound(run, rel);
        var d :| FollowKey(d) == FollowKey(rel) && Accepted(d) && Proper(d) && Ends(Exec(run).users, d);
        assert Ends({d.followerID, d.followeeID}, rel);
      }
    } else {
      var d :| FollowKey(d) == FollowKey(rel) && Accepted(d) && !(Proper(rel) && Ends({d.followerID, d.followeeID}, rel));
      LoneRunStores(d);
      assert FollowKey(rel) in Exec(LoneRun(d)).keys;
    }
  }

  /** Ids with NUL: after a follows b NUL a NUL b, the user "a NUL b" is listed as following itself. */
  lemma SelfEdgeByNul()
    ensures var d, x := Rel("a", "b\0a\0b"), "a\0b"; FollowKey(Rel(x, x)) in Exec(LoneRun(d)).keys && !Vouched(Rel(x, x))
  {
    var d, x := Rel("a", "b\0a\0b"), "a\0b";
    assert FollowKey(d) == FollowKey(Rel(x, x));
    assert Accepted(d);
    hide Exec, LoneRun;
    LoneRunStores(d);
  }

  // ---- Events ----

  /** How often the key went from absent to present. */
  function Appearances(run: seq<Action>, k: string): nat {
    if run == [] then 0
    else
      Appearances(run[..|run| - 1], k) +
      if k !in Exec(run[..|run| - 1]).keys && k in Exec(run).keys then 1 else 0
  }

  function Publications(published: seq<FollowRel>, k: string): nat {
    if published == [] then 0
    else Publications(published[..|published| - 1], k) + if FollowKey(published[|published| - 1]) == k then 1 else 0
  }

  /** The call has added the key and not published its pair yet. */
  predicate Owes(c: Call, k: string) { c.phase == Publish && FollowKey(c.rel) == k }

  function Owed(calls: seq<Call>, k: string): nat {
    if calls == [] then 0
    else Owed(calls[..|calls| - 1], k) + if Owes(calls[|calls| - 1], k) then 1 else 0
  }

  lemma {:induction false} OwedUpdate(calls: seq<Call>, i: nat, c: Call, k: string)
    requires i < |calls|
    ensures Owed(calls[i := c], k) + (if Owes(calls[i], k) then 1 else 0) == Owed(calls, k) + if Owes(c, k) then 1 else 0
  {
    hide Owes;
    var last := |calls| - 1;
    if i < last {
      OwedUpdate(calls[..last], i, c, k);
      assert calls[i := c][..last] == calls[..last][i := c];
    } else {
      assert calls[i := c][..last] == calls[..last];
    }
  }

  ghost predicate KeepsAccount(s: System, s': System, k: string) {
    Publications(s'.published, k) + Owed(s'.calls, k) ==
      Publications(s.published, k) + Owed(s.calls, k) + if k !in s.keys && k in s'.keys then 1 else 0
  }

  lemma ProceedKeepsAccount(s: System, i: nat, k: string)
    requires i < |s.calls|
    ensures KeepsAccount(s, Proceeded(s, i), k)
  {
    hide Owed, FollowKey;
    var c := s.calls[i];
    OwedUpdate(s.calls, i, Proceeded(s, i).calls[i], k);
    assert (s.published + [c.rel])[..|s.published|] == s.published;
  }

  lemma DoKeepsAccount(s: System, a: Action, k: string)
    ensures KeepsAccount(s, Do(s, a), k)
  {
    hide Accepted, FollowKey;
    match a
    case Begin(r) => assert (s.calls + [Call(r, EnsureFollower)])[..|s.calls|] == s.calls;
    case Proceed(i) =>
      hide Proceeded, KeepsAccount;
      if i < |s.calls| { ProceedKeepsAccount(s, i, k); } else { NothingChanged(s, k); }
    case _ =>
  }

  lemma NothingChanged(s: System, k: string)
    ensures KeepsAccount(s, s, k)
  {
  }

  /**
   In every interleaving and for ids of any kind: each appearance of a key has been
   published exactly once or is owed by the call that added it, and nothing else is ever
   published. The key of a pair of NUL-free ids is published for that pair only.
   */
  lemma {:induction false} AppearancesArePublished(run: seq<Action>, rel: FollowRel)
    ensures Publications(Exec(run).published, FollowKey(rel)) + Owed(Exec(run).calls, FollowKey(rel)) == Appearances(run, FollowKey(rel))
    ensures (forall i :: 0 <= i < |Exec(run).calls| ==> Exec(run).calls[i].phase == Finished) ==>
      Publications(Exec(run).published, FollowKey(rel)) == Appearances(run, FollowKey(rel))
    ensures Clean(rel.followerID) && Clean(rel.followeeID) ==>
      Publications(Exec(run).published, FollowKey(rel)) == multiset(Exec(run).published)[rel]
  {
    hide Do, FollowKey, Clean;
    if run != [] {
      AppearancesArePublished(run[..|run| - 1], rel);
      DoKeepsAccount(Exec(run[..|run| - 1]), run[|run| - 1], FollowKey(rel));
    }
    hide Exec, Owes;
    if forall i :: 0 <= i < |Exec(run).calls| ==> Exec(run).calls[i].phase == Finished { NothingOwed(Exec(run).calls, FollowKey(rel)); }
    if Clean(rel.followerID) && Clean(rel.followeeID) { PublishedAsPair(Exec(run).published, rel); }
  }

  lemma {:induction false} NothingOwed(calls: seq<Call>, k: string)
    requires forall i :: 0 <= i < |calls| ==> calls[i].phase == Finished
    ensures Owed(calls, k) == 0
  {
    if calls != [] { NothingOwed(calls[..|calls| - 1], k); }
  }

  lemma {:induction false} PublishedAsPair(published: seq<FollowRel>, rel: FollowRel)
    requires Clean(rel.followerID) && Clean(rel.followeeID)
    ensures Publications(published, FollowKey(rel)) == multiset(published)[rel]
  {
    hide FollowKey, Clean;
    if published != [] {
      var before, last := published[..|published| - 1], published[|published| - 1];
      PublishedAsPair(before, rel);
      assert published == before + [last];
      if FollowKey(last) == FollowKey(rel) { KeyDeterminesPair(rel, last); }
    }
  }

  // ---- The stored keys as pairs ----

  /** What an action asks of the follow repository. */
  function StoreOp(s: System, a: Action): seq<Op> {
    match a
    case Proceed(i) => if i < |s.calls| && s.calls[i].phase == AddEdge then [Op.Add(s.calls[i].rel)] else []
    case Unfollow(rel) => if Accepted(rel) then [Op.Remove(rel)] else []
    case _ => []
  }

  function StoreOps(run: seq<Action>): seq<Op> {
    if run == [] then []
    else StoreOps(run[..|run| - 1]) + StoreOp(Exec(run[..|run| - 1]), run[|run| - 1])
  }

  /** No followee id in the run contains NUL. */
  ghost predicate CleanRun(run: seq<Action>) {
    forall i :: 0 <= i < |run| && (run[i].Begin? || run[i].Unfollow?) ==> Clean(run[i].rel.followeeID)
  }

  ghost predicate CleanCalls(calls: seq<Call>) {
    forall i :: 0 <= i < |calls| ==> Clean(calls[i].rel.followeeID)
  }

  ghost predicate CleanOps(ops: seq<Op>) {
    forall i :: 0 <= i < |ops| ==> Clean(ops[i].rel.followeeID)
  }

  lemma KeysAppend(ops: seq<Op>, op: Op)
    ensures Keys(ops + [op]) == if op.Add? then Keys(ops) + {FollowKey(op.rel)} else Keys(ops) - {FollowKey(op.rel)}
  {
    hide FollowKey;
    assert (ops + [op])[..|ops|] == ops;
  }

  lemma DoStores(s: System, a: Action, ops: seq<Op>)
    requires s.keys == Keys(ops) && CleanCalls(s.calls) && CleanOps(ops) && CleanRun([a])
    ensures Do(s, a).keys == Keys(ops + StoreOp(s, a))
    ensures CleanCalls(Do(s, a).calls) && CleanOps(ops + StoreOp(s, a))
  {
    hide Accepted, Clean, Keys, FollowKey;
    assert [a][0] == a;
    if StoreOp(s, a) == [] {
      assert ops + [] == ops;
    } else {
      KeysAppend(ops, StoreOp(s, a)[0]);
    }
  }

  lemma {:induction false} StoreFollowsRun(run: seq<Action>)
    requires CleanRun(run)
    ensures Exec(run).keys == Keys(StoreOps(run)) && CleanCalls(Exec(run).calls) && CleanOps(StoreOps(run))
  {
    if run != [] {
      hide Do, StoreOp, Keys, Clean;
      var before, a := run[..|run| - 1], run[|run| - 1];
      assert CleanRun([a]);
      StoreFollowsRun(before);
      hide CleanRun, CleanCalls, CleanOps;
      DoStores(Exec(before), a, StoreOps(before));
    }
  }

  /**
   In every interleaving over NUL-free followee ids the repository's string set stands for
   the pairs followed and not unfollowed since.
   */
  lemma {:induction false} EdgesAreStored(run: seq<Action>, rel: FollowRel)
    requires CleanRun(run) && Clean(rel.followeeID)
    ensures Represents(Exec(run).keys, Edges(StoreOps(run)))
    ensures FollowKey(rel) in Exec(run).keys <==> rel in Edges(StoreOps(run))
  {
    hide Exec, StoreOps, Edges, Keys, Represents, FollowKey, Clean;
    StoreFollowsRun(run);
    StoreIsPairSet(StoreOps(run), rel);
  }

  /** A call that runs alone does what FollowUser's contract says. */
  lemma LoneCall(s: System, rel: FollowRel)
    requires Accepted(rel)
    ensures var i := |s.calls|;
      var end := Do(Do(Do(Do(Do(s, Begin(rel)), Proceed(i)), Proceed(i)), Proceed(i)), Proceed(i));
      && end.users == s.users + {rel.followerID} + {rel.followeeID} && end.keys == s.keys + {FollowKey(rel)}
      && end.published == s.published + (if FollowKey(rel) in s.keys then [] else [rel])
      && end.calls == s.calls + [Call(rel, Finished)]
  {
    hide Accepted, FollowKey;
    var i := |s.calls|;
    var s1 := Do(s, Begin(rel));
    var s2 := Do(s1, Proceed(i));
    var s3 := Do(s2, Proceed(i));
    var s4 := Do(s3, Proceed(i));
    assert s2.calls == s.calls + [Call(rel, EnsureFollowee)];
    assert s3.calls == s.calls + [Call(rel, AddEdge)];
  }
}
