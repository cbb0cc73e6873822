/**
 notification-service: the consumers of user.followed and post.interacted
 (repository/kafka/follow_consumer.go, interacion_consumer.go, retry.go) over the
 notification service (service/notification_service.go). Both consumers run the same
 protocol, so one class serves both payloads.
 */
module NotificationConsumer {
  import opened Arithmetic
  import opened Wrappers
  import opened Text

  const ATTEMPTS := 3
  const ERR_VALIDATION := "validation error"

  datatype Payload =
    | InvalidJSON
    | Followed(followerID: string, followeeID: string)
    | Interacted(postID: string, postAuthorID: string, actorID: string, interactionType: string)

  datatype Notification = Notification(id: string, userID: string, kind: string, message: string, read: bool)

  /** What the service owes a payload: an error, nothing, or a notification to a user. */
  datatype Verdict = Invalid | Suppressed | Wanted(userID: string, kind: string, message: string)

  /** The consumers' own check, made before the service is called. */
  predicate MissingFields(p: Payload) {
    match p
    case InvalidJSON => true
    case Followed(a, b) => IsBlank(a) || IsBlank(b)
    case Interacted(a, b, c, d) => IsBlank(a) || IsBlank(b) || IsBlank(c) || IsBlank(d)
  }

  function VerdictOn(p: Payload): Verdict {
    match p
    case InvalidJSON => Invalid
    case Followed(a, b) =>
      var follower, followee := TrimSpace(a), TrimSpace(b);
      if follower == "" || followee == "" then Invalid
      else if follower == followee then Suppressed
      else Wanted(followee, "follow", follower + " followed you")
    case Interacted(a, b, c, d) =>
      var post, author, actor, kind := TrimSpace(a), TrimSpace(b), TrimSpace(c), TrimSpace(ToLower(d));
      if post == "" || author == "" || actor == "" || kind == "" then Invalid
      else if actor == author then Suppressed
      else if kind != "like" then Invalid
      else Wanted(author, "post_like", actor + " liked your post " + post)
  }

  /**
   The consumers' field check turns away exactly what the service would call incomplete;
   past it, only an unsupported interaction with somebody else's post is an error, only a
   self-action is dropped, and nobody is notified of their own action.
   */
  lemma VerdictMeans(p: Payload)
    ensures MissingFields(p) ==> VerdictOn(p).Invalid?
    ensures MissingFields(p) <==> (match p
      case InvalidJSON => true
      case Followed(a, b) => OnlySpaces(a) || OnlySpaces(b)
      case Interacted(a, b, c, d) => OnlySpaces(a) || OnlySpaces(b) || OnlySpaces(c) || OnlySpaces(d))
    ensures p.Followed? && !MissingFields(p) ==>
      (VerdictOn(p) == if TrimSpace(p.followerID) == TrimSpace(p.followeeID) then Suppressed
        else Wanted(TrimSpace(p.followeeID), "follow", TrimSpace(p.followerID) + " followed you"))
    ensures p.Interacted? && !MissingFields(p) ==>
      && (VerdictOn(p).Suppressed? <==> TrimSpace(p.actorID) == TrimSpace(p.postAuthorID))
      && (VerdictOn(p).Invalid? <==>
            TrimSpace(p.actorID) != TrimSpace(p.postAuthorID) && TrimSpace(ToLower(p.interactionType)) != "like")
      && (VerdictOn(p).Wanted? ==>
            VerdictOn(p) == Wanted(TrimSpace(p.postAuthorID), "post_like", TrimSpace(p.actorID) + " liked your post " + TrimSpace(p.postID))
            && TrimSpace(p.postAuthorID) != TrimSpace(p.actorID))
  {
    FieldsBlank(p);
    if p.Interacted? { LowerKeepsBlank(p.interactionType); }
    hide TrimSpace, ToLower, OnlySpaces;
  }

  lemma FieldsBlank(p: Payload)
    ensures p.Followed? ==> (IsBlank(p.followerID) <==> OnlySpaces(p.followerID)) && (IsBlank(p.followeeID) <==> OnlySpaces(p.followeeID))
    ensures p.Interacted? ==>
      && (IsBlank(p.postID) <==> OnlySpaces(p.postID)) && (IsBlank(p.postAuthorID) <==> OnlySpaces(p.postAuthorID))
      && (IsBlank(p.actorID) <==> OnlySpaces(p.actorID)) && (IsBlank(p.interactionType) <==> OnlySpaces(p.interactionType))
  {
    match p
    case InvalidJSON =>
    case Followed(a, b) =>
      BlankMeans(a);
      BlankMeans(b);
    case Interacted(a, b, c, d) =>
      BlankMeans(a);
      BlankMeans(b);
      BlankMeans(c);
      BlankMeans(d);
  }

  /** "like" in any mixture of cases; two letters have a capital outside ASCII. */
  predicate SpellsLike(s: string) {
    |s| == 4 && s[0] in {'l', 'L'} && s[1] in {'i', 'I', '\U{130}'} && s[2] in {'k', 'K', '\U{212A}'} && s[3] in {'e', 'E'}
  }

  /** The interactions that notify: the kind is "like" in any case, with white space around it. */
  lemma LikeMeans(before: string, kind: string, after: string)
    requires OnlySpaces(before) && OnlySpaces(after) && Trimmed(kind)
    ensures TrimSpace(ToLower(before + kind + after)) == "like" <==> SpellsLike(kind)
  {
    var low := ToLower(kind);
    LowerKeepsSpaces(before);
    LowerKeepsSpaces(after);
    LowerKeepsTrimmed(kind);
    assert ToLower(before + kind + after) == ToLower(before) + low + ToLower(after);
    TrimExactly(ToLower(before), low, ToLower(after));
    if |kind| == 4 {
      LowersTo(kind, 0, 'l');
      LowersTo(kind, 1, 'i');
      LowersTo(kind, 2, 'k');
      LowersTo(kind, 3, 'e');
      assert low == "like" <==> low[0] == 'l' && low[1] == 'i' && low[2] == 'k' && low[3] == 'e';
    }
  }

  lemma LowerKeepsSpaces(s: string)
    requires OnlySpaces(s)
    ensures OnlySpaces(ToLower(s))
  {
  }

  lemma LowerKeepsTrimmed(s: string)
    requires Trimmed(s)
    ensures Trimmed(ToLower(s))
  {
  }

  /** One call of repo.Save, as the store and as the caller saw it. */
  datatype SaveOutcome = Saved | Rejected(error: string) | SavedButFailed(error: string)

  datatype CommitOutcome = Committed | Canceled(applied: bool) | CommitFailed(applied: bool, error: string)

  /** Everything outside the program that one delivery depends on; attempts count from 1. */
  datatype World = World(
    save: int -> SaveOutcome, newID: int -> string, wait: int -> Option<string>,
    dlq: Option<string>, commit: CommitOutcome)

  function NotificationFor(v: Verdict, id: string): Notification
    requires v.Wanted?
  {
    Notification(id, v.userID, v.kind, v.message, false)
  }

  datatype Tried = Tried(inserted: seq<Notification>, err: Option<string>)

  function Create(v: Verdict, w: World, k: int): Tried {
    match v
    case Invalid => Tried([], Some(ERR_VALIDATION))
    case Suppressed => Tried([], None)
    case Wanted(_, _, _) =>
      match w.save(k)
      case Saved => Tried([NotificationFor(v, w.newID(k))], None)
      case Rejected(e) => Tried([], Some(e))
      case SavedButFailed(e) => Tried([NotificationFor(v, w.newID(k))], Some(e))
  }

  function RetryFrom(v: Verdict, w: World, attempts: int, k: int): Tried
    requires k <= attempts
    decreases attempts - k
  {
    var t := Create(v, w, k);
    if t.err.None? || k == attempts then t
    else if w.wait(k).Some? then Tried(t.inserted, w.wait(k))
    else
      var rest := RetryFrom(v, w, attempts, k + 1);
      Tried(t.inserted + rest.inserted, rest.err)
  }

  datatype Effect =
    | Insert(offset: nat, notification: Notification)
    | Suppress(offset: nat)
    | DeadLetter(offset: nat)
    | DeadLetterLost(offset: nat)
    | Commit(offset: nat)

  function Inserts(offset: nat, ns: seq<Notification>): seq<Effect> {
    seq(|ns|, i requires 0 <= i < |ns| => Insert(offset, ns[i]))
  }

  function Outcome(p: Payload, w: World): Tried {
    if MissingFields(p) then Tried([], Some(ERR_VALIDATION)) else RetryFrom(VerdictOn(p), w, ATTEMPTS, 1)
  }

  /** What a delivery does before it commits. */
  function Work(offset: nat, p: Payload, w: World): seq<Effect> {
    var t := Outcome(p, w);
    Inserts(offset, t.inserted) +
    if t.err.None? then (if VerdictOn(p).Suppressed? then [Suppress(offset)] else [])
    else if w.dlq.None? then [DeadLetter(offset)]
    else [DeadLetterLost(offset)]
  }

  predicate CommitApplies(c: CommitOutcome) {
    match c
    case Committed => true
    case Canceled(applied) => applied
    case CommitFailed(applied, _) => applied
  }

  function Effects(offset: nat, p: Payload, w: World): seq<Effect> {
    Work(offset, p, w) + if CommitApplies(w.commit) then [Commit(offset)] else []
  }

  /** The outside world after some effects; suppressed and lost exist for the specification. */
  datatype Ledger = Ledger(
    position: nat, committed: nat, stored: seq<(nat, Notification)>,
    suppressed: set<nat>, deadLetters: set<nat>, lost: set<nat>)

  const FRESH := Ledger(0, 0, [], {}, {}, {})

  function Apply(s: Ledger, e: Effect): Ledger {
    match e
    case Insert(o, n) => s.(stored := s.stored + [(o, n)])
    case Suppress(o) => s.(suppressed := s.suppressed + {o})
    case DeadLetter(o) => s.(deadLetters := s.deadLetters + {o})
    case DeadLetterLost(o) => s.(lost := s.lost + {o})
    case Commit(o) => s.(committed := o + 1)
  }

  function ApplyAll(s: Ledger, es: seq<Effect>): Ledger {
    if es == [] then s else Apply(ApplyAll(s, es[..|es| - 1]), es[|es| - 1])
  }

  lemma {:induction false} ApplyConcat(s: Ledger, a: seq<Effect>, b: seq<Effect>)
    ensures ApplyAll(s, a + b) == ApplyAll(ApplyAll(s, a), b)
  {
    if b == [] {
      assert a + b == a;
    } else {
      assert (a + b)[..|a + b| - 1] == a + b[..|b| - 1];
      ApplyConcat(s, a, b[..|b| - 1]);
    }
  }

  lemma ApplyOne(s: Ledger, a: seq<Effect>, e: Effect)
    ensures ApplyAll(s, a + [e]) == Apply(ApplyAll(s, a), e)
  {
    assert (a + [e])[..|a|] == a;
  }

  /** A complete delivery: the fetch moves the position, then come the effects. */
  function Delivered(log: seq<Payload>, s: Ledger, w: World): Ledger
    requires s.position < |log|
  {
    ApplyAll(s.(position := s.position + 1), Effects(s.position, log[s.position], w))
  }

  function Filed(offset: nat, ns: seq<Notification>): seq<(nat, Notification)> {
    seq(|ns|, i requires 0 <= i < |ns| => (offset, ns[i]))
  }

  lemma {:induction false} ApplyInserts(s: Ledger, o: nat, ns: seq<Notification>)
    ensures ApplyAll(s, Inserts(o, ns)) == s.(stored := s.stored + Filed(o, ns))
  {
    if ns == [] {
      assert s.stored + Filed(o, ns) == s.stored;
    } else {
      var before, n := ns[..|ns| - 1], ns[|ns| - 1];
      ApplyInserts(s, o, before);
      assert Inserts(o, ns) == Inserts(o, before) + [Insert(o, n)];
      ApplyOne(s, Inserts(o, before), Insert(o, n));
      assert s.stored + Filed(o, before) + [(o, n)] == s.stored + Filed(o, ns);
    }
  }

  /** One consumer of one partition, with the notification store and the dead-letter topic. */
  class Consumer {
    const log: seq<Payload>
    var position: nat
    var committed: nat
    var stored: seq<(nat, Notification)>
    var deadLetters: set<nat>
    ghost var suppressed: set<nat>
    ghost var lost: set<nat>

    constructor (log: seq<Payload>)
      ensures this.log == log && View() == FRESH
    {
      this.log := log;
      position, committed, stored, deadLetters, suppressed, lost := 0, 0, [], {}, {}, {};
    }

    ghost function View(): Ledger
      reads this
    {
      Ledger(position, committed, stored, suppressed, deadLetters, lost)
    }

    method Save(offset: nat, n: Notification, outcome: SaveOutcome) returns (err: Option<string>)
      modifies this`stored
      ensures err == if outcome.Saved? then None else Some(outcome.error)
      ensures stored == old(stored) + if outcome.Rejected? then [] else [(offset, n)]
    {
      match outcome
      case Saved =>
        stored := stored + [(offset, n)];
        return None;
      case Rejected(e) => return Some(e);
      case SavedButFailed(e) =>
        stored := stored + [(offset, n)];
        return Some(e);
    }

    method CreateFollowNotification(offset: nat, a: string, b: string, w: World, attempt: int) returns (err: Option<string>)
      modifies this`stored, this`suppressed
      ensures var v := VerdictOn(Followed(a, b)); var t := Create(v, w, attempt);
        && err == t.err && stored == old(stored) + Filed(offset, t.inserted)
        && suppressed == old(suppressed) + if v.Suppressed? then {offset} else {}
      ensures var follower, followee := TrimSpace(a), TrimSpace(b);
        if follower == "" || followee == "" then err == Some("validation error") && stored == old(stored)
        else if follower == followee then err == None && stored == old(stored)
        else
          err == (if w.save(attempt).Saved? then None else Some(w.save(attempt).error)) &&
          stored == old(stored) + if w.save(attempt).Rejected? then []
            else [(offset, Notification(w.newID(attempt), followee, "follow", follower + " followed you", false))]
    {
      hide TrimSpace;
      var followerID, followeeID := TrimSpace(a), TrimSpace(b);
      if followerID == "" || followeeID == "" { return Some(ERR_VALIDATION); }
      if followerID == followeeID {
        suppressed := suppressed + {offset};
        return None;
      }
      err := Save(offset, Notification(w.newID(attempt), followeeID, "follow", followerID + " followed you", false), w.save(attempt));
    }

    method CreatePostInteractionNotification(offset: nat, a: string, b: string, c: string, d: string, w: World, attempt: int)
      returns (err: Option<string>)
      modifies this`stored, this`suppressed
      ensures var v := VerdictOn(Interacted(a, b, c, d)); var t := Create(v, w, attempt);
        && err == t.err && stored == old(stored) + Filed(offset, t.inserted)
        && suppressed == old(suppressed) + if v.Suppressed? then {offset} else {}
      ensures var post, author, actor, kind := TrimSpace(a), TrimSpace(b), TrimSpace(c), TrimSpace(ToLower(d));
        if post == "" || author == "" || actor == "" || kind == "" then err == Some("validation error") && stored == old(stored)
        else if actor == author then err == None && stored == old(stored)
        else if kind != "like" then err == Some("validation error") && stored == old(stored)
        else
          err == (if w.save(attempt).Saved? then None else Some(w.save(attempt).error)) &&
          stored == old(stored) + if w.save(attempt).Rejected? then []
            else [(offset, Notification(w.newID(attempt), author, "post_like", actor + " liked your post " + post, false))]
    {
      hide TrimSpace, ToLower;
      var postID, postAuthorID, actorID := TrimSpace(a), TrimSpace(b), TrimSpace(c);
      var interactionType := TrimSpace(ToLower(d));
      if postID == "" || postAuthorID == "" || actorID == "" || interactionType == "" { return Some(ERR_VALIDATION); }
      if actorID == postAuthorID {
        suppressed := suppressed + {offset};
        return None;
      }
      if interactionType != "like" { return Some(ERR_VALIDATION); }
      err := Save(offset, Notification(w.newID(attempt), postAuthorID, "post_like", actorID + " liked your post " + postID, false),
                  w.save(attempt));
    }

    /** The bounded retry loop around the service call. */
    method Retry(attempts: int, offset: nat, p: Payload, w: World) returns (err: Option<string>)
      requires !p.InvalidJSON?
      modifies this`stored, this`suppressed
      ensures var t := RetryFrom(VerdictOn(p), w, if attempts < 1 then 1 else attempts, 1);
        err == t.err && stored == old(stored) + Filed(offset, t.inserted)
      ensures suppressed == old(suppressed) + if VerdictOn(p).Suppressed? then {offset} else {}
    {
      hide VerdictOn;
      ghost var v := VerdictOn(p);
      var attempts := if attempts < 1 then 1 else attempts;
      var attempt := 1;
      ghost var done: seq<Notification> := [];
      while attempt <= attempts
        invariant 1 <= attempt <= attempts
        invariant stored == old(stored) + Filed(offset, done)
        invariant suppressed == old(suppressed) && (attempt > 1 ==> !v.Suppressed?)
        invariant var rest := RetryFrom(v, w, attempts, attempt);
          RetryFrom(v, w, attempts, 1) == Tried(done + rest.inserted, rest.err)
        decreases attempts - attempt
      {
        ghost var t := Create(v, w, attempt);
        FiledConcat(offset, old(stored), done, t.inserted);
        RetryCases(v, w, attempts, attempt, done);
        hide RetryFrom, Filed;
        if p.Followed? { err := CreateFollowNotification(offset, p.followerID, p.followeeID, w, attempt); }
        else { err := CreatePostInteractionNotification(offset, p.postID, p.postAuthorID, p.actorID, p.interactionType, w, attempt); }
        done := done + t.inserted;
        if err.None? || attempt == attempts { return; }
        if w.wait(attempt).Some? { return w.wait(attempt); }
        attempt := attempt + 1;
      }
      assert false;
    }

    method PublishDLQ(offset: nat, outcome: Option<string>)
      modifies this`deadLetters, this`lost
      ensures deadLetters == old(deadLetters) + if outcome.None? then {offset} else {}
      ensures lost == old(lost) + if outcome.None? then {} else {offset}
    {
      if outcome.None? { deadLetters := deadLetters + {offset}; } else { lost := lost + {offset}; }
    }

    /** An error other than cancellation ends Run. */
    method CommitMessages(offset: nat, c: CommitOutcome) returns (stop: Option<string>)
      modifies this`committed
      ensures committed == if CommitApplies(c) then offset + 1 else old(committed)
      ensures stop == if c.CommitFailed? then Some(c.error) else None
    {
      if CommitApplies(c) { committed := offset + 1; }
      stop := if c.CommitFailed? then Some(c.error) else None;
    }

    /** One iteration of Run after a successful fetch. */
    method HandleNext(w: World) returns (stop: Option<string>)
      requires position < |log|
      modifies this
      ensures View() == Delivered(log, old(View()), w)
      ensures stop == if w.commit.CommitFailed? then Some(w.commit.error) else None
    {
      var m, offset := log[position], position;
      DeliveredMeans(log, View(), w);
      hide *;
      position := position + 1;
      var err := Some(ERR_VALIDATION);
      if !MissingFields(m) {
        err := Retry(ATTEMPTS, offset, m, w);
      }
      if err.Some? { PublishDLQ(offset, w.dlq); }
      stop := CommitMessages(offset, w.commit);
    }

    /**
     The loop of Run: it goes on until a commit fails, or the fetch does for want of
     messages or of worlds.
     */
    method Run(ws: seq<World>, fetchError: string, cancelled: bool) returns (err: Option<string>, handled: nat)
      modifies this
      ensures handled <= |ws| && View() == DeliveredAll(log, old(View()), ws[..handled])
      ensures forall i :: 0 <= i < handled - 1 ==> !ws[i].commit.CommitFailed?
      ensures handled > 0 && ws[handled - 1].commit.CommitFailed? ==> err == Some(ws[handled - 1].commit.error)
      ensures handled == 0 || !ws[handled - 1].commit.CommitFailed? ==>
        (handled == |ws| || position >= |log|) && err == if cancelled then None else Some(fetchError)
    {
      DeliveredNone(log, View(), ws);
      hide Delivered, DeliveredAll, VerdictOn, MissingFields, RetryFrom, Filed;
      handled := 0;
      while handled < |ws| && position < |log|
        invariant handled <= |ws| && View() == DeliveredAll(log, old(View()), ws[..handled])
        invariant forall i :: 0 <= i < handled ==> !ws[i].commit.CommitFailed?
      {
        DeliveredNext(log, old(View()), ws, handled);
        var stop := HandleNext(ws[handled]);
        handled := handled + 1;
        if stop.Some? { return stop, handled; }
      }
      err := if cancelled then None else Some(fetchError);
    }
  }

  ghost function DeliveredAll(log: seq<Payload>, s: Ledger, ws: seq<World>): Ledger {
    if ws == [] then s
    else
      var before := DeliveredAll(log, s, ws[..|ws| - 1]);
      if before.position < |log| then Delivered(log, before, ws[|ws| - 1]) else before
  }

  lemma DeliveredNone(log: seq<Payload>, s: Ledger, ws: seq<World>)
    ensures DeliveredAll(log, s, ws[..0]) == s
  {
  }

  lemma DeliveredNext(log: seq<Payload>, s: Ledger, ws: seq<World>, i: nat)
    requires i < |ws| && DeliveredAll(log, s, ws[..i]).position < |log|
    ensures DeliveredAll(log, s, ws[..i + 1]) == Delivered(log, DeliveredAll(log, s, ws[..i]), ws[i])
  {
    hide Delivered;
    assert ws[..i + 1][..i] == ws[..i];
  }

  lemma FiledConcat(o: nat, stored: seq<(nat, Notification)>, a: seq<Notification>, b: seq<Notification>)
    ensures stored + Filed(o, a) + Filed(o, b) == stored + Filed(o, a + b)
  {
  }

  lemma RetryCases(v: Verdict, w: World, attempts: int, k: int, done: seq<Notification>)
    requires k <= attempts
    ensures var t, all := Create(v, w, k), RetryFrom(v, w, attempts, k);
      && (t.err.None? || k == attempts ==> all == t)
      && (t.err.Some? && k < attempts && w.wait(k).Some? ==> all == Tried(t.inserted, w.wait(k)))
      && (t.err.Some? && k < attempts && w.wait(k).None? ==>
            var rest := RetryFrom(v, w, attempts, k + 1);
            all.err == rest.err && done + all.inserted == done + t.inserted + rest.inserted)
    ensures v.Suppressed? ==> Create(v, w, k).err.None?
  {
  }

  /** The ledger after a delivery, field by field. */
  lemma DeliveredMeans(log: seq<Payload>, s: Ledger, w: World)
    requires s.position < |log|
    ensures var o, p := s.position, log[s.position]; var t := Outcome(p, w); var s' := Delivered(log, s, w);
      && s'.position == o + 1
      && s'.committed == (if w.commit.Committed? || (w.commit.Canceled? && w.commit.applied) || (w.commit.CommitFailed? && w.commit.applied)
                          then o + 1 else s.committed)
      && s'.stored == s.stored + Filed(o, t.inserted)
      && s'.suppressed == s.suppressed + (if t.err.None? && VerdictOn(p).Suppressed? then {o} else {})
      && s'.deadLetters == s.deadLetters + (if t.err.Some? && w.dlq.None? then {o} else {})
      && s'.lost == s.lost + (if t.err.Some? && w.dlq.Some? then {o} else {})
  {
    var o, p := s.position, log[s.position];
    hide Outcome, VerdictOn, Filed, ApplyAll, Work, Effects;
    WorkThenCommit(s.(position := s.position + 1), s.position, log[s.position], w);
    WorkMeans(s.(position := s.position + 1), s.position, log[s.position], w);
  }

  lemma WorkThenCommit(s: Ledger, o: nat, p: Payload, w: World)
    ensures ApplyAll(s, Effects(o, p, w)) == var s' := ApplyAll(s, Work(o, p, w));
      if CommitApplies(w.commit) then s'.(committed := o + 1) else s'
  {
    hide Work;
    ApplyOne(s, Work(o, p, w), Commit(o));
    assert Work(o, p, w) + [] == Work(o, p, w);
  }

  lemma WorkMeans(s: Ledger, o: nat, p: Payload, w: World)
    ensures var t := Outcome(p, w); ApplyAll(s, Work(o, p, w)) == s.(
      stored := s.stored + Filed(o, t.inserted),
      suppressed := s.suppressed + (if t.err.None? && VerdictOn(p).Suppressed? then {o} else {}),
      deadLetters := s.deadLetters + (if t.err.Some? && w.dlq.None? then {o} else {}),
      lost := s.lost + (if t.err.Some? && w.dlq.Some? then {o} else {}))
  {
    hide Outcome, VerdictOn;
    var t := Outcome(p, w);
    var ins := Inserts(o, t.inserted);
    ApplyInserts(s, o, t.inserted);
    if t.err.Some? { ApplyOne(s, ins, if w.dlq.None? then DeadLetter(o) else DeadLetterLost(o)); }
    else if VerdictOn(p).Suppressed? { ApplyOne(s, ins, Suppress(o)); }
    else { assert Work(o, p, w) == ins; }
  }

  /**
   An undisturbed delivery, field by field: what its payload asks for is stored once, a
   self-action stores nothing, and anything else is dead-lettered; then it is committed.
   */
  lemma Undisturbed(log: seq<Payload>, s: Ledger, w: World)
    requires s.position < |log| && w.save(1).Saved? && w.dlq.None? && w.commit.Committed?
    requires forall k :: w.wait(k).None?
    ensures var o, p, s' := s.position, log[s.position], Delivered(log, s, w);
      && s'.position == s'.committed == o + 1 && s'.lost == s.lost
      && s'.stored == s.stored + Asked(o, p, w.newID(1))
      && s'.deadLetters == s.deadLetters + (if VerdictOn(p).Invalid? then {o} else {})
  {
    var o, p := s.position, log[s.position];
    DeliveredMeans(log, s, w);
    VerdictMeans(p);
    UndisturbedOutcome(p, w);
    AskedIsFiled(o, p, w.newID(1));
    hide VerdictOn, MissingFields, Outcome, TrimSpace, ToLower, Delivered, Asked;
  }

  lemma UndisturbedOutcome(p: Payload, w: World)
    requires w.save(1).Saved? && (forall k :: w.wait(k).None?) && (MissingFields(p) ==> VerdictOn(p).Invalid?)
    ensures Outcome(p, w) == if VerdictOn(p).Wanted? then Tried([NotificationFor(VerdictOn(p), w.newID(1))], None)
      else if VerdictOn(p).Suppressed? then Tried([], None) else Tried([], Some("validation error"))
  {
    hide VerdictOn, MissingFields;
    var v := VerdictOn(p);
    if v.Invalid? {
      assert RetryFrom(v, w, 3, 3) == Tried([], Some(ERR_VALIDATION));
      assert RetryFrom(v, w, 3, 2) == Tried([], Some(ERR_VALIDATION));
    }
  }

  /** The notification that a payload asks for, spelled out. */
  function Asked(o: nat, p: Payload, id: string): seq<(nat, Notification)> {
    match p
    case InvalidJSON => []
    case Followed(a, b) =>
      if TrimSpace(a) == "" || TrimSpace(b) == "" || TrimSpace(a) == TrimSpace(b) then []
      else [(o, Notification(id, TrimSpace(b), "follow", TrimSpace(a) + " followed you", false))]
    case Interacted(a, b, c, d) =>
      if TrimSpace(a) == "" || TrimSpace(b) == "" || TrimSpace(c) == "" || TrimSpace(b) == TrimSpace(c)
        || TrimSpace(ToLower(d)) != "like" then []
      else [(o, Notification(id, TrimSpace(b), "post_like", TrimSpace(c) + " liked your post " + TrimSpace(a), false))]
  }

  lemma AskedIsFiled(o: nat, p: Payload, id: string)
    ensures Asked(o, p, id) == if VerdictOn(p).Wanted? then Filed(o, [NotificationFor(VerdictOn(p), id)]) else []
    ensures Filed(o, []) == []
  {
    hide TrimSpace, ToLower;
  }

  // ---- What the retry loop stores ----

  ghost predicate AllFor(v: Verdict, ns: seq<Notification>) {
    forall n :: n in ns ==> v.Wanted? && n == NotificationFor(v, n.id)
  }

  /**
   The loop succeeds exactly with the verdict's outcome: nothing for a suppressed payload,
   a stored notification for a wanted one; an invalid payload always fails; and what is
   stored is always the wanted notification, at most once an attempt.
   */
  lemma {:induction false} RetryStores(v: Verdict, w: World, attempts: int, k: int)
    requires 1 <= k <= attempts
    ensures var t := RetryFrom(v, w, attempts, k);
      && |t.inserted| <= attempts - k + 1
      && AllFor(v, t.inserted)
      && (t.err.None? ==> v.Suppressed? || t.inserted != [])
      && (v.Suppressed? ==> t.err.None?)
      && (v.Invalid? ==> t.err.Some?)
    decreases attempts - k
  {
    var t := Create(v, w, k);
    if t.err.Some? && k < attempts && w.wait(k).None? {
      RetryStores(v, w, attempts, k + 1);
      var rest := RetryFrom(v, w, attempts, k + 1);
      RetryCases(v, w, attempts, k, []);
      hide RetryFrom;
      assert [] + RetryFrom(v, w, attempts, k).inserted == [] + t.inserted + rest.inserted;
      assert RetryFrom(v, w, attempts, k).inserted == t.inserted + rest.inserted;
    }
  }

  /** The loop entered at attempt k comes to attempt j: all before it fail and their waits run out. */
  ghost predicate Reached(v: Verdict, w: World, k: int, j: int) {
    k <= j && forall i :: k <= i < j ==> Create(v, w, i).err.Some? && w.wait(i).None?
  }

  /** Some attempt from k on is reached and its Save inserts. */
  ghost predicate InsertsOnce(v: Verdict, w: World, attempts: int, k: int) {
    exists j :: k <= j <= attempts && Reached(v, w, k, j) && v.Wanted? && !w.save(j).Rejected?
  }

  /** Some attempt's Save inserts and fails all the same, and a later attempt is reached and inserts again. */
  ghost predicate InsertsTwice(v: Verdict, w: World, attempts: int, k: int) {
    exists i, j ::
      k <= i < j <= attempts && Reached(v, w, k, j) && v.Wanted? && w.save(i).SavedButFailed? && !w.save(j).Rejected?
  }

  lemma ReachedNext(v: Verdict, w: World, k: int)
    ensures Reached(v, w, k, k)
    ensures forall j :: k < j ==>
      (Reached(v, w, k, j) <==> Create(v, w, k).err.Some? && w.wait(k).None? && Reached(v, w, k + 1, j))
  {
    hide Create;
  }

  /** Once the first attempt has failed and its wait has run out, the rest decides. */
  lemma InsertsStep(v: Verdict, w: World, attempts: int, k: int)
    requires k < attempts && Create(v, w, k).err.Some? && w.wait(k).None?
    ensures InsertsOnce(v, w, attempts, k) <==> Create(v, w, k).inserted != [] || InsertsOnce(v, w, attempts, k + 1)
    ensures InsertsTwice(v, w, attempts, k) <==>
      InsertsTwice(v, w, attempts, k + 1) || (Create(v, w, k).inserted != [] && InsertsOnce(v, w, attempts, k + 1))
  {
    ReachedNext(v, w, k);
    var failing := Create(v, w, k).inserted != [];
    assert failing <==> v.Wanted? && w.save(k).SavedButFailed?;
    hide Create, Reached;
    if InsertsOnce(v, w, attempts, k + 1) {
      var j :| k + 1 <= j <= attempts && Reached(v, w, k + 1, j) && v.Wanted? && !w.save(j).Rejected?;
      assert Reached(v, w, k, j);
    }
    if InsertsTwice(v, w, attempts, k + 1) {
      var i, j :| k + 1 <= i < j <= attempts && Reached(v, w, k + 1, j) && v.Wanted?
                  && w.save(i).SavedButFailed? && !w.save(j).Rejected?;
      assert Reached(v, w, k, j);
    }
  }

  /** The loop stores something exactly if a reached attempt inserts, and a duplicate exactly if two do. */
  lemma {:induction false} StoresTwice(v: Verdict, w: World, attempts: int, k: int)
    requires 1 <= k <= attempts
    ensures RetryFrom(v, w, attempts, k).inserted != [] <==> InsertsOnce(v, w, attempts, k)
    ensures |RetryFrom(v, w, attempts, k).inserted| >= 2 <==> InsertsTwice(v, w, attempts, k)
    decreases attempts - k
  {
    var t := Create(v, w, k);
    RetryCases(v, w, attempts, k, []);
    assert [] + RetryFrom(v, w, attempts, k).inserted == RetryFrom(v, w, attempts, k).inserted;
    if t.err.Some? && k < attempts && w.wait(k).None? {
      StoresTwice(v, w, attempts, k + 1);
      InsertsStep(v, w, attempts, k);
    } else {
      ReachedNext(v, w, k);
    }
  }

  ghost predicate AllOrNothing(w: World, attempts: int) {
    forall k :: 1 <= k <= attempts ==> !w.save(k).SavedButFailed?
  }

  /** If a failing Save stores nothing, the loop stores one notification exactly when it succeeds on a wanted payload. */
  lemma {:induction false} StoresAtMostOnce(v: Verdict, w: World, attempts: int, k: int)
    requires 1 <= k <= attempts && AllOrNothing(w, attempts)
    ensures var t := RetryFrom(v, w, attempts, k); |t.inserted| == if v.Wanted? && t.err.None? then 1 else 0
    ensures !InsertsTwice(v, w, attempts, k)
    decreases attempts - k
  {
    if k < attempts { StoresAtMostOnce(v, w, attempts, k + 1); }
    assert !w.save(k).SavedButFailed?;
  }

  /** One delivery can store the same notification three times. */
  lemma StoresThrice(v: Verdict, newID: int -> string)
    requires v.Wanted?
    ensures var w := World(_ => SavedButFailed("timeout"), newID, _ => None, None, Committed);
      |RetryFrom(v, w, ATTEMPTS, 1).inserted| == 3
  {
    var w := World(_ => SavedButFailed("timeout"), newID, _ => None, None, Committed);
    assert |RetryFrom(v, w, 3, 3).inserted| == 1;
    assert |RetryFrom(v, w, 3, 2).inserted| == 2;
  }

  // ---- Runs with crashes and redelivery ----

  /** Crash(w, n) dies after n effects of a delivery; a restart resumes at the committed offset. */
  datatype Action = Deliver(w: World) | Crash(w: World, after: nat)

  ghost function Do(log: seq<Payload>, s: Ledger, a: Action): Ledger {
    if s.position >= |log| then (if a.Crash? then s.(position := s.committed) else s)
    else
      match a
      case Deliver(w) =>
        var s' := Delivered(log, s, w);
        if w.commit.CommitFailed? then s'.(position := s'.committed) else s'
      case Crash(w, n) =>
        var es := Effects(s.position, log[s.position], w);
        var s' := ApplyAll(s, es[..Least(n, |es|)]);
        s'.(position := s'.committed)
  }

  ghost function Exec(log: seq<Payload>, run: seq<Action>): Ledger {
    if run == [] then FRESH else Do(log, Exec(log, run[..|run| - 1]), run[|run| - 1])
  }

  ghost predicate StoredFor(s: Ledger, o: nat) { exists i :: 0 <= i < |s.stored| && s.stored[i].0 == o }

  ghost predicate Settled(s: Ledger, o: nat) {
    StoredFor(s, o) || o in s.suppressed || o in s.deadLetters || o in s.lost
  }

  ghost predicate HonestEntries(log: seq<Payload>, stored: seq<(nat, Notification)>) {
    forall i :: 0 <= i < |stored| ==> HonestEntry(log, stored[i])
  }

  ghost predicate HonestEntry(log: seq<Payload>, e: (nat, Notification)) {
    e.0 < |log| && VerdictOn(log[e.0]).Wanted? && e.1 == NotificationFor(VerdictOn(log[e.0]), e.1.id)
  }

  /** What is stored is what the payload at that offset asks for; only self-actions are suppressed. */
  ghost predicate Honest(log: seq<Payload>, s: Ledger) {
    && HonestEntries(log, s.stored)
    && (forall o :: o in s.suppressed ==> o < |log| && VerdictOn(log[o]).Suppressed?)
  }

  ghost predicate Conserves(log: seq<Payload>, s: Ledger) {
    && s.committed <= s.position <= |log|
    && (forall o :: 0 <= o < s.position ==> Settled(s, o))
    && Honest(log, s)
  }

  /** s' has everything s has, and perhaps more. */
  ghost predicate Extends(s: Ledger, s': Ledger) {
    && s.stored <= s'.stored && s.suppressed <= s'.suppressed && s.deadLetters <= s'.deadLetters && s.lost <= s'.lost
  }

  lemma ExtendsKeeps(s: Ledger, s': Ledger, o: nat)
    requires Extends(s, s') && Settled(s, o)
    ensures Settled(s', o)
  {
    if StoredFor(s, o) {
      var i :| 0 <= i < |s.stored| && s.stored[i].0 == o;
      assert s'.stored[i].0 == o;
    }
  }

  lemma OutcomeStores(p: Payload, w: World)
    ensures var t := Outcome(p, w);
      && AllFor(VerdictOn(p), t.inserted)
      && (t.err.None? ==> VerdictOn(p).Suppressed? || t.inserted != [])
  {
    hide VerdictOn, RetryFrom, MissingFields;
    RetryStores(VerdictOn(p), w, ATTEMPTS, 1);
  }

  /** A stored notification, a suppression, a dead letter or its loss settles the message. */
  lemma DeliveredSettles(log: seq<Payload>, s: Ledger, w: World)
    requires s.position < |log|
    ensures Settled(Delivered(log, s, w), s.position) && Extends(s, Delivered(log, s, w))
  {
    var o, p, s' := s.position, log[s.position], Delivered(log, s, w);
    DeliveredMeans(log, s, w);
    OutcomeStores(p, w);
    hide Outcome, VerdictOn, Delivered;
    var t := Outcome(p, w);
    if t.err.None? && !VerdictOn(p).Suppressed? {
      assert s'.stored[|s.stored|] == Filed(o, t.inserted)[0];
    }
  }

  lemma DeliveredHonest(log: seq<Payload>, s: Ledger, w: World)
    requires Honest(log, s) && s.position < |log|
    ensures Honest(log, Delivered(log, s, w))
  {
    DeliveredMeans(log, s, w);
    OutcomeStores(log[s.position], w);
    hide Outcome, VerdictOn, Delivered, Honest, Filed, AllFor;
    FiledHonest(log, s, Delivered(log, s, w), s.position, Outcome(log[s.position], w).inserted);
  }

  /** A delivery settles its message and stays honest. */
  lemma DeliveredConserves(log: seq<Payload>, s: Ledger, w: World)
    requires Conserves(log, s) && s.position < |log|
    ensures Conserves(log, Delivered(log, s, w)) && Extends(s, Delivered(log, s, w))
  {
    DeliveredSettles(log, s, w);
    DeliveredHonest(log, s, w);
    DeliveredCommits(log, s, w);
    hide Delivered, Honest, Settled, Extends;
    forall q | 0 <= q < s.position ensures Settled(Delivered(log, s, w), q) { ExtendsKeeps(s, Delivered(log, s, w), q); }
  }

  lemma FiledEntriesHonest(log: seq<Payload>, o: nat, ns: seq<Notification>)
    requires o < |log| && AllFor(VerdictOn(log[o]), ns)
    ensures HonestEntries(log, Filed(o, ns))
  {
    hide VerdictOn;
    forall i | 0 <= i < |ns| ensures HonestEntry(log, Filed(o, ns)[i]) { assert ns[i] in ns; }
  }

  lemma FiledHonest(log: seq<Payload>, s: Ledger, s': Ledger, o: nat, ns: seq<Notification>)
    requires Honest(log, s) && o < |log| && s'.stored == s.stored + Filed(o, ns)
    requires s'.suppressed <= s.suppressed + (if VerdictOn(log[o]).Suppressed? then {o} else {})
    requires AllFor(VerdictOn(log[o]), ns)
    ensures Honest(log, s')
  {
    FiledEntriesHonest(log, o, ns);
    hide VerdictOn, AllFor, Filed, HonestEntry;
    forall i | 0 <= i < |s'.stored| ensures HonestEntry(log, s'.stored[i]) {
      if i < |s.stored| { assert s'.stored[i] == s.stored[i]; }
      else { assert s'.stored[i] == Filed(o, ns)[i - |s.stored|]; }
    }
  }

  lemma {:induction false} ApplyAllExtends(s: Ledger, es: seq<Effect>)
    ensures Extends(s, ApplyAll(s, es)) && ApplyAll(s, es).position == s.position
    ensures (forall i :: 0 <= i < |es| ==> !es[i].Commit?) ==> ApplyAll(s, es).committed == s.committed
  {
    if es != [] { ApplyAllExtends(s, es[..|es| - 1]); }
  }

  lemma {:induction false} ApplyAllFrame(s: Ledger, es: seq<Effect>, pos: nat)
    ensures ApplyAll(s.(position := pos), es) == ApplyAll(s, es).(position := pos)
  {
    if es != [] { ApplyAllFrame(s, es[..|es| - 1], pos); }
  }

  lemma WorkNeverCommits(o: nat, p: Payload, w: World)
    ensures forall i :: 0 <= i < |Work(o, p, w)| ==> !Work(o, p, w)[i].Commit?
  {
    hide Outcome, VerdictOn;
  }

  lemma HonestPart(log: seq<Payload>, s: Ledger, s': Ledger)
    requires Honest(log, s') && Extends(s, s')
    ensures Honest(log, s)
  {
    hide VerdictOn;
    forall i | 0 <= i < |s.stored| ensures s.stored[i] == s'.stored[i] {}
  }

  lemma PrefixExtends(s: Ledger, es: seq<Effect>, m: nat)
    requires m <= |es|
    ensures Extends(s, ApplyAll(s, es[..m])) && Extends(ApplyAll(s, es[..m]), ApplyAll(s, es))
    ensures (forall i :: 0 <= i < m ==> !es[i].Commit?) ==> ApplyAll(s, es[..m]).committed == s.committed
  {
    ApplyAllExtends(s, es[..m]);
    ApplyAllExtends(ApplyAll(s, es[..m]), es[m..]);
    ApplyConcat(s, es[..m], es[m..]);
    assert es[..m] + es[m..] == es;
  }

  /** A crash after any number of effects: the part extends s and is extended by the whole. */
  lemma PartOfDelivery(log: seq<Payload>, s: Ledger, w: World, m: nat)
    requires s.position < |log| && m <= |Effects(s.position, log[s.position], w)|
    ensures var es := Effects(s.position, log[s.position], w); var s' := ApplyAll(s, es[..m]);
      && Extends(s, s') && Extends(s', Delivered(log, s, w))
      && (s'.committed == s.committed || s' == Delivered(log, s, w).(position := s.position))
  {
    hide Work, ApplyAll;
    var o, p := s.position, log[s.position];
    var es := Effects(o, p, w);
    WorkNeverCommits(o, p, w);
    PrefixExtends(s, es, m);
    ApplyAllFrame(s, es, s.position + 1);
    ApplyAllFrame(s, es, s.position);
    if m == |es| { assert es[..m] == es; }
  }

  lemma CrashConserves(log: seq<Payload>, s: Ledger, w: World, n: nat)
    requires Conserves(log, s) && s.position < |log|
    ensures Conserves(log, Do(log, s, Crash(w, n)))
  {
    var es := Effects(s.position, log[s.position], w);
    var m := Least(n, |es|);
    var part, whole, s' := ApplyAll(s, es[..m]), Delivered(log, s, w), Do(log, s, Crash(w, n));
    DeliveredConserves(log, s, w);
    PartOfDelivery(log, s, w, m);
    hide Delivered, Effects, Honest;
    HonestPart(log, part, whole);
    HonestPart(log, s', part);
    if part.committed == s.committed {
      forall q | 0 <= q < s'.position ensures Settled(s', q) {
        ExtendsKeeps(s, part, q);
        ExtendsKeeps(part, s', q);
      }
    } else {
      DeliveredCommits(log, s, w);
      forall q | 0 <= q < s'.position ensures Settled(s', q) { ExtendsKeeps(whole, s', q); }
    }
  }

  lemma DeliveredCommits(log: seq<Payload>, s: Ledger, w: World)
    requires s.position < |log| && s.committed <= s.position
    ensures Delivered(log, s, w).committed <= s.position + 1 == Delivered(log, s, w).position
  {
    DeliveredMeans(log, s, w);
  }

  lemma DoConserves(log: seq<Payload>, s: Ledger, a: Action)
    requires Conserves(log, s)
    ensures Conserves(log, Do(log, s, a))
  {
    if s.position < |log| {
      match a
      case Crash(w, n) => CrashConserves(log, s, w, n);
      case Deliver(w) =>
        DeliveredConserves(log, s, w);
        hide Delivered, Honest;
        var s' := Delivered(log, s, w);
        HonestPart(log, s'.(position := s'.committed), s');
        if w.commit.CommitFailed? {
          forall q | 0 <= q < s'.committed ensures Settled(s'.(position := s'.committed), q) {
            ExtendsKeeps(s', s'.(position := s'.committed), q);
          }
        }
    } else if a.Crash? {
      HonestPart(log, s.(position := s.committed), s);
      forall q | 0 <= q < s.committed ensures Settled(s.(position := s.committed), q) {
        ExtendsKeeps(s, s.(position := s.committed), q);
      }
    }
  }

  lemma {:induction false} AlwaysConserves(log: seq<Payload>, run: seq<Action>)
    ensures Conserves(log, Exec(log, run))
  {
    hide Do;
    if run == [] {
      FreshConserves(log);
    } else {
      hide Conserves;
      AlwaysConserves(log, run[..|run| - 1]);
      DoConserves(log, Exec(log, run[..|run| - 1]), run[|run| - 1]);
    }
  }

  lemma FreshConserves(log: seq<Payload>)
    ensures Conserves(log, FRESH)
  {
  }

  /**
   At every point of every run with crashes and redelivery: a message below the committed
   offset has its notification stored, or is in the dead-letter topic, or was a
   self-action, or its dead-letter write failed.
   */
  lemma NoMessageLost(log: seq<Payload>, run: seq<Action>, o: nat)
    requires o < Exec(log, run).committed
    ensures o < |log|
    ensures Stores(log, Exec(log, run), o) || o in Exec(log, run).deadLetters
      || VerdictOn(log[o]).Suppressed? || o in Exec(log, run).lost
  {
    AlwaysConserves(log, run);
    hide Exec, VerdictOn;
    assert Settled(Exec(log, run), o);
  }

  /** The notification that the message at o asks for is in the store. */
  ghost predicate Stores(log: seq<Payload>, s: Ledger, o: nat)
    requires o < |log|
  {
    VerdictOn(log[o]).Wanted? &&
    exists i :: 0 <= i < |s.stored| && s.stored[i].0 == o && s.stored[i].1 == NotificationFor(VerdictOn(log[o]), s.stored[i].1.id)
  }

  // ---- How many copies ----

  function Copies(stored: seq<(nat, Notification)>, o: nat): nat {
    if stored == [] then 0
    else Copies(stored[..|stored| - 1], o) + if stored[|stored| - 1].0 == o then 1 else 0
  }

  lemma {:induction false} CopiesConcat(a: seq<(nat, Notification)>, b: seq<(nat, Notification)>, o: nat)
    ensures Copies(a + b, o) == Copies(a, o) + Copies(b, o)
  {
    if b == [] {
      assert a + b == a;
    } else {
      assert (a + b)[..|a + b| - 1] == a + b[..|b| - 1];
      CopiesConcat(a, b[..|b| - 1], o);
    }
  }

  /** How often the run started a delivery of the message. */
  ghost function Deliveries(log: seq<Payload>, run: seq<Action>, o: nat): nat {
    if run == [] then 0
    else Deliveries(log, run[..|run| - 1], o) + if Exec(log, run[..|run| - 1]).position == o < |log| then 1 else 0
  }

  lemma DeliveredCopies(log: seq<Payload>, s: Ledger, w: World, o: nat)
    requires s.position < |log| && (s.position == o ==> !InsertsTwice(VerdictOn(log[o]), w, ATTEMPTS, 1))
    ensures Copies(Delivered(log, s, w).stored, o) <= Copies(s.stored, o) + if s.position == o then 1 else 0
  {
    DeliveredMeans(log, s, w);
    var p := log[s.position];
    hide Delivered, VerdictOn, MissingFields, RetryFrom, InsertsTwice, InsertsOnce;
    StoresTwice(VerdictOn(p), w, ATTEMPTS, 1);
    var t := Outcome(p, w);
    CopiesConcat(s.stored, Filed(s.position, t.inserted), o);
    FiledCopies(s.position, t.inserted, o);
  }

  lemma {:induction false} FiledCopies(o: nat, ns: seq<Notification>, q: nat)
    ensures Copies(Filed(o, ns), q) == if o == q then |ns| else 0
  {
    if ns != [] {
      FiledCopies(o, ns[..|ns| - 1], q);
      assert Filed(o, ns)[..|ns| - 1] == Filed(o, ns[..|ns| - 1]);
    }
  }

  lemma PrefixCopies(a: seq<(nat, Notification)>, b: seq<(nat, Notification)>, o: nat)
    requires a <= b
    ensures Copies(a, o) <= Copies(b, o)
  {
    CopiesConcat(a, b[|a|..], o);
    assert a + b[|a|..] == b;
  }

  lemma DoCopies(log: seq<Payload>, s: Ledger, a: Action, o: nat)
    requires s.position == o < |log| ==> !InsertsTwice(VerdictOn(log[o]), a.w, ATTEMPTS, 1)
    ensures Copies(Do(log, s, a).stored, o) <= Copies(s.stored, o) + if s.position == o < |log| then 1 else 0
  {
    if s.position < |log| {
      DeliveredCopies(log, s, a.w, o);
      if a.Crash? {
        var es := Effects(s.position, log[s.position], a.w);
        PartOfDelivery(log, s, a.w, Least(a.after, |es|));
        hide Delivered, Effects;
        PrefixCopies(Do(log, s, a).stored, Delivered(log, s, a.w).stored, o);
      }
    }
  }

  /** No delivery of message o in the run inserts twice; with all-or-nothing saves none does. */
  ghost predicate NoneTwice(log: seq<Payload>, run: seq<Action>, o: nat) {
    if run == [] then true
    else
      var before, a := run[..|run| - 1], run[|run| - 1];
      NoneTwice(log, before, o) &&
      (Exec(log, before).position == o < |log| ==> !InsertsTwice(VerdictOn(log[o]), a.w, ATTEMPTS, 1))
  }

  lemma {:induction false} AllOrNothingNoneTwice(log: seq<Payload>, run: seq<Action>, o: nat)
    requires forall i :: 0 <= i < |run| ==> AllOrNothing(run[i].w, ATTEMPTS)
    ensures NoneTwice(log, run, o)
  {
    hide AllOrNothing, InsertsTwice, VerdictOn;
    if run != [] {
      AllOrNothingNoneTwice(log, run[..|run| - 1], o);
      if o < |log| { StoresAtMostOnce(VerdictOn(log[o]), run[|run| - 1].w, ATTEMPTS, 1); }
    }
  }

  /** A message is stored no more often than it was delivered, if none of its deliveries inserts twice. */
  lemma {:induction false} OneCopyPerDelivery(log: seq<Payload>, run: seq<Action>, o: nat)
    requires NoneTwice(log, run, o)
    ensures Copies(Exec(log, run).stored, o) <= Deliveries(log, run, o)
  {
    hide Do, VerdictOn, InsertsTwice;
    if run != [] {
      OneCopyPerDelivery(log, run[..|run| - 1], o);
      DoCopies(log, Exec(log, run[..|run| - 1]), run[|run| - 1], o);
    }
  }
}
