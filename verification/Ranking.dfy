/**
 The order of a Redis sorted set (score, then member bytes) and the best k of a set of
 entries, stated without sorting: an entry is among the best k when fewer than k are above.
 */
module Ranking {
  import opened Arithmetic
  import opened Text

  datatype Entry = Entry(score: int, member: string)

  predicate Before(a: Entry, b: Entry) {
    a.score < b.score || (a.score == b.score && Less(a.member, b.member))
  }

  lemma BeforeOrders(a: Entry, b: Entry)
    ensures !Before(a, a)
    ensures a == b || Before(a, b) || Before(b, a)
    ensures !(Before(a, b) && Before(b, a))
  {
    LessIrreflexive(a.member);
    LessTotal(a.member, b.member);
    if Before(a, b) && Before(b, a) { LessTransitive(a.member, b.member, a.member); }
  }

  lemma BeforeTransitive(a: Entry, b: Entry, c: Entry)
    requires Before(a, b) && Before(b, c)
    ensures Before(a, c)
  {
    if a.score == c.score { LessTransitive(a.member, b.member, c.member); }
  }

  function Above(s: set<Entry>, e: Entry): set<Entry> { set y | y in s && Before(e, y) }

  function Below(s: set<Entry>, e: Entry): set<Entry> { set y | y in s && Before(y, e) }

  ghost function Top(s: set<Entry>, k: nat): set<Entry> { set e | e in s && |Above(s, e)| < k }

  predicate IsMax(s: set<Entry>, m: Entry) {
    m in s && forall e :: e in s && e != m ==> Before(e, m)
  }

  lemma {:induction false} MaxExists(s: set<Entry>)
    requires s != {}
    ensures exists m :: IsMax(s, m)
  {
    var x :| x in s;
    if s == {x} {
      assert IsMax(s, x);
    } else {
      MaxExists(s - {x});
      var m :| IsMax(s - {x}, m);
      BeforeOrders(m, x);
      if Before(x, m) {
        assert IsMax(s, m);
      } else {
        forall e | e in s && e != x && e != m ensures Before(e, x) { BeforeTransitive(e, m, x); }
        assert IsMax(s, x);
      }
    }
  }

  function Max(s: set<Entry>): (m: Entry)
    requires s != {}
    ensures IsMax(s, m)
  {
    MaxExists(s);
    assert forall a, b :: IsMax(s, a) && IsMax(s, b) ==> a == b by {
      forall a, b | IsMax(s, a) && IsMax(s, b) ensures a == b { BeforeOrders(a, b); }
    }
    var m :| IsMax(s, m);
    m
  }

  lemma MaxUnique(s: set<Entry>, m: Entry)
    requires IsMax(s, m)
    ensures Max(s) == m
  {
    if Max(s) != m { BeforeOrders(m, Max(s)); }
  }

  /** The entries from the highest down. */
  function Ranked(s: set<Entry>): (r: seq<Entry>)
    ensures |r| == |s|
    ensures forall e :: e in r <==> e in s
    decreases |s|
  {
    if s == {} then [] else [Max(s)] + Ranked(s - {Max(s)})
  }

  lemma {:induction false} RankedDescends(s: set<Entry>, i: nat, j: nat)
    requires i < j < |s|
    ensures Before(Ranked(s)[j], Ranked(s)[i])
    decreases |s|
  {
    var m := Max(s);
    var rest := Ranked(s - {m});
    if i > 0 { RankedDescends(s - {m}, i - 1, j - 1); }
    else { assert rest[j - 1] in s - {m}; }
  }

  lemma TopWithoutMax(s: set<Entry>, k: nat)
    requires s != {} && k > 0
    ensures Top(s, k) == {Max(s)} + Top(s - {Max(s)}, k - 1)
  {
    var m := Max(s);
    assert Above(s, m) == {} by {
      forall e | e in s && Before(m, e) ensures false { BeforeOrders(e, m); }
    }
    forall e | e in s - {m} ensures |Above(s, e)| == |Above(s - {m}, e)| + 1 {
      assert Above(s, e) == Above(s - {m}, e) + {m};
    }
  }

  ghost predicate FirstOf(part: seq<Entry>, r: seq<Entry>, k: nat) {
    |part| == Least(k, |r|) && part == r[..|part|]
  }

  lemma FirstOfCons(m: Entry, part: seq<Entry>, r: seq<Entry>, k: nat)
    requires k > 0 && FirstOf(part, r, k - 1)
    ensures FirstOf([m] + part, [m] + r, k)
  {
  }

  lemma {:induction false} RankedFirst(s: set<Entry>, k: nat)
    ensures FirstOf(Ranked(Top(s, k)), Ranked(s), k)
    decreases |s|
  {
    hide *;
    if s == {} || k == 0 {
      TopOfNothing(s, k);
      NothingFirst(Ranked(s), s, k);
    } else {
      var m := Max(s);
      var s', t := s - {m}, Top(s - {m}, k - 1);
      MaxSplits(s, m);
      TopWithoutMax(s, k);
      RankedFirst(s', k - 1);
      TopSubset(s', k - 1);
      RankedWithMax(t, m);
      RankedWithMax(s', m);
      FirstOfCons(m, Ranked(t), Ranked(s'), k);
    }
  }

  lemma NothingFirst(r: seq<Entry>, s: set<Entry>, k: nat)
    requires |r| == |s| && (s == {} || k == 0)
    ensures FirstOf([], r, k)
  {
  }

  /** The best k, in rank order, are the first k of the whole ranking. */
  lemma {:induction false} RankedTop(s: set<Entry>, k: nat)
    ensures |Top(s, k)| == Least(k, |s|)
    ensures Ranked(Top(s, k)) == Ranked(s)[..Least(k, |s|)]
  {
    RankedFirst(s, k);
    hide Ranked, Top;
  }

  lemma MaxSplits(s: set<Entry>, m: Entry)
    requires s != {} && m == Max(s)
    ensures s == {m} + (s - {m}) && |s - {m}| == |s| - 1
    ensures forall e :: e in s - {m} ==> Before(e, m)
  {
  }

  lemma TopOfNothing(s: set<Entry>, k: nat)
    requires s == {} || k == 0
    ensures Top(s, k) == {} && Ranked(Top(s, k)) == []
  {
    assert Top(s, k) == {};
  }

  lemma TopSubset(s: set<Entry>, k: nat)
    ensures Top(s, k) <= s
  {
  }

  /** Trimming to k leaves a set of at most k entries alone. */
  lemma TopOfFew(s: set<Entry>, k: nat)
    requires |s| <= k
    ensures Top(s, k) == s
  {
    forall e | e in s ensures |Above(s, e)| < k {
      BeforeOrders(e, e);
      Subset(Above(s, e), s - {e});
    }
  }

  lemma RankedWithMax(t: set<Entry>, m: Entry)
    requires m !in t && forall e :: e in t ==> Before(e, m)
    ensures Ranked({m} + t) == [m] + Ranked(t)
  {
    MaxUnique({m} + t, m);
    assert {m} + t - {m} == t;
  }

  /** Above(s, x) is closed upwards, so taking the best k commutes with it. */
  lemma TopAbove(s: set<Entry>, x: Entry, k: nat)
    ensures Above(Top(s, k), x) == Top(Above(s, x), k)
  {
    forall y | y in s && Before(x, y) ensures Above(s, y) == Above(Above(s, x), y) {
      forall z | z in s && Before(y, z) ensures Before(x, z) { BeforeTransitive(x, y, z); }
    }
  }

  lemma TopUpwardClosed(s: set<Entry>, e: Entry, k: nat)
    requires e in Top(s, k)
    ensures Above(Top(s, k), e) == Above(s, e)
  {
    forall y | y in Above(s, e) ensures |Above(s, y)| < k {
      forall z | z in Above(s, y) ensures z in Above(s, e) { BeforeTransitive(e, y, z); }
      Subset(Above(s, y), Above(s, e));
    }
  }

  lemma {:induction false} Subset(a: set<Entry>, b: set<Entry>)
    requires a <= b
    ensures |a| <= |b|
  {
    if a != {} {
      var x :| x in a;
      Subset(a - {x}, b - {x});
    }
  }

  lemma AboveAdd(s: set<Entry>, x: Entry, e: Entry)
    ensures Above(s + {x}, e) == Above(s, e) + (if Before(e, x) then {x} else {})
  {
  }

  /** Trimming to the best k and then adding loses nothing that matters to the best k. */
  lemma TopAbsorbs(s: set<Entry>, x: Entry, k: nat)
    ensures Top(Top(s, k) + {x}, k) == Top(s + {x}, k)
  {
    var t := Top(s, k);
    forall e | e in t + {x} ensures |Above(t + {x}, e)| < k <==> |Above(s + {x}, e)| < k {
      if e in t {
        TopUpwardClosed(s, e, k);
        AbsorbedAlike(s, t, x, e);
      } else {
        BeforeOrders(x, x);
        AboveAdd(s, x, x);
        AboveAdd(t, x, x);
        TopAbove(s, x, k);
        RankedTop(Above(s, x), k);
      }
    }
    forall e | e in s && e !in t + {x} ensures |Above(s + {x}, e)| >= k {
      AboveAdd(s, x, e);
      Subset(Above(s, e), Above(s + {x}, e));
    }
  }

  lemma AbsorbedAlike(s: set<Entry>, t: set<Entry>, x: Entry, e: Entry)
    requires Above(t, e) == Above(s, e)
    ensures Above(t + {x}, e) == Above(s + {x}, e)
  {
    AboveAdd(s, x, e);
    AboveAdd(t, x, e);
  }

  lemma RankPlusAbove(s: set<Entry>, e: Entry)
    requires e in s
    ensures |Below(s, e)| + 1 + |Above(s, e)| == |s|
  {
    forall y | y in s ensures y == e || Before(y, e) || Before(e, y) { BeforeOrders(y, e); }
    forall y | y in Below(s, e) ensures y != e && !Before(e, y) { BeforeOrders(y, e); }
    BeforeOrders(e, e);
    assert s == Below(s, e) + {e} + Above(s, e);
  }
}
