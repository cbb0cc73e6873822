/** The string functions of Go's standard library that the services rely on. */
module Text {
  predicate IsSpace(c: char) {
    || '\t' <= c <= '\r' || c == ' ' || c == '\U{85}' || c == '\U{A0}' || c == '\U{1680}'
    || '\U{2000}' <= c <= '\U{200A}' || c == '\U{2028}' || c == '\U{2029}' || c == '\U{202F}'
    || c == '\U{205F}' || c == '\U{3000}'
  }

  function TrimLeft(s: string): string {
    if s != "" && IsSpace(s[0]) then TrimLeft(s[1..]) else s
  }

  function TrimRight(s: string): string {
    if s != "" && IsSpace(s[|s| - 1]) then TrimRight(s[..|s| - 1]) else s
  }

  /** strings.TrimSpace */
  function TrimSpace(s: string): string {
    TrimRight(TrimLeft(s))
  }

  /**
   strings.ToLower, exact on every character that lowers to an ASCII letter; the other
   letters are left alone.
   */
  function ToLower(s: string): string {
    seq(|s|, i requires 0 <= i < |s| =>
      if 'A' <= s[i] <= 'Z' then s[i] + ('a' - 'A')
      else if s[i] == '\U{130}' then 'i'
      else if s[i] == '\U{212A}' then 'k'
      else s[i])
  }

  predicate IsBlank(s: string) {
    TrimSpace(s) == ""
  }

  ghost predicate OnlySpaces(s: string) {
    forall i :: 0 <= i < |s| ==> IsSpace(s[i])
  }

  lemma {:induction false} TrimLeftMeans(s: string)
    ensures TrimLeft(s) == "" <==> OnlySpaces(s)
    ensures TrimLeft(s) != "" ==> !IsSpace(TrimLeft(s)[0])
  {
    hide IsSpace;
    if s != "" {
      TrimLeftMeans(s[1..]);
      assert OnlySpaces(s) <==> IsSpace(s[0]) && OnlySpaces(s[1..]) by {
        if IsSpace(s[0]) && OnlySpaces(s[1..]) {
          forall i | 0 <= i < |s| ensures IsSpace(s[i]) { if i > 0 { assert IsSpace(s[1..][i - 1]); } }
        }
      }
    }
  }

  lemma {:induction false} TrimRightKeepsFirst(s: string)
    requires s != "" && !IsSpace(s[0])
    ensures TrimRight(s) != ""
  {
    if |s| > 1 { TrimRightKeepsFirst(s[..|s| - 1]); }
  }

  lemma BlankMeans(s: string)
    ensures IsBlank(s) <==> OnlySpaces(s)
  {
    TrimLeftMeans(s);
    if TrimLeft(s) != "" { TrimRightKeepsFirst(TrimLeft(s)); }
  }

  /** Lowering letters neither makes nor removes white space. */
  lemma LowerKeepsBlank(s: string)
    ensures IsBlank(ToLower(s)) <==> IsBlank(s)
  {
    BlankMeans(s);
    BlankMeans(ToLower(s));
    forall i | 0 <= i < |s| ensures IsSpace(ToLower(s)[i]) <==> IsSpace(s[i]) {}
  }

  /** White space by code point, as Unicode lists it. */
  lemma IsSpaceExactly(c: char)
    ensures IsSpace(c) <==> c as int in {
      0x09, 0x0A, 0x0B, 0x0C, 0x0D, 0x20, 0x85, 0xA0, 0x1680, 0x2000, 0x2001, 0x2002, 0x2003, 0x2004, 0x2005,
      0x2006, 0x2007, 0x2008, 0x2009, 0x200A, 0x2028, 0x2029, 0x202F, 0x205F, 0x3000}
  {
  }

  /** No white space at either end. */
  ghost predicate Trimmed(s: string) {
    s != "" ==> !IsSpace(s[0]) && !IsSpace(s[|s| - 1])
  }

  lemma {:induction false} TrimLeftDrops(pad: string, rest: string)
    requires OnlySpaces(pad) && (rest != "" ==> !IsSpace(rest[0]))
    ensures TrimLeft(pad + rest) == rest
  {
    hide IsSpace;
    if pad == "" {
      assert pad + rest == rest;
    } else {
      assert (pad + rest)[1..] == pad[1..] + rest;
      TrimLeftDrops(pad[1..], rest);
    }
  }

  lemma {:induction false} TrimRightDrops(rest: string, pad: string)
    requires OnlySpaces(pad) && (rest != "" ==> !IsSpace(rest[|rest| - 1]))
    ensures TrimRight(rest + pad) == rest
  {
    hide IsSpace;
    if pad == "" {
      assert rest + pad == rest;
    } else {
      assert (rest + pad)[..|rest + pad| - 1] == rest + pad[..|pad| - 1];
      TrimRightDrops(rest, pad[..|pad| - 1]);
    }
  }

  /** Trimming takes the white space off both ends and nothing else. */
  lemma TrimExactly(before: string, t: string, after: string)
    requires OnlySpaces(before) && OnlySpaces(after) && Trimmed(t)
    ensures TrimSpace(before + t + after) == t
  {
    hide IsSpace;
    if t == "" {
      assert before + t + after == before + after;
      assert forall i :: 0 <= i < |before + after| ==> IsSpace((before + after)[i]);
      TrimLeftMeans(before + after);
    } else {
      assert before + t + after == before + (t + after);
      TrimLeftDrops(before, t + after);
      TrimRightDrops(t, after);
    }
  }

  lemma {:induction false} TrimLeftSplits(s: string) returns (before: string)
    ensures OnlySpaces(before) && s == before + TrimLeft(s)
  {
    hide IsSpace;
    if s != "" && IsSpace(s[0]) {
      before := TrimLeftSplits(s[1..]);
      before := [s[0]] + before;
    } else {
      before := "";
    }
  }

  lemma {:induction false} TrimRightSplits(s: string) returns (after: string)
    ensures OnlySpaces(after) && s == TrimRight(s) + after
    ensures TrimRight(s) != "" ==> !IsSpace(TrimRight(s)[|TrimRight(s)| - 1])
  {
    hide IsSpace;
    if s != "" && IsSpace(s[|s| - 1]) {
      after := TrimRightSplits(s[..|s| - 1]);
      after := after + [s[|s| - 1]];
    } else {
      after := "";
    }
  }

  /** Every string is white space, its trimmed part, and white space. */
  lemma TrimSplits(s: string) returns (before: string, after: string)
    ensures OnlySpaces(before) && OnlySpaces(after) && Trimmed(TrimSpace(s))
    ensures s == before + TrimSpace(s) + after
  {
    hide IsSpace;
    before := TrimLeftSplits(s);
    after := TrimRightSplits(TrimLeft(s));
    TrimLeftMeans(s);
    assert before + (TrimSpace(s) + after) == before + TrimSpace(s) + after;
  }

  /** The characters that lower to an ASCII letter: both cases, and two that are not ASCII. */
  lemma LowersTo(s: string, i: nat, c: char)
    requires i < |s| && 'a' <= c <= 'z'
    ensures ToLower(s)[i] == c <==>
      s[i] == c || s[i] as int == c as int - 32 || (c == 'i' && s[i] as int == 0x130) || (c == 'k' && s[i] as int == 0x212A)
  {
  }

  /** Byte order of strings, which for valid UTF-8 is the order of code points. */
  predicate Less(a: string, b: string) {
    if b == "" then false
    else if a == "" then true
    else if a[0] != b[0] then a[0] < b[0]
    else Less(a[1..], b[1..])
  }

  lemma {:induction false} LessIrreflexive(a: string)
    ensures !Less(a, a)
  {
    if a != "" { LessIrreflexive(a[1..]); }
  }

  lemma {:induction false} LessTransitive(a: string, b: string, c: string)
    requires Less(a, b) && Less(b, c)
    ensures Less(a, c)
  {
    if a != "" && a[0] == b[0] == c[0] { LessTransitive(a[1..], b[1..], c[1..]); }
  }

  lemma {:induction false} LessTotal(a: string, b: string)
    ensures a == b || Less(a, b) || Less(b, a)
  {
    if a != "" && b != "" && a[0] == b[0] {
      LessTotal(a[1..], b[1..]);
      if a[1..] == b[1..] { assert a == [a[0]] + a[1..] && b == [b[0]] + b[1..]; }
    }
  }

  /** a comes first: it is a proper beginning of b, or smaller at the first place where they differ. */
  lemma {:induction false} LessMeans(a: string, b: string)
    ensures Less(a, b) <==> exists n :: LessAt(a, b, n)
  {
    if a != "" && b != "" && a[0] == b[0] {
      LessMeans(a[1..], b[1..]);
      if n :| LessAt(a[1..], b[1..], n) { assert LessAt(a, b, n + 1) by { LessAtTail(a, b, n); } }
      if n :| LessAt(a, b, n) {
        assert n > 0;
        LessAtTail(a, b, n - 1);
        assert LessAt(a[1..], b[1..], n - 1);
      }
    } else {
      assert b != "" && (a == "" || a[0] < b[0]) ==> LessAt(a, b, 0);
    }
  }

  ghost predicate LessAt(a: string, b: string, n: int) {
    0 <= n <= |a| && n < |b| && a[..n] == b[..n] && (n < |a| ==> a[n] < b[n])
  }

  lemma LessAtTail(a: string, b: string, n: int)
    requires a != "" && b != "" && a[0] == b[0]
    ensures LessAt(a[1..], b[1..], n) <==> n >= 0 && LessAt(a, b, n + 1)
  {
    if 0 <= n < |a| && n + 1 <= |b| {
      assert a[..n + 1] == [a[0]] + a[1..][..n] && b[..n + 1] == [b[0]] + b[1..][..n];
      assert a[1..][..n] == a[..n + 1][1..] && b[1..][..n] == b[..n + 1][1..];
    }
  }
}
