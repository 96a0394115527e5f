/**
 The fixed line pattern of s3kibanalogs.go:61,

   .*(\d{2}:\d{2}:\d{2}).*connect: ([DIWENC]):[\d\.]+\s+T?\[([\w\s]+):\d+\]\s+(.*)

 with Go's RE2 classes (`\d` = [0-9], `\s` = [\t\n\f\r ], `\w` = [0-9A-Za-z_])
 and Go's leftmost-first choice of submatches. A scanned line never holds a
 newline, so `.` matches every character of it.

 The language of the pattern is stated declaratively (`Matches`, via
 `TailFits` and `Fits`); the matcher (`Locate`, `Match`) computes the
 submatches the way a backtracking engine prefers them and is proved to
 agree with the declarative statement.
 */
module LinePattern {
  import opened Wrappers

  /** A line as produced by the line scanner: it never contains a newline. */
  type Line = s: string | '\n' !in s witness ""

  predicate IsDigit(c: char) { '0' <= c <= '9' }
  predicate IsSpace(c: char) { c == '\t' || c == '\n' || c == '\U{000C}' || c == '\r' || c == ' ' }
  predicate IsWord(c: char) { IsDigit(c) || 'a' <= c <= 'z' || 'A' <= c <= 'Z' || c == '_' }
  predicate IsLevelCode(c: char) { c == 'D' || c == 'I' || c == 'W' || c == 'E' || c == 'N' || c == 'C' }

  /** The repeated character classes of the pattern. */
  datatype Class = Digits | IpChars | Spaces | WordOrSpace

  predicate InClass(c: char, k: Class)
  {
    match k
    case Digits => IsDigit(c)
    case IpChars => IsDigit(c) || c == '.'
    case Spaces => IsSpace(c)
    case WordOrSpace => IsWord(c) || IsSpace(c)
  }

  /** line[i..j] is a run of characters of class k. */
  predicate RunIn(line: string, i: nat, j: nat, k: Class)
  {
    i <= j <= |line| && forall x :: i <= x < j ==> InClass(line[x], k)
  }

  /** `dd:dd:dd`, the shape of the first capture group. */
  predicate IsClock(s: string)
  {
    && |s| == 8
    && IsDigit(s[0]) && IsDigit(s[1]) && s[2] == ':'
    && IsDigit(s[3]) && IsDigit(s[4]) && s[5] == ':'
    && IsDigit(s[6]) && IsDigit(s[7])
  }

  const ConnectWord: string := "connect: "

  /** A clock starts at t. */
  predicate TimeAt(line: string, t: nat)
  {
    t + 8 <= |line| && IsClock(line[t..t + 8])
  }

  /** The literal `connect: ` starts at c. */
  predicate ConnectAt(line: string, c: nat)
  {
    c + |ConnectWord| <= |line| && line[c..c + |ConnectWord|] == ConnectWord
  }

  /**
   Boundaries of the part after `connect: ` (which starts at p): the level
   code at p, `:` at p+1, the address run line[p+2..q], the blank run
   line[q..r], an optional `T` (b == 1), `[` at r+b, the facility
   line[r+b+1..f], `:` at f, the line number line[f+1..n], `]` at n, the
   blank run line[n+1..w], and the message line[w..].
   */
  datatype TailSplit = TailSplit(q: nat, r: nat, b: nat, f: nat, n: nat, w: nat)

  /** `([DIWENC]):[\d\.]+\s+` from p, ending at r. */
  ghost predicate LeadFits(line: string, p: nat, q: nat, r: nat)
  {
    && p + 2 < q < r <= |line|
    && IsLevelCode(line[p]) && line[p + 1] == ':'
    && RunIn(line, p + 2, q, IpChars)
    && RunIn(line, q, r, Spaces)
  }

  /** `T?\[([\w\s]+)` from r, followed by the `:` at f. */
  ghost predicate FacilityFits(line: string, r: nat, b: nat, f: nat)
  {
    && b <= 1 && r + b + 1 < f < |line|
    && (b == 1 ==> line[r] == 'T')
    && line[r + b] == '['
    && RunIn(line, r + b + 1, f, WordOrSpace)
    && line[f] == ':'
  }

  /** `:\d+\]\s+` from f, ending at w. */
  ghost predicate CloseFits(line: string, f: nat, n: nat, w: nat)
  {
    && f + 1 < n && n + 1 < w <= |line|
    && line[f] == ':'
    && RunIn(line, f + 1, n, Digits)
    && line[n] == ']'
    && RunIn(line, n + 1, w, Spaces)
  }

  /** The text from p on matches `([DIWENC]):[\d\.]+\s+T?\[([\w\s]+):\d+\]\s+(.*)` split at s. */
  ghost predicate TailFits(line: string, p: nat, s: TailSplit)
  {
    LeadFits(line, p, s.q, s.r) && FacilityFits(line, s.r, s.b, s.f) && CloseFits(line, s.f, s.n, s.w)
  }

  /** Some split makes the text from p on match the tail of the pattern. */
  ghost predicate TailMatches(line: string, p: nat)
  {
    exists s :: TailFits(line, p, s)
  }

  /** A whole-pattern match with the clock at t and `connect: ` at c. */
  ghost predicate Fits(line: string, t: nat, c: nat)
  {
    TimeAt(line, t) && t + 8 <= c && ConnectAt(line, c) && TailMatches(line, c + |ConnectWord|)
  }

  /** The line is in the language of the pattern (`re.MatchString`). */
  ghost predicate Matches(line: string)
  {
    exists t: nat, c: nat :: Fits(line, t, c)
  }

  /** End of the longest run of class k starting at i (a greedy `+` or `*`). */
  function Span(line: string, i: nat, k: Class): (j: nat)
    requires i <= |line|
    ensures RunIn(line, i, j, k)
    ensures j == |line| || !InClass(line[j], k)
    decreases |line| - i
  {
    if i < |line| && InClass(line[i], k) then Span(line, i + 1, k) else i
  }

  /** A run that ends at a character outside its class is the longest one. */
  lemma SpanAt(line: string, i: nat, j: nat, k: Class)
    requires RunIn(line, i, j, k)
    requires j == |line| || !InClass(line[j], k)
    ensures Span(line, i, k) == j
  {
  }

  /** The longest run covers every run from the same start. */
  lemma SpanCovers(line: string, i: nat, j: nat, k: Class)
    requires RunIn(line, i, j, k)
    ensures Span(line, i, k) >= j
  {
  }

  /** `([DIWENC]):[\d\.]+\s+` as the engine reads it: both runs taken whole. */
  function ParseLead(line: string, p: nat): (r: Option<(nat, nat)>)
    ensures r.Some? ==> LeadFits(line, p, r.value.0, r.value.1)
    ensures r.Some? ==> r.value.1 == |line| || !IsSpace(line[r.value.1])
  {
    if p + 2 > |line| || !IsLevelCode(line[p]) || line[p + 1] != ':' then None
    else
      var q := Span(line, p + 2, IpChars);
      if q == p + 2 then None
      else
        var r := Span(line, q, Spaces);
        if r == q then None else Some((q, r))
  }

  /**
   Each run of the lead is followed by a character outside its class, so
   taking the runs whole is the only way to match it.
   */
  lemma ParseLeadComplete(line: string, p: nat, q: nat, r: nat)
    requires LeadFits(line, p, q, r)
    requires r < |line| && !IsSpace(line[r])
    ensures ParseLead(line, p) == Some((q, r))
  {
    assert !InClass(line[q], IpChars) by { assert InClass(line[q], Spaces); }
    SpanAt(line, p + 2, q, IpChars);
    SpanAt(line, q, r, Spaces);
  }

  /** `T?\[([\w\s]+)` up to the `:` after it, as the engine reads it. */
  function ParseFacility(line: string, r: nat): (res: Option<(nat, nat)>)
    requires r <= |line|
    ensures res.Some? ==> FacilityFits(line, r, res.value.0, res.value.1)
  {
    var b := if r < |line| && line[r] == 'T' then 1 else 0;
    if r + b >= |line| || line[r + b] != '[' then None
    else
      var f := Span(line, r + b + 1, WordOrSpace);
      if f == r + b + 1 || f >= |line| || line[f] != ':' then None else Some((b, f))
  }

  /** The optional `T` and the facility run are forced. */
  lemma ParseFacilityComplete(line: string, r: nat, b: nat, f: nat)
    requires FacilityFits(line, r, b, f)
    ensures ParseFacility(line, r) == Some((b, f))
  {
    SpanAt(line, r + b + 1, f, WordOrSpace);
  }

  /** `:\d+\]\s+` as the engine reads it: the last blank run is taken whole. */
  function ParseClose(line: string, f: nat): (res: Option<(nat, nat)>)
    ensures res.Some? ==> CloseFits(line, f, res.value.0, res.value.1)
    ensures res.Some? ==> res.value.1 == |line| || !IsSpace(line[res.value.1])
  {
    if f >= |line| || line[f] != ':' then None
    else
      var n := Span(line, f + 1, Digits);
      if n == f + 1 || n >= |line| || line[n] != ']' then None
      else
        var w := Span(line, n + 1, Spaces);
        if w == n + 1 then None else Some((n, w))
  }

  /** The line number is forced; the last blank run is the longest one. */
  lemma ParseCloseComplete(line: string, f: nat, n: nat, w: nat)
    requires CloseFits(line, f, n, w)
    ensures ParseClose(line, f).Some?
    ensures ParseClose(line, f).value.0 == n && ParseClose(line, f).value.1 >= w
  {
    SpanAt(line, f + 1, n, Digits);
    SpanCovers(line, n + 1, w, Spaces);
  }

  /**
   The tail after `connect: ` as the engine reads it. Every repetition in the
   tail is followed by a character outside its class, so taking each run
   whole is the only choice that can succeed, except for the last `\s+`,
   which the engine also takes whole.
   */
  function ParseTail(line: string, p: nat): (r: Option<TailSplit>)
    ensures r.Some? ==> TailFits(line, p, r.value)
    ensures r.Some? ==> r.value.w == |line| || !IsSpace(line[r.value.w])
  {
    match ParseLead(line, p)
    case None => None
    case Some((q, r)) =>
      match ParseFacility(line, r)
      case None => None
      case Some((b, f)) =>
        match ParseClose(line, f)
        case None => None
        case Some((n, w)) => Some(TailSplit(q, r, b, f, n, w))
  }

  /**
   Any way of matching the tail is found by ParseTail, with the same
   boundaries up to the last blank run, which ParseTail extends as far as
   it goes. So the level and facility do not depend on how the tail is
   matched.
   */
  lemma ParseTailComplete(line: string, p: nat, s: TailSplit)
    requires TailFits(line, p, s)
    ensures ParseTail(line, p).Some?
    ensures var s' := ParseTail(line, p).value;
      s'.q == s.q && s'.r == s.r && s'.b == s.b && s'.f == s.f && s'.n == s.n && s'.w >= s.w
  {
    assert line[s.r] == 'T' || line[s.r] == '[';
    ParseLeadComplete(line, p, s.q, s.r);
    ParseFacilityComplete(line, s.r, s.b, s.f);
    ParseCloseComplete(line, s.f, s.n, s.w);
  }

  /** The tail of the pattern matches after a `connect: ` at c. */
  predicate TailAt(line: string, c: nat)
  {
    ConnectAt(line, c) && ParseTail(line, c + |ConnectWord|).Some?
  }

  lemma FitsTailAt(line: string, t: nat, c: nat)
    requires Fits(line, t, c)
    ensures TailAt(line, c)
  {
    var s :| TailFits(line, c + |ConnectWord|, s);
    ParseTailComplete(line, c + |ConnectWord|, s);
  }

  /** The last position below k where `connect: ` with a matching tail starts. */
  function LastTail(line: string, k: nat): (r: Option<nat>)
    ensures r.Some? ==> r.value < k && TailAt(line, r.value)
    decreases k
  {
    if k == 0 then None
    else if TailAt(line, k - 1) then Some(k - 1)
    else LastTail(line, k - 1)
  }

  /** No position between the one LastTail finds and k has a matching tail. */
  lemma {:induction false} LastTailIsLast(line: string, k: nat, c: nat)
    requires LastTail(line, k).None? || LastTail(line, k).value < c
    requires c < k
    ensures !TailAt(line, c)
    decreases k
  {
    if c < k - 1 {
      LastTailIsLast(line, k - 1, c);
    }
  }

  /** The last position below k where a clock starts. */
  function LastClock(line: string, k: nat): (r: Option<nat>)
    ensures r.Some? ==> r.value < k && TimeAt(line, r.value)
    ensures forall t: nat :: (r.None? || r.value < t) && t < k ==> !TimeAt(line, t)
    decreases k
  {
    if k == 0 then None
    else if TimeAt(line, k - 1) then Some(k - 1)
    else LastClock(line, k - 1)
  }

  /**
   Where the clock and `connect: ` of the match are. The leading `.*` is
   greedy, so the clock is the last one that still lets the rest match; the
   `.*` after it is greedy too, so `connect: ` is the last one after that
   clock whose tail matches.
   */
  function Locate(line: string): (r: Option<(nat, nat)>)
    ensures r.Some? ==> TimeAt(line, r.value.0) && r.value.0 + 8 <= r.value.1 && TailAt(line, r.value.1)
  {
    var lc := LastTail(line, |line|);
    if lc.None? || lc.value < 8 then None
    else
      var lt := LastClock(line, lc.value - 7);
      if lt.None? then None else Some((lt.value, lc.value))
  }

  /** A clock, then `connect: ` with a matching tail, make a match. */
  lemma TailAtFits(line: string, t: nat, c: nat)
    requires TimeAt(line, t) && t + 8 <= c && TailAt(line, c)
    ensures Fits(line, t, c)
  {
    var s := ParseTail(line, c + |ConnectWord|).value;
    assert TailFits(line, c + |ConnectWord|, s);
  }

  /**
   Every match has its `connect: ` at or before the last position where the
   tail matches, and its clock at or before the last clock that ends by then.
   */
  lemma NoLaterClock(line: string, t: nat, c: nat)
    requires TimeAt(line, t) && t + 8 <= c && TailAt(line, c)
    ensures Locate(line).Some?
    ensures t <= Locate(line).value.0 && c <= Locate(line).value.1
  {
    var lc := LastTail(line, |line|);
    if lc.None? || lc.value < c {
      LastTailIsLast(line, |line|, c);
    }
    var lt := LastClock(line, lc.value - 7);
    assert lt.Some? && t <= lt.value;
  }

  /** Locate finds a match exactly when the line is in the language of the pattern. */
  lemma LocateMatches(line: string)
    ensures Locate(line).Some? <==> Matches(line)
    ensures Locate(line).Some? ==> Fits(line, Locate(line).value.0, Locate(line).value.1)
  {
    match Locate(line)
    case Some((t, c)) =>
      TailAtFits(line, t, c);
    case None =>
      if Matches(line) {
        var t': nat, c': nat :| Fits(line, t', c');
        FitsTailAt(line, t', c');
        NoLaterClock(line, t', c');
      }
  }

  /**
   The match Locate finds is the one a backtracking engine reaches first:
   no match has a later clock, and none with the same clock has a later
   `connect: `.
   */
  lemma LocateLeftmostFirst(line: string)
    ensures Locate(line).Some? <==> Matches(line)
    ensures Locate(line).Some? ==> Fits(line, Locate(line).value.0, Locate(line).value.1)
    ensures Locate(line).Some? ==>
      var (t, c) := Locate(line).value;
      forall t': nat, c': nat :: Fits(line, t', c') ==> t' < t || (t' == t && c' <= c)
  {
    LocateMatches(line);
    if Locate(line).Some? {
      var (t, c) := Locate(line).value;
      forall t': nat, c': nat | Fits(line, t', c')
        ensures t' < t || (t' == t && c' <= c)
      {
        FitsTailAt(line, t', c');
        NoLaterClock(line, t', c');
      }
    }
  }

  /** The four submatches of the pattern. */
  datatype Captures = Captures(time: string, level: string, facility: string, message: string)

  /** The submatches have the shapes their groups allow. */
  predicate WellFormed(cap: Captures)
  {
    && IsClock(cap.time)
    && |cap.level| == 1 && IsLevelCode(cap.level[0])
    && |cap.facility| > 0
    && (forall i :: 0 <= i < |cap.facility| ==> InClass(cap.facility[i], WordOrSpace))
    && (cap.message == [] || !IsSpace(cap.message[0]))
  }

  /** The facility submatch: a non-empty run of word and blank characters. */
  function FacilityText(line: string, i: nat, f: nat): (fac: string)
    requires i < f <= |line| && RunIn(line, i, f, WordOrSpace)
    ensures |fac| > 0 && forall x :: 0 <= x < |fac| ==> InClass(fac[x], WordOrSpace)
  {
    assert forall x :: 0 <= x < f - i ==> line[i..f][x] == line[i + x];
    line[i..f]
  }

  /** The submatches of the match with its clock at t and `connect: ` at c. */
  function Extract(line: string, t: nat, c: nat): (cap: Captures)
    requires TimeAt(line, t) && TailAt(line, c)
    ensures WellFormed(cap)
    ensures |cap.message| <= |line| && line[|line| - |cap.message|..] == cap.message
  {
    var p := c + |ConnectWord|;
    var s := ParseTail(line, p).value;
    Captures(line[t..t + 8], [line[p]], FacilityText(line, s.r + s.b + 1, s.f), line[s.w..])
  }

  /**
   `re.FindStringSubmatch` on a scanned line: the submatches when the line
   is in the language, nothing otherwise.
   */
  function Match(line: Line): (r: Option<Captures>)
    ensures r.Some? <==> Matches(line)
    ensures r.Some? ==> WellFormed(r.value)
    ensures r.Some? ==> |r.value.message| <= |line| && line[|line| - |r.value.message|..] == r.value.message
  {
    LocateMatches(line);
    match Locate(line)
    case None => None
    case Some((t, c)) => Some(Extract(line, t, c))
  }

  /**
   The submatches are text of the line, read off the match a leftmost-first
   engine reports. Take the match with its clock at t and `connect: ` at c
   such that no match has a later clock, or the same clock and a later
   `connect: `, and split its tail at s with the final blank run taken
   whole. Then the time is the clock at t, the level is the character after
   that `connect: `, the facility is the text between `[` (after the
   optional `T`) and `:`, and the message is the rest of the line after the
   blank run.
   */
  lemma MatchCaptures(line: Line, t: nat, c: nat, s: TailSplit)
    requires TimeAt(line, t) && t + 8 <= c && ConnectAt(line, c)
    requires TailFits(line, c + |ConnectWord|, s)
    requires s.w == |line| || !IsSpace(line[s.w])
    requires forall t': nat, c': nat :: Fits(line, t', c') ==> t' < t || (t' == t && c' <= c)
    ensures Match(line) == Some(Captures(line[t..t + 8], [line[c + |ConnectWord|]], line[s.r + s.b + 1..s.f], line[s.w..]))
  {
    TailAtSplit(line, c + |ConnectWord|, s);
    ExtractAt(line, t, c, s);
    assert Fits(line, t, c);
    LocatedAt(line, t, c);
  }

  /** The greatest match in leftmost-first order is the one Locate finds. */
  lemma LocatedAt(line: Line, t: nat, c: nat)
    requires Fits(line, t, c)
    requires forall t': nat, c': nat :: Fits(line, t', c') ==> t' < t || (t' == t && c' <= c)
    ensures Locate(line) == Some((t, c))
  {
    FitsTailAt(line, t, c);
    NoLaterClock(line, t, c);
    LocateMatches(line);
    var (t0, c0) := Locate(line).value;
    assert Fits(line, t0, c0);
    assert t0 < t || (t0 == t && c0 <= c);
    assert t0 == t && c0 == c;
    assert Locate(line).value == (t, c);
  }

  /** The split of the tail whose final blank run is taken whole is the one ParseTail finds. */
  lemma TailAtSplit(line: string, p: nat, s: TailSplit)
    requires TailFits(line, p, s)
    requires s.w == |line| || !IsSpace(line[s.w])
    ensures ParseTail(line, p) == Some(s)
  {
    ParseTailComplete(line, p, s);
  }

  /** Extract reads the submatches off the line at the boundaries of the split. */
  lemma ExtractAt(line: string, t: nat, c: nat, s: TailSplit)
    requires TimeAt(line, t)
    requires ConnectAt(line, c)
    requires ParseTail(line, c + |ConnectWord|) == Some(s)
    ensures Extract(line, t, c) == Captures(line[t..t + 8], [line[c + |ConnectWord|]], line[s.r + s.b + 1..s.f], line[s.w..])
  {
  }
}
