/**
 `Shared_name`: names built with `/=` and `+=`, the check sanitized(), and sanitize(), which rewrites the name
 in place in one pass with a reading and a writing position.
 */
module SharedNames {

  const SEPARATOR := '_'
  const SEPARATOR_ALT := '/'
  const MAX_LENGTH := 75

  predicate IsAlnum(ch: char) {
    'A' <= ch <= 'Z' || 'a' <= ch <= 'z' || '0' <= ch <= '9'
  }

  predicate IsSeparator(ch: char) {
    ch == SEPARATOR || ch == SEPARATOR_ALT
  }

  predicate IsLegal(ch: char) {
    IsSeparator(ch) || IsAlnum(ch)
  }

  predicate AllLegal(s: string) {
    forall i | 0 <= i < |s| :: IsLegal(s[i])
  }

  /** One separator character only, and never two in a row. */
  predicate IsCanonical(s: string) {
    && (forall i | 0 <= i < |s| :: s[i] != SEPARATOR_ALT)
    && (forall i | 0 <= i < |s| - 1 :: !(s[i] == SEPARATOR && s[i + 1] == SEPARATOR))
  }

  predicate IsClean(s: string) {
    AllLegal(s) && IsCanonical(s)
  }

  /** The documented meaning of sanitized(). */
  predicate IsSanitized(s: string) {
    |s| <= MAX_LENGTH && IsClean(s)
  }

  function Normalize(ch: char): char {
    if ch == SEPARATOR_ALT then SEPARATOR else ch
  }

  predicate EndsWithSeparator(s: string) {
    s != [] && IsSeparator(s[|s| - 1])
  }

  /** Every run of separators becomes a single one; nothing else changes. */
  function Collapse(s: string): string {
    if s == [] then []
    else
      var before, ch := s[..|s| - 1], s[|s| - 1];
      if IsSeparator(ch) && EndsWithSeparator(before) then Collapse(before) else Collapse(before) + [Normalize(ch)]
  }

  /** What sanitize() decides: every character is legal and the collapsed name is short enough. */
  predicate Sanitizable(s: string) {
    AllLegal(s) && |Collapse(s)| <= MAX_LENGTH
  }

  function AfterSanitize(s: string): string {
    if Sanitizable(s) then Collapse(s) else s
  }

  // ----- Collapse -----

  lemma CollapseSnoc(s: string, ch: char)
    ensures Collapse(s + [ch]) ==
            if IsSeparator(ch) && EndsWithSeparator(s) then Collapse(s) else Collapse(s) + [Normalize(ch)]
  {
    assert (s + [ch])[..|s|] == s;
  }

  lemma {:induction false} CollapseEnd(s: string)
    ensures |Collapse(s)| <= |s| && (Collapse(s) == [] <==> s == [])
    ensures s != [] ==> Collapse(s)[|Collapse(s)| - 1] == Normalize(s[|s| - 1])
    ensures EndsWithSeparator(Collapse(s)) == EndsWithSeparator(s)
  {
    if s != [] {
      CollapseEnd(s[..|s| - 1]);
    }
  }

  lemma {:induction false} CollapseIsCanonical(s: string)
    ensures IsCanonical(Collapse(s))
  {
    if s != [] {
      CollapseIsCanonical(s[..|s| - 1]);
      CollapseEnd(s[..|s| - 1]);
    }
  }

  lemma LegalSnoc(s: string, ch: char)
    ensures AllLegal(s + [ch]) <==> AllLegal(s) && IsLegal(ch)
  {
    assert (s + [ch])[|s|] == ch;
    assert forall i | 0 <= i < |s| :: (s + [ch])[i] == s[i];
  }

  lemma {:induction false} CollapseLegal(s: string)
    ensures AllLegal(Collapse(s)) <==> AllLegal(s)
  {
    if s != [] {
      var before, ch := s[..|s| - 1], s[|s| - 1];
      CollapseLegal(before);
      assert s == before + [ch];
      LegalSnoc(before, ch);
      LegalSnoc(Collapse(before), Normalize(ch));
    }
  }

  lemma {:induction false} CanonicalIsFixed(s: string)
    requires IsCanonical(s)
    ensures Collapse(s) == s
  {
    if s != [] {
      CanonicalIsFixed(s[..|s| - 1]);
    }
  }

  /** Collapsing a front part first makes no difference, however the name goes on. */
  lemma {:induction false} CollapseFront(a: string, b: string)
    ensures Collapse(Collapse(a) + b) == Collapse(a + b)
    decreases |b|
  {
    if b == [] {
      assert a + b == a && Collapse(a) + b == Collapse(a);
      CollapseIsCanonical(a);
      CanonicalIsFixed(Collapse(a));
    } else {
      var before, ch := b[..|b| - 1], b[|b| - 1];
      CollapseFront(a, before);
      assert a + b == (a + before) + [ch];
      assert Collapse(a) + b == (Collapse(a) + before) + [ch];
      CollapseSnoc(a + before, ch);
      CollapseSnoc(Collapse(a) + before, ch);
      SameEnd(a, before);
    }
  }

  lemma SameEnd(a: string, b: string)
    ensures EndsWithSeparator(Collapse(a) + b) == EndsWithSeparator(a + b)
  {
    CollapseEnd(a);
    if b == [] {
      assert a + b == a && Collapse(a) + b == Collapse(a);
    }
  }

  /** Nor does collapsing a back part first. */
  lemma {:induction false} CollapseBack(a: string, b: string)
    ensures Collapse(a + Collapse(b)) == Collapse(a + b)
    ensures EndsWithSeparator(a + Collapse(b)) == EndsWithSeparator(a + b)
    decreases |b|
  {
    if b == [] {
      assert Collapse(b) == b;
    } else {
      var before, ch := b[..|b| - 1], b[|b| - 1];
      CollapseBack(a, before);
      assert a + b == (a + before) + [ch];
      CollapseSnoc(a + before, ch);
      CollapseEnd(before);
      if !(IsSeparator(ch) && EndsWithSeparator(before)) {
        assert a + Collapse(b) == (a + Collapse(before)) + [Normalize(ch)];
        CollapseSnoc(a + Collapse(before), Normalize(ch));
      }
    }
  }

  /** Position `i` survives: it is no separator, or the first one of its run. */
  predicate Survives(s: string, i: nat)
    requires i < |s|
  {
    !IsSeparator(s[i]) || i == 0 || !IsSeparator(s[i - 1])
  }

  function Survivors(s: string): seq<nat> {
    if s == [] then []
    else Survivors(s[..|s| - 1]) + if Survives(s, |s| - 1) then [|s| - 1] else []
  }

  /** Collapse without recursion: the characters at the surviving positions, in order, with one spelling of the
      separator. */
  lemma {:induction false} CollapseKeepsSurvivors(s: string)
    ensures AreSurvivors(s, Survivors(s), Collapse(s))
  {
    if s != [] {
      hide AreSurvivors;
      var n := |s| - 1;
      CollapseKeepsSurvivors(s[..n]);
      OneMoreSurvivor(s, Survivors(s[..n]), Collapse(s[..n]));
      assert Survives(s, n) <==> !(IsSeparator(s[n]) && EndsWithSeparator(s[..n]));
      assert Survivors(s) == Survivors(s[..n]) + if Survives(s, n) then [n] else [];
      assert Survivors(s[..n]) + [] == Survivors(s[..n]);
    }
  }

  /** `at` are the surviving positions, all of them and in order, and `kept` the characters there. */
  ghost predicate AreSurvivors(s: string, at: seq<nat>, kept: string) {
    && |kept| == |at|
    && (forall k | 0 <= k < |at| :: at[k] < |s| && kept[k] == if s[at[k]] == '/' then '_' else s[at[k]])
    && (forall k, l | 0 <= k < l < |at| :: at[k] < at[l])
    && (forall i | 0 <= i < |s| :: i in at <==> !Repeats(s, i))
  }

  predicate Repeats(s: string, i: nat)
    requires i < |s|
  {
    i > 0 && (s[i] == '_' || s[i] == '/') && (s[i - 1] == '_' || s[i - 1] == '/')
  }

  lemma OneMoreSurvivor(s: string, at: seq<nat>, kept: string)
    requires s != [] && AreSurvivors(s[..|s| - 1], at, kept)
    ensures var n := |s| - 1;
            if Survives(s, n) then AreSurvivors(s, at + [n], kept + [Normalize(s[n])]) else AreSurvivors(s, at, kept)
  {
    var n := |s| - 1;
    assert forall i | 0 <= i < n :: Repeats(s[..n], i) <==> Repeats(s, i);
    if Survives(s, n) {
      assert (at + [n])[|at|] == n;
      assert forall i | i in at :: i in at + [n];
    }
  }

  /** The name `s` is accepted, as `after`, if it has legal characters only and no more than 75 of them are kept; it is
      refused, and left alone, otherwise. */
  ghost predicate IsOutcome(s: string, ok: bool, after: string) {
    exists at, kept ::
      && AreSurvivors(s, at, kept)
      && (ok <==> |kept| <= 75 && forall i | 0 <= i < |s| :: s[i] in LEGAL)
      && after == if ok then kept else s
  }

  /** sanitize() in plain terms: the verdict and the name it leaves. */
  lemma SanitizeInPlainTerms(s: string)
    ensures IsOutcome(s, Sanitizable(s), AfterSanitize(s))
  {
    hide AreSurvivors, IsLegal, LEGAL;
    CollapseKeepsSurvivors(s);
    forall ch: char {
      LegalCharacters(ch);
    }
  }

  lemma SanitizedInPlainTerms(s: string)
    ensures IsSanitized(s) <==> && |s| <= 75 && (forall i | 0 <= i < |s| :: s[i] in LEGAL && s[i] != '/')
                                && forall i | 1 <= i < |s| :: s[i] != '_' || s[i - 1] != '_'
  {
    hide IsLegal, LEGAL;
    forall ch: char {
      LegalCharacters(ch);
    }
    assert (forall i | 1 <= i < |s| :: s[i] != '_' || s[i - 1] != '_') ==>
        forall i | 0 <= i < |s| - 1 :: !(s[i] == SEPARATOR && s[i + 1] == SEPARATOR);
  }

  const UPPER := "ABCDEFGHIJKLMNOPQRSTUVWXYZ"
  const LOWER := "abcdefghijklmnopqrstuvwxyz"
  const DIGITS := "0123456789"
  const LEGAL := UPPER + LOWER + DIGITS + "_/"

  lemma LegalCharacters(ch: char)
    ensures IsLegal(ch) <==> ch in LEGAL
  {
    IsUpper(ch);
    IsLower(ch);
    assert ch in DIGITS <==> '0' <= ch <= '9' by {
      assert '0' <= ch <= '9' ==> DIGITS[ch as int - '0' as int] == ch;
    }
  }

  lemma IsUpper(ch: char)
    ensures ch in UPPER <==> 'A' <= ch <= 'Z'
  {
    assert 'A' <= ch <= 'Z' ==> UPPER[ch as int - 'A' as int] == ch;
  }

  lemma IsLower(ch: char)
    ensures ch in LOWER <==> 'a' <= ch <= 'z'
  {
    assert 'a' <= ch <= 'z' ==> LOWER[ch as int - 'a' as int] == ch;
  }

  // ----- sanitize() and sanitized() agree -----

  /** What sanitize() reports is what sanitized() says about the name it leaves behind. */
  lemma SanitizeReportsSanitized(s: string)
    ensures Sanitizable(s) <==> IsSanitized(AfterSanitize(s))
  {
    CollapseLegal(s);
    CollapseIsCanonical(s);
    if IsSanitized(s) {
      CanonicalIsFixed(s);
    }
  }

  /** Exactly the sanitized names are accepted unchanged. */
  lemma SanitizedIffFixed(s: string)
    ensures IsSanitized(s) <==> Sanitizable(s) && Collapse(s) == s
  {
    CollapseIsCanonical(s);
    if IsSanitized(s) {
      CanonicalIsFixed(s);
    }
  }

  lemma SanitizeIsIdempotent(s: string)
    ensures AfterSanitize(AfterSanitize(s)) == AfterSanitize(s)
    ensures Sanitizable(AfterSanitize(s)) <==> Sanitizable(s)
  {
    SanitizeReportsSanitized(s);
    SanitizedIffFixed(AfterSanitize(s));
  }

  /** What `a /= b` stores. */
  function Joined(a: string, b: string): string {
    a + [SEPARATOR] + b
  }

  lemma LegalAppend(a: string, b: string)
    ensures AllLegal(a + b) <==> AllLegal(a) && AllLegal(b)
  {
    assert forall i | 0 <= i < |a| :: (a + b)[i] == a[i];
    assert forall i | 0 <= i < |b| :: (a + b)[|a| + i] == b[i];
  }

  /** Sanitizing two fragments before joining them with `/` changes neither the verdict on the whole nor the name. */
  lemma SanitizeThenJoin(a: string, b: string)
    ensures Sanitizable(Joined(AfterSanitize(a), AfterSanitize(b))) <==> Sanitizable(Joined(a, b))
    ensures Collapse(Joined(AfterSanitize(a), AfterSanitize(b))) == Collapse(Joined(a, b))
  {
    var a', b', sep := AfterSanitize(a), AfterSanitize(b), [SEPARATOR];
    assert Joined(a', b') == a' + (sep + b') && Joined(a, b') == a + (sep + b');
    assert Joined(a, b') == (a + sep) + b' && Joined(a, b) == (a + sep) + b;
    CollapseFront(a, sep + b');
    CollapseBack(a + sep, b);
    CollapseLegal(a);
    CollapseLegal(b);
    LegalAppend(a, sep + b');
    LegalAppend(a', sep + b');
    LegalAppend(a + sep, b);
    LegalAppend(a + sep, b');
  }

  // ----- Conventional names -----

  const ROOT_MAGIC := "libipc"
  const SENTINEL := "0"

  function ConventionalName(resourceType: string): string {
    Joined(Joined(Joined(Joined(Joined([], ROOT_MAGIC), resourceType), SENTINEL), SENTINEL), SENTINEL)
  }

  predicate HasSeparatorAtEdge(s: string) {
    s != [] && (s[0] == SEPARATOR || s[|s| - 1] == SEPARATOR)
  }

  /** A concatenation is clean iff both parts are and no two separators meet at the seam. */
  lemma CleanAppend(a: string, b: string)
    ensures IsClean(a + b) <==>
            IsClean(a) && IsClean(b) && !(a != [] && b != [] && a[|a| - 1] == SEPARATOR && b[0] == SEPARATOR)
  {
    var s := a + b;
    assert forall i | 0 <= i < |a| :: s[i] == a[i];
    assert forall i | 0 <= i < |b| :: s[|a| + i] == b[i];
    if IsClean(s) {
      forall i | 0 <= i < |b| - 1
        ensures !(b[i] == SEPARATOR && b[i + 1] == SEPARATOR)
      {
        assert !(s[|a| + i] == SEPARATOR && s[|a| + i + 1] == SEPARATOR);
      }
      assert a != [] && b != [] ==> !(s[|a| - 1] == SEPARATOR && s[|a| - 1 + 1] == SEPARATOR);
    }
  }

  /** The conventional name is absolute; it is sanitized iff the resource type is, is not empty, leaves room for the
      other fourteen characters, and neither starts nor ends with a separator. */
  lemma ConventionalNameIsSanitized(resourceType: string)
    ensures ConventionalName(resourceType) == "_libipc_" + resourceType + "_0_0_0"
    ensures IsSanitized(ConventionalName(resourceType)) <==>
            resourceType != [] && IsSanitized(resourceType) && !HasSeparatorAtEdge(resourceType)
            && |resourceType| <= 61
  {
    var front, back := "_libipc_", "_0_0_0";
    assert ConventionalName(resourceType) == front + (resourceType + back);
    CleanAppend(front, resourceType + back);
    CleanAppend(resourceType, back);
    assert IsClean(front) && IsClean(back);
  }

  // ----- The in-place pass -----

  lemma {:induction false} CollapsePrefixIsShorter(s: string, k: nat)
    requires k <= |s|
    ensures |Collapse(s[..k])| <= |Collapse(s)|
    decreases |s|
  {
    if k < |s| {
      assert s[..|s| - 1][..k] == s[..k];
      CollapsePrefixIsShorter(s[..|s| - 1], k);
    } else {
      assert s[..k] == s;
    }
  }

  /** Reading on through a run of separators adds nothing. */
  lemma {:induction false} SkipRun(s: string, p: nat, q: nat)
    requires p < q <= |s| && forall i | p <= i < q :: IsSeparator(s[i])
    ensures Collapse(s[..q]) == Collapse(s[..p + 1])
    decreases q
  {
    if p + 1 < q {
      SkipRun(s, p, q - 1);
      assert s[..q][..q - 1] == s[..q - 1];
    }
  }

  /** The next character read in the pass: after a separator there is never another one. */
  lemma ReadNext(s: string, p: nat)
    requires p < |s| && (p > 0 && IsSeparator(s[p - 1]) ==> !IsSeparator(s[p]))
    ensures Collapse(s[..p + 1]) == Collapse(s[..p]) + [Normalize(s[p])]
  {
    assert s[..p + 1] == s[..p] + [s[p]];
    CollapseSnoc(s[..p], s[p]);
  }

  /** A full output buffer with a character still to come means the name cannot be sanitized. */
  lemma TooLong(s: string, p: nat)
    requires p < |s| && (p > 0 && IsSeparator(s[p - 1]) ==> !IsSeparator(s[p]))
    requires |Collapse(s[..p])| >= MAX_LENGTH
    ensures !Sanitizable(s)
  {
    ReadNext(s, p);
    CollapsePrefixIsShorter(s, p + 1);
  }

  lemma IllegalCharacter(s: string, p: nat)
    requires p < |s| && !IsLegal(s[p])
    ensures !Sanitizable(s)
  {
  }

  lemma NothingRead()
    ensures Collapse([]) == [] && AllLegal([])
  {
  }

  const NPOS: int := -1

  /** `find_first_not_of(SEPS, from)`. */
  method FindFirstNonSeparator(s: string, from: nat) returns (pos: int)
    requires from <= |s|
    ensures pos == NPOS ==> forall i | from <= i < |s| :: IsSeparator(s[i])
    ensures pos != NPOS ==> from <= pos < |s| && !IsSeparator(s[pos]) && forall i | from <= i < pos :: IsSeparator(s[i])
  {
    for i := from to |s|
      invariant forall k | from <= k < i :: IsSeparator(s[k])
    {
      if !IsSeparator(s[i]) {
        return i;
      }
    }
    return NPOS;
  }

  class SharedName {
    var rawName: string

    constructor (raw: string)
      ensures rawName == raw
    {
      rawName := raw;
    }

    /** `+=` */
    method Append(raw: string)
      modifies this
      ensures rawName == old(rawName) + raw
    {
      rawName := rawName + raw;
    }

    /** `/=` */
    method AppendFolder(raw: string)
      modifies this
      ensures rawName == old(rawName) + "_" + raw == Joined(old(rawName), raw)
    {
      rawName := rawName + [SEPARATOR];
      Append(raw);
    }

    method Absolute() returns (yes: bool)
      ensures yes <==> "_" <= rawName
    {
      yes := rawName != [] && rawName[0] == SEPARATOR;
    }

    /** sanitized() */
    method Sanitized() returns (yes: bool)
      ensures yes <==> IsSanitized(rawName)
      ensures yes <==> && |rawName| <= 75 && (forall i | 0 <= i < |rawName| :: rawName[i] in LEGAL && rawName[i] != '/')
                       && forall i | 1 <= i < |rawName| :: rawName[i] != '_' || rawName[i - 1] != '_'
    {
      hide LEGAL;
      SanitizedInPlainTerms(rawName);
      if |rawName| > MAX_LENGTH {
        return false;
      }
      var prevIsSep := false;
      for i := 0 to |rawName|
        invariant prevIsSep <==> i > 0 && rawName[i - 1] == SEPARATOR
        invariant forall k | 0 <= k < i :: rawName[k] == SEPARATOR || IsAlnum(rawName[k])
        invariant forall k | 0 <= k < i - 1 :: !(rawName[k] == SEPARATOR && rawName[k + 1] == SEPARATOR)
      {
        var isSep := rawName[i] == SEPARATOR;
        if !isSep && !IsAlnum(rawName[i]) {
          return false;
        }
        if isSep {
          if prevIsSep {
            assert rawName[i - 1] == SEPARATOR && rawName[i - 1 + 1] == SEPARATOR;
            return false;
          }
          prevIsSep := true;
        } else {
          prevIsSep := false;
        }
      }
      return true;
    }

    /** Where the pass stands: read up to `inPos`, all legal; written up to `outPos`; the rest untouched. */
    ghost predicate InPass(original: string, inPos: nat, outPos: nat)
      reads this
    {
      && outPos <= inPos <= |rawName| == |original| && outPos <= MAX_LENGTH
      && rawName[..outPos] == Collapse(original[..inPos]) && rawName[inPos..] == original[inPos..]
      && AllLegal(original[..inPos])
      && (0 < inPos < |original| && IsSeparator(original[inPos - 1]) ==> !IsSeparator(original[inPos]))
    }

    /** There is a backup once anything was changed, except by a final write after which nothing can fail. */
    ghost predicate CanUndo(original: string, inPos: nat, backup: string)
      reads this
    {
      if backup == [] then inPos < |original| ==> rawName == original else backup == original
    }

    method Undo(backup: string, ghost original: string, ghost inPos: nat)
      requires CanUndo(original, inPos, backup) && inPos < |original|
      modifies this
      ensures rawName == original
    {
      if backup != [] {
        rawName := backup;
      }
    }

    /** Having read a separator at `inPos`: the last position of its run, and whether the name ends there. */
    method EndOfRun(inPos: nat) returns (last: nat, isLast: bool)
      requires inPos < |rawName| && IsSeparator(rawName[inPos])
      ensures inPos <= last < |rawName| && isLast == (last == |rawName| - 1)
      ensures forall i | inPos <= i <= last :: IsSeparator(rawName[i])
      ensures !isLast ==> !IsSeparator(rawName[last + 1])
    {
      last, isLast := inPos, inPos == |rawName| - 1;
      if !isLast {
        var next := FindFirstNonSeparator(rawName, inPos + 1);
        if next == NPOS {
          last := |rawName| - 1;
          isLast := true;
        } else {
          last := next - 1;
        }
      }
    }

    /** Writes the next output character, backing the name up first if this is the first change and not the end. */
    method WriteOut(outPos: nat, ch: char, isLast: bool, backup: string, ghost original: string, ghost last: nat)
      returns (backup': string)
      requires outPos <= last < |rawName| == |original| && isLast == (last == |original| - 1)
      requires CanUndo(original, last, backup)
      modifies this
      ensures rawName == old(rawName)[outPos := ch] && CanUndo(original, last + 1, backup')
    {
      backup' := backup;
      if rawName[outPos] != ch {
        if backup == [] && !isLast {
          backup' := rawName;
        }
        rawName := rawName[outPos := ch];
      }
    }

    /** sanitize(): one pass, overwriting what was already read; all undone if it fails. */
    method Sanitize() returns (ok: bool)
      modifies this
      ensures ok <==> Sanitizable(old(rawName))
      ensures rawName == AfterSanitize(old(rawName))
      ensures IsOutcome(old(rawName), ok, rawName)
    {
      hide IsOutcome, LEGAL, Collapse, AllLegal;
      SanitizeInPlainTerms(rawName);
      NothingRead();
      if rawName == [] {
        return true;
      }
      ghost var original := rawName;
      var backup := [];
      var n := |rawName|;
      var inPos, outPos := 0, 0;
      while inPos != n
        invariant n == |original| && InPass(original, inPos, outPos) && CanUndo(original, inPos, backup)
        decreases n - inPos
      {
        if outPos >= MAX_LENGTH {
          TooLong(original, inPos);
          Undo(backup, original, inPos);
          return false;
        }
        var ch := rawName[inPos];
        assert ch == rawName[inPos..][0] == original[inPos];
        var isSep := ch == SEPARATOR || ch == SEPARATOR_ALT;
        if !isSep && !IsAlnum(ch) {
          IllegalCharacter(original, inPos);
          Undo(backup, original, inPos);
          return false;
        }
        var last, isLast := inPos, inPos == n - 1;
        if isSep {
          ch := SEPARATOR;
          last, isLast := EndOfRun(inPos);
        }
        assert rawName[inPos..] == original[inPos..];
        OneOutput(original, rawName, inPos, last, outPos, ch);
        backup := WriteOut(outPos, ch, isLast, backup, original, last);
        inPos, outPos := last + 1, outPos + 1;
      }
      assert original[..n] == original;
      rawName := rawName[..outPos];
      return true;
    }
  }

  /** Reading one character, or one whole run of separators, makes the output one character longer. */
  lemma OneOutput(original: string, name: string, p: nat, last: nat, outPos: nat, ch: char)
    requires outPos <= p <= last < |original| == |name| && name[p..] == original[p..]
    requires name[..outPos] == Collapse(original[..p]) && AllLegal(original[..p]) && ch == Normalize(original[p])
    requires p > 0 && IsSeparator(original[p - 1]) ==> !IsSeparator(original[p])
    requires if IsSeparator(original[p]) then forall i | p <= i <= last :: IsSeparator(name[i])
             else last == p && IsLegal(original[p])
    ensures name[outPos := ch][..outPos + 1] == Collapse(original[..last + 1])
    ensures name[outPos := ch][last + 1..] == original[last + 1..] && AllLegal(original[..last + 1])
    ensures forall i | p <= i < |name| :: original[i] == name[i]
  {
    forall i | p <= i < |name|
      ensures original[i] == name[i]
    {
      assert original[p..][i - p] == name[p..][i - p];
    }
    ReadNext(original, p);
    if IsSeparator(original[p]) {
      SkipRun(original, p, last + 1);
    }
    RunIsLegal(original, p, last + 1);
    assert name[outPos := ch][..outPos + 1] == name[..outPos] + [ch];
  }

  lemma RunIsLegal(s: string, p: nat, q: nat)
    requires p < q <= |s| && AllLegal(s[..p]) && forall i | p <= i < q :: IsLegal(s[i])
    ensures AllLegal(s[..q])
  {
    forall i | 0 <= i < q
      ensures IsLegal(s[..q][i])
    {
      if i < p {
        assert s[..p][i] == s[i];
      }
    }
  }

  // ----- Removing persistent objects by name -----

  predicate Distinct(names: seq<string>) {
    forall i, j | 0 <= i < j < |names| :: names[i] != names[j]
  }

  /** Names with kernel persistence; removing one may fail. */
  class PersistentObjects {
    var names: set<string>
    const irremovable: set<string>

    constructor (names: set<string>, irremovable: set<string>)
      ensures this.names == names && this.irremovable == irremovable
    {
      this.names, this.irremovable := names, irremovable;
    }

    /** remove_persistent(): an error if the name does not exist or must stay. */
    method RemovePersistent(name: string) returns (failed: bool)
      modifies this
      ensures failed == (name !in old(names) || name in irremovable)
      ensures names == if failed then old(names) else old(names) - {name}
    {
      failed := name !in names || name in irremovable;
      if !failed {
        names := names - {name};
      }
    }

    /** remove_each_persistent_if(): `listing` is the order in which the directory lists the names. */
    method RemoveEachIf(listing: seq<string>, filter: string -> bool) returns (count: nat)
      requires Distinct(listing) && (set name | name in listing) == names
      modifies this
      ensures names == set name | name in old(names) && (!filter(name) || name in irremovable)
      ensures count == |old(names)| - |names|
    {
      count := 0;
      for i := 0 to |listing|
        invariant names == set name | name in old(names) && (name in listing[i..] || !filter(name) || name in irremovable)
        invariant count == |old(names)| - |names|
      {
        assert listing[i..] == [listing[i]] + listing[i + 1..];
        assert listing[i] in old(names);
        if filter(listing[i]) {
          var failed := RemovePersistent(listing[i]);
          if !failed {
            count := count + 1;
          }
        }
      }
    }

    /** remove_each_persistent_with_name_prefix(): with an empty prefix everything matches. */
    method RemoveEachWithNamePrefix(listing: seq<string>, prefix: string) returns (count: nat)
      requires Distinct(listing) && (set name | name in listing) == names
      modifies this
      ensures names == set name | name in old(names) && (!(prefix <= name) || name in irremovable)
      ensures count == |old(names)| - |names|
    {
      count := RemoveEachIf(listing, (name: string) => prefix == [] || prefix <= name);
    }
  }
}
