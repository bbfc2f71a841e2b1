// ServerLogger::FilterSensitiveInfo: the in-place loop that masks quoted values after "password".
module Redaction {

  const KEY_LENGTH := 8
  const MASK := "***"

  // ---- std::string::find, with -1 for npos ----

  // "password" starts at p.
  predicate MatchAt(s: string, p: nat) {
    && p + KEY_LENGTH <= |s|
    && s[p] == 'p' && s[p + 1] == 'a' && s[p + 2] == 's' && s[p + 3] == 's'
    && s[p + 4] == 'w' && s[p + 5] == 'o' && s[p + 6] == 'r' && s[p + 7] == 'd'
  }

  lemma MatchIsKey(s: string, p: nat)
    ensures MatchAt(s, p) <==> p + KEY_LENGTH <= |s| && s[p..p + KEY_LENGTH] == "password"
  {
    if p + KEY_LENGTH <= |s| {
      var w := s[p..p + KEY_LENGTH];
      assert w == [s[p], s[p + 1], s[p + 2], s[p + 3], s[p + 4], s[p + 5], s[p + 6], s[p + 7]];
    }
  }

  function FindKey(s: string, start: nat): (r: int)
    ensures r >= 0 ==> start <= r && MatchAt(s, r) && forall q :: start <= q < r ==> !MatchAt(s, q)
    ensures r < 0 ==> r == -1 && forall q: nat :: start <= q ==> !MatchAt(s, q)
    decreases |s| - start
  {
    if start + KEY_LENGTH > |s| then -1 else if MatchAt(s, start) then start else FindKey(s, start + 1)
  }

  function FindChar(s: string, c: char, start: nat): (r: int)
    ensures r >= 0 ==> start <= r < |s| && s[r] == c && forall q :: start <= q < r ==> s[q] != c
    ensures r < 0 ==> r == -1 && forall q :: start <= q < |s| ==> s[q] != c
    decreases |s| - start
  {
    if start >= |s| then -1 else if s[start] == c then start else FindChar(s, c, start + 1)
  }

  lemma FindCharIs(s: string, c: char, start: nat, i: nat)
    requires start <= i < |s| && s[i] == c && forall q :: start <= q < i ==> s[q] != c
    ensures FindChar(s, c, start) == i
  {
  }

  // ---- a password followed by a quoted value ----

  // The first colon at or after the key, and the quote that closes the value behind it.
  function Colon(s: string, p: nat): int { FindChar(s, ':', p) }

  function Close(s: string, p: nat): int
    requires Colon(s, p) >= 0
  {
    FindChar(s, '"', Colon(s, p) + 2)
  }

  predicate Qualifies(s: string, p: nat) {
    && MatchAt(s, p)
    && Colon(s, p) >= 0 && Colon(s, p) + 1 < |s| && s[Colon(s, p) + 1] == '"'
    && Close(s, p) >= 0
  }

  function Value(s: string, p: nat): string
    requires Qualifies(s, p)
  {
    s[Colon(s, p) + 2..Close(s, p)]
  }

  function FirstSecret(s: string, start: nat): (r: int)
    ensures r >= 0 ==> start <= r && Qualifies(s, r) && forall q :: start <= q < r ==> !Qualifies(s, q)
    ensures r < 0 ==> r == -1 && forall q: nat :: start <= q ==> !Qualifies(s, q)
    decreases |s| - start
  {
    if start >= |s| then -1 else if Qualifies(s, start) then start else FirstSecret(s, start + 1)
  }

  // ---- what the loop computes, in the coordinates of its input ----

  // The loop resumes at the old position of the closing quote, so it jumps over as many characters
  // after the quote as the value was longer than the mask.
  function Jump(length: nat): nat { if length > |MASK| then length - |MASK| else 0 }

  lemma SecretShape(s: string, p: nat)
    requires Qualifies(s, p)
    ensures p + KEY_LENGTH <= Colon(s, p) && Colon(s, p) + 2 <= Close(s, p) < |s|
    ensures s[Close(s, p)] == '"' && '"' !in Value(s, p)
  {
  }

  function Scan(s: string, skip: nat): string
    decreases |s|, 1
  {
    var p := FirstSecret(s, skip);
    if p < 0 then s else MaskFrom(s, p)
  }

  function MaskFrom(s: string, p: nat): string
    requires Qualifies(s, p)
    decreases |s|, 0
  {
    SecretShape(s, p);
    Head(s, p) + Scan(Tail(s, p), Jump(|Value(s, p)|))
  }

  // Up to and including the closing quote, masked; and what follows it.
  function Head(s: string, p: nat): string
    requires Qualifies(s, p)
  {
    s[..Colon(s, p) + 2] + MASK + "\""
  }

  function Tail(s: string, p: nat): string
    requires Qualifies(s, p)
  {
    s[Close(s, p) + 1..]
  }

  // ---- the loop ----

  lemma MatchShift(a: string, b: string, p: nat)
    ensures MatchAt(a + b, |a| + p) <==> MatchAt(b, p)
  {
  }

  lemma {:induction false} FindCharShift(a: string, b: string, c: char, start: nat)
    ensures FindChar(a + b, c, |a| + start) == (if FindChar(b, c, start) < 0 then -1 else |a| + FindChar(b, c, start))
    decreases |b| - start
  {
    if start < |b| && b[start] != c { FindCharShift(a, b, c, start + 1); }
  }

  lemma ColonShift(a: string, b: string, p: nat)
    requires Colon(b, p) >= 0
    ensures Colon(a + b, |a| + p) == |a| + Colon(b, p)
    ensures Close(a + b, |a| + p) == if Close(b, p) < 0 then -1 else |a| + Close(b, p)
  {
    FindCharShift(a, b, ':', p);
    FindCharShift(a, b, '"', Colon(b, p) + 2);
  }

  lemma SecretShift(a: string, b: string, p: nat)
    ensures Qualifies(a + b, |a| + p) <==> Qualifies(b, p)
    ensures Qualifies(b, p) ==>
      Colon(a + b, |a| + p) == |a| + Colon(b, p) && Close(a + b, |a| + p) == |a| + Close(b, p) &&
      Value(a + b, |a| + p) == Value(b, p)
  {
    MatchShift(a, b, p);
    if Colon(b, p) >= 0 {
      ColonShift(a, b, p);
    } else {
      FindCharShift(a, b, ':', p);
    }
  }

  // Nothing that qualifies lies between two starting points: the search is the same from either.
  lemma {:induction false} FirstSkips(s: string, k: nat, k': nat)
    requires k <= k' && forall q :: k <= q < k' ==> !Qualifies(s, q)
    ensures FirstSecret(s, k) == FirstSecret(s, k')
    decreases k' - k
  {
    if k < k' {
      assert !Qualifies(s, k);
      FirstSkips(s, k + 1, k');
      if k >= |s| { assert FirstSecret(s, k') == -1; }
    }
  }

  function Back(pos: int, length: nat): nat { if pos > length then pos - length else 0 }

  // What the loop knows: the edited part ends at |done|, nothing matches between `pos` and there,
  // and the rest of the work is the scan of what has not been edited.
  ghost predicate Progress(message: string, result: string, done: string, rest: string, pos: nat) {
    && result == done + rest
    && Scan(message, 0) == done + Scan(rest, Back(pos, |done|))
    && forall q :: pos <= q < |done| ==> !MatchAt(result, q)
  }

  // The string with the value at `p` masked in place.
  function Edit(s: string, p: nat): string
    requires Qualifies(s, p)
  {
    s[..Colon(s, p) + 2] + MASK + s[Close(s, p)..]
  }

  // The body of the loop at a match: replace the value if there is one, and say where to go on.
  method MaskAt(s: string, pos: nat) returns (masked: bool, result: string, next: nat)
    requires MatchAt(s, pos)
    ensures masked <==> Qualifies(s, pos)
    ensures masked ==> result == Edit(s, pos) && next == Close(s, pos) + 1
    ensures !masked ==> result == s && next == pos + 1
  {
    var colonPos := FindChar(s, ':', pos);
    if colonPos >= 0 && colonPos + 1 < |s| {
      if s[colonPos + 1] == '"' {
        var valueStart := colonPos + 2;
        var valueEnd := FindChar(s, '"', valueStart);
        if valueEnd >= 0 {
          return true, s[..valueStart] + MASK + s[valueEnd..], valueEnd + 1;
        }
      }
    }
    return false, s, pos + 1;
  }

  // The loop: `result` is edited in place and may grow while it is being scanned.
  method FilterSensitiveInfo(message: string) returns (result: string)
    ensures result == Scan(message, 0)
  {
    result := message;
    var pos: nat := 0;
    ghost var done, rest := "", message;
    while true
      invariant Progress(message, result, done, rest, pos)
      decreases |result| - pos
    {
      var found := FindKey(result, pos);
      if found < 0 {
        NoneLeft(message, result, done, rest, pos);
        return;
      }
      Found(message, result, done, rest, pos, found);
      var masked, edited, next := MaskAt(result, found);
      ghost var p := found - |done|;
      if masked {
        Masked(message, result, done, rest, found);
        EditShrinksWork(result, found);
        done, rest := done + Head(rest, p), Tail(rest, p);
      } else {
        Passed(message, result, done, rest, found);
      }
      result, pos := edited, next;
    }
  }

  // The string may grow, but what is left to scan shrinks.
  lemma EditShrinksWork(s: string, p: nat)
    requires Qualifies(s, p)
    ensures |Edit(s, p)| - (Close(s, p) + 1) < |s| - p
  {
    SecretShape(s, p);
  }

  lemma NoneLeft(message: string, result: string, done: string, rest: string, pos: nat)
    requires Progress(message, result, done, rest, pos)
    requires forall q: nat :: pos <= q ==> !MatchAt(result, q)
    ensures result == Scan(message, 0)
  {
    var k := Back(pos, |done|);
    if FirstSecret(rest, k) >= 0 {
      MatchShift(done, rest, FirstSecret(rest, k));
    }
  }

  // The match is in the part not edited yet, and nothing before it qualifies.
  lemma Found(message: string, result: string, done: string, rest: string, start: nat, pos: nat)
    requires Progress(message, result, done, rest, start)
    requires start <= pos && MatchAt(result, pos) && forall q :: start <= q < pos ==> !MatchAt(result, q)
    ensures pos >= |done| && Progress(message, result, done, rest, pos)
    ensures Qualifies(result, pos) <==> Qualifies(rest, pos - |done|)
  {
    var p := pos - |done|;
    NothingBetween(result, done, rest, start, pos);
    ScanSkips(rest, Back(start, |done|), p);
    SecretShift(done, rest, p);
  }

  lemma ScanSkips(s: string, k: nat, k': nat)
    requires k <= k' && forall q :: k <= q < k' ==> !Qualifies(s, q)
    ensures Scan(s, k) == Scan(s, k')
  {
    FirstSkips(s, k, k');
  }

  lemma NothingBetween(result: string, done: string, rest: string, start: nat, pos: nat)
    requires result == done + rest && |done| <= pos && forall q :: start <= q < pos ==> !MatchAt(result, q)
    ensures forall q :: Back(start, |done|) <= q < pos - |done| ==> !Qualifies(rest, q)
  {
    forall q | Back(start, |done|) <= q < pos - |done| ensures !Qualifies(rest, q) {
      MatchShift(done, rest, q);
      assert !MatchAt(result, |done| + q);
    }
  }

  lemma Passed(message: string, result: string, done: string, rest: string, pos: nat)
    requires pos >= |done| && Progress(message, result, done, rest, pos) && !Qualifies(rest, pos - |done|)
    ensures Progress(message, result, done, rest, pos + 1)
  {
    ScanSkips(rest, pos - |done|, pos + 1 - |done|);
  }

  lemma EditSplits(done: string, rest: string, p: nat)
    requires Qualifies(rest, p) && Qualifies(done + rest, |done| + p)
    ensures Edit(done + rest, |done| + p) == done + Head(rest, p) + Tail(rest, p)
    ensures |done + Head(rest, p)| == |done| + Colon(rest, p) + 6
    ensures Close(done + rest, |done| + p) == |done| + Close(rest, p)
  {
    var s := done + rest;
    SecretShape(rest, p);
    SecretShape(s, |done| + p);
    SecretShift(done, rest, p);
    assert s[Close(s, |done| + p)..] == "\"" + Tail(rest, p);
    assert s[..Colon(s, |done| + p) + 2] == done + rest[..Colon(rest, p) + 2];
  }

  // No key starts in the mask or at the closing quote.
  lemma NoKeyInMask(done: string, rest: string, p: nat, q: nat)
    requires Qualifies(rest, p) && |done| + Colon(rest, p) + 2 <= q < |done| + Colon(rest, p) + 6
    ensures !MatchAt(done + Head(rest, p) + Tail(rest, p), q)
  {
    var edited := done + Head(rest, p) + Tail(rest, p);
    SecretShape(rest, p);
    assert edited[q] == Head(rest, p)[q - |done|] != 'p';
  }

  lemma ScanAtSecret(s: string, p: nat)
    requires Qualifies(s, p)
    ensures Scan(s, p) == Head(s, p) + Scan(Tail(s, p), Jump(|Value(s, p)|))
  {
    assert FirstSecret(s, p) == p;
  }

  lemma MaskedFree(result: string, done: string, rest: string, pos: nat)
    requires pos >= |done| && result == done + rest && Qualifies(result, pos) && Qualifies(rest, pos - |done|)
    ensures var done' := done + Head(rest, pos - |done|);
            && Back(Close(result, pos) + 1, |done'|) == Jump(|Value(rest, pos - |done|)|)
            && forall q :: Close(result, pos) + 1 <= q < |done'| ==> !MatchAt(Edit(result, pos), q)
  {
    var p := pos - |done|;
    EditSplits(done, rest, p);
    SecretShape(rest, p);
    forall q | Close(result, pos) + 1 <= q < |done + Head(rest, p)| ensures !MatchAt(Edit(result, pos), q) {
      NoKeyInMask(done, rest, p, q);
    }
  }

  lemma Masked(message: string, result: string, done: string, rest: string, pos: nat)
    requires pos >= |done| && Progress(message, result, done, rest, pos)
    requires Qualifies(result, pos) && Qualifies(rest, pos - |done|)
    ensures Progress(message, Edit(result, pos), done + Head(rest, pos - |done|), Tail(rest, pos - |done|),
                     Close(result, pos) + 1)
  {
    var p := pos - |done|;
    EditSplits(done, rest, p);
    ScanAtSecret(rest, p);
    MaskedFree(result, done, rest, pos);
    var head, tail := Head(rest, p), Scan(Tail(rest, p), Jump(|Value(rest, p)|));
    assert done + (head + tail) == (done + head) + tail;
  }
}
