// What FilterSensitiveInfo does to a message: which spans it replaces, how much it can grow, and
// exactly when it masks every password.
module RedactionTheorems {
  import opened Redaction

  // ---- the replaced spans ----

  datatype Span = Span(start: nat, end: nat)

  // s[base..] with every span replaced by the mask.
  function Splice(s: string, base: nat, spans: seq<Span>): string
    requires InOrder(s, base, spans)
    decreases |spans|
  {
    if spans == [] then s[base..]
    else s[base..spans[0].start] + (MASK + Splice(s, spans[0].end, spans[1..]))
  }

  // Disjoint, in order, from base on.
  ghost predicate InOrder(s: string, base: nat, spans: seq<Span>)
    decreases |spans|
  {
    base <= |s| &&
    (spans != [] ==>
       var v := spans[0];
       && base <= v.start <= v.end < |s| && InOrder(s, v.end, spans[1..]))
  }

  ghost predicate QuotedValue(s: string, v: Span) {
    && 2 <= v.start <= v.end < |s|
    && s[v.start - 2] == ':' && s[v.start - 1] == '"' && s[v.end] == '"'
    && '"' !in s[v.start..v.end]
  }

  // The span of the secret at p of s[base..], in the coordinates of s.
  function SpanAt(s: string, base: nat, p: nat): (v: Span)
    requires base <= |s| && Qualifies(s[base..], p)
    ensures base + KEY_LENGTH + 2 <= v.start <= v.end < |s| && QuotedValue(s, v)
  {
    SecretShape(s[base..], p);
    var v := Span(base + Colon(s[base..], p) + 2, base + Close(s[base..], p));
    assert s[v.start..v.end] == Value(s[base..], p);
    v
  }

  lemma UnfoldScan(t: string, skip: nat, p: nat)
    requires p == FirstSecret(t, skip) && Qualifies(t, p)
    ensures Scan(t, skip) == Head(t, p) + Scan(Tail(t, p), Jump(|Value(t, p)|))
  {
  }

  // The output up to the closing quote of the first secret, in the coordinates of s.
  lemma ScanInPlace(s: string, base: nat, skip: nat, p: nat, v: Span) returns (rest: string)
    requires base <= |s| && p == FirstSecret(s[base..], skip) && Qualifies(s[base..], p) && v == SpanAt(s, base, p)
    ensures rest == Scan(s[v.end + 1..], Jump(|Value(s[base..], p)|))
    ensures Scan(s[base..], skip) == s[base..v.start] + MASK + "\"" + rest
  {
    UnfoldScan(s[base..], skip, p);
    assert Tail(s[base..], p) == s[v.end + 1..];
    rest := Scan(Tail(s[base..], p), Jump(|Value(s[base..], p)|));
    assert s[base..v.start] == s[base..][..Colon(s[base..], p) + 2];
  }

  // `out` is s[base..] with these disjoint quoted values masked and everything else unchanged; each
  // of them uses up at least 11 characters: the key, the colon and the two quotes.
  ghost predicate Masks(s: string, base: nat, spans: seq<Span>, out: string) {
    && InOrder(s, base, spans) && out == Splice(s, base, spans)
    && (forall v :: v in spans ==> QuotedValue(s, v))
    && 11 * |spans| <= |s| - base && |out| <= |s| - base + 3 * |spans|
  }

  // The output is the input with disjoint quoted values replaced by *** and all else unchanged.
  lemma {:induction false} ScanIsSplice(s: string, base: nat, skip: nat) returns (spans: seq<Span>)
    requires base <= |s|
    ensures Masks(s, base, spans, Scan(s[base..], skip))
    decreases |s| - base
  {
    spans := [];
    var p := FirstSecret(s[base..], skip);
    if p >= 0 {
      var v, k := SpanAt(s, base, p), Jump(|Value(s[base..], p)|);
      var later := ScanIsSplice(s, v.end + 1, k);
      spans := [v] + later;
      MasksFrom(s, base, skip, p, v, later);
    }
  }

  // The spans behind the first secret, with its own in front.
  lemma MasksFrom(s: string, base: nat, skip: nat, p: nat, v: Span, later: seq<Span>)
    requires base <= |s| && p == FirstSecret(s[base..], skip) && Qualifies(s[base..], p) && v == SpanAt(s, base, p)
    requires Masks(s, v.end + 1, later, Scan(s[v.end + 1..], Jump(|Value(s[base..], p)|)))
    ensures Masks(s, base, [v] + later, Scan(s[base..], skip))
  {
    var rest := ScanInPlace(s, base, skip, p, v);
    SpliceStep(s, base, v, later, rest);
  }

  lemma SpliceStep(s: string, base: nat, v: Span, spans: seq<Span>, rest: string)
    requires base + KEY_LENGTH + 2 <= v.start <= v.end < |s| && QuotedValue(s, v)
    requires Masks(s, v.end + 1, spans, rest)
    ensures Masks(s, base, [v] + spans, s[base..v.start] + MASK + "\"" + rest)
  {
    QuoteFirst(s, v.end, spans);
    assert ([v] + spans)[1..] == spans;
    Regroup(s[base..v.start], MASK, "\"" + rest);
    Regroup(s[base..v.start] + MASK, "\"", rest);
  }

  // A splice that starts at a closing quote keeps the quote.
  lemma QuoteFirst(s: string, end: nat, spans: seq<Span>)
    requires end < |s| && s[end] == '"' && InOrder(s, end + 1, spans)
    ensures InOrder(s, end, spans)
    ensures Splice(s, end, spans) == "\"" + Splice(s, end + 1, spans)
  {
    if spans == [] {
      assert s[end..] == "\"" + s[end + 1..];
    } else {
      var gap, rest := s[end + 1..spans[0].start], MASK + Splice(s, spans[0].end, spans[1..]);
      assert s[end..spans[0].start] == "\"" + gap;
      Regroup("\"", gap, rest);
    }
  }

  lemma Regroup(a: string, b: string, c: string)
    ensures (a + b) + c == a + (b + c)
  {
  }

  // The output is longer than the input by at most 3 for every 11 characters.
  lemma GrowthBound(s: string)
    ensures |Scan(s, 0)| <= |s| + 3 * (|s| / 11)
  {
    var spans := ScanIsSplice(s, 0, 0);
    assert s[0..] == s;
  }

  // The message made of n empty passwords.
  function EmptyPasswords(n: nat): string { if n == 0 then "" else "password:\"\"" + EmptyPasswords(n - 1) }

  // It attains the bound, for every n.
  lemma GrowthIsTight(n: nat)
    ensures |EmptyPasswords(n)| == 11 * n && |Scan(EmptyPasswords(n), 0)| == 14 * n
  {
    EmptyPasswordsLength(n);
    EmptyPasswordsScan(n, EmptyPasswords(n));
  }

  lemma {:induction false} EmptyPasswordsScan(n: nat, s: string)
    requires s == EmptyPasswords(n)
    ensures |Scan(s, 0)| == 14 * n
    decreases n
  {
    if n == 0 {
      TooShort(s, 0);
    } else {
      var rest := EmptyPasswords(n - 1);
      EmptyPasswordsScan(n - 1, rest);
      EmptyPasswordGrows(s, rest);
    }
  }

  lemma {:induction false} EmptyPasswordsLength(n: nat)
    ensures |EmptyPasswords(n)| == 11 * n
  {
    if n > 0 { EmptyPasswordsLength(n - 1); }
  }

  lemma EmptyPasswordGrows(s: string, rest: string)
    requires s == "password:\"\"" + rest
    ensures |Scan(s, 0)| == 14 + |Scan(rest, 0)|
  {
    assert s == "password:\"" + "" + "\"" + rest;
    StartsWithPassword(s, "", rest);
  }

  // A message that starts with a password.
  lemma StartsWithPassword(s: string, value: string, rest: string)
    requires s == "password:\"" + value + "\"" + rest && '"' !in value
    ensures FirstSecret(s, 0) == 0 && Qualifies(s, 0) && Value(s, 0) == value && Tail(s, 0) == rest
    ensures Scan(s, 0) == "password:\"***\"" + Scan(rest, Jump(|value|))
  {
    PasswordShape(s, value, rest);
    UnfoldScan(s, 0, 0);
    assert Head(s, 0) == "password:\"***\"";
  }

  lemma PasswordShape(s: string, value: string, rest: string)
    requires s == "password:\"" + value + "\"" + rest && '"' !in value
    ensures Qualifies(s, 0) && Colon(s, 0) == 8 && Value(s, 0) == value && Tail(s, 0) == rest
    ensures FirstSecret(s, 0) == 0 && s[..10] == "password:\""
  {
    FindCharIs(s, ':', 0, 8);
    assert forall i :: 0 <= i < |value| ==> s[10 + i] == value[i];
    FindCharIs(s, '"', 10, 10 + |value|);
  }

  lemma TooShort(s: string, skip: nat)
    requires |s| < skip + KEY_LENGTH
    ensures FirstSecret(s, skip) < 0 && Scan(s, skip) == s
  {
  }

  // ---- completeness ----

  // Every password that is followed by a quoted value shows the mask.
  ghost predicate Clean(s: string) {
    forall p: nat :: p < |s| && Qualifies(s, p) ==> Value(s, p) == MASK
  }

  // No password is jumped over: wherever the loop resumes, each password it skips either already
  // shows the mask or shares its value with the next one the loop finds.
  ghost predicate NoneJumped(s: string, skip: nat)
    decreases |s|
  {
    var f := FirstSecret(s, skip);
    && (forall p: nat :: p < skip && p < |s| && Qualifies(s, p) ==>
          Value(s, p) == MASK || (f >= 0 && Colon(s, p) == Colon(s, f)))
    && (f >= 0 ==> NoneJumpedAfter(s, f))
  }

  ghost predicate NoneJumpedAfter(s: string, f: nat)
    requires Qualifies(s, f)
    decreases |s|, 0
  {
    SecretShape(s, f);
    NoneJumped(Tail(s, f), Jump(|Value(s, f)|))
  }

  // A key before the masked value keeps its colon.
  lemma KeysBeforeMask(s: string, f: nat, p: nat, t: string)
    requires Qualifies(s, f) && p < Colon(s, f) + 2
    ensures var out := Head(s, f) + t;
            && (forall q :: 0 <= q < Colon(s, f) + 2 ==> q < |out| && out[q] == s[q])
            && (MatchAt(out, p) <==> MatchAt(s, p))
            && (MatchAt(s, p) ==> p <= Colon(s, f) && Colon(out, p) == Colon(s, p) && 0 <= Colon(s, p) <= Colon(s, f))
  {
    var out := Head(s, f) + t;
    var c := Colon(s, f);
    SecretShape(s, f);
    assert forall q :: 0 <= q < c + 2 ==> out[q] == s[q];
    if p <= c {
      FindCharIs(out, ':', p, Colon(s, p));
    }
  }

  // If its colon is that of the masked value it shows the mask.
  lemma SharesMask(s: string, f: nat, p: nat, t: string)
    requires Qualifies(s, f) && p < Colon(s, f) + 2 && MatchAt(s, p) && Colon(s, p) == Colon(s, f)
    ensures Qualifies(s, p) && Qualifies(Head(s, f) + t, p) && Value(Head(s, f) + t, p) == MASK
  {
    var out, c := Head(s, f) + t, Colon(s, f);
    KeysBeforeMask(s, f, p, t);
    SecretShape(s, f);
    assert out[c + 2..c + 5] == MASK && out[c + 5] == '"';
    FindCharIs(out, '"', c + 2, c + 5);
  }

  // Otherwise it reads as it did in the input.
  lemma KeepsValue(s: string, f: nat, p: nat, t: string)
    requires Qualifies(s, f) && p < Colon(s, f) + 2 && MatchAt(s, p) && Colon(s, p) != Colon(s, f)
    ensures Qualifies(Head(s, f) + t, p) <==> Qualifies(s, p)
    ensures Qualifies(s, p) ==> Value(Head(s, f) + t, p) == Value(s, p)
  {
    var out, c, d := Head(s, f) + t, Colon(s, f), Colon(s, p);
    KeysBeforeMask(s, f, p, t);
    SecretShape(s, f);
    if s[d + 1] == '"' { CloseBefore(s, out, d, c); }
  }

  lemma BeforeMask(s: string, f: nat, p: nat, t: string)
    requires Qualifies(s, f) && p < Colon(s, f) + 2
    ensures var out := Head(s, f) + t;
            && (Qualifies(out, p) <==> Qualifies(s, p))
            && (Qualifies(s, p) && Colon(s, p) == Colon(s, f) ==> Value(out, p) == MASK)
            && (Qualifies(s, p) && Colon(s, p) != Colon(s, f) ==> Value(out, p) == Value(s, p))
  {
    KeysBeforeMask(s, f, p, t);
    if MatchAt(s, p) {
      if Colon(s, p) == Colon(s, f) { SharesMask(s, f, p, t); } else { KeepsValue(s, f, p, t); }
    }
  }

  // The closing quote of a value that starts before an opening quote at c + 1 is found before it.
  lemma CloseBefore(s: string, out: string, d: nat, c: nat)
    requires d < c && c + 1 < |s| && c + 1 < |out| && s[c] == ':' && s[c + 1] == '"'
    requires forall q :: 0 <= q < c + 2 ==> out[q] == s[q]
    ensures d + 2 <= FindChar(s, '"', d + 2) <= c + 1
    ensures FindChar(out, '"', d + 2) == FindChar(s, '"', d + 2)
    ensures out[d + 2..FindChar(s, '"', d + 2)] == s[d + 2..FindChar(s, '"', d + 2)]
  {
    var e := FindChar(s, '"', d + 2);
    FindCharIs(out, '"', d + 2, e);
  }

  // Behind the mask the output reads as the scan of the rest does.
  lemma AfterMask(s: string, f: nat, q: nat, t: string)
    requires Qualifies(s, f)
    ensures Qualifies(Head(s, f) + t, |Head(s, f)| + q) <==> Qualifies(t, q)
    ensures Qualifies(t, q) ==> Value(Head(s, f) + t, |Head(s, f)| + q) == Value(t, q)
  {
    SecretShift(Head(s, f), t, q);
  }

  lemma MaskHasNoKey(s: string, f: nat, t: string, p: nat)
    requires Qualifies(s, f) && Colon(s, f) + 2 <= p < Colon(s, f) + 6
    ensures !MatchAt(Head(s, f) + t, p)
  {
    var out := Head(s, f) + t;
    assert out[p] == Head(s, f)[p] != 'p';
  }

  // The head is clean when the keys the loop skipped are covered.
  lemma CleanHead(s: string, skip: nat, f: nat, t: string)
    requires FirstSecret(s, skip) == f
    ensures Clean(Head(s, f) + t) <==>
      Clean(t) && forall p: nat :: p < skip && p < |s| && Qualifies(s, p) ==>
        Value(s, p) == MASK || Colon(s, p) == Colon(s, f)
  {
    var out, c := Head(s, f) + t, Colon(s, f);
    SecretShape(s, f);
    if Clean(out) {
      forall p: nat | p < skip && p < |s| && Qualifies(s, p) ensures Value(s, p) == MASK || Colon(s, p) == Colon(s, f) {
        BeforeMask(s, f, p, t);
      }
      forall q: nat | q < |t| && Qualifies(t, q) ensures Value(t, q) == MASK {
        AfterMask(s, f, q, t);
        assert Qualifies(out, |Head(s, f)| + q);
      }
    }
    if Clean(t) && forall p: nat :: p < skip && p < |s| && Qualifies(s, p) ==>
      Value(s, p) == MASK || Colon(s, p) == Colon(s, f) {
      forall p: nat | p < |out| && Qualifies(out, p) ensures Value(out, p) == MASK {
        OutIsMasked(s, skip, f, t, p);
      }
    }
  }

  lemma OutIsMasked(s: string, skip: nat, f: nat, t: string, p: nat)
    requires FirstSecret(s, skip) == f && Clean(t)
    requires forall p: nat :: p < skip && p < |s| && Qualifies(s, p) ==>
      Value(s, p) == MASK || Colon(s, p) == Colon(s, f)
    requires Qualifies(Head(s, f) + t, p)
    ensures Value(Head(s, f) + t, p) == MASK
  {
    var out, c := Head(s, f) + t, Colon(s, f);
    SecretShape(s, f);
    if p < c + 2 {
      BeforeMask(s, f, p, t);
      if p >= f && p <= c { FindCharIs(s, ':', p, c); }
    } else if p < c + 6 {
      MaskHasNoKey(s, f, t, p);
    } else {
      AfterMask(s, f, p - |Head(s, f)|, t);
    }
  }

  // The log filter hides every password exactly when its loop jumps over none.
  lemma {:induction false} CleanIff(s: string, skip: nat)
    ensures Clean(Scan(s, skip)) <==> NoneJumped(s, skip)
    decreases |s|
  {
    var f := FirstSecret(s, skip);
    if f < 0 {
      assert forall p: nat :: p < |s| && Qualifies(s, p) ==> p < skip;
    } else {
      SecretShape(s, f);
      var t := Scan(Tail(s, f), Jump(|Value(s, f)|));
      CleanIff(Tail(s, f), Jump(|Value(s, f)|));
      CleanHead(s, skip, f, t);
      assert Scan(s, skip) == Head(s, f) + t;
    }
  }

  lemma FilterIsClean(message: string)
    ensures Clean(Scan(message, 0)) <==> NoneJumped(message, 0)
  {
    CleanIff(message, 0);
  }

  // ---- consequences ----

  // The first password with a quoted value is always masked.
  lemma FirstIsMasked(s: string)
    requires FirstSecret(s, 0) >= 0
    ensures var f := FirstSecret(s, 0);
            Qualifies(Scan(s, 0), f) && Value(Scan(s, 0), f) == MASK
  {
    var f := FirstSecret(s, 0);
    var t := Scan(Tail(s, f), Jump(|Value(s, f)|));
    SecretShape(s, f);
    BeforeMask(s, f, f, t);
    assert Scan(s, 0) == Head(s, f) + t;
  }

  // No value longer than the mask has another one behind it.
  ghost predicate ShortBeforeOthers(s: string) {
    forall p: nat, q: nat :: Qualifies(s, p) && Qualifies(s, q) && Close(s, p) < q ==> |Value(s, p)| <= |MASK|
  }

  // Then none is missed: only the last value may be long.
  lemma ShortValuesAreMasked(s: string)
    requires ShortBeforeOthers(s)
    ensures Clean(Scan(s, 0))
  {
    ShortMeansNoneJumped(s);
    CleanIff(s, 0);
  }

  lemma {:induction false} ShortMeansNoneJumped(s: string)
    requires ShortBeforeOthers(s)
    ensures NoneJumped(s, 0)
    decreases |s|
  {
    var f := FirstSecret(s, 0);
    if f >= 0 {
      SecretShape(s, f);
      ShortTail(s, f);
      if FirstSecret(Tail(s, f), 0) >= 0 {
        InTail(s, f, FirstSecret(Tail(s, f), 0));
        ShortMeansNoneJumped(Tail(s, f));
      }
    }
  }

  // What qualifies behind the closing quote is what qualifies in the tail.
  lemma InTail(s: string, f: nat, q: nat)
    requires Qualifies(s, f)
    ensures var at, t := Close(s, f) + 1 + q, Tail(s, f);
            && (Qualifies(s, at) <==> Qualifies(t, q))
            && (Qualifies(t, q) ==>
                  && Colon(s, at) == Close(s, f) + 1 + Colon(t, q)
                  && Close(s, at) == Close(s, f) + 1 + Close(t, q)
                  && Value(s, at) == Value(t, q))
  {
    SecretShape(s, f);
    ShiftedBy(s, Close(s, f) + 1, q);
  }

  lemma ShiftedBy(s: string, k: nat, q: nat)
    requires k <= |s|
    ensures Qualifies(s, k + q) <==> Qualifies(s[k..], q)
    ensures Qualifies(s[k..], q) ==>
      && Colon(s, k + q) == k + Colon(s[k..], q)
      && Close(s, k + q) == k + Close(s[k..], q)
      && Value(s, k + q) == Value(s[k..], q)
  {
    assert s == s[..k] + s[k..];
    SecretShift(s[..k], s[k..], q);
  }

  lemma ShortTail(s: string, f: nat)
    requires ShortBeforeOthers(s) && Qualifies(s, f)
    ensures ShortBeforeOthers(Tail(s, f))
  {
    var t := Tail(s, f);
    forall p: nat, q: nat | Qualifies(t, p) && Qualifies(t, q) && Close(t, p) < q ensures |Value(t, p)| <= |MASK| {
      InTail(s, f, p);
      InTail(s, f, q);
    }
  }

  // Every value whose key comes after short values only: those that begin before the key.
  ghost predicate OnlyShortBefore(s: string, q: nat) {
    forall p: nat :: p < q && Qualifies(s, p) && Colon(s, p) < q ==> |Value(s, p)| <= |MASK|
  }

  // At `at`, `out` shows a masked value with `rest` behind its closing quote.
  ghost predicate ShowsMask(out: string, at: nat, rest: string) {
    Qualifies(out, at) && Value(out, at) == MASK && out[Close(out, at) + 1..] == rest
  }

  // What the scan makes of the text behind the value of q.
  function Behind(s: string, q: nat): string
    requires Qualifies(s, q)
  {
    Scan(Tail(s, q), Jump(|Value(s, q)|))
  }

  // A key behind a short first value, seen from behind its closing quote.
  lemma BehindFirst(t: string, p: nat, q: nat) returns (q': nat)
    requires Qualifies(t, p) && Qualifies(t, q) && OnlyShortBefore(t, q) && p < q && Colon(t, p) < q
    ensures q == Close(t, p) + 1 + q' && |Value(t, p)| <= |MASK| && |Tail(t, p)| < |t|
    ensures Qualifies(Tail(t, p), q') && OnlyShortBefore(Tail(t, p), q')
  {
    SecretShape(t, p);
    NotInside(t, p, q);
    q' := q - Close(t, p) - 1;
    InTail(t, p, q');
    ShortBeforeTail(t, p, q');
  }

  // A value after short ones is masked, however long it is itself and whatever follows it.
  lemma {:induction false} MaskedAfterShort(s: string, q: nat) returns (out: string, at: nat, rest: string)
    requires Qualifies(s, q) && OnlyShortBefore(s, q)
    ensures out == Scan(s, 0) && rest == Behind(s, q) && ShowsMask(out, at, rest)
    decreases |s|
  {
    var p := FirstSecret(s, 0);
    if q <= Colon(s, p) {
      out, rest := FirstStop(s, p, q);
      at := q;
    } else {
      var q' := BehindFirst(s, p, q);
      var t := Tail(s, p);
      var outTail, later;
      outTail, later, rest := MaskedAfterShort(t, q');
      SameBehind(s, p, q, t, q');
      var head;
      out, head := CutTail(s, p, t, outTail);
      at := LaterShowsMask(out, head, outTail, later, rest);
    }
  }

  lemma SameBehind(s: string, p: nat, q: nat, t: string, q': nat)
    requires Qualifies(s, p) && Qualifies(s, q) && t == Tail(s, p) && q == Close(s, p) + 1 + q' && Qualifies(t, q')
    ensures Behind(t, q') == Behind(s, q)
  {
    BehindLater(s, p, q');
  }

  lemma FirstStop(s: string, p: nat, q: nat) returns (out: string, rest: string)
    requires p == FirstSecret(s, 0) && Qualifies(s, p) && Qualifies(s, q) && p <= q <= Colon(s, p)
    ensures out == Scan(s, 0) && rest == Behind(s, q) && ShowsMask(out, q, rest)
  {
    out, rest := FirstCut(s, p);
    BehindShared(s, p, q, rest);
    StopShowsMask(s, p, q, rest);
  }

  lemma CutTail(s: string, p: nat, t: string, outTail: string) returns (out: string, head: string)
    requires p == FirstSecret(s, 0) && Qualifies(s, p) && |Value(s, p)| <= |MASK| && t == Tail(s, p)
    requires outTail == Scan(t, 0)
    ensures out == Scan(s, 0) && out == head + outTail
  {
    var rest;
    out, rest := FirstCut(s, p);
    head := Head(s, p);
  }

  // The output, and its part behind the first mask, as plain strings.
  lemma FirstCut(s: string, p: nat) returns (out: string, rest: string)
    requires p == FirstSecret(s, 0) && Qualifies(s, p)
    ensures out == Scan(s, 0) && rest == Scan(Tail(s, p), Jump(|Value(s, p)|)) && out == Head(s, p) + rest
  {
    UnfoldScan(s, 0, p);
    out, rest := Scan(s, 0), Scan(Tail(s, p), Jump(|Value(s, p)|));
  }

  lemma BehindShared(s: string, p: nat, q: nat, rest: string)
    requires Qualifies(s, p) && Qualifies(s, q) && p <= q <= Colon(s, p)
    requires rest == Scan(Tail(s, p), Jump(|Value(s, p)|))
    ensures Behind(s, q) == rest && Colon(s, q) == Colon(s, p)
  {
    SharedTail(s, p, q);
  }

  lemma SharedTail(s: string, p: nat, q: nat)
    requires Qualifies(s, p) && Qualifies(s, q) && p <= q <= Colon(s, p)
    ensures Tail(s, q) == Tail(s, p) && Value(s, q) == Value(s, p) && Colon(s, q) == Colon(s, p)
  {
    SharedColon(s, p, q);
  }

  lemma BehindLater(s: string, p: nat, q: nat)
    requires Qualifies(s, p) && Qualifies(Tail(s, p), q) && Qualifies(s, Close(s, p) + 1 + q)
    ensures Behind(Tail(s, p), q) == Behind(s, Close(s, p) + 1 + q)
  {
    TailOfTail(s, p, q);
  }

  lemma SharedColon(s: string, p: nat, q: nat)
    requires Qualifies(s, p) && p <= q <= Colon(s, p)
    ensures Colon(s, q) == Colon(s, p)
  {
    FindCharIs(s, ':', q, Colon(s, p));
  }

  lemma StopShowsMask(s: string, p: nat, q: nat, rest: string)
    requires Qualifies(s, p) && MatchAt(s, q) && q <= Colon(s, p) == Colon(s, q)
    ensures ShowsMask(Head(s, p) + rest, q, rest)
  {
    var out, c := Head(s, p) + rest, Colon(s, p);
    SharesMask(s, p, q, rest);
    KeysBeforeMask(s, p, q, rest);
    FindCharIs(out, '"', c + 2, c + 5);
    assert out[c + 6..] == rest;
  }

  lemma LaterShowsMask(out: string, head: string, outTail: string, later: nat, rest: string) returns (at: nat)
    requires out == head + outTail && ShowsMask(outTail, later, rest)
    ensures ShowsMask(out, at, rest)
  {
    at := |head| + later;
    SecretShift(head, outTail, later);
    SecretShape(outTail, later);
    assert out[|head| + Close(outTail, later) + 1..] == outTail[Close(outTail, later) + 1..];
  }

  lemma TailOfTail(s: string, p: nat, q: nat)
    requires Qualifies(s, p) && Qualifies(Tail(s, p), q)
    ensures Qualifies(s, Close(s, p) + 1 + q)
    ensures Tail(Tail(s, p), q) == Tail(s, Close(s, p) + 1 + q)
    ensures Value(Tail(s, p), q) == Value(s, Close(s, p) + 1 + q)
  {
    InTail(s, p, q);
    SecretShape(Tail(s, p), q);
  }

  // A key does not fit into a short value.
  lemma NotInside(s: string, p: nat, q: nat)
    requires Qualifies(s, p) && MatchAt(s, q) && Colon(s, p) < q && |Value(s, p)| <= |MASK|
    ensures Close(s, p) < q
  {
    SecretShape(s, p);
    assert s[Colon(s, p) + 1] == '"' && s[Close(s, p)] == '"';
  }

  lemma ShortBeforeTail(s: string, f: nat, q: nat)
    requires Qualifies(s, f) && OnlyShortBefore(s, Close(s, f) + 1 + q)
    ensures OnlyShortBefore(Tail(s, f), q)
  {
    var t := Tail(s, f);
    forall p: nat | p < q && Qualifies(t, p) && Colon(t, p) < q ensures |Value(t, p)| <= |MASK| { InTail(s, f, p); }
  }

  // A long value hides the passwords right behind it from the loop: if one of them does not show
  // the mask already and does not share its colon with the next one found, the output shows it.
  lemma LongValueExposesNext(s: string, f: nat, g: nat)
    requires FirstSecret(s, 0) == f
    requires g < |Tail(s, f)| && Qualifies(Tail(s, f), g) && Value(Tail(s, f), g) != MASK
    requires g < Jump(|Value(s, f)|)
    requires var next := FirstSecret(Tail(s, f), Jump(|Value(s, f)|));
             next < 0 || Colon(Tail(s, f), g) != Colon(Tail(s, f), next)
    ensures !Clean(Scan(s, 0))
  {
    CleanIff(s, 0);
    assert !NoneJumped(Tail(s, f), Jump(|Value(s, f)|));
  }

  // A message that leaks: behind a value of ten characters the second password stays readable.
  lemma SecondPasswordLeaks(s: string, t: string)
    requires t == "password:\"no\"" && s == "password:\"0123456789\"" + t
    ensures Scan(s, 0) == "password:\"***\"" + t && !Clean(Scan(s, 0))
  {
    assert s == "password:\"" + "0123456789" + "\"" + t;
    StartsWithPassword(s, "0123456789", t);
    TooShort(t, 7);
    ReadableIsNotClean(s, t);
  }

  lemma ReadableIsNotClean(s: string, t: string)
    requires t == "password:\"no\"" && Scan(s, 0) == "password:\"***\"" + t
    ensures !Clean(Scan(s, 0))
  {
    var head := "password:\"***\"";
    assert t == "password:\"" + "no" + "\"" + "";
    PasswordShape(t, "no", "");
    SecretShift(head, t, 0);
    assert Value(t, 0)[0] == 'n';
    assert Qualifies(Scan(s, 0), |head|) && |head| < |Scan(s, 0)|;
  }
}
