/** The inline text diff: one changed middle between the kept ends. */
module TextDiff {
  import opened Options

  /** A string is a sequence of UTF-16 code units, and the diff cuts between any two of them. */
  newtype CodeUnit = x: int | 0 <= x < 0x1_0000
  type Text = seq<CodeUnit>

  datatype Span = Equal(text: Text) | Insert(text: Text) | Delete(text: Text)

  // ----- the ends two texts share -----

  function CommonPrefix(a: Text, b: Text): nat {
    if a != [] && b != [] && a[0] == b[0] then 1 + CommonPrefix(a[1..], b[1..]) else 0
  }

  function CommonSuffix(a: Text, b: Text): nat {
    if a != [] && b != [] && a[|a| - 1] == b[|b| - 1] then 1 + CommonSuffix(a[..|a| - 1], b[..|b| - 1]) else 0
  }

  function Min(x: int, y: int): int {
    if x <= y then x else y
  }

  /** What is left of the common suffix once the prefix has taken its characters. */
  function KeptSuffix(a: Text, b: Text): int {
    Min(CommonSuffix(a, b), Min(|a|, |b|) - CommonPrefix(a, b))
  }

  ghost predicate SharesPrefix(a: Text, b: Text, n: nat) {
    n <= |a| && n <= |b| && a[..n] == b[..n]
  }

  ghost predicate SharesSuffix(a: Text, b: Text, n: nat) {
    n <= |a| && n <= |b| && a[|a| - n..] == b[|b| - n..]
  }

  /** CommonPrefix is the longest shared prefix: exactly the lengths up to it are shared. */
  lemma {:induction false} CommonPrefixIsLongest(a: Text, b: Text, n: nat)
    ensures SharesPrefix(a, b, n) <==> n <= CommonPrefix(a, b)
  {
    if a != [] && b != [] && n > 0 {
      CommonPrefixIsLongest(a[1..], b[1..], n - 1);
      if n <= |a| && n <= |b| {
        assert a[..n] == [a[0]] + a[1..][..n - 1] && b[..n] == [b[0]] + b[1..][..n - 1];
        assert a[..n] == b[..n] ==> a[..n][0] == b[..n][0] && a[..n][1..] == b[..n][1..];
      }
    }
  }

  lemma {:induction false} CommonSuffixIsLongest(a: Text, b: Text, n: nat)
    ensures SharesSuffix(a, b, n) <==> n <= CommonSuffix(a, b)
  {
    if a != [] && b != [] && n > 0 {
      var a', b' := a[..|a| - 1], b[..|b| - 1];
      CommonSuffixIsLongest(a', b', n - 1);
      if n <= |a| && n <= |b| {
        var s, t := a[|a| - n..], b[|b| - n..];
        assert s == a'[|a'| - (n - 1)..] + [a[|a| - 1]] && t == b'[|b'| - (n - 1)..] + [b[|b| - 1]];
        assert s == t ==> s[n - 1] == t[n - 1] && s[..n - 1] == t[..n - 1];
      }
    }
  }

  lemma EndsFit(a: Text, b: Text)
    ensures CommonPrefix(a, b) <= Min(|a|, |b|) && SharesPrefix(a, b, CommonPrefix(a, b))
    ensures 0 <= KeptSuffix(a, b) && CommonPrefix(a, b) + KeptSuffix(a, b) <= Min(|a|, |b|)
    ensures SharesSuffix(a, b, KeptSuffix(a, b))
  {
    CommonPrefixIsLongest(a, b, CommonPrefix(a, b));
    CommonSuffixIsLongest(a, b, KeptSuffix(a, b));
  }

  lemma PrefixGrows(a: Text, b: Text, n: nat)
    requires SharesPrefix(a, b, n) && n < |a| && n < |b| && a[n] == b[n]
    ensures SharesPrefix(a, b, n + 1)
  {
    assert a[..n + 1] == a[..n] + [a[n]] && b[..n + 1] == b[..n] + [b[n]];
  }

  lemma SuffixGrows(a: Text, b: Text, n: nat)
    requires SharesSuffix(a, b, n) && n < |a| && n < |b| && a[|a| - 1 - n] == b[|b| - 1 - n]
    ensures SharesSuffix(a, b, n + 1)
  {
    var i, j := |a| - 1 - n, |b| - 1 - n;
    assert a[i..] == [a[i]] + a[i + 1..] && b[j..] == [b[j]] + b[j + 1..];
  }

  /** Where the first scan of the two texts may stop. */
  lemma PrefixScanStops(a: Text, b: Text, n: nat)
    requires SharesPrefix(a, b, n) && (n == |a| || n == |b| || a[n] != b[n])
    ensures n == CommonPrefix(a, b)
  {
    CommonPrefixIsLongest(a, b, n);
    CommonPrefixIsLongest(a, b, n + 1);
  }

  lemma SuffixScanStops(a: Text, b: Text, n: nat)
    requires SharesSuffix(a, b, n) && n <= Min(|a|, |b|) - CommonPrefix(a, b)
    requires n < |a| && n < |b| && a[|a| - 1 - n] == b[|b| - 1 - n] ==> n == Min(|a|, |b|) - CommonPrefix(a, b)
    ensures n == KeptSuffix(a, b)
  {
    CommonSuffixIsLongest(a, b, n);
    CommonSuffixIsLongest(a, b, n + 1);
    assert SharesSuffix(a, b, n + 1) ==> a[|a| - (n + 1)..][0] == b[|b| - (n + 1)..][0];
  }

  // ----- spans -----

  /** A span, or nothing when its text is empty. */
  function Piece(s: Span): seq<Span> {
    if s.text == [] then [] else [s]
  }

  function Concat(spans: seq<Span>): Text {
    if spans == [] then [] else spans[0].text + Concat(spans[1..])
  }

  function Head(a: Text, b: Text): Text {
    EndsFit(a, b);
    a[..CommonPrefix(a, b)]
  }

  function Tail(a: Text, b: Text): Text {
    EndsFit(a, b);
    a[|a| - KeptSuffix(a, b)..]
  }

  function OldMiddle(a: Text, b: Text): Text {
    EndsFit(a, b);
    a[CommonPrefix(a, b)..|a| - KeptSuffix(a, b)]
  }

  function NewMiddle(a: Text, b: Text): Text {
    EndsFit(a, b);
    b[CommonPrefix(a, b)..|b| - KeptSuffix(a, b)]
  }

  function OldSpans(a: Text, b: Text): seq<Span> {
    Piece(Equal(Head(a, b))) + Piece(Delete(OldMiddle(a, b))) + Piece(Equal(Tail(a, b)))
  }

  function NewSpans(a: Text, b: Text): seq<Span> {
    Piece(Equal(Head(a, b))) + Piece(Insert(NewMiddle(a, b))) + Piece(Equal(Tail(a, b)))
  }

  /** One cut of both texts around the same ends. */
  lemma Splits(a: Text, b: Text)
    ensures a == Head(a, b) + OldMiddle(a, b) + Tail(a, b)
    ensures b == Head(a, b) + NewMiddle(a, b) + Tail(a, b)
  {
    EndsFit(a, b);
    var p, f := CommonPrefix(a, b), |b| - KeptSuffix(a, b);
    assert b == b[..p] + b[p..f] + b[f..];
  }

  function OrEmpty(value: Option<Text>): Text {
    if value.Some? then value.value else []
  }

  lemma Cut(a: Text, b: Text, prefix: nat, suffix: nat)
    requires prefix == CommonPrefix(a, b) && suffix == KeptSuffix(a, b)
    ensures prefix + suffix <= |a| && prefix + suffix <= |b|
    ensures a[..prefix] == Head(a, b) == b[..prefix]
    ensures a[prefix..|a| - suffix] == OldMiddle(a, b) && b[prefix..|b| - suffix] == NewMiddle(a, b)
    ensures a[|a| - suffix..] == Tail(a, b) && b[|b| - suffix..] == Tail(a, b)
  {
    EndsFit(a, b);
  }

  method Scan(a: Text, b: Text) returns (prefix: nat, suffix: nat)
    ensures prefix == CommonPrefix(a, b) && suffix == KeptSuffix(a, b)
  {
    prefix := 0;
    while prefix < |a| && prefix < |b| && a[prefix] == b[prefix]
      invariant SharesPrefix(a, b, prefix)
    {
      PrefixGrows(a, b, prefix);
      prefix := prefix + 1;
    }
    PrefixScanStops(a, b, prefix);

    suffix := 0;
    while suffix < |a| - prefix && suffix < |b| - prefix && a[|a| - 1 - suffix] == b[|b| - 1 - suffix]
      invariant suffix <= |a| - prefix && suffix <= |b| - prefix && SharesSuffix(a, b, suffix)
    {
      SuffixGrows(a, b, suffix);
      suffix := suffix + 1;
    }
    SuffixScanStops(a, b, suffix);
  }

  method DiffText(oldValue: Option<Text>, newValue: Option<Text>)
    returns (oldSpans: seq<Span>, newSpans: seq<Span>)
    ensures oldSpans == OldSpans(OrEmpty(oldValue), OrEmpty(newValue))
    ensures newSpans == NewSpans(OrEmpty(oldValue), OrEmpty(newValue))
    ensures Concat(oldSpans) == match oldValue { case None => [] case Some(a) => a }
    ensures Concat(newSpans) == match newValue { case None => [] case Some(b) => b }
  {
    var a, b := OrEmpty(oldValue), OrEmpty(newValue);
    var prefix, suffix := Scan(a, b);
    Cut(a, b, prefix, suffix);

    var oldMid := a[prefix..|a| - suffix];
    var newMid := b[prefix..|b| - suffix];
    var prefixText := a[..prefix];
    var oldSuffixText := a[|a| - suffix..];
    var newSuffixText := b[|b| - suffix..];
    oldSpans, newSpans := PushSpans(prefixText, oldMid, newMid, oldSuffixText, newSuffixText);
    RoundTrip(a, b);
  }

  method PushSpans(prefixText: Text, oldMid: Text, newMid: Text,
                   oldSuffixText: Text, newSuffixText: Text)
    returns (oldSpans: seq<Span>, newSpans: seq<Span>)
    ensures oldSpans == Piece(Equal(prefixText)) + Piece(Delete(oldMid)) + Piece(Equal(oldSuffixText))
    ensures newSpans == Piece(Equal(prefixText)) + Piece(Insert(newMid)) + Piece(Equal(newSuffixText))
  {
    oldSpans, newSpans := [], [];
    if prefixText != [] {
      oldSpans := oldSpans + [Equal(prefixText)];
      newSpans := newSpans + [Equal(prefixText)];
    }
    if oldMid != [] { oldSpans := oldSpans + [Delete(oldMid)]; }
    if newMid != [] { newSpans := newSpans + [Insert(newMid)]; }
    if oldSuffixText != [] { oldSpans := oldSpans + [Equal(oldSuffixText)]; }
    if newSuffixText != [] { newSpans := newSpans + [Equal(newSuffixText)]; }
  }

  // ----- what the diff promises -----

  function Kept(spans: seq<Span>): seq<Span> {
    if spans == [] then []
    else (if spans[0].Equal? then [spans[0]] else []) + Kept(spans[1..])
  }

  lemma {:induction false} AppendSpan(spans: seq<Span>, s: Span)
    ensures Concat(spans + [s]) == Concat(spans) + s.text
    ensures Kept(spans + [s]) == Kept(spans) + (if s.Equal? then [s] else [])
  {
    if spans != [] {
      AppendSpan(spans[1..], s);
      assert (spans + [s])[1..] == spans[1..] + [s];
    }
  }

  lemma AppendPiece(spans: seq<Span>, s: Span)
    ensures Concat(spans + Piece(s)) == Concat(spans) + s.text
    ensures Kept(spans + Piece(s)) == Kept(spans) + (if s.Equal? then Piece(s) else [])
  {
    if s.text == [] {
      assert spans + Piece(s) == spans;
    } else {
      AppendSpan(spans, s);
    }
  }

  lemma ThreePieces(x: Span, y: Span, z: Span)
    requires x.Equal? && !y.Equal? && z.Equal?
    ensures Concat(Piece(x) + Piece(y) + Piece(z)) == x.text + y.text + z.text
    ensures Kept(Piece(x) + Piece(y) + Piece(z)) == Piece(x) + Piece(z)
  {
    AppendPiece([], x);
    assert [] + Piece(x) == Piece(x);
    AppendPiece(Piece(x), y);
    AppendPiece(Piece(x) + Piece(y), z);
  }

  lemma SpansNamed(x: Text, changed: Span, z: Text)
    ensures forall s :: s in Piece(Equal(x)) + Piece(changed) + Piece(Equal(z)) ==>
              s.text != [] && (s.Equal? || s == changed)
  {
  }

  /** The spans spell the two texts, no span is empty, and both sides keep the same spans: replacing
      the one deletion by the one insertion turns a into b. */
  lemma RoundTrip(a: Text, b: Text)
    ensures Concat(OldSpans(a, b)) == a && Concat(NewSpans(a, b)) == b
    ensures Kept(OldSpans(a, b)) == Kept(NewSpans(a, b))
    ensures forall s :: s in OldSpans(a, b) ==> s.text != [] && !s.Insert?
    ensures forall s :: s in NewSpans(a, b) ==> s.text != [] && !s.Delete?
  {
    Splits(a, b);
    SpansNamed(Head(a, b), Delete(OldMiddle(a, b)), Tail(a, b));
    SpansNamed(Head(a, b), Insert(NewMiddle(a, b)), Tail(a, b));
    ThreePieces(Equal(Head(a, b)), Delete(OldMiddle(a, b)), Equal(Tail(a, b)));
    ThreePieces(Equal(Head(a, b)), Insert(NewMiddle(a, b)), Equal(Tail(a, b)));
  }

  lemma ConcatPieces(x: Span, z: Span)
    ensures Concat(Piece(x) + Piece(z)) == x.text + z.text
  {
    ConcatPiece(x);
    AppendPiece(Piece(x), z);
  }

  lemma ConcatPiece(x: Span)
    ensures Concat(Piece(x)) == x.text
  {
    if x.text != [] {
      assert [x][1..] == [];
      assert Concat([x]) == x.text + Concat([]);
    }
  }

  /** On both sides the kept spans spell exactly the two ends, so there are as many units in them as the
      closed form below says, and the rest is one deletion and one insertion. */
  lemma KeptSpansAreTheEnds(a: Text, b: Text)
    ensures Concat(Kept(OldSpans(a, b))) == Concat(Kept(NewSpans(a, b))) == Head(a, b) + Tail(a, b)
    ensures |Head(a, b)| == CommonPrefix(a, b) && |Tail(a, b)| == KeptSuffix(a, b)
  {
    EndsFit(a, b);
    ThreePieces(Equal(Head(a, b)), Delete(OldMiddle(a, b)), Equal(Tail(a, b)));
    ThreePieces(Equal(Head(a, b)), Insert(NewMiddle(a, b)), Equal(Tail(a, b)));
    ConcatPieces(Equal(Head(a, b)), Equal(Tail(a, b)));
  }

  /** Spelled out without the scan: what one call keeps of two texts is as long as their common ends
      allow, and equal texts are kept whole. */
  lemma KeptUnits(a: Text, b: Text)
    ensures |Concat(Kept(OldSpans(a, b)))| ==
            Min(CommonPrefix(a, b) + CommonSuffix(a, b), Min(|a|, |b|))
    ensures a == b ==> Kept(OldSpans(a, b)) == OldSpans(a, b) == NewSpans(a, b)
  {
    KeptSpansAreTheEnds(a, b);
    KeptLength(a, b);
    if a == b {
      CommonPrefixIsLongest(a, b, |a|);
      EndsFit(a, b);
      assert OldMiddle(a, b) == [] && NewMiddle(a, b) == [];
      ThreePieces(Equal(Head(a, b)), Delete([]), Equal(Tail(a, b)));
    }
  }

  /** What the diff keeps, in closed form. */
  lemma KeptLength(a: Text, b: Text)
    ensures CommonPrefix(a, b) + KeptSuffix(a, b) ==
            Min(CommonPrefix(a, b) + CommonSuffix(a, b), Min(|a|, |b|))
  {
    MinShift(CommonPrefix(a, b), CommonSuffix(a, b), Min(|a|, |b|));
  }

  lemma MinShift(p: int, s: int, m: int)
    ensures p + Min(s, m - p) == Min(p + s, m)
  {
  }

  lemma MiddleLengths(a: Text, b: Text)
    ensures |OldMiddle(a, b)| == |a| - (CommonPrefix(a, b) + KeptSuffix(a, b))
    ensures |NewMiddle(a, b)| == |b| - (CommonPrefix(a, b) + KeptSuffix(a, b))
  {
    EndsFit(a, b);
  }

  /** No other single hunk keeps more or changes less: of all ways to write a as p + x + s and b as
      p + y + s, the diff has the longest ends and the shortest middles. */
  lemma Optimal(p: Text, x: Text, y: Text, s: Text)
    ensures var a, b := p + x + s, p + y + s;
            && |p| + |s| <= CommonPrefix(a, b) + KeptSuffix(a, b)
            && |OldMiddle(a, b)| <= |x| && |NewMiddle(a, b)| <= |y|
  {
    var a, b := p + x + s, p + y + s;
    assert a[..|p|] == p && b[..|p|] == p;
    assert a[|a| - |s|..] == s && b[|b| - |s|..] == s;
    CommonPrefixIsLongest(a, b, |p|);
    CommonSuffixIsLongest(a, b, |s|);
    KeptLength(a, b);
    MiddleLengths(a, b);
  }

  /** When both middles are non-empty they differ in their first and in their last character. */
  lemma MiddlesDiffer(a: Text, b: Text)
    requires OldMiddle(a, b) != [] && NewMiddle(a, b) != []
    ensures var x, y := OldMiddle(a, b), NewMiddle(a, b); x[0] != y[0] && x[|x| - 1] != y[|y| - 1]
  {
    EndsFit(a, b);
    FirstDiffers(a, b);
    LastDiffers(a, b);
  }

  lemma {:induction false} FirstDiffers(a: Text, b: Text)
    requires CommonPrefix(a, b) < |a| && CommonPrefix(a, b) < |b|
    ensures a[CommonPrefix(a, b)] != b[CommonPrefix(a, b)]
  {
    if CommonPrefix(a, b) > 0 {
      FirstDiffers(a[1..], b[1..]);
    }
  }

  lemma {:induction false} LastDiffers(a: Text, b: Text)
    requires CommonSuffix(a, b) < |a| && CommonSuffix(a, b) < |b|
    ensures a[|a| - 1 - CommonSuffix(a, b)] != b[|b| - 1 - CommonSuffix(a, b)]
  {
    if CommonSuffix(a, b) > 0 {
      LastDiffers(a[..|a| - 1], b[..|b| - 1]);
    }
  }

  // ----- characters outside the basic plane -----

  predicate IsHigh(u: CodeUnit) {
    0xD800 <= u < 0xDC00
  }

  predicate IsLow(u: CodeUnit) {
    0xDC00 <= u < 0xE000
  }

  /** Every surrogate has its other half beside it. */
  predicate WellFormed(t: Text) {
    && (forall i | 0 <= i < |t| && IsHigh(t[i]) :: i + 1 < |t| && IsLow(t[i + 1]))
    && (forall i | 0 <= i < |t| && IsLow(t[i]) :: i > 0 && IsHigh(t[i - 1]))
  }

  predicate CutsPair(t: Text, n: int) {
    0 < n < |t| && IsHigh(t[n - 1]) && IsLow(t[n])
  }

  /** A piece of a well-formed text is well-formed exactly when neither of its ends cuts a pair. */
  lemma PieceWellFormedIff(t: Text, m: nat, n: nat)
    requires WellFormed(t) && m <= n <= |t|
    ensures m < n ==> (WellFormed(t[m..n]) <==> !CutsPair(t, m) && !CutsPair(t, n))
  {
    var x := t[m..n];
    if m < n && !CutsPair(t, m) && !CutsPair(t, n) {
      forall i | 0 <= i < |x| && IsHigh(x[i]) ensures i + 1 < |x| && IsLow(x[i + 1]) {
        assert x[i] == t[m + i] && IsLow(t[m + i + 1]);
        assert m + i + 1 == n ==> CutsPair(t, n);
      }
      forall i | 0 <= i < |x| && IsLow(x[i]) ensures i > 0 && IsHigh(x[i - 1]) {
        assert x[i] == t[m + i] && IsHigh(t[m + i - 1]);
        assert i == 0 ==> CutsPair(t, m);
      }
    } else if m < n {
      assert CutsPair(t, m) ==> IsLow(x[0]);
      assert CutsPair(t, n) ==> IsHigh(x[|x| - 1]);
    }
  }

  lemma CutsWellFormedIff(t: Text, m: nat, n: nat, head: Text, middle: Text, tail: Text)
    requires WellFormed(t) && m <= n <= |t| && head == t[..m] && middle == t[m..n] && tail == t[n..]
    ensures WellFormed(head) && WellFormed(middle) && WellFormed(tail) <==> !CutsPair(t, m) && !CutsPair(t, n)
  {
    PieceWellFormedIff(t, 0, m);
    PieceWellFormedIff(t, m, n);
    PieceWellFormedIff(t, n, |t|);
    assert t[..m] == t[0..m] && t[n..] == t[n..|t|];
  }

  ghost predicate AllWellFormed(spans: seq<Span>) {
    forall s :: s in spans ==> WellFormed(s.text)
  }

  lemma SpanIsWellFormedIff(spans: seq<Span>, s: Span)
    ensures AllWellFormed(spans + Piece(s)) <==> AllWellFormed(spans) && WellFormed(s.text)
  {
    if AllWellFormed(spans + Piece(s)) {
      assert s.text != [] ==> s in spans + Piece(s);
      forall x | x in spans ensures x in spans + Piece(s) {
      }
    }
  }

  lemma SideWellFormedIff(x: Text, changed: Span, z: Text)
    ensures AllWellFormed(Piece(Equal(x)) + Piece(changed) + Piece(Equal(z)))
       <==> WellFormed(x) && WellFormed(changed.text) && WellFormed(z)
  {
    SpanIsWellFormedIff([], Equal(x));
    assert [] + Piece(Equal(x)) == Piece(Equal(x));
    SpanIsWellFormedIff(Piece(Equal(x)), changed);
    SpanIsWellFormedIff(Piece(Equal(x)) + Piece(changed), Equal(z));
  }

  lemma OldPartsWellFormedIff(a: Text, b: Text, p: nat, s: nat)
    requires WellFormed(a) && p == CommonPrefix(a, b) && s == KeptSuffix(a, b)
    ensures WellFormed(Head(a, b)) && WellFormed(OldMiddle(a, b)) && WellFormed(Tail(a, b))
       <==> !CutsPair(a, p) && !CutsPair(a, |a| - s)
  {
    Cut(a, b, p, s);
    CutsWellFormedIff(a, p, |a| - s, Head(a, b), OldMiddle(a, b), Tail(a, b));
  }

  lemma NewPartsWellFormedIff(a: Text, b: Text, p: nat, s: nat)
    requires WellFormed(b) && p == CommonPrefix(a, b) && s == KeptSuffix(a, b)
    ensures WellFormed(Head(a, b)) && WellFormed(NewMiddle(a, b)) && WellFormed(Tail(a, b))
       <==> !CutsPair(b, p) && !CutsPair(b, |b| - s)
  {
    Cut(a, b, p, s);
    CutsWellFormedIff(b, p, |b| - s, Head(a, b), NewMiddle(a, b), Tail(a, b));
  }

  /** The diff works on code units. All spans of two well-formed texts are well-formed exactly when no
      kept end cuts a surrogate pair of either text. */
  lemma SpansWellFormedIff(a: Text, b: Text)
    requires WellFormed(a) && WellFormed(b)
    ensures AllWellFormed(OldSpans(a, b)) && AllWellFormed(NewSpans(a, b))
       <==> var p, s := CommonPrefix(a, b), KeptSuffix(a, b);
            && !CutsPair(a, p) && !CutsPair(b, p) && !CutsPair(a, |a| - s) && !CutsPair(b, |b| - s)
  {
    var p, s := CommonPrefix(a, b), KeptSuffix(a, b);
    EndsFit(a, b);
    OldPartsWellFormedIff(a, b, p, s);
    NewPartsWellFormedIff(a, b, p, s);
    SideWellFormedIff(Head(a, b), Delete(OldMiddle(a, b)), Tail(a, b));
    SideWellFormedIff(Head(a, b), Insert(NewMiddle(a, b)), Tail(a, b));
  }

  /** Two texts of one character each that share their first half: the diff keeps that half alone. */
  lemma HalfIsKept()
    ensures var a, b: Text := [0xD83D, 0xDE00], [0xD83D, 0xDE01];
            WellFormed(a) && WellFormed(b) && CutsPair(a, CommonPrefix(a, b))
            && !WellFormed(Head(a, b)) && Equal(Head(a, b)) in OldSpans(a, b)
  {
    var a, b: Text := [0xD83D, 0xDE00], [0xD83D, 0xDE01];
    assert a[1..] == [0xDE00] && b[1..] == [0xDE01];
    assert CommonPrefix(a[1..], b[1..]) == 0;
    assert CommonPrefix(a, b) == 1;
    assert Head(a, b) == [0xD83D];
    assert IsHigh(Head(a, b)[0]);
  }
}
