/** The normalisation shared by `norm` (utils) and `normalize` (demographics
    form): canonical decomposition, diacritics removed, whitespace runs
    collapsed to one space, ends trimmed. Each caller then maps the case. */
module Normalization {
  import opened Text

  function Canon(s: string): string
  {
    Trim(Collapse(StripDiacritics(Nfd(s))))
  }

  /** A character `Canon` can leave in its output. */
  predicate Plain(c: char) { Decomposed(c) && !IsDiacritic(c) }

  /** A string `Canon` leaves unchanged. */
  predicate Canonical(t: string)
  {
    Collapsed(t) && Trimmed(t) && forall i :: 0 <= i < |t| ==> Plain(t[i])
  }

  // ------------------------------------------------------ structural facts

  lemma {:induction false} NfdAppend(a: string, b: string)
    ensures Nfd(a + b) == Nfd(a) + Nfd(b)
    decreases |a|
  {
    if a != [] {
      assert (a + b)[1..] == a[1..] + b;
      NfdAppend(a[1..], b);
    } else {
      assert a + b == b;
    }
  }

  lemma {:induction false} StripAppend(a: string, b: string)
    ensures StripDiacritics(a + b) == StripDiacritics(a) + StripDiacritics(b)
    decreases |a|
  {
    if a != [] {
      assert (a + b)[1..] == a[1..] + b;
      StripAppend(a[1..], b);
    } else {
      assert a + b == b;
    }
  }

  lemma {:induction false} NfdChars(s: string)
    ensures forall i :: 0 <= i < |Nfd(s)| ==> Decomposed(Nfd(s)[i])
    decreases |s|
  {
    if s != [] {
      DecomposeParts(s[0]);
      NfdChars(s[1..]);
    }
  }

  lemma {:induction false} NfdFixed(s: string)
    requires forall i :: 0 <= i < |s| ==> Decomposed(s[i])
    ensures Nfd(s) == s
    decreases |s|
  {
    if s != [] {
      NfdFixed(s[1..]);
    }
  }

  lemma {:induction false} StripKeepsDecomposed(s: string)
    requires forall i :: 0 <= i < |s| ==> Decomposed(s[i])
    ensures forall i :: 0 <= i < |StripDiacritics(s)| ==> Plain(StripDiacritics(s)[i])
    decreases |s|
  {
    if s != [] {
      StripKeepsDecomposed(s[1..]);
    }
  }

  lemma {:induction false} StripFixed(s: string)
    requires forall i :: 0 <= i < |s| ==> !IsDiacritic(s[i])
    ensures StripDiacritics(s) == s
    decreases |s|
  {
    if s != [] {
      StripFixed(s[1..]);
    }
  }

  lemma PlainSpace()
    ensures Plain(' ')
  {
  }

  lemma {:induction false} CollapseKeepsPlain(s: string)
    requires forall i :: 0 <= i < |s| ==> Plain(s[i])
    ensures forall i :: 0 <= i < |Collapse(s)| ==> Plain(Collapse(s)[i])
    decreases |s|
  {
    if s != [] {
      if IsSpace(s[0]) {
        var t := TrimStart(s[1..]);
        assert forall i :: 0 <= i < |t| ==> t[i] == s[1 + LeadingSpaces(s[1..]) + i];
        CollapseKeepsPlain(t);
        PlainSpace();
        assert Collapse(s) == [' '] + Collapse(t);
      } else {
        CollapseKeepsPlain(s[1..]);
        assert Collapse(s) == [s[0]] + Collapse(s[1..]);
      }
    }
  }

  lemma TrimKeepsCanonical(y: string)
    requires Collapsed(y) && forall i :: 0 <= i < |y| ==> Plain(y[i])
    ensures Canonical(Trim(y))
  {
    TrimIsCollapsed(y);
    var a, b :| 0 <= a <= b <= |y| && Trim(y) == y[a..b];
    PlainSlice(y, a, b);
  }

  lemma PlainSlice(y: string, a: nat, b: nat)
    requires a <= b <= |y| && forall i :: 0 <= i < |y| ==> Plain(y[i])
    ensures forall i :: 0 <= i < |y[a..b]| ==> Plain(y[a..b][i])
  {
    forall i | 0 <= i < |y[a..b]| ensures Plain(y[a..b][i]) {
      assert y[a..b][i] == y[a + i];
    }
  }

  /** Every output of `Canon` is canonical. */
  lemma CanonIsCanonical(s: string)
    ensures Canonical(Canon(s))
  {
    var n := Nfd(s);
    var x := StripDiacritics(n);
    NfdChars(s);
    StripKeepsDecomposed(n);
    CollapseKeepsPlain(x);
    CollapseIsCollapsed(x);
    TrimKeepsCanonical(Collapse(x));
  }

  /** `Canon` leaves canonical strings alone; with `CanonIsCanonical` this
      makes it idempotent. */
  lemma CanonOfCanonical(t: string)
    requires Canonical(t)
    ensures Canon(t) == t
  {
    NfdFixed(t);
    StripFixed(t);
    CollapseOfCollapsed(t);
    TrimOfTrimmed(t);
  }

  // ---------------------------------------------- character maps that commute

  /** A character map that keeps the space character and tells whitespace
      from the rest exactly as before. */
  ghost predicate SpaceFaithful(f: char -> char)
  {
    f(' ') == ' ' && forall c :: IsSpace(f(c)) == IsSpace(c)
  }

  /** A character map that behaves like a case mapping: besides whitespace it
      keeps diacritics apart, and decomposing a mapped character maps every
      piece of the decomposition. */
  ghost predicate CaseLike(f: char -> char)
  {
    SpaceFaithful(f) &&
    (forall c :: IsDiacritic(f(c)) == IsDiacritic(c)) &&
    (forall c {:trigger Decompose(f(c))} :: Decompose(f(c)) == MapChars(f, Decompose(c)))
  }

  lemma UpperAt(c: char)
    ensures IsSpace(ToUpper(c)) == IsSpace(c) && IsDiacritic(ToUpper(c)) == IsDiacritic(c)
    ensures Decompose(ToUpper(c)) == MapChars(ToUpper, Decompose(c))
  {
    CaseFacts(c);
    UpperKeepsDecomposition(c);
  }

  lemma LowerAt(c: char)
    ensures IsSpace(ToLower(c)) == IsSpace(c) && IsDiacritic(ToLower(c)) == IsDiacritic(c)
    ensures Decompose(ToLower(c)) == MapChars(ToLower, Decompose(c))
  {
    CaseFacts(c);
    LowerKeepsDecomposition(c);
  }

  lemma UpperIsCaseLike()
    ensures CaseLike(ToUpper)
  {
    forall c ensures IsSpace(ToUpper(c)) == IsSpace(c) {
      UpperAt(c);
    }
    forall c ensures IsDiacritic(ToUpper(c)) == IsDiacritic(c) {
      UpperAt(c);
    }
    forall c ensures Decompose(ToUpper(c)) == MapChars(ToUpper, Decompose(c)) {
      UpperAt(c);
    }
    assert ToUpper(' ') == ' ';
  }

  lemma LowerIsCaseLike()
    ensures CaseLike(ToLower)
  {
    forall c ensures IsSpace(ToLower(c)) == IsSpace(c) {
      LowerAt(c);
    }
    forall c ensures IsDiacritic(ToLower(c)) == IsDiacritic(c) {
      LowerAt(c);
    }
    forall c ensures Decompose(ToLower(c)) == MapChars(ToLower, Decompose(c)) {
      LowerAt(c);
    }
    assert ToLower(' ') == ' ';
  }

  lemma MapAppend(f: char -> char, a: string, b: string)
    ensures MapChars(f, a + b) == MapChars(f, a) + MapChars(f, b)
  {
  }

  lemma {:induction false} MapNfd(f: char -> char, s: string)
    requires CaseLike(f)
    ensures Nfd(MapChars(f, s)) == MapChars(f, Nfd(s))
    decreases |s|
  {
    if s != [] {
      var m := MapChars(f, s);
      assert m[1..] == MapChars(f, s[1..]);
      MapNfd(f, s[1..]);
      MapAppend(f, Decompose(s[0]), Nfd(s[1..]));
    }
  }

  lemma {:induction false} MapStrip(f: char -> char, s: string)
    requires CaseLike(f)
    ensures StripDiacritics(MapChars(f, s)) == MapChars(f, StripDiacritics(s))
    decreases |s|
  {
    if s != [] {
      var m := MapChars(f, s);
      assert m[1..] == MapChars(f, s[1..]);
      MapStrip(f, s[1..]);
      var head := if IsDiacritic(s[0]) then [] else [s[0]];
      MapAppend(f, head, StripDiacritics(s[1..]));
    }
  }

  lemma {:induction false} MapLeading(f: char -> char, s: string)
    requires SpaceFaithful(f)
    ensures LeadingSpaces(MapChars(f, s)) == LeadingSpaces(s)
    decreases |s|
  {
    if s != [] {
      assert MapChars(f, s)[1..] == MapChars(f, s[1..]);
      MapLeading(f, s[1..]);
    }
  }

  lemma {:induction false} MapTrailing(f: char -> char, s: string)
    requires SpaceFaithful(f)
    ensures TrailingSpaces(MapChars(f, s)) == TrailingSpaces(s)
    decreases |s|
  {
    if s != [] {
      assert MapChars(f, s)[..|s| - 1] == MapChars(f, s[..|s| - 1]);
      MapTrailing(f, s[..|s| - 1]);
    }
  }

  lemma {:induction false} MapCollapse(f: char -> char, s: string)
    requires SpaceFaithful(f)
    ensures Collapse(MapChars(f, s)) == MapChars(f, Collapse(s))
    decreases |s|
  {
    if s != [] {
      var m := MapChars(f, s);
      assert m[1..] == MapChars(f, s[1..]);
      if IsSpace(s[0]) {
        var t := TrimStart(s[1..]);
        MapLeading(f, s[1..]);
        assert TrimStart(m[1..]) == MapChars(f, t);
        MapCollapse(f, t);
        MapAppend(f, [' '], Collapse(t));
      } else {
        MapCollapse(f, s[1..]);
        MapAppend(f, [s[0]], Collapse(s[1..]));
      }
    }
  }

  lemma MapTrim(f: char -> char, s: string)
    requires SpaceFaithful(f)
    ensures Trim(MapChars(f, s)) == MapChars(f, Trim(s))
  {
    MapLeading(f, s);
    var t := TrimStart(s);
    assert TrimStart(MapChars(f, s)) == MapChars(f, t);
    MapTrailing(f, t);
  }

  /** `Canon` commutes with any case-like character map. */
  lemma MapCanon(f: char -> char, s: string)
    requires CaseLike(f)
    ensures Canon(MapChars(f, s)) == MapChars(f, Canon(s))
  {
    MapNfd(f, s);
    MapStrip(f, Nfd(s));
    MapCollapse(f, StripDiacritics(Nfd(s)));
    MapTrim(f, Collapse(StripDiacritics(Nfd(s))));
  }

  /** A case-like map keeps a canonical string canonical: spacing, ... */
  lemma MapKeepsSpacing(f: char -> char, t: string)
    requires SpaceFaithful(f) && Collapsed(t) && Trimmed(t)
    ensures Collapsed(MapChars(f, t)) && Trimmed(MapChars(f, t))
  {
    var m := MapChars(f, t);
    forall i | 0 <= i < |m| && IsSpace(m[i])
      ensures m[i] == ' ' && (i + 1 < |m| ==> !IsSpace(m[i + 1]))
    {
      assert IsSpace(t[i]);
    }
  }

  /** ... and characters. */
  lemma MapKeepsPlain(f: char -> char, t: string)
    requires CaseLike(f) && forall i :: 0 <= i < |t| ==> Plain(t[i])
    ensures forall i :: 0 <= i < |t| ==> Plain(MapChars(f, t)[i])
  {
    var m := MapChars(f, t);
    forall i | 0 <= i < |m| ensures Plain(m[i]) {
      assert Decompose(t[i]) == [t[i]];
      assert Decompose(m[i])[0] == f(t[i]);
    }
  }

  lemma MapKeepsCanonical(f: char -> char, t: string)
    requires CaseLike(f) && Canonical(t)
    ensures Canonical(MapChars(f, t))
  {
    MapKeepsSpacing(f, t);
    MapKeepsPlain(f, t);
  }

  // ------------------------------------------- inputs Canon cannot tell apart

  /** The run at the very front. */
  lemma CollapseRunFront(w: string, q: string)
    requires |w| > 0 && forall i :: 0 <= i < |w| ==> IsSpace(w[i])
    ensures Collapse(w + q) == Collapse(" " + q)
  {
    assert (w + q)[1..] == w[1..] + q;
    assert (" " + q)[1..] == q;
    TrimStartAppend(w[1..], q);
  }

  /** A whitespace run of any length and kind collapses like one space. */
  lemma {:induction false} CollapseRun(p: string, w: string, q: string)
    requires |w| > 0 && forall i :: 0 <= i < |w| ==> IsSpace(w[i])
    ensures Collapse(p + w + q) == Collapse(p + " " + q)
    decreases |p|, 1
  {
    if p == [] {
      assert p + w + q == w + q && p + " " + q == " " + q;
      CollapseRunFront(w, q);
    } else if !IsSpace(p[0]) {
      assert (p + w + q)[0] == p[0] && (p + " " + q)[0] == p[0];
      assert (p + w + q)[1..] == p[1..] + w + q;
      assert (p + " " + q)[1..] == p[1..] + " " + q;
      CollapseRun(p[1..], w, q);
      assert Collapse(p + w + q) == [p[0]] + Collapse(p[1..] + w + q);
      assert Collapse(p + " " + q) == [p[0]] + Collapse(p[1..] + " " + q);
    } else {
      CollapseRunAfterSpace(p, w, q);
    }
  }

  /** The case of `CollapseRun` where `p` starts with whitespace. */
  lemma {:induction false} CollapseRunAfterSpace(p: string, w: string, q: string)
    requires p != [] && IsSpace(p[0])
    requires |w| > 0 && forall i :: 0 <= i < |w| ==> IsSpace(w[i])
    ensures Collapse(p + w + q) == Collapse(p + " " + q)
    decreases |p|, 0
  {
    var p1 := p[1..];
    assert (p + w + q)[0] == p[0] && (p + " " + q)[0] == p[0];
    assert (p + w + q)[1..] == p1 + (w + q);
    assert (p + " " + q)[1..] == p1 + (" " + q);
    assert Collapse(p + w + q) == [' '] + Collapse(TrimStart(p1 + (w + q)));
    assert Collapse(p + " " + q) == [' '] + Collapse(TrimStart(p1 + (" " + q)));
    TrimStartAppend(p1, w + q);
    TrimStartAppend(p1, " " + q);
    if LeadingSpaces(p1) == |p1| {
      TrimStartAppend(w, q);
      TrimStartAppend(" ", q);
    } else {
      var p2 := TrimStart(p1);
      assert p2 + (w + q) == p2 + w + q && p2 + (" " + q) == p2 + " " + q;
      CollapseRun(p2, w, q);
    }
  }

  lemma {:induction false} NfdOfSpaces(w: string)
    requires forall i :: 0 <= i < |w| ==> IsSpace(w[i])
    ensures Nfd(w) == w && StripDiacritics(w) == w
  {
    NfdFixed(w);
    StripFixed(w);
  }

  /** Whitespace runs of any length and kind normalise alike. */
  lemma CanonSpaceRun(a: string, w: string, b: string)
    requires |w| > 0 && forall i :: 0 <= i < |w| ==> IsSpace(w[i])
    ensures Canon(a + w + b) == Canon(a + " " + b)
  {
    NfdOfSpaces(w);
    NfdOfSpaces(" ");
    NfdAppend(a + w, b);
    NfdAppend(a, w);
    NfdAppend(a + " ", b);
    NfdAppend(a, " ");
    var p, q := Nfd(a), Nfd(b);
    StripAppend(p + w, q);
    StripAppend(p, w);
    StripAppend(p + " ", q);
    StripAppend(p, " ");
    CollapseRun(StripDiacritics(p), w, StripDiacritics(q));
  }

  lemma DiacriticIsDecomposed(m: char)
    requires IsDiacritic(m)
    ensures Decomposed(m)
  {
  }

  lemma NfdSplice(a: string, m: char, b: string)
    requires Decomposed(m)
    ensures Nfd(a + [m] + b) == Nfd(a) + [m] + Nfd(b)
  {
    NfdAppend(a + [m], b);
    NfdAppend(a, [m]);
    NfdFixed([m]);
  }

  lemma StripSplice(p: string, m: char, q: string)
    requires IsDiacritic(m)
    ensures StripDiacritics(p + [m] + q) == StripDiacritics(p) + StripDiacritics(q)
  {
    StripAppend(p + [m], q);
    StripAppend(p, [m]);
    assert StripDiacritics([m]) == [];
  }

  /** A combining mark or spacing accent anywhere is ignored. */
  lemma CanonDropsDiacritic(a: string, m: char, b: string)
    requires IsDiacritic(m)
    ensures Canon(a + [m] + b) == Canon(a + b)
  {
    DiacriticIsDecomposed(m);
    NfdSplice(a, m, b);
    NfdAppend(a, b);
    StripSplice(Nfd(a), m, Nfd(b));
    StripAppend(Nfd(a), Nfd(b));
  }

  lemma NfdIdempotent(s: string)
    ensures Nfd(Nfd(s)) == Nfd(s)
  {
    NfdChars(s);
    NfdFixed(Nfd(s));
  }

  /** Precomposed and decomposed spellings normalise alike. */
  lemma CanonOfNfd(s: string)
    ensures Canon(Nfd(s)) == Canon(s)
  {
    NfdIdempotent(s);
  }
}
