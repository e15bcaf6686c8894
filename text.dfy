/** JavaScript string primitives the core relies on, over `seq<char>` (one
    `char` per Unicode code point; `Utf16Length` gives JavaScript's `length`):
    the `\s` class, `trim`, whitespace collapsing, `includes`, `split`/`join`,
    case mapping, canonical decomposition and diacritic removal. Letter and
    number classes, case mapping and decomposition cover ASCII and Latin-1 only;
    a letter or number outside them is in none of the classes. */
module Text {
  /** The characters matched by `\s` and removed by `String.prototype.trim`. */
  predicate IsSpace(c: char)
  {
    c == '\t' || c == '\n' || c == '\U{000B}' || c == '\U{000C}' || c == '\r' || c == ' ' ||
    c == '\U{00A0}' || c == '\U{1680}' || ('\U{2000}' <= c <= '\U{200A}') ||
    c == '\U{2028}' || c == '\U{2029}' || c == '\U{202F}' || c == '\U{205F}' ||
    c == '\U{3000}' || c == '\U{FEFF}'
  }

  /** The characters `.` does not match in a regular expression. */
  predicate IsLineTerminator(c: char)
  {
    c == '\n' || c == '\r' || c == '\U{2028}' || c == '\U{2029}'
  }

  /** `\d`: an ASCII digit. */
  predicate IsDigit(c: char) { '0' <= c <= '9' }

  predicate AllDigits(s: string) { forall i :: 0 <= i < |s| ==> IsDigit(s[i]) }

  /** `\p{Ll}`: a lowercase letter. */
  predicate IsLowerLetter(c: char)
  {
    'a' <= c <= 'z' || c == '\U{00B5}' || ('\U{00DF}' <= c <= '\U{00FF}' && c != '\U{00F7}')
  }

  /** `\p{Lu}`: an uppercase letter. */
  predicate IsUpperLetter(c: char)
  {
    'A' <= c <= 'Z' || ('\U{00C0}' <= c <= '\U{00DE}' && c != '\U{00D7}') || c == '\U{0178}'
  }

  /** `\p{L}`: a letter of any case, or one without case (`ª`, `º`). */
  predicate IsLetter(c: char)
  {
    IsLowerLetter(c) || IsUpperLetter(c) || c == '\U{00AA}' || c == '\U{00BA}'
  }

  /** `\p{N}`: a digit, superscript digit or vulgar fraction. */
  predicate IsNumber(c: char)
  {
    IsDigit(c) || c == '\U{00B2}' || c == '\U{00B3}' || c == '\U{00B9}' || ('\U{00BC}' <= c <= '\U{00BE}')
  }

  /** The classes nest as the Unicode categories do: no character has both cases,
      and a digit is a number and not a letter. */
  lemma ClassesNest(c: char)
    ensures !(IsLowerLetter(c) && IsUpperLetter(c))
    ensures IsDigit(c) ==> IsNumber(c) && !IsLetter(c)
    ensures !(IsLetter(c) && IsNumber(c))
  {
  }

  /** `String.prototype.length`: the number of UTF-16 code units, two for a
      character outside the Basic Multilingual Plane. */
  function Utf16Length(s: string): (n: nat)
    ensures |s| <= n <= 2 * |s|
  {
    if s == [] then 0 else (if s[0] > '\U{FFFF}' then 2 else 1) + Utf16Length(s[1..])
  }

  /** On Basic Multilingual Plane text the two lengths agree. */
  lemma {:induction false} Utf16LengthBmp(s: string)
    requires forall i :: 0 <= i < |s| ==> s[i] <= '\U{FFFF}'
    ensures Utf16Length(s) == |s|
  {
    if s != [] {
      Utf16LengthBmp(s[1..]);
    }
  }

  // ---------------------------------------------------------------- trimming

  /** Length of the leading whitespace run. */
  function LeadingSpaces(s: string): (k: nat)
    ensures k <= |s|
    ensures forall i :: 0 <= i < k ==> IsSpace(s[i])
    ensures k < |s| ==> !IsSpace(s[k])
  {
    if s == [] || !IsSpace(s[0]) then 0 else 1 + LeadingSpaces(s[1..])
  }

  /** Length of the trailing whitespace run. */
  function TrailingSpaces(s: string): (k: nat)
    ensures k <= |s|
    ensures forall i :: |s| - k <= i < |s| ==> IsSpace(s[i])
    ensures k < |s| ==> !IsSpace(s[|s| - 1 - k])
  {
    if s == [] || !IsSpace(s[|s| - 1]) then 0 else 1 + TrailingSpaces(s[..|s| - 1])
  }

  function TrimStart(s: string): string { s[LeadingSpaces(s)..] }

  /** `String.prototype.trim`. */
  function Trim(s: string): (r: string)
    ensures r == [] || (!IsSpace(r[0]) && !IsSpace(r[|r| - 1]))
    ensures exists a, b :: 0 <= a <= b <= |s| && r == s[a..b]
  {
    var t := TrimStart(s);
    var r := t[..|t| - TrailingSpaces(t)];
    assert r == s[LeadingSpaces(s)..LeadingSpaces(s) + |r|];
    r
  }

  predicate Trimmed(s: string) { s == [] || (!IsSpace(s[0]) && !IsSpace(s[|s| - 1])) }

  // ------------------------------------------------------ whitespace collapse

  /** `s.replace(/\s+/g, " ")`: every maximal whitespace run becomes one space. */
  function Collapse(s: string): (r: string)
    ensures |r| <= |s|
    ensures s != [] && !IsSpace(s[0]) ==> r != [] && r[0] == s[0]
    ensures s != [] && IsSpace(s[0]) ==> r != [] && r[0] == ' '
    decreases |s|
  {
    if s == [] then []
    else if IsSpace(s[0]) then [' '] + Collapse(TrimStart(s[1..]))
    else [s[0]] + Collapse(s[1..])
  }

  /** No whitespace but single plain spaces. */
  predicate Collapsed(s: string)
  {
    forall i :: 0 <= i < |s| && IsSpace(s[i]) ==> s[i] == ' ' && (i + 1 < |s| ==> !IsSpace(s[i + 1]))
  }

  lemma {:induction false} CollapseIsCollapsed(s: string)
    ensures Collapsed(Collapse(s))
    decreases |s|
  {
    if s != [] {
      var r := Collapse(s);
      if IsSpace(s[0]) {
        var t := TrimStart(s[1..]);
        CollapseIsCollapsed(t);
        assert r == [' '] + Collapse(t);
      } else {
        CollapseIsCollapsed(s[1..]);
        assert r == [s[0]] + Collapse(s[1..]);
      }
    }
  }

  lemma {:induction false} CollapseOfCollapsed(s: string)
    requires Collapsed(s)
    ensures Collapse(s) == s
    decreases |s|
  {
    if s != [] {
      assert Collapsed(s[1..]) by {
        forall i | 0 <= i < |s[1..]| && IsSpace(s[1..][i])
          ensures s[1..][i] == ' ' && (i + 1 < |s[1..]| ==> !IsSpace(s[1..][i + 1]))
        {
          assert s[1..][i] == s[i + 1];
        }
      }
      CollapseOfCollapsed(s[1..]);
      if IsSpace(s[0]) {
        assert |s| > 1 ==> !IsSpace(s[1]);
        assert LeadingSpaces(s[1..]) == 0;
      }
    }
  }

  lemma CollapsedSlice(s: string, a: nat, b: nat)
    requires Collapsed(s) && a <= b <= |s|
    ensures Collapsed(s[a..b])
  {
    forall i | 0 <= i < b - a && IsSpace(s[a..b][i])
      ensures s[a..b][i] == ' ' && (i + 1 < b - a ==> !IsSpace(s[a..b][i + 1]))
    {
      assert s[a..b][i] == s[a + i];
    }
  }

  lemma TrimOfTrimmed(s: string)
    requires Trimmed(s)
    ensures Trim(s) == s
  {
    assert LeadingSpaces(s) == 0;
  }

  /** Whitespace around a trimmed, non-empty string is exactly what `trim`
      removes. */
  lemma TrimPadded(w1: string, s: string, w2: string)
    requires forall i :: 0 <= i < |w1| ==> IsSpace(w1[i])
    requires forall i :: 0 <= i < |w2| ==> IsSpace(w2[i])
    requires s != [] && Trimmed(s)
    ensures Trim(w1 + s + w2) == s
  {
    var x := w1 + s + w2;
    assert x[|w1|] == s[0];
    assert forall i :: 0 <= i < |w1| ==> IsSpace(x[i]);
    var k := LeadingSpaces(x);
    assert k == |w1|;
    var t := x[k..];
    assert t == s + w2;
    assert t[|s| - 1] == s[|s| - 1];
    assert forall i :: |s| <= i < |t| ==> IsSpace(t[i]);
    assert TrailingSpaces(t) == |w2|;
    assert t[..|t| - |w2|] == s;
  }

  lemma TrimIsCollapsed(s: string)
    requires Collapsed(s)
    ensures Collapsed(Trim(s))
  {
    var a, b :| 0 <= a <= b <= |s| && Trim(s) == s[a..b];
    CollapsedSlice(s, a, b);
  }

  /** A space appended to a string either merges into its last whitespace
      run or stays one space at the end. */
  lemma {:induction false} CollapseAppendSpace(y: string)
    ensures Collapse(y + " ") == Collapse(y) || Collapse(y + " ") == Collapse(y) + " "
    decreases |y|
  {
    if y == [] {
      assert y + " " == " ";
      assert Collapse(" ") == [' '] + Collapse(TrimStart(""));
    } else if !IsSpace(y[0]) {
      assert (y + " ")[1..] == y[1..] + " ";
      CollapseAppendSpace(y[1..]);
    } else {
      assert (y + " ")[1..] == y[1..] + " ";
      TrimStartAppend(y[1..], " ");
      if LeadingSpaces(y[1..]) < |y[1..]| {
        CollapseAppendSpace(TrimStart(y[1..]));
      } else {
        assert TrimStart(" ") == [];
        assert TrimStart(y[1..]) == [];
      }
    }
  }

  lemma {:induction false} TrimStartAppend(x: string, y: string)
    ensures LeadingSpaces(x) < |x| ==> TrimStart(x + y) == TrimStart(x) + y
    ensures LeadingSpaces(x) == |x| ==> TrimStart(x + y) == TrimStart(y)
    decreases |x|
  {
    if x == [] {
      assert x + y == y;
    } else if IsSpace(x[0]) {
      assert (x + y)[1..] == x[1..] + y;
      TrimStartSpace(x);
      TrimStartSpace(x + y);
      TrimStartAppend(x[1..], y);
    } else {
      assert (x + y)[0] == x[0];
    }
  }

  /** A leading whitespace character is dropped by `TrimStart`. */
  lemma TrimStartSpace(s: string)
    requires s != [] && IsSpace(s[0])
    ensures TrimStart(s) == TrimStart(s[1..])
  {
    assert s[1..][LeadingSpaces(s[1..])..] == s[1 + LeadingSpaces(s[1..])..];
  }

  /** `trim` ignores a trailing space. */
  lemma TrimAppendSpace(z: string)
    ensures Trim(z + " ") == Trim(z)
  {
    TrimStartAppend(z, " ");
    if LeadingSpaces(z) < |z| {
      var t := TrimStart(z);
      assert (t + " ")[..|t|] == t;
      assert TrailingSpaces(t + " ") == 1 + TrailingSpaces(t);
    } else {
      assert TrimStart(" ") == [];
    }
  }

  /** Collapsing and trimming ignore a trailing space. */
  lemma TrimCollapseAppendSpace(y: string)
    ensures Trim(Collapse(y + " ")) == Trim(Collapse(y))
  {
    CollapseAppendSpace(y);
    TrimAppendSpace(Collapse(y));
  }

  // --------------------------------------------------------------- searching

  predicate StartsWith(s: string, w: string) { |w| <= |s| && s[..|w|] == w }

  /** `w` occurs in `s` starting at index `i`. */
  predicate OccursAt(s: string, w: string, i: nat) { i + |w| <= |s| && s[i..i + |w|] == w }

  /** `s.includes(w)`. */
  predicate Contains(s: string, w: string)
  {
    exists i: nat | i <= |s| :: OccursAt(s, w, i)
  }

  /** A string lacking one of the characters of `w` does not contain `w`. */
  lemma MissingChar(s: string, w: string, c: char)
    requires c in w && c !in s
    ensures !Contains(s, w)
  {
  }

  /** A string that contains `w` contains every prefix of `w`. */
  lemma ContainsPrefix(s: string, w: string, v: string)
    requires Contains(s, w) && StartsWith(w, v)
    ensures Contains(s, v)
  {
    var i: nat :| i <= |s| && OccursAt(s, w, i);
    assert i + |w| <= |s| && s[i..i + |w|] == w;
    assert s[i..i + |v|] == s[i..i + |w|][..|v|];
    assert OccursAt(s, v, i);
  }

  /** Index of the first occurrence of `c` (the `indexOf` of a one-character
      needle), or -1. */
  function IndexOf(s: string, c: char): (r: int)
    ensures -1 <= r < |s|
    ensures r == -1 <==> c !in s
    ensures r >= 0 ==> s[r] == c && c !in s[..r]
  {
    if s == [] then -1
    else if s[0] == c then 0
    else
      var k := IndexOf(s[1..], c);
      if k < 0 then -1
      else
        assert s[..k + 1] == [s[0]] + s[1..][..k];
        k + 1
  }

  // ---------------------------------------------------------- split and join

  /** `s.split(c)` for a one-character separator. */
  function Split(s: string, c: char): (parts: seq<string>)
    ensures |parts| >= 1
    ensures forall k :: 0 <= k < |parts| ==> c !in parts[k]
    decreases |s|
  {
    if s == [] then [""]
    else
      var rest := Split(s[1..], c);
      if s[0] == c then [""] + rest
      else [[s[0]] + rest[0]] + rest[1..]
  }

  /** `parts.join(sep)`. */
  function Join(parts: seq<string>, sep: string): string
  {
    if |parts| == 0 then ""
    else if |parts| == 1 then parts[0]
    else parts[0] + sep + Join(parts[1..], sep)
  }

  lemma {:induction false} SplitPrefix(w: string, rest: string, c: char)
    requires c !in w
    ensures Split(w + rest, c) == [w + Split(rest, c)[0]] + Split(rest, c)[1..]
    decreases |w|
  {
    if w != [] {
      var tail := Split(w[1..] + rest, c);
      assert (w + rest)[1..] == w[1..] + rest;
      assert (w + rest)[0] == w[0] && w[0] != c;
      assert Split(w + rest, c) == [[w[0]] + tail[0]] + tail[1..];
      SplitPrefix(w[1..], rest, c);
      assert [w[0]] + (w[1..] + Split(rest, c)[0]) == w + Split(rest, c)[0];
    } else {
      var r := Split(rest, c);
      assert w + rest == rest && w + r[0] == r[0];
      assert [r[0]] + r[1..] == r;
    }
  }

  /** Splitting a join at a separator none of the parts contains gives the
      parts back. */
  lemma {:induction false} SplitJoin(parts: seq<string>, c: char)
    requires |parts| >= 1
    requires forall k :: 0 <= k < |parts| ==> c !in parts[k]
    ensures Split(Join(parts, [c]), c) == parts
    decreases |parts|
  {
    if |parts| == 1 {
      SplitPrefix(parts[0], "", c);
      assert parts[0] + "" == parts[0] && Split("", c) == [""];
      assert [parts[0]] == parts;
    } else {
      var tail := Join(parts[1..], [c]);
      SplitJoin(parts[1..], c);
      assert Join(parts, [c]) == parts[0] + ([c] + tail);
      SplitPrefix(parts[0], [c] + tail, c);
      assert ([c] + tail)[1..] == tail;
      assert Split([c] + tail, c) == [""] + parts[1..];
      assert parts[0] + "" == parts[0];
      assert [parts[0]] + parts[1..] == parts;
    }
  }

  // ----------------------------------------------------------- case mapping

  /** `toUpperCase` on one character (ASCII and Latin-1 letters, and `ÿ`).
      `ß` and `µ`, whose upper cases are "SS" and Greek `Μ`, are left as they are. */
  function ToUpper(c: char): char
  {
    if 'a' <= c <= 'z' || ('\U{00E0}' <= c <= '\U{00FE}' && c != '\U{00F7}') then (c as int - 32) as char
    else if c == '\U{00FF}' then '\U{0178}'
    else c
  }

  /** `toLowerCase` on one character (ASCII and Latin-1 letters, and `Ÿ`). */
  function ToLower(c: char): char
  {
    if 'A' <= c <= 'Z' || ('\U{00C0}' <= c <= '\U{00DE}' && c != '\U{00D7}') then (c as int + 32) as char
    else if c == '\U{0178}' then '\U{00FF}'
    else c
  }

  /** A character-by-character mapping of a string. */
  function MapChars(f: char -> char, s: string): (r: string)
    ensures |r| == |s| && forall i :: 0 <= i < |s| ==> r[i] == f(s[i])
  {
    if s == [] then [] else [f(s[0])] + MapChars(f, s[1..])
  }

  function Upper(s: string): string { MapChars(ToUpper, s) }

  function Lower(s: string): string { MapChars(ToLower, s) }

  lemma CaseFacts(c: char)
    ensures ToUpper(ToUpper(c)) == ToUpper(c) && ToLower(ToLower(c)) == ToLower(c)
    ensures ToUpper(ToLower(c)) == ToUpper(c) && ToLower(ToUpper(c)) == ToLower(c)
    ensures IsSpace(ToUpper(c)) == IsSpace(c) && IsSpace(ToLower(c)) == IsSpace(c)
  {
  }

  // ------------------------------------------------ decomposition (NFD subset)

  /** The canonical decomposition of a Latin-1 letter: its base letter and one
      combining mark; every other character decomposes to itself. */
  function Decompose(c: char): (r: seq<char>)
    ensures 1 <= |r| <= 2
  {
    var u := c as int;
    if u == 0xFF then ['y', '\U{0308}']
    else if u == 0x178 then ['Y', '\U{0308}']
    else if 0xC0 <= u <= 0xFE then
      var low := u >= 0xE0;
      var up := if low then u - 0x20 else u;
      var bm := LatinBaseMark(up);
      if bm.0 == 0 then [c]
      else [(if low then bm.0 + 0x20 else bm.0) as char, bm.1 as char]
    else [c]
  }

  /** For an upper-case Latin-1 code point: (base letter, combining mark),
      or (0, 0) when it has no decomposition. */
  function LatinBaseMark(up: int): (bm: (int, int))
    ensures bm.0 == 0 || (0x41 <= bm.0 <= 0x5A && 0x300 <= bm.1 <= 0x36F)
  {
    if 0xC0 <= up <= 0xC5 then (0x41, [0x300, 0x301, 0x302, 0x303, 0x308, 0x30A][up - 0xC0])
    else if up == 0xC7 then (0x43, 0x327)
    else if 0xC8 <= up <= 0xCB then (0x45, [0x300, 0x301, 0x302, 0x308][up - 0xC8])
    else if 0xCC <= up <= 0xCF then (0x49, [0x300, 0x301, 0x302, 0x308][up - 0xCC])
    else if up == 0xD1 then (0x4E, 0x303)
    else if 0xD2 <= up <= 0xD6 then (0x4F, [0x300, 0x301, 0x302, 0x303, 0x308][up - 0xD2])
    else if 0xD9 <= up <= 0xDC then (0x55, [0x300, 0x301, 0x302, 0x308][up - 0xD9])
    else if up == 0xDD then (0x59, 0x301)
    else (0, 0)
  }

  /** `s.normalize("NFD")`, restricted to the decompositions above. */
  function Nfd(s: string): string
  {
    if s == [] then [] else Decompose(s[0]) + Nfd(s[1..])
  }

  /** The characters `\p{Diacritic}` matches among those this model knows:
      the Latin-1 spacing accents and the combining diacritical marks
      U+0300..U+036F that have the property. The grapheme joiner U+034F,
      U+0358..U+035C and the combining Latin letters U+0363..U+036F do not. */
  predicate IsDiacritic(c: char)
  {
    ('\U{0300}' <= c <= '\U{034E}') || ('\U{0350}' <= c <= '\U{0357}') || ('\U{035D}' <= c <= '\U{0362}') ||
    c == '^' || c == '`' || c == '\U{00A8}' ||
    c == '\U{00AF}' || c == '\U{00B4}' || c == '\U{00B7}' || c == '\U{00B8}'
  }

  /** `s.replace(/\p{Diacritic}/gu, "")`. */
  function StripDiacritics(s: string): (r: string)
    ensures |r| <= |s|
  {
    if s == [] then []
    else (if IsDiacritic(s[0]) then [] else [s[0]]) + StripDiacritics(s[1..])
  }

  /** A character already in decomposed form. */
  predicate Decomposed(c: char) { Decompose(c) == [c] }

  lemma DecomposeParts(c: char)
    ensures forall k :: 0 <= k < |Decompose(c)| ==> Decomposed(Decompose(c)[k])
    ensures !Decomposed(c) ==> |Decompose(c)| == 2 && IsDiacritic(Decompose(c)[1]) && !IsSpace(Decompose(c)[0])
    ensures IsSpace(c) ==> Decomposed(c)
  {
  }

  /** Case mapping commutes with decomposition: the base letter changes case,
      the combining mark stays. */
  lemma UpperKeepsDecomposition(c: char)
    ensures |Decompose(ToUpper(c))| == |Decompose(c)|
    ensures forall k :: 0 <= k < |Decompose(c)| ==> Decompose(ToUpper(c))[k] == ToUpper(Decompose(c)[k])
    ensures IsDiacritic(ToUpper(c)) == IsDiacritic(c)
  {
  }

  lemma LowerKeepsDecomposition(c: char)
    ensures |Decompose(ToLower(c))| == |Decompose(c)|
    ensures forall k :: 0 <= k < |Decompose(c)| ==> Decompose(ToLower(c))[k] == ToLower(Decompose(c)[k])
    ensures IsDiacritic(ToLower(c)) == IsDiacritic(c)
  {
  }
}
