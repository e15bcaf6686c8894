/** The logic of the demographics step: the Guatemalan phone formatter, the
    normalisation of department names, the state index built from the
    states of the chosen country, the tolerant department lookup and the
    watchers that rewrite or clear dependent fields. The country, state and
    city datasets and the country-name lookup are parameters. */
module Demographics {
  import opened Wrappers
  import opened Text
  import opened Normalization
  import opened FormValues

  // ------------------------------------------------------------- fmtGT

  /** `s.replace(/\D/g, "")`: the ASCII digits of `s`, in order. */
  function Digits(s: string): (r: string)
    ensures |r| <= |s| && AllDigits(r)
  {
    if s == [] then [] else (if IsDigit(s[0]) then [s[0]] else []) + Digits(s[1..])
  }

  lemma {:induction false} DigitsAppend(a: string, b: string)
    ensures Digits(a + b) == Digits(a) + Digits(b)
    decreases |a|
  {
    if a == [] {
      assert a + b == b;
    } else {
      var h := if IsDigit(a[0]) then [a[0]] else [];
      assert (a + b)[0] == a[0];
      assert (a + b)[1..] == a[1..] + b;
      assert Digits(a + b) == h + Digits(a[1..] + b);
      DigitsAppend(a[1..], b);
      assert Digits(a) == h + Digits(a[1..]);
      assert h + (Digits(a[1..]) + Digits(b)) == (h + Digits(a[1..])) + Digits(b);
    }
  }

  /** A string of digits is its own digits. */
  lemma {:induction false} DigitsOfDigits(s: string)
    requires AllDigits(s)
    ensures Digits(s) == s
    decreases |s|
  {
    if s != [] {
      DigitsOfDigits(s[1..]);
    }
  }

  function Min(a: int, b: int): int { if a < b then a else b }

  /** `fmtGT`: at most eight digits, written `dddd-dddd` once more than four
      are present. Every non-digit of the input is dropped. */
  function FmtGT(s: string): (r: string)
    ensures |r| <= 9
    ensures Digits(r) == Digits(s)[..Min(|Digits(s)|, 8)]
    ensures '-' in r <==> |Digits(s)| > 4
    ensures |Digits(s)| > 4 ==> r[4] == '-'
    ensures forall i :: 0 <= i < |r| && i != 4 ==> IsDigit(r[i])
  {
    var raw := Digits(s)[..Min(|Digits(s)|, 8)];
    DigitsOfDigits(raw);
    if |raw| > 4 then
      DigitsOfDigits(raw[..4]);
      DigitsOfDigits(raw[4..]);
      DigitsAppend(raw[..4] + "-", raw[4..]);
      DigitsAppend(raw[..4], "-");
      assert raw[..4] + raw[4..] == raw;
      raw[..4] + "-" + raw[4..]
    else
      raw
  }

  /** Formatting a formatted number changes nothing. */
  lemma FmtGTIdempotent(s: string)
    ensures FmtGT(FmtGT(s)) == FmtGT(s)
  {
    var r := FmtGT(s);
    var raw := Digits(s)[..Min(|Digits(s)|, 8)];
    assert Digits(r) == raw;
    assert Digits(r)[..Min(|Digits(r)|, 8)] == raw;
  }

  /** The text the phone watcher reads: `values.telefono ?? ""`. */
  function PhoneText(f: Field): string
    requires f.Str? || f.Undefined?
  {
    if f.Str? then f.s else ""
  }

  /** The watcher on `telefono`: rewrites the field with its formatted form
      when the two differ; afterwards the field is already formatted, so the
      change it triggers finds nothing more to do. */
  method OnTelefonoChange(form: Form)
    requires form.values.telefono.Str? || form.values.telefono.Undefined?
    modifies form
    ensures var cur := PhoneText(old(form.values.telefono));
      form.values == if cur == FmtGT(cur) then old(form.values)
                     else Set(old(form.values), Telefono, Str(FmtGT(cur)))
    ensures form.values.telefono.Str? || form.values.telefono.Undefined?
    ensures var now := PhoneText(form.values.telefono); FmtGT(now) == now
  {
    var current := PhoneText(form.values.telefono);
    var formatted := FmtGT(current);
    if current != formatted {
      form.SetValue(Telefono, Str(formatted));
      FmtGTIdempotent(current);
    }
  }

  // -------------------------------------------------- department names

  /** `normalize`: absent becomes empty; decomposed, diacritics dropped,
      whitespace runs collapsed, trimmed, lower-cased. */
  function Normalize(s: Option<string>): string
  {
    Lower(Canon(s.GetOr("")))
  }

  lemma LowerTwice(t: string)
    ensures Lower(Lower(t)) == Lower(t)
  {
    forall i | 0 <= i < |t| ensures Lower(Lower(t))[i] == Lower(t)[i] {
      CaseFacts(t[i]);
    }
  }

  /** What `normalize` gives back is canonical and already lower case. */
  lemma NormalizeIsNormal(s: Option<string>)
    ensures Canonical(Normalize(s)) && Lower(Normalize(s)) == Normalize(s)
  {
    var t := Canon(s.GetOr(""));
    CanonIsCanonical(s.GetOr(""));
    LowerIsCaseLike();
    MapKeepsCanonical(ToLower, t);
    LowerTwice(t);
  }

  /** Normalising twice is normalising once. */
  lemma NormalizeIdempotent(s: Option<string>)
    ensures Normalize(Some(Normalize(s))) == Normalize(s)
  {
    NormalizeIsNormal(s);
    CanonOfCanonical(Normalize(s));
  }

  /** `\w` without the `u` flag. */
  predicate IsWordChar(c: char)
  {
    'a' <= c <= 'z' || 'A' <= c <= 'Z' || IsDigit(c) || c == '_'
  }

  /** How the `i` flag without `u` compares letters: ASCII letters fold,
      every other character matches only itself. */
  function Fold(c: char): char
  {
    if 'A' <= c <= 'Z' then (c as int + 32) as char else c
  }

  /** The descriptor words, in the order of the alternation. */
  const Descriptors: seq<string> :=
    ["departamento", "department", "provincia", "province", "region", "state", "estado"]

  predicate LowerWord(w: string)
  {
    |w| > 0 && forall k :: 0 <= k < |w| ==> 'a' <= w[k] <= 'z'
  }

  lemma DescriptorsAreWords()
    ensures forall w :: w in Descriptors ==> LowerWord(w)
  {
  }

  /** `\bw\b` matches at index `i` of `s`, ignoring ASCII case. */
  predicate WordAt(s: string, i: nat, w: string)
  {
    i + |w| <= |s| &&
    (forall k :: 0 <= k < |w| ==> Fold(s[i + k]) == w[k]) &&
    (i == 0 || !IsWordChar(s[i - 1])) &&
    (i + |w| == |s| || !IsWordChar(s[i + |w|]))
  }

  /** An alternation of lower-case words, as the descriptor pattern is. */
  predicate Words(ws: seq<string>)
  {
    forall w :: w in ws ==> LowerWord(w)
  }

  /** The length of the first alternative of `ws` matching at `i`, or 0. */
  function FirstWordAt(s: string, i: nat, ws: seq<string>): (n: nat)
    requires Words(ws)
    ensures n > 0 ==> exists w :: w in ws && |w| == n && WordAt(s, i, w)
    ensures n == 0 <==> forall w :: w in ws ==> !WordAt(s, i, w)
  {
    if ws == [] then 0
    else if WordAt(s, i, ws[0]) then assert ws[0] in ws; |ws[0]|
    else FirstWordAt(s, i, ws[1..])
  }

  /** Where the scan goes on from `i`: past the match, or one character on. */
  function Resume(s: string, i: nat, ws: seq<string>): (j: nat)
    requires Words(ws) && i < |s|
    ensures i < j <= |s|
  {
    var n := FirstWordAt(s, i, ws);
    if n == 0 then i + 1
    else
      var w :| w in ws && |w| == n && WordAt(s, i, w);
      i + n
  }

  /** `s.replace(/\b(w1|w2|...)\b/gi, "")` from index `i` on: the scan
      goes left to right, removes each match and resumes after it. */
  function StripFrom(s: string, i: nat, ws: seq<string>): string
    requires Words(ws)
    decreases |s| - i
  {
    if i >= |s| then []
    else (if FirstWordAt(s, i, ws) == 0 then [s[i]] else []) + StripFrom(s, Resume(s, i, ws), ws)
  }

  /** `stripDescriptors`. */
  function StripDescriptors(s: string): string
  {
    DescriptorsAreWords();
    Trim(Collapse(StripFrom(s, 0, Descriptors)))
  }

  /** `normKey`. */
  function NormKey(s: Option<string>): string
  {
    Normalize(Some(StripDescriptors(s.GetOr(""))))
  }

  /** Text in which no word of `ws` matches passes through. */
  lemma {:induction false} StripFromNone(s: string, i: nat, ws: seq<string>)
    requires Words(ws) && i <= |s|
    requires forall j, w :: i <= j < |s| && w in ws ==> !WordAt(s, j, w)
    ensures StripFrom(s, i, ws) == s[i..]
    decreases |s| - i
  {
    if i < |s| {
      StripFromNone(s, i + 1, ws);
      assert s[i..] == [s[i]] + s[i + 1..];
    }
  }

  /** Every character a match covers is a word character. */
  lemma MatchIsWord(s: string, i: nat, w: string, m: nat)
    requires WordAt(s, i, w) && LowerWord(w) && i <= m < i + |w|
    ensures IsWordChar(s[m])
  {
    assert Fold(s[i + (m - i)]) == w[m - i];
  }

  /** A match that starts inside `a` cannot run into a non-word character
      that follows `a`. */
  lemma WordAtPrefix(a: string, t: string, i: nat, w: string)
    requires t != [] && !IsWordChar(t[0]) && i < |a| && LowerWord(w)
    ensures WordAt(a + t, i, w) <==> WordAt(a, i, w)
  {
    var s := a + t;
    if WordAt(s, i, w) {
      if i + |w| > |a| {
        MatchIsWord(s, i, w, |a|);
      }
      assert i + |w| <= |a|;
      forall k | 0 <= k < |w| ensures Fold(a[i + k]) == w[k] {
        assert s[i + k] == a[i + k];
      }
      if i + |w| < |a| {
        assert s[i + |w|] == a[i + |w|];
      }
    }
    if WordAt(a, i, w) {
      forall k | 0 <= k < |w| ensures Fold(s[i + k]) == w[k] {
        assert s[i + k] == a[i + k];
      }
      if i + |w| < |a| {
        assert s[i + |w|] == a[i + |w|];
      }
    }
  }

  lemma {:induction false} FirstWordAtPrefix(a: string, t: string, i: nat, ws: seq<string>)
    requires t != [] && !IsWordChar(t[0]) && i < |a| && Words(ws)
    ensures FirstWordAt(a + t, i, ws) == FirstWordAt(a, i, ws)
  {
    if ws != [] {
      WordAtPrefix(a, t, i, ws[0]);
      FirstWordAtPrefix(a, t, i, ws[1..]);
    }
  }

  /** Removing the words from `a + t` removes them from `a` first, when `t`
      starts with a non-word character. */
  lemma {:induction false} StripFromPrefix(a: string, t: string, i: nat, ws: seq<string>)
    requires t != [] && !IsWordChar(t[0]) && i <= |a| && Words(ws)
    ensures StripFrom(a + t, i, ws) == StripFrom(a, i, ws) + StripFrom(a + t, |a|, ws)
    decreases |a| - i
  {
    if i < |a| {
      var r := Resume(a, i, ws);
      var h := if FirstWordAt(a, i, ws) == 0 then [a[i]] else [];
      StepPrefix(a, t, i, ws);
      StripFromPrefix(a, t, r, ws);
      ShareHead(StripFrom(a + t, i, ws), StripFrom(a, i, ws), h, StripFrom(a + t, r, ws), StripFrom(a, r, ws),
                StripFrom(a + t, |a|, ws));
    } else {
      assert StripFrom(a, i, ws) == [];
    }
  }

  /** `h + p` and `h + q` differ by the tail `z` that `p` adds to `q`. */
  lemma ShareHead(x: string, y: string, h: string, p: string, q: string, z: string)
    requires x == h + p && y == h + q && p == q + z
    ensures x == y + z
  {
  }

  /** One step of the scan over `a + t` inside `a` matches the scan over `a`. */
  lemma StepPrefix(a: string, t: string, i: nat, ws: seq<string>)
    requires t != [] && !IsWordChar(t[0]) && i < |a| && Words(ws)
    ensures Resume(a + t, i, ws) == Resume(a, i, ws)
    ensures var h := if FirstWordAt(a, i, ws) == 0 then [a[i]] else [];
      StripFrom(a + t, i, ws) == h + StripFrom(a + t, Resume(a, i, ws), ws) &&
      StripFrom(a, i, ws) == h + StripFrom(a, Resume(a, i, ws), ws)
  {
    FirstWordAtPrefix(a, t, i, ws);
    assert (a + t)[i] == a[i];
  }

  /** No word starts at a non-word character. */
  lemma NoWordAtNonWord(s: string, p: nat, ws: seq<string>)
    requires Words(ws) && p < |s| && !IsWordChar(s[p])
    ensures FirstWordAt(s, p, ws) == 0
  {
    forall u | u in ws ensures !WordAt(s, p, u) {
      assert LowerWord(u);
      if WordAt(s, p, u) {
        MatchIsWord(s, p, u, p);
      }
    }
  }

  /** A word of `ws`, in any ASCII case, that ends the text and follows a
      non-word character is matched, and the scan resumes at the end. */
  lemma FinalWord(s: string, i: nat, ws: seq<string>)
    requires Words(ws) && i < |s| && MapChars(Fold, s[i..]) in ws
    requires i == 0 || !IsWordChar(s[i - 1])
    ensures FirstWordAt(s, i, ws) > 0 && Resume(s, i, ws) == |s|
  {
    var w := MapChars(Fold, s[i..]);
    assert WordAt(s, i, w) by {
      forall k | 0 <= k < |w| ensures Fold(s[i + k]) == w[k] {
        assert s[i..][k] == s[i + k];
      }
    }
    var n := FirstWordAt(s, i, ws);
    var u :| u in ws && |u| == n && WordAt(s, i, u);
    assert LowerWord(w);
    if n < |w| {
      MatchIsWord(s, i, MapChars(Fold, s[i..]), i + n);
    }
  }

  /** A word of `ws`, in any ASCII case, after a space and at the end is
      removed; the space is kept. */
  lemma StripTrailingWord(a: string, v: string, ws: seq<string>)
    requires Words(ws) && MapChars(Fold, v) in ws
    ensures StripFrom(a + " " + v, |a|, ws) == " "
  {
    var s := a + " " + v;
    assert s[|a|] == ' ';
    assert s[|a| + 1..] == v;
    NoWordAtNonWord(s, |a|, ws);
    FinalWord(s, |a| + 1, ws);
    assert StripFrom(s, |a| + 1, ws) == [];
  }

  /** `v` is a descriptor word written in any ASCII case. */
  predicate IsDescriptor(v: string)
  {
    MapChars(Fold, v) in Descriptors
  }

  /** `normKey` treats "X department", "X Departamento", "X STATE" … alike
      with "X": a trailing descriptor word is ignored. */
  lemma NormKeyDropsDescriptor(a: string, v: string)
    requires IsDescriptor(v)
    ensures NormKey(Some(a + " " + v)) == NormKey(Some(a))
  {
    var s := a + " " + v;
    assert s == a + (" " + v);
    DescriptorsAreWords();
    StripFromPrefix(a, " " + v, 0, Descriptors);
    StripTrailingWord(a, v, Descriptors);
    TrimCollapseAppendSpace(StripFrom(a, 0, Descriptors));
  }

  // ------------------------------------------------------- state index

  /** A state of the chosen country as the dataset gives it. */
  datatype StateEntry = StateEntry(name: string, isoCode: string)

  /** A JavaScript `Map` from keys to ISO codes: its keys in insertion order
      and the value each of them holds. */
  datatype Index = Index(keys: seq<string>, vals: map<string, string>)

  /** What every `Map` satisfies: each key is listed once, and a key is
      listed exactly when it holds a value. */
  ghost predicate Valid(idx: Index)
  {
    (forall i, j :: 0 <= i < j < |idx.keys| ==> idx.keys[i] != idx.keys[j]) &&
    (forall k :: k in idx.vals <==> k in idx.keys)
  }

  /** `new Map()`. */
  const EmptyIndex: Index := Index([], map[])

  /** `map.get(k)`. */
  function Lookup(idx: Index, k: string): Option<string>
  {
    if k in idx.vals then Some(idx.vals[k]) else None
  }

  /** `map.set(k, v)`: an existing key keeps its place and takes the new
      value; a new key goes to the end. */
  function Put(idx: Index, k: string, v: string): (r: Index)
    ensures Valid(idx) ==> Valid(r)
    ensures Lookup(r, k) == Some(v)
    ensures forall j :: j != k ==> Lookup(r, j) == Lookup(idx, j)
    ensures k in idx.vals ==> r.keys == idx.keys
    ensures k !in idx.vals ==> r.keys == idx.keys + [k]
  {
    Index(if k in idx.vals then idx.keys else idx.keys + [k], idx.vals[k := v])
  }

  /** The two keys a state contributes, the stripped key and the full
      normalised name, with its code. */
  datatype Keyed = Keyed(k1: string, k2: string, code: string)

  function KeysOf(st: StateEntry): Keyed
  {
    Keyed(NormKey(Some(st.name)), Normalize(Some(st.name)), st.isoCode)
  }

  /** `k` is one of the keys `e` puts into the index: an empty key never is. */
  predicate IsKeyOf(e: Keyed, k: string)
  {
    k != "" && (k == e.k1 || k == e.k2)
  }

  /** One turn of the loop that builds the index: the second key is only
      set when it differs from the first. */
  function AddState(idx: Index, e: Keyed): Index
  {
    var i1 := if e.k1 != "" then Put(idx, e.k1, e.code) else idx;
    if e.k2 != "" && e.k2 != e.k1 then Put(i1, e.k2, e.code) else i1
  }

  /** The keys of each state, in dataset order. */
  function KeyedStates(states: seq<StateEntry>): (es: seq<Keyed>)
    ensures |es| == |states| && forall i :: 0 <= i < |states| ==> es[i] == KeysOf(states[i])
  {
    seq(|states|, i requires 0 <= i < |states| => KeysOf(states[i]))
  }

  /** The index once the loop has visited the first `n` states, whose keys
      are `es`. */
  function IndexOf(es: seq<Keyed>, n: nat): Index
    requires n <= |es|
  {
    if n == 0 then EmptyIndex else AddState(IndexOf(es, n - 1), es[n - 1])
  }

  /** `stateIndex` once the loop has visited `states`. */
  function StateIndex(states: seq<StateEntry>): Index
  {
    IndexOf(KeyedStates(states), |states|)
  }

  /** The loop that fills `stateIndex`. */
  method BuildStateIndex(states: seq<StateEntry>) returns (idx: Index)
    ensures idx == StateIndex(states)
  {
    idx := EmptyIndex;
    for n := 0 to |states|
      invariant idx == IndexOf(KeyedStates(states), n)
    {
      var next := IndexState(idx, states[n]);
      IndexStep(states, n, idx, next);
      idx := next;
    }
  }

  /** A loop turn on state `n` extends the index of the first `n` states to
      that of the first `n + 1`. */
  lemma IndexStep(states: seq<StateEntry>, n: nat, idx: Index, next: Index)
    requires n < |states| && idx == IndexOf(KeyedStates(states), n)
    requires next == AddState(idx, KeysOf(states[n]))
    ensures next == IndexOf(KeyedStates(states), n + 1)
  {
    assert KeyedStates(states)[n] == KeysOf(states[n]);
  }

  /** The body of that loop, for one state `st`. */
  method IndexState(idx: Index, st: StateEntry) returns (r: Index)
    ensures r == AddState(idx, KeysOf(st))
  {
    var k1 := NormKey(Some(st.name));
    var k2 := Normalize(Some(st.name));
    r := idx;
    if k1 != "" {
      r := Put(r, k1, st.isoCode);
    }
    if k2 != "" && k2 != k1 {
      r := Put(r, k2, st.isoCode);
    }
  }

  /** One state maps its own keys to its code and leaves the rest alone. */
  lemma AddStateMeans(idx: Index, e: Keyed)
    ensures Valid(idx) ==> Valid(AddState(idx, e))
    ensures forall k :: IsKeyOf(e, k) ==> Lookup(AddState(idx, e), k) == Some(e.code)
    ensures forall k :: !IsKeyOf(e, k) ==> Lookup(AddState(idx, e), k) == Lookup(idx, k)
  {
  }

  lemma {:induction false} IndexValid(es: seq<Keyed>, n: nat)
    requires n <= |es|
    ensures Valid(IndexOf(es, n))
  {
    if n > 0 {
      IndexValid(es, n - 1);
      AddStateMeans(IndexOf(es, n - 1), es[n - 1]);
    }
  }

  lemma {:induction false} IndexAbsent(es: seq<Keyed>, n: nat, k: string)
    requires n <= |es|
    requires forall i :: 0 <= i < n ==> !IsKeyOf(es[i], k)
    ensures Lookup(IndexOf(es, n), k) == None
  {
    if n > 0 {
      IndexAbsent(es, n - 1, k);
      AddStateMeans(IndexOf(es, n - 1), es[n - 1]);
    }
  }

  lemma {:induction false} IndexLast(es: seq<Keyed>, n: nat, k: string, i: nat)
    requires i < n <= |es| && IsKeyOf(es[i], k)
    requires forall j :: i < j < n ==> !IsKeyOf(es[j], k)
    ensures Lookup(IndexOf(es, n), k) == Some(es[i].code)
  {
    AddStateMeans(IndexOf(es, n - 1), es[n - 1]);
    if i < n - 1 {
      IndexLast(es, n - 1, k, i);
    }
  }

  /** The index is a well-formed `Map`. */
  lemma StateIndexValid(states: seq<StateEntry>)
    ensures Valid(StateIndex(states))
  {
    IndexValid(KeyedStates(states), |states|);
  }

  /** A key no state contributes is absent from the index. */
  lemma StateIndexAbsent(states: seq<StateEntry>, k: string)
    requires forall i :: 0 <= i < |states| ==> !IsKeyOf(KeysOf(states[i]), k)
    ensures Lookup(StateIndex(states), k) == None
  {
    IndexAbsent(KeyedStates(states), |states|, k);
  }

  /** A key maps to the code of the LAST state that contributes it: a later
      state overwrites a shared key. */
  lemma StateIndexLast(states: seq<StateEntry>, k: string, i: nat)
    requires i < |states| && IsKeyOf(KeysOf(states[i]), k)
    requires forall j :: i < j < |states| ==> !IsKeyOf(KeysOf(states[j]), k)
    ensures Lookup(StateIndex(states), k) == Some(states[i].isoCode)
  {
    IndexLast(KeyedStates(states), |states|, k, i);
  }

  // ------------------------------------------------- department lookup

  /** The fuzzy test of the lookup: either key contains the other. */
  predicate Related(k: string, target: string)
  {
    Contains(k, target) || Contains(target, k)
  }

  /** `Array.from(stateIndex.entries()).find(...)`: the position of the
      first key, in insertion order, related to `target`. */
  function FirstRelated(keys: seq<string>, target: string): (r: Option<nat>)
    ensures r.Some? ==> r.value < |keys| && Related(keys[r.value], target)
    ensures r.Some? ==> forall j :: 0 <= j < r.value ==> !Related(keys[j], target)
    ensures r.None? <==> forall j :: 0 <= j < |keys| ==> !Related(keys[j], target)
  {
    if keys == [] then None
    else if Related(keys[0], target) then Some(0)
    else
      var r := FirstRelated(keys[1..], target);
      assert forall j :: 0 < j < |keys| ==> keys[j] == keys[1..][j - 1];
      if r.Some? then Some(r.value + 1) else None
  }

  /** A key is related to itself. */
  lemma KeyIsRelated(keys: seq<string>, target: string)
    ensures target in keys ==> exists j :: 0 <= j < |keys| && Related(keys[j], target)
  {
    if target in keys {
      var i :| 0 <= i < |keys| && keys[i] == target;
      assert OccursAt(target, target, 0);
    }
  }

  /** A truthy code: present and not empty. */
  predicate Truthy(code: Option<string>) { code.Some? && code.value != "" }

  /** `selectedStateCode`: the exact key first; when that gives nothing
      truthy and the target is not empty, the code of the first related key. */
  function ResolvedCode(idx: Index, target: string): (code: Option<string>)
    requires Valid(idx)
    ensures Truthy(Lookup(idx, target)) ==> code == Lookup(idx, target)
    ensures !Truthy(Lookup(idx, target)) && target == "" ==> code == Lookup(idx, target)
    ensures !Truthy(Lookup(idx, target)) && target != "" ==>
      (code.Some? <==> exists j :: 0 <= j < |idx.keys| && Related(idx.keys[j], target))
    ensures !Truthy(Lookup(idx, target)) && target != "" && code.Some? ==>
      exists j :: 0 <= j < |idx.keys| && Lookup(idx, idx.keys[j]) == code &&
        Related(idx.keys[j], target) && forall m :: 0 <= m < j ==> !Related(idx.keys[m], target)
    ensures target != "" && target in idx.vals ==> code.Some?
  {
    var exact := Lookup(idx, target);
    if !Truthy(exact) && target != "" then
      var hit := FirstRelated(idx.keys, target);
      KeyIsRelated(idx.keys, target);
      if hit.Some? then Lookup(idx, idx.keys[hit.value]) else None
    else exact
  }

  /** The statements computing `selectedStateCode`. */
  method ResolveStateCode(idx: Index, target: string) returns (code: Option<string>)
    requires Valid(idx)
    ensures code == ResolvedCode(idx, target)
  {
    code := Lookup(idx, target);
    if !Truthy(code) && target != "" {
      var hit := FirstRelated(idx.keys, target);
      code := if hit.Some? then Lookup(idx, idx.keys[hit.value]) else None;
    }
  }

  /** A department named like one of the country's states resolves to that
      state's code, provided no later state shares its key and the code is
      not empty. */
  lemma DepartmentResolves(states: seq<StateEntry>, i: nat, depto: string)
    requires i < |states| && IsKeyOf(KeysOf(states[i]), NormKey(Some(depto)))
    requires forall j :: i < j < |states| ==> !IsKeyOf(KeysOf(states[j]), NormKey(Some(depto)))
    requires states[i].isoCode != ""
    ensures Valid(StateIndex(states))
    ensures ResolvedCode(StateIndex(states), NormKey(Some(depto))) == Some(states[i].isoCode)
  {
    StateIndexValid(states);
    StateIndexLast(states, NormKey(Some(depto)), i);
  }

  /** An empty department resolves to nothing: the index never holds the
      empty key, and for an empty target no fuzzy lookup is made. */
  lemma EmptyDepartmentUnresolved(states: seq<StateEntry>)
    ensures Valid(StateIndex(states))
    ensures ResolvedCode(StateIndex(states), "") == None
  {
    StateIndexValid(states);
    StateIndexAbsent(states, "");
  }

  // ---------------------------------------------- country and city lists

  /** `countryCode`: the Spanish name lookup, then the English one, else "". */
  function CountryCode(name: Option<string>, alpha2Es: string -> Option<string>,
                       alpha2En: string -> Option<string>): (code: string)
    ensures name.None? || name.value == "" ==> code == ""
    ensures code != "" ==> Some(code) == alpha2Es(name.value) || Some(code) == alpha2En(name.value)
    ensures name.Some? && name.value != "" && Truthy(alpha2Es(name.value)) ==> Some(code) == alpha2Es(name.value)
  {
    if name.None? || name.value == "" then ""
    else if Truthy(alpha2Es(name.value)) then alpha2Es(name.value).value
    else if Truthy(alpha2En(name.value)) then alpha2En(name.value).value
    else ""
  }

  /** `states`: none without a country code. */
  function StatesOf(countryCode: string, statesOfCountry: string -> seq<StateEntry>): (r: seq<StateEntry>)
    ensures countryCode == "" ==> r == []
    ensures countryCode != "" ==> r == statesOfCountry(countryCode)
  {
    if countryCode != "" then statesOfCountry(countryCode) else []
  }

  /** `cityList`: the cities of the state, only when both codes are truthy. */
  function CityList(countryCode: string, stateCode: Option<string>,
                    citiesOfState: (string, string) -> seq<string>): (r: seq<string>)
    ensures r != [] ==> countryCode != "" && Truthy(stateCode)
    ensures countryCode != "" && Truthy(stateCode) ==> r == citiesOfState(countryCode, stateCode.value)
  {
    if countryCode != "" && Truthy(stateCode) then citiesOfState(countryCode, stateCode.value) else []
  }

  // ------------------------------------------------- dependent fields

  /** The effect on `pais`: department and municipality are cleared. */
  method OnPaisChange(form: Form)
    modifies form
    ensures form.values == Set(Set(old(form.values), DepartamentoResidencia, Str("")), MunicipioResidencia, Str(""))
    ensures Get(form.values, DepartamentoResidencia) == Str("") && Get(form.values, MunicipioResidencia) == Str("")
    ensures forall k :: k != DepartamentoResidencia && k != MunicipioResidencia ==>
      Get(form.values, k) == Get(old(form.values), k)
  {
    form.SetValue(DepartamentoResidencia, Str(""));
    form.SetValue(MunicipioResidencia, Str(""));
  }

  /** The effect on `departamento_residencia`: only the municipality is cleared. */
  method OnDepartamentoChange(form: Form)
    modifies form
    ensures form.values == Set(old(form.values), MunicipioResidencia, Str(""))
    ensures Get(form.values, MunicipioResidencia) == Str("")
    ensures forall k :: k != MunicipioResidencia ==> Get(form.values, k) == Get(old(form.values), k)
  {
    form.SetValue(MunicipioResidencia, Str(""));
  }
}
