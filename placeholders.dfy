/**
 * The text level of the invoice template: `{{key}}` placeholders, their
 * substitution into paragraphs (`replaceInParagraph`) and into the
 * description cell of a block line (`setCellFromTemplate`).  A paragraph is
 * reduced to its runs, a run to its text and the formatting the generator
 * sets on it.
 */
module Placeholders {
  import opened JavaText

  // ---------------------------------------------------------------
  // The pattern \{\{([a-zA-Z0-9_]+)\}\}
  // ---------------------------------------------------------------

  /** A character of `[a-zA-Z0-9_]`. */
  predicate IsKeyChar(c: char)
  {
    'a' <= c <= 'z' || 'A' <= c <= 'Z' || '0' <= c <= '9' || c == '_'
  }

  predicate IsKey(k: string)
  {
    |k| > 0 && forall i :: 0 <= i < |k| ==> IsKeyChar(k[i])
  }

  /** The end of the run of key characters starting at `i` (the greedy `[a-zA-Z0-9_]+`). */
  function KeyEnd(s: string, i: nat): (e: nat)
    requires i <= |s|
    ensures i <= e <= |s|
    decreases |s| - i
  {
    if i < |s| && IsKeyChar(s[i]) then KeyEnd(s, i + 1) else i
  }

  /** The greedy key run: key characters up to `KeyEnd`, and none at it. */
  lemma {:induction false} KeyEndShape(s: string, i: nat)
    requires i <= |s|
    ensures forall j :: i <= j < KeyEnd(s, i) ==> IsKeyChar(s[j])
    ensures KeyEnd(s, i) < |s| ==> !IsKeyChar(s[KeyEnd(s, i)])
    decreases |s| - i
  {
    if i < |s| && IsKeyChar(s[i]) {
      KeyEndShape(s, i + 1);
    }
  }

  /**
   * The end of the placeholder that starts at `p`, if one does: `{{`, at
   * least one key character, `}}`.  Since `}` is not a key character, the
   * greedy key is the only one that can be followed by `}}`.
   */
  function MatchAt(s: string, p: nat): (e: Option<nat>)
    ensures e.Some? ==> p + 5 <= e.value <= |s|
  {
    if p + 2 <= |s| && s[p] == '{' && s[p + 1] == '{' then
      var w := KeyEnd(s, p + 2);
      if w > p + 2 && w + 2 <= |s| && s[w] == '}' && s[w + 1] == '}' then Some(w + 2) else None
    else None
  }

  /** `matcher.find()` from `from`: the start of the leftmost placeholder at or after `from`. */
  function Find(s: string, from: nat): (m: Option<nat>)
    requires from <= |s|
    ensures m.Some? ==> from <= m.value < |s| && MatchAt(s, m.value).Some?
    decreases |s| - from
  {
    if from == |s| then None
    else if MatchAt(s, from).Some? then Some(from)
    else Find(s, from + 1)
  }

  /** `m.group(1)`: the key between the braces. */
  function KeyOfMatch(s: string, p: nat): string
    requires MatchAt(s, p).Some?
  {
    s[p + 2..MatchAt(s, p).value - 2]
  }

  /** `vars.get(key)`, or `""` when it is missing. */
  function Lookup(vars: map<string, string>, key: string): string
  {
    if key in vars then vars[key] else ""
  }

  /** The text from `from` on with every placeholder replaced by its value. */
  function Substitute(s: string, from: nat, vars: map<string, string>): string
    requires from <= |s|
    decreases |s| - from
  {
    match Find(s, from)
    case None => s[from..]
    case Some(p) =>
      s[from..p] + Lookup(vars, KeyOfMatch(s, p)) + Substitute(s, MatchAt(s, p).value, vars)
  }

  // ---------------------------------------------------------------
  // Properties of the pattern
  // ---------------------------------------------------------------

  /** A match is `{{`, a key, `}}`, and the key is the maximal run of key characters. */
  lemma MatchShape(s: string, p: nat)
    requires MatchAt(s, p).Some?
    ensures var e := MatchAt(s, p).value;
            s[p..e] == "{{" + KeyOfMatch(s, p) + "}}" && IsKey(KeyOfMatch(s, p))
  {
    var e := MatchAt(s, p).value;
    var k := KeyOfMatch(s, p);
    KeyEndShape(s, p + 2);
    assert s[p..e] == s[p..p + 2] + k + s[e - 2..e];
  }

  /** `find` returns the leftmost match: none starts between `from` and it, and none at all when it fails. */
  lemma {:induction false} FindIsLeftmost(s: string, from: nat)
    requires from <= |s|
    ensures Find(s, from).Some? ==> forall q :: from <= q < Find(s, from).value ==> MatchAt(s, q).None?
    ensures Find(s, from).None? ==> forall q :: from <= q ==> MatchAt(s, q).None?
    decreases |s| - from
  {
    if from < |s| && MatchAt(s, from).None? {
      FindIsLeftmost(s, from + 1);
    }
  }

  /** Without a `{`, nothing matches and nothing is replaced. */
  lemma {:induction false} NoBraceNoPlaceholder(s: string, from: nat, vars: map<string, string>)
    requires from <= |s|
    requires '{' !in s
    ensures Find(s, from).None?
    ensures Substitute(s, from, vars) == s[from..]
    decreases |s| - from
  {
    if from < |s| {
      assert s[from] in s;
      NoBraceNoPlaceholder(s, from + 1, vars);
    }
  }

  /** A text without placeholders comes back unchanged. */
  lemma NoPlaceholderUnchanged(s: string, vars: map<string, string>)
    requires Find(s, 0).None?
    ensures Substitute(s, 0, vars) == s
  {
  }

  /** Key runs and matches look only forward: a prefix shifts them. */
  lemma {:induction false} KeyEndShift(a: string, b: string, i: nat)
    requires i <= |b|
    ensures KeyEnd(a + b, |a| + i) == |a| + KeyEnd(b, i)
    decreases |b| - i
  {
    if i < |b| {
      assert (a + b)[|a| + i] == b[i];
      if IsKeyChar(b[i]) {
        KeyEndShift(a, b, i + 1);
      }
    }
  }

  lemma MatchAtShift(a: string, b: string, q: nat)
    requires q <= |b|
    ensures MatchAt(a + b, |a| + q) == if MatchAt(b, q).Some? then Some(|a| + MatchAt(b, q).value) else None
  {
    if q + 2 <= |b| {
      KeyEndShift(a, b, q + 2);
      var w := KeyEnd(b, q + 2);
      if w + 2 <= |b| {
        assert (a + b)[|a| + w] == b[w] && (a + b)[|a| + w + 1] == b[w + 1];
      }
    }
  }

  lemma {:induction false} FindShift(a: string, b: string, q: nat)
    requires q <= |b|
    ensures Find(a + b, |a| + q) == if Find(b, q).Some? then Some(|a| + Find(b, q).value) else None
    decreases |b| - q
  {
    if q < |b| {
      MatchAtShift(a, b, q);
      if MatchAt(b, q).None? {
        FindShift(a, b, q + 1);
      }
    }
  }

  lemma {:induction false} SubstituteShift(a: string, b: string, q: nat, n: nat, vars: map<string, string>)
    requires q <= |b| && n == |a| + q
    ensures Substitute(a + b, n, vars) == Substitute(b, q, vars)
    decreases |b| - q
  {
    if Find(b, q).None? {
      ShiftNoMatch(a, b, q, n, vars);
    } else {
      var p := Find(b, q).value;
      var e := MatchAt(b, p).value;
      var ae := |a| + e;
      SubstituteShift(a, b, e, ae, vars);
      ShiftStep(a, b, q, n, p, e, vars);
    }
  }

  /** Without a match left, the shifted text's rest is the rest of `b`. */
  lemma ShiftNoMatch(a: string, b: string, q: nat, n: nat, vars: map<string, string>)
    requires q <= |b| && n == |a| + q
    requires Find(b, q).None?
    ensures Substitute(a + b, n, vars) == Substitute(b, q, vars)
  {
    FindShift(a, b, q);
    assert (a + b)[n..] == b[q..];
  }

  /** The step of SubstituteShift: the shifted text meets the same match, given the rest agrees. */
  lemma ShiftStep(a: string, b: string, q: nat, n: nat, p: nat, e: nat, vars: map<string, string>)
    requires q <= |b| && n == |a| + q
    requires Find(b, q) == Some(p) && MatchAt(b, p) == Some(e)
    requires Substitute(a + b, |a| + e, vars) == Substitute(b, e, vars)
    ensures Substitute(a + b, n, vars) == Substitute(b, q, vars)
  {
    var ap, ae := |a| + p, |a| + e;
    ShiftedMatch(a, b, q, n, p, e, ap, ae);
    SameStep(a + b, n, ap, ae, b, q, p, e, vars);
  }

  /** The match `b` meets from `q` is met, shifted by `|a|`, in `a + b`, with the same text around it. */
  lemma ShiftedMatch(a: string, b: string, q: nat, n: nat, p: nat, e: nat, ap: nat, ae: nat)
    requires q <= |b| && n == |a| + q && ap == |a| + p && ae == |a| + e
    requires Find(b, q) == Some(p) && MatchAt(b, p) == Some(e)
    ensures Find(a + b, n) == Some(ap) && MatchAt(a + b, ap) == Some(ae)
    ensures (a + b)[n..ap] == b[q..p] && (a + b)[ap + 2..ae - 2] == b[p + 2..e - 2]
  {
    ShiftedFind(a, b, q, n, p, ap);
    ShiftedMatchAt(a, b, p, e, ap, ae);
    AppendSlice(a, b, q, p, n, ap);
    AppendSlice(a, b, p + 2, e - 2, ap + 2, ae - 2);
  }

  lemma ShiftedFind(a: string, b: string, q: nat, n: nat, p: nat, ap: nat)
    requires q <= |b| && n == |a| + q && ap == |a| + p
    requires Find(b, q) == Some(p)
    ensures Find(a + b, n) == Some(ap)
  {
    FindShift(a, b, q);
  }

  lemma ShiftedMatchAt(a: string, b: string, p: nat, e: nat, ap: nat, ae: nat)
    requires p <= |b| && ap == |a| + p && ae == |a| + e
    requires MatchAt(b, p) == Some(e)
    ensures MatchAt(a + b, ap) == Some(ae)
  {
    MatchAtShift(a, b, p);
  }

  /** Two texts whose next match splits them alike substitute alike. */
  lemma SameStep(s: string, n: nat, ap: nat, ae: nat, b: string, q: nat, p: nat, e: nat, vars: map<string, string>)
    requires n <= |s| && q <= |b|
    requires Find(s, n) == Some(ap) && MatchAt(s, ap) == Some(ae)
    requires Find(b, q) == Some(p) && MatchAt(b, p) == Some(e)
    requires s[n..ap] == b[q..p] && s[ap + 2..ae - 2] == b[p + 2..e - 2]
    requires Substitute(s, ae, vars) == Substitute(b, e, vars)
    ensures Substitute(s, n, vars) == Substitute(b, q, vars)
  {
    SubstituteStep(s, n, ap, ae, vars);
    SubstituteStep(b, q, p, e, vars);
  }

  /** A slice of `b` inside `a + b`. */
  lemma AppendSlice(a: string, b: string, i: nat, j: nat, i': nat, j': nat)
    requires i <= j <= |b| && i' == |a| + i && j' == |a| + j
    ensures (a + b)[i'..j'] == b[i..j]
  {
  }

  /** One step of the substitution: the text before the match, the value, and the rest. */
  lemma SubstituteStep(s: string, from: nat, p: nat, e: nat, vars: map<string, string>)
    requires from <= |s|
    requires Find(s, from) == Some(p) && MatchAt(s, p) == Some(e)
    ensures p + 5 <= e <= |s|
    ensures Substitute(s, from, vars) == s[from..p] + Lookup(vars, s[p + 2..e - 2]) + Substitute(s, e, vars)
  {
    assert KeyOfMatch(s, p) == s[p + 2..e - 2];
  }

  /** A key followed by a non-key character: the key run ends right after the key. */
  lemma {:induction false} KeyEndAt(t: string, i: nat, j: nat)
    requires i <= j < |t|
    requires forall x :: i <= x < j ==> IsKeyChar(t[x])
    requires !IsKeyChar(t[j])
    ensures KeyEnd(t, i) == j
    decreases j - i
  {
    if i < j {
      KeyEndAt(t, i + 1, j);
    }
  }

  /** Appending a text that starts with a non-key character leaves the key runs inside `a` alone. */
  lemma {:induction false} KeyEndPrefix(a: string, t: string, i: nat)
    requires i <= |a|
    requires |t| > 0 && !IsKeyChar(t[0])
    ensures KeyEnd(a + t, i) == KeyEnd(a, i)
    decreases |a| - i
  {
    if i < |a| {
      assert (a + t)[i] == a[i];
      if IsKeyChar(a[i]) {
        KeyEndPrefix(a, t, i + 1);
      }
    } else {
      assert (a + t)[i] == t[0];
    }
  }

  /** No match starts inside a placeholder-free `a` when `{{` follows it. */
  lemma NoMatchBefore(a: string, t: string, q: nat)
    requires Find(a, 0).None?
    requires |t| >= 2 && t[0] == '{' && t[1] == '{'
    requires q < |a|
    ensures MatchAt(a + t, q).None?
  {
    var s := a + t;
    FindIsLeftmost(a, 0);
    assert MatchAt(a, q).None?;
    if q + 2 <= |a| {
      KeyEndPrefix(a, t, q + 2);
      var w := KeyEnd(a, q + 2);
      assert s[q] == a[q] && s[q + 1] == a[q + 1];
      if w + 2 <= |a| {
        assert s[w] == a[w] && s[w + 1] == a[w + 1];
      } else if w == |a| {
        assert s[w] == t[0];
      } else {
        assert s[w + 1] == t[0];
      }
    } else {
      assert s[q + 1] == t[0];
      assert s[q + 2] == t[1];
      KeyEndAt(s, q + 2, q + 2);
    }
  }

  /** `find` from 0 stops at the first match. */
  lemma {:induction false} FindFirstAt(s: string, from: nat, x: nat)
    requires from <= x <= |s|
    requires forall q :: from <= q < x ==> MatchAt(s, q).None?
    requires MatchAt(s, x).Some?
    ensures Find(s, from) == Some(x)
    decreases x - from
  {
    if from < x {
      FindFirstAt(s, from + 1, x);
    }
  }

  /** `{{k}}` at the front of a text is a match with key `k`. */
  lemma PlaceholderFront(k: string, b: string, t: string)
    requires IsKey(k) && t == "{{" + k + "}}" + b
    ensures |t| >= 2 && t[0] == '{' && t[1] == '{'
    ensures MatchAt(t, 0) == Some(|k| + 4)
  {
    assert t[|k| + 2] == '}' && t[|k| + 3] == '}';
    forall x | 2 <= x < |k| + 2
      ensures IsKeyChar(t[x])
    {
      assert t[x] == k[x - 2];
    }
    KeyEndAt(t, 2, |k| + 2);
  }

  /** After a placeholder-free `a`, the first match is the one `t` starts with. */
  lemma FirstMatchAfter(a: string, t: string, m: nat, e: nat)
    requires Find(a, 0).None?
    requires |t| >= 2 && t[0] == '{' && t[1] == '{'
    requires MatchAt(t, 0) == Some(m) && e == |a| + m
    ensures Find(a + t, 0) == Some(|a|)
    ensures MatchAt(a + t, |a|) == Some(e)
  {
    MatchAtShift(a, t, 0);
    forall q | 0 <= q < |a|
      ensures MatchAt(a + t, q).None?
    {
      NoMatchBefore(a, t, q);
    }
    FindFirstAt(a + t, 0, |a|);
  }

  /**
   * Splicing a placeholder after a placeholder-free text: the text stays,
   * the placeholder becomes its value (inserted as is, never scanned again),
   * and the rest is substituted on its own.
   */
  lemma SubstituteSplice(a: string, k: string, b: string, vars: map<string, string>)
    requires Find(a, 0).None? && IsKey(k)
    ensures Substitute(a + "{{" + k + "}}" + b, 0, vars) == a + Lookup(vars, k) + Substitute(b, 0, vars)
  {
    var e := |a| + |k| + 4;
    SpliceFacts(a, k, b, "{{" + k + "}}" + b);
    SpliceSlices(a, k, b);
    SpliceAssoc(a, "{{", k, "}}", b);
    SubstituteShift(a + "{{" + k + "}}", b, 0, e, vars);
    SpliceStep(a + "{{" + k + "}}" + b, a, k, e, Substitute(b, 0, vars), vars);
  }

  /** Regrouping `a + p + k + q + b` as `a + (p + k + q + b)`. */
  lemma SpliceAssoc<T>(a: seq<T>, p: seq<T>, k: seq<T>, q: seq<T>, b: seq<T>)
    ensures a + p + k + q + b == a + (p + k + q + b)
  {
    assert a + p + k + q + b == a + p + k + (q + b);
    assert a + p + k + (q + b) == a + p + (k + (q + b));
    assert a + p + (k + (q + b)) == a + (p + (k + (q + b)));
    assert p + k + q + b == p + (k + (q + b));
  }

  /** In `a + ("{{" + k + "}}" + b)` the first match is the spliced placeholder. */
  lemma SpliceFacts(a: string, k: string, b: string, t: string)
    requires Find(a, 0).None? && IsKey(k) && t == "{{" + k + "}}" + b
    ensures Find(a + t, 0) == Some(|a|)
    ensures MatchAt(a + t, |a|) == Some(|a| + |k| + 4)
  {
    PlaceholderFront(k, b, t);
    FirstMatchAfter(a, t, |k| + 4, |a| + |k| + 4);
  }

  lemma SpliceSlices(a: string, k: string, b: string)
    ensures var s := a + ("{{" + k + "}}" + b);
            s[0..|a|] == a && s[|a| + 2..|a| + |k| + 4 - 2] == k
  {
    var t := "{{" + k + "}}" + b;
    assert t[2..|k| + 2] == k;
    AppendSlice(a, t, 2, |k| + 2, |a| + 2, |a| + |k| + 4 - 2);
    assert (a + t)[0..|a|] == a;
  }

  /** The substitution of a text whose first match follows `a` and holds key `k`. */
  lemma SpliceStep(s: string, a: string, k: string, e: nat, rest: string, vars: map<string, string>)
    requires Find(s, 0) == Some(|a|) && MatchAt(s, |a|) == Some(e)
    requires s[0..|a|] == a && s[|a| + 2..e - 2] == k
    requires Substitute(s, e, vars) == rest
    ensures Substitute(s, 0, vars) == a + Lookup(vars, k) + rest
  {
    SubstituteStep(s, 0, |a|, e, vars);
  }

  // ---------------------------------------------------------------
  // Runs
  // ---------------------------------------------------------------

  /** A run: its text and the font size, bold and italic the generator sets (all in Arial). */
  datatype Run = Run(text: string, fontSize: int, bold: bool, italic: bool)

  /** The text of a paragraph: its runs' texts, one after the other. */
  function Concat(runs: seq<Run>): string
  {
    if runs == [] then "" else Concat(runs[..|runs| - 1]) + Last(runs).text
  }

  lemma {:induction false} ConcatAppend(a: seq<Run>, b: seq<Run>)
    ensures Concat(a + b) == Concat(a) + Concat(b)
    decreases |b|
  {
    if b != [] {
      var init := b[..|b| - 1];
      assert (a + b)[..|a + b| - 1] == a + init;
      assert Last(a + b) == Last(b);
      ConcatAppend(a, init);
      assert Concat(a + b) == Concat(a) + Concat(init) + Last(b).text;
      assert Concat(a) + Concat(init) + Last(b).text == Concat(a) + (Concat(init) + Last(b).text);
    } else {
      assert a + b == a;
      assert Concat(a) + "" == Concat(a);
    }
  }

  /** Where the runs are written: a paragraph of the document, or a block's description cell. */
  datatype Target = InParagraph | InCell

  /** Literal text between placeholders: size 10, neither bold nor italic. */
  function PlainRun(text: string): Run
  {
    Run(text, 10, false, false)
  }

  /**
   * The run holding a placeholder's value.  In a cell it is bold; in a
   * paragraph `BruttoSumme` is bold at size 11, `netto` and `erhalteneUst`
   * (in any case) are italic at size 8, and every other key is plain.
   */
  function ValueRun(target: Target, key: string, value: string): Run
  {
    match target
    case InCell => Run(value, 10, true, false)
    case InParagraph =>
      if key == "BruttoSumme" then Run(value, 11, true, false)
      else if EqualsIgnoreCase(key, "erhalteneUst") || EqualsIgnoreCase(key, "netto") then Run(value, 8, false, true)
      else Run(value, 10, false, false)
  }

  /** The runs written for `source` from `from` on: text before each match, the value, and the tail. */
  function SubstituteRuns(source: string, from: nat, vars: map<string, string>, target: Target): seq<Run>
    requires from <= |source|
    decreases |source| - from
  {
    match Find(source, from)
    case None => if from < |source| then [PlainRun(source[from..])] else []
    case Some(p) =>
      (if p > from then [PlainRun(source[from..p])] else [])
      + [ValueRun(target, KeyOfMatch(source, p), Lookup(vars, KeyOfMatch(source, p)))]
      + SubstituteRuns(source, MatchAt(source, p).value, vars, target)
  }

  lemma SubstituteRunsStep(source: string, from: nat, p: nat, e: nat, vars: map<string, string>, target: Target)
    requires from <= |source|
    requires Find(source, from) == Some(p) && MatchAt(source, p) == Some(e)
    ensures p + 5 <= e <= |source|
    ensures SubstituteRuns(source, from, vars, target) ==
              (if p > from then [PlainRun(source[from..p])] else [])
              + [ValueRun(target, source[p + 2..e - 2], Lookup(vars, source[p + 2..e - 2]))]
              + SubstituteRuns(source, e, vars, target)
  {
    assert KeyOfMatch(source, p) == source[p + 2..e - 2];
  }

  /** The runs spell out exactly the substituted text. */
  lemma {:induction false} SubstituteRunsText(source: string, from: nat, vars: map<string, string>, target: Target)
    requires from <= |source|
    ensures Concat(SubstituteRuns(source, from, vars, target)) == Substitute(source, from, vars)
    decreases |source| - from
  {
    if Find(source, from).None? {
      if from < |source| {
        assert Concat([PlainRun(source[from..])]) == Concat([]) + source[from..];
      }
    } else {
      var p := Find(source, from).value;
      var e := MatchAt(source, p).value;
      SubstituteRunsText(source, e, vars, target);
      RunsTextStep(source, from, p, e, vars, target);
    }
  }

  lemma RunsTextStep(source: string, from: nat, p: nat, e: nat, vars: map<string, string>, target: Target)
    requires from <= |source|
    requires Find(source, from) == Some(p) && MatchAt(source, p) == Some(e)
    requires Concat(SubstituteRuns(source, e, vars, target)) == Substitute(source, e, vars)
    ensures Concat(SubstituteRuns(source, from, vars, target)) == Substitute(source, from, vars)
  {
    var key := source[p + 2..e - 2];
    var lead := if p > from then [PlainRun(source[from..p])] else [];
    var value := [ValueRun(target, key, Lookup(vars, key))];
    SubstituteRunsStep(source, from, p, e, vars, target);
    SubstituteStep(source, from, p, e, vars);
    assert Concat(value) == Concat([]) + Lookup(vars, key);
    if p > from {
      assert Concat(lead) == Concat([]) + source[from..p];
    } else {
      assert source[from..p] == [];
    }
    ConcatThree(lead, value, SubstituteRuns(source, e, vars, target),
                source[from..p], Lookup(vars, key), Substitute(source, e, vars));
  }

  lemma ConcatThree(a: seq<Run>, b: seq<Run>, c: seq<Run>, x: string, y: string, z: string)
    requires Concat(a) == x && Concat(b) == y && Concat(c) == z
    ensures Concat(a + b + c) == x + y + z
  {
    ConcatAppend(a + b, c);
    ConcatAppend(a, b);
  }

  /** The loop of `replaceInParagraph` that joins the runs' texts. */
  method JoinTexts(runs: seq<Run>) returns (text: string)
    ensures text == Concat(runs)
  {
    text := "";
    var i := 0;
    while i < |runs|
      invariant 0 <= i <= |runs|
      invariant text == Concat(runs[..i])
    {
      assert runs[..i + 1][..i] == runs[..i];
      text := text + runs[i].text;
      i := i + 1;
    }
    assert runs[..i] == runs;
  }

  /** A paragraph, as the list of its runs. */
  class Paragraph {
    var runs: seq<Run>

    constructor (runs: seq<Run>)
      ensures this.runs == runs
    {
      this.runs := runs;
    }

    /** The `for (i = size - 1; i >= 0; i--) removeRun(i)` loop. */
    method RemoveAllRuns()
      modifies this
      ensures runs == []
    {
      while |runs| > 0
        decreases |runs|
      {
        runs := runs[..|runs| - 1];
      }
    }

    /**
     * The matcher loop: appends, for each placeholder in `source`, a run for
     * the text before it (if any) and a run for its value, then one for the tail.
     */
    method AppendSubstituted(source: string, vars: map<string, string>, target: Target)
      modifies this
      ensures runs == old(runs) + SubstituteRuns(source, 0, vars, target)
    {
      var last := 0;
      var m := Find(source, 0);
      while m.Some?
        invariant 0 <= last <= |source|
        invariant m == Find(source, last)
        invariant old(runs) + SubstituteRuns(source, 0, vars, target) == runs + SubstituteRuns(source, last, vars, target)
        decreases |source| - last
      {
        var start := m.value;
        var end := MatchAt(source, start).value;
        ghost var before := runs;
        if start > last {
          runs := runs + [PlainRun(source[last..start])];
        }
        var key := source[start + 2..end - 2];
        runs := runs + [ValueRun(target, key, Lookup(vars, key))];
        MatcherStep(source, last, start, end, vars, target, before, runs);
        last := end;
        m := Find(source, last);
      }
      if last < |source| {
        runs := runs + [PlainRun(source[last..])];
      }
    }

    /**
     * `replaceInParagraph`: a paragraph without runs, with empty text or
     * without a placeholder is left alone; otherwise its runs are replaced
     * by the substituted runs of its whole text.
     */
    method ReplaceInParagraph(vars: map<string, string>)
      modifies this
      ensures old(runs) == [] || Concat(old(runs)) == "" || Find(Concat(old(runs)), 0).None? ==> runs == old(runs)
      ensures old(runs) != [] && Concat(old(runs)) != "" && Find(Concat(old(runs)), 0).Some? ==>
                runs == SubstituteRuns(Concat(old(runs)), 0, vars, InParagraph)
      ensures Concat(runs) == Substitute(Concat(old(runs)), 0, vars)
    {
      if runs == [] {
        return;
      }
      var original := JoinTexts(runs);
      if original == "" {
        return;
      }
      if Find(original, 0).None? {
        NoPlaceholderUnchanged(original, vars);
        return;
      }
      RemoveAllRuns();
      AppendSubstituted(original, vars, InParagraph);
      SubstituteRunsText(original, 0, vars, InParagraph);
    }
  }

  /** One pass of the matcher loop keeps the runs written plus the runs still due equal to the whole. */
  lemma MatcherStep(source: string, last: nat, start: nat, end: nat, vars: map<string, string>, target: Target,
                    before: seq<Run>, after: seq<Run>)
    requires last <= |source|
    requires Find(source, last) == Some(start) && MatchAt(source, start) == Some(end)
    requires after == before + (if start > last then [PlainRun(source[last..start])] else [])
                      + [ValueRun(target, source[start + 2..end - 2], Lookup(vars, source[start + 2..end - 2]))]
    ensures end <= |source|
    ensures before + SubstituteRuns(source, last, vars, target) == after + SubstituteRuns(source, end, vars, target)
  {
    var lead := if start > last then [PlainRun(source[last..start])] else [];
    var key := source[start + 2..end - 2];
    var value := [ValueRun(target, key, Lookup(vars, key))];
    var rest := SubstituteRuns(source, end, vars, target);
    SubstituteRunsStep(source, last, start, end, vars, target);
    AppendRegroup(before, lead, value, rest);
  }

  /** Regrouping `w + (x + y + z)` as `w + x + y + z`. */
  lemma AppendRegroup<T>(w: seq<T>, x: seq<T>, y: seq<T>, z: seq<T>)
    ensures w + (x + y + z) == w + x + y + z
  {
  }

  /** The text of a cell: the texts of its paragraphs, one after the other. */
  function ParagraphsText(ps: seq<Paragraph>): string
    reads ps
  {
    if ps == [] then "" else ParagraphsText(ps[..|ps| - 1]) + Concat(Last(ps).runs)
  }

  /** A table cell, as the list of its paragraphs. */
  class Cell {
    var paragraphs: seq<Paragraph>

    constructor (paragraphs: seq<Paragraph>)
      ensures this.paragraphs == paragraphs
    {
      this.paragraphs := paragraphs;
    }

    function Text(): string
      reads this, paragraphs
    {
      ParagraphsText(paragraphs)
    }

    /**
     * `setCellFromTemplate`: the cell is emptied and gets one new paragraph
     * holding `templateText` substituted when the cell's old text contains
     * `{{`, else `fallbackText` substituted.
     */
    method SetCellFromTemplate(templateText: string, localVars: map<string, string>, fallbackText: string)
      modifies this
      ensures |paragraphs| == 1 && fresh(paragraphs[0])
      ensures paragraphs[0].runs ==
                SubstituteRuns(if Contains(old(Text()), "{{") then templateText else fallbackText, 0, localVars, InCell)
    {
      var existing := CellText(paragraphs);
      var useTemplate := Contains(existing, "{{");
      while |paragraphs| > 0
        decreases |paragraphs|
      {
        paragraphs := paragraphs[..|paragraphs| - 1];
      }
      var p := new Paragraph([]);
      paragraphs := paragraphs + [p];
      var source := if useTemplate then templateText else fallbackText;
      p.AppendSubstituted(source, localVars, InCell);
    }
  }

  /** `cell.getText()`: the loop over the paragraphs and their runs. */
  method CellText(ps: seq<Paragraph>) returns (text: string)
    ensures text == ParagraphsText(ps)
  {
    text := "";
    var i := 0;
    while i < |ps|
      invariant 0 <= i <= |ps|
      invariant text == ParagraphsText(ps[..i])
    {
      assert ps[..i + 1][..i] == ps[..i];
      var t := JoinTexts(ps[i].runs);
      text := text + t;
      i := i + 1;
    }
    assert ps[..i] == ps;
  }
}
