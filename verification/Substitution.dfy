/** Filling `{{name}}` holes of a tool's URL and body template, one parameter after the other, by text replacement. */
module Substitution {
  import opened Prelude

  // ---------- Text replacement ----------

  /** Python's `s.replace(pat, fill)`: leftmost occurrences, not overlapping. */
  function Replace(s: string, pat: string, fill: string): string
    requires pat != ""
  {
    if |s| < |pat| then s
    else if s[..|pat|] == pat then fill + Replace(s[|pat|..], pat, fill)
    else [s[0]] + Replace(s[1..], pat, fill)
  }

  function Pattern(name: string): (p: string)
    ensures |p| == |name| + 4
  {
    "{{" + name + "}}"
  }

  datatype Param = Param(name: string, text: string)

  /** The loop over the parameters: each one is replaced in the result of the ones before it. */
  function Sequential(s: string, ps: seq<Param>): string
    decreases ps
  {
    if ps == [] then s else Sequential(Replace(s, Pattern(ps[0].name), ps[0].text), ps[1..])
  }

  lemma {:induction false} SequentialAppend(s: string, ps: seq<Param>, qs: seq<Param>)
    ensures Sequential(s, ps + qs) == Sequential(Sequential(s, ps), qs)
    decreases ps
  {
    if ps == [] {
      assert ps + qs == qs;
    } else {
      assert (ps + qs)[1..] == ps[1..] + qs;
      SequentialAppend(Replace(s, Pattern(ps[0].name), ps[0].text), ps[1..], qs);
    }
  }

  /** One string leaf, or the URL: the loop over the parameters. */
  method Substitute(template: string, params: seq<Param>) returns (s: string)
    ensures s == Sequential(template, params)
  {
    s := template;
    for i := 0 to |params|
      invariant s == Sequential(template, params[..i])
    {
      SequentialAppend(template, params[..i], [params[i]]);
      assert params[..i] + [params[i]] == params[..i + 1];
      s := Replace(s, Pattern(params[i].name), params[i].text);
    }
    assert params[..|params|] == params;
  }

  // ---------- Templates ----------

  datatype Piece = Lit(text: string) | Hole(name: string)

  type Template = seq<Piece>

  predicate BraceFree(s: string) {
    '{' !in s && '}' !in s
  }

  predicate PieceOk(p: Piece) {
    match p
    case Lit(text) => BraceFree(text)
    case Hole(name) => BraceFree(name)
  }

  ghost predicate WellFormed(t: Template) {
    forall i | 0 <= i < |t| :: PieceOk(t[i])
  }

  /** The text of a template whose holes are filled by `fill`. */
  function Fill(t: Template, fill: string -> string): string {
    if t == [] then ""
    else (match t[0] case Lit(text) => text case Hole(name) => fill(name)) + Fill(t[1..], fill)
  }

  /** The template as it is written, with every hole open. */
  function Render(t: Template): string {
    Fill(t, Pattern)
  }

  /** `fill`, but `text` for the holes of `name`. */
  function With(fill: string -> string, name: string, text: string): string -> string {
    n => if n == name then text else fill(n)
  }

  lemma ReplaceSkip(s: string, pat: string, fill: string)
    requires pat != "" && s != ""
    requires s[0] != pat[0] || (1 < |pat| && (|s| == 1 || s[1] != pat[1]))
    ensures Replace(s, pat, fill) == [s[0]] + Replace(s[1..], pat, fill)
  {
    if |s| < |pat| {
      assert s == [s[0]] + s[1..];
    } else if s[0] != pat[0] {
      assert s[..|pat|][0] == s[0];
    } else {
      assert s[..|pat|][1] == s[1];
    }
  }

  /** Text without an opening brace is passed over. */
  lemma {:induction false} ReplaceSkipsText(text: string, rest: string, pat: string, fill: string)
    requires pat != "" && pat[0] == '{' && '{' !in text
    ensures Replace(text + rest, pat, fill) == text + Replace(rest, pat, fill)
  {
    if text == "" {
      assert text + rest == rest;
    } else {
      ReplaceSkip(text + rest, pat, fill);
      assert (text + rest)[1..] == text[1..] + rest;
      ReplaceSkipsText(text[1..], rest, pat, fill);
      assert [text[0]] + (text[1..] + Replace(rest, pat, fill)) == text + Replace(rest, pat, fill);
    }
  }

  /** A pattern at the head of a text is replaced. */
  lemma ReplaceHere(rest: string, pat: string, fill: string)
    requires pat != ""
    ensures Replace(pat + rest, pat, fill) == fill + Replace(rest, pat, fill)
  {
    assert (pat + rest)[..|pat|] == pat;
    assert (pat + rest)[|pat|..] == rest;
  }

  /** Two patterns where one begins the text of the other are the same. */
  lemma PatternsDiffer(n: string, k: string, rest: string)
    requires BraceFree(n) && BraceFree(k) && n != k
    requires |Pattern(k)| <= |Pattern(n) + rest|
    ensures (Pattern(n) + rest)[..|Pattern(k)|] != Pattern(k)
  {
    var s := Pattern(n) + rest;
    if |n| < |k| {
      assert s[|n| + 2] == '}';
      assert Pattern(k)[|n| + 2] == k[|n|];
    } else if |k| < |n| {
      assert s[|k| + 2] == n[|k|];
      assert Pattern(k)[|k| + 2] == '}';
    } else {
      var i :| 0 <= i < |n| && n[i] != k[i];
      assert s[i + 2] == n[i];
      assert Pattern(k)[i + 2] == k[i];
    }
  }

  lemma ReplaceOther(n: string, k: string, rest: string, fill: string)
    requires BraceFree(n) && BraceFree(k) && n != k
    ensures Replace(Pattern(n) + rest, Pattern(k), fill) == Pattern(n) + Replace(rest, Pattern(k), fill)
  {
    var s, pat := Pattern(n) + rest, Pattern(k);
    if |s| >= |pat| { PatternsDiffer(n, k, rest); }
    assert s == [s[0]] + s[1..];
    var inner := n + "}}";
    assert s[1..] == "{" + (inner + rest);
    ReplaceSkip(s[1..], pat, fill);
    assert s[1..][1..] == inner + rest;
    ReplaceSkipsText(inner, rest, pat, fill);
    assert "{" + ("{" + (inner + Replace(rest, pat, fill))) == Pattern(n) + Replace(rest, pat, fill);
  }

  /** Replacing the pattern of a name in a written template fills exactly the holes of that name. */
  lemma {:induction false} ReplaceFillsHoles(t: Template, k: string, text: string)
    requires WellFormed(t) && BraceFree(k)
    ensures Replace(Render(t), Pattern(k), text) == Fill(t, With(Pattern, k, text))
  {
    if t != [] {
      ReplaceFillsHoles(t[1..], k, text);
      var rest := Render(t[1..]);
      assert PieceOk(t[0]);
      match t[0]
      case Lit(l) => ReplaceSkipsText(l, rest, Pattern(k), text);
      case Hole(n) =>
        if n == k { ReplaceHere(rest, Pattern(k), text); } else { ReplaceOther(n, k, rest, text); }
    }
  }

  lemma {:induction false} FillAgrees(t: Template, f: string -> string, g: string -> string)
    requires forall n | Hole(n) in t :: f(n) == g(n)
    ensures Fill(t, f) == Fill(t, g)
  {
    if t != [] {
      assert t[0] in t;
      FillAgrees(t[1..], f, g);
    }
  }

  lemma SplitTexts(a: string, b: string, c: string, d: string)
    requires |a| == |c| && a + b == c + d
    ensures a == c && b == d
  {
    assert a == (a + b)[..|a|] && b == (a + b)[|a|..];
    assert c == (c + d)[..|c|] && d == (c + d)[|c|..];
  }

  /** `f` and `g` fill every hole alike, except those of `k`. */
  ghost predicate OnlyAt(k: string, f: string -> string, g: string -> string) {
    forall n | n != k :: f(n) == g(n)
  }

  lemma {:induction false} FillLength(t: Template, k: string, f: string -> string, g: string -> string)
    requires OnlyAt(k, f, g) && |f(k)| <= |g(k)|
    ensures |Fill(t, f)| <= |Fill(t, g)|
    ensures |f(k)| < |g(k)| && Hole(k) in t ==> |Fill(t, f)| < |Fill(t, g)|
  {
    if t != [] {
      FillLength(t[1..], k, f, g);
    }
  }

  lemma {:induction false} FillSameLength(t: Template, k: string, f: string -> string, g: string -> string)
    requires OnlyAt(k, f, g) && |f(k)| == |g(k)| && Fill(t, f) == Fill(t, g)
    ensures Hole(k) in t ==> f(k) == g(k)
  {
    if t != [] && Hole(k) in t {
      match t[0]
      case Lit(text) =>
        SplitTexts(text, Fill(t[1..], f), text, Fill(t[1..], g));
        FillSameLength(t[1..], k, f, g);
      case Hole(n) =>
        SplitTexts(f(n), Fill(t[1..], f), g(n), Fill(t[1..], g));
        if n != k { FillSameLength(t[1..], k, f, g); }
    }
  }

  /** Two fillings that differ at one name give the same text exactly where that name has no hole. */
  lemma FillTells(t: Template, k: string, f: string -> string, g: string -> string)
    requires OnlyAt(k, f, g) && f(k) != g(k)
    ensures Fill(t, f) == Fill(t, g) <==> Hole(k) !in t
  {
    if Hole(k) !in t {
      FillAgrees(t, f, g);
    } else if |f(k)| < |g(k)| {
      FillLength(t, k, f, g);
    } else if |f(k)| > |g(k)| {
      FillLength(t, k, g, f);
    } else if Fill(t, f) == Fill(t, g) {
      FillSameLength(t, k, f, g);
    }
  }

  // ---------- One after the other against all at once ----------

  /** A parameter whose value is itself the text of a template: with braces in it, if it has holes. */
  datatype Value = Value(name: string, value: Template)

  predicate ValueOk(v: Value) {
    BraceFree(v.name) && forall i | 0 <= i < |v.value| :: PieceOk(v.value[i])
  }

  ghost predicate ValuesOk(vs: seq<Value>) {
    forall i | 0 <= i < |vs| :: ValueOk(vs[i])
  }

  function Texts(vs: seq<Value>): (ps: seq<Param>)
    ensures |ps| == |vs|
  {
    if vs == [] then [] else [Param(vs[0].name, Render(vs[0].value))] + Texts(vs[1..])
  }

  /** What each hole is to hold: the value given for its name, if there is one. */
  function Lookup(vs: seq<Value>): string -> string {
    n => if vs == [] then Pattern(n) else if vs[0].name == n then Render(vs[0].value) else Lookup(vs[1..])(n)
  }

  /** The holes of `k` replaced by the pieces of `w`. */
  function Expand(t: Template, k: string, w: Template): (r: Template) {
    if t == [] then [] else (if t[0] == Hole(k) then w else [t[0]]) + Expand(t[1..], k, w)
  }

  lemma {:induction false} FillAppend(a: Template, b: Template, f: string -> string)
    ensures Fill(a + b, f) == Fill(a, f) + Fill(b, f)
  {
    if a == [] {
      assert a + b == b;
    } else {
      assert (a + b)[1..] == a[1..] + b;
      FillAppend(a[1..], b, f);
    }
  }

  /** Filling an expanded template fills the inserted pieces too. */
  lemma {:induction false} FillExpanded(t: Template, k: string, w: Template, f: string -> string)
    ensures Fill(Expand(t, k, w), f) == Fill(t, With(f, k, Fill(w, f)))
  {
    if t != [] {
      FillExpanded(t[1..], k, w, f);
      var head := if t[0] == Hole(k) then w else [t[0]];
      FillAppend(head, Expand(t[1..], k, w), f);
      assert t[0] != Hole(k) ==> head[1..] == [];
    }
  }

  lemma {:induction false} ExpandOk(t: Template, k: string, w: Template)
    requires WellFormed(t) && WellFormed(w)
    ensures WellFormed(Expand(t, k, w))
  {
    if t != [] {
      assert WellFormed(t[1..]);
      ExpandOk(t[1..], k, w);
      assert PieceOk(t[0]);
    }
  }

  /** `v` has no hole that `u` would change. */
  predicate Untouched(v: Value, u: Value) {
    Hole(u.name) in v.value ==> Render(u.value) == Pattern(u.name)
  }

  /** No value has a hole that a later parameter would change. */
  ghost predicate Settled(vs: seq<Value>) {
    forall i, j | 0 <= i < j < |vs| :: Untouched(vs[i], vs[j])
  }

  lemma {:induction false} LookupFinds(vs: seq<Value>, n: string)
    ensures (exists i | 0 <= i < |vs| :: vs[i].name == n && Lookup(vs)(n) == Render(vs[i].value))
            || ((forall i | 0 <= i < |vs| :: vs[i].name != n) && Lookup(vs)(n) == Pattern(n))
  {
    if vs != [] && vs[0].name != n {
      LookupFinds(vs[1..], n);
      if i :| 0 <= i < |vs[1..]| && vs[1..][i].name == n && Lookup(vs[1..])(n) == Render(vs[1..][i].value) {
        assert vs[i + 1].name == n;
      }
    }
  }

  /** A settled value stays what it is while the parameters after it are replaced. */
  lemma LaterLeavesFirst(vs: seq<Value>)
    requires vs != [] && Settled(vs)
    ensures Fill(vs[0].value, Lookup(vs[1..])) == Render(vs[0].value)
  {
    forall n | Hole(n) in vs[0].value ensures Lookup(vs[1..])(n) == Pattern(n) {
      LookupFinds(vs[1..], n);
      if i :| 0 <= i < |vs[1..]| && vs[1..][i].name == n && Lookup(vs[1..])(n) == Render(vs[1..][i].value) {
        assert Untouched(vs[0], vs[i + 1]);
      }
    }
    FillAgrees(vs[0].value, Lookup(vs[1..]), Pattern);
  }

  /** One replacement turns the template's text into that of the expanded template. */
  lemma OneReplacement(t: Template, v: Value)
    requires WellFormed(t) && ValueOk(v)
    ensures WellFormed(Expand(t, v.name, v.value))
    ensures Replace(Render(t), Pattern(v.name), Render(v.value)) == Render(Expand(t, v.name, v.value))
  {
    ReplaceFillsHoles(t, v.name, Render(v.value));
    FillExpanded(t, v.name, v.value, Pattern);
    ExpandOk(t, v.name, v.value);
  }

  lemma SettledRest(vs: seq<Value>)
    requires vs != [] && Settled(vs) && ValuesOk(vs)
    ensures Settled(vs[1..]) && ValuesOk(vs[1..])
  {
    var rest := vs[1..];
    forall i, j | 0 <= i < j < |rest| ensures Untouched(rest[i], rest[j]) {
      assert Untouched(vs[i + 1], vs[j + 1]);
    }
    forall i | 0 <= i < |rest| ensures ValueOk(rest[i]) { assert ValueOk(vs[i + 1]); }
  }

  /** Where no value has a hole that a later parameter would change, replacing one parameter after the other fills
      every hole at once. */
  lemma {:induction false} SequentialIsSimultaneous(t: Template, vs: seq<Value>)
    requires WellFormed(t) && ValuesOk(vs) && Settled(vs)
    ensures Sequential(Render(t), Texts(vs)) == Fill(t, Lookup(vs))
    decreases |vs|
  {
    if vs == [] {
      FillAgrees(t, Lookup(vs), Pattern);
    } else {
      var v, rest := vs[0], vs[1..];
      assert ValueOk(v);
      OneReplacement(t, v);
      SettledRest(vs);
      SequentialIsSimultaneous(Expand(t, v.name, v.value), rest);
      FillExpanded(t, v.name, v.value, Lookup(rest));
      LaterLeavesFirst(vs);
      FillAgrees(t, With(Lookup(rest), v.name, Render(v.value)), Lookup(vs));
    }
  }

  /** Plain values, with no braces in them. */
  ghost predicate PlainValues(vs: seq<Value>) {
    forall i, n | 0 <= i < |vs| :: Hole(n) !in vs[i].value
  }

  lemma PlainIsSettled(vs: seq<Value>)
    requires PlainValues(vs)
    ensures Settled(vs)
  {
  }

  // ---------- The order of the parameters ----------

  ghost predicate DistinctNames(vs: seq<Value>) {
    forall i, j | 0 <= i < j < |vs| :: vs[i].name != vs[j].name
  }

  /** No value has a hole that any other parameter would change. */
  ghost predicate Independent(vs: seq<Value>) {
    forall i, j | 0 <= i < |vs| && 0 <= j < |vs| && i != j :: Untouched(vs[i], vs[j])
  }

  /** The same parameters, perhaps in another order. */
  ghost predicate Reordered(us: seq<Value>, vs: seq<Value>) {
    DistinctNames(us) && Elements(us) == Elements(vs)
  }

  /** Every order of the parameters fills every template the way filling all its holes at once does. */
  ghost predicate OrderIsFree(vs: seq<Value>) {
    forall us, t | Reordered(us, vs) && WellFormed(t) :: Sequential(Render(t), Texts(us)) == Fill(t, Lookup(vs))
  }

  lemma ReorderedIndex(us: seq<Value>, vs: seq<Value>, i: nat) returns (k: nat)
    requires Reordered(us, vs) && i < |us|
    ensures k < |vs| && vs[k] == us[i]
  {
    assert us[i] in Elements(us);
    assert us[i] in vs;
    k :| 0 <= k < |vs| && vs[k] == us[i];
  }

  lemma ReorderedOk(us: seq<Value>, vs: seq<Value>)
    requires Reordered(us, vs) && ValuesOk(vs)
    ensures ValuesOk(us)
  {
    forall i | 0 <= i < |us| ensures ValueOk(us[i]) {
      var k := ReorderedIndex(us, vs, i);
      assert ValueOk(vs[k]);
    }
  }

  lemma ReorderedSettled(us: seq<Value>, vs: seq<Value>)
    requires Reordered(us, vs) && Independent(vs)
    ensures Settled(us)
  {
    forall i, j | 0 <= i < j < |us| ensures Untouched(us[i], us[j]) {
      var k := ReorderedIndex(us, vs, i);
      var l := ReorderedIndex(us, vs, j);
      assert Untouched(vs[k], vs[l]);
    }
  }

  lemma LookupAt(vs: seq<Value>, i: nat)
    requires DistinctNames(vs) && i < |vs|
    ensures Lookup(vs)(vs[i].name) == Render(vs[i].value)
  {
    LookupFinds(vs, vs[i].name);
  }

  ghost predicate Named(vs: seq<Value>, n: string) {
    exists i | 0 <= i < |vs| :: vs[i].name == n
  }

  lemma ReorderedNames(us: seq<Value>, vs: seq<Value>, n: string)
    requires Reordered(us, vs) && DistinctNames(vs) && Named(vs, n)
    ensures Named(us, n)
  {
    var k :| 0 <= k < |vs| && vs[k].name == n;
    var i := ReorderedIndex(vs, us, k);
  }

  lemma ReorderedLookup(us: seq<Value>, vs: seq<Value>, n: string)
    requires Reordered(us, vs) && DistinctNames(vs)
    ensures Lookup(us)(n) == Lookup(vs)(n)
  {
    LookupFinds(us, n);
    if i :| 0 <= i < |us| && us[i].name == n {
      LookupAt(us, i);
      var k := ReorderedIndex(us, vs, i);
      LookupAt(vs, k);
    } else {
      LookupFinds(vs, n);
      if Named(vs, n) { ReorderedNames(us, vs, n); }
    }
  }

  lemma IndependentIsFree(vs: seq<Value>, us: seq<Value>, t: Template)
    requires ValuesOk(vs) && DistinctNames(vs) && Independent(vs) && Reordered(us, vs) && WellFormed(t)
    ensures Sequential(Render(t), Texts(us)) == Fill(t, Lookup(vs))
  {
    ReorderedOk(us, vs);
    ReorderedSettled(us, vs);
    SequentialIsSimultaneous(t, us);
    forall n | Hole(n) in t ensures Lookup(us)(n) == Lookup(vs)(n) { ReorderedLookup(us, vs, n); }
    FillAgrees(t, Lookup(us), Lookup(vs));
  }

  // ---------- The reverse: a dependent pair, applied last, spoils the result ----------

  function Without(vs: seq<Value>, v: Value): seq<Value> {
    if vs == [] then [] else (if vs[0] == v then [] else [vs[0]]) + Without(vs[1..], v)
  }

  lemma {:induction false} WithoutElement(vs: seq<Value>, v: Value, x: Value)
    ensures x in Without(vs, v) <==> x in vs && x != v
  {
    if vs != [] {
      WithoutElement(vs[1..], v, x);
      assert x in vs <==> x == vs[0] || x in vs[1..];
    }
  }

  lemma {:induction false} WithoutDistinct(vs: seq<Value>, v: Value)
    requires DistinctNames(vs)
    ensures DistinctNames(Without(vs, v))
  {
    if vs != [] {
      var rest := Without(vs[1..], v);
      assert DistinctNames(vs[1..]);
      WithoutDistinct(vs[1..], v);
      forall j | 0 <= j < |rest| ensures rest[j].name != vs[0].name {
        WithoutElement(vs[1..], v, rest[j]);
      }
    }
  }

  /** The parameters with `u` and then `v` moved to the end. */
  function LastTwo(vs: seq<Value>, u: Value, v: Value): seq<Value> {
    Without(Without(vs, u), v) + [u, v]
  }

  lemma LastTwoElement(vs: seq<Value>, u: Value, v: Value, x: Value)
    requires u in vs && v in vs
    ensures x in LastTwo(vs, u, v) <==> x in vs
  {
    WithoutElement(vs, u, x);
    WithoutElement(Without(vs, u), v, x);
  }

  lemma LoneHole(n: string, f: string -> string)
    ensures Fill([Hole(n)], f) == f(n)
  {
    assert [Hole(n)][1..] == [];
    assert f(n) + "" == f(n);
  }

  /** Parameters of another name leave a lone hole open. */
  lemma {:induction false} LoneHoleStaysOpen(n: string, vs: seq<Value>)
    requires BraceFree(n) && ValuesOk(vs) && forall i | 0 <= i < |vs| :: vs[i].name != n
    ensures Sequential(Pattern(n), Texts(vs)) == Pattern(n)
    decreases |vs|
  {
    if vs != [] {
      var t := [Hole(n)];
      assert ValueOk(vs[0]) && PieceOk(t[0]);
      LoneHole(n, Pattern);
      LoneHole(n, With(Pattern, vs[0].name, Render(vs[0].value)));
      ReplaceFillsHoles(t, vs[0].name, Render(vs[0].value));
      forall i | 0 <= i < |vs[1..]| ensures ValueOk(vs[1..][i]) { assert ValueOk(vs[i + 1]); }
      LoneHoleStaysOpen(n, vs[1..]);
    }
  }

  lemma {:induction false} TextsAppend(us: seq<Value>, vs: seq<Value>)
    ensures Texts(us + vs) == Texts(us) + Texts(vs)
  {
    if us == [] {
      assert us + vs == vs;
    } else {
      assert (us + vs)[1..] == us[1..] + vs;
      TextsAppend(us[1..], vs);
    }
  }

  lemma OneText(s: string, v: Value)
    ensures Sequential(s, Texts([v])) == Replace(s, Pattern(v.name), Render(v.value))
  {
    assert [v][1..] == [];
    var p := Param(v.name, Render(v.value));
    assert Texts([v]) == [p] && [p][1..] == [];
  }

  /** The second of two parameters also fills the holes that the first one brought in. */
  lemma SecondFillsFirst(u: Value, v: Value)
    requires ValueOk(u) && ValueOk(v)
    ensures Sequential(Pattern(u.name), Texts([u] + [v])) == Fill(u.value, With(Pattern, v.name, Render(v.value)))
  {
    TextsAppend([u], [v]);
    SequentialAppend(Pattern(u.name), Texts([u]), Texts([v]));
    OneText(Pattern(u.name), u);
    assert Pattern(u.name) + "" == Pattern(u.name);
    ReplaceHere("", Pattern(u.name), Render(u.value));
    OneText(Render(u.value) + "", v);
    assert Render(u.value) + "" == Render(u.value);
    ReplaceFillsHoles(u.value, v.name, Render(v.value));
  }

  /** A hole filled by a value with a hole of the next parameter comes out wrong. */
  lemma LastTwoSpoil(others: seq<Value>, u: Value, v: Value)
    requires ValuesOk(others) && ValueOk(u) && ValueOk(v) && !Untouched(u, v)
    requires forall i | 0 <= i < |others| :: others[i].name != u.name
    ensures Sequential(Pattern(u.name), Texts(others + [u, v])) != Render(u.value)
  {
    LoneHoleStaysOpen(u.name, others);
    assert [u, v] == [u] + [v];
    TextsAppend(others, [u] + [v]);
    SequentialAppend(Pattern(u.name), Texts(others), Texts([u] + [v]));
    SecondFillsFirst(u, v);
    FillTells(u.value, v.name, With(Pattern, v.name, Render(v.value)), Pattern);
  }

  lemma LastTwoReorders(vs: seq<Value>, i: nat, j: nat)
    requires DistinctNames(vs) && i < |vs| && j < |vs| && i != j
    ensures Reordered(LastTwo(vs, vs[i], vs[j]), vs)
  {
    var u, v := vs[i], vs[j];
    var us := LastTwo(vs, u, v);
    forall x ensures x in us <==> x in vs { LastTwoElement(vs, u, v, x); }
    assert Elements(us) == Elements(vs);
    LastTwoDistinct(vs, i, j);
  }

  lemma OthersNamedOtherwise(vs: seq<Value>, i: nat, j: nat, k: nat)
    requires DistinctNames(vs) && i < |vs| && j < |vs| && i != j
    requires k < |Without(Without(vs, vs[i]), vs[j])|
    ensures var o := Without(Without(vs, vs[i]), vs[j])[k]; o in vs && o.name != vs[i].name && o.name != vs[j].name
  {
    var o := Without(Without(vs, vs[i]), vs[j])[k];
    WithoutElement(Without(vs, vs[i]), vs[j], o);
    WithoutElement(vs, vs[i], o);
    var l :| 0 <= l < |vs| && vs[l] == o;
  }

  lemma LastTwoDistinct(vs: seq<Value>, i: nat, j: nat)
    requires DistinctNames(vs) && i < |vs| && j < |vs| && i != j
    ensures DistinctNames(LastTwo(vs, vs[i], vs[j]))
  {
    var others := Without(Without(vs, vs[i]), vs[j]);
    WithoutDistinct(vs, vs[i]);
    WithoutDistinct(Without(vs, vs[i]), vs[j]);
    forall k | 0 <= k < |others| ensures others[k].name != vs[i].name && others[k].name != vs[j].name {
      OthersNamedOtherwise(vs, i, j, k);
    }
  }

  lemma DependentIsNotFree(vs: seq<Value>, i: nat, j: nat)
    requires ValuesOk(vs) && DistinctNames(vs) && i < |vs| && j < |vs| && i != j && !Untouched(vs[i], vs[j])
    ensures !OrderIsFree(vs)
  {
    var u, v := vs[i], vs[j];
    var others := Without(Without(vs, u), v);
    assert ValueOk(u) && ValueOk(v);
    LastTwoReorders(vs, i, j);
    forall k | 0 <= k < |others| ensures ValueOk(others[k]) && others[k].name != u.name {
      OthersNamedOtherwise(vs, i, j, k);
      var l :| 0 <= l < |vs| && vs[l] == others[k];
      assert ValueOk(vs[l]);
    }
    LastTwoSpoil(others, u, v);
    var t := [Hole(u.name)];
    assert PieceOk(t[0]);
    LoneHole(u.name, Pattern);
    LookupAt(vs, i);
    LoneHole(u.name, Lookup(vs));
  }

  /** For distinct brace-free names: the order of the parameters never matters, and every template is filled as if all
      holes were filled at once, exactly when no value has a hole that another parameter would change. */
  lemma OrderIsFreeIffIndependent(vs: seq<Value>)
    requires ValuesOk(vs) && DistinctNames(vs)
    ensures OrderIsFree(vs) <==> Independent(vs)
  {
    if Independent(vs) {
      forall us, t | Reordered(us, vs) && WellFormed(t)
        ensures Sequential(Render(t), Texts(us)) == Fill(t, Lookup(vs))
      {
        IndependentIsFree(vs, us, t);
      }
    } else {
      var i, j :| 0 <= i < |vs| && 0 <= j < |vs| && i != j && !Untouched(vs[i], vs[j]);
      DependentIsNotFree(vs, i, j);
    }
  }

  /** Values without braces are filled in any order alike. */
  lemma PlainValuesInAnyOrder(vs: seq<Value>, us: seq<Value>, t: Template)
    requires ValuesOk(vs) && DistinctNames(vs) && PlainValues(vs) && Reordered(us, vs) && WellFormed(t)
    ensures Sequential(Render(t), Texts(us)) == Sequential(Render(t), Texts(vs)) == Fill(t, Lookup(vs))
  {
    IndependentIsFree(vs, us, t);
    PlainIsSettled(vs);
    SequentialIsSimultaneous(t, vs);
  }
}
