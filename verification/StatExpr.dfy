/**
 Filling in statistics: `dumpMcpatOut` finds the references in an expression and substitutes them one
 after another by regular expressions in which every dot of a name is a wildcard.
 */
module StatExpr {
  import opened Wrappers
  import opened Text

  type Stats = map<string, string>

  predicate NameChar(c: char) {
    'a' <= c <= 'z' || 'A' <= c <= 'Z' || '0' <= c <= '9' || c == '_' || c == ':' || c == '.'
  }

  /** An expression cut into characters and references. */
  datatype Piece = Lit(c: char) | Ref(name: string)

  function Flat(p: Piece): string {
    match p
    case Lit(c) => [c]
    case Ref(name) => "stats." + name
  }

  function Flatten(ps: seq<Piece>): string {
    if ps == [] then "" else Flat(ps[0]) + Flatten(ps[1..])
  }

  /** The longest prefix of name characters. */
  function NameRun(s: string): (n: nat)
    ensures n <= |s|
    ensures forall i :: 0 <= i < n ==> NameChar(s[i])
    ensures n < |s| ==> !NameChar(s[n])
  {
    if s == "" || !NameChar(s[0]) then 0 else 1 + NameRun(s[1..])
  }

  /** The length of the reference s begins with, 0 if there is none. */
  function RefLength(s: string): (n: nat)
    ensures n == 0 || 6 < n <= |s|
  {
    if StartsWith(s, "stats.") && NameRun(s[6..]) > 0 then 6 + NameRun(s[6..]) else 0
  }

  /** The references `findall` finds, and everything between them. */
  function Tokenize(s: string): seq<Piece>
    decreases |s|
  {
    var n := RefLength(s);
    if s == "" then []
    else if n > 0 then [Ref(s[6..n])] + Tokenize(s[n..])
    else [Lit(s[0])] + Tokenize(s[1..])
  }

  function Names(ps: seq<Piece>): seq<string> {
    if ps == [] then []
    else (if ps[0].Ref? then [ps[0].name] else []) + Names(ps[1..])
  }

  lemma TokenizeEmpty()
    ensures Tokenize("") == []
  {
  }

  lemma TokenizeFirst(s: string)
    requires s != ""
    ensures var n := RefLength(s);
            Tokenize(s) == if n > 0 then [Ref(s[6..n])] + Tokenize(s[n..]) else [Lit(s[0])] + Tokenize(s[1..])
  {
  }

  lemma {:induction false} FlattenTokenize(s: string)
    ensures Flatten(Tokenize(s)) == s
    decreases |s|
  {
    var n := RefLength(s);
    if s == "" {
    } else if n > 0 {
      FlattenTokenize(s[n..]);
      assert Tokenize(s)[1..] == Tokenize(s[n..]);
      assert s == s[..6] + s[6..n] + s[n..];
    } else {
      FlattenTokenize(s[1..]);
      assert Tokenize(s)[1..] == Tokenize(s[1..]);
    }
  }

  // ----- One substitution by regular expression -----

  /** The pattern `stats.<name>`, whose dots match any character but a line break, at the start of s. */
  predicate MatchAt(name: string, s: string) {
    && 6 + |name| <= |s| && s[..5] == "stats" && s[5] != '\n'
    && forall k :: 0 <= k < |name| ==> if name[k] == '.' then s[6 + k] != '\n' else s[6 + k] == name[k]
  }

  function ReSub(name: string, v: string, s: string): string
    decreases |s|
  {
    if s == "" then ""
    else if MatchAt(name, s) then v + ReSub(name, v, s[6 + |name|..])
    else [s[0]] + ReSub(name, v, s[1..])
  }

  /** The value of a reference: a single cpu is not numbered in the statistics. */
  function Resolve(stats: Stats, name: string): Option<string> {
    if name in stats then Some(stats[name])
    else if Contains(name, ".cpu0.") then
      var single := Replace(name, ".cpu0.", ".cpu.");
      if single in stats then Some(stats[single]) else None
    else None
  }

  function Sequential(stats: Stats, names: seq<string>, s: string): string {
    if names == [] then s
    else
      var v := Resolve(stats, names[0]);
      Sequential(stats, names[1..], if v.Some? then ReSub(names[0], v.value, s) else s)
  }

  /** The script's loop over the references found in the original expression. */
  method Substitute(stats: Stats, value: string) returns (expr: string)
    ensures expr == Sequential(stats, Names(Tokenize(value)), value)
  {
    var names := Names(Tokenize(value));
    expr := value;
    var i := 0;
    while i < |names|
      invariant 0 <= i <= |names|
      invariant Sequential(stats, names[i..], expr) == Sequential(stats, names, value)
    {
      if names[i] in stats {
        expr := ReSub(names[i], stats[names[i]], expr);
      } else if Contains(names[i], ".cpu0.") {
        var single := Replace(names[i], ".cpu0.", ".cpu.");
        if single in stats {
          expr := ReSub(names[i], stats[single], expr);
        }
      }
      assert names[i..][1..] == names[i + 1..];
      i := i + 1;
    }
  }

  /** All references at once. */
  function Simultaneous(stats: Stats, ps: seq<Piece>): string {
    if ps == [] then ""
    else
      var v := if ps[0].Ref? then Resolve(stats, ps[0].name) else None;
      (if v.Some? then v.value else Flat(ps[0])) + Simultaneous(stats, ps[1..])
  }

  // ----- When one substitution hits its own references only -----

  function Lits(v: string): (ps: seq<Piece>)
    ensures |ps| == |v|
  {
    seq(|v|, i requires 0 <= i < |v| => Lit(v[i]))
  }

  function Fill(name: string, v: string, ps: seq<Piece>): seq<Piece> {
    if ps == [] then []
    else (if ps[0] == Ref(name) then Lits(v) else [ps[0]]) + Fill(name, v, ps[1..])
  }

  /** The pattern of name matches nowhere in p, rest being the text behind it. */
  ghost predicate Spared(name: string, p: Piece, rest: string) {
    forall j :: 0 <= j < |Flat(p)| ==> !MatchAt(name, (Flat(p) + rest)[j..])
  }

  /** The pattern of name matches nowhere but at its own references. */
  ghost predicate OnlyOwn(name: string, ps: seq<Piece>) {
    ps != [] ==> (ps[0] == Ref(name) || Spared(name, ps[0], Flatten(ps[1..]))) && OnlyOwn(name, ps[1..])
  }

  /** Text none of whose suffixes match is copied. */
  lemma {:induction false} Copied(name: string, v: string, t: string, rest: string)
    requires forall j :: 0 <= j < |t| ==> !MatchAt(name, (t + rest)[j..])
    ensures ReSub(name, v, t + rest) == t + ReSub(name, v, rest)
    decreases |t|
  {
    hide MatchAt;
    var s := t + rest;
    if t == "" {
      assert s == rest;
    } else {
      assert s[0..] == s;
      assert s[1..] == t[1..] + rest;
      forall j | 0 <= j < |t[1..]| ensures !MatchAt(name, (t[1..] + rest)[j..]) {
        assert (t[1..] + rest)[j..] == s[j + 1..];
      }
      Copied(name, v, t[1..], rest);
      assert t == [t[0]] + t[1..];
    }
  }

  lemma OwnMatches(name: string, rest: string)
    requires forall i :: 0 <= i < |name| ==> NameChar(name[i])
    ensures MatchAt(name, "stats." + name + rest)
    ensures ("stats." + name + rest)[6 + |name|..] == rest
  {
    var s := "stats." + name + rest;
    assert s[..5] == "stats";
    assert forall k :: 0 <= k < |name| ==> s[6 + k] == name[k];
  }

  /** One substitution, on pieces: it fills exactly its own references if its pattern matches nowhere else. */
  lemma {:induction false} OwnOnly(name: string, v: string, ps: seq<Piece>)
    requires (forall i :: 0 <= i < |name| ==> NameChar(name[i])) && OnlyOwn(name, ps)
    ensures ReSub(name, v, Flatten(ps)) == Flatten(Fill(name, v, ps))
    decreases |ps|
  {
    if ps != [] {
      hide MatchAt, NameChar;
      var rest := Flatten(ps[1..]);
      OwnOnly(name, v, ps[1..]);
      HeadSubstituted(name, v, ps[0], rest);
      var head := if ps[0] == Ref(name) then Lits(v) else [ps[0]];
      FlattenConcat(head, Fill(name, v, ps[1..]));
      FlattenOne(ps[0]);
      FlattenLits(v);
    }
  }

  lemma HeadSubstituted(name: string, v: string, p: Piece, rest: string)
    requires forall i :: 0 <= i < |name| ==> NameChar(name[i])
    requires p == Ref(name) || Spared(name, p, rest)
    ensures ReSub(name, v, Flat(p) + rest) == (if p == Ref(name) then v else Flat(p)) + ReSub(name, v, rest)
  {
    hide MatchAt;
    if p == Ref(name) {
      OwnMatches(name, rest);
    } else {
      Copied(name, v, Flat(p), rest);
    }
  }

  lemma FlattenOne(p: Piece)
    ensures Flatten([p]) == Flat(p)
  {
    assert [p][1..] == [];
  }

  lemma {:induction false} FlattenConcat(a: seq<Piece>, b: seq<Piece>)
    ensures Flatten(a + b) == Flatten(a) + Flatten(b)
  {
    if a == [] {
      assert a + b == b;
    } else {
      assert (a + b)[1..] == a[1..] + b;
      FlattenConcat(a[1..], b);
    }
  }

  lemma {:induction false} FlattenLits(v: string)
    ensures Flatten(Lits(v)) == v
  {
    if v != "" {
      FlattenLits(v[1..]);
      assert Lits(v)[1..] == Lits(v[1..]);
      assert v == [v[0]] + v[1..];
    }
  }

  /** A value that can be seen where it does not belong. */
  predicate Visible(v: string) { v != "" && v[0] != 's' }

  /** And conversely: such a value is put elsewhere as soon as the pattern matches elsewhere. */
  lemma {:induction false} OwnOnlyNeeded(name: string, v: string, ps: seq<Piece>)
    requires (forall i :: 0 <= i < |name| ==> NameChar(name[i])) && Visible(v) && !OnlyOwn(name, ps)
    ensures ReSub(name, v, Flatten(ps)) != Flatten(Fill(name, v, ps))
    decreases |ps|
  {
    hide MatchAt, NameChar;
    var rest := Flatten(ps[1..]);
    var head := if ps[0] == Ref(name) then Lits(v) else [ps[0]];
    var filled := Fill(name, v, ps[1..]);
    FlattenConcat(head, filled);
    FlattenOne(ps[0]);
    FlattenLits(v);
    if ps[0] != Ref(name) && !Spared(name, ps[0], rest) {
      var j :| 0 <= j < |Flat(ps[0])| && MatchAt(name, (Flat(ps[0]) + rest)[j..]);
      SubstitutedInside(name, v, Flat(ps[0]), rest, Flatten(filled), j);
    } else {
      OwnOnlyNeeded(name, v, ps[1..]);
      HeadSubstituted(name, v, ps[0], rest);
      SameHead(Flatten(head), ReSub(name, v, rest), Flatten(filled));
    }
  }

  lemma ReSubFirst(name: string, v: string, s: string)
    requires s != ""
    ensures MatchAt(name, s) ==>
              s[0] == 's' && 6 + |name| <= |s| && ReSub(name, v, s) == v + ReSub(name, v, s[6 + |name|..])
    ensures !MatchAt(name, s) ==> ReSub(name, v, s) == [s[0]] + ReSub(name, v, s[1..])
  {
    assert |s| >= 5 ==> s[..5][0] == s[0];
  }

  /** A match that begins in t puts the value's first character where t has an 's'. */
  lemma {:induction false} SubstitutedInside(name: string, v: string, t: string, rest: string, other: string, j: nat)
    requires Visible(v) && j < |t| && MatchAt(name, (t + rest)[j..])
    ensures ReSub(name, v, t + rest) != t + other
    decreases |t|
  {
    hide MatchAt;
    var s := t + rest;
    assert s[0..] == s;
    ReSubFirst(name, v, s);
    hide ReSub;
    if MatchAt(name, s) {
      assert s[0] == t[0] && (t + other)[0] == t[0];
    } else {
      assert s[1..] == t[1..] + rest && s[j..] == s[1..][j - 1..];
      SubstitutedInside(name, v, t[1..], rest, other, j - 1);
      SameHead([t[0]], ReSub(name, v, s[1..]), t[1..] + other);
      assert t + other == [t[0]] + (t[1..] + other);
    }
  }

  lemma SameHead(h: string, a: string, b: string)
    requires a != b
    ensures h + a != h + b
  {
    assert a == (h + a)[|h|..] && b == (h + b)[|h|..];
  }

  // ----- All substitutions -----

  /** Every pattern matches its own references only, in the text as it stands when its turn has come. */
  ghost predicate Clean(stats: Stats, names: seq<string>, ps: seq<Piece>)
    decreases |names|
  {
    names != [] ==>
      var v := Resolve(stats, names[0]);
      && (v.Some? ==> OnlyOwn(names[0], ps))
      && Clean(stats, names[1..], if v.Some? then Fill(names[0], v.value, ps) else ps)
  }

  function FillAll(stats: Stats, names: seq<string>, ps: seq<Piece>): seq<Piece>
    decreases |names|
  {
    if names == [] then ps
    else
      var v := Resolve(stats, names[0]);
      FillAll(stats, names[1..], if v.Some? then Fill(names[0], v.value, ps) else ps)
  }

  /** After each of the substitutions, the text is the one with the references so far filled in. */
  ghost predicate AllAlong(stats: Stats, names: seq<string>, s: string, ps: seq<Piece>) {
    forall k :: 0 <= k <= |names| ==> Sequential(stats, names[..k], s) == Flatten(FillAll(stats, names[..k], ps))
  }

  ghost predicate NameChars(n: string) {
    n != "" && forall i :: 0 <= i < |n| ==> NameChar(n[i])
  }

  lemma AllAlongFirst(stats: Stats, names: seq<string>, s: string, ps: seq<Piece>)
    requires names != []
    ensures var v := Resolve(stats, names[0]);
            AllAlong(stats, names, s, ps) <==>
            && s == Flatten(ps)
            && AllAlong(stats, names[1..], if v.Some? then ReSub(names[0], v.value, s) else s,
                        if v.Some? then Fill(names[0], v.value, ps) else ps)
  {
    hide Resolve, ReSub, Fill, Flatten;
    var v := Resolve(stats, names[0]);
    var s', ps' := if v.Some? then ReSub(names[0], v.value, s) else s, if v.Some? then Fill(names[0], v.value, ps) else ps;
    assert names[..0] == [];
    forall k | 0 < k <= |names|
      ensures Sequential(stats, names[..k], s) == Sequential(stats, names[1..][..k - 1], s')
      ensures FillAll(stats, names[..k], ps) == FillAll(stats, names[1..][..k - 1], ps')
    {
      assert names[..k][0] == names[0] && names[..k][1..] == names[1..][..k - 1];
    }
    hide Sequential, FillAll;
    if s == Flatten(ps) && AllAlong(stats, names[1..], s', ps') {
      forall k | 0 <= k <= |names|
        ensures Sequential(stats, names[..k], s) == Flatten(FillAll(stats, names[..k], ps))
      {
        if k == 0 {
          NothingYet(stats, s, ps);
        }
      }
    }
    if AllAlong(stats, names, s, ps) {
      NothingYet(stats, s, ps);
      assert Sequential(stats, names[..0], s) == Flatten(FillAll(stats, names[..0], ps));
      forall k | 0 <= k <= |names[1..]|
        ensures Sequential(stats, names[1..][..k], s') == Flatten(FillAll(stats, names[1..][..k], ps'))
      {
        assert Sequential(stats, names[..k + 1], s) == Flatten(FillAll(stats, names[..k + 1], ps));
        assert names[1..][..(k + 1) - 1] == names[1..][..k];
      }
    }
  }

  lemma NothingYet(stats: Stats, s: string, ps: seq<Piece>)
    ensures Sequential(stats, [], s) == s && FillAll(stats, [], ps) == ps
  {
  }

  /** The whole loop stays on course exactly when the expression is clean. */
  lemma {:induction false} CleanExactly(stats: Stats, names: seq<string>, ps: seq<Piece>)
    requires forall n :: n in names ==> NameChars(n)
    requires forall n :: n in names && Resolve(stats, n).Some? ==> Visible(Resolve(stats, n).value)
    ensures AllAlong(stats, names, Flatten(ps), ps) <==> Clean(stats, names, ps)
    decreases |names|
  {
    if names == [] {
      assert names[..0] == [];
    } else {
      hide Resolve, AllAlong, Visible;
      var name := names[0];
      assert name in names && NameChars(name);
      hide NameChars;
      AllAlongFirst(stats, names, Flatten(ps), ps);
      if Resolve(stats, name).None? {
        CleanExactly(stats, names[1..], ps);
      } else {
        var v := Resolve(stats, name).value;
        CleanExactly(stats, names[1..], Fill(name, v, ps));
        OneExactly(name, v, ps);
        AllAlongStarts(stats, names[1..], ReSub(name, v, Flatten(ps)), Fill(name, v, ps));
      }
    }
  }

  lemma OneExactly(name: string, v: string, ps: seq<Piece>)
    requires NameChars(name) && Visible(v)
    ensures ReSub(name, v, Flatten(ps)) == Flatten(Fill(name, v, ps)) <==> OnlyOwn(name, ps)
  {
    if OnlyOwn(name, ps) {
      OwnOnly(name, v, ps);
    } else {
      OwnOnlyNeeded(name, v, ps);
    }
  }

  lemma AllAlongStarts(stats: Stats, names: seq<string>, s: string, ps: seq<Piece>)
    ensures AllAlong(stats, names, s, ps) ==> s == Flatten(ps)
  {
    NothingYet(stats, s, ps);
    assert names[..0] == [];
    if AllAlong(stats, names, s, ps) {
      assert Sequential(stats, names[..0], s) == Flatten(FillAll(stats, names[..0], ps));
    }
  }

  lemma {:induction false} FillSimultaneous(stats: Stats, name: string, ps: seq<Piece>)
    requires Resolve(stats, name).Some?
    ensures Simultaneous(stats, Fill(name, Resolve(stats, name).value, ps)) == Simultaneous(stats, ps)
    decreases |ps|
  {
    if ps != [] {
      var v := Resolve(stats, name).value;
      hide Resolve;
      var head := if ps[0] == Ref(name) then Lits(v) else [ps[0]];
      FillSimultaneous(stats, name, ps[1..]);
      SimultaneousConcat(stats, head, Fill(name, v, ps[1..]));
      SimultaneousConcat(stats, [ps[0]], ps[1..]);
      assert ps == [ps[0]] + ps[1..];
      SimultaneousOne(stats, ps[0]);
      SimultaneousLits(stats, v);
    }
  }

  lemma SimultaneousOne(stats: Stats, p: Piece)
    ensures Simultaneous(stats, [p]) ==
            if p.Ref? && Resolve(stats, p.name).Some? then Resolve(stats, p.name).value else Flat(p)
  {
    assert [p][1..] == [];
  }

  lemma SimultaneousFirst(stats: Stats, ps: seq<Piece>)
    requires ps != []
    ensures Simultaneous(stats, ps) == Simultaneous(stats, [ps[0]]) + Simultaneous(stats, ps[1..])
  {
    hide Resolve, Flat;
    SimultaneousOne(stats, ps[0]);
  }

  lemma {:induction false} SimultaneousConcat(stats: Stats, a: seq<Piece>, b: seq<Piece>)
    ensures Simultaneous(stats, a + b) == Simultaneous(stats, a) + Simultaneous(stats, b)
  {
    if a == [] {
      assert a + b == b;
    } else {
      hide Simultaneous;
      SimultaneousFirst(stats, a);
      SimultaneousFirst(stats, a + b);
      SimultaneousConcat(stats, a[1..], b);
      assert (a + b)[1..] == a[1..] + b && (a + b)[0] == a[0];
      var head := Simultaneous(stats, [a[0]]);
      assert head + (Simultaneous(stats, a[1..]) + Simultaneous(stats, b)) ==
             head + Simultaneous(stats, a[1..]) + Simultaneous(stats, b);
    }
  }

  lemma {:induction false} SimultaneousLits(stats: Stats, v: string)
    ensures Simultaneous(stats, Lits(v)) == v
  {
    if v != "" {
      SimultaneousLits(stats, v[1..]);
      assert Lits(v)[1..] == Lits(v[1..]);
      assert v == [v[0]] + v[1..];
    }
  }

  lemma {:induction false} NothingToDo(stats: Stats, ps: seq<Piece>)
    requires forall p :: p in ps && p.Ref? ==> Resolve(stats, p.name) == None
    ensures Simultaneous(stats, ps) == Flatten(ps)
  {
    if ps != [] {
      assert ps[0] in ps;
      NothingToDo(stats, ps[1..]);
    }
  }

  lemma {:induction false} FillRefs(name: string, v: string, ps: seq<Piece>)
    ensures forall p :: p in Fill(name, v, ps) && p.Ref? ==> p in ps && p.name != name
    decreases |ps|
  {
    if ps != [] {
      FillRefs(name, v, ps[1..]);
      assert ps == [ps[0]] + ps[1..];
    }
  }

  lemma {:induction false} SequentialPieces(stats: Stats, names: seq<string>, ps: seq<Piece>)
    requires (forall n :: n in names ==> NameChars(n)) && Clean(stats, names, ps)
    requires forall p :: p in ps && p.Ref? && Resolve(stats, p.name).Some? ==> p.name in names
    ensures Sequential(stats, names, Flatten(ps)) == Simultaneous(stats, ps)
    decreases |names|
  {
    hide Resolve, NameChars;
    if names == [] {
      NothingToDo(stats, ps);
    } else {
      var name := names[0];
      var v := Resolve(stats, name);
      assert name in names && forall x :: x in names ==> x == name || x in names[1..];
      if v.Some? {
        OwnFilled(name, v.value, ps);
        FillRefs(name, v.value, ps);
        FillSimultaneous(stats, name, ps);
        hide Fill, OnlyOwn;
        SequentialPieces(stats, names[1..], Fill(name, v.value, ps));
      } else {
        SequentialPieces(stats, names[1..], ps);
      }
    }
  }

  lemma OwnFilled(name: string, v: string, ps: seq<Piece>)
    requires NameChars(name) && OnlyOwn(name, ps)
    ensures ReSub(name, v, Flatten(ps)) == Flatten(Fill(name, v, ps))
  {
    OwnOnly(name, v, ps);
  }

  lemma {:induction false} TokenizeNames(s: string)
    ensures forall p :: p in Tokenize(s) && p.Ref? ==> NameChars(p.name)
    decreases |s|
  {
    var n := RefLength(s);
    if s == "" {
    } else if n > 0 {
      TokenizeNames(s[n..]);
      assert s[6..][..n - 6] == s[6..n];
      assert NameChars(s[6..n]);
      hide NameChars, RefLength;
    } else {
      TokenizeNames(s[1..]);
      hide NameChars, RefLength;
    }
  }

  lemma TokenizeHead(s: string)
    requires s != "" && !NameChar(s[0])
    ensures RefLength(s) == 0 && Tokenize(s) == [Lit(s[0])] + Tokenize(s[1..])
  {
    assert |s| >= 6 ==> s[..6][0] == s[0];
  }

  lemma {:induction false} NamesOf(ps: seq<Piece>)
    ensures forall n :: n in Names(ps) <==> Ref(n) in ps
  {
    if ps != [] {
      NamesOf(ps[1..]);
      assert ps == [ps[0]] + ps[1..];
      var head := if ps[0].Ref? then [ps[0].name] else [];
      assert Names(ps) == head + Names(ps[1..]);
    }
  }

  /** Substituting one after another is substituting all at once, for every clean expression. */
  lemma SequentialIsSimultaneous(stats: Stats, value: string)
    requires Clean(stats, Names(Tokenize(value)), Tokenize(value))
    ensures Sequential(stats, Names(Tokenize(value)), value) == Simultaneous(stats, Tokenize(value))
  {
    hide Tokenize, Resolve, Clean, NameChars;
    var ps := Tokenize(value);
    FlattenTokenize(value);
    TokenizeNames(value);
    NamesOf(ps);
    forall n | n in Names(ps) ensures NameChars(n) {
      assert Ref(n) in ps;
    }
    forall p | p in ps && p.Ref? ensures p.name in Names(ps) {
      assert p == Ref(p.name);
    }
    SequentialPieces(stats, Names(ps), ps);
  }

  /** And every text in between is the right one exactly for the clean ones. */
  lemma SubstitutionExactly(stats: Stats, value: string)
    requires var ps := Tokenize(value);
             forall p :: p in ps && p.Ref? && Resolve(stats, p.name).Some? ==> Visible(Resolve(stats, p.name).value)
    ensures var ps := Tokenize(value);
            AllAlong(stats, Names(ps), value, ps) <==> Clean(stats, Names(ps), ps)
  {
    hide Tokenize, Resolve, Clean, NameChars, AllAlong, Visible;
    var ps := Tokenize(value);
    FlattenTokenize(value);
    TokenizeNames(value);
    NamesOf(ps);
    forall n | n in Names(ps)
      ensures NameChars(n) && (Resolve(stats, n).Some? ==> Visible(Resolve(stats, n).value))
    {
      assert Ref(n) in ps && Ref(n).name == n;
    }
    CleanExactly(stats, Names(ps), ps);
  }

  // ----- What a template's author can check -----

  predicate Worded(s: string) { StartsWith(s, "stats") }

  predicate QuietName(name: string) {
    && name != "" && !Contains(name, "stats")
    && forall i :: 0 <= i < |name| ==> NameChar(name[i])
  }

  /** Text in which "stats" can only begin a reference, and in which references end where they should. */
  ghost predicate Quiet(ps: seq<Piece>) {
    ps != [] ==> QuietFirst(ps) && Quiet(ps[1..])
  }

  predicate QuietFirst(ps: seq<Piece>)
    requires ps != []
  {
    match ps[0]
    case Lit(_) => !Worded(Flatten(ps))
    case Ref(name) => QuietName(name) && (|ps| > 1 ==> ps[1].Lit? && !NameChar(ps[1].c))
  }

  /** The same of an expression: "stats" occurs neither inside a name nor between the references. */
  predicate QuietText(s: string)
    decreases |s|
  {
    var n := RefLength(s);
    if s == "" then true
    else if n > 0 then !Contains(s[6..n], "stats") && QuietText(s[n..])
    else !Worded(s) && QuietText(s[1..])
  }

  lemma QuietFirstText(s: string)
    requires s != ""
    ensures var n := RefLength(s);
            QuietText(s) <==>
            if n > 0 then !Contains(s[6..n], "stats") && QuietText(s[n..]) else !Worded(s) && QuietText(s[1..])
  {
  }

  lemma {:induction false} TokenizeQuiet(s: string)
    ensures Quiet(Tokenize(s)) <==> QuietText(s)
    decreases |s|
  {
    var n := RefLength(s);
    var ps := Tokenize(s);
    if s == "" {
    } else if n > 0 {
      var t := s[n..];
      TokenizeQuiet(t);
      assert ps[1..] == Tokenize(t);
      assert s[6..][..n - 6] == s[6..n];
      if t != "" {
        assert t[0] == s[6..][n - 6];
        TokenizeHead(t);
        assert ps[1] == Lit(t[0]);
      }
      hide Contains, Quiet, QuietText, Tokenize;
    } else {
      TokenizeQuiet(s[1..]);
      FlattenTokenize(s);
      assert ps[1..] == Tokenize(s[1..]);
    }
  }

  /** Quiet pieces are what their text is cut into. */
  lemma {:induction false} TokenizeFlatten(ps: seq<Piece>)
    requires Quiet(ps)
    ensures Tokenize(Flatten(ps)) == ps
    decreases |ps|
  {
    if ps != [] {
      hide Tokenize, Flatten;
      TokenizeFlatten(ps[1..]);
      FirstTokenized(ps);
    } else {
      TokenizeEmpty();
    }
  }

  lemma FirstTokenized(ps: seq<Piece>)
    requires ps != [] && QuietFirst(ps) && Tokenize(Flatten(ps[1..])) == ps[1..]
    ensures Tokenize(Flatten(ps)) == ps
  {
    hide Tokenize, Worded, QuietName, RefLength;
    if ps[0].Ref? {
      RestBegins(ps);
    }
    assert Flatten(ps) == Flat(ps[0]) + Flatten(ps[1..]);
    hide Flatten;
    assert ps == [ps[0]] + ps[1..];
    match ps[0]
    case Lit(c) =>
      LitTokenized(c, Flatten(ps[1..]));
    case Ref(name) =>
      RefTokenized(name, Flatten(ps[1..]));
  }

  lemma LitTokenized(c: char, rest: string)
    requires !Worded([c] + rest)
    ensures Tokenize([c] + rest) == [Lit(c)] + Tokenize(rest)
  {
    hide Tokenize, RefLength;
    var s := [c] + rest;
    NoRefWithoutWord(s);
    TokenizeFirst(s);
    assert s[1..] == rest;
  }

  lemma NoRefWithoutWord(s: string)
    requires !Worded(s)
    ensures RefLength(s) == 0
  {
    assert |s| >= 6 ==> s[..5] == s[..6][..5];
  }

  lemma RestBegins(ps: seq<Piece>)
    requires ps != [] && ps[0].Ref? && QuietFirst(ps)
    ensures var rest := Flatten(ps[1..]); rest != "" ==> !NameChar(rest[0])
  {
    if |ps| > 1 {
      assert ps[1..][0] == ps[1];
    }
  }

  lemma RefTokenized(name: string, rest: string)
    requires QuietName(name) && (rest != "" ==> !NameChar(rest[0]))
    ensures Tokenize("stats." + name + rest) == [Ref(name)] + Tokenize(rest)
  {
    hide RefLength;
    var s := "stats." + name + rest;
    RefLengthOf(name, rest);
    assert s[6..6 + |name|] == name && s[6 + |name|..] == rest;
  }

  lemma RefLengthOf(name: string, rest: string)
    requires QuietName(name) && (rest != "" ==> !NameChar(rest[0]))
    ensures RefLength("stats." + name + rest) == 6 + |name|
  {
    var s := "stats." + name + rest;
    assert s[..6] == "stats." && s[6..] == name + rest;
    NameRunOf(name, rest);
    hide NameRun;
  }

  /** What a statistic's name is made of. */
  ghost predicate Spelling(s: string) {
    s != "" && forall c :: c in s ==> 'a' <= c <= 'z' || 'A' <= c <= 'Z' || '0' <= c <= '9' || c in "_:."
  }

  /** A reference is found whole, and what follows it on its own. */
  lemma ReferenceFound(name: string, rest: string)
    requires Spelling(name) && (rest != "" ==> !Spelling(rest[..1]))
    ensures Tokenize("stats." + name + rest) == [Ref(name)] + Tokenize(rest)
  {
    var s := "stats." + name + rest;
    forall i | 0 <= i < |name| ensures NameChar(name[i]) {
      assert name[i] in name;
    }
    assert rest != "" ==> !NameChar(rest[0]) by {
      if rest != "" {
        assert rest[..1] == [rest[0]];
      }
    }
    assert s[..6] == "stats." && s[6..] == name + rest;
    NameRunOf(name, rest);
    hide NameRun, Tokenize, Spelling, NameChar;
    assert RefLength(s) == 6 + |name|;
    TokenizeFirst(s);
    assert s[6..6 + |name|] == name && s[6 + |name|..] == rest;
  }

  /**
   Where a substitution fires: behind "stats" and any character stands the name, any character for each of
   its dots; none of these is a line feed.
   */
  lemma WildcardFires(name: string, v: string, c: char, t: string, rest: string)
    requires |t| == |name|
    ensures var s := "stats" + [c] + t + rest;
            var alike := c != '\n' && forall k :: 0 <= k < |t| ==> t[k] == name[k] || (name[k] == '.' && t[k] != '\n');
            '\n' !in name ==>
              ReSub(name, v, s) == if alike then v + ReSub(name, v, rest) else "s" + ReSub(name, v, s[1..])
  {
    var s := "stats" + [c] + t + rest;
    assert s[..5] == "stats" && s[5] == c && s[6 + |name|..] == rest && s[0] == 's';
    assert forall k :: 0 <= k < |t| ==> s[6 + k] == t[k];
  }

  lemma {:induction false} NameRunOf(name: string, rest: string)
    requires (forall i :: 0 <= i < |name| ==> NameChar(name[i])) && (rest != "" ==> !NameChar(rest[0]))
    ensures NameRun(name + rest) == |name|
  {
    if name == "" {
      assert name + rest == rest;
    } else {
      assert (name + rest)[1..] == name[1..] + rest;
      NameRunOf(name[1..], rest);
    }
  }

  /** Some character of a tells it from b and what follows b, wildcards aside. */
  predicate Apart(a: string, b: string) {
    exists k :: 0 <= k < |a| && k <= |b| && a[k] != '.' && (k == |b| || a[k] != b[k])
  }

  lemma ApartMeans(name: string, b: string, rest: string)
    requires Apart(name, b) && QuietName(name) && (rest != "" ==> !NameChar(rest[0]))
    ensures !MatchAt(name, "stats." + b + rest)
  {
    var k :| 0 <= k < |name| && k <= |b| && name[k] != '.' && (k == |b| || name[k] != b[k]);
    var s := "stats." + b + rest;
    assert k < |b| ==> s[6 + k] == b[k];
    assert k == |b| && rest != "" ==> s[6 + k] == rest[0];
  }

  /** Inside a reference, behind its first character, no pattern matches. */
  lemma NoMatchInside(name: string, b: string, rest: string, j: nat)
    requires QuietName(b) && 0 < j < 6 + |b| && (rest != "" ==> !NameChar(rest[0]))
    ensures !MatchAt(name, ("stats." + b + rest)[j..])
  {
    var s := "stats." + b + rest;
    if MatchAt(name, s[j..]) {
      assert s[j..][..5] == s[j..j + 5] == "stats";
      StatsInside(b, rest, j);
    }
  }

  lemma StatsInside(b: string, rest: string, j: nat)
    requires 0 < j < 6 + |b| && (rest != "" ==> !NameChar(rest[0]))
    requires j + 5 <= 6 + |b| + |rest| && ("stats." + b + rest)[j..j + 5] == "stats"
    ensures Contains(b, "stats")
  {
    var s := "stats." + b + rest;
    var w := s[j..j + 5];
    assert s[..6] == "stats.";
    WordInside(s, w, j, 6 + |b|);
    assert b[j - 6..][..5] == w;
    assert StartsWith(b[j - 6..], w);
  }

  lemma WordInside(s: string, w: string, j: nat, end: nat)
    requires 0 < j < end && 6 <= end && |s| >= j + 5 && s[..6] == "stats." && s[j..j + 5] == w == "stats"
    requires end < |s| ==> !NameChar(s[end])
    ensures j >= 6 && j + 5 <= end
  {
    assert w[0] == 's' && w[1] == 't' && w[2] == 'a' && w[3] == 't' && w[4] == 's';
    assert forall m :: 0 <= m < 5 ==> s[j + m] == w[m];
    assert s[..6][5] == s[5] && s[..6][1] == s[1] && s[..6][2] == s[2] && s[..6][3] == s[3] && s[..6][4] == s[4];
    assert forall m :: 0 <= m < 5 ==> NameChar(w[m]);
  }

  ghost predicate ApartFrom(name: string, ps: seq<Piece>) {
    forall p :: p in ps && p.Ref? && p.name != name ==> Apart(name, p.name)
  }

  lemma {:induction false} ApartIsOwn(name: string, ps: seq<Piece>)
    requires QuietName(name) && Quiet(ps) && ApartFrom(name, ps)
    ensures OnlyOwn(name, ps)
    decreases |ps|
  {
    if ps != [] {
      var rest := Flatten(ps[1..]);
      assert ps[0] in ps && forall p :: p in ps[1..] ==> p in ps;
      hide QuietName, Apart;
      ApartIsOwn(name, ps[1..]);
      if ps[0] != Ref(name) {
        match ps[0]
        case Lit(c) =>
          LitSpared(name, c, rest);
        case Ref(b) =>
          RestBegins(ps);
          RefSpared(name, b, rest);
      }
    }
  }

  lemma LitSpared(name: string, c: char, rest: string)
    requires !Worded([c] + rest)
    ensures Spared(name, Lit(c), rest)
  {
    assert ([c] + rest)[0..] == [c] + rest;
  }

  lemma RefSpared(name: string, b: string, rest: string)
    requires QuietName(name) && QuietName(b) && Apart(name, b) && (rest != "" ==> !NameChar(rest[0]))
    ensures Spared(name, Ref(b), rest)
  {
    hide MatchAt, QuietName, Apart;
    var t := "stats." + b;
    forall j | 0 <= j < |t| ensures !MatchAt(name, (t + rest)[j..]) {
      if j == 0 {
        ApartMeans(name, b, rest);
        assert (t + rest)[0..] == t + rest;
      } else {
        NoMatchInside(name, b, rest, j);
      }
    }
  }

  /** A value that cannot help to spell "stats" with its neighbours. */
  predicate QuietValue(v: string) {
    's' !in v && exists k :: 0 <= k < |v| && v[k] != 't' && v[k] != 'a'
  }

  /** The end of the word, or all of it. */
  ghost predicate WordEnd(w: string) {
    && 0 < |w| <= 5 && w[|w| - 1] == 's'
    && forall i :: 0 <= i < |w| ==> w[i] == 's' || w[i] == 't' || w[i] == 'a'
  }

  lemma NotBegun(v: string, rest: string, w: string)
    requires QuietValue(v) && WordEnd(w)
    ensures !StartsWith(v + rest, w)
  {
    if StartsWith(v + rest, w) {
      BegunMeans(v, rest, w);
    }
  }

  lemma BegunMeans(v: string, rest: string, w: string)
    requires 's' !in v && WordEnd(w) && StartsWith(v + rest, w)
    ensures forall k :: 0 <= k < |v| ==> v[k] == 't' || v[k] == 'a'
  {
    assert forall i :: 0 <= i < |w| ==> (v + rest)[..|w|][i] == (v + rest)[i];
    assert forall k :: 0 <= k < |w| && k < |v| ==> v[k] == w[k] && v[k] in v;
    assert |v| < |w|;
  }

  /** No word is completed by filling in quiet values. */
  lemma {:induction false} NoNewWord(name: string, v: string, ps: seq<Piece>, w: string)
    requires QuietValue(v) && WordEnd(w)
    ensures StartsWith(Flatten(Fill(name, v, ps)), w) ==> StartsWith(Flatten(ps), w)
    decreases |ps|
  {
    if ps != [] {
      hide QuietValue;
      var filled, rest := Fill(name, v, ps[1..]), Flatten(ps[1..]);
      var head := if ps[0] == Ref(name) then Lits(v) else [ps[0]];
      FlattenConcat(head, filled);
      FlattenOne(ps[0]);
      FlattenLits(v);
      if ps[0] == Ref(name) {
        NotBegun(v, Flatten(filled), w);
      } else {
        if ps[0].Lit? && |w| > 1 {
          NoNewWord(name, v, ps[1..], w[1..]);
        }
        hide Flatten, Fill;
        BehindHead(Flat(ps[0]), Flatten(filled), rest, w);
      }
    }
  }

  lemma BehindHead(h: string, a: string, b: string, w: string)
    requires w != "" && h != "" && (|h| == 1 || |w| <= |h|)
    requires |w| > 1 && |h| == 1 && StartsWith(a, w[1..]) ==> StartsWith(b, w[1..])
    ensures StartsWith(h + a, w) ==> StartsWith(h + b, w)
  {
    if StartsWith(h + a, w) {
      if |w| <= |h| {
        assert (h + a)[..|w|] == h[..|w|] == (h + b)[..|w|];
      } else {
        assert a[..|w| - 1] == (h + a)[..|w|][1..] == w[1..];
        assert StartsWith(b, w[1..]);
        assert (h + b)[..|w|] == h + b[..|w| - 1] && w == [w[0]] + w[1..] && (h + a)[..|w|][0] == h[0];
      }
    }
  }

  lemma {:induction false} FillQuiet(name: string, v: string, ps: seq<Piece>)
    requires Quiet(ps) && QuietValue(v)
    ensures Quiet(Fill(name, v, ps))
    ensures ps != [] && ps[0].Lit? ==> Fill(name, v, ps) != [] && Fill(name, v, ps)[0] == ps[0]
    decreases |ps|
  {
    if ps != [] {
      var tail := Fill(name, v, ps[1..]);
      FillQuiet(name, v, ps[1..]);
      if ps[0] == Ref(name) {
        LitsQuiet(v, tail);
      } else {
        assert WordEnd("stats");
        NoNewWord(name, v, ps, "stats");
        assert ([ps[0]] + tail)[1..] == tail;
        if ps[0].Ref? && |ps| > 1 {
          assert ps[1..][0] == ps[1];
        }
        assert |ps| == 1 ==> ps[1..] == [];
        hide QuietName, QuietValue, NameChar;
        assert QuietFirst([ps[0]] + tail);
      }
    }
  }

  lemma {:induction false} LitsQuiet(v: string, tail: seq<Piece>)
    requires 's' !in v && Quiet(tail)
    ensures Quiet(Lits(v) + tail)
    decreases |v|
  {
    var ps := Lits(v) + tail;
    if v == "" {
      assert ps == tail;
    } else {
      assert ps[1..] == Lits(v[1..]) + tail;
      LitsQuiet(v[1..], tail);
      assert Flatten(ps)[0] == v[0];
      assert |Flatten(ps)| >= 5 ==> Flatten(ps)[..5][0] == v[0];
    }
  }

  /**
   Every name is told apart from those that are still there when its turn has come: the earlier ones of the
   list are gone, unless there is no value for them.
   */
  ghost predicate InOrder(stats: Stats, names: seq<string>, ps: seq<Piece>) {
    forall i, p ::
      (&& 0 <= i < |names| && Resolve(stats, names[i]).Some? && p in ps && p.Ref? && p.name != names[i]
       && !(p.name in names[..i] && Resolve(stats, p.name).Some?))
      ==> Apart(names[i], p.name)
  }

  lemma InOrderFirst(stats: Stats, names: seq<string>, ps: seq<Piece>, qs: seq<Piece>)
    requires names != [] && InOrder(stats, names, ps)
    requires forall p :: p in qs && p.Ref? ==> p in ps && (Resolve(stats, names[0]).Some? ==> p.name != names[0])
    ensures Resolve(stats, names[0]).Some? ==> ApartFrom(names[0], ps)
    ensures InOrder(stats, names[1..], qs)
  {
    hide Resolve, Apart;
    assert names[..0] == [];
    forall i, p | 0 <= i < |names[1..]| && Resolve(stats, names[1..][i]).Some? && p in qs && p.Ref? &&
                  p.name != names[1..][i] && !(p.name in names[1..][..i] && Resolve(stats, p.name).Some?)
      ensures Apart(names[1..][i], p.name)
    {
      assert names[..i + 1] == [names[0]] + names[1..][..i];
      assert names[i + 1] == names[1..][i];
    }
  }

  /** An expression in which names are told apart in their order is clean. */
  lemma {:induction false} InOrderIsClean(stats: Stats, names: seq<string>, ps: seq<Piece>)
    requires Quiet(ps) && InOrder(stats, names, ps) && forall n :: n in names ==> QuietName(n)
    requires forall n :: n in names && Resolve(stats, n).Some? ==> QuietValue(Resolve(stats, n).value)
    ensures Clean(stats, names, ps)
    decreases |names|
  {
    if names != [] {
      hide Resolve, QuietName, QuietValue, Quiet, InOrder, OnlyOwn, Fill;
      var name := names[0];
      var v := Resolve(stats, name);
      assert name in names;
      if v.Some? {
        FillRefs(name, v.value, ps);
        FillQuiet(name, v.value, ps);
        InOrderFirst(stats, names, ps, Fill(name, v.value, ps));
        ApartIsOwn(name, ps);
        InOrderIsClean(stats, names[1..], Fill(name, v.value, ps));
      } else {
        InOrderFirst(stats, names, ps, ps);
        InOrderIsClean(stats, names[1..], ps);
      }
    }
  }

  /** Expressions a template may safely hold. */
  ghost predicate SafeExpression(stats: Stats, value: string) {
    var ps := Tokenize(value);
    && QuietText(value) && InOrder(stats, Names(ps), ps)
    && (forall p :: p in ps && p.Ref? && Resolve(stats, p.name).Some? ==> QuietValue(Resolve(stats, p.name).value))
  }

  lemma {:induction false} QuietNames(ps: seq<Piece>)
    requires Quiet(ps)
    ensures forall p :: p in ps && p.Ref? ==> QuietName(p.name)
  {
    if ps != [] {
      QuietNames(ps[1..]);
      assert ps == [ps[0]] + ps[1..];
    }
  }

  lemma SafeIsClean(stats: Stats, value: string)
    requires SafeExpression(stats, value)
    ensures Clean(stats, Names(Tokenize(value)), Tokenize(value))
  {
    hide Tokenize, Resolve, QuietName, QuietValue, QuietText, InOrder, Clean, Quiet;
    var ps := Tokenize(value);
    TokenizeQuiet(value);
    QuietNames(ps);
    NamesOf(ps);
    forall n | n in Names(ps)
      ensures QuietName(n) && (Resolve(stats, n).Some? ==> QuietValue(Resolve(stats, n).value))
    {
      assert Ref(n) in ps && Ref(n).name == n;
    }
    InOrderIsClean(stats, Names(ps), ps);
  }

  /** The longer of two names, one the beginning of the other, must come first. */
  lemma LongerFirst(stats: Stats, a: string, b: string)
    requires QuietName(a) && QuietName(b) && b < a && a[|b|] != '.'
    requires Resolve(stats, a).Some? && Resolve(stats, b).Some?
    requires QuietValue(Resolve(stats, a).value) && QuietValue(Resolve(stats, b).value)
    ensures Clean(stats, [a, b], [Ref(a), Lit('+'), Ref(b)])
    ensures !Clean(stats, [b, a], [Ref(b), Lit('+'), Ref(a)])
  {
    hide Resolve, QuietValue;
    assert Apart(a, b);
    var ps, qs := [Ref(a), Lit('+'), Ref(b)], [Ref(b), Lit('+'), Ref(a)];
    TwoNames(a, b);
    assert [a, b][..1] == [a];
    hide QuietName, Apart, Quiet;
    InOrderIsClean(stats, [a, b], ps);
    ShorterHits(b, a, qs);
  }

  lemma ShorterHits(b: string, a: string, qs: seq<Piece>)
    requires b < a && QuietName(a) && qs == [Ref(b), Lit('+'), Ref(a)]
    ensures !OnlyOwn(b, qs)
  {
    hide Spared, QuietName;
    PrefixMatches(b, a);
    var last := [Ref(a)];
    assert qs[1..][1..] == last && last[1..] == [] && Flatten([]) == "";
    assert a != b && !OnlyOwn(b, last);
    assert !OnlyOwn(b, qs[1..]);
  }

  lemma TwoNames(a: string, b: string)
    requires QuietName(a) && QuietName(b)
    ensures Quiet([Ref(a), Lit('+'), Ref(b)])
  {
    hide QuietName;
    var ps2, ps1 := [Ref(b)], [Lit('+'), Ref(b)];
    var ps := [Ref(a), Lit('+'), Ref(b)];
    assert ps[1..] == ps1 && ps1[1..] == ps2 && ps2[1..] == [];
    assert Quiet([]) && Quiet(ps2);
    assert Flatten(ps1)[0] == '+' && !Worded(Flatten(ps1)) by {
      assert |Flatten(ps1)| >= 5 ==> Flatten(ps1)[..5][0] == '+';
    }
    assert Quiet(ps1);
  }

  lemma PrefixMatches(b: string, a: string)
    requires b < a && QuietName(a)
    ensures !Spared(b, Ref(a), "")
  {
    var s := Flat(Ref(a)) + "";
    assert s == "stats." + a;
    assert s[0..] == s && s[..5] == "stats" && s[5] == '.';
    assert forall k :: 0 <= k < |b| ==> s[6 + k] == a[k] == b[k];
    assert MatchAt(b, s[0..]);
  }

  // ----- A clash -----

  /** A dot stands for any character, so one name may be put in another's place. */
  lemma WildcardClash()
    ensures exists stats: Stats, value: string ::
              && QuietText(value)
              && (forall p :: p in Tokenize(value) && p.Ref? ==> p.name in stats && QuietValue(stats[p.name]))
              && Sequential(stats, Names(Tokenize(value)), value) != Simultaneous(stats, Tokenize(value))
  {
    var a, b := "c.d", "c_d";
    var stats: Stats := map[a := "1", b := "2"];
    var ps2, ps1 := [Ref(b)], [Lit('+'), Ref(b)];
    var ps := [Ref(a), Lit('+'), Ref(b)];
    hide Sequential, Simultaneous, Flatten, Resolve, Quiet, Names, QuietText, Tokenize;
    ClashQuiet(a, b);
    ClashText(ps2, ps1, ps);
    var value := Flatten(ps);
    TokenizeFlatten(ps);
    TokenizeQuiet(value);
    ClashRun(stats, value);
    ClashMeant(stats, a, b, ps);
    assert "1+1"[2] != "1+2"[2];
    assert forall p :: p in ps && p.Ref? ==> p.name == a || p.name == b;
    assert "1"[0] == '1' && "2"[0] == '2';
    assert forall p :: p in ps && p.Ref? ==> p.name in stats && QuietValue(stats[p.name]);
    assert Sequential(stats, Names(ps), value) != Simultaneous(stats, ps);
  }

  lemma ClashQuiet(a: string, b: string)
    requires a == "c.d" && b == "c_d"
    ensures Quiet([Ref(a), Lit('+'), Ref(b)]) && Names([Ref(a), Lit('+'), Ref(b)]) == [a, b]
  {
    var ps2, ps1 := [Ref(b)], [Lit('+'), Ref(b)];
    var ps := [Ref(a), Lit('+'), Ref(b)];
    assert ps[1..] == ps1 && ps1[1..] == ps2 && ps2[1..] == [];
    assert Names(ps2) == [b] && Names(ps1) == [b] && Names(ps) == [a, b];
    NoStats(a);
    NoStats(b);
    hide Names, Quiet;
    TwoNames(a, b);
  }

  lemma ClashMeant(stats: Stats, a: string, b: string, ps: seq<Piece>)
    requires a != b && a in stats && b in stats && stats[a] == "1" && stats[b] == "2"
    requires ps == [Ref(a), Lit('+'), Ref(b)]
    ensures Simultaneous(stats, ps) == "1+2"
  {
    assert Resolve(stats, a) == Some("1") && Resolve(stats, b) == Some("2");
    SimultaneousFirst(stats, ps);
    SimultaneousFirst(stats, ps[1..]);
    SimultaneousOne(stats, Ref(a));
    SimultaneousOne(stats, Lit('+'));
    SimultaneousOne(stats, Ref(b));
    hide Simultaneous, Resolve;
    assert ps[1..] == [Lit('+'), Ref(b)] && ps[1..][1..] == [Ref(b)];
  }

  lemma ClashText(ps2: seq<Piece>, ps1: seq<Piece>, ps: seq<Piece>)
    requires ps2 == [Ref("c_d")] && ps1 == [Lit('+')] + ps2 && ps == [Ref("c.d")] + ps1
    ensures Flatten(ps) == "stats.c.d+stats.c_d"
  {
    FlattenOne(Ref("c_d"));
    FlattenOne(Lit('+'));
    FlattenOne(Ref("c.d"));
    FlattenConcat([Lit('+')], ps2);
    FlattenConcat([Ref("c.d")], ps1);
  }

  lemma ClashRun(stats: Stats, s: string)
    requires s == "stats.c.d+stats.c_d" && stats == map["c.d" := "1", "c_d" := "2"]
    ensures Sequential(stats, ["c.d", "c_d"], s) == "1+1"
  {
    var a, b := "c.d", "c_d";
    ClashFirst(a, "1", s);
    Short(b, "2", "1+1");
    hide ReSub;
    assert [a, b][1..] == [b] && [b][1..] == [];
    assert Sequential(stats, [b], "1+1") == Sequential(stats, [], "1+1");
  }

  lemma ClashFirst(a: string, v: string, s: string)
    requires a == "c.d" && v == "1" && s == "stats.c.d+stats.c_d"
    ensures ReSub(a, v, s) == "1+1"
  {
    var t, u := "+stats.c_d", "stats.c_d";
    assert MatchAt(a, u) && u[9..] == "" && MatchAt(a, s) && s[9..] == t;
    assert t == ['+'] + u && t[1..] == u && ReSub(a, v, "") == "";
    hide ReSub, MatchAt;
    ReSubFirst(a, v, u);
    ReSubFirst(a, v, t);
    ReSubFirst(a, v, s);
  }

  lemma NoStats(n: string)
    requires |n| < 5
    ensures !Contains(n, "stats")
  {
  }

  lemma {:induction false} Short(name: string, v: string, s: string)
    requires |s| < 6
    ensures ReSub(name, v, s) == s
  {
    if s != "" {
      Short(name, v, s[1..]);
    }
  }
}
