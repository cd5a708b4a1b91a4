// Repository globs of the access policy: a bottom-up table over tokens and
// positions, against component-by-component matching.

module Glob {

  // ---- splitting at '/' ----

  function Split(s: string): (comps: seq<string>)
    ensures comps != []
  {
    if s == "" then [""]
    else
      var rest := Split(s[1..]);
      if s[0] == '/' then [""] + rest else [[s[0]] + rest[0]] + rest[1..]
  }

  function Join(comps: seq<string>): string
    requires comps != []
  {
    if |comps| == 1 then comps[0] else comps[0] + "/" + Join(comps[1..])
  }

  lemma JoinFirst(c: char, comps: seq<string>)
    requires comps != []
    ensures Join([[c] + comps[0]] + comps[1..]) == [c] + Join(comps)
  {
    if |comps| > 1 {
      assert ([[c] + comps[0]] + comps[1..])[1..] == comps[1..];
      assert [c] + comps[0] + "/" + Join(comps[1..]) == [c] + (comps[0] + "/" + Join(comps[1..]));
    }
  }

  lemma {:induction false} SplitJoin(s: string)
    ensures Join(Split(s)) == s
    ensures forall i | 0 <= i < |Split(s)| :: '/' !in Split(s)[i]
  {
    if s != "" {
      SplitJoin(s[1..]);
      var rest := Split(s[1..]);
      assert s == [s[0]] + s[1..];
      if s[0] == '/' {
        assert Split(s) == [""] + rest && Split(s)[1..] == rest;
        assert Join(Split(s)) == "" + "/" + Join(rest);
      } else {
        assert Split(s) == [[s[0]] + rest[0]] + rest[1..] && Split(s)[1..] == rest[1..];
        JoinFirst(s[0], rest);
      }
    }
  }

  // ---- the tokenizer ----

  datatype Tok = Lit(c: char) | Star | AnyTail | AnyDirs

  function CompTok(c: char): Tok {
    if c == '*' then Star else Lit(c)
  }

  function CompToks(comp: string): seq<Tok> {
    seq(|comp|, i requires 0 <= i < |comp| => CompTok(comp[i]))
  }

  // The tokens of a pattern whose components are `comps`.
  function TokensOf(comps: seq<string>): seq<Tok>
    requires comps != []
  {
    if |comps| == 1 then (if comps[0] == "**" then [AnyTail] else CompToks(comps[0]))
    else if comps[0] == "**" then [AnyDirs] + TokensOf(comps[1..])
    else CompToks(comps[0]) + [Lit('/')] + TokensOf(comps[1..])
  }

  method Tokenize(pattern: string) returns (toks: seq<Tok>)
    ensures toks == TokensOf(Split(pattern))
  {
    hide CompToks;
    var comps := Split(pattern);
    hide Split;
    toks := [];
    var afterDirs := false;
    for i := 0 to |comps|
      invariant i == 0 ==> toks == [] && !afterDirs
      invariant i < |comps| ==>
                  toks + (if i > 0 && !afterDirs then [Lit('/')] else []) + TokensOf(comps[i..]) == TokensOf(comps)
      invariant i == |comps| ==> toks == TokensOf(comps)
    {
      if i > 0 && !afterDirs {
        toks := toks + [Lit('/')];
      }
      afterDirs := false;
      assert comps[i..][1..] == comps[i + 1..];
      if comps[i] == "**" {
        if i + 1 == |comps| {
          toks := toks + [AnyTail];
        } else {
          toks := toks + [AnyDirs];
          afterDirs := true;
        }
      } else {
        toks := toks + CompToks(comps[i]);
      }
    }
  }

  // ---- what a token sequence matches ----

  function Matches(toks: seq<Tok>, s: string): bool
    decreases |toks|, |s|
  {
    if toks == [] then s == ""
    else
      var rest := toks[1..];
      match toks[0]
      case Lit(c) => s != "" && s[0] == c && Matches(rest, s[1..])
      case Star => Matches(rest, s) || (s != "" && s[0] != '/' && Matches(toks, s[1..]))
      case AnyTail => Matches(rest, s) || (s != "" && Matches(toks, s[1..]))
      case AnyDirs => Matches(rest, s) || SkipsDirs(rest, s)
  }

  // `toks` match after some '/' of `s`.
  function SkipsDirs(toks: seq<Tok>, s: string): bool
    decreases |toks|, |s| + 1
  {
    s != "" && ((s[0] == '/' && Matches(toks, s[1..])) || SkipsDirs(toks, s[1..]))
  }

  // One row of the table: from the row of the remaining tokens to this token's row.
  method Row(toks: seq<Tok>, i: nat, name: string, next: array<bool>, cur: array<bool>)
    requires i < |toks| && next.Length == cur.Length == |name| + 1 && next != cur
    requires forall j | 0 <= j <= |name| :: next[j] == Matches(toks[i + 1..], name[j..])
    modifies cur
    ensures forall j | 0 <= j <= |name| :: cur[j] == Matches(toks[i..], name[j..])
  {
    var n, tok := |name|, toks[i];
    ghost var rest := toks[i + 1..];
    assert toks[i..][0] == tok && toks[i..][1..] == rest;
    assert name[n..] == "";
    cur[n] := !tok.Lit? && next[n];
    var dirs := false;
    var j := n;
    while j > 0
      invariant 0 <= j <= n
      invariant forall m | j <= m <= n :: cur[m] == Matches(toks[i..], name[m..])
      invariant tok.AnyDirs? ==> dirs == SkipsDirs(rest, name[j..])
    {
      j := j - 1;
      assert name[j..][0] == name[j] && name[j..][1..] == name[j + 1..];
      match tok {
        case Lit(c) => cur[j] := name[j] == c && next[j + 1];
        case Star => cur[j] := next[j] || (name[j] != '/' && cur[j + 1]);
        case AnyTail => cur[j] := next[j] || cur[j + 1];
        case AnyDirs =>
          dirs := dirs || (name[j] == '/' && next[j + 1]);
          cur[j] := next[j] || dirs;
      }
    }
  }

  method GlobMatch(toks: seq<Tok>, name: string) returns (b: bool)
    ensures b == Matches(toks, name)
  {
    var n := |name|;
    var next := new bool[n + 1](_ => false);
    next[n] := true;
    var cur := new bool[n + 1](_ => false);
    var i := |toks|;
    while i > 0
      invariant 0 <= i <= |toks|
      invariant next != cur && fresh(next) && fresh(cur)
      invariant next.Length == cur.Length == n + 1
      invariant forall j | 0 <= j <= n :: next[j] == Matches(toks[i..], name[j..])
    {
      i := i - 1;
      Row(toks, i, name, next, cur);
      next, cur := cur, next;
    }
    assert toks[0..] == toks && name[0..] == name;
    b := next[0];
  }

  // ---- component semantics ----

  // `*` stands for any run of characters inside one component.
  function CompMatches(comp: string, u: string): bool
    decreases |comp|, |u|
  {
    if comp == "" then u == ""
    else if comp[0] == '*' then CompMatches(comp[1..], u) || (u != "" && CompMatches(comp, u[1..]))
    else u != "" && u[0] == comp[0] && CompMatches(comp[1..], u[1..])
  }

  // `**` stands for zero or more components, as the last component for one or more.
  function PathMatches(pattern: seq<string>, name: seq<string>): bool
    decreases |pattern|, |name|
  {
    if pattern == [] then name == []
    else if pattern == ["**"] then name != []
    else if pattern[0] == "**" then
      PathMatches(pattern[1..], name) || (name != [] && PathMatches(pattern, name[1..]))
    else
      name != [] && CompMatches(pattern[0], name[0]) && PathMatches(pattern[1..], name[1..])
  }

  // ---- the two agree ----

  // What follows the first '/' of `s`.
  function Below(s: string): string
    requires |Split(s)| > 1
  {
    if s[0] == '/' then s[1..] else Below(s[1..])
  }

  lemma {:induction false} SplitBelow(s: string)
    requires |Split(s)| > 1
    ensures |Below(s)| < |s| && Split(Below(s)) == Split(s)[1..]
  {
    if s[0] != '/' { SplitBelow(s[1..]); }
  }

  lemma {:induction false} CompThenEnd(comp: string, s: string)
    requires '/' !in comp
    ensures Matches(CompToks(comp), s) <==> |Split(s)| == 1 && CompMatches(comp, s)
    decreases |comp|, |s|
  {
    if comp == "" {
    } else {
      assert CompToks(comp)[1..] == CompToks(comp[1..]);
      if comp[0] == '*' {
        CompThenEnd(comp[1..], s);
        if s != "" { CompThenEnd(comp, s[1..]); }
      } else if s != "" {
        CompThenEnd(comp[1..], s[1..]);
      }
    }
  }

  lemma {:induction false} CompThenSlash(comp: string, rest: seq<Tok>, s: string)
    requires '/' !in comp
    ensures Matches(CompToks(comp) + [Lit('/')] + rest, s) <==>
            |Split(s)| > 1 && CompMatches(comp, Split(s)[0]) && Matches(rest, Below(s))
    decreases |comp|, |s|
  {
    var toks := CompToks(comp) + [Lit('/')] + rest;
    if comp == "" {
      assert toks[1..] == rest;
    } else {
      assert toks[1..] == CompToks(comp[1..]) + [Lit('/')] + rest;
      if comp[0] == '*' {
        CompThenSlash(comp[1..], rest, s);
      } else if s != "" {
        CompThenSlash(comp[1..], rest, s[1..]);
      }
      if s != "" && s[0] != '/' {
        CompThenSlash(comp, rest, s[1..]);
        assert Split(s)[0][1..] == Split(s[1..])[0];
      }
    }
  }

  lemma {:induction false} SkipsOneDir(toks: seq<Tok>, s: string)
    ensures SkipsDirs(toks, s) <==> |Split(s)| > 1 && (Matches(toks, Below(s)) || SkipsDirs(toks, Below(s)))
  {
    if s != "" { SkipsOneDir(toks, s[1..]); }
  }

  lemma {:induction false} TailMatchesAll(s: string)
    ensures Matches([AnyTail], s)
  {
    if s != "" { TailMatchesAll(s[1..]); }
  }

  lemma {:induction false} NoPathFromNothing(pattern: seq<string>)
    requires pattern != []
    ensures !PathMatches(pattern, [])
  {
    if pattern != ["**"] && pattern[0] == "**" { NoPathFromNothing(pattern[1..]); }
  }

  // For every pattern and every name, the tokens of the pattern match the name exactly
  // when its components match the components of the name.
  lemma {:induction false} TokensMatchComponents(comps: seq<string>, name: string)
    requires comps != [] && forall i | 0 <= i < |comps| :: '/' !in comps[i]
    ensures Matches(TokensOf(comps), name) <==> PathMatches(comps, Split(name))
    decreases |comps|, |name|
  {
    if comps == ["**"] {
      TailMatchesAll(name);
    } else if |comps| == 1 {
      CompThenEnd(comps[0], name);
      assert comps[1..] == [];
      if |Split(name)| == 1 { SplitJoin(name); }
    } else if comps[0] == "**" {
      DirsMatchComponents(comps, name);
    } else {
      CompThenSlash(comps[0], TokensOf(comps[1..]), name);
      if |Split(name)| > 1 {
        SplitBelow(name);
        TokensMatchComponents(comps[1..], Below(name));
      } else {
        NoPathFromNothing(comps[1..]);
        assert Split(name)[1..] == [];
      }
    }
  }

  lemma {:induction false} DirsMatchComponents(comps: seq<string>, name: string)
    requires |comps| > 1 && comps[0] == "**" && forall i | 0 <= i < |comps| :: '/' !in comps[i]
    ensures Matches(TokensOf(comps), name) <==> PathMatches(comps, Split(name))
    decreases |comps|, |name|, 0
  {
    var rest := TokensOf(comps[1..]);
    assert TokensOf(comps)[1..] == rest;
    TokensMatchComponents(comps[1..], name);
    SkipsOneDir(rest, name);
    if |Split(name)| > 1 {
      SplitBelow(name);
      DirsMatchComponents(comps, Below(name));
    } else {
      assert Split(name)[1..] == [];
      NoPathFromNothing(comps);
    }
  }

  // The table computes component matching.
  method MatchPattern(pattern: string, name: string) returns (b: bool)
    ensures b == PathMatches(Split(pattern), Split(name))
  {
    var toks := Tokenize(pattern);
    b := GlobMatch(toks, name);
    SplitJoin(pattern);
    TokensMatchComponents(Split(pattern), name);
  }

  // ---- what that means for simple patterns ----

  lemma {:induction false} LiteralComponent(comp: string, u: string)
    requires '*' !in comp
    ensures CompMatches(comp, u) <==> u == comp
  {
    if comp != "" && u != "" {
      LiteralComponent(comp[1..], u[1..]);
      assert comp == [comp[0]] + comp[1..] && u == [u[0]] + u[1..];
    }
  }

  lemma {:induction false} LiteralPath(pattern: seq<string>, name: seq<string>)
    requires forall i | 0 <= i < |pattern| :: '*' !in pattern[i]
    ensures PathMatches(pattern, name) <==> name == pattern
  {
    if pattern != [] {
      assert pattern[0] != "**" by { assert "**"[0] == '*'; }
      if name != [] {
        LiteralComponent(pattern[0], name[0]);
        LiteralPath(pattern[1..], name[1..]);
        assert pattern == [pattern[0]] + pattern[1..] && name == [name[0]] + name[1..];
      }
    }
  }

  lemma {:induction false} PartsOf(s: string, c: char)
    requires c !in s
    ensures forall i | 0 <= i < |Split(s)| :: c !in Split(s)[i]
  {
    if s != "" { PartsOf(s[1..], c); }
  }

  /** A pattern without wildcards matches itself and nothing else. */
  lemma LiteralMatchesItself(pattern: string, name: string)
    requires '*' !in pattern
    ensures PathMatches(Split(pattern), Split(name)) <==> name == pattern
  {
    PartsOf(pattern, '*');
    LiteralPath(Split(pattern), Split(name));
    SplitJoin(pattern);
    SplitJoin(name);
  }

  predicate EndsWith(u: string, suffix: string) {
    |u| >= |suffix| && u[|u| - |suffix|..] == suffix
  }

  /** One star in a component stands for any run of characters of that component, none
      included: what matches begins and ends as the pattern does, without overlap. */
  lemma {:induction false} StarInComponent(prefix: string, suffix: string, u: string)
    requires '*' !in prefix && '*' !in suffix
    ensures CompMatches(prefix + "*" + suffix, u) <==> prefix <= u && EndsWith(u[|prefix|..], suffix)
  {
    var comp := prefix + "*" + suffix;
    if prefix == "" {
      assert comp == "*" + suffix;
      StarThen(suffix, u);
      assert u[0..] == u;
    } else {
      assert comp[0] == prefix[0] && comp[1..] == prefix[1..] + "*" + suffix;
      if u != "" {
        StarInComponent(prefix[1..], suffix, u[1..]);
        assert prefix == [prefix[0]] + prefix[1..] && u == [u[0]] + u[1..];
        if |u| >= |prefix| { assert u[|prefix|..] == u[1..][|prefix| - 1..]; }
      }
    }
  }

  lemma {:induction false} StarThen(suffix: string, u: string)
    requires '*' !in suffix
    ensures CompMatches("*" + suffix, u) <==> EndsWith(u, suffix)
  {
    var comp := "*" + suffix;
    assert comp[1..] == suffix;
    LiteralComponent(suffix, u);
    if u == suffix {
      assert u[0..] == u;
    } else if u != "" {
      StarThen(suffix, u[1..]);
      if |u| > |suffix| { assert u[|u| - |suffix|..] == u[1..][|u| - 1 - |suffix|..]; }
      if |u| == |suffix| { assert u[0..] == u; }
    }
  }

  /** A pattern that ends in `**` after literal components matches exactly the names below
      them. */
  lemma {:induction false} SubtreeMatches(pattern: seq<string>, name: seq<string>)
    requires forall i | 0 <= i < |pattern| :: '*' !in pattern[i]
    ensures PathMatches(pattern + ["**"], name) <==> pattern <= name && |name| > |pattern|
  {
    var all := pattern + ["**"];
    if pattern == [] {
      assert all == ["**"];
    } else {
      assert pattern[0] != "**" by { assert "**"[0] == '*'; }
      assert all[0] == pattern[0] && all[1..] == pattern[1..] + ["**"] && |all| > 1;
      if name != [] {
        LiteralComponent(pattern[0], name[0]);
        SubtreeMatches(pattern[1..], name[1..]);
        assert pattern == [pattern[0]] + pattern[1..] && name == [name[0]] + name[1..];
      }
    }
  }

  /** `**` in front of literal components matches exactly the names that end in them. */
  lemma {:induction false} AnywhereMatches(pattern: seq<string>, name: seq<string>)
    requires pattern != [] && forall i | 0 <= i < |pattern| :: '*' !in pattern[i]
    ensures PathMatches(["**"] + pattern, name) <==>
            |name| >= |pattern| && name[|name| - |pattern|..] == pattern
  {
    var all := ["**"] + pattern;
    assert all[0] == "**" && all[1..] == pattern && all != ["**"];
    LiteralPath(pattern, name);
    if name == pattern {
      assert name[0..] == name;
    } else if name != [] {
      AnywhereMatches(pattern, name[1..]);
      if |name| > |pattern| { assert name[|name| - |pattern|..] == name[1..][|name| - 1 - |pattern|..]; }
      if |name| == |pattern| { assert name[0..] == name; }
    }
  }
}
