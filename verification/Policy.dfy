// Identity-based access control: which rule decides, and what it grants.

module Policy {
  import opened Core
  import Glob

  datatype Action = Pull | PushAction | DeleteAction

  const ALL_ACTIONS := {Pull, PushAction, DeleteAction}

  datatype Grant = Grant(users: set<string>, groups: set<string>, actions: set<Action>)

  datatype Rule = Rule(pattern: string, anonymous: set<Action>, authenticated: set<Action>, policies: seq<Grant>)

  datatype AccessPolicy = AccessPolicy(admins: set<string>, userGroups: map<string, set<string>>, rules: seq<Rule>)

  // How many tokens of a pattern are literal, and how many are wildcards.
  function Literals(toks: seq<Glob.Tok>): nat {
    if toks == [] then 0 else (if toks[0].Lit? then 1 else 0) + Literals(toks[1..])
  }

  function Wildcards(toks: seq<Glob.Tok>): nat {
    if toks == [] then 0 else (if toks[0].Lit? then 0 else 1) + Wildcards(toks[1..])
  }

  // More literal text wins; with equal text, fewer wildcards win.
  predicate MoreSpecific(a: Rule, b: Rule) {
    var ta, tb := Glob.TokensOf(Glob.Split(a.pattern)), Glob.TokensOf(Glob.Split(b.pattern));
    Literals(ta) > Literals(tb) || (Literals(ta) == Literals(tb) && Wildcards(ta) < Wildcards(tb))
  }

  predicate Covers(r: Rule, repo: Repo) {
    Glob.PathMatches(Glob.Split(r.pattern), Glob.Split(repo))
  }

  // How many tokens of a rule's pattern stand for themselves, and how many for more.
  ghost function LiteralCount(r: Rule): nat {
    var toks := Glob.TokensOf(Glob.Split(r.pattern));
    |set i | 0 <= i < |toks| && toks[i].Lit?|
  }

  ghost function WildcardCount(r: Rule): nat {
    var toks := Glob.TokensOf(Glob.Split(r.pattern));
    |set i | 0 <= i < |toks| && !toks[i].Lit?|
  }

  // Rule `i` decides for `repo`: of the rules that cover it, it has the most literal tokens,
  // among those the fewest wildcards, and among those it comes first.
  ghost predicate Decides(rules: seq<Rule>, i: nat, repo: Repo) {
    && i < |rules| && Covers(rules[i], repo)
    && (forall j | 0 <= j < |rules| && Covers(rules[j], repo) ::
          || LiteralCount(rules[j]) < LiteralCount(rules[i])
          || (LiteralCount(rules[j]) == LiteralCount(rules[i]) &&
              (|| WildcardCount(rules[j]) > WildcardCount(rules[i])
               || (WildcardCount(rules[j]) == WildcardCount(rules[i]) && i <= j))))
  }

  lemma {:induction false} CountsSnoc(toks: seq<Glob.Tok>, t: Glob.Tok)
    ensures Literals(toks + [t]) == Literals(toks) + (if t.Lit? then 1 else 0)
    ensures Wildcards(toks + [t]) == Wildcards(toks) + (if t.Lit? then 0 else 1)
  {
    if toks == [] {
      assert (toks + [t])[1..] == [];
    } else {
      assert (toks + [t])[1..] == toks[1..] + [t];
      CountsSnoc(toks[1..], t);
    }
  }

  // The positions before `n` of tokens that are literal, or are not.
  ghost function Positions(toks: seq<Glob.Tok>, n: nat, literal: bool): set<int>
    requires n <= |toks|
  {
    set i | 0 <= i < n && toks[i].Lit? == literal
  }

  lemma PositionsSnoc(toks: seq<Glob.Tok>, n: nat, literal: bool)
    requires n < |toks|
    ensures |Positions(toks, n + 1, literal)| ==
            |Positions(toks, n, literal)| + (if toks[n].Lit? == literal then 1 else 0)
  {
    var before := Positions(toks, n, literal);
    assert n !in before;
    if toks[n].Lit? == literal {
      assert Positions(toks, n + 1, literal) == before + {n};
    } else {
      assert Positions(toks, n + 1, literal) == before;
    }
  }

  lemma {:induction false} CountsUpTo(toks: seq<Glob.Tok>, n: nat)
    requires n <= |toks|
    ensures Literals(toks[..n]) == |Positions(toks, n, true)|
    ensures Wildcards(toks[..n]) == |Positions(toks, n, false)|
  {
    if n == 0 {
      assert Positions(toks, 0, true) == {} && Positions(toks, 0, false) == {};
    } else {
      hide Positions;
      CountsUpTo(toks, n - 1);
      assert toks[..n] == toks[..n - 1] + [toks[n - 1]];
      CountsSnoc(toks[..n - 1], toks[n - 1]);
      PositionsSnoc(toks, n - 1, true);
      PositionsSnoc(toks, n - 1, false);
    }
  }

  lemma CountsAre(toks: seq<Glob.Tok>)
    ensures Literals(toks) == |set i | 0 <= i < |toks| && toks[i].Lit?|
    ensures Wildcards(toks) == |set i | 0 <= i < |toks| && !toks[i].Lit?|
  {
    CountsUpTo(toks, |toks|);
    assert toks[..|toks|] == toks;
    assert Positions(toks, |toks|, true) == set i | 0 <= i < |toks| && toks[i].Lit?;
    assert Positions(toks, |toks|, false) == set i | 0 <= i < |toks| && !toks[i].Lit?;
  }

  // The comparison of the program, in those terms.
  lemma MoreSpecificIff(a: Rule, b: Rule)
    ensures MoreSpecific(a, b) <==>
              || LiteralCount(a) > LiteralCount(b)
              || (LiteralCount(a) == LiteralCount(b) && WildcardCount(a) < WildcardCount(b))
  {
    CountsAre(Glob.TokensOf(Glob.Split(a.pattern)));
    CountsAre(Glob.TokensOf(Glob.Split(b.pattern)));
  }

  method WinningRule(rules: seq<Rule>, repo: Repo) returns (best: Option<nat>)
    ensures best.None? ==> forall j | 0 <= j < |rules| :: !Covers(rules[j], repo)
    ensures best.Some? ==> best.value < |rules| && Decides(rules, best.value, repo)
  {
    hide MoreSpecific, Covers, LiteralCount, WildcardCount;
    best := None;
    for i := 0 to |rules|
      invariant best.None? ==> forall j | 0 <= j < i :: !Covers(rules[j], repo)
      invariant best.Some? ==> best.value < i && Decides(rules[..i], best.value, repo)
    {
      var r := rules[i];
      var toks := Glob.Tokenize(r.pattern);
      var matched := Glob.GlobMatch(toks, repo);
      assert matched == Covers(r, repo) by { TableDecidesCover(r, repo); }
      ghost var before := rules[..i];
      assert rules[..i + 1] == before + [r];
      if matched {
        var better := best.None? || MoreSpecific(r, rules[best.value]);
        if best.Some? { MoreSpecificIff(r, rules[best.value]); }
        forall j | 0 <= j < i ensures before[j] == rules[j] {}
        if better { best := Some(i); }
      }
    }
    assert rules[..|rules|] == rules;
  }

  lemma TableDecidesCover(r: Rule, repo: Repo)
    ensures Glob.Matches(Glob.TokensOf(Glob.Split(r.pattern)), repo) == Covers(r, repo)
  {
    Glob.SplitJoin(r.pattern);
    Glob.TokensMatchComponents(Glob.Split(r.pattern), repo);
  }

  function GroupsOf(p: AccessPolicy, user: string): set<string> {
    if user in p.userGroups then p.userGroups[user] else {}
  }

  predicate Applies(g: Grant, user: string, groups: set<string>) {
    user in g.users || g.groups * groups != {}
  }

  // An entry names the user, or a group that the configuration or the directory puts the
  // user in.
  ghost predicate NamesUser(g: Grant, p: AccessPolicy, user: string, directory: set<string>) {
    || user in g.users
    || exists group :: group in g.groups && (InGroup(p.userGroups, user, group) || group in directory)
  }

  lemma AppliesIff(g: Grant, p: AccessPolicy, user: string, directory: set<string>)
    ensures Applies(g, user, GroupsOf(p, user) + directory) <==> NamesUser(g, p, user, directory)
  {
    var groups := GroupsOf(p, user) + directory;
    if g.groups * groups != {} {
      var group :| group in g.groups * groups;
      assert group in g.groups;
    }
    if exists group :: group in g.groups && group in groups {
      var group :| group in g.groups && group in groups;
      assert group in g.groups * groups;
    }
  }

  // An action is granted to an administrator always; to anyone else exactly when the
  // deciding rule grants it to everybody, or to signed-in users, or through an entry
  // naming the user or one of the user's groups.
  ghost predicate Granted(p: AccessPolicy, user: Option<string>, directory: set<string>, repo: Repo, a: Action) {
    || (user.Some? && user.value in p.admins)
    || exists i: nat :: Decides(p.rules, i, repo)
          && (|| a in p.rules[i].anonymous
              || (user.Some? && (a in p.rules[i].authenticated
                                 || exists g :: g in p.rules[i].policies && a in g.actions
                                      && NamesUser(g, p, user.value, directory))))
  }

  predicate InGroup(userGroups: map<string, set<string>>, u: string, g: string) {
    u in userGroups && g in userGroups[u]
  }

  // Compiling the configured groups: from the members of each group to the groups of each
  // member.
  method CompileGroups(groups: seq<(string, seq<string>)>) returns (userGroups: map<string, set<string>>)
    ensures forall u, g :: InGroup(userGroups, u, g) <==> Member(groups, g, u)
  {
    hide Member;
    userGroups := map[];
    MemberNone();
    for i := 0 to |groups|
      invariant forall u, g :: InGroup(userGroups, u, g) <==> Member(groups[..i], g, u)
    {
      var (group, users) := groups[i];
      ghost var before := userGroups;
      for n := 0 to |users|
        invariant forall u, g :: InGroup(userGroups, u, g) <==>
                    InGroup(before, u, g) || (g == group && u in users[..n])
      {
        var u := users[n];
        assert users[..n + 1] == users[..n] + [u];
        userGroups := userGroups[u := (if u in userGroups then userGroups[u] else {}) + {group}];
      }
      assert users[..|users|] == users;
      forall u, g ensures InGroup(userGroups, u, g) <==> Member(groups[..i + 1], g, u) { MemberSnoc(groups, i, g, u); }
    }
    assert groups[..|groups|] == groups;
  }

  lemma MemberNone()
    ensures forall g, u :: !Member([], g, u)
  {
  }

  // The configuration lists `u` among the members of a group called `g`.
  predicate Member(groups: seq<(string, seq<string>)>, g: string, u: string) {
    exists i | 0 <= i < |groups| :: groups[i].0 == g && u in groups[i].1
  }

  lemma MemberSnoc(groups: seq<(string, seq<string>)>, i: nat, g: string, u: string)
    requires i < |groups|
    ensures Member(groups[..i + 1], g, u) <==> Member(groups[..i], g, u) || (groups[i].0 == g && u in groups[i].1)
  {
    assert groups[..i + 1][i] == groups[i];
    if Member(groups[..i], g, u) {
      var k :| 0 <= k < i && groups[..i][k].0 == g && u in groups[..i][k].1;
      assert groups[..i + 1][k] == groups[..i][k];
    }
    if Member(groups[..i + 1], g, u) {
      var k :| 0 <= k < i + 1 && groups[..i + 1][k].0 == g && u in groups[..i + 1][k].1;
      if k < i { assert groups[..i][k] == groups[..i + 1][k]; }
    }
  }

  lemma DecidesOnce(rules: seq<Rule>, i: nat, j: nat, repo: Repo)
    requires Decides(rules, i, repo) && Decides(rules, j, repo)
    ensures i == j
  {
    hide LiteralCount, WildcardCount, Covers;
  }

  method Grants(p: AccessPolicy, user: Option<string>, directory: set<string>, repo: Repo)
    returns (actions: set<Action>)
    ensures forall a :: a in actions <==> Granted(p, user, directory, repo, a)
  {
    hide Decides, Applies, NamesUser;
    if user.Some? && user.value in p.admins {
      forall a: Action ensures a in ALL_ACTIONS { match a { case Pull => case PushAction => case DeleteAction => } }
      return ALL_ACTIONS;
    }
    var best := WinningRule(p.rules, repo);
    if best.None? {
      NobodyDecides(p.rules, repo);
      return {};
    }
    var rule := p.rules[best.value];
    ghost var i := best.value;
    forall j: nat | Decides(p.rules, j, repo) ensures j == i { DecidesOnce(p.rules, i, j, repo); }
    if user.None? { return rule.anonymous; }
    var groups := GroupsOf(p, user.value) + directory;
    actions := rule.anonymous + rule.authenticated;
    for n := 0 to |rule.policies|
      invariant forall a :: a in actions <==>
        a in rule.anonymous + rule.authenticated
        || exists g :: g in rule.policies[..n] && a in g.actions && NamesUser(g, p, user.value, directory)
    {
      var g := rule.policies[n];
      assert rule.policies[..n + 1] == rule.policies[..n] + [g];
      AppliesIff(g, p, user.value, directory);
      if Applies(g, user.value, groups) { actions := actions + g.actions; }
    }
    assert rule.policies[..|rule.policies|] == rule.policies;
  }

  lemma NobodyDecides(rules: seq<Rule>, repo: Repo)
    requires forall j | 0 <= j < |rules| :: !Covers(rules[j], repo)
    ensures forall i: nat :: !Decides(rules, i, repo)
  {
  }

  // ---- laws on patterns ----

  lemma {:induction false} LiteralsFit(toks: seq<Glob.Tok>, name: string)
    requires Glob.Matches(toks, name)
    ensures Literals(toks) <= |name|
    decreases |toks|, |name|
  {
    if toks != [] {
      match toks[0] {
        case Lit(_) => LiteralsFit(toks[1..], name[1..]);
        case AnyDirs =>
          if Glob.Matches(toks[1..], name) { LiteralsFit(toks[1..], name); } else { SkippedFit(toks[1..], name); }
        case _ =>
          if Glob.Matches(toks[1..], name) { LiteralsFit(toks[1..], name); } else { LiteralsFit(toks, name[1..]); }
      }
    }
  }

  lemma {:induction false} SkippedFit(toks: seq<Glob.Tok>, name: string)
    requires Glob.SkipsDirs(toks, name)
    ensures Literals(toks) <= |name|
    decreases |toks|, |name| + 1
  {
    if name[0] == '/' && Glob.Matches(toks, name[1..]) {
      LiteralsFit(toks, name[1..]);
    } else {
      SkippedFit(toks, name[1..]);
    }
  }

  lemma {:induction false} LiteralTokens(comps: seq<string>)
    requires comps != [] && forall i | 0 <= i < |comps| :: '*' !in comps[i]
    ensures var name := Glob.Join(comps);
            Glob.TokensOf(comps) == seq(|name|, i requires 0 <= i < |name| => Glob.Lit(name[i]))
  {
    assert comps[0] != "**" by { assert "**"[0] == '*'; }
    if |comps| > 1 { LiteralTokens(comps[1..]); }
  }

  lemma {:induction false} AllLiteral(toks: seq<Glob.Tok>)
    requires forall i | 0 <= i < |toks| :: toks[i].Lit?
    ensures Literals(toks) == |toks| && Wildcards(toks) == 0
  {
    if toks != [] { AllLiteral(toks[1..]); }
  }

  lemma {:induction false} NoWildcards(toks: seq<Glob.Tok>)
    requires Wildcards(toks) == 0
    ensures forall i | 0 <= i < |toks| :: toks[i].Lit?
  {
    if toks != [] {
      NoWildcards(toks[1..]);
      forall i | 0 < i < |toks| ensures toks[i].Lit? { assert toks[i] == toks[1..][i - 1]; }
    }
  }

  /** A rule whose pattern is the repository's own name is preferred to every covering rule
      with a wildcard. */
  lemma OwnNameIsPreferred(rules: seq<Rule>, i: nat, repo: Repo, own: nat)
    requires Decides(rules, i, repo) && own < |rules| && rules[own].pattern == repo && '*' !in repo
    ensures WildcardCount(rules[i]) == 0
  {
    Glob.LiteralMatchesItself(repo, repo);
    assert Covers(rules[own], repo);
    Glob.PartsOf(repo, '*');
    LiteralTokens(Glob.Split(repo));
    Glob.SplitJoin(repo);
    var mine, toks := Glob.TokensOf(Glob.Split(repo)), Glob.TokensOf(Glob.Split(rules[i].pattern));
    AllLiteral(mine);
    CountsAre(mine);
    CountsAre(toks);
    TableDecidesCover(rules[i], repo);
    LiteralsFit(toks, repo);
  }

  /** The rule for everything decides only where no covering rule has any literal. */
  lemma CatchAllIsLast(rules: seq<Rule>, i: nat, repo: Repo, j: nat)
    requires Decides(rules, i, repo) && rules[i].pattern == "**" && j < |rules| && Covers(rules[j], repo)
    ensures LiteralCount(rules[j]) == 0
  {
    assert Glob.Split("**") == ["**"] by { assert Glob.Split("") == [""] && Glob.Split("*") == ["*"]; }
    assert Glob.TokensOf(["**"]) == [Glob.AnyTail];
    CountsAre(Glob.TokensOf(Glob.Split(rules[i].pattern)));
  }
}
