// Repository names: the grammar of the OCI Distribution Specification v1.1.1, section
// "Pulling manifests", and the two validators the registry has for it. A character
// stands for one byte of the name.

module Names {
  import Glob

  const MAX_NAME: nat := 255

  // ---- the grammar ----

  predicate Alnum(c: char) {
    'a' <= c <= 'z' || '0' <= c <= '9'
  }

  // [a-z0-9]+
  predicate Word(w: string) {
    w != "" && forall i | 0 <= i < |w| :: Alnum(w[i])
  }

  predicate Dashes(s: string) {
    forall i | 0 <= i < |s| :: s[i] == '-'
  }

  // \.|_|__|-+
  predicate Separator(s: string) {
    s == "." || s == "_" || s == "__" || (s != "" && Dashes(s))
  }

  // Word (Separator Word)*
  ghost predicate Component(c: string)
    decreases |c|
  {
    Word(c) || exists i, j :: 0 < i < j < |c| && Word(c[..i]) && Separator(c[i..j]) && Component(c[j..])
  }

  // Component ("/" Component)*
  ghost predicate Name(s: string)
    decreases |s|
  {
    Component(s) || exists i :: 0 < i < |s| && s[i] == '/' && Component(s[..i]) && Name(s[i + 1..])
  }

  // ---- left to right, without choice ----

  // The run of characters outside [a-z0-9] at the front.
  function Run(r: string): (n: nat)
    ensures n <= |r| && forall i | 0 <= i < n :: !Alnum(r[i])
    ensures n < |r| ==> Alnum(r[n])
  {
    if r != "" && !Alnum(r[0]) then 1 + Run(r[1..]) else 0
  }

  predicate Scans(r: string)
    decreases |r|
  {
    if r == "" then true
    else if Alnum(r[0]) then Scans(r[1..])
    else Run(r) < |r| && Separator(r[..Run(r)]) && Scans(r[Run(r)..])
  }

  lemma {:induction false} SkipWord(c: string, i: nat)
    requires i <= |c| && forall k | 0 <= k < i :: Alnum(c[k])
    ensures Scans(c) == Scans(c[i..])
  {
    if i > 0 {
      SkipWord(c[1..], i - 1);
      assert c[1..][i - 1..] == c[i..];
    } else {
      assert c[0..] == c;
    }
  }

  lemma SkipSeparator(r: string, n: nat)
    requires 0 < n < |r| && Separator(r[..n]) && Alnum(r[n])
    ensures Scans(r) == Scans(r[n..])
  {
    forall k | 0 <= k < n ensures !Alnum(r[k]) { assert r[k] == r[..n][k]; }
    assert Run(r) == n;
  }

  // The leading word of a text that starts with one.
  function Lead(c: string): (i: nat)
    ensures i <= |c| && (forall k | 0 <= k < i :: Alnum(c[k])) && (i < |c| ==> !Alnum(c[i]))
    ensures c != "" && Alnum(c[0]) ==> i > 0
  {
    if c != "" && Alnum(c[0]) then 1 + Lead(c[1..]) else 0
  }

  lemma ComponentParts(c: string) returns (i: nat, j: nat)
    requires Component(c) && !Word(c)
    ensures 0 < i < j < |c| && Word(c[..i]) && Separator(c[i..j]) && Component(c[j..])
  {
    i, j :| 0 < i < j < |c| && Word(c[..i]) && Separator(c[i..j]) && Component(c[j..]);
  }

  lemma {:induction false} ComponentScans(c: string)
    requires Component(c)
    ensures c != "" && Alnum(c[0]) && Scans(c)
    decreases |c|
  {
    hide Component, Separator;
    if Word(c) {
      SkipWord(c, |c|);
    } else {
      var i, j := ComponentParts(c);
      ComponentScans(c[j..]);
      assert forall k | 0 <= k < i :: c[k] == c[..i][k];
      SkipWord(c, i);
      assert c[i..][..j - i] == c[i..j] && c[i..][j - i..] == c[j..];
      SkipSeparator(c[i..], j - i);
    }
  }

  lemma {:induction false} ScansComponent(c: string)
    requires c != "" && Alnum(c[0]) && Scans(c)
    ensures Component(c)
    decreases |c|
  {
    var i := Lead(c);
    SkipWord(c, i);
    if i < |c| {
      var r, n := c[i..], Run(c[i..]);
      assert r[n..] == c[i + n..] && r[..n] == c[i..i + n];
      ScansComponent(c[i + n..]);
      assert Word(c[..i]) && Separator(c[i..i + n]) && Component(c[i + n..]);
    }
  }

  lemma {:induction false} ScansEnds(r: string)
    requires r != "" && Scans(r)
    ensures Alnum(r[|r| - 1])
    decreases |r|
  {
    var rest := if Alnum(r[0]) then r[1..] else r[Run(r)..];
    if rest != "" { ScansEnds(rest); }
  }

  /** Reading left to right decides the grammar. */
  lemma ComponentIff(c: string)
    ensures Component(c) <==> c != "" && Alnum(c[0]) && Alnum(c[|c| - 1]) && Scans(c)
  {
    hide Component, Scans;
    if Component(c) {
      ComponentScans(c);
      ScansEnds(c);
    }
    if c != "" && Alnum(c[0]) && Scans(c) { ScansComponent(c); }
  }

  // ---- character by character ----

  predicate Allowed(c: char) {
    'a' <= c <= 'z' || '0' <= c <= '9' || c == '.' || c == '_' || c == '-'
  }

  // Two separators meet only inside a run of dashes, or as two underscores by themselves.
  predicate Joins(c: string, k: nat)
    requires k + 1 < |c|
  {
    || Alnum(c[k]) || Alnum(c[k + 1])
    || (c[k] == '-' && c[k + 1] == '-')
    || (c[k] == '_' && c[k + 1] == '_' && k > 0 && Alnum(c[k - 1]) && k + 2 < |c| && Alnum(c[k + 2]))
  }

  predicate GoodFrom(c: string, i: nat) {
    && (forall k | i <= k < |c| :: Allowed(c[k]))
    && (forall k | i <= k < |c| - 1 :: Joins(c, k))
    && (i < |c| ==> Alnum(c[|c| - 1]))
  }

  lemma {:induction false} DashesGoOn(c: string, i: nat, j: nat)
    requires i < j <= |c| && c[i] == '-' && (forall k | i <= k < j :: !Alnum(c[k]))
    requires forall k | i <= k < j - 1 :: Joins(c, k)
    ensures Dashes(c[i..j])
    decreases j
  {
    if i + 1 < j {
      DashesGoOn(c, i, j - 1);
      assert c[j - 2] == c[i..j - 1][j - 2 - i] && Joins(c, j - 2);
      assert c[i..j] == c[i..j - 1] + [c[j - 1]];
    }
  }

  lemma SeparatorJoins(c: string, i: nat, j: nat)
    requires 0 < i < j < |c| && Alnum(c[i - 1]) && Alnum(c[j]) && forall k | i <= k < j :: !Alnum(c[k])
    ensures Separator(c[i..j]) <==> (forall k | i <= k < j :: Allowed(c[k])) && forall k | i <= k < j :: Joins(c, k)
  {
    var run := c[i..j];
    assert forall k | i <= k < j :: c[k] == run[k - i];
    if (forall k | i <= k < j :: Allowed(c[k])) && forall k | i <= k < j :: Joins(c, k) {
      assert Allowed(c[i]) && Joins(c, i);
      if c[i] == '-' {
        DashesGoOn(c, i, j);
      } else if j > i + 1 {
        assert c[i + 1] == '_' && Alnum(c[i + 2]);
        assert run == "__";
      } else {
        assert run == [c[i]];
      }
    }
  }

  lemma GoodOverWord(c: string, i: nat)
    requires i < |c| && Alnum(c[i])
    ensures GoodFrom(c, i) <==> GoodFrom(c, i + 1)
  {
  }

  lemma GoodOverRun(c: string, i: nat, j: nat)
    requires 0 < i < j < |c| && Alnum(c[i - 1]) && Alnum(c[j]) && forall k | i <= k < j :: !Alnum(c[k])
    ensures GoodFrom(c, i) <==> Separator(c[i..j]) && GoodFrom(c, j)
  {
    hide Separator, Allowed, Joins;
    SeparatorJoins(c, i, j);
  }

  lemma {:induction false} ScansFrom(c: string, i: nat)
    requires i <= |c| && (i < |c| && !Alnum(c[i]) ==> i > 0 && Alnum(c[i - 1]))
    ensures Scans(c[i..]) <==> GoodFrom(c, i)
    decreases |c| - i
  {
    hide Separator, Allowed, Joins, Alnum;
    if i < |c| && Alnum(c[i]) {
      GoodOverWord(c, i);
      ScansFrom(c, i + 1);
      assert c[i..][1..] == c[i + 1..];
    } else if i < |c| {
      var r, j := c[i..], i + Run(c[i..]);
      assert forall k | i <= k < j :: c[k] == r[k - i];
      if j < |c| {
        assert c[j] == r[j - i] && r[..j - i] == c[i..j] && r[j - i..] == c[j..];
        ScansFrom(c, j);
        GoodOverRun(c, i, j);
      } else {
        assert c[|c| - 1] == r[|r| - 1];
      }
    }
  }

  /** A component checked character by character: it begins and ends with a letter or digit,
      nothing else but '.', '_' and '-' occurs in it, and two of these meet only as allowed. */
  lemma ComponentLocally(c: string)
    ensures Component(c) <==> c != "" && Alnum(c[0]) && GoodFrom(c, 0)
  {
    hide Component, Scans, GoodFrom;
    ComponentIff(c);
    if c != "" && Alnum(c[0]) {
      assert c[0..] == c;
      ScansFrom(c, 0);
      if GoodFrom(c, 0) { EndsWell(c); }
    }
  }

  lemma EndsWell(c: string)
    requires c != "" && GoodFrom(c, 0)
    ensures Alnum(c[|c| - 1])
  {
  }

  /** The one-character components are the lower-case letters and the digits. */
  lemma OneCharacter(c: char)
    ensures Component([c]) <==> 'a' <= c <= 'z' || '0' <= c <= '9'
  {
    assert [c][0] == c;
    if Component([c]) { assert Word([c]); }
    if Alnum(c) { assert Word([c]); }
  }

  predicate IsSeparator(c: char) {
    c == '.' || c == '_' || c == '-'
  }

  lemma SeparatorChars(s: string, k: nat)
    requires Separator(s) && k < |s|
    ensures IsSeparator(s[k])
  {
  }

  // Stopping at the first character that is no separator decides the scan.
  lemma StopsAt(r: string, n: nat)
    requires r != "" && !Alnum(r[0]) && n <= |r| && (forall k | 0 <= k < n :: IsSeparator(r[k]))
    requires n < |r| ==> !IsSeparator(r[n])
    ensures Scans(r) <==> n < |r| && Alnum(r[n]) && Separator(r[..n]) && Scans(r[n..])
  {
    var m := Run(r);
    assert m < n ==> IsSeparator(r[m]);
    if n < m && Separator(r[..m]) { SeparatorChars(r[..m], n); }
  }

  // ---- the validator of the request path ----

  predicate ValidSeparatorRun(run: string) {
    run == "." || run == "_" || run == "__" || Dashes(run)
  }

  lemma ScanOverWord(c: string, i: nat)
    requires i < |c| && Alnum(c[i])
    ensures Scans(c[i..]) == Scans(c[i + 1..])
  {
    assert c[i..][1..] == c[i + 1..];
  }

  lemma ScanEnds(c: string)
    ensures c[0..] == c && Scans(c[|c|..])
  {
  }

  lemma ScanOverRun(c: string, i: nat, j: nat)
    requires i <= j <= |c| && i < |c| && !Alnum(c[i]) && (forall k | i <= k < j :: IsSeparator(c[k]))
    requires j < |c| ==> !IsSeparator(c[j])
    ensures Scans(c[i..]) <==> j < |c| && Alnum(c[j]) && ValidSeparatorRun(c[i..j]) && Scans(c[j..])
  {
    hide Scans;
    assert c[i..][..j - i] == c[i..j] && c[i..][j - i..] == c[j..];
    StopsAt(c[i..], j - i);
  }

  lemma ScanOverGap(c: string, i: nat, j: nat)
    requires i < j < |c| && Alnum(c[j]) && forall k | i <= k < j :: !Alnum(c[k])
    ensures Scans(c[i..]) <==> ValidSeparatorRun(c[i..j]) && Scans(c[j..])
  {
    assert c[i..][..j - i] == c[i..j] && c[i..][j - i..] == c[j..];
    assert Run(c[i..]) == j - i;
  }

  method ValidateNameComponent(c: string) returns (ok: bool)
    ensures ok <==> Component(c)
  {
    hide Component, Scans;
    ComponentIff(c);
    if c == "" || c == "." || c == ".." { return false; }
    if !Alnum(c[0]) || !Alnum(c[|c| - 1]) { return false; }
    ok := ScanRuns(c);
  }

  method ScanRuns(c: string) returns (ok: bool)
    ensures ok <==> Scans(c)
  {
    hide Scans, ValidSeparatorRun, Alnum, IsSeparator;
    ScanEnds(c);
    var i := 0;
    while i < |c|
      invariant i <= |c| && Scans(c) == Scans(c[i..])
    {
      if Alnum(c[i]) {
        ScanOverWord(c, i);
        i := i + 1;
      } else {
        var start := i;
        while i < |c| && IsSeparator(c[i])
          invariant start <= i <= |c| && forall k | start <= k < i :: IsSeparator(c[k])
        {
          i := i + 1;
        }
        ScanOverRun(c, start, i);
        if !ValidSeparatorRun(c[start..i]) { return false; }
        if i >= |c| || !Alnum(c[i]) { return false; }
      }
    }
    ok := true;
  }

  // A name is a list of components joined by '/'.
  lemma {:induction false} NameSplits(s: string)
    ensures Name(s) <==> forall i | 0 <= i < |Glob.Split(s)| :: Component(Glob.Split(s)[i])
    decreases |s|
  {
    hide Component;
    var comps := Glob.Split(s);
    if |comps| == 1 {
      NoSlash(s);
      assert comps[0] == s;
      assert forall i | 0 <= i < |s| :: s[i] != '/';
    } else {
      Glob.SplitBelow(s);
      FirstComponent(s);
      NameSplits(Glob.Below(s));
      var n := |comps[0]|;
      assert forall i | 0 < i < |comps| :: comps[i] == comps[1..][i - 1];
      assert forall i | 0 <= i < |comps[1..]| :: comps[1..][i] == comps[i + 1];
      if Name(s) { OnlyFirstSlash(s); }
      if Component(comps[0]) && Name(Glob.Below(s)) {
        ComponentHasNoSlash(comps[0]);
        assert 0 < n < |s| && s[n] == '/' && Component(s[..n]) && Name(s[n + 1..]);
      }
    }
  }

  lemma NoSlash(s: string)
    requires |Glob.Split(s)| == 1
    ensures Glob.Split(s) == [s] && '/' !in s
  {
    Glob.SplitJoin(s);
  }

  lemma {:induction false} FirstComponent(s: string)
    requires |Glob.Split(s)| > 1
    ensures var n := |Glob.Split(s)[0]|;
            n < |s| && s[n] == '/' && s[..n] == Glob.Split(s)[0] && s[n + 1..] == Glob.Below(s) && '/' !in s[..n]
  {
    if s[0] == '/' {
      assert s[..0] == "";
    } else {
      FirstComponent(s[1..]);
      var n := |Glob.Split(s[1..])[0]|;
      assert s[..n + 1] == [s[0]] + s[1..][..n];
    }
  }

  lemma ComponentHasNoSlash(c: string)
    requires Component(c)
    ensures c != "" && '/' !in c
  {
    hide Component;
    ComponentLocally(c);
  }

  lemma SameSlash(s: string, i: nat, n: nat)
    requires i < |s| && n < |s| && s[i] == '/' && s[n] == '/' && '/' !in s[..i] && '/' !in s[..n]
    ensures i == n
  {
  }

  lemma OnlyFirstSlash(s: string)
    requires |Glob.Split(s)| > 1 && Name(s)
    ensures Component(Glob.Split(s)[0]) && Name(Glob.Below(s))
  {
    hide Component, Glob.Split, Glob.Below;
    FirstComponent(s);
    var n := |Glob.Split(s)[0]|;
    if Component(s) {
      ComponentHasNoSlash(s);
    } else {
      var i :| 0 < i < |s| && s[i] == '/' && Component(s[..i]) && Name(s[i + 1..]);
      ComponentHasNoSlash(s[..i]);
      SameSlash(s, i, n);
    }
  }

  /** Accepts exactly the names of the grammar of at most 255 bytes. */
  method ParseRepositoryName(s: string) returns (ok: bool)
    ensures ok <==> |s| <= MAX_NAME && Name(s)
  {
    NameSplits(s);
    if s == "" || |s| > MAX_NAME {
      if s == "" && Name(s) { ComponentHasNoSlash(s); }
      return false;
    }
    var comps := Glob.Split(s);
    for i := 0 to |comps|
      invariant forall k | 0 <= k < i :: Component(comps[k])
    {
      var good := ValidateNameComponent(comps[i]);
      if !good { return false; }
    }
    ok := true;
  }

  // ---- the validator of the configuration ----

  method ComponentPrefix(c: string) returns (ok: bool)
    ensures ok <==> Component(c)
  {
    hide Component, Scans;
    ComponentIff(c);
    if c == "" || !Alnum(c[0]) || !Alnum(c[|c| - 1]) { return false; }
    ok := ScanGaps(c);
  }

  method ScanGaps(c: string) returns (ok: bool)
    requires c != "" && Alnum(c[|c| - 1])
    ensures ok <==> Scans(c)
  {
    hide Scans, ValidSeparatorRun, Alnum, IsSeparator;
    ScanEnds(c);
    var i := 0;
    while i < |c|
      invariant i <= |c| && Scans(c) == Scans(c[i..])
    {
      if Alnum(c[i]) {
        ScanOverWord(c, i);
        i := i + 1;
      } else {
        var start := i;
        while i < |c| && !Alnum(c[i])
          invariant start <= i <= |c| && forall k | start <= k < i :: !Alnum(c[k])
        {
          i := i + 1;
        }
        ScanOverGap(c, start, i);
        if !ValidSeparatorRun(c[start..i]) { return false; }
      }
    }
    ok := true;
  }

  /** The same language as the request path accepts. */
  method IsRepoPrefix(s: string) returns (ok: bool)
    ensures ok <==> |s| <= MAX_NAME && Name(s)
  {
    NameSplits(s);
    if |s| > MAX_NAME { return false; }
    var comps := Glob.Split(s);
    for i := 0 to |comps|
      invariant forall k | 0 <= k < i :: Component(comps[k])
    {
      var good := ComponentPrefix(comps[i]);
      if !good { return false; }
    }
    ok := true;
  }
}
