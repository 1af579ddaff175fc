/** The LIST pattern matcher. */
module Glob {

  predicate Wild(c: char) { c == '*' || c == '%' }

  /** What a pattern means: a wildcard stands for any run of characters. */
  predicate Matches(p: string, s: string)
    decreases |p| + |s|
  {
    if p == [] then s == []
    else if Wild(p[0]) then Matches(p[1..], s) || (s != [] && Matches(p, s[1..]))
    else s != [] && p[0] == s[0] && Matches(p[1..], s[1..])
  }

  /** Adjacent wildcards collapse into one `*`. */
  function Collapse(p: string): string {
    if p == [] then []
    else
      var front, c := Collapse(p[..|p|-1]), p[|p|-1];
      if !Wild(c) then front + [c]
      else if front != [] && front[|front|-1] == '*' then front
      else front + "*"
  }

  // ----- wildcards ---------------------------------------------------------------------------------

  /** A leading wildcard may swallow a front part first. */
  lemma {:induction false} WildAbsorbs(p: string, s: string, j: nat)
    requires p != [] && Wild(p[0]) && j <= |s| && Matches(p, s[j..])
    ensures Matches(p, s)
    decreases j
  {
    if j > 0 {
      assert s[1..][j-1..] == s[j..];
      WildAbsorbs(p, s[1..], j - 1);
    } else {
      assert s[0..] == s;
    }
  }

  /** ... and if it matches, it swallowed some front part. */
  lemma {:induction false} WildSwallows(p: string, s: string) returns (j: nat)
    requires p != [] && Wild(p[0]) && Matches(p, s)
    ensures j <= |s| && Matches(p[1..], s[j..])
    decreases |s|
  {
    if Matches(p[1..], s) {
      j := 0;
      assert s[0..] == s;
    } else {
      j := WildSwallows(p, s[1..]);
      j := j + 1;
      assert s[1..][j-1..] == s[j..];
    }
  }

  /** A literal front part of the pattern is matched character by character. */
  lemma {:induction false} LiteralFront(lit: string, p: string, s: string)
    requires forall i :: 0 <= i < |lit| ==> !Wild(lit[i])
    ensures Matches(lit + p, s) <==> |lit| <= |s| && s[..|lit|] == lit && Matches(p, s[|lit|..])
    decreases |lit|
  {
    if lit == [] {
      assert lit + p == p && s[0..] == s;
    } else {
      assert (lit + p)[1..] == lit[1..] + p;
      if s != [] {
        LiteralFront(lit[1..], p, s[1..]);
        assert |lit| <= |s| ==> s[1..][|lit|-1..] == s[|lit|..];
        assert |lit| <= |s| ==> s[..|lit|] == [s[0]] + s[1..][..|lit|-1];
        assert lit == [lit[0]] + lit[1..];
      }
    }
  }

  function Needed(p: string): nat {
    if p == [] then 0 else (if Wild(p[0]) then 0 else 1) + Needed(p[1..])
  }

  lemma {:induction false} MatchNeeds(p: string, s: string)
    requires Matches(p, s)
    ensures Needed(p) <= |s|
    decreases |p| + |s|
  {
    if p == [] {
    } else if Wild(p[0]) {
      if Matches(p[1..], s) {
        MatchNeeds(p[1..], s);
      } else {
        MatchNeeds(p, s[1..]);
      }
    } else {
      MatchNeeds(p[1..], s[1..]);
    }
  }

  lemma {:induction false} NeededConcat(p: string, q: string)
    ensures Needed(p + q) == Needed(p) + Needed(q)
  {
    if p == [] {
      assert p + q == q;
    } else {
      assert (p + q)[1..] == p[1..] + q;
      NeededConcat(p[1..], q);
    }
  }

  lemma {:induction false} LiteralNeeds(lit: string)
    requires forall i :: 0 <= i < |lit| ==> !Wild(lit[i])
    ensures Needed(lit) == |lit|
  {
    if lit != [] {
      LiteralNeeds(lit[1..]);
    }
  }

  // ----- what a pattern means, without recursion ------------------------------------------------------

  function Joined(pieces: seq<string>): string {
    if pieces == [] then "" else pieces[0] + Joined(pieces[1..])
  }

  /** One piece of the name for each character of the pattern: any run for `*` and `%`, itself otherwise. */
  ghost predicate Pieces(p: string, pieces: seq<string>) {
    |pieces| == |p| && forall i :: 0 <= i < |p| ==> p[i] == '*' || p[i] == '%' || pieces[i] == [p[i]]
  }

  /** The name can be cut into pieces that the pattern describes one by one. */
  ghost predicate Denotes(p: string, s: string) {
    exists pieces :: Pieces(p, pieces) && Joined(pieces) == s
  }

  /** Both wildcards stand for any run of characters, the empty one included. */
  lemma WildcardMeans(p: string, s: string)
    ensures Matches("*" + p, s) <==> exists j :: 0 <= j <= |s| && Matches(p, s[j..])
    ensures Matches("%" + p, s) <==> exists j :: 0 <= j <= |s| && Matches(p, s[j..])
  {
    AnyRun('*', p, s);
    AnyRun('%', p, s);
  }

  lemma AnyRun(c: char, p: string, s: string)
    requires Wild(c)
    ensures Matches([c] + p, s) <==> exists j :: 0 <= j <= |s| && Matches(p, s[j..])
  {
    var q := [c] + p;
    assert q[1..] == p;
    if Matches(q, s) {
      var j := WildSwallows(q, s);
    }
    if j :| 0 <= j <= |s| && Matches(p, s[j..]) {
      assert Matches(q, s[j..]);
      WildAbsorbs(q, s, j);
    }
  }

  /** Every other character stands for itself. */
  lemma LiteralMeans(c: char, p: string, s: string)
    requires c != '*' && c != '%'
    ensures Matches([c] + p, s) <==> s != "" && s[0] == c && Matches(p, s[1..])
  {
    assert ([c] + p)[1..] == p;
  }

  /** The recursive meaning is the meaning by pieces. */
  lemma {:induction false} MatchesDenotes(p: string, s: string)
    ensures Matches(p, s) <==> Denotes(p, s)
    decreases |p|
  {
    if p == [] {
      assert Matches(p, s) ==> Pieces(p, []) && Joined([]) == s;
    } else {
      var c, rest := p[0], p[1..];
      assert p == [c] + rest;
      if Matches(p, s) {
        var j := FirstPiece(c, rest, s);
        MatchesDenotes(rest, s[j..]);
        DenotesLonger(p, s, j);
      }
      if Denotes(p, s) {
        var j := DenotesShorter(p, s);
        MatchesDenotes(rest, s[j..]);
        AddsPiece(c, rest, s, j);
      }
    }
  }

  /** The run that the first character of the pattern takes. */
  lemma FirstPiece(c: char, rest: string, s: string) returns (j: nat)
    requires Matches([c] + rest, s)
    ensures j <= |s| && Matches(rest, s[j..]) && (c == '*' || c == '%' || s[..j] == [c])
  {
    hide Matches;
    if c == '*' || c == '%' {
      WildcardMeans(rest, s);
      assert [c] == "*" || [c] == "%";
      j :| 0 <= j <= |s| && Matches(rest, s[j..]);
    } else {
      LiteralMeans(c, rest, s);
      j := 1;
    }
  }

  lemma AddsPiece(c: char, rest: string, s: string, j: nat)
    requires j <= |s| && Matches(rest, s[j..]) && (c == '*' || c == '%' || s[..j] == [c])
    ensures Matches([c] + rest, s)
  {
    hide Matches;
    if c == '*' || c == '%' {
      WildcardMeans(rest, s);
      assert [c] == "*" || [c] == "%";
    } else {
      LiteralMeans(c, rest, s);
      assert s[..j][0] == s[0] && j == 1;
    }
  }

  lemma DenotesLonger(p: string, s: string, j: nat)
    requires p != [] && j <= |s| && (p[0] == '*' || p[0] == '%' || s[..j] == [p[0]]) && Denotes(p[1..], s[j..])
    ensures Denotes(p, s)
  {
    var more :| Pieces(p[1..], more) && Joined(more) == s[j..];
    var pieces := [s[..j]] + more;
    assert pieces[1..] == more && s[..j] + s[j..] == s;
    assert Pieces(p, pieces) && Joined(pieces) == s;
  }

  lemma DenotesShorter(p: string, s: string) returns (j: nat)
    requires p != [] && Denotes(p, s)
    ensures j <= |s| && (p[0] == '*' || p[0] == '%' || s[..j] == [p[0]]) && Denotes(p[1..], s[j..])
  {
    var pieces :| Pieces(p, pieces) && Joined(pieces) == s;
    j := |pieces[0]|;
    assert s[..j] == pieces[0] && s[j..] == Joined(pieces[1..]);
    assert Pieces(p[1..], pieces[1..]);
  }

  // ----- the steps of the matcher ---------------------------------------------------------------------

  /** Reaching a second wildcard, the first one can stay where it is: an earliest match of the literal
      between them is as good as any. */
  lemma NextWildcard(lit: string, p: string, s: string)
    requires forall i :: 0 <= i < |lit| ==> !Wild(lit[i])
    requires p != [] && Wild(p[0]) && |lit| <= |s| && s[..|lit|] == lit
    ensures Matches("*" + (lit + p), s) <==> Matches(p, s[|lit|..])
  {
    var q := "*" + (lit + p);
    assert q[1..] == lit + p;
    if Matches(q, s) {
      var j := WildSwallows(q, s);
      LiteralFront(lit, p, s[j..]);
      assert s[j..][|lit|..] == s[|lit|..][j..];
      WildAbsorbs(p, s[|lit|..], j);
    }
    if Matches(p, s[|lit|..]) {
      LiteralFront(lit, p, s);
      assert Matches(q[1..], s);
    }
  }

  /** A mismatch after a literal: the wildcard must swallow one more character. */
  lemma Backtrack(lit: string, rest: string, s: string)
    requires forall i :: 0 <= i < |lit| ==> !Wild(lit[i])
    requires |lit| < |s| && s[..|lit|] == lit
    requires rest == [] || (!Wild(rest[0]) && rest[0] != s[|lit|])
    ensures Matches("*" + (lit + rest), s) <==> Matches("*" + (lit + rest), s[1..])
  {
    var q := "*" + (lit + rest);
    assert q[1..] == lit + rest;
    LiteralFront(lit, rest, s);
    assert !Matches(rest, s[|lit|..]);
  }

  /** At the end of the name only wildcards may remain. */
  lemma NothingLeft(lit: string, rest: string, s: string)
    requires forall i :: 0 <= i < |lit| ==> !Wild(lit[i])
    requires s == lit
    ensures Matches("*" + (lit + rest), s) <==> Needed(rest) == 0
  {
    var q := "*" + (lit + rest);
    assert q[1..] == lit + rest;
    if Matches(q, s) {
      MatchNeeds(q, s);
      NeededConcat("*", lit + rest);
      NeededConcat(lit, rest);
      LiteralNeeds(lit);
    }
    if Needed(rest) == 0 {
      WildcardsMatchNothing(rest);
      LiteralFront(lit, rest, s);
      assert s[|lit|..] == [] && s[..|lit|] == lit;
      assert Matches(q[1..], s);
    }
  }

  lemma {:induction false} WildcardsMatchNothing(p: string)
    ensures Matches(p, []) <==> Needed(p) == 0
  {
    if p != [] {
      WildcardsMatchNothing(p[1..]);
    }
  }

  // ----- collapsing -------------------------------------------------------------------------------------

  ghost predicate Same(p: string, q: string) {
    forall s :: Matches(p, s) <==> Matches(q, s)
  }

  /** Appending a character to equivalent patterns keeps them equivalent: matching splits the text. */
  lemma {:induction false} MatchSplits(p: string, q: string, s: string)
    ensures Matches(p + q, s) <==> exists j :: 0 <= j <= |s| && Matches(p, s[..j]) && Matches(q, s[j..])
    decreases |p| + |s|
  {
    if p == [] {
      assert p + q == q;
      if Matches(q, s) {
        assert Matches(p, s[..0]) && s[0..] == s;
      }
    } else {
      assert (p + q)[1..] == p[1..] + q && (p + q)[0] == p[0];
      MatchSplits(p[1..], q, s);
      if s != [] {
        MatchSplits(if Wild(p[0]) then p else p[1..], q, s[1..]);
      }
      SplitStep(p, q, s);
    }
  }

  lemma SplitStep(p: string, q: string, s: string)
    requires p != [] && (p + q)[1..] == p[1..] + q && (p + q)[0] == p[0]
    requires Matches(p[1..] + q, s) <==> exists j :: 0 <= j <= |s| && Matches(p[1..], s[..j]) && Matches(q, s[j..])
    requires s != [] ==> var r := if Wild(p[0]) then p else p[1..];
                         var rest := s[1..];
                         (Matches(r + q, rest) <==>
                          exists j :: 0 <= j <= |rest| && Matches(r, rest[..j]) && Matches(q, rest[j..]))
    ensures Matches(p + q, s) <==> exists j :: 0 <= j <= |s| && Matches(p, s[..j]) && Matches(q, s[j..])
  {
    var r := if Wild(p[0]) then p else p[1..];
    if s != [] {
      forall j | 0 <= j <= |s| - 1 ensures s[1..][..j] == s[..j+1][1..] && s[1..][j..] == s[j+1..] {
      }
    }
    if Matches(p + q, s) {
      if Wild(p[0]) && Matches(p[1..] + q, s) {
        var j :| 0 <= j <= |s| && Matches(p[1..], s[..j]) && Matches(q, s[j..]);
        assert Matches(p, s[..j]);
      } else {
        var j :| 0 <= j <= |s[1..]| && Matches(r, s[1..][..j]) && Matches(q, s[1..][j..]);
        assert s[..j+1][1..] == s[1..][..j] && s[..j+1][0] == s[0];
        assert Matches(p, s[..j+1]) && Matches(q, s[j+1..]);
      }
    }
    if exists j :: 0 <= j <= |s| && Matches(p, s[..j]) && Matches(q, s[j..]) {
      var j :| 0 <= j <= |s| && Matches(p, s[..j]) && Matches(q, s[j..]);
      if Wild(p[0]) && Matches(p[1..], s[..j]) {
      } else {
        assert s[..j][1..] == s[1..][..j-1] && s[j..] == s[1..][j-1..];
        assert Matches(r, s[1..][..j-1]) && Matches(q, s[1..][j-1..]);
      }
    }
  }

  lemma SameSnoc(p: string, p': string, q: string, q': string)
    requires Same(p, p') && Same(q, q')
    ensures Same(p + q, p' + q')
  {
    forall s ensures Matches(p + q, s) <==> Matches(p' + q', s) {
      MatchSplits(p, q, s);
      MatchSplits(p', q', s);
    }
  }

  lemma AnyWildcard(c: char, d: char, s: string)
    requires Wild(c) && Wild(d)
    ensures Matches([c], s) && Matches([c, d], s)
  {
    assert [c][1..] == [] && [c, d][1..] == [d] && [d][1..] == [];
    assert s[|s|..] == [];
    assert Matches([c], s[|s|..]);
    WildAbsorbs([c], s, |s|);
    assert Matches([d], s[|s|..]);
    assert Matches([c, d], s[|s|..]);
    WildAbsorbs([c, d], s, |s|);
  }

  /** Collapsing adjacent wildcards changes nothing. */
  lemma {:induction false} CollapseKeepsMeaning(p: string)
    ensures Same(Collapse(p), p)
  {
    if p != [] {
      var front, c := p[..|p|-1], p[|p|-1];
      var f := Collapse(front);
      CollapseKeepsMeaning(front);
      assert p == front + [c];
      if !Wild(c) {
        SameSnoc(f, front, [c], [c]);
      } else {
        forall s ensures Matches("*", s) <==> Matches([c], s) {
          AnyWildcard('*', c, s);
          AnyWildcard(c, c, s);
        }
        SameSnoc(f, front, "*", [c]);
        if f != [] && f[|f|-1] == '*' {
          DoubleStar(f[..|f|-1]);
          assert f[..|f|-1] + "*" == f && f[..|f|-1] + "**" == f + "*";
        }
      }
    }
  }

  lemma DoubleStar(f: string)
    ensures Same(f + "*", f + "**")
  {
    forall s ensures Matches("*", s) <==> Matches("**", s) {
      AnyWildcard('*', '*', s);
      assert "**" == ['*', '*'];
    }
    assert Same(f, f);
    SameSnoc(f, f, "*", "**");
  }

  lemma {:induction false} CollapseIsClean(p: string)
    ensures forall i :: 0 <= i < |Collapse(p)| && Wild(Collapse(p)[i]) ==> Collapse(p)[i] == '*'
  {
    if p != [] {
      CollapseIsClean(p[..|p|-1]);
    }
  }

  // ----- the loops ---------------------------------------------------------------------------------------

  method Collapsed(pattern: string) returns (p: string)
    ensures p == Collapse(pattern)
  {
    p := "";
    for i := 0 to |pattern|
      invariant p == Collapse(pattern[..i])
    {
      assert pattern[..i+1][..i] == pattern[..i];
      var ch := pattern[i];
      if Wild(ch) {
        if p != "" && p[|p|-1] == '*' {
          continue;
        }
        p := p + "*";
      } else {
        p := p + [ch];
      }
    }
    assert pattern[..|pattern|] == pattern;
  }

  /** The literal since the last wildcard, and where it matched. */
  ghost predicate Position(p: string, name: string, pi: int, ni: int, star: int, mark: int) {
    && 0 <= pi <= |p| && 0 <= ni <= |name| && -1 <= star < pi
    && (star < 0 ==> mark == 0 && pi == ni && p[..pi] == name[..ni] && forall i :: 0 <= i < pi ==> p[i] != '*')
    && (star >= 0 ==> 0 <= mark && p[star] == '*' && mark + (pi - star - 1) == ni && p[star+1..pi] == name[mark..ni]
                      && forall i :: star < i < pi ==> p[i] != '*')
  }

  ghost predicate OnlyStars(p: string) {
    forall i :: 0 <= i < |p| && Wild(p[i]) ==> p[i] == '*'
  }

  /** `_wildcard_match`, for any case mapping: it decides exactly what the pattern means. */
  method WildcardMatch(pattern: string, name: string, ignoreCase: bool, lower: string -> string) returns (r: bool)
    ensures r <==> if ignoreCase then Denotes(lower(pattern), lower(name)) else Denotes(pattern, name)
  {
    if ignoreCase {
      r := MatchExact(lower(pattern), lower(name));
    } else {
      r := MatchExact(pattern, name);
    }
  }

  method MatchExact(pattern: string, name: string) returns (r: bool)
    ensures r == Matches(pattern, name) && (r <==> Denotes(pattern, name))
  {
    hide Matches, Denotes;
    MatchesDenotes(pattern, name);
    var p := Collapsed(pattern);
    CollapseKeepsMeaning(pattern);
    CollapseIsClean(pattern);
    r := MatchCollapsed(p, name);
  }

  /** Remembers only the last wildcard. */
  method MatchCollapsed(p: string, name: string) returns (r: bool)
    requires OnlyStars(p)
    ensures r == Matches(p, name)
  {
    hide Matches, Position, OnlyStars, Needed;
    var pi, ni, star, mark := 0, 0, -1, 0;
    AtStart(p, name);
    while ni < |name|
      invariant 0 <= pi <= |p| && 0 <= ni <= |name| && -1 <= star < pi && 0 <= mark <= ni
      invariant Position(p, name, pi, ni, star, mark)
      invariant star >= 0 ==> (Matches(p, name) <==> Matches(p[star..], name[mark..]))
      decreases |name| - mark, |name| - ni, |p| - pi
    {
      if pi < |p| && p[pi] == '*' {
        AtStar(p, name, pi, ni, star, mark);
        star, mark := pi, ni;
        pi := pi + 1;
      } else if pi < |p| && p[pi] == name[ni] {
        Advance(p, name, pi, ni, star, mark);
        pi := pi + 1;
        ni := ni + 1;
      } else if star >= 0 {
        AtMismatch(p, name, pi, ni, star, mark);
        pi := star + 1;
        mark := mark + 1;
        ni := mark;
      } else {
        NoWildcardYet(p, name, pi, ni, star, mark);
        return false;
      }
    }
    AtEnd(p, name, pi, star, mark);
    r := OnlyWildcardsFrom(p, pi);
  }

  method OnlyWildcardsFrom(p: string, start: nat) returns (r: bool)
    requires OnlyStars(p) && start <= |p|
    ensures r <==> Needed(p[start..]) == 0
  {
    var pi := start;
    while pi < |p| && p[pi] == '*'
      invariant start <= pi <= |p| && (Needed(p[start..]) == 0 <==> Needed(p[pi..]) == 0)
    {
      assert p[pi..][1..] == p[pi+1..];
      pi := pi + 1;
    }
    r := pi == |p|;
  }

  lemma AtStart(p: string, name: string)
    ensures Position(p, name, 0, 0, -1, 0)
  {
  }

  lemma Advance(p: string, name: string, pi: int, ni: int, star: int, mark: int)
    requires Position(p, name, pi, ni, star, mark) && pi < |p| && ni < |name| && p[pi] == name[ni] && p[pi] != '*'
    ensures Position(p, name, pi + 1, ni + 1, star, mark)
  {
    if star < 0 {
      assert p[..pi+1] == p[..pi] + [p[pi]] && name[..ni+1] == name[..ni] + [name[ni]];
    } else {
      assert p[star+1..pi+1] == p[star+1..pi] + [p[pi]] && name[mark..ni+1] == name[mark..ni] + [name[ni]];
    }
  }

  lemma AtStar(p: string, name: string, pi: int, ni: int, star: int, mark: int)
    requires OnlyStars(p) && Position(p, name, pi, ni, star, mark) && pi < |p| && p[pi] == '*'
    requires star >= 0 ==> (Matches(p, name) <==> Matches(p[star..], name[mark..]))
    ensures Matches(p, name) <==> Matches(p[pi..], name[ni..])
    ensures Position(p, name, pi + 1, ni, pi, ni) && mark <= ni
  {
    hide Matches, OnlyStars;
    if star < 0 {
      BeforeWildcard(p, name, pi, ni, star, mark);
      LiteralFront(p[..pi], p[pi..], name);
    } else {
      AfterWildcard(p, name, pi, ni, star, mark);
      NextWildcard(p[star+1..pi], p[pi..], name[mark..]);
    }
  }

  /** The literal before the first wildcard. */
  lemma BeforeWildcard(p: string, name: string, pi: int, ni: int, star: int, mark: int)
    requires OnlyStars(p) && Position(p, name, pi, ni, star, mark) && star < 0
    ensures p == p[..pi] + p[pi..] && pi == ni && p[..pi] == name[..ni]
    ensures forall i :: 0 <= i < pi ==> !Wild(p[..pi][i])
  {
  }

  /** The literal since the last wildcard, in the pattern and in the name. */
  lemma AfterWildcard(p: string, name: string, pi: int, ni: int, star: int, mark: int)
    requires OnlyStars(p) && Position(p, name, pi, ni, star, mark) && star >= 0
    ensures var lit, s := p[star+1..pi], name[mark..];
            && p[star..] == "*" + (lit + p[pi..]) && |lit| <= |s| && s[..|lit|] == lit && s[|lit|..] == name[ni..]
            && forall i :: 0 <= i < |lit| ==> !Wild(lit[i])
  {
  }

  lemma AtMismatch(p: string, name: string, pi: int, ni: int, star: int, mark: int)
    requires OnlyStars(p) && Position(p, name, pi, ni, star, mark) && star >= 0 && ni < |name|
    requires pi == |p| || (p[pi] != '*' && p[pi] != name[ni])
    ensures Matches(p[star..], name[mark..]) <==> Matches(p[star..], name[mark+1..])
    ensures Position(p, name, star + 1, mark + 1, star, mark + 1)
  {
    var lit, s := p[star+1..pi], name[mark..];
    assert p[star..] == "*" + (lit + p[pi..]);
    assert s[..|lit|] == lit && s[|lit|] == name[ni] && s[1..] == name[mark+1..];
    Backtrack(lit, p[pi..], s);
  }

  lemma NoWildcardYet(p: string, name: string, pi: int, ni: int, star: int, mark: int)
    requires OnlyStars(p) && Position(p, name, pi, ni, star, mark) && star < 0 && ni < |name|
    requires pi == |p| || (p[pi] != '*' && p[pi] != name[ni])
    ensures !Matches(p, name)
  {
    assert p == p[..pi] + p[pi..];
    LiteralFront(p[..pi], p[pi..], name);
  }

  lemma AtEnd(p: string, name: string, pi: int, star: int, mark: int)
    requires OnlyStars(p) && Position(p, name, pi, |name|, star, mark)
    requires star >= 0 ==> (Matches(p, name) <==> Matches(p[star..], name[mark..]))
    ensures Matches(p, name) <==> Needed(p[pi..]) == 0
  {
    hide Matches, Needed;
    if star < 0 {
      assert p == p[..pi] + p[pi..];
      assert name[..pi] == name && name[pi..] == [];
      LiteralFront(p[..pi], p[pi..], name);
      WildcardsMatchNothing(p[pi..]);
    } else {
      var lit := p[star+1..pi];
      assert p[star..] == "*" + (lit + p[pi..]);
      assert name[mark..|name|] == name[mark..];
      NothingLeft(lit, p[pi..], name[mark..]);
    }
  }
}
