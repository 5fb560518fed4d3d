/**
 * The cost-token scanner `extract_between`: every non-overlapping match of the
 * regular expression `\$(.*?),(.{3})`, scanned left to right, turned into the
 * text of its first group followed by the text of its second group (the
 * dollar sign and the comma are dropped).  `.` matches any character except a
 * line feed, and `.*?` is lazy: the shortest group that lets the rest of the
 * pattern match is taken.
 */
module CostScanner {
  import opened Wrappers

  /** The characters the regular-expression `.` accepts. */
  predicate IsDot(c: char) {
    c != '\n'
  }

  /**
   * The pattern matches at the start of `s` when its lazy group is `k`
   * characters long: `$`, k dots, `,`, three dots.
   */
  predicate MatchesWith(s: string, k: nat) {
    && k + 5 <= |s|
    && s[0] == '$'
    && (forall q | 1 <= q <= k :: IsDot(s[q]))
    && s[k + 1] == ','
    && (forall q | k + 2 <= q < k + 5 :: IsDot(s[q]))
  }

  /**
   * The lazy group's length: tries lengths k, k + 1, ... and stops at the
   * first one that matches, or gives up once the group would have to swallow
   * a line feed or run past the end.
   */
  function LazyLength(s: string, k: nat): (r: Option<nat>)
    requires k < |s| && s[0] == '$'
    requires forall q | 1 <= q <= k :: IsDot(s[q])
    ensures r.Some? ==> k <= r.value && MatchesWith(s, r.value)
    ensures r.Some? ==> forall k': nat | k <= k' < r.value :: !MatchesWith(s, k')
    ensures r.None? ==> forall k': nat | k <= k' :: !MatchesWith(s, k')
    decreases |s| - k
  {
    if k + 5 > |s| then None
    else if s[k + 1] == ',' && IsDot(s[k + 2]) && IsDot(s[k + 3]) && IsDot(s[k + 4]) then Some(k)
    else if !IsDot(s[k + 1]) then None
    else LazyLength(s, k + 1)
  }

  /**
   * A match anchored at the start of `s`: the token it yields and the
   * number of characters it consumes.  `MatchPrefixIsLazyMatch` states that
   * this is the shortest match of the pattern there.
   */
  function MatchPrefix(s: string): (r: Option<(string, nat)>)
    ensures r.Some? ==> |s| > 0 && s[0] == '$'
    ensures r.Some? ==> 5 <= r.value.1 <= |s| && |r.value.0| == r.value.1 - 2
    ensures r.Some? ==> forall i | 0 <= i < |r.value.0| :: IsDot(r.value.0[i])
  {
    if |s| > 0 && s[0] == '$' then
      match LazyLength(s, 0)
      case None => None
      case Some(k) => Some((s[1..k + 1] + s[k + 2..k + 5], k + 5))
    else None
  }

  /**
   * `MatchPrefix` finds a match exactly when the pattern matches at the start
   * of `s` with some group length, and then uses the shortest such length.
   */
  lemma MatchPrefixIsLazyMatch(s: string)
    ensures MatchPrefix(s).None? <==> forall k: nat :: !MatchesWith(s, k)
    ensures MatchPrefix(s).Some? ==>
      var k: nat := MatchPrefix(s).value.1 - 5;
      && MatchesWith(s, k)
      && (forall k': nat | k' < k :: !MatchesWith(s, k'))
      && MatchPrefix(s).value.0 == s[1..k + 1] + s[k + 2..k + 5]
  {
    if |s| > 0 && s[0] == '$' {
      var l := LazyLength(s, 0);
    }
  }

  /** A token as the scanner can return it: at least three characters, no line feed. */
  predicate WellFormedToken(t: string) {
    |t| >= 3 && forall i | 0 <= i < |t| :: IsDot(t[i])
  }

  /** The number of dollar signs in `s`. */
  function Dollars(s: string): nat {
    if s == [] then 0 else (if s[0] == '$' then 1 else 0) + Dollars(s[1..])
  }

  lemma {:induction false} DollarsSuffix(s: string, n: nat)
    requires n <= |s|
    ensures Dollars(s[n..]) <= Dollars(s)
    decreases n
  {
    if n > 0 {
      DollarsSuffix(s[1..], n - 1);
      assert s[1..][n - 1..] == s[n..];
    }
  }

  /**
   * `extract_between(s)`, that is `re.findall` from the start of `s` with the
   * two groups of each match joined: a match at the current position yields a
   * token and resumes after it, otherwise the scan moves on by one character.
   */
  function ExtractBetween(s: string): (r: seq<string>)
    ensures |r| <= Dollars(s)
    ensures forall i | 0 <= i < |r| :: WellFormedToken(r[i])
    decreases |s|
  {
    if s == [] then []
    else match MatchPrefix(s)
      case Some((token, n)) =>
        DollarsSuffix(s[1..], n - 1);
        assert s[1..][n - 1..] == s[n..];
        [token] + ExtractBetween(s[n..])
      case None => ExtractBetween(s[1..])
  }

  /** Text without a dollar sign yields no token. */
  lemma NoDollarNoTokens(text: string)
    requires '$' !in text
    ensures ExtractBetween(text) == []
  {
    NoDollarCount(text);
  }

  lemma {:induction false} NoDollarCount(s: string)
    requires '$' !in s
    ensures Dollars(s) == 0
  {
    if s != [] {
      assert s[0] != '$';
      assert forall c | c in s[1..] :: c in s;
      NoDollarCount(s[1..]);
    }
  }

  /** Markup before a cost that holds no dollar sign does not change the tokens. */
  lemma {:induction false} SkipsTextWithoutDollar(junk: string, s: string)
    requires '$' !in junk
    ensures ExtractBetween(junk + s) == ExtractBetween(s)
  {
    if junk != [] {
      assert (junk + s)[0] == junk[0] && junk[0] != '$';
      assert MatchPrefix(junk + s).None?;
      assert (junk + s)[1..] == junk[1..] + s;
      assert forall c | c in junk[1..] :: c in junk;
      SkipsTextWithoutDollar(junk[1..], s);
    } else {
      assert junk + s == s;
    }
  }

  /** A token that a cost written as `$<head>,<three characters>` spells back. */
  predicate Spellable(t: string) {
    |t| >= 3 && WellFormedToken(t) && ',' !in t[..|t| - 3]
  }

  /** The text `$<head>,<last three>` whose only match yields `t`. */
  function Spelled(t: string): string
    requires |t| >= 3
  {
    "$" + t[..|t| - 3] + "," + t[|t| - 3..]
  }

  function Render(ts: seq<string>): string
    requires forall i | 0 <= i < |ts| :: Spellable(ts[i])
  {
    if ts == [] then ""
    else
      assert Spellable(ts[0]);
      Spelled(ts[0]) + Render(ts[1..])
  }

  /** The lazy group stops at the first comma, whatever follows the match. */
  lemma MatchSpelled(t: string, rest: string)
    requires Spellable(t)
    ensures MatchPrefix(Spelled(t) + rest) == Some((t, |t| + 2))
  {
    var s := Spelled(t) + rest;
    var h := |t| - 3;
    assert forall q | 1 <= q <= h :: s[q] == t[q - 1];
    assert forall q | h + 2 <= q < h + 5 :: s[q] == t[q - 2];
    assert MatchesWith(s, h);
    var k := LazyLength(s, 0).value;
    assert s[0] == '$';
    assert k == h;
    assert s[1..h + 1] == t[..h];
    assert s[h + 2..h + 5] == t[h..];
    assert t[..h] + t[h..] == t;
  }

  /** Costs written one after another are read back one token each, in order. */
  lemma {:induction false} ScanRender(ts: seq<string>)
    requires forall i | 0 <= i < |ts| :: Spellable(ts[i])
    ensures ExtractBetween(Render(ts)) == ts
  {
    if ts != [] {
      var s := Render(ts);
      MatchSpelled(ts[0], Render(ts[1..]));
      assert s[|ts[0]| + 2..] == Render(ts[1..]);
      ScanRender(ts[1..]);
    }
  }

  /** A single cost `$1,234` yields the token `1234`. */
  lemma SingleCost()
    ensures ExtractBetween("$1,234") == ["1234"]
  {
    ScanRender(["1234"]);
    assert Render(["1234"]) == "$1,234";
  }

  /** Only one match fits in `$1,234,567`: the trailing `,567` has no dollar sign. */
  lemma SecondGroupIgnored()
    ensures ExtractBetween("$1,234,567") == ["1234"]
  {
    var s := "$1,234,567";
    MatchSpelled("1234", ",567");
    assert s == Spelled("1234") + ",567";
    assert s[6..] == ",567";
    NoDollarNoTokens(",567");
  }
}
