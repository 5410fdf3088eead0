/**
 * Collateral-type symbols such as "ETH-A": the token ("gem") that groups
 * the collateral types and the risk-profile suffix that tells them apart.
 * Both come from JavaScript's `symbol.split('-')`, modelled here exactly.
 */
module Symbols {
  import opened Options

  const Separator: char := '-'

  /** The pieces of `s` between separators, as `s.split('-')` gives them. */
  function Split(s: string): (parts: seq<string>)
    ensures |parts| >= 1
    ensures forall i :: 0 <= i < |parts| ==> Separator !in parts[i]
  {
    if s == [] then [[]]
    else
      var rest := Split(s[1..]);
      if s[0] == Separator then [[]] + rest
      else [[s[0]] + rest[0]] + rest[1..]
  }

  /** The pieces put back together with a separator between neighbours. */
  function Join(parts: seq<string>): (s: string)
    requires |parts| >= 1
  {
    if |parts| == 1 then parts[0] else parts[0] + [Separator] + Join(parts[1..])
  }

  /** Splitting loses nothing: joining the pieces gives the symbol back. */
  lemma {:induction false} JoinSplit(s: string)
    ensures Join(Split(s)) == s
  {
    if s != [] {
      var rest := Split(s[1..]);
      JoinSplit(s[1..]);
      if s[0] == Separator {
        assert ([[]] + rest)[1..] == rest;
      } else if |rest| > 1 {
        var parts := [[s[0]] + rest[0]] + rest[1..];
        assert parts[1..] == rest[1..];
        assert Join(rest) == rest[0] + [Separator] + Join(rest[1..]);
      }
    }
  }

  lemma {:induction false} SplitWithoutSeparator(a: string)
    requires Separator !in a
    ensures Split(a) == [a]
  {
    if a != [] {
      SplitWithoutSeparator(a[1..]);
      assert a[0] != Separator;
      assert [a[0]] + a[1..] == a;
    }
  }

  lemma {:induction false} SplitAfterPiece(a: string, b: string)
    requires Separator !in a
    ensures Split(a + [Separator] + b) == [a] + Split(b)
  {
    if a == [] {
      assert a + [Separator] + b == [Separator] + b;
      assert ([Separator] + b)[1..] == b;
    } else {
      assert (a + [Separator] + b)[1..] == a[1..] + [Separator] + b;
      SplitAfterPiece(a[1..], b);
      assert [a[0]] + a[1..] == a;
    }
  }

  /** Joining pieces that hold no separator and splitting again gives the same pieces. */
  lemma {:induction false} SplitJoin(parts: seq<string>)
    requires |parts| >= 1
    requires forall i :: 0 <= i < |parts| ==> Separator !in parts[i]
    ensures Split(Join(parts)) == parts
  {
    if |parts| == 1 {
      SplitWithoutSeparator(parts[0]);
    } else {
      SplitJoin(parts[1..]);
      SplitAfterPiece(parts[0], Join(parts[1..]));
      assert [parts[0]] + parts[1..] == parts;
    }
  }

  /** A symbol has more than one piece exactly when it holds a separator. */
  lemma {:induction false} SplitHasSeveralPieces(s: string)
    ensures |Split(s)| > 1 <==> Separator in s
  {
    var parts := Split(s);
    JoinSplit(s);
    if |parts| > 1 {
      assert s == parts[0] + [Separator] + Join(parts[1..]);
      assert s[|parts[0]|] == Separator;
    } else {
      assert s == parts[0];
    }
  }

  /** The group key of a collateral type: `symbol.split('-')[0]`. */
  function GroupKey(symbol: string): (key: string)
    ensures Separator !in key
  {
    Split(symbol)[0]
  }

  /**
   * The group key is everything before the first separator, or the whole
   * symbol when there is none.
   */
  lemma KeyBeforeFirstSeparator(symbol: string)
    ensures GroupKey(symbol) <= symbol
    ensures Separator !in symbol ==> GroupKey(symbol) == symbol
    ensures Separator in symbol ==>
      |GroupKey(symbol)| < |symbol| && symbol[|GroupKey(symbol)|] == Separator
  {
    var parts := Split(symbol);
    JoinSplit(symbol);
    SplitHasSeveralPieces(symbol);
    if |parts| > 1 {
      assert symbol == parts[0] + ([Separator] + Join(parts[1..]));
    }
  }

  /**
   * The risk-profile label of a collateral type: `symbol.split('-')[1]`,
   * which is `undefined` when the symbol holds no separator.
   */
  function RiskProfile(symbol: string): (suffix: Option<string>)
    ensures suffix.Some? ==> Separator !in suffix.value
  {
    var parts := Split(symbol);
    if |parts| > 1 then Some(parts[1]) else None
  }

  /**
   * The risk profile is present exactly when the symbol holds a separator,
   * and then it is the piece between the first separator and the next one
   * (or the end of the symbol).
   */
  lemma RiskProfileAfterKey(symbol: string)
    ensures RiskProfile(symbol).None? <==> Separator !in symbol
    ensures RiskProfile(symbol).Some? ==>
      var key, suffix := GroupKey(symbol), RiskProfile(symbol).value;
      var n := |key| + 1 + |suffix|;
      && key + [Separator] + suffix <= symbol
      && (n == |symbol| || symbol[n] == Separator)
  {
    var parts := Split(symbol);
    JoinSplit(symbol);
    SplitHasSeveralPieces(symbol);
    if |parts| > 1 {
      var tail := parts[1..];
      assert Join(tail) == parts[1] || Join(tail) == parts[1] + [Separator] + Join(tail[1..]);
      assert symbol == (parts[0] + [Separator]) + Join(tail);
    }
  }

  /** A symbol with one separator, "ETH-A", is its key and its risk profile. */
  lemma {:induction false} SymbolOfKeyAndProfile(key: string, profile: string)
    requires Separator !in key && Separator !in profile
    ensures GroupKey(key + [Separator] + profile) == key
    ensures RiskProfile(key + [Separator] + profile) == Some(profile)
  {
    SplitAfterPiece(key, profile);
    SplitWithoutSeparator(profile);
  }
}
