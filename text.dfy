/**
 * Whitespace trimming, as both tools use `String.prototype.trim`: the todo
 * server on a new title, the key-value webview on the key and value fields.
 * The whitespace set is a fixed ASCII set; the proofs below use nothing
 * about `IsWhitespace` beyond its being a predicate on characters.
 */
module Text {

  predicate IsWhitespace(c: char) {
    c == ' ' || c == '\t' || c == '\n' || c == '\r' || c == '\U{B}' || c == '\U{C}'
  }

  predicate AllWhitespace(s: string) {
    forall k :: 0 <= k < |s| ==> IsWhitespace(s[k])
  }

  /** A string that neither starts nor ends with whitespace: what trimming yields. */
  predicate Trimmed(s: string) {
    s == [] || (!IsWhitespace(s[0]) && !IsWhitespace(s[|s| - 1]))
  }

  /** A concatenation is all whitespace exactly when both parts are. */
  lemma AllWhitespaceSplit(a: string, b: string)
    ensures AllWhitespace(a + b) <==> AllWhitespace(a) && AllWhitespace(b)
  {
    if AllWhitespace(a + b) {
      forall k | 0 <= k < |a| ensures IsWhitespace(a[k]) {
        assert a[k] == (a + b)[k];
      }
      forall k | 0 <= k < |b| ensures IsWhitespace(b[k]) {
        assert b[k] == (a + b)[|a| + k];
      }
    }
    if AllWhitespace(a) && AllWhitespace(b) {
      forall k | 0 <= k < |a + b| ensures IsWhitespace((a + b)[k]) {
        if k < |a| { assert (a + b)[k] == a[k]; } else { assert (a + b)[k] == b[k - |a|]; }
      }
    }
  }

  /** Drops the leading whitespace: the result is the suffix of `s` after a run of whitespace. */
  function TrimStart(s: string): (r: string)
    ensures |r| <= |s| && r == s[|s| - |r|..]
    ensures AllWhitespace(s[..|s| - |r|])
    ensures r == [] || !IsWhitespace(r[0])
  {
    if |s| > 0 && IsWhitespace(s[0]) then
      var r := TrimStart(s[1..]);
      assert s[..|s| - |r|] == [s[0]] + s[1..][..|s[1..]| - |r|];
      AllWhitespaceSplit([s[0]], s[1..][..|s[1..]| - |r|]);
      r
    else s
  }

  /** Drops the trailing whitespace: the result is the prefix of `s` before a run of whitespace. */
  function TrimEnd(s: string): (r: string)
    ensures |r| <= |s| && r == s[..|r|]
    ensures AllWhitespace(s[|r|..])
    ensures r == [] || !IsWhitespace(r[|r| - 1])
  {
    if |s| > 0 && IsWhitespace(s[|s| - 1]) then
      var front := s[..|s| - 1];
      var r := TrimEnd(front);
      assert s[|r|..] == front[|r|..] + [s[|s| - 1]];
      AllWhitespaceSplit(front[|r|..], [s[|s| - 1]]);
      r
    else s
  }

  lemma TrimStartEmpty(s: string)
    ensures TrimStart(s) == [] <==> AllWhitespace(s)
  {
    var r := TrimStart(s);
    assert s == s[..|s| - |r|] + r;
    AllWhitespaceSplit(s[..|s| - |r|], r);
    assert AllWhitespace(r) ==> r == [];
  }

  lemma TrimEndEmpty(s: string)
    ensures TrimEnd(s) == [] <==> AllWhitespace(s)
  {
    var r := TrimEnd(s);
    assert s == r + s[|r|..];
    AllWhitespaceSplit(r, s[|r|..]);
    assert AllWhitespace(r) ==> r == [];
  }

  /** `s.trim()`: empty exactly when `s` is all whitespace, otherwise free of whitespace at both ends. */
  function Trim(s: string): (r: string)
    ensures |r| <= |s|
    ensures r == [] <==> AllWhitespace(s)
    ensures Trimmed(r)
  {
    var t := TrimStart(s);
    var r := TrimEnd(t);
    TrimStartEmpty(s);
    TrimEndEmpty(t);
    assert r != [] ==> r[0] == t[0];
    r
  }

  lemma {:induction false} TrimStartPast(lead: string, rest: string)
    requires AllWhitespace(lead)
    requires rest == [] || !IsWhitespace(rest[0])
    ensures TrimStart(lead + rest) == rest
  {
    if lead != [] {
      assert (lead + rest)[1..] == lead[1..] + rest;
      TrimStartPast(lead[1..], rest);
    }
  }

  lemma {:induction false} TrimEndPast(rest: string, trail: string)
    requires AllWhitespace(trail)
    requires rest == [] || !IsWhitespace(rest[|rest| - 1])
    ensures TrimEnd(rest + trail) == rest
  {
    if trail != [] {
      var n := |trail| - 1;
      assert (rest + trail)[..|rest + trail| - 1] == rest + trail[..n];
      TrimEndPast(rest, trail[..n]);
    }
  }

  /**
   * Trimming is determined by what it keeps: whitespace around a string that is
   * itself `Trimmed` is exactly what `Trim` removes.
   */
  lemma {:induction false} TrimCharacterised(lead: string, core: string, trail: string)
    requires AllWhitespace(lead) && AllWhitespace(trail) && Trimmed(core)
    ensures Trim(lead + core + trail) == core
  {
    if core == [] {
      assert AllWhitespace(lead + core + trail) by {
        forall k | 0 <= k < |lead + core + trail| ensures IsWhitespace((lead + core + trail)[k]) {
          if k >= |lead| { assert (lead + core + trail)[k] == trail[k - |lead|]; }
        }
      }
    } else {
      assert lead + core + trail == lead + (core + trail);
      TrimStartPast(lead, core + trail);
      TrimEndPast(core, trail);
    }
  }

  /** Trimming twice is trimming once. */
  lemma TrimIdempotent(s: string)
    ensures Trim(Trim(s)) == Trim(s)
  {
    var r := Trim(s);
    assert [] + r + [] == r;
    TrimCharacterised([], r, []);
  }
}
