/** String trimming, as used by the page for every text field it validates
    (`String.prototype.trim`), over a fixed set of whitespace characters. */
module Text {

  /** The whitespace characters the model strips: space, tab, line feed,
      vertical tab, form feed, carriage return, no-break space and the
      byte-order mark. */
  predicate IsSpace(c: char) {
    c == ' ' || c == '\t' || c == '\n' || c == '\U{000B}' || c == '\U{000C}' ||
    c == '\r' || c == '\U{00A0}' || c == '\U{FEFF}'
  }

  /** Every character of s is whitespace (the empty string included). */
  predicate Blank(s: string) {
    forall i :: 0 <= i < |s| ==> IsSpace(s[i])
  }

  /** s neither starts nor ends with whitespace. */
  predicate Trimmed(s: string) {
    s == [] || (!IsSpace(s[0]) && !IsSpace(s[|s| - 1]))
  }

  /** Drops leading whitespace: the result is a suffix of s, and what was
      dropped is blank. */
  function TrimStart(s: string): (r: string)
    ensures |r| <= |s| && r == s[|s| - |r|..]
    ensures Blank(s[..|s| - |r|])
    ensures r == [] || !IsSpace(r[0])
  {
    if |s| > 0 && IsSpace(s[0]) then
      var tail := s[1..];
      var r := TrimStart(tail);
      assert s[..|s| - |r|] == [s[0]] + tail[..|tail| - |r|];
      BlankConcat([s[0]], tail[..|tail| - |r|]);
      r
    else
      s
  }

  /** Drops trailing whitespace: the result is a prefix of s, and what was
      dropped is blank. */
  function TrimEnd(s: string): (r: string)
    ensures |r| <= |s| && r == s[..|r|]
    ensures Blank(s[|r|..])
    ensures r == [] || !IsSpace(r[|r| - 1])
  {
    if |s| > 0 && IsSpace(s[|s| - 1]) then
      var init := s[..|s| - 1];
      var r := TrimEnd(init);
      assert s[|r|..] == init[|r|..] + [s[|s| - 1]];
      BlankConcat(init[|r|..], [s[|s| - 1]]);
      r
    else
      s
  }

  lemma BlankConcat(a: string, b: string)
    requires Blank(a) && Blank(b)
    ensures Blank(a + b)
  {
    forall i | 0 <= i < |a + b| ensures IsSpace((a + b)[i]) {
      if i < |a| { assert (a + b)[i] == a[i]; } else { assert (a + b)[i] == b[i - |a|]; }
    }
  }

  /** `s.trim()`. */
  function Trim(s: string): (r: string)
    ensures Trimmed(r)
    ensures |r| <= |s|
  {
    var t := TrimStart(s);
    var r := TrimEnd(t);
    assert r == [] || r[0] == t[0];
    r
  }

  lemma {:induction false} TrimStartBlank(s: string)
    requires Blank(s)
    ensures TrimStart(s) == []
  {
    if |s| > 0 {
      assert Blank(s[1..]) by {
        forall i | 0 <= i < |s| - 1 ensures IsSpace(s[1..][i]) { assert s[1..][i] == s[i + 1]; }
      }
      TrimStartBlank(s[1..]);
    }
  }

  lemma {:induction false} TrimStartPrefix(pre: string, rest: string)
    requires Blank(pre)
    requires rest == [] || !IsSpace(rest[0])
    ensures TrimStart(pre + rest) == rest
  {
    if |pre| == 0 {
      assert pre + rest == rest;
    } else {
      assert (pre + rest)[1..] == pre[1..] + rest;
      assert Blank(pre[1..]) by {
        forall i | 0 <= i < |pre| - 1 ensures IsSpace(pre[1..][i]) { assert pre[1..][i] == pre[i + 1]; }
      }
      TrimStartPrefix(pre[1..], rest);
    }
  }

  lemma {:induction false} TrimEndSuffix(rest: string, post: string)
    requires Blank(post)
    requires rest == [] || !IsSpace(rest[|rest| - 1])
    ensures TrimEnd(rest + post) == rest
  {
    if |post| == 0 {
      assert rest + post == rest;
    } else {
      var n := |rest + post|;
      assert (rest + post)[n - 1] == post[|post| - 1];
      assert (rest + post)[..n - 1] == rest + post[..|post| - 1];
      var init := post[..|post| - 1];
      assert Blank(init) by {
        forall i | 0 <= i < |init| ensures IsSpace(init[i]) { assert init[i] == post[i]; }
      }
      TrimEndSuffix(rest, init);
    }
  }

  /** Trim strips exactly the blank edges it is given: whatever whitespace
      surrounds a trimmed string, trimming recovers that string. */
  lemma TrimUnique(pre: string, mid: string, post: string)
    requires Blank(pre) && Blank(post) && Trimmed(mid)
    ensures Trim(pre + mid + post) == mid
  {
    var s := pre + mid + post;
    if mid == [] {
      assert s == pre + post;
      BlankConcat(pre, post);
      TrimStartBlank(s);
      assert TrimEnd([]) == [];
    } else {
      assert s == pre + (mid + post);
      TrimStartPrefix(pre, mid + post);
      assert (mid + post)[0] == mid[0];
      TrimEndSuffix(mid, post);
    }
  }

  /** Conversely, every string is its trim surrounded by blank edges. */
  lemma TrimSplit(s: string) returns (pre: string, post: string)
    ensures Blank(pre) && Blank(post)
    ensures s == pre + Trim(s) + post
  {
    var t := TrimStart(s);
    var r := TrimEnd(t);
    assert r == Trim(s);
    pre, post := s[..|s| - |t|], t[|r|..];
    SplitAt(s, t, pre);
    SplitAt2(t, r, post);
    Associate(pre, r, post);
  }

  // The three sequence identities below are stated as lemmas of their own
  // so that each is proved apart from the trimming facts in scope above.

  lemma Associate(a: string, b: string, c: string)
    ensures a + b + c == a + (b + c)
  {
  }

  lemma SplitAt(s: string, t: string, pre: string)
    requires |t| <= |s| && t == s[|s| - |t|..] && pre == s[..|s| - |t|]
    ensures s == pre + t
  {
  }

  lemma SplitAt2(t: string, r: string, post: string)
    requires |r| <= |t| && r == t[..|r|] && post == t[|r|..]
    ensures t == r + post
  {
  }

  /** Trimming twice is trimming once. */
  lemma TrimIdempotent(s: string)
    ensures Trim(Trim(s)) == Trim(s)
  {
    TrimUnique([], Trim(s), []);
    assert [] + Trim(s) + [] == Trim(s);
  }

  /** A string trims to nothing exactly when it is all whitespace: this is
      the `!x.trim()` emptiness test the page relies on. */
  lemma TrimEmptyIffBlank(s: string)
    ensures Trim(s) == [] <==> Blank(s)
  {
    if Blank(s) {
      TrimUnique(s, [], []);
      assert s + [] + [] == s;
    } else {
    }
  }
}
