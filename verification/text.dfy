/**
 * The string operations the scanner applies to venue symbols and chain
 * lists: Python's `str.replace` (replace every occurrence, scanning left
 * to right), `str.upper` on ASCII letters, `", ".join` and
 * `str.split('/')[0]`.
 */
module Text {

  /** `s.replace(pat, rep)`: every non-overlapping occurrence of `pat`,
      found left to right, is replaced by `rep`. */
  function ReplaceAll(s: string, pat: string, rep: string): (r: string)
    requires |pat| > 0
    ensures |rep| >= |pat| ==> |r| >= |s|
    ensures |rep| == |pat| ==> |r| == |s|
    ensures s == [] ==> r == []
    decreases |s|
  {
    if |s| < |pat| then s
    else if s[..|pat|] == pat then rep + ReplaceAll(s[|pat|..], pat, rep)
    else [s[0]] + ReplaceAll(s[1..], pat, rep)
  }

  /** Every character of the result comes from the input or from the
      replacement. */
  lemma {:induction false} ReplaceAllChars(s: string, pat: string, rep: string)
    requires |pat| > 0
    ensures forall c :: c in ReplaceAll(s, pat, rep) ==> c in s || c in rep
    decreases |s|
  {
    if |s| >= |pat| {
      if s[..|pat|] == pat {
        ReplaceAllChars(s[|pat|..], pat, rep);
        assert forall c :: c in s[|pat|..] ==> c in s;
      } else {
        ReplaceAllChars(s[1..], pat, rep);
        assert forall c :: c in s[1..] ==> c in s;
      }
    }
  }

  /** `pat` occurs in `s` starting at position `i`. */
  predicate MatchesAt(s: string, pat: string, i: nat)
  {
    i + |pat| <= |s| && s[i..i + |pat|] == pat
  }

  /** `pat` occurs in `s` at some position. */
  predicate Occurs(pat: string, s: string)
  {
    exists i: nat | i <= |s| :: MatchesAt(s, pat, i)
  }

  /** Without an occurrence of the pattern, `replace` returns its input. */
  lemma {:induction false} ReplaceWithoutOccurrence(s: string, pat: string, rep: string)
    requires |pat| > 0
    requires !Occurs(pat, s)
    ensures ReplaceAll(s, pat, rep) == s
    decreases |s|
  {
    if |s| >= |pat| {
      assert !MatchesAt(s, pat, 0);
      assert !Occurs(pat, s[1..]) by {
        forall i: nat | i <= |s[1..]| && MatchesAt(s[1..], pat, i)
          ensures false
        {
          assert s[1..][i..i + |pat|] == s[i + 1..i + 1 + |pat|];
          assert MatchesAt(s, pat, i + 1);
        }
      }
      ReplaceWithoutOccurrence(s[1..], pat, rep);
      assert s == [s[0]] + s[1..];
    }
  }

  /** Replacing one character by another rewrites exactly the positions
      holding it and leaves every other character in place. */
  lemma {:induction false} ReplaceCharPointwise(s: string, a: char, b: char)
    ensures |ReplaceAll(s, [a], [b])| == |s|
    ensures forall i :: 0 <= i < |s| ==>
      ReplaceAll(s, [a], [b])[i] == (if s[i] == a then b else s[i])
    decreases |s|
  {
    if |s| > 0 {
      ReplaceCharPointwise(s[1..], a, b);
      var r := ReplaceAll(s, [a], [b]);
      var t := ReplaceAll(s[1..], [a], [b]);
      if s[..1] == [a] {
        assert r == [b] + t;
      } else {
        assert r == [s[0]] + t;
      }
      forall i | 0 < i < |s|
        ensures r[i] == (if s[i] == a then b else s[i])
      {
        assert r[i] == t[i - 1] && s[i] == s[1..][i - 1];
      }
    }
  }

  /** The ticker-symbol rewrite of ByBit, Huobi, Bitget and MEXC. */
  function SlashBeforeUsdt(s: string): (r: string)
  {
    ReplaceAll(s, "USDT", "/USDT")
  }

  /** Undoing the rewrite with `replace("/USDT", "USDT")` recovers the
      venue's symbol: every "USDT" gained exactly one '/' in front. */
  lemma {:induction false} SlashBeforeUsdtRoundTrip(s: string)
    ensures ReplaceAll(SlashBeforeUsdt(s), "/USDT", "USDT") == s
    decreases |s|
  {
    var t := SlashBeforeUsdt(s);
    if |s| < 4 {
      assert t == s;
    } else if s[..4] == "USDT" {
      var a := SlashBeforeUsdt(s[4..]);
      assert t == "/USDT" + a;
      assert t[..5] == "/USDT" && t[5..] == a;
      SlashBeforeUsdtRoundTrip(s[4..]);
      assert s == "USDT" + s[4..];
    } else {
      var a := SlashBeforeUsdt(s[1..]);
      assert t == [s[0]] + a;
      assert t[1..] == a;
      SlashBeforeUsdtRoundTrip(s[1..]);
      if |t| < 5 {
        assert |s[1..]| < 4;
        assert a == s[1..];
        assert t == s;
      } else {
        assert t[..5] != "/USDT" by {
          assert t[0] == s[0];
          if s[0] == '/' {
            if |a| >= 4 {
              NoLeadingUsdt(s[1..]);
              assert t[1..5] == a[..4];
            }
          }
        }
        assert s == [s[0]] + s[1..];
      }
    }
  }

  /** The rewrite puts a '/' before an occurrence of "USDT" and handles the
      text on either side of it on its own: "USDT" has no proper prefix that
      is also a suffix, so no match can straddle the boundary. */
  lemma {:induction false} SlashAround(a: string, b: string)
    ensures SlashBeforeUsdt(a + "USDT" + b) == SlashBeforeUsdt(a) + "/USDT" + SlashBeforeUsdt(b)
    decreases |a|
  {
    var s := a + "USDT" + b;
    if |a| == 0 {
      assert s == "USDT" + b;
      SlashAtMatch(s);
      assert s[4..] == b;
    } else if |a| >= 4 && a[..4] == "USDT" {
      assert s[..4] == "USDT";
      SlashAtMatch(s);
      SlashAtMatch(a);
      assert s[4..] == a[4..] + "USDT" + b;
      SlashAround(a[4..], b);
      Regroup("/USDT", SlashBeforeUsdt(a[4..]), "/USDT", SlashBeforeUsdt(b));
    } else {
      NoStraddle(a, b);
      SlashAtOther(s);
      SlashAtOther(a);
      assert s[1..] == a[1..] + "USDT" + b;
      SlashAround(a[1..], b);
      Regroup([a[0]], SlashBeforeUsdt(a[1..]), "/USDT", SlashBeforeUsdt(b));
    }
  }

  /** Concatenation regroups freely. */
  lemma Regroup(p: string, x: string, q: string, y: string)
    ensures p + (x + q + y) == (p + x) + q + y
  {
  }

  /** A match at the front becomes "/USDT". */
  lemma SlashAtMatch(s: string)
    requires |s| >= 4 && s[..4] == "USDT"
    ensures SlashBeforeUsdt(s) == "/USDT" + SlashBeforeUsdt(s[4..])
  {
  }

  /** Any other first character is copied. */
  lemma SlashAtOther(s: string)
    requires |s| > 0 && !(|s| >= 4 && s[..4] == "USDT")
    ensures SlashBeforeUsdt(s) == [s[0]] + SlashBeforeUsdt(s[1..])
  {
  }

  /** No match begins inside `a` and ends inside the "USDT" that follows it. */
  lemma NoStraddle(a: string, b: string)
    requires |a| > 0 && !(|a| >= 4 && a[..4] == "USDT")
    ensures !((a + "USDT" + b)[..4] == "USDT")
  {
    var s := a + "USDT" + b;
    if |a| < 4 {
      assert s[|a|] == 'U' && "USDT"[|a|] != 'U';
    } else {
      assert s[..4] == a[..4];
    }
  }

  /** The rewrite of a symbol quoted in USDT: a base without "USDT" keeps
      its spelling and gains "/USDT". */
  lemma SlashBeforeUsdtQuote(base: string)
    requires !Occurs("USDT", base)
    ensures SlashBeforeUsdt(base + "USDT") == base + "/USDT"
  {
    SlashAround(base, "");
    ReplaceWithoutOccurrence(base, "USDT", "/USDT");
    assert base + "USDT" + "" == base + "USDT";
  }

  /** As long as the output shows no '/', the rewrite has copied its
      input verbatim. */
  lemma {:induction false} SlashFreePrefixIsCopied(t: string, k: nat)
    requires k <= |SlashBeforeUsdt(t)|
    requires forall i :: 0 <= i < k ==> SlashBeforeUsdt(t)[i] != '/'
    ensures k <= |t| && SlashBeforeUsdt(t)[..k] == t[..k]
    decreases |t|
  {
    var r := SlashBeforeUsdt(t);
    if |t| < 4 || k == 0 {
    } else if t[..4] == "USDT" {
      MatchStartsWithSlash(t);
      assert false;
    } else {
      var r' := SlashBeforeUsdt(t[1..]);
      assert r == [t[0]] + r';
      forall i | 0 <= i < k - 1
        ensures r'[i] != '/'
      {
        assert r'[i] == r[i + 1];
      }
      SlashFreePrefixIsCopied(t[1..], k - 1);
      assert r[..k] == [t[0]] + r'[..k - 1];
      assert t[..k] == [t[0]] + t[1..][..k - 1];
    }
  }

  /** Where the input starts with "USDT", the output starts with '/'. */
  lemma MatchStartsWithSlash(t: string)
    requires |t| >= 4 && t[..4] == "USDT"
    ensures SlashBeforeUsdt(t)[0] == '/'
  {
  }

  /** A rewritten symbol never begins with a bare "USDT". */
  lemma NoLeadingUsdt(t: string)
    requires |SlashBeforeUsdt(t)| >= 4
    ensures SlashBeforeUsdt(t)[..4] != "USDT"
  {
    var r := SlashBeforeUsdt(t);
    if r[..4] == "USDT" {
      assert forall i :: 0 <= i < 4 ==> r[i] == "USDT"[i];
      SlashFreePrefixIsCopied(t, 4);
      assert false;
    }
  }

  /** The "USDT" -> "/USDT" rewrite is injective: two venue symbols that
      differ stay different after normalisation. */
  lemma {:induction false} SlashBeforeUsdtInjective(s1: string, s2: string)
    requires SlashBeforeUsdt(s1) == SlashBeforeUsdt(s2)
    ensures s1 == s2
    decreases |s1| + |s2|
  {
    var r := SlashBeforeUsdt(s1);
    var m1 := |s1| >= 4 && s1[..4] == "USDT";
    var m2 := |s2| >= 4 && s2[..4] == "USDT";
    if |s1| < 4 && |s2| < 4 {
    } else if m1 && m2 {
      var a, b := SlashBeforeUsdt(s1[4..]), SlashBeforeUsdt(s2[4..]);
      assert r == "/USDT" + a && r == "/USDT" + b;
      assert a == r[5..] == b;
      SlashBeforeUsdtInjective(s1[4..], s2[4..]);
      assert s1 == s1[..4] + s1[4..] && s2 == s2[..4] + s2[4..];
    } else if m1 {
      MatchedThenUnmatched(s1, s2);
    } else if m2 {
      MatchedThenUnmatched(s2, s1);
    } else if |s1| >= 4 && |s2| >= 4 {
      var a, b := SlashBeforeUsdt(s1[1..]), SlashBeforeUsdt(s2[1..]);
      assert r == [s1[0]] + a && r == [s2[0]] + b;
      assert a == r[1..] == b;
      SlashBeforeUsdtInjective(s1[1..], s2[1..]);
      assert s1 == [s1[0]] + s1[1..] && s2 == [s2[0]] + s2[1..];
    }
  }

  /** A symbol starting with "USDT" and one not starting with it never
      normalise to the same key. */
  lemma MatchedThenUnmatched(s1: string, s2: string)
    requires |s1| >= 4 && s1[..4] == "USDT"
    requires !(|s2| >= 4 && s2[..4] == "USDT")
    ensures SlashBeforeUsdt(s1) != SlashBeforeUsdt(s2)
  {
    var r1 := SlashBeforeUsdt(s1);
    assert r1 == "/USDT" + SlashBeforeUsdt(s1[4..]);
    if |s2| >= 4 && r1 == SlashBeforeUsdt(s2) {
      var b := SlashBeforeUsdt(s2[1..]);
      assert r1 == [s2[0]] + b;
      assert b[..4] == r1[1..5] == "USDT";
      NoLeadingUsdt(s2[1..]);
    }
  }

  /** Upper-cases one ASCII letter; every other character is unchanged. */
  function UpperChar(c: char): char
  {
    if 'a' <= c <= 'z' then (c as int - 'a' as int + 'A' as int) as char else c
  }

  /** `s.upper()` restricted to ASCII letters. */
  function AsciiUpper(s: string): (r: string)
    ensures |r| == |s|
    ensures forall i :: 0 <= i < |s| ==> r[i] == UpperChar(s[i])
  {
    seq(|s|, i requires 0 <= i < |s| => UpperChar(s[i]))
  }

  /** Upper-casing twice is upper-casing once. */
  lemma AsciiUpperIdempotent(s: string)
    ensures AsciiUpper(AsciiUpper(s)) == AsciiUpper(s)
  {
    var u := AsciiUpper(s);
    assert forall i :: 0 <= i < |s| ==> UpperChar(u[i]) == u[i];
  }

  /** The summed length of the items. */
  function TotalLength(xs: seq<string>): nat
  {
    if |xs| == 0 then 0 else |xs[0]| + TotalLength(xs[1..])
  }

  /** `sep.join(xs)`: the items in order, one separator between each two,
      so the first item is a prefix and the length is the items' total
      plus one separator per gap. */
  function Join(xs: seq<string>, sep: string): (r: string)
    ensures |xs| > 0 ==> |r| == TotalLength(xs) + (|xs| - 1) * |sep|
    ensures |xs| > 0 ==> r[..|xs[0]|] == xs[0]
    ensures |xs| == 0 ==> r == ""
  {
    if |xs| == 0 then ""
    else if |xs| == 1 then xs[0]
    else xs[0] + sep + Join(xs[1..], sep)
  }

  /** Appending an item appends one separator and the item, so the joined
      text is built up item by item in list order. */
  lemma {:induction false} JoinSnoc(xs: seq<string>, x: string, sep: string)
    requires |xs| > 0
    ensures Join(xs + [x], sep) == Join(xs, sep) + sep + x
    decreases |xs|
  {
    var ys := xs + [x];
    if |xs| == 1 {
      assert ys[1..] == [x];
    } else {
      assert ys[1..] == xs[1..] + [x];
      JoinSnoc(xs[1..], x, sep);
    }
  }

  /** Joining with ", " yields the empty string exactly when there is
      nothing to join or the only item is itself empty. */
  lemma JoinEmptyIff(xs: seq<string>)
    ensures Join(xs, ", ") == "" <==> |xs| == 0 || (|xs| == 1 && xs[0] == "")
  {
    if |xs| >= 2 {
      assert |Join(xs, ", ")| >= 2;
    }
  }

  /** `s.split(c)[0]`: the text before the first `c`, or all of `s`. */
  function BeforeFirst(s: string, c: char): (r: string)
    ensures |r| <= |s| && r == s[..|r|]
    ensures c !in r
    ensures |r| < |s| ==> s[|r|] == c
  {
    if |s| == 0 then ""
    else if s[0] == c then ""
    else [s[0]] + BeforeFirst(s[1..], c)
  }

  /** Splitting `base + c + rest` at the first `c` recovers `base` when
      `base` has no `c` of its own. */
  lemma {:induction false} BeforeFirstOfJoined(base: string, c: char, rest: string)
    requires c !in base
    ensures BeforeFirst(base + [c] + rest, c) == base
    decreases |base|
  {
    if |base| > 0 {
      assert (base + [c] + rest)[1..] == base[1..] + [c] + rest;
      BeforeFirstOfJoined(base[1..], c, rest);
    }
  }
}
