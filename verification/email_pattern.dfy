/** The e-mail address pattern `/^[^\s@]+@[^\s@]+\.[^\s@]+$/` that the browser
    form (app.js) and the relay (server.js) both test, and its structural
    reading. */
module EmailPattern {
  import opened JsText

  /** One `[^\s@]+` run of the pattern: non-empty, without whitespace and
      without '@'. */
  predicate IsRun(x: string) {
    x != [] && forall i :: 0 <= i < |x| ==> !IsWs(x[i]) && x[i] != '@'
  }

  /** `s` reads as run '@' run '.' run, with the '@' at `k` and the '.' at `m`. */
  predicate SplitsAt(s: string, k: int, m: int) {
    && 0 <= k < m < |s|
    && s[k] == '@' && s[m] == '.'
    && IsRun(s[..k]) && IsRun(s[k + 1..m]) && IsRun(s[m + 1..])
  }

  /** `isValidEmail(s)`: the anchored pattern matches `s` exactly when `s`
      splits into run '@' run '.' run at some pair of positions. */
  predicate IsValidEmail(s: string): (r: bool)
    ensures r ==> 5 <= |s|
    ensures r ==> !IsWs(s[0]) && s[0] != '@' && !IsWs(s[|s| - 1]) && s[|s| - 1] != '@'
  {
    exists k, m | 0 <= k < m < |s| :: SplitsAt(s, k, m)
  }

  /** The part after the '@' holds a '.' that is neither its first nor its
      last character. */
  predicate HasInnerDot(d: string) {
    exists m | 0 < m < |d| - 1 :: d[m] == '.'
  }

  /** The structural reading of the pattern: no whitespace, exactly one '@',
      a non-empty local part before it and a domain with an inner '.'. */
  predicate EmailShape(s: string) {
    && NoWs(s)
    && multiset(s)['@'] == 1
    && var k := IndexOf(s, '@');
       0 < k < |s| && HasInnerDot(s[k + 1..])
  }

  /** The pattern accepts exactly the strings of the structural reading. */
  lemma {:induction false} EmailPatternIffShape(s: string)
    ensures IsValidEmail(s) <==> EmailShape(s)
  {
    if IsValidEmail(s) {
      var k, m :| 0 <= k < m < |s| && SplitsAt(s, k, m);
      SplitGivesShape(s, k, m);
    }
    if EmailShape(s) {
      ShapeGivesSplit(s);
    }
  }

  lemma NoAtCount(x: string)
    requires forall i :: 0 <= i < |x| ==> x[i] != '@'
    ensures multiset(x)['@'] == 0
  {
    assert '@' !in x;
  }

  lemma SplitGivesShape(s: string, k: int, m: int)
    requires SplitsAt(s, k, m)
    ensures EmailShape(s)
  {
    var local, mid, tld := s[..k], s[k + 1..m], s[m + 1..];
    assert s == local + [s[k]] + mid + [s[m]] + tld;
    forall i | 0 <= i < |s|
      ensures !IsWs(s[i])
    {
      if i < k {
        assert s[i] == local[i];
      } else if k < i < m {
        assert s[i] == mid[i - k - 1];
      } else if m < i {
        assert s[i] == tld[i - m - 1];
      }
    }
    NoAtCount(local);
    NoAtCount(mid);
    NoAtCount(tld);
    assert multiset(s)['@'] == 1;
    var j := IndexOf(s, '@');
    assert j == k;
    var d := s[k + 1..];
    assert d[m - k - 1] == '.';
    assert HasInnerDot(d);
  }

  lemma ShapeGivesSplit(s: string)
    requires EmailShape(s)
    ensures IsValidEmail(s)
  {
    var k := IndexOf(s, '@');
    var d := s[k + 1..];
    var m' :| 0 < m' < |d| - 1 && d[m'] == '.';
    var m := k + 1 + m';
    assert s == s[..k] + [s[k]] + d;
    assert multiset(d)['@'] == 0;
    assert '@' !in d;
    assert s[k + 1..m] == d[..m'];
    assert s[m + 1..] == d[m' + 1..];
    assert SplitsAt(s, k, m);
  }

  /** Boundary cases of the pattern. */
  lemma EmailExamples()
    ensures IsValidEmail("a@b.c")
    ensures !IsValidEmail("a@b") && !IsValidEmail("a.com") && !IsValidEmail("a@.c")
  {
    assert SplitsAt("a@b.c", 1, 3);
    EmailPatternIffShape("a@b");
    EmailPatternIffShape("a.com");
    EmailPatternIffShape("a@.c");
  }
}
