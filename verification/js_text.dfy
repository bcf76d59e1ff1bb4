/** JavaScript string semantics shared by the browser script and the mail relay:
    the whitespace class that both `\s` in a regular expression and
    `String.prototype.trim` use, trimming, truthiness of a form field,
    `Array.prototype.join` and a first-occurrence search. */
module JsText {

  /** A form or request-body field as the scripts see it: missing (`null` /
      `undefined`) or a string. */
  datatype Field = Null | Str(value: string)

  /** JavaScript truthiness of a field: `!x` holds exactly for a missing field
      and for the empty string. */
  predicate Present(f: Field) {
    f.Str? && f.value != ""
  }

  /** ECMAScript WhiteSpace and LineTerminator code points. The regular
      expression class `\s` and `trim` both use exactly this set. */
  predicate IsWs(c: char) {
    || c == '\t' || c == '\n' || c == '\U{B}' || c == '\U{C}' || c == '\r'
    || c == ' ' || c == '\U{A0}' || c == '\U{1680}'
    || ('\U{2000}' <= c <= '\U{200A}')
    || c == '\U{2028}' || c == '\U{2029}' || c == '\U{202F}' || c == '\U{205F}'
    || c == '\U{3000}' || c == '\U{FEFF}'
  }

  predicate AllWs(s: string) {
    forall i :: 0 <= i < |s| ==> IsWs(s[i])
  }

  predicate NoWs(s: string) {
    forall i :: 0 <= i < |s| ==> !IsWs(s[i])
  }

  /** Number of whitespace characters `s` starts with. */
  function LeadingWs(s: string): (n: nat)
    ensures n <= |s|
    ensures forall i :: 0 <= i < n ==> IsWs(s[i])
    ensures n < |s| ==> !IsWs(s[n])
  {
    if s != [] && IsWs(s[0]) then 1 + LeadingWs(s[1..]) else 0
  }

  /** Number of whitespace characters `s` ends with. */
  function TrailingWs(s: string): (n: nat)
    ensures n <= |s|
    ensures forall i :: |s| - n <= i < |s| ==> IsWs(s[i])
    ensures n < |s| ==> !IsWs(s[|s| - 1 - n])
  {
    if s != [] && IsWs(s[|s| - 1]) then 1 + TrailingWs(s[..|s| - 1]) else 0
  }

  /** `r` is the slice `s[i..i + |r|]` with only whitespace around it. */
  predicate TrimmedAt(s: string, i: int, r: string) {
    0 <= i && i + |r| <= |s| && r == s[i..i + |r|] && AllWs(s[..i]) && AllWs(s[i + |r|..])
  }

  /** `String.prototype.trim`: the slice of `s` that starts after its leading
      whitespace, has only whitespace after it, and neither starts nor ends
      with whitespace. It is empty exactly when `s` is all whitespace. */
  function Trim(s: string): (r: string)
    ensures TrimmedAt(s, LeadingWs(s), r)
    ensures r != [] ==> !IsWs(r[0]) && !IsWs(r[|r| - 1])
    ensures r == [] <==> AllWs(s)
  {
    var lead := LeadingWs(s);
    if lead == |s| then
      assert s[..lead] == s;
      []
    else
      var trail := TrailingWs(s);
      assert lead < |s| - trail;
      s[lead..|s| - trail]
  }

  lemma AllWsConcat(a: string, b: string)
    requires AllWs(a) && AllWs(b)
    ensures AllWs(a + b)
  {
  }

  /** The leading-whitespace count is the one `n` with whitespace before it
      and none at it. */
  lemma LeadingWsIs(s: string, n: nat)
    requires n <= |s|
    requires forall i :: 0 <= i < n ==> IsWs(s[i])
    requires n < |s| ==> !IsWs(s[n])
    ensures LeadingWs(s) == n
  {
  }

  lemma TrailingWsIs(s: string, n: nat)
    requires n <= |s|
    requires forall i :: |s| - n <= i < |s| ==> IsWs(s[i])
    requires n < |s| ==> !IsWs(s[|s| - 1 - n])
    ensures TrailingWs(s) == n
  {
  }

  /** A string that neither starts nor ends with whitespace is its own trim. */
  lemma TrimUnpadded(s: string)
    requires s != [] ==> !IsWs(s[0]) && !IsWs(s[|s| - 1])
    ensures Trim(s) == s
  {
    LeadingWsIs(s, 0);
    if s != [] {
      TrailingWsIs(s, 0);
    }
  }

  /** Trim removes exactly the whitespace around a string that neither
      starts nor ends with whitespace, however much there is. */
  lemma TrimSurrounded(w1: string, x: string, w2: string)
    requires AllWs(w1) && AllWs(w2)
    requires x != [] ==> !IsWs(x[0]) && !IsWs(x[|x| - 1])
    ensures Trim(w1 + x + w2) == x
  {
    var s := w1 + x + w2;
    if x == [] {
      assert s == w1 + w2;
      AllWsConcat(w1, w2);
    } else {
      assert s[|w1|] == x[0];
      LeadingWsIs(s, |w1|);
      assert s[|s| - 1 - |w2|] == x[|x| - 1];
      TrailingWsIs(s, |w2|);
      assert s[|w1|..|s| - |w2|] == x;
    }
  }

  /** Trimming twice is trimming once. */
  lemma {:induction false} TrimIdempotent(s: string)
    ensures Trim(Trim(s)) == Trim(s)
  {
    TrimUnpadded(Trim(s));
  }

  /** `Array.prototype.join`: no parts give "", one part stands alone, and
      otherwise the text starts with the first part and ends with the last. */
  function Join(parts: seq<string>, sep: string): (r: string)
    ensures parts == [] ==> r == ""
    ensures |parts| == 1 ==> r == parts[0]
    ensures |parts| >= 1 ==> parts[0] <= r
    ensures |parts| >= 1 ==> |parts[|parts| - 1]| <= |r| && r[|r| - |parts[|parts| - 1]|..] == parts[|parts| - 1]
  {
    if |parts| == 0 then ""
    else if |parts| == 1 then parts[0]
    else parts[0] + sep + Join(parts[1..], sep)
  }

  /** Joining one more part appends the separator and that part: the text
      builds up left to right. */
  lemma {:induction false} JoinSnoc(parts: seq<string>, p: string, sep: string)
    requires parts != []
    ensures Join(parts + [p], sep) == Join(parts, sep) + sep + p
  {
    var q := parts + [p];
    assert q[0] == parts[0];
    if |parts| == 1 {
      assert q[1..] == [p];
      assert Join(q, sep) == parts[0] + sep + Join([p], sep);
    } else {
      assert q[1..] == parts[1..] + [p];
      JoinSnoc(parts[1..], p, sep);
      assert Join(q, sep) == parts[0] + sep + (Join(parts[1..], sep) + sep + p);
      assert Join(parts, sep) == parts[0] + sep + Join(parts[1..], sep);
    }
  }

  lemma JoinThree(a: string, b: string, c: string, sep: string)
    ensures Join([a, b, c], sep) == a + sep + b + sep + c
  {
    var ab := Join([a, b], sep);
    assert ab == a + sep + b by {
      assert [a] + [b] == [a, b];
      JoinSnoc([a], b, sep);
    }
    assert [a, b] + [c] == [a, b, c];
    JoinSnoc([a, b], c, sep);
  }

  /** Position of the first `c` in `s`, or `|s|` when there is none. */
  function IndexOf(s: string, c: char): (k: nat)
    ensures k <= |s|
    ensures k < |s| ==> s[k] == c
    ensures c !in s[..k]
  {
    if s == [] then 0
    else if s[0] == c then 0
    else
      var k := 1 + IndexOf(s[1..], c);
      assert s[..k] == [s[0]] + s[1..][..k - 1];
      k
  }
}

/** The contact-form submission: the one record that both the browser form
    and the relay's request body carry. */
module ContactData {
  import opened JsText

  datatype Submission = Submission(name: Field, email: Field, subject: Field, message: Field)
}
