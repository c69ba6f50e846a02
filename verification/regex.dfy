/** grep.c's matcher, against the language of regular expressions built from letters, '.', concatenation
    and star. */
module Regex {
  // ----- the language -----

  datatype Regex = Epsilon | Letter(c: char) | Dot | Concat(left: Regex, right: Regex) | Star(body: Regex)

  /** w is in the language of r. */
  ghost predicate InLanguage(r: Regex, w: string)
    decreases r, |w|
  {
    match r
    case Epsilon => w == ""
    case Letter(c) => w == [c]
    case Dot => |w| == 1
    case Concat(left, right) => exists k: nat :: k <= |w| && InLanguage(left, w[..k]) && InLanguage(right, w[k..])
    case Star(body) => w == "" || exists k: nat :: 0 < k <= |w| && InLanguage(body, w[..k]) && InLanguage(r, w[k..])
  }

  /** A pattern after any leading ^: its regular expression, and whether a final $ ties it to the end. */
  datatype Pattern = Pattern(body: Regex, end: bool)

  function Single(c: char): Regex {
    if c == '.' then Dot else Letter(c)
  }

  /** How a pattern is read: a star applies to the character before it, whatever that is; $ is special
      only at the end. */
  function Read(re: string): Pattern {
    if re == "" then Pattern(Epsilon, false)
    else if |re| >= 2 && re[1] == '*' then
      var p := Read(re[2..]);
      p.(body := Concat(Star(Single(re[0])), p.body))
    else if re == "$" then Pattern(Epsilon, true)
    else
      var p := Read(re[1..]);
      p.(body := Concat(Single(re[0]), p.body))
  }

  /** A beginning of text is in p's language; with $, all of it. */
  ghost predicate Begins(p: Pattern, text: string) {
    exists n: nat :: n <= |text| && InLanguage(p.body, text[..n]) && (p.end ==> n == |text|)
  }

  /** A substring of text matches re, at the beginning if re starts with ^. */
  ghost predicate Matches(re: string, text: string) {
    if re != "" && re[0] == '^' then Begins(Read(re[1..]), text)
    else exists from: nat :: from <= |text| && Begins(Read(re), text[from..])
  }

  // ----- what the matcher tests, in terms of the language -----

  predicate Fits(c: char, t: char) {
    c == '.' || c == t
  }

  ghost predicate AllFit(c: char, w: string) {
    forall i :: 0 <= i < |w| ==> Fits(c, w[i])
  }

  lemma SingleLanguage(c: char, w: string)
    ensures InLanguage(Single(c), w) <==> |w| == 1 && Fits(c, w[0])
  {
  }

  /** The language of c* is the words all of whose characters fit c. */
  lemma {:induction false} StarLanguage(c: char, w: string)
    ensures InLanguage(Star(Single(c)), w) <==> AllFit(c, w)
    decreases |w|
  {
    if w != "" {
      forall k: nat | 0 < k <= |w|
        ensures InLanguage(Single(c), w[..k]) && InLanguage(Star(Single(c)), w[k..]) <==>
                k == 1 && Fits(c, w[0]) && AllFit(c, w[1..])
      {
        SingleLanguage(c, w[..k]);
        StarLanguage(c, w[k..]);
      }
      assert AllFit(c, w) <==> Fits(c, w[0]) && AllFit(c, w[1..]) by {
        assert forall i :: 0 < i < |w| ==> w[i] == w[1..][i - 1];
      }
      assert InLanguage(Star(Single(c)), w) <==> InLanguage(Single(c), w[..1]) && InLanguage(Star(Single(c)), w[1..]);
    }
  }

  /** A beginning of text in the language of left then right, as a place where left ends. */
  lemma ConcatBegins(left: Regex, p: Pattern, text: string)
    ensures Begins(p.(body := Concat(left, p.body)), text) <==>
            exists k: nat :: k <= |text| && InLanguage(left, text[..k]) && Begins(p, text[k..])
  {
    var q := p.(body := Concat(left, p.body));
    if Begins(q, text) {
      var n: nat :| n <= |text| && InLanguage(q.body, text[..n]) && (p.end ==> n == |text|);
      var k: nat :| k <= n && InLanguage(left, text[..n][..k]) && InLanguage(p.body, text[..n][k..]);
      assert text[..n][..k] == text[..k] && text[..n][k..] == text[k..][..n - k];
      assert Begins(p, text[k..]);
    }
    if k: nat :| k <= |text| && InLanguage(left, text[..k]) && Begins(p, text[k..]) {
      var m: nat :| m <= |text| - k && InLanguage(p.body, text[k..][..m]) && (p.end ==> m == |text| - k);
      var n := k + m;
      assert text[..n][..k] == text[..k] && text[..n][k..] == text[k..][..m];
      assert InLanguage(q.body, text[..n]);
    }
  }

  lemma EmptyBegins(text: string)
    ensures Begins(Read(""), text)
  {
    assert InLanguage(Epsilon, text[..0]);
  }

  lemma EndBegins(text: string)
    ensures Begins(Read("$"), text) <==> text == ""
  {
    assert text == "" ==> InLanguage(Epsilon, text[..0]);
  }

  lemma SingleBegins(re: string, text: string)
    requires re != "" && re != "$" && !(|re| >= 2 && re[1] == '*')
    ensures Begins(Read(re), text) <==> text != "" && Fits(re[0], text[0]) && Begins(Read(re[1..]), text[1..])
  {
    ConcatBegins(Single(re[0]), Read(re[1..]), text);
    forall k: nat | k <= |text| ensures InLanguage(Single(re[0]), text[..k]) <==> k == 1 && Fits(re[0], text[0]) {
      SingleLanguage(re[0], text[..k]);
    }
  }

  /** Some number of characters that fit c, then what begins with re. */
  ghost predicate StarBegins(c: char, re: string, text: string) {
    exists k: nat :: k <= |text| && AllFit(c, text[..k]) && Begins(Read(re), text[k..])
  }

  lemma StarBeginsRead(re: string, text: string)
    requires |re| >= 2 && re[1] == '*'
    ensures Begins(Read(re), text) <==> StarBegins(re[0], re[2..], text)
  {
    ConcatBegins(Star(Single(re[0])), Read(re[2..]), text);
    forall k: nat | k <= |text| ensures InLanguage(Star(Single(re[0])), text[..k]) <==> AllFit(re[0], text[..k]) {
      StarLanguage(re[0], text[..k]);
    }
  }

  // ----- the matcher -----

  /** Past a character that does not fit, or past the end, there is nothing more to try. */
  lemma NoMore(c: char, re: string, text: string, k: nat)
    requires k <= |text| && (k < |text| ==> !Fits(c, text[k]))
    requires forall j: nat :: j <= k ==> !Begins(Read(re), text[j..])
    ensures !StarBegins(c, re, text)
  {
    forall j: nat | k < j <= |text| ensures !AllFit(c, text[..j]) {
      assert text[..j][k] == text[k];
    }
  }

  /** matchstar: does text begin with characters that fit c and then a match of re? */
  method Matchstar(c: char, re: string, text: string) returns (r: bool)
    ensures r <==> StarBegins(c, re, text)
    decreases |re|, 1
  {
    var k := 0;
    while true
      invariant 0 <= k <= |text| && AllFit(c, text[..k])
      invariant forall j: nat :: j < k ==> !Begins(Read(re), text[j..])
      decreases |text| - k
    {
      var here := Matchhere(re, text[k..]);
      if here {
        return true;
      }
      if k == |text| || !(text[k] == c || c == '.') {
        break;
      }
      k := k + 1;
    }
    NoMore(c, re, text, k);
    r := false;
  }

  /** matchhere: does text begin with a match of re? */
  method Matchhere(re: string, text: string) returns (r: bool)
    ensures r <==> Begins(Read(re), text)
    decreases |re|, 0
  {
    if re == "" {
      EmptyBegins(text);
      return true;
    }
    if |re| >= 2 && re[1] == '*' {
      StarBeginsRead(re, text);
      r := Matchstar(re[0], re[2..], text);
      return;
    }
    if re == "$" {
      EndBegins(text);
      return text == "";
    }
    SingleBegins(re, text);
    if text != "" && (re[0] == '.' || re[0] == text[0]) {
      r := Matchhere(re[1..], text[1..]);
      return;
    }
    r := false;
  }

  /** match: is a substring of text, placed as ^ and $ require, in the pattern's language? */
  method Match(re: string, text: string) returns (r: bool)
    ensures r <==> Matches(re, text)
  {
    if re != "" && re[0] == '^' {
      r := Matchhere(re[1..], text);
      return;
    }
    var from := 0;
    while true
      invariant 0 <= from <= |text|
      invariant forall j: nat :: j < from ==> !Begins(Read(re), text[j..])
      decreases |text| - from
    {
      var here := Matchhere(re, text[from..]);
      if here {
        return true;
      }
      if from == |text| {
        break;
      }
      from := from + 1;
    }
    r := false;
  }
}
