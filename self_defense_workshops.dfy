/**
 * The workshop subscription form and its e-mail check, the pattern
 * `^[^@\s]+@[^@\s]+\.[^@\s]+$` on the trimmed input.
 */
module SelfDefenseWorkshops {
  import JsText

  /** A character of the class `[^@\s]`. */
  predicate Plain(c: char) {
    c != '@' && !JsText.IsSpace(c)
  }

  /** A run matched by `[^@\s]+`. */
  predicate PlainRun(s: string) {
    s != [] && forall k :: 0 <= k < |s| ==> Plain(s[k])
  }

  /** The pattern read as a concatenation: `s` is `a + "@" + b + "." + c` with plain, non-empty `a`, `b` and `c`. */
  predicate MatchesPattern(s: string) {
    exists at, dot :: 0 <= at < dot < |s| &&
      s[at] == '@' && s[dot] == '.' &&
      PlainRun(s[..at]) && PlainRun(s[at + 1..dot]) && PlainRun(s[dot + 1..])
  }

  function CountChar(s: string, c: char): (n: nat)
    ensures n == 0 <==> forall k :: 0 <= k < |s| ==> s[k] != c
    decreases |s|
  {
    if s == [] then 0 else (if s[0] == c then 1 else 0) + CountChar(s[1..], c)
  }

  /** The position of the first `c` in `s`, or `|s|` if there is none. */
  function IndexOf(s: string, c: char): (i: nat)
    ensures i <= |s|
    ensures i < |s| ==> s[i] == c
    ensures forall k :: 0 <= k < i ==> s[k] != c
    decreases |s|
  {
    if s == [] then 0 else if s[0] == c then 0 else 1 + IndexOf(s[1..], c)
  }

  predicate NoSpace(s: string) {
    forall k :: 0 <= k < |s| ==> !JsText.IsSpace(s[k])
  }

  /**
   * The check, stated directly: no white space, exactly one '@' with something before it,
   * and after it a '.' that is neither the first nor the last character.
   */
  predicate ValidEmail(s: string) {
    var at := IndexOf(s, '@');
    && NoSpace(s)
    && CountChar(s, '@') == 1
    && 1 <= at < |s|
    && var domain := s[at + 1..];
       |domain| >= 3 && IndexOf(domain[1..|domain| - 1], '.') < |domain| - 2
  }

  lemma {:induction false} CountCharConcat(a: string, b: string, c: char)
    ensures CountChar(a + b, c) == CountChar(a, c) + CountChar(b, c)
    decreases |a|
  {
    if a == [] {
      assert a + b == b;
    } else {
      assert (a + b)[1..] == a[1..] + b;
      CountCharConcat(a[1..], b, c);
    }
  }

  /** One '@' in the whole string means none on either side of the one found. */
  lemma SingleAt(s: string, at: nat)
    requires at < |s| && s[at] == '@'
    ensures CountChar(s, '@') == 1 <==>
              (forall k :: 0 <= k < at ==> s[k] != '@') && (forall k :: at < k < |s| ==> s[k] != '@')
  {
    assert s == s[..at] + [s[at]] + s[at + 1..];
    CountCharConcat(s[..at] + [s[at]], s[at + 1..], '@');
    CountCharConcat(s[..at], [s[at]], '@');
    assert CountChar([s[at]], '@') == 1;
    assert forall k :: at < k < |s| ==> s[k] == s[at + 1..][k - at - 1];
  }

  lemma ValidEmailMatches(s: string)
    requires ValidEmail(s)
    ensures MatchesPattern(s)
  {
    var at := IndexOf(s, '@');
    var domain := s[at + 1..];
    var j := IndexOf(domain[1..|domain| - 1], '.');
    var dot := at + 2 + j;
    SingleAt(s, at);
    assert s[dot] == '.';
    assert PlainRun(s[..at]);
    assert PlainRun(s[at + 1..dot]);
    assert PlainRun(s[dot + 1..]);
  }

  lemma PatternIsValid(s: string, at: nat, dot: nat)
    requires 0 <= at < dot < |s| && s[at] == '@' && s[dot] == '.'
    requires PlainRun(s[..at]) && PlainRun(s[at + 1..dot]) && PlainRun(s[dot + 1..])
    ensures ValidEmail(s)
  {
    assert forall k :: 0 <= k < at ==> s[k] == s[..at][k];
    assert forall k :: at < k < dot ==> s[k] == s[at + 1..dot][k - at - 1];
    assert forall k :: dot < k < |s| ==> s[k] == s[dot + 1..][k - dot - 1];
    assert IndexOf(s, '@') == at;
    SingleAt(s, at);
    var domain := s[at + 1..];
    var inner := domain[1..|domain| - 1];
    assert inner[dot - at - 2] == '.';
  }

  /** The direct check accepts exactly the strings the pattern matches. */
  lemma ValidEmailIffPattern(s: string)
    ensures ValidEmail(s) <==> MatchesPattern(s)
  {
    if ValidEmail(s) {
      ValidEmailMatches(s);
    }
    if MatchesPattern(s) {
      var at, dot :| 0 <= at < dot < |s| &&
        s[at] == '@' && s[dot] == '.' &&
        PlainRun(s[..at]) && PlainRun(s[at + 1..dot]) && PlainRun(s[dot + 1..]);
      PatternIsValid(s, at, dot);
    }
  }

  class Subscription {
    var email: string

    constructor ()
      ensures email == ""
    {
      email := "";
    }

    /** `subscribe`: an invalid trimmed address leaves the field as typed; a valid one clears it. */
    method Subscribe() returns (subscribed: bool)
      modifies this
      ensures subscribed <==> MatchesPattern(JsText.Trim(old(email)))
      ensures subscribed ==> email == ""
      ensures !subscribed ==> email == old(email)
    {
      var trimmed := JsText.Trim(email);
      ValidEmailIffPattern(trimmed);
      if !ValidEmail(trimmed) {
        return false;
      }
      email := "";
      subscribed := true;
    }
  }
}
