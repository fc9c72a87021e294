/** Ordered keyword rules: the shape shared by the front end's if/else-if
    chains that test `text.includes(keyword)` in a fixed priority order and
    fall back to a default when nothing matches. */
module Rules {
  import opened Text

  /** A rule fires when the text contains any of its keywords. */
  datatype Rule<+T> = Rule(keywords: seq<string>, result: T)

  predicate Matches<T>(rule: Rule<T>, text: string) {
    exists k | 0 <= k < |rule.keywords| :: Contains(text, rule.keywords[k])
  }

  /** A one-keyword rule fires exactly when the text contains that keyword. */
  lemma MatchesOne<T>(rule: Rule<T>, text: string)
    requires |rule.keywords| == 1
    ensures Matches(rule, text) <==> Contains(text, rule.keywords[0])
  {
    if Contains(text, rule.keywords[0]) {
      assert Contains(text, rule.keywords[0]);
    }
  }

  /** A two-keyword rule fires exactly when the text contains either keyword. */
  lemma MatchesTwo<T>(rule: Rule<T>, text: string)
    requires |rule.keywords| == 2
    ensures Matches(rule, text) <==> Contains(text, rule.keywords[0]) || Contains(text, rule.keywords[1])
  {
    if Contains(text, rule.keywords[1]) {
      assert Contains(text, rule.keywords[1]);
    }
  }

  /** The result of the first rule that fires, else the fallback. */
  function FirstMatch<T>(rules: seq<Rule<T>>, text: string, fallback: T): T
    decreases |rules|
  {
    if |rules| == 0 then fallback
    else if Matches(rules[0], text) then rules[0].result
    else FirstMatch(rules[1..], text, fallback)
  }

  /** Rule `k` fires and no earlier rule does. */
  predicate IsFirstMatch<T>(rules: seq<Rule<T>>, text: string, k: int) {
    && 0 <= k < |rules|
    && Matches(rules[k], text)
    && forall j :: 0 <= j < k ==> !Matches(rules[j], text)
  }

  /** Priority: the earliest rule that fires decides, whatever later rules say. */
  lemma {:induction false} FirstMatchWins<T>(rules: seq<Rule<T>>, text: string, fallback: T, k: int)
    requires IsFirstMatch(rules, text, k)
    ensures FirstMatch(rules, text, fallback) == rules[k].result
    decreases k
  {
    if k > 0 {
      assert !Matches(rules[0], text);
      assert IsFirstMatch(rules[1..], text, k - 1) by {
        forall j | 0 <= j < k - 1
          ensures !Matches(rules[1..][j], text)
        {
          assert rules[1..][j] == rules[j + 1];
        }
      }
      FirstMatchWins(rules[1..], text, fallback, k - 1);
    }
  }

  /** Exhaustiveness: when no rule fires the fallback is the answer. */
  lemma {:induction false} NoMatchFallsBack<T>(rules: seq<Rule<T>>, text: string, fallback: T)
    requires forall j :: 0 <= j < |rules| ==> !Matches(rules[j], text)
    ensures FirstMatch(rules, text, fallback) == fallback
    decreases |rules|
  {
    if |rules| > 0 {
      assert !Matches(rules[0], text);
      assert forall j :: 0 <= j < |rules| - 1 ==> rules[1..][j] == rules[j + 1];
      NoMatchFallsBack(rules[1..], text, fallback);
    }
  }
}
