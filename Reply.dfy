/** What `postReply` decides to say for a query addressed to the bot. */
module Reply {
  import opened Strings
  import opened Responses

  const NoQuestion: string := "Where's the question?"
  const NotTarot: string := "I'm not a tarot deck. Yes or no questions please."

  /** The alternatives of the pattern `^(who|what|when|where|why|how|if).*`. */
  const Interrogatives: seq<string> := ["who", "what", "when", "where", "why", "how", "if"]

  /** The three kinds of query the bot tells apart. */
  datatype Kind = MissingQuestionMark | OpenEnded | YesNo

  /** `strings.HasSuffix(query, "?")`. */
  predicate EndsWithQuestionMark(query: string)
    ensures EndsWithQuestionMark(query) <==> |query| > 0 && query[|query| - 1..] == "?"
  {
    |query| > 0 && query[|query| - 1] == '?'
  }

  /** The anchored pattern matches `s`: some alternative is a prefix of `s`.
      `.*` accepts any rest, so there is no word boundary. */
  predicate MatchesInterrogative(s: string)
    ensures MatchesInterrogative(s) ==> |s| >= 2 && s[0] in {'w', 'h', 'i'}
  {
    exists k :: 0 <= k < |Interrogatives| && Interrogatives[k] <= s
  }

  /** The pattern is tried on the lower-cased query. */
  predicate IsOpenEnded(query: string)
    ensures IsOpenEnded(query) ==> |query| >= 2
  {
    MatchesInterrogative(ToLower(query))
  }

  /** The decision of `postReply`: the question mark is tested first, then
      the pattern. */
  function Classify(query: string): (k: Kind)
    ensures k == MissingQuestionMark <==> !EndsWithQuestionMark(query)
    ensures k == OpenEnded <==> EndsWithQuestionMark(query) && IsOpenEnded(query)
    ensures k == YesNo <==> EndsWithQuestionMark(query) && !IsOpenEnded(query)
  {
    if !EndsWithQuestionMark(query) then MissingQuestionMark
    else if IsOpenEnded(query) then OpenEnded
    else YesNo
  }

  /** The text `postReply` sends for `query` when the random draw is `r`. */
  function ReplyText(query: string, r: nat): (text: string)
    ensures text == NoQuestion <==> !EndsWithQuestionMark(query)
    ensures text == NotTarot <==> EndsWithQuestionMark(query) && IsOpenEnded(query)
    ensures text in MagicResponse <==> EndsWithQuestionMark(query) && !IsOpenEnded(query)
    ensures Classify(query) == YesNo ==> text == MagicResponse[r % 20]
  {
    match Classify(query)
    case MissingQuestionMark => NoQuestion
    case OpenEnded => NotTarot
    case YesNo => Answer(r)
  }

  /** The lower-cased query starts with an interrogative exactly when its
      first characters lower-case, one by one, to that word: only the first
      few characters of the query matter. */
  lemma IsOpenEndedIff(query: string)
    ensures IsOpenEnded(query) <==>
      exists k :: 0 <= k < |Interrogatives| && LowerPrefix(Interrogatives[k], query)
  {
    var lower := ToLower(query);
    forall k | 0 <= k < |Interrogatives|
      ensures Interrogatives[k] <= lower <==> LowerPrefix(Interrogatives[k], query)
    {
      var w := Interrogatives[k];
      if LowerPrefix(w, query) {
        assert lower[..|w|] == w;
      }
    }
  }

  /** `query` is at least as long as `w` and its first `|w|` characters
      lower-case to `w`. */
  predicate LowerPrefix(w: string, query: string) {
    |w| <= |query| && forall i :: 0 <= i < |w| ==> LowerChar(query[i]) == w[i]
  }

  /** Upper case does not matter: a query and its lower-cased form are
      classified alike. */
  lemma ClassifyIgnoresCase(query: string)
    ensures Classify(ToLower(query)) == Classify(query)
  {
    var l := ToLower(query);
    ToLowerIdempotent(query);
    assert IsOpenEnded(l) == IsOpenEnded(query);
    if |query| > 0 {
      assert l[|l| - 1] == LowerChar(query[|query| - 1]);
    }
    assert EndsWithQuestionMark(l) == EndsWithQuestionMark(query);
  }

  /** Words that merely begin with an interrogative are open-ended too:
      anything may follow the matched alternative. */
  lemma OpenEndedExtends(query: string, rest: string)
    requires IsOpenEnded(query)
    ensures IsOpenEnded(query + rest)
  {
    var k :| 0 <= k < |Interrogatives| && Interrogatives[k] <= ToLower(query);
    var w := Interrogatives[k];
    assert ToLower(query + rest)[..|w|] == ToLower(query)[..|w|];
  }

  /** A query whose first characters lower-case to an interrogative is
      open-ended. */
  lemma OpenEndedByPrefix(query: string, k: nat)
    requires k < |Interrogatives| && LowerPrefix(Interrogatives[k], query)
    ensures IsOpenEnded(query)
  {
    IsOpenEndedIff(query);
  }

  /** "Whole" begins with "who": such a question gets the tarot reply
      although it is a yes/no question. */
  lemma NoWordBoundary()
    ensures Classify("Whole lot of trouble?") == OpenEnded
  {
    var q := "Whole lot of trouble?";
    assert q[0] == 'W' && q[1] == 'h' && q[2] == 'o';
    OpenEndedByPrefix(q, 0);
  }

  /** Likewise "However" begins with "how". */
  lemma NoWordBoundaryAfterHow()
    ensures Classify("However will it rain?") == OpenEnded
  {
    var h := "However will it rain?";
    assert h[0] == 'H' && h[1] == 'o' && h[2] == 'w';
    OpenEndedByPrefix(h, 5);
  }

  /** A plain yes/no question is answered from the table. */
  lemma YesNoExample()
    ensures Classify("Will it rain today?") == YesNo
  {
    var q := "Will it rain today?";
    assert LowerChar(q[0]) == 'w' && LowerChar(q[1]) == 'i';
    forall k | 0 <= k < |Interrogatives|
      ensures !LowerPrefix(Interrogatives[k], q)
    {
      var w := Interrogatives[k];
      assert w[0] == 'w' ==> w[1] == 'h';
    }
    IsOpenEndedIff(q);
  }

  /** Without a question mark the query gets the reminder, however it
      starts. */
  lemma MissingQuestionMarkExample()
    ensures Classify("Why is the sky blue") == MissingQuestionMark
  {
  }

  /** "why ...?" gets the tarot reply. */
  lemma OpenEndedExample()
    ensures Classify("why is the sky blue?") == OpenEnded
  {
    var q := "why is the sky blue?";
    assert q[0] == 'w' && q[1] == 'h' && q[2] == 'y';
    OpenEndedByPrefix(q, 4);
  }
}
