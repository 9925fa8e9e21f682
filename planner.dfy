/** `planner_node` of agent/planner.py: the query check and the parse of the model's numbered
    reply into sub-questions. The model is the parameter `respond`, its reply to the
    decomposition prompt for a query. */
module Planner {
  import opened PyText
  import opened PyValue
  import opened ResearchState
  import opened Seqs
  import opened Dedup

  /** A reply line that is kept: non-empty and starting with a digit. */
  predicate IsNumbered(line: string) { line != [] && IsDigit(line[0]) }

  /** `line.split('.', 1)[-1]`: the text after the first '.', or the whole line when it has
      none. */
  function AfterFirstDot(line: string): (r: string)
    ensures '.' in line ==> |r| < |line|
    ensures '.' !in line ==> r == line
  {
    var k := Find(line, '.');
    if k == -1 then line else line[k + 1..]
  }

  /** `line.split('.', 1)[-1].strip()`: the text after the first '.', stripped. */
  function SubQuestionOf(line: string): (r: string)
    ensures r == [] || (!IsSpace(r[0]) && !IsSpace(r[|r| - 1]))
    ensures '.' in line ==> |r| < |line|
  {
    Strip(AfterFirstDot(line))
  }

  /** The sub-questions of a reply: the numbered lines of the stripped reply, in order, each cut
      after its first '.'. */
  function SubQuestions(reply: string): (r: seq<string>)
    ensures |r| <= |SplitLines(Strip(reply))|
  {
    MapSeq(Filter(SplitLines(Strip(reply)), IsNumbered), SubQuestionOf)
  }

  /** `planner_node(state)`: a blank or missing query raises ValueError; otherwise the result
      holds exactly the stripped query and the sub-questions parsed from the reply to it. */
  function PlannerNode(state: State, respond: string -> string): (r: Result<State>)
    ensures r.Raised? <==> IsBlank(state.query.GetOr(""))
    ensures r.Raised? ==> r.error == ValueError
    ensures r.Ok? ==> r.value.query == Some(Strip(state.query.GetOr("")))
    ensures r.Ok? ==> r.value.subquestions == Some(SubQuestions(respond(Strip(state.query.GetOr("")))))
    ensures r.Ok? ==> r.value == Start(r.value.query.value).(subquestions := r.value.subquestions)
  {
    var query := Strip(state.query.GetOr(""));
    if query == [] then Raised(ValueError)
    else Ok(State(Some(query), Some(SubQuestions(respond(query))), None, None, None, None, None, None, None))
  }

  /** The kept lines are exactly the numbered lines of the stripped reply, in reply order; one
      sub-question is produced per kept line. */
  lemma KeptLines(reply: string)
    ensures forall x :: (x in Filter(SplitLines(Strip(reply)), IsNumbered)
                         <==> x in SplitLines(Strip(reply)) && x != [] && IsDigit(x[0]))
    ensures IsSubsequence(Filter(SplitLines(Strip(reply)), IsNumbered), SplitLines(Strip(reply)))
    ensures |SubQuestions(reply)| == Count(SplitLines(Strip(reply)), IsNumbered)
  {
    var lines := SplitLines(Strip(reply));
    forall x
      ensures x in Filter(lines, IsNumbered) <==> x in lines && x != [] && IsDigit(x[0])
    {
      FilterMember(lines, IsNumbered, x);
    }
    FilterIsSubsequence(lines, IsNumbered);
    FilterCount(lines, IsNumbered);
  }

  /** A reply without a numbered line yields no sub-questions: the requested count of three to
      five is not enforced. */
  lemma NoNumberedLines(reply: string)
    requires forall i :: 0 <= i < |SplitLines(Strip(reply))| ==> !IsNumbered(SplitLines(Strip(reply))[i])
    ensures SubQuestions(reply) == []
  {
    var lines := SplitLines(Strip(reply));
    if Filter(lines, IsNumbered) != [] {
      var x := Filter(lines, IsNumbered)[0];
      FilterMember(lines, IsNumbered, x);
      assert false;
    }
  }

  /** No whitespace at either end: what `str.strip()` leaves unchanged. */
  predicate Stripped(q: string) { q == [] || (!IsSpace(q[0]) && !IsSpace(q[|q| - 1])) }

  /** A sub-question a reply can carry: non-empty, stripped and on one line. */
  predicate IsQuestion(q: string) { q != [] && Stripped(q) && NoLineBreak(q) }

  /** `Stripped` is exactly the fixed points of `str.strip()`. */
  lemma StrippedIsFixed(q: string)
    ensures Stripped(q) <==> Strip(q) == q
  {
    if Stripped(q) {
      StripFixed(q);
    }
  }

  lemma StripSpaceBefore(q: string)
    requires Stripped(q)
    ensures Strip(" " + q) == q
  {
    assert (" " + q)[1..] == q;
    LTrimFixed(q, IsSpace);
    RTrimFixed(q, IsSpace);
  }

  /** The numbered line `k. q` for the sub-question `q`. */
  function NumberedLine(k: nat, q: string): string { NatText(k) + ". " + q }

  /** The first '.' of `n + ". " + q` is the one after `n` when `n` has none. */
  lemma FindAfter(n: string, q: string)
    requires '.' !in n
    ensures AfterFirstDot(n + ". " + q) == " " + q
  {
    var line := n + ". " + q;
    assert line[..|n|] == n;
    FindFirst(line, '.', |n|);
  }

  /** `k` is the result of `Find` when `s[k]` is the first occurrence of `c`. */
  lemma FindFirst(s: string, c: char, k: nat)
    requires k < |s| && s[k] == c && c !in s[..k]
    ensures Find(s, c) == k
  {
  }

  lemma DigitsHaveNoDot(n: string)
    requires forall i :: 0 <= i < |n| ==> IsDigit(n[i])
    ensures '.' !in n
  {
  }

  /** A line of digits, ". " and a stripped question is kept and reads back as the question,
      whatever '.' the question itself holds. */
  lemma DigitLineRoundTrip(n: string, q: string)
    requires n != [] && forall i :: 0 <= i < |n| ==> IsDigit(n[i])
    requires Stripped(q)
    ensures IsNumbered(n + ". " + q) && SubQuestionOf(n + ". " + q) == q
  {
    DigitsHaveNoDot(n);
    FindAfter(n, q);
    StripSpaceBefore(q);
  }

  /** The numbered line `k. q` of a stripped question reads back as the question. */
  lemma NumberedLineRoundTrip(k: nat, q: string)
    requires Stripped(q)
    ensures IsNumbered(NumberedLine(k, q)) && SubQuestionOf(NumberedLine(k, q)) == q
  {
    DigitLineRoundTrip(NatText(k), q);
  }

  /** A numbered line of a single-line question holds no line break. */
  lemma NumberedLineOneLine(k: nat, q: string)
    requires NoLineBreak(q)
    ensures NoLineBreak(NumberedLine(k, q))
  {
    var n := NatText(k);
    var line := NumberedLine(k, q);
    forall j | 0 <= j < |line|
      ensures !IsLineBreak(line[j])
    {
      if j < |n| {
        assert line[j] == n[j] && IsDigit(n[j]);
      } else if j >= |n| + 2 {
        assert line[j] == q[j - |n| - 2];
      }
    }
  }

  /** The reply that numbers the questions from `k` on, one per line. */
  function NumberedFrom(qs: seq<string>, k: nat): (r: seq<string>)
    ensures |r| == |qs|
    decreases |qs|
  {
    if qs == [] then [] else [NumberedLine(k, qs[0])] + NumberedFrom(qs[1..], k + 1)
  }

  lemma {:induction false} NumberedFromAt(qs: seq<string>, k: nat, i: nat)
    requires i < |qs|
    ensures NumberedFrom(qs, k)[i] == NumberedLine(k + i, qs[i])
    decreases |qs|
  {
    if i > 0 {
      NumberedFromAt(qs[1..], k + 1, i - 1);
    }
  }

  lemma {:induction false} JoinEnds(sep: string, parts: seq<string>)
    requires parts != [] && forall i :: 0 <= i < |parts| ==> parts[i] != []
    ensures Join(sep, parts) != []
    ensures Join(sep, parts)[0] == parts[0][0]
    ensures Join(sep, parts)[|Join(sep, parts)| - 1] == parts[|parts| - 1][|parts[|parts| - 1]| - 1]
    decreases |parts|
  {
    if |parts| > 1 {
      var rest := Join(sep, parts[1..]);
      JoinEnds(sep, parts[1..]);
      assert Join(sep, parts) == parts[0] + sep + rest;
    }
  }

  /** A numbered line of a stripped, non-empty question is itself stripped. */
  lemma NumberedLineStripped(k: nat, q: string)
    requires q != [] && Stripped(q)
    ensures Stripped(NumberedLine(k, q))
  {
    var n := NatText(k);
    var line := n + ". " + q;
    assert line[|line| - 1] == q[|q| - 1];
    assert IsDigit(line[0]);
  }

  /** The `i`-th line of the numbered reply is `i+1. qs[i]`; it is kept, reads back as
      `qs[i]`, holds no line break and is stripped. */
  lemma NumberedLineAt(qs: seq<string>, i: nat)
    requires i < |qs| && IsQuestion(qs[i])
    ensures NumberedFrom(qs, 1)[i] == NumberedLine(i + 1, qs[i])
    ensures IsNumbered(NumberedFrom(qs, 1)[i]) && SubQuestionOf(NumberedFrom(qs, 1)[i]) == qs[i]
    ensures NoLineBreak(NumberedFrom(qs, 1)[i]) && Stripped(NumberedFrom(qs, 1)[i])
  {
    NumberedFromAt(qs, 1, i);
    NumberedLineRoundTrip(i + 1, qs[i]);
    NumberedLineOneLine(i + 1, qs[i]);
    NumberedLineStripped(i + 1, qs[i]);
  }

  /** The numbered lines of questions are kept, read back, hold no line break and are
      stripped. */
  lemma NumberedLines(qs: seq<string>)
    requires forall i :: 0 <= i < |qs| ==> IsQuestion(qs[i])
    ensures forall i :: 0 <= i < |qs| ==>
      IsNumbered(NumberedFrom(qs, 1)[i]) && NoLineBreak(NumberedFrom(qs, 1)[i]) && Stripped(NumberedFrom(qs, 1)[i])
    ensures MapSeq(NumberedFrom(qs, 1), SubQuestionOf) == qs
  {
    var lines := NumberedFrom(qs, 1);
    forall i | 0 <= i < |qs|
      ensures IsNumbered(lines[i]) && SubQuestionOf(lines[i]) == qs[i]
      ensures NoLineBreak(lines[i]) && Stripped(lines[i])
    {
      NumberedLineAt(qs, i);
    }
  }

  /** Non-empty stripped lines join into a stripped text. */
  lemma JoinStripped(sep: string, parts: seq<string>)
    requires parts != [] && forall i :: 0 <= i < |parts| ==> parts[i] != [] && Stripped(parts[i])
    ensures Strip(Join(sep, parts)) == Join(sep, parts)
  {
    JoinEnds(sep, parts);
    StripFixed(Join(sep, parts));
  }

  /** A reply of stripped, numbered lines without line breaks yields the sub-question of
      each line, in order. */
  lemma NumberedReplyLines(lines: seq<string>, qs: seq<string>)
    requires lines != []
    requires forall i :: 0 <= i < |lines| ==>
      IsNumbered(lines[i]) && NoLineBreak(lines[i]) && Stripped(lines[i])
    requires MapSeq(lines, SubQuestionOf) == qs
    ensures SubQuestions(Join("\n", lines)) == qs
  {
    JoinStripped("\n", lines);
    SplitLinesJoin(lines);
    FilterAll(lines, IsNumbered);
  }

  lemma NumberedRepliesOfSome(qs: seq<string>)
    requires qs != [] && forall i :: 0 <= i < |qs| ==> IsQuestion(qs[i])
    ensures SubQuestions(Join("\n", NumberedFrom(qs, 1))) == qs
  {
    NumberedLines(qs);
    NumberedReplyLines(NumberedFrom(qs, 1), qs);
  }

  /** A reply that lists non-empty, stripped, single-line questions as `1. q1`, `2. q2`, ... on
      separate lines parses back into exactly those questions, however many there are. */
  lemma NumberedReplyRoundTrip(qs: seq<string>)
    requires forall i :: 0 <= i < |qs| ==> IsQuestion(qs[i])
    ensures SubQuestions(Join("\n", NumberedFrom(qs, 1))) == qs
  {
    if qs == [] {
      assert Strip([]) == [];
    } else {
      NumberedRepliesOfSome(qs);
    }
  }
}
