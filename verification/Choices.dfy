/**
 The "choices" interaction: what a visitor submits is normalised, checked against the
 questions that were raised, and either accepted as one answer per question or refused with
 everything that is wrong with it.
 */
module Choices {
  import opened Basics
  import opened Text

  datatype ChoiceOption = ChoiceOption(tag: string, description: string)
  datatype Question = Question(prompt: string, header: string, options: seq<ChoiceOption>, multiSelect: bool)

  datatype Answer = Answer(header: string, options: seq<string>, other: string) {

    function SelectionCount(): nat { |options| + (if other != "" then 1 else 0) }
  }

  datatype Problem = Unanswered | NotOffered(tag: string) | NoPick | SinglePick | NoAnswers
  datatype FieldError = FieldError(field: string, problem: Problem)
  datatype Outcome = Accepted(answers: seq<Answer>) | Refused(errors: seq<FieldError>)

  // ---------------------------------------------------------------- normal form

  /** The labels trimmed, blank ones dropped. */
  function Labels(options: seq<string>): seq<string> {
    if options == [] then []
    else
      var init, t := Labels(options[..|options| - 1]), Trim(options[|options| - 1]);
      if t != "" then init + [t] else init
  }

  function NormalAnswer(a: Answer): Answer { Answer(Trim(a.header), Labels(a.options), Trim(a.other)) }

  function Normal(answers: seq<Answer>): (r: seq<Answer>)
    ensures |r| == |answers|
  {
    seq(|answers|, i requires 0 <= i < |answers| => NormalAnswer(answers[i]))
  }

  method Normalize(answers: seq<Answer>) returns (normalized: seq<Answer>)
    ensures normalized == Normal(answers)
  {
    normalized := [];
    for i := 0 to |answers|
      invariant |normalized| == i && forall k | 0 <= k < i :: normalized[k] == NormalAnswer(answers[k])
    {
      var a := answers[i];
      var opts: seq<string> := [];
      for j := 0 to |a.options|
        invariant opts == Labels(a.options[..j])
      {
        var t := Trim(a.options[j]);
        assert a.options[..j + 1][..j] == a.options[..j];
        if t != "" { opts := opts + [t]; }
      }
      assert a.options[..|a.options|] == a.options;
      normalized := normalized + [Answer(Trim(a.header), opts, Trim(a.other))];
    }
  }

  // ---------------------------------------------------------------- what is a legal answer

  /** The first answer to a question. */
  function FindAnswer(answers: seq<Answer>, header: string): Option<Answer> {
    if answers == [] then None
    else if answers[0].header == header then Some(answers[0])
    else FindAnswer(answers[1..], header)
  }

  predicate HasOption(options: seq<ChoiceOption>, tag: string) { exists o | o in options :: o.tag == tag }

  /** Every label is offered, and one thing is picked, or several where that is allowed. */
  predicate Legal(q: Question, a: Answer) {
    && a.header == q.header
    && (forall tag | tag in a.options :: HasOption(q.options, tag))
    && (a.SelectionCount() == 1 || (q.multiSelect && a.SelectionCount() > 1))
  }

  predicate Answered(q: Question, answers: seq<Answer>) {
    var a := FindAnswer(answers, q.header);
    a.Some? && Legal(q, a.value)
  }

  /** With no questions to check against, any picks will do, as long as there are some. */
  predicate Accepts(questions: seq<Question>, answers: seq<Answer>) {
    if questions == [] then answers != [] && forall a | a in answers :: a.SelectionCount() > 0
    else forall q | q in questions :: Answered(q, answers)
  }

  /** What an accepted submission comes out as. */
  function Canonical(questions: seq<Question>, answers: seq<Answer>): (r: seq<Answer>)
    requires Accepts(questions, answers)
  {
    if questions == [] then answers
    else seq(|questions|, i requires 0 <= i < |questions| => assert Answered(questions[i], answers); FindAnswer(answers, questions[i].header).value)
  }

  // ---------------------------------------------------------------- what can be wrong

  /** A problem with the answer to one question. */
  predicate Wrong(q: Question, answers: seq<Answer>, p: Problem) {
    var a := FindAnswer(answers, q.header);
    match p
    case Unanswered => a.None?
    case NotOffered(tag) => a.Some? && tag in a.value.options && !HasOption(q.options, tag)
    case NoPick => a.Some? && a.value.SelectionCount() == 0
    case SinglePick => a.Some? && !q.multiSelect && a.value.SelectionCount() > 1
    case NoAnswers => false
  }

  lemma {:induction false} FoundHasHeader(answers: seq<Answer>, header: string)
    ensures FindAnswer(answers, header).Some? ==> FindAnswer(answers, header).value in answers && FindAnswer(answers, header).value.header == header
  {
    if answers != [] && answers[0].header != header { FoundHasHeader(answers[1..], header); }
  }

  /** A question is answered legally exactly when nothing is wrong with it. */
  lemma AnsweredIsNothingWrong(q: Question, answers: seq<Answer>)
    ensures Answered(q, answers) <==> forall p :: !Wrong(q, answers, p)
  {
    FoundHasHeader(answers, q.header);
    var a := FindAnswer(answers, q.header);
    if !Answered(q, answers) {
      if a.None? {
        assert Wrong(q, answers, Unanswered);
      } else if tag :| tag in a.value.options && !HasOption(q.options, tag) {
        assert Wrong(q, answers, NotOffered(tag));
      } else if a.value.SelectionCount() == 0 {
        assert Wrong(q, answers, NoPick);
      } else {
        assert Wrong(q, answers, SinglePick);
      }
    }
  }

  /** Some question has that problem. */
  ghost predicate Blamed(questions: seq<Question>, answers: seq<Answer>, e: FieldError) {
    exists q | q in questions :: q.header == e.field && Wrong(q, answers, e.problem)
  }

  /** The errors found, exactly: those of the questions, or of the bare answers when there are none. */
  ghost predicate Reports(questions: seq<Question>, answers: seq<Answer>, e: FieldError) {
    if questions == [] then
      || (e.problem == NoPick && exists a | a in answers :: a.header == e.field && a.SelectionCount() == 0)
      || (e == FieldError("answers", NoAnswers) && answers == [])
    else Blamed(questions, answers, e)
  }

  // ---------------------------------------------------------------- the validator

  /**
   Accepted exactly when every question has a legal answer, and then one answer per question
   in the order asked; otherwise every problem of every question, and nothing else.
   */
  method ValidateChoices(questions: seq<Question>, values: seq<Answer>) returns (r: Outcome)
    ensures r.Accepted? <==> Accepts(questions, Normal(values))
    ensures r.Accepted? ==> r.answers == Canonical(questions, Normal(values))
    ensures r.Refused? ==> r.errors != [] && forall e :: e in r.errors <==> Reports(questions, Normal(values), e)
  {
    var normalized := Normalize(values);
    if |questions| == 0 {
      r := CheckFormat(normalized);
      return;
    }
    var errs: seq<FieldError> := [];
    var out: seq<Answer> := [];
    for i := 0 to |questions|
      invariant forall e :: e in errs <==> Blamed(questions[..i], normalized, e)
      invariant errs == [] ==> |out| == i && forall k | 0 <= k < i :: Some(out[k]) == FindAnswer(normalized, questions[k].header)
    {
      var q := questions[i];
      var more, answer := CheckQuestion(q, normalized);
      BlamedNext(questions, i, normalized);
      errs := errs + more;
      if answer.Some? { out := out + [answer.value]; }
    }
    assert questions[..|questions|] == questions;
    BlamedAll(questions, normalized);
    if |errs| > 0 {
      assert Blamed(questions, normalized, errs[0]);
      return Refused(errs);
    }
    forall e ensures !Blamed(questions, normalized, e) { assert e !in errs; }
    r := Accepted(out);
  }

  lemma BlamedNext(questions: seq<Question>, i: nat, answers: seq<Answer>)
    requires i < |questions|
    ensures forall e :: Blamed(questions[..i + 1], answers, e) <==>
                        Blamed(questions[..i], answers, e) || (questions[i].header == e.field && Wrong(questions[i], answers, e.problem))
  {
    assert questions[..i + 1] == questions[..i] + [questions[i]];
  }

  lemma BlamedAll(questions: seq<Question>, answers: seq<Answer>)
    requires questions != []
    ensures Accepts(questions, answers) <==> forall e :: !Blamed(questions, answers, e)
  {
    forall q | q in questions
      ensures Answered(q, answers) <==> forall p :: !Wrong(q, answers, p)
    {
      AnsweredIsNothingWrong(q, answers);
    }
    if q, p :| q in questions && Wrong(q, answers, p) { assert Blamed(questions, answers, FieldError(q.header, p)); }
    if !Accepts(questions, answers) {
      var q :| q in questions && !Answered(q, answers);
      var p :| Wrong(q, answers, p);
      assert Blamed(questions, answers, FieldError(q.header, p));
    }
  }

  /** The problems of one question, and its answer unless a label was not offered. */
  method CheckQuestion(q: Question, answers: seq<Answer>) returns (errs: seq<FieldError>, kept: Option<Answer>)
    ensures forall e :: e in errs <==> e.field == q.header && Wrong(q, answers, e.problem)
    ensures errs == [] ==> kept.Some? && kept == FindAnswer(answers, q.header)
  {
    var found := FindAnswer(answers, q.header);
    if found.None? { return [FieldError(q.header, Unanswered)], None; }
    var answer := found.value;
    var badLabel := false;
    errs := [];
    for j := 0 to |answer.options|
      invariant forall e :: e in errs <==> e.field == q.header && e.problem.NotOffered? && e.problem.tag in answer.options[..j] && !HasOption(q.options, e.problem.tag)
      invariant badLabel <==> errs != []
    {
      var tag := answer.options[j];
      assert answer.options[..j + 1] == answer.options[..j] + [tag];
      if !HasOption(q.options, tag) {
        badLabel := true;
        errs := errs + [FieldError(q.header, NotOffered(tag))];
      }
    }
    assert answer.options[..|answer.options|] == answer.options;
    var count := answer.SelectionCount();
    if count == 0 {
      errs := errs + [FieldError(q.header, NoPick)];
    } else if !q.multiSelect && count > 1 {
      errs := errs + [FieldError(q.header, SinglePick)];
    }
    kept := if badLabel then None else Some(answer);
  }

  method CheckFormat(answers: seq<Answer>) returns (r: Outcome)
    ensures r.Accepted? <==> Accepts([], answers)
    ensures r.Accepted? ==> r.answers == answers
    ensures r.Refused? ==> r.errors != [] && forall e :: e in r.errors <==> Reports([], answers, e)
  {
    var errs: seq<FieldError> := [];
    for i := 0 to |answers|
      invariant forall e :: e in errs <==> e.problem == NoPick && exists k | 0 <= k < i :: answers[k].header == e.field && answers[k].SelectionCount() == 0
      invariant errs == [] ==> forall k | 0 <= k < i :: answers[k].SelectionCount() > 0
    {
      if answers[i].SelectionCount() == 0 { errs := errs + [FieldError(answers[i].header, NoPick)]; }
    }
    if |answers| == 0 { errs := errs + [FieldError("answers", NoAnswers)]; }
    if |errs| > 0 {
      assert answers != [] ==> Reports([], answers, errs[0]);
      return Refused(errs);
    }
    r := Accepted(answers);
  }

  // ---------------------------------------------------------------- canonical

  lemma {:induction false} LabelsNormal(options: seq<string>)
    ensures Labels(Labels(options)) == Labels(options)
    ensures forall l | l in Labels(options) :: l != "" && Trim(l) == l
  {
    if options != [] {
      var init, t := Labels(options[..|options| - 1]), Trim(options[|options| - 1]);
      LabelsNormal(options[..|options| - 1]);
      TrimCanonical(options[|options| - 1]);
      TrimCanonical(t);
      if t != "" { assert (init + [t])[..|init|] == init; }
    }
  }

  lemma NormalTwice(a: Answer)
    ensures NormalAnswer(NormalAnswer(a)) == NormalAnswer(a)
  {
    LabelsNormal(a.options);
    TrimCanonical(a.header);
    TrimCanonical(Trim(a.header));
    TrimCanonical(a.other);
    TrimCanonical(Trim(a.other));
  }

  lemma {:induction false} CanonicalFinds(questions: seq<Question>, answers: seq<Answer>, out: seq<Answer>, i: nat)
    requires |out| <= |questions| && i < |questions| && FindAnswer(answers, questions[i].header).Some?
    requires forall k | 0 <= k < |out| :: Some(out[k]) == FindAnswer(answers, questions[|questions| - |out| + k].header)
    requires i >= |questions| - |out|
    ensures FindAnswer(out, questions[i].header) == FindAnswer(answers, questions[i].header)
    decreases |out|
  {
    var first := questions[|questions| - |out|].header;
    FoundHasHeader(answers, first);
    assert out[0].header == first;
    if first != questions[i].header {
      forall k | 0 <= k < |out[1..]| ensures Some(out[1..][k]) == FindAnswer(answers, questions[|questions| - |out[1..]| + k].header) {
        assert out[1..][k] == out[k + 1];
      }
      CanonicalFinds(questions, answers, out[1..], i);
    }
  }

  /** Submitting an accepted result again changes nothing: it is accepted and comes out as it went in. */
  lemma AcceptedIsCanonical(questions: seq<Question>, values: seq<Answer>)
    requires Accepts(questions, Normal(values))
    ensures var out := Canonical(questions, Normal(values));
            Normal(out) == out && Accepts(questions, out) && Canonical(questions, out) == out
  {
    var answers := Normal(values);
    var out := Canonical(questions, answers);
    CanonicalIsNormal(questions, values);
    if questions != [] {
      forall k | 0 <= k < |out| ensures Some(out[k]) == FindAnswer(answers, questions[k].header) { assert Answered(questions[k], answers); }
      forall i | 0 <= i < |questions| ensures FindAnswer(out, questions[i].header) == FindAnswer(answers, questions[i].header) {
        assert Answered(questions[i], answers);
        CanonicalFinds(questions, answers, out, i);
      }
      forall q | q in questions ensures Answered(q, out) { assert Answered(q, answers); }
    }
  }

  lemma CanonicalIsNormal(questions: seq<Question>, values: seq<Answer>)
    requires Accepts(questions, Normal(values))
    ensures Normal(Canonical(questions, Normal(values))) == Canonical(questions, Normal(values))
  {
    var answers := Normal(values);
    var out := Canonical(questions, answers);
    forall a | a in answers ensures NormalAnswer(a) == a {
      var i :| 0 <= i < |values| && NormalAnswer(values[i]) == a;
      NormalTwice(values[i]);
    }
    forall i | 0 <= i < |out| ensures out[i] in answers {
      if questions != [] {
        assert Answered(questions[i], answers);
        FoundHasHeader(answers, questions[i].header);
      }
    }
  }

  /** One legal answer per question, in the order asked. */
  lemma AcceptedAnswersEachQuestion(questions: seq<Question>, answers: seq<Answer>)
    requires questions != [] && Accepts(questions, answers)
    ensures var out := Canonical(questions, answers);
            && |out| == |questions|
            && forall i | 0 <= i < |questions| :: Legal(questions[i], out[i]) && out[i] in answers
  {
    forall i | 0 <= i < |questions| ensures Legal(questions[i], Canonical(questions, answers)[i]) && Canonical(questions, answers)[i] in answers {
      assert Answered(questions[i], answers);
      FoundHasHeader(answers, questions[i].header);
    }
  }

  // ---------------------------------------------------------------- in terms of what was submitted

  /** A label that the visitor wrote and did not leave blank. */
  ghost predicate Wrote(options: seq<string>, tag: string) { tag != "" && exists o | o in options :: Trim(o) == tag }

  lemma {:induction false} LabelsExact(options: seq<string>)
    ensures forall tag :: tag in Labels(options) <==> Wrote(options, tag)
    ensures |Labels(options)| <= |options|
    ensures (forall o | o in options :: Trim(o) != "") ==> |Labels(options)| == |options| && forall i | 0 <= i < |options| :: Labels(options)[i] == Trim(options[i])
  {
    if options != [] {
      var init, last := options[..|options| - 1], options[|options| - 1];
      LabelsExact(init);
      assert options == init + [last];
      assert last in options;
    }
  }

  /** The answer to a question is the first with its header. */
  lemma {:induction false} FoundIsFirst(answers: seq<Answer>, header: string)
    ensures FindAnswer(answers, header).None? ==> forall j | 0 <= j < |answers| :: answers[j].header != header
    ensures FindAnswer(answers, header).Some? ==>
              exists j :: 0 <= j < |answers| && answers[j] == FindAnswer(answers, header).value && answers[j].header == header &&
                          forall k | 0 <= k < j :: answers[k].header != header
  {
    if answers != [] && answers[0].header != header {
      FoundIsFirst(answers[1..], header);
      assert forall j | 0 < j < |answers| :: answers[j] == answers[1..][j - 1];
      if FindAnswer(answers, header).Some? {
        var j :| 0 <= j < |answers[1..]| && answers[1..][j] == FindAnswer(answers, header).value && answers[1..][j].header == header &&
                 forall k | 0 <= k < j :: answers[1..][k].header != header;
        assert answers[j + 1] == answers[1..][j];
      }
    }
  }

  /** Something is picked, only what is offered or an own text, and one thing where one is asked for. */
  predicate Picks(q: Question, options: seq<string>, other: string) {
    && (options != [] || other != "")
    && (forall tag | tag in options :: exists o | o in q.options :: o.tag == tag)
    && (!q.multiSelect ==> (|options| == 1 && other == "") || (options == [] && other != ""))
  }

  lemma LegalExactly(q: Question, a: Answer)
    ensures Legal(q, a) <==> a.header == q.header && Picks(q, a.options, a.other)
  {}

  /** Answer j of a submission is the one to this question. */
  ghost predicate AnswersIt(values: seq<Answer>, j: nat, q: Question) {
    j < |values| && Trim(values[j].header) == q.header && forall k | 0 <= k < j :: Trim(values[k].header) != q.header
  }

  /** That answer has legal picks. */
  ghost predicate Settles(q: Question, values: seq<Answer>) {
    exists j: nat :: AnswersIt(values, j, q) && Picks(q, Labels(values[j].options), Trim(values[j].other))
  }

  /**
   A submission is accepted exactly when every question has, as the first submitted answer with
   its header, legal picks; and then that answer comes out, trimmed, without its blank labels.
   */
  lemma AcceptedExactly(questions: seq<Question>, values: seq<Answer>)
    requires questions != []
    ensures Accepts(questions, Normal(values)) <==>
            forall q | q in questions :: Settles(q, values)
    ensures Accepts(questions, Normal(values)) ==>
              forall i, j: nat | 0 <= i < |questions| && AnswersIt(values, j, questions[i]) ::
                Canonical(questions, Normal(values))[i] == Answer(questions[i].header, Labels(values[j].options), Trim(values[j].other))
  {
    forall q | q in questions
      ensures Answered(q, Normal(values)) <==> Settles(q, values)
    {
      AnsweredExactly(q, values);
    }
    if Accepts(questions, Normal(values)) {
      forall i, j: nat | 0 <= i < |questions| && AnswersIt(values, j, questions[i])
        ensures Canonical(questions, Normal(values))[i] == Answer(questions[i].header, Labels(values[j].options), Trim(values[j].other))
      {
        assert Answered(questions[i], Normal(values));
        FindsIt(questions[i], values, j);
      }
    }
  }

  lemma FindsIt(q: Question, values: seq<Answer>, j: nat)
    requires AnswersIt(values, j, q)
    ensures FindAnswer(Normal(values), q.header) == Some(NormalAnswer(values[j]))
  {
    var answers := Normal(values);
    FoundIsFirst(answers, q.header);
    assert answers[j].header == q.header;
    forall k | 0 <= k < j ensures answers[k].header != q.header {}
    var i :| 0 <= i < |answers| && answers[i] == FindAnswer(answers, q.header).value && answers[i].header == q.header &&
             forall k | 0 <= k < i :: answers[k].header != q.header;
    assert i == j;
  }

  lemma AnsweredExactly(q: Question, values: seq<Answer>)
    ensures Answered(q, Normal(values)) <==> Settles(q, values)
  {
    var answers := Normal(values);
    FoundIsFirst(answers, q.header);
    if FindAnswer(answers, q.header).Some? {
      var i: nat :| i < |answers| && answers[i] == FindAnswer(answers, q.header).value && answers[i].header == q.header &&
                    forall k | 0 <= k < i :: answers[k].header != q.header;
      forall k | 0 <= k < i ensures Trim(values[k].header) != q.header { assert answers[k].header != q.header; }
      assert AnswersIt(values, i, q);
      LegalExactly(q, answers[i]);
      forall j: nat | AnswersIt(values, j, q) ensures j == i { assert answers[j].header == q.header && Trim(values[i].header) == q.header; }
    } else {
      forall j: nat ensures !AnswersIt(values, j, q) { if j < |values| { assert answers[j].header != q.header; } }
    }
  }
}
