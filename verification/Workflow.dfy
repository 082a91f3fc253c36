/**
 The stepped conversation workflow: which workflows are accepted, where a session stands,
 what the post-turn judge's verdict does to it. The judge's model call is an argument.
 */
module Workflow {
  import opened Basics
  import opened Text
  import opened Orbits

  const GoalMax := 1000
  const MaxSteps := 20
  const StepIdMax := 64
  const IntentMax := 500
  const CriteriaMax := 1000

  datatype Step = Step(id: string, intent: string, criteria: string, next: string)
  datatype Flow = Flow(goal: string, steps: seq<Step>)

  predicate Bounded(s: string, max: nat) { Trim(s) != "" && ByteLength(s) <= max }

  predicate StepOk(s: Step) { Bounded(s.id, StepIdMax) && Bounded(s.intent, IntentMax) && Bounded(s.criteria, CriteriaMax) && ByteLength(s.next) <= StepIdMax }

  /** The schema's bounds, and step ids that name one step each. */
  predicate WellFormed(wf: Flow) {
    && Bounded(wf.goal, GoalMax) && 1 <= |wf.steps| <= MaxSteps
    && (forall i | 0 <= i < |wf.steps| :: StepOk(wf.steps[i]))
    && (forall i, j | 0 <= i < j < |wf.steps| :: wf.steps[i].id != wf.steps[j].id)
  }

  /** A text that is there, of at most so many bytes. */
  predicate Within(s: string, bytes: nat) { Trim(s) != "" && ByteLength(s) <= bytes }

  /** The bounds in numbers. */
  lemma WellFormedExactly(wf: Flow)
    ensures WellFormed(wf) <==>
            && Within(wf.goal, 1000) && 1 <= |wf.steps| <= 20
            && (forall s | s in wf.steps :: Within(s.id, 64) && Within(s.intent, 500) && Within(s.criteria, 1000) && ByteLength(s.next) <= 64)
            && (forall i, j | 0 <= i < j < |wf.steps| :: wf.steps[i].id != wf.steps[j].id)
  {
    forall s | s in wf.steps
      ensures StepOk(s) <==> Within(s.id, 64) && Within(s.intent, 500) && Within(s.criteria, 1000) && ByteLength(s.next) <= 64
    {}
    forall i | 0 <= i < |wf.steps| ensures wf.steps[i] in wf.steps {}
  }

  /** `ids` are the ids of the first n steps, and they differ. */
  ghost predicate IdsOf(steps: seq<Step>, n: nat, ids: set<string>) {
    && n <= |steps|
    && (forall k | 0 <= k < n :: steps[k].id in ids)
    && (forall id | id in ids :: exists k :: 0 <= k < n && steps[k].id == id)
    && (forall j, k | 0 <= j < k < n :: steps[j].id != steps[k].id)
  }

  lemma IdsNext(steps: seq<Step>, n: nat, ids: set<string>)
    requires IdsOf(steps, n, ids) && n < |steps| && steps[n].id !in ids
    ensures IdsOf(steps, n + 1, ids + {steps[n].id})
  {
    forall id | id in ids + {steps[n].id} ensures exists k :: 0 <= k < n + 1 && steps[k].id == id {
      if id in ids { var k :| 0 <= k < n && steps[k].id == id; }
    }
  }

  lemma Repeated(wf: Flow, n: nat, ids: set<string>)
    requires IdsOf(wf.steps, n, ids) && n < |wf.steps| && wf.steps[n].id in ids
    ensures !WellFormed(wf)
  {
    var k :| 0 <= k < n && wf.steps[k].id == wf.steps[n].id;
  }

  ghost predicate StepsOk(steps: seq<Step>, n: nat) { n <= |steps| && forall k | 0 <= k < n :: StepOk(steps[k]) }

  lemma StepsOkNext(steps: seq<Step>, n: nat)
    requires StepsOk(steps, n) && n < |steps| && StepOk(steps[n])
    ensures StepsOk(steps, n + 1)
  {}

  lemma BadStep(wf: Flow, n: nat)
    requires n < |wf.steps| && !StepOk(wf.steps[n])
    ensures !WellFormed(wf)
  {}

  lemma AllInOrder(wf: Flow, ids: set<string>)
    requires Bounded(wf.goal, GoalMax) && 1 <= |wf.steps| <= MaxSteps && IdsOf(wf.steps, |wf.steps|, ids) && StepsOk(wf.steps, |wf.steps|)
    ensures WellFormed(wf)
  {}

  /** The checks of one step but for the uniqueness of its id. */
  method CheckStep(s: Step) returns (ok: bool)
    ensures ok == StepOk(s)
  {
    if !Bounded(s.id, StepIdMax) { return false; }
    if !Bounded(s.intent, IntentMax) { return false; }
    if !Bounded(s.criteria, CriteriaMax) { return false; }
    ok := ByteLength(s.next) <= StepIdMax;
  }

  method ValidWorkflow(wf: Flow) returns (ok: bool)
    ensures ok == WellFormed(wf)
  {
    if !Bounded(wf.goal, GoalMax) { return false; }
    if |wf.steps| == 0 || |wf.steps| > MaxSteps { return false; }
    var ids: set<string> := {};
    for i := 0 to |wf.steps|
      invariant IdsOf(wf.steps, i, ids) && StepsOk(wf.steps, i)
    {
      ok := CheckStep(wf.steps[i]);
      if !ok {
        BadStep(wf, i);
        return false;
      }
      if wf.steps[i].id in ids {
        Repeated(wf, i, ids);
        return false;
      }
      IdsNext(wf.steps, i, ids);
      StepsOkNext(wf.steps, i);
      ids := ids + {wf.steps[i].id};
    }
    AllInOrder(wf, ids);
    ok := true;
  }

  /** The first step of that id, -1 if there is none. */
  function IndexOf(steps: seq<Step>, id: string): (i: int)
    ensures -1 <= i < |steps|
  {
    if steps == [] then -1
    else if steps[0].id == id then 0
    else
      var rest := IndexOf(steps[1..], id);
      if rest < 0 then -1 else rest + 1
  }

  lemma {:induction false} IndexOfFinds(steps: seq<Step>, id: string)
    ensures var i := IndexOf(steps, id);
            if i >= 0 then steps[i].id == id && forall j | 0 <= j < i :: steps[j].id != id
            else forall j | 0 <= j < |steps| :: steps[j].id != id
  {
    if steps != [] && steps[0].id != id {
      IndexOfFinds(steps[1..], id);
      assert forall j | 0 < j < |steps| :: steps[j] == steps[1..][j - 1];
    }
  }

  /** Where a stored id stands: on the step it names, else on the first. */
  function ResolveCurrentStep(wf: Flow, at: string): Option<nat> {
    if |wf.steps| == 0 then None
    else if at != "" && IndexOf(wf.steps, at) >= 0 then Some(IndexOf(wf.steps, at))
    else Some(0)
  }

  /** The explicit next step if it resolves, else the following one, else none. */
  function NextStep(wf: Flow, current: Step): Option<nat> {
    if current.next != "" && IndexOf(wf.steps, current.next) >= 0 then Some(IndexOf(wf.steps, current.next))
    else
      var i := IndexOf(wf.steps, current.id);
      if i == -1 || i + 1 >= |wf.steps| then None else Some(i + 1)
  }

  datatype Verdict = Yes | No | Maybe | Skipped

  function AdvanceStep(wf: Flow, at: string, verdict: Verdict): string {
    var current := ResolveCurrentStep(wf, at);
    if current.None? then ""
    else
      var next := NextStep(wf, wf.steps[current.value]);
      if verdict.Yes? && next.Some? then wf.steps[next.value].id else wf.steps[current.value].id
  }

  /** The dispatcher stores the id only when it is set and moved. */
  function Stored(wf: Flow, at: string, verdict: Verdict): string {
    var next := AdvanceStep(wf, at, verdict);
    if next != "" && next != at then next else at
  }

  // ---------------------------------------------------------------- judged turns

  /** The stored step id after a sequence of verdicts, from a session that has none. */
  function After(wf: Flow, verdicts: seq<Verdict>): string {
    if verdicts == [] then "" else Stored(wf, After(wf, verdicts[..|verdicts| - 1]), verdicts[|verdicts| - 1])
  }

  function Yeses(verdicts: seq<Verdict>): nat {
    if verdicts == [] then 0 else Yeses(verdicts[..|verdicts| - 1]) + (if verdicts[|verdicts| - 1].Yes? then 1 else 0)
  }

  /** A terminal step is its own successor. */
  function Successor(wf: Flow, i: nat): (r: nat)
    requires i < |wf.steps|
    ensures r < |wf.steps|
  {
    var next := NextStep(wf, wf.steps[i]);
    if next.Some? then next.value else i
  }

  function Iterate(wf: Flow, k: nat): (r: nat)
    requires |wf.steps| > 0
    ensures r < |wf.steps|
  {
    if k == 0 then 0 else Successor(wf, Iterate(wf, k - 1))
  }

  function Position(wf: Flow, at: string): (r: nat)
    requires |wf.steps| > 0
    ensures r < |wf.steps|
  {
    ResolveCurrentStep(wf, at).value
  }

  /** What the theorems need of a well-formed workflow: it has steps, and their ids are not empty and differ. */
  predicate Keyed(wf: Flow) {
    && |wf.steps| > 0
    && (forall i | 0 <= i < |wf.steps| :: wf.steps[i].id != "")
    && (forall i, j | 0 <= i < j < |wf.steps| :: wf.steps[i].id != wf.steps[j].id)
  }

  lemma WellFormedIsKeyed(wf: Flow)
    requires WellFormed(wf)
    ensures Keyed(wf)
  {
    forall i | 0 <= i < |wf.steps| ensures wf.steps[i].id != "" { assert StepOk(wf.steps[i]); }
  }

  lemma IdNamesItsStep(wf: Flow, i: nat)
    requires Keyed(wf) && i < |wf.steps|
    ensures IndexOf(wf.steps, wf.steps[i].id) == i && wf.steps[i].id != ""
  {
    IndexOfFinds(wf.steps, wf.steps[i].id);
  }

  /** After a judged turn the stored id names a real step. */
  lemma TurnNamesAStep(wf: Flow, at: string, verdict: Verdict)
    requires Keyed(wf)
    ensures Stored(wf, at, verdict) != "" && IndexOf(wf.steps, Stored(wf, at, verdict)) >= 0
  {
    var i := Position(wf, at);
    IdNamesItsStep(wf, i);
    IdNamesItsStep(wf, Successor(wf, i));
  }

  /** Only a yes moves the conversation, and it moves it to the successor. */
  lemma TurnMoves(wf: Flow, at: string, verdict: Verdict)
    requires Keyed(wf)
    ensures Position(wf, Stored(wf, at, verdict)) ==
            if verdict.Yes? then Successor(wf, Position(wf, at)) else Position(wf, at)
  {
    var i := Position(wf, at);
    IdNamesItsStep(wf, i);
    IdNamesItsStep(wf, Successor(wf, i));
  }

  /** The stored step is empty or a real step, after any verdicts. */
  lemma StoredIsReal(wf: Flow, verdicts: seq<Verdict>)
    requires Keyed(wf)
    ensures if verdicts == [] then After(wf, verdicts) == "" else IndexOf(wf.steps, After(wf, verdicts)) >= 0
  {
    if verdicts != [] { TurnNamesAStep(wf, After(wf, verdicts[..|verdicts| - 1]), verdicts[|verdicts| - 1]); }
  }

  predicate StandsAtIterate(wf: Flow, verdicts: seq<Verdict>)
    requires |wf.steps| > 0
  {
    Position(wf, After(wf, verdicts)) == Iterate(wf, Yeses(verdicts))
  }

  lemma IterateNext(wf: Flow, verdicts: seq<Verdict>, v: Verdict)
    requires Keyed(wf) && StandsAtIterate(wf, verdicts)
    ensures StandsAtIterate(wf, verdicts + [v])
  {
    assert (verdicts + [v])[..|verdicts|] == verdicts;
    TurnMoves(wf, After(wf, verdicts), v);
  }

  /** After any verdicts the session stands at the k-th iterate of the successor, k the number of yeses. */
  lemma {:induction false} PositionIsIterate(wf: Flow, verdicts: seq<Verdict>)
    requires Keyed(wf)
    ensures StandsAtIterate(wf, verdicts)
  {
    if verdicts != [] {
      var init, last := verdicts[..|verdicts| - 1], verdicts[|verdicts| - 1];
      PositionIsIterate(wf, init);
      IterateNext(wf, init, last);
      assert init + [last] == verdicts;
    }
  }

  // ---------------------------------------------------------------- reaching the end

  predicate Terminal(wf: Flow, i: nat)
    requires i < |wf.steps|
  {
    NextStep(wf, wf.steps[i]).None?
  }

  /** Every next link that resolves points to a later step. */
  predicate Forward(wf: Flow) {
    forall i | 0 <= i < |wf.steps| && wf.steps[i].next != "" && IndexOf(wf.steps, wf.steps[i].next) >= 0 ::
      i < IndexOf(wf.steps, wf.steps[i].next)
  }

  lemma {:induction false} ForwardClimbs(wf: Flow, k: nat)
    requires Keyed(wf) && Forward(wf)
    ensures k < |wf.steps| - 1 ==> k <= Iterate(wf, k)
    ensures k >= |wf.steps| - 1 ==> Iterate(wf, k) == |wf.steps| - 1
  {
    if k > 0 {
      ForwardClimbs(wf, k - 1);
      IdNamesItsStep(wf, Iterate(wf, k - 1));
    }
  }

  lemma ForwardLastIsTerminal(wf: Flow)
    requires Keyed(wf) && Forward(wf)
    ensures Terminal(wf, |wf.steps| - 1)
  {
    IdNamesItsStep(wf, |wf.steps| - 1);
  }

  /** With forward links only, n - 1 yeses bring any conversation to the last step, which is terminal. */
  lemma ForwardReachesTheEnd(wf: Flow, verdicts: seq<Verdict>)
    requires Keyed(wf) && Forward(wf) && Yeses(verdicts) >= |wf.steps| - 1
    ensures Position(wf, After(wf, verdicts)) == |wf.steps| - 1 && Terminal(wf, Position(wf, After(wf, verdicts)))
  {
    PositionIsIterate(wf, verdicts);
    ForwardClimbs(wf, Yeses(verdicts));
    ForwardLastIsTerminal(wf);
  }

  /** The successors of all steps. */
  function Links(wf: Flow): (next: seq<nat>)
    ensures Closed(next)
  {
    seq(|wf.steps|, i requires 0 <= i < |wf.steps| => Successor(wf, i))
  }

  predicate OnOrbit(wf: Flow, k: nat)
    requires |wf.steps| > 0
  {
    Iterate(wf, k) == Orbit(Links(wf), k)
  }

  lemma {:induction false} IterateIsOrbit(wf: Flow, k: nat)
    requires |wf.steps| > 0
    ensures OnOrbit(wf, k)
  {
    if k > 0 {
      IterateIsOrbit(wf, k - 1);
      OrbitNext(wf, k - 1);
    }
  }

  lemma OrbitNext(wf: Flow, k: nat)
    requires |wf.steps| > 0 && OnOrbit(wf, k)
    ensures OnOrbit(wf, k + 1)
  {
    assert Links(wf)[Iterate(wf, k)] == Successor(wf, Iterate(wf, k));
  }

  function Terminals(wf: Flow): (r: set<nat>)
    ensures AllStop(Links(wf), r)
  {
    set i | 0 <= i < |wf.steps| && Terminal(wf, i)
  }

  /** After k yeses the conversation stands on a terminal step. */
  predicate EndedBy(wf: Flow, k: nat)
    requires |wf.steps| > 0
  {
    Terminal(wf, Iterate(wf, k))
  }

  /**
   Whatever the links, a conversation that can end at all ends within n - 1 yeses: if any
   number of yeses reaches a terminal step, n - 1 do.
   */
  lemma EndsSoonOrNever(wf: Flow, k: nat)
    requires |wf.steps| > 0 && EndedBy(wf, k)
    ensures EndedBy(wf, |wf.steps| - 1)
  {
    StopsByTheLast(wf, k);
    TerminalOrbit(wf, |wf.steps| - 1);
  }

  lemma StopsByTheLast(wf: Flow, k: nat)
    requires |wf.steps| > 0 && EndedBy(wf, k)
    ensures Stopped(Links(wf), Terminals(wf), |wf.steps| - 1)
  {
    TerminalOrbit(wf, k);
    StopsSoonOrNever(Links(wf), Terminals(wf), k);
  }

  lemma TerminalOrbit(wf: Flow, k: nat)
    requires |wf.steps| > 0
    ensures EndedBy(wf, k) <==> Stopped(Links(wf), Terminals(wf), k)
  {
    IterateIsOrbit(wf, k);
  }

  const BackAndForth := Flow("g", [Step("a", "i", "c", ""), Step("b", "i", "c", "a")])

  lemma BackAndForthIsWellFormed()
    ensures WellFormed(BackAndForth)
  {
    assert Trim("g") == "g" && Trim("a") == "a" && Trim("b") == "b" && Trim("i") == "i" && Trim("c") == "c";
    assert "a"[0] != "b"[0];
  }

  lemma BackAndForthGoesOn(i: nat)
    requires i < 2
    ensures !Terminal(BackAndForth, i)
  {
    assert IndexOf(BackAndForth.steps, "a") == 0;
  }

  /** A backward link can keep a conversation from ever ending, though every verdict is yes. */
  lemma BackwardLinkNeverEnds(k: nat)
    ensures WellFormed(BackAndForth) && !EndedBy(BackAndForth, k)
  {
    BackAndForthIsWellFormed();
    BackAndForthGoesOn(Iterate(BackAndForth, k));
  }

  // ---------------------------------------------------------------- the judge

  predicate IsWord(c: char) { '0' <= c <= '9' || 'A' <= c <= 'Z' || 'a' <= c <= 'z' || c == '_' }

  /** w stands at position i as a word of its own. */
  predicate StandsAt(s: string, i: nat, w: string) {
    && i + |w| <= |s| && s[i..i + |w|] == w
    && (i == 0 || !IsWord(s[i - 1])) && (i + |w| == |s| || !IsWord(s[i + |w|]))
  }

  /** A word character, by its code: a digit, a capital, an underscore or a small letter. */
  lemma IsWordExactly(c: char)
    ensures IsWord(c) <==> 48 <= c as int <= 57 || 65 <= c as int <= 90 || c as int == 95 || 97 <= c as int <= 122
  {}

  /** The word is the middle of the text, between two places that are no part of a word. */
  lemma StandsExactly(pre: string, w: string, post: string)
    ensures StandsAt(pre + w + post, |pre|, w) <==> (pre == "" || !IsWord(pre[|pre| - 1])) && (post == "" || !IsWord(post[0]))
  {
    var s := pre + w + post;
    assert s[|pre|..|pre| + |w|] == w;
    if post != "" { assert s[|pre| + |w|] == post[0]; }
  }

  function VerdictAt(s: string, i: nat): Option<Verdict> {
    if StandsAt(s, i, "yes") then Some(Yes)
    else if StandsAt(s, i, "no") then Some(No)
    else if StandsAt(s, i, "maybe") then Some(Maybe)
    else None
  }

  function Verdicts(s: string): seq<Option<Verdict>> { seq(|s|, i requires 0 <= i < |s| => VerdictAt(s, i)) }

  function FirstSome(vs: seq<Option<Verdict>>, i: nat): (v: Option<Verdict>)
    requires i <= |vs|
    ensures v.None? ==> forall k | i <= k < |vs| :: vs[k].None?
    ensures v.Some? ==> exists k | i <= k < |vs| :: vs[k] == v && forall j | i <= j < k :: vs[j].None?
    decreases |vs| - i
  {
    if i == |vs| then None else if vs[i].Some? then vs[i] else FirstSome(vs, i + 1)
  }

  /** The leftmost standalone yes, no or maybe. */
  function FirstVerdict(s: string): Option<Verdict> { FirstSome(Verdicts(s), 0) }

  function Named(word: string): Option<Verdict> {
    if word == "yes" then Some(Yes) else if word == "no" then Some(No) else if word == "maybe" then Some(Maybe) else None
  }

  /** `json` is what decoding the reply as an object gives for its "verdict" field, None if it does not decode. */
  function ParseVerdict(content: string, json: Option<string>): Verdict {
    var trimmed := Trim(content);
    var field := if json.Some? then Named(Lower(Trim(json.value))) else None;
    if trimmed == "" then Skipped
    else if field.Some? then field.value
    else
      var scanned := FirstVerdict(Lower(trimmed));
      if scanned.Some? then scanned.value else Skipped
  }

  /** What the model call of a judge gives: an error, or a reply and its JSON reading. */
  datatype Chat = Failed | Replied(content: string, json: Option<string>)

  function JudgeWorkflowStep(hasClient: bool, wf: Flow, at: string, reply: string, chat: Chat): Verdict {
    if !hasClient || ResolveCurrentStep(wf, at).None? || Trim(reply) == "" || chat.Failed? then Skipped
    else ParseVerdict(chat.content, chat.json)
  }

  function WordOf(v: Verdict): string {
    match v
    case Yes => "yes"
    case No => "no"
    case Maybe => "maybe"
    case Skipped => ""
  }

  /** The first standalone verdict word of s is that of v. */
  ghost predicate Says(s: string, v: Verdict) { exists k: nat :: k < |s| && SaysAt(s, k, v) }

  predicate SaysAt(s: string, k: nat, v: Verdict) { StandsAt(s, k, WordOf(v)) && forall j | 0 <= j < k :: NoWordAt(s, j) }

  /** None of the three words stands there. */
  predicate NoWordAt(s: string, j: nat) { !StandsAt(s, j, "yes") && !StandsAt(s, j, "no") && !StandsAt(s, j, "maybe") }

  lemma OneWordAt(s: string, k: nat, v: Verdict)
    requires k < |s| && v != Skipped
    ensures VerdictAt(s, k) == Some(v) <==> StandsAt(s, k, WordOf(v))
  {
    if StandsAt(s, k, WordOf(v)) {
      assert s[k] == WordOf(v)[0] by { assert s[k..k + |WordOf(v)|][0] == s[k]; }
      if StandsAt(s, k, "yes") { assert s[k..k + 3][0] == s[k]; }
      if StandsAt(s, k, "no") { assert s[k..k + 2][0] == s[k]; }
      if StandsAt(s, k, "maybe") { assert s[k..k + 5][0] == s[k]; }
    }
  }

  predicate LeftmostSome(vs: seq<Option<Verdict>>, k: nat) { k < |vs| && vs[k].Some? && forall j | 0 <= j < k :: vs[j].None? }

  lemma FirstSomeIs(vs: seq<Option<Verdict>>, v: Verdict)
    ensures FirstSome(vs, 0) == Some(v) <==> exists k: nat :: LeftmostSome(vs, k) && vs[k] == Some(v)
  {
    if k: nat :| LeftmostSome(vs, k) && vs[k] == Some(v) {
      assert FirstSome(vs, 0).Some?;
      var i :| 0 <= i < |vs| && vs[i] == FirstSome(vs, 0) && forall j | 0 <= j < i :: vs[j].None?;
      assert i == k;
    }
    if FirstSome(vs, 0) == Some(v) {
      var i :| 0 <= i < |vs| && vs[i] == Some(v) && forall j | 0 <= j < i :: vs[j].None?;
      assert LeftmostSome(vs, i);
    }
  }

  lemma FirstIs(s: string, v: Verdict)
    requires v != Skipped
    ensures FirstVerdict(s) == Some(v) <==> Says(s, v)
  {
    FirstSomeIs(Verdicts(s), v);
    forall k: nat | k < |s| ensures LeftmostSome(Verdicts(s), k) && Verdicts(s)[k] == Some(v) <==> SaysAt(s, k, v) { SaysAtIs(s, k, v); }
    if k: nat :| k < |s| && SaysAt(s, k, v) { assert LeftmostSome(Verdicts(s), k); }
  }

  lemma SaysAtIs(s: string, k: nat, v: Verdict)
    requires k < |s| && v != Skipped
    ensures LeftmostSome(Verdicts(s), k) && Verdicts(s)[k] == Some(v) <==> SaysAt(s, k, v)
  {
    var vs := Verdicts(s);
    OneWordAt(s, k, v);
    forall j | 0 <= j < k ensures vs[j].None? <==> NoWordAt(s, j) { assert vs[j] == VerdictAt(s, j); }
  }

  /** A verdict is what the reply says: in its verdict field, or as its first standalone verdict word. */
  lemma VerdictIsSaid(content: string, json: Option<string>, v: Verdict)
    requires v != Skipped
    ensures ParseVerdict(content, json) == v <==>
            && Trim(content) != ""
            && (|| (json.Some? && Lower(Trim(json.value)) == WordOf(v))
                || ((json.Some? ==> Lower(Trim(json.value)) !in {"yes", "no", "maybe"}) && Says(Lower(Trim(content)), v)))
  {
    FirstIs(Lower(Trim(content)), v);
  }

  /** The judge gives a verdict exactly when it can run, there is a step to judge and a reply to judge, and its own reply says one. */
  lemma JudgeExactly(hasClient: bool, wf: Flow, at: string, reply: string, chat: Chat, v: Verdict)
    requires v != Skipped
    ensures JudgeWorkflowStep(hasClient, wf, at, reply, chat) == v <==>
            hasClient && wf.steps != [] && Trim(reply) != "" && chat.Replied? && ParseVerdict(chat.content, chat.json) == v
  {}

  /** A judge that cannot run, fails or says nothing leaves the conversation where it was. */
  lemma SilentJudgeStays(hasClient: bool, wf: Flow, at: string, reply: string, chat: Chat)
    requires Keyed(wf) && (!hasClient || Trim(reply) == "" || chat.Failed? || Trim(chat.content) == "")
    ensures Position(wf, Stored(wf, at, JudgeWorkflowStep(hasClient, wf, at, reply, chat))) == Position(wf, at)
  {
    TurnMoves(wf, at, JudgeWorkflowStep(hasClient, wf, at, reply, chat));
  }
}
