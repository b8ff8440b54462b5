/**
 * `presenceAcross`: one process publishes the question, learns from the publish how many
 * processes heard it, and merges that many replies. Publish result, request receipt,
 * each reply and the timeout are separate steps, and membership churns throughout.
 */
module Gather {
  import opened Options
  import opened Presence

  type Process = nat

  // ------------------------------------------------------------------ the asker's record

  /** The entry in `gathers`; `expected` is none until the publish answers (infinity). */
  datatype Asker = Asker(members: seq<Member>, replies: nat, expected: Option<nat>, finished: bool) {
    predicate Complete() {
      expected.Some? && replies >= expected.value
    }
  }

  const NEW_ASKER := Asker([], 0, None, false)

  /** One reply off the bus. */
  function Count(a: Asker, members: seq<Member>): Asker {
    var b := a.(members := a.members + members, replies := a.replies + 1);
    b.(finished := a.finished || b.Complete())
  }

  /** The publish answered: replies may already be in, so the count is checked here too. */
  function Expect(a: Asker, heard: nat): Asker {
    var b := a.(expected := Some(heard));
    b.(finished := a.finished || b.Complete())
  }

  function Expire(a: Asker): Asker {
    a.(finished := true)
  }

  // ------------------------------------------------------------------ the system

  /**
   * `present` is what each process would answer now, `asked` the processes the question is
   * still travelling to, `replying` the replies travelling back. `asker` is the live
   * record until the gather answers.
   */
  datatype State = State(
    present: map<Process, seq<Member>>,
    asked: set<Process>,
    replying: map<Process, seq<Member>>,
    asker: Asker,
    answer: Option<seq<Member>>)

  function Start(present: map<Process, seq<Member>>, heard: set<Process>): State {
    State(present, heard, map[], NEW_ASKER, None)
  }

  function PresentAt(s: State, p: Process): seq<Member> {
    if p in s.present then s.present[p] else []
  }

  /**
   * An `Answer` after a timeout may come before `Published`; the source awaits its publish
   * first, so the machine has every run of the source and some more.
   */
  datatype Step =
    | Churn(process: Process, members: seq<Member>)
    | Hear(process: Process)
    | Reply(process: Process)
    | Published
    | Timeout
    | Answer

  predicate Enabled(s: State, step: Step) {
    match step
    case Churn(_, _) => true
    case Hear(p) => p in s.asked
    case Reply(p) => p in s.replying
    case Published => s.asker.expected.None? && s.answer.None?
    case Timeout => s.answer.None?
    case Answer => s.asker.finished && s.answer.None?
  }

  function Next(heard: set<Process>, s: State, step: Step): State
    requires Enabled(s, step)
  {
    match step
    case Churn(p, members) => s.(present := s.present[p := members])
    case Hear(p) => s.(asked := s.asked - {p}, replying := s.replying[p := PresentAt(s, p)])
    case Reply(p) =>
      s.(replying := s.replying - {p},
         asker := if s.answer.Some? then s.asker else Count(s.asker, s.replying[p]))
    case Published => s.(asker := Expect(s.asker, |heard|))
    case Timeout => s.(asker := Expire(s.asker))
    case Answer => s.(answer := Some(Distinct(s.asker.members)))
  }

  /** The states of a run, the starting one first. */
  ghost predicate Trace(heard: set<Process>, states: seq<State>, steps: seq<Step>) {
    && |states| == |steps| + 1
    && (exists present :: states[0] == Start(present, heard))
    && (forall i {:trigger steps[i]} :: 0 <= i < |steps| ==>
          Enabled(states[i], steps[i]) && states[i + 1] == Next(heard, states[i], steps[i]))
  }

  ghost predicate Timed(steps: seq<Step>) {
    Timeout in steps
  }

  // ------------------------------------------------------------------ the invariant

  /** Processes whose reply has reached the asker. */
  function Counted(heard: set<Process>, s: State): set<Process> {
    heard - s.asked - s.replying.Keys
  }

  ghost predicate Inv(heard: set<Process>, s: State, timed: bool) {
    && s.asked <= heard && s.replying.Keys <= heard && s.asked !! s.replying.Keys
    && (s.answer.None? ==> s.asker.replies == |Counted(heard, s)|)
    && (s.asker.expected.Some? ==> s.asker.expected.value == |heard|)
    && (s.asker.Complete() ==> s.asker.finished)
    && (s.asker.finished && !timed ==> s.asker.Complete() && Counted(heard, s) == heard)
    && (s.answer.Some? ==> s.asker.finished && s.answer.value == Distinct(s.asker.members))
  }

  lemma CountedAll(heard: set<Process>, s: State)
    requires s.asked <= heard && s.replying.Keys <= heard
    requires |Counted(heard, s)| >= |heard|
    ensures Counted(heard, s) == heard
  {
    var counted := Counted(heard, s);
    assert heard == counted + (heard - counted);
    assert |heard| == |counted| + |heard - counted|;
    assert heard - counted == {};
  }

  lemma HearCountsNobody(heard: set<Process>, s: State, p: Process)
    requires p in s.asked && s.asked <= heard && s.asked !! s.replying.Keys
    ensures var t := Next(heard, s, Hear(p));
            && t.asked == s.asked - {p} && t.replying.Keys == s.replying.Keys + {p}
            && Counted(heard, t) == Counted(heard, s)
  {
    assert Counted(heard, Next(heard, s, Hear(p))) == Counted(heard, s);
  }

  lemma HearKeeps(heard: set<Process>, s: State, p: Process, timed: bool)
    requires Inv(heard, s, timed) && p in s.asked
    ensures Inv(heard, Next(heard, s, Hear(p)), timed)
  {
    HearCountsNobody(heard, s, p);
    SameCount(heard, s, Next(heard, s, Hear(p)), timed);
  }

  lemma SameCount(heard: set<Process>, s: State, t: State, timed: bool)
    requires Inv(heard, s, timed)
    requires t.asker == s.asker && t.answer == s.answer && Counted(heard, t) == Counted(heard, s)
    requires t.asked <= heard && t.replying.Keys <= heard && t.asked !! t.replying.Keys
    ensures Inv(heard, t, timed)
  {}

  lemma ReplyKeeps(heard: set<Process>, s: State, p: Process, timed: bool)
    requires Inv(heard, s, timed) && p in s.replying
    ensures Inv(heard, Next(heard, s, Reply(p)), timed)
  {
    var t := Next(heard, s, Reply(p));
    assert t.replying.Keys == s.replying.Keys - {p};
    assert Counted(heard, t) == Counted(heard, s) + {p};
    assert p in heard && p !in Counted(heard, s);
    if t.asker.Complete() && t.answer.None? {
      CountedAll(heard, t);
    }
  }

  lemma PublishedKeeps(heard: set<Process>, s: State, timed: bool)
    requires Inv(heard, s, timed) && Enabled(s, Published)
    ensures Inv(heard, Next(heard, s, Published), timed)
  {
    var t := Next(heard, s, Published);
    if t.asker.Complete() {
      CountedAll(heard, t);
    }
  }

  lemma NextKeeps(heard: set<Process>, s: State, step: Step, timed: bool)
    requires Inv(heard, s, timed) && Enabled(s, step)
    ensures Inv(heard, Next(heard, s, step), timed || step == Timeout)
  {
    match step
    case Churn(_, _) =>
    case Hear(p) => HearKeeps(heard, s, p, timed);
    case Reply(p) => ReplyKeeps(heard, s, p, timed);
    case Published => PublishedKeeps(heard, s, timed);
    case Timeout =>
    case Answer =>
  }

  lemma StartInv(present: map<Process, seq<Member>>, heard: set<Process>)
    ensures Inv(heard, Start(present, heard), false)
  {
    assert Counted(heard, Start(present, heard)) == {};
  }

  lemma TimedPrefix(steps: seq<Step>, i: nat)
    requires i < |steps|
    ensures Timed(steps[..i + 1]) <==> Timed(steps[..i]) || steps[i] == Timeout
  {
    assert steps[..i + 1] == steps[..i] + [steps[i]];
  }

  lemma {:induction false} TraceKeeps(heard: set<Process>, states: seq<State>, steps: seq<Step>, i: nat)
    requires Trace(heard, states, steps) && i <= |steps|
    ensures Inv(heard, states[i], Timed(steps[..i]))
  {
    if i == 0 {
      var present :| states[0] == Start(present, heard);
      StartInv(present, heard);
    } else {
      TraceKeeps(heard, states, steps, i - 1);
      NextKeeps(heard, states[i - 1], steps[i - 1], Timed(steps[..i - 1]));
      TimedPrefix(steps, i - 1);
    }
  }

  // ------------------------------------------------------------------ the theorems

  /**
   * Without a timeout the gather is finished exactly when the publish has answered and
   * every process that heard the question has been counted, whichever came last.
   */
  lemma FinishesExactlyWhenAllReplied(heard: set<Process>, states: seq<State>, steps: seq<Step>)
    requires Trace(heard, states, steps) && !Timed(steps)
    ensures var s := states[|steps|];
            s.answer.None? ==>
              && s.asker.replies <= |heard|
              && (s.asker.finished <==> s.asker.expected.Some? && s.asked == {} && s.replying == map[])
              && (s.asker.finished <==> s.asker.expected.Some? && s.asker.replies == |heard|)
  {
    var s := states[|steps|];
    assert steps[..|steps|] == steps;
    TraceKeeps(heard, states, steps, |steps|);
    CountedIsSmaller(heard, s);
    if s.answer.None? && s.asker.replies == |heard| {
      CountedAll(heard, s);
    }
    if Counted(heard, s) == heard {
      assert s.asked == {} && s.replying.Keys == {};
    }
  }

  lemma CountedIsSmaller(heard: set<Process>, s: State)
    ensures |Counted(heard, s)| <= |heard|
  {
    var counted := Counted(heard, s);
    assert heard == counted + (heard - counted);
    assert |heard| == |counted| + |heard - counted|;
  }

  /** Somebody with this id was on some process at some moment up to state `i`. */
  ghost predicate EverPresent(states: seq<State>, i: nat, id: Id)
    requires i < |states|
  {
    exists k, p :: 0 <= k <= i && id in Ids(PresentAt(states[k], p))
  }

  lemma {:induction false} OnlyReported(heard: set<Process>, states: seq<State>, steps: seq<Step>, i: nat)
    requires Trace(heard, states, steps) && i <= |steps|
    ensures forall id :: id in Ids(states[i].asker.members) ==> EverPresent(states, i, id)
    ensures forall p, id :: p in states[i].replying && id in Ids(states[i].replying[p]) ==> EverPresent(states, i, id)
  {
    if i > 0 {
      OnlyReported(heard, states, steps, i - 1);
      var s, t, step := states[i - 1], states[i], steps[i - 1];
      forall id | EverPresent(states, i - 1, id) ensures EverPresent(states, i, id) {
        var k, p :| 0 <= k <= i - 1 && id in Ids(PresentAt(states[k], p));
      }
      if step.Reply? && s.answer.None? {
        IdsOfConcat(s.asker.members, s.replying[step.process]);
      }
      forall p, id | p in t.replying && id in Ids(t.replying[p]) ensures EverPresent(states, i, id) {
        if step.Hear? && p == step.process {
          assert id in Ids(PresentAt(states[i - 1], p));
        } else {
          assert p in s.replying && t.replying[p] == s.replying[p];
        }
      }
    }
  }

  lemma IdsOfConcat(a: seq<Member>, b: seq<Member>)
    ensures Ids(a + b) == Ids(a) + Ids(b)
  {
    assert forall m :: m in a + b <==> m in a || m in b;
  }

  /** The answer names each person once, and only people some process reported, timeout or not. */
  lemma AnswerIsReported(heard: set<Process>, states: seq<State>, steps: seq<Step>)
    requires Trace(heard, states, steps) && states[|steps|].answer.Some?
    ensures var answer := states[|steps|].answer.value;
            NoDuplicates(answer) && forall id :: id in Ids(answer) ==> EverPresent(states, |steps|, id)
  {
    TraceKeeps(heard, states, steps, |steps|);
    OnlyReported(heard, states, steps, |steps|);
  }

  /** Whoever a process holds from the start to now is still to be asked, in a reply, or collected. */
  lemma {:induction false} StayerIsCarried(heard: set<Process>, states: seq<State>, steps: seq<Step>, i: nat,
                                           p: Process, id: Id)
    requires Trace(heard, states, steps) && i <= |steps| && p in heard
    requires forall k :: 0 <= k <= i ==> id in Ids(PresentAt(states[k], p))
    requires forall k :: 0 <= k < i ==> states[k].answer.None?
    ensures var s := states[i];
            p in s.asked || (p in s.replying && id in Ids(s.replying[p])) || id in Ids(s.asker.members)
  {
    if i > 0 {
      StayerIsCarried(heard, states, steps, i - 1, p, id);
      var s, step := states[i - 1], steps[i - 1];
      if step.Reply? {
        IdsOfConcat(s.asker.members, s.replying[step.process]);
      }
    }
  }

  /**
   * Without a timeout, everybody some hearing process holds from the question to the
   * answer is in the answer.
   */
  lemma StayersAreAnswered(heard: set<Process>, states: seq<State>, steps: seq<Step>, i: nat, p: Process, id: Id)
    requires Trace(heard, states, steps) && !Timed(steps)
    requires i < |steps| && steps[i] == Answer && p in heard
    requires forall k :: 0 <= k <= i ==> id in Ids(PresentAt(states[k], p))
    ensures states[i + 1].answer.Some? && id in Ids(states[i + 1].answer.value)
  {
    forall k | 0 <= k < i ensures states[k].answer.None? {
      AnswersOnce(heard, states, steps, k, i);
    }
    StayerIsCarried(heard, states, steps, i, p, id);
    TraceKeeps(heard, states, steps, i);
    assert !Timed(steps[..i]) && states[i].asker.finished;
    assert Counted(heard, states[i]) == heard;
  }

  lemma {:induction false} AnswersOnce(heard: set<Process>, states: seq<State>, steps: seq<Step>, k: nat, i: nat)
    requires Trace(heard, states, steps) && k <= i < |steps| && states[i].answer.None?
    ensures states[k].answer.None?
    decreases i - k
  {
    if k < i {
      AnswersOnce(heard, states, steps, k + 1, i);
      assert Enabled(states[k], steps[k]);
    }
  }

  // ------------------------------------------------------------------ what an answer is made of

  /** Who a process holds: as it last changed, or as it was at the question. */
  function LastHeld(present: map<Process, seq<Member>>, steps: seq<Step>, p: Process): seq<Member> {
    if steps == [] then if p in present then present[p] else []
    else
      var last := steps[|steps| - 1];
      if last.Churn? && last.process == p then last.members else LastHeld(present, steps[..|steps| - 1], p)
  }

  /** What a process held as it heard the question. */
  function ReplyOf(present: map<Process, seq<Member>>, steps: seq<Step>, p: Process): seq<Member> {
    if steps == [] then []
    else
      var front := steps[..|steps| - 1];
      if steps[|steps| - 1] == Hear(p) then LastHeld(present, front, p) else ReplyOf(present, front, p)
  }

  /** The replies that came in, in order of arrival. */
  function Collected(present: map<Process, seq<Member>>, steps: seq<Step>): seq<Member> {
    if steps == [] then []
    else
      var front, last := steps[..|steps| - 1], steps[|steps| - 1];
      Collected(present, front) + if last.Reply? then ReplyOf(present, front, last.process) else []
  }

  ghost predicate Gathered(present: map<Process, seq<Member>>, steps: seq<Step>, s: State) {
    && (forall p :: PresentAt(s, p) == LastHeld(present, steps, p))
    && (forall p :: p in s.replying ==> s.replying[p] == ReplyOf(present, steps, p))
    && (s.answer.None? ==> s.asker.members == Collected(present, steps))
  }

  lemma NextGathers(heard: set<Process>, present: map<Process, seq<Member>>, front: seq<Step>, s: State, step: Step)
    requires Gathered(present, front, s) && Enabled(s, step)
    ensures Gathered(present, front + [step], Next(heard, s, step))
  {
    assert (front + [step])[..|front|] == front;
  }

  lemma {:induction false} TraceGathers(heard: set<Process>, present: map<Process, seq<Member>>, states: seq<State>,
                                        steps: seq<Step>, i: nat)
    requires Trace(heard, states, steps) && states[0] == Start(present, heard) && i <= |steps|
    ensures Gathered(present, steps[..i], states[i])
  {
    if i > 0 {
      TraceGathers(heard, present, states, steps, i - 1);
      NextGathers(heard, present, steps[..i - 1], states[i - 1], steps[i - 1]);
      assert steps[..i] == steps[..i - 1] + [steps[i - 1]];
    }
  }

  /**
   * Timeout or not, the answer is the replies that came in before it, in order of arrival
   * and one entry per id, each as its process stood when it heard the question.
   */
  lemma AnswerIsWhatWasReplied(heard: set<Process>, present: map<Process, seq<Member>>, states: seq<State>,
                               steps: seq<Step>, i: nat)
    requires Trace(heard, states, steps) && states[0] == Start(present, heard)
    requires i < |steps| && steps[i] == Answer
    ensures states[i + 1].answer == Some(Distinct(Collected(present, steps[..i])))
  {
    TraceGathers(heard, present, states, steps, i);
    assert Enabled(states[i], steps[i]);
  }

  /** From its timeout on a gather can answer, whoever is still missing. */
  lemma {:induction false} TimeoutFinishes(heard: set<Process>, states: seq<State>, steps: seq<Step>, k: nat, i: nat)
    requires Trace(heard, states, steps) && k < i <= |steps| && steps[k] == Timeout
    ensures states[i].asker.finished && (states[i].answer.None? ==> Enabled(states[i], Answer))
    decreases i
  {
    assert Enabled(states[i - 1], steps[i - 1]);
    if k < i - 1 {
      TimeoutFinishes(heard, states, steps, k, i - 1);
    }
  }

  // ------------------------------------------------------------------ progress

  /** How many protocol steps are left. */
  function Work(s: State): nat {
    2 * |s.asked| + |s.replying.Keys| + (if s.asker.expected.None? then 1 else 0) + (if s.answer.None? then 1 else 0)
  }

  /** A step of the protocol itself, which neither churn nor the timeout is. */
  predicate Advances(s: State, step: Step) {
    !step.Churn? && !step.Timeout? && Enabled(s, step)
  }

  lemma SomeAdvance(heard: set<Process>, s: State, timed: bool) returns (step: Step)
    requires Inv(heard, s, timed) && s.answer.None?
    ensures Advances(s, step)
  {
    if s.asked != {} {
      var p :| p in s.asked;
      step := Hear(p);
    } else if s.replying.Keys != {} {
      var p :| p in s.replying.Keys;
      step := Reply(p);
    } else if s.asker.expected.None? {
      step := Published;
    } else {
      assert Counted(heard, s) == heard;
      step := Answer;
    }
  }

  /**
   * Until it has answered, some step other than churn and the timeout can be taken, and
   * each such step leaves less to do: the gather ends within 2n + 2 of them.
   */
  lemma AlwaysAdvances(heard: set<Process>, states: seq<State>, steps: seq<Step>)
    requires Trace(heard, states, steps)
    ensures var s := states[|steps|];
            && (s.answer.None? ==> exists step: Step :: Advances(s, step))
            && (forall step: Step :: Advances(s, step) ==> Work(Next(heard, s, step)) < Work(s))
  {
    var s := states[|steps|];
    TraceKeeps(heard, states, steps, |steps|);
    if s.answer.None? {
      var step := SomeAdvance(heard, s, Timed(steps[..|steps|]));
      assert Advances(s, step);
    }
    forall step: Step | Advances(s, step) ensures Work(Next(heard, s, step)) < Work(s) {
      WorkShrinks(heard, s, step);
    }
  }

  lemma HearShrinks(heard: set<Process>, s: State, p: Process)
    requires p in s.asked
    ensures Work(Next(heard, s, Hear(p))) < Work(s)
  {
    var t := Next(heard, s, Hear(p));
    SizeOfRemoval(s.asked, p);
    assert t.replying.Keys == s.replying.Keys + {p};
    assert |s.replying.Keys + {p}| <= |s.replying.Keys| + 1;
  }

  lemma ReplyShrinks(heard: set<Process>, s: State, p: Process)
    requires p in s.replying
    ensures Work(Next(heard, s, Reply(p))) < Work(s)
  {
    assert Next(heard, s, Reply(p)).replying.Keys == s.replying.Keys - {p};
    SizeOfRemoval(s.replying.Keys, p);
  }

  lemma WorkShrinks(heard: set<Process>, s: State, step: Step)
    requires Advances(s, step)
    ensures Work(Next(heard, s, step)) < Work(s)
  {
    match step
    case Hear(p) => HearShrinks(heard, s, p);
    case Reply(p) => ReplyShrinks(heard, s, p);
    case Published =>
    case Answer =>
  }

  lemma SizeOfRemoval(all: set<Process>, p: Process)
    requires p in all
    ensures |all - {p}| == |all| - 1
  {}

  // ------------------------------------------------------------------ the class

  /** The record `presenceAcross` keeps for one question, updated as messages land. */
  class Gathering {
    var members: seq<Member>
    var replies: nat
    var expected: Option<nat>
    var finished: bool

    function View(): Asker
      reads this
    {
      Asker(members, replies, expected, finished)
    }

    constructor ()
      ensures View() == NEW_ASKER
    {
      members, replies, expected, finished := [], 0, None, false;
    }

    method Receive(reported: seq<Member>)
      modifies this
      ensures View() == Count(old(View()), reported)
    {
      members := members + reported;
      replies := replies + 1;
      if expected.Some? && replies >= expected.value {
        finished := true;
      }
    }

    method PublishAnswered(heard: nat)
      modifies this
      ensures View() == Expect(old(View()), heard)
    {
      expected := Some(heard);
      if replies >= heard {
        finished := true;
      }
    }

    method TimedOut()
      modifies this
      ensures View() == Expire(old(View()))
    {
      finished := true;
    }
  }
}
