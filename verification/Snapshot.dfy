/** Freezing a repository's signed metadata once per job while a publisher rewrites it (snapshot-repository.py). */
module Snapshot {
  import opened Prelude

  /** What is copied, part by part: the descriptor, its signature, the publisher's record, the files of the index and of
      the keys. A part is told by the generation it was published in. */
  type Parts = seq<nat>

  predicate OneGeneration(ps: Parts) { forall i, j :: 0 <= i < |ps| && 0 <= j < |ps| ==> ps[i] == ps[j] }

  datatype Phase =
    | Started                // nothing looked at yet
    | Staged                 // no snapshot was there; a temporary directory is
    | Copying(copy: Parts)   // the shared lock is held
    | Copied(copy: Parts)    // the lock is closed again
    | Finished
    | Gone                   // failed or killed, its temporary directory not renamed

  datatype Reader = Reader(job: nat, phase: Phase)

  datatype Publisher = Idle | Publishing(generation: nat)

  datatype State = State(
    parts: Parts, next: nat, publisher: Publisher, readers: map<nat, Reader>, snapshots: map<nat, Parts>)

  datatype Action =
    | Launch(reader: nat, job: nat)
    | Look(reader: nat)
    | Lock(reader: nat)
    | CopyNext(reader: nat)
    | Unlock(reader: nat)
    | Rename(reader: nat)
    | Die(reader: nat)
    | Publish
    | Rewrite(part: nat)
    | PublishDone
    | PublisherDies

  function ReaderOf(a: Action): Option<nat> {
    match a
    case Look(r) => Some(r)
    case Lock(r) => Some(r)
    case CopyNext(r) => Some(r)
    case Unlock(r) => Some(r)
    case Rename(r) => Some(r)
    case Die(r) => Some(r)
    case _ => None
  }

  function Moved(s: State, r: nat, phase: Phase): State
    requires r in s.readers
  {
    s.(readers := s.readers[r := s.readers[r].(phase := phase)])
  }

  predicate IsCopying(s: State, r: nat) { r in s.readers && s.readers[r].phase.Copying? }

  /** flock: many readers share the lock, or the publisher has it alone. */
  predicate AnyCopying(s: State) { exists r :: r in s.readers && IsCopying(s, r) }

  function StepReader(s: State, r: nat, a: Action): Option<State>
    requires r in s.readers
  {
    var job := s.readers[r].job;
    match (a, s.readers[r].phase)
    case (Look(_), Started) => Some(Moved(s, r, if job in s.snapshots then Finished else Staged))
    case (Lock(_), Staged) => if s.publisher.Idle? then Some(Moved(s, r, Copying([]))) else None
    case (CopyNext(_), Copying(copy)) =>
      if |copy| < |s.parts| then Some(Moved(s, r, Copying(copy + [s.parts[|copy|]]))) else None
    case (Unlock(_), Copying(copy)) => if |copy| == |s.parts| then Some(Moved(s, r, Copied(copy))) else None
    case (Rename(_), Copied(copy)) =>
      // A directory is not renamed over one that is not empty.
      if job in s.snapshots then Some(Moved(s, r, Gone))
      else Some(Moved(s, r, Finished).(snapshots := s.snapshots[job := copy]))
    case (Die(_), phase) => if phase.Finished? then None else Some(Moved(s, r, Gone))
    case _ => None
  }

  function StepOther(s: State, a: Action): Option<State> {
    match (a, s.publisher)
    case (Launch(r, job), _) =>
      if r in s.readers then None else Some(s.(readers := s.readers[r := Reader(job, Started)]))
    case (Publish, Idle) =>
      if AnyCopying(s) then None else Some(s.(publisher := Publishing(s.next), next := s.next + 1))
    case (Rewrite(i), Publishing(g)) => if i < |s.parts| then Some(s.(parts := s.parts[i := g])) else None
    case (PublishDone, Publishing(g)) =>
      if forall i :: 0 <= i < |s.parts| ==> s.parts[i] == g then Some(s.(publisher := Idle)) else None
    case (PublisherDies, Publishing(_)) => Some(s.(publisher := Idle))
    case _ => None
  }

  /** One step of the job processes or of the publisher; None where it cannot be taken. */
  function Step(s: State, a: Action): Option<State> {
    match ReaderOf(a)
    case Some(r) => if r in s.readers then StepReader(s, r, a) else None
    case None => StepOther(s, a)
  }

  function Run(s: State, actions: seq<Action>): Option<State>
    decreases |actions|
  {
    if actions == [] then Some(s)
    else
      match Step(s, actions[0])
      case None => None
      case Some(s') => Run(s', actions[1..])
  }

  // ---- What every step keeps ----

  predicate CopyOk(parts: Parts, publisher: Publisher, phase: Phase) {
    match phase
    case Copying(copy) => publisher.Idle? && copy <= parts
    case Copied(copy) => |copy| == |parts| && OneGeneration(copy)
    case _ => true
  }

  ghost predicate Inv(s: State) {
    (s.publisher.Idle? ==> OneGeneration(s.parts)) && CopiesOk(s) && Uniform(s)
  }

  ghost predicate CopiesOk(s: State) {
    forall r :: r in s.readers ==> CopyOk(s.parts, s.publisher, s.readers[r].phase)
  }

  /** Every visible snapshot is complete and of one generation. */
  ghost predicate Uniform(s: State) {
    forall job :: job in s.snapshots ==> |s.snapshots[job]| == |s.parts| && OneGeneration(s.snapshots[job])
  }

  /** A published repository of n parts, before any job looks at it. */
  function Fresh(n: nat): State { State(seq(n, _ => 0), 1, Idle, map[], map[]) }

  lemma {:induction false} FreshIsSound(n: nat)
    ensures Inv(Fresh(n)) && Fresh(n).publisher.Idle?
  {
  }

  /** The publisher dies only before it has rewritten anything, or after everything. */
  predicate Whole(s: State, a: Action) { a == PublisherDies ==> OneGeneration(s.parts) }

  lemma {:induction false} ReaderKeeps(s: State, r: nat, a: Action)
    requires Inv(s) && r in s.readers && StepReader(s, r, a).Some?
    ensures Inv(StepReader(s, r, a).value)
  {
    var t := StepReader(s, r, a).value;
    assert t.parts == s.parts && t.publisher == s.publisher;
    assert CopyOk(s.parts, s.publisher, s.readers[r].phase);
    assert CopyOk(t.parts, t.publisher, t.readers[r].phase);
  }

  lemma {:induction false} OtherKeeps(s: State, a: Action)
    requires Inv(s) && StepOther(s, a).Some? && Whole(s, a)
    ensures Inv(StepOther(s, a).value)
  {
    var t := StepOther(s, a).value;
    forall r | r in t.readers ensures CopyOk(t.parts, t.publisher, t.readers[r].phase) {
      if r in s.readers {
        assert CopyOk(s.parts, s.publisher, s.readers[r].phase);
        if a == Publish { assert !IsCopying(s, r); }
      }
    }
  }

  /** No step ever changes a snapshot that is visible, and so a job publishes at most one. */
  lemma {:induction false} VisibleStays(s: State, a: Action, job: nat)
    requires Step(s, a).Some? && job in s.snapshots
    ensures job in Step(s, a).value.snapshots && Step(s, a).value.snapshots[job] == s.snapshots[job]
  {
  }

  ghost predicate WholeRun(s: State, actions: seq<Action>)
    decreases |actions|
  {
    actions != [] ==>
      Whole(s, actions[0]) && (Step(s, actions[0]).Some? ==> WholeRun(Step(s, actions[0]).value, actions[1..]))
  }

  /** Over any run, every visible snapshot holds parts of one generation, and none is ever replaced; as long as no
      publisher dies half way through rewriting. */
  lemma {:induction false} RunKeeps(s: State, actions: seq<Action>)
    requires Inv(s) && WholeRun(s, actions) && Run(s, actions).Some?
    ensures Inv(Run(s, actions).value)
    decreases |actions|
  {
    hide Inv, Whole, StepReader, StepOther;
    if actions != [] {
      var a := actions[0];
      match ReaderOf(a) {
        case Some(r) => ReaderKeeps(s, r, a);
        case None => OtherKeeps(s, a);
      }
      RunKeeps(Step(s, a).value, actions[1..]);
    }
  }

  lemma {:induction false} RunNeverReplaces(s: State, actions: seq<Action>, job: nat)
    requires Run(s, actions).Some? && job in s.snapshots
    ensures job in Run(s, actions).value.snapshots && Run(s, actions).value.snapshots[job] == s.snapshots[job]
    decreases |actions|
  {
    hide Step;
    if actions != [] {
      VisibleStays(s, actions[0], job);
      RunNeverReplaces(Step(s, actions[0]).value, actions[1..], job);
    }
  }

  // ---- A publisher that dies half way ----

  lemma {:induction false} RunJoin(s: State, a: seq<Action>, b: seq<Action>)
    ensures Run(s, a + b) == match Run(s, a) case None => None case Some(t) => Run(t, b)
    decreases |a|
  {
    hide Step;
    if a == [] {
      assert a + b == b;
    } else {
      assert (a + b)[1..] == a[1..] + b;
      if Step(s, a[0]).Some? { RunJoin(Step(s, a[0]).value, a[1..], b); }
    }
  }

  lemma {:induction false} RunOne(s: State, a: Action)
    ensures Run(s, [a]) == Step(s, a)
  {
    hide Step;
    assert [a][1..] == [];
  }

  function Times(n: nat, a: Action): seq<Action> { if n == 0 then [] else Times(n - 1, a) + [a] }

  lemma {:induction false} CopiesAll(s: State, r: nat, n: nat)
    requires r in s.readers && s.readers[r].phase == Copying([]) && n <= |s.parts|
    ensures Run(s, Times(n, CopyNext(r))) == Some(Moved(s, r, Copying(s.parts[..n])))
  {
    if n == 0 {
      assert Moved(s, r, Copying(s.parts[..0])) == s by { assert s.readers == s.readers[r := s.readers[r]]; }
    } else {
      CopiesAll(s, r, n - 1);
      var t := Moved(s, r, Copying(s.parts[..n - 1]));
      RunJoin(s, Times(n - 1, CopyNext(r)), [CopyNext(r)]);
      RunOne(t, CopyNext(r));
      assert s.parts[..n - 1] + [s.parts[n - 1]] == s.parts[..n];
      assert Step(t, CopyNext(r)) == Some(Moved(t, r, Copying(s.parts[..n])));
      assert Moved(t, r, Copying(s.parts[..n])) == Moved(s, r, Copying(s.parts[..n]));
    }
  }

  /** A whole run of one reader. */
  function Reading(r: nat, job: nat, n: nat): seq<Action> {
    [Launch(r, job)] + ([Look(r)] + ([Lock(r)] + (Times(n, CopyNext(r)) + ([Unlock(r)] + [Rename(r)]))))
  }

  lemma {:induction false} ReadingSees(s: State, r: nat, job: nat)
    requires s.publisher.Idle? && r !in s.readers && job !in s.snapshots
    ensures Run(s, Reading(r, job, |s.parts|)).Some?
    ensures var t := Run(s, Reading(r, job, |s.parts|)).value; job in t.snapshots && t.snapshots[job] == s.parts
  {
    var n := |s.parts|;
    var ends := [Unlock(r)] + [Rename(r)];
    var copies := Times(n, CopyNext(r)) + ends;
    var locks := [Lock(r)] + copies;
    var looks := [Look(r)] + locks;
    var s1 := Step(s, Launch(r, job)).value;
    var s2 := Step(s1, Look(r)).value;
    var s3 := Step(s2, Lock(r)).value;
    var s4 := Moved(s3, r, Copying(s.parts));
    var s5 := Moved(s4, r, Copied(s.parts));
    CopiesAll(s3, r, n);
    assert s.parts[..n] == s.parts;
    assert Step(s4, Unlock(r)) == Some(s5);
    assert Step(s5, Rename(r)) == Some(Moved(s5, r, Finished).(snapshots := s.snapshots[job := s.parts]));
    hide Step;
    RunJoin(s, [Launch(r, job)], looks);
    RunOne(s, Launch(r, job));
    RunJoin(s1, [Look(r)], locks);
    RunOne(s1, Look(r));
    RunJoin(s2, [Lock(r)], copies);
    RunOne(s2, Lock(r));
    RunJoin(s3, Times(n, CopyNext(r)), ends);
    RunJoin(s4, [Unlock(r)], [Rename(r)]);
    RunOne(s4, Unlock(r));
    RunOne(s5, Rename(r));
  }

  lemma {:induction false} NobodyDies(s: State, actions: seq<Action>)
    requires PublisherDies !in actions
    ensures WholeRun(s, actions)
    decreases |actions|
  {
    hide Step;
    if actions != [] && Step(s, actions[0]).Some? { NobodyDies(Step(s, actions[0]).value, actions[1..]); }
  }

  lemma {:induction false} NotInTimes(n: nat, r: nat)
    ensures PublisherDies !in Times(n, CopyNext(r))
  {
    if n > 0 { NotInTimes(n - 1, r); }
  }

  /** Nothing that follows, short of another death half way, ever shows a mixed snapshot. */
  ghost predicate Harmless(s: State) {
    forall actions :: WholeRun(s, actions) && Run(s, actions).Some? ==> Uniform(Run(s, actions).value)
  }

  /** When the publisher lets go of the lock, dying or done, what follows is harmless exactly when it leaves the
      parts in one generation. */
  lemma {:induction false} HarmlessExactly(s: State, r: nat, job: nat)
    requires s.publisher.Idle? && CopiesOk(s) && Uniform(s) && r !in s.readers && job !in s.snapshots
    ensures Harmless(s) <==> OneGeneration(s.parts)
  {
    hide WholeRun, Run, Reading, OneGeneration, CopiesOk;
    if OneGeneration(s.parts) {
      forall actions | WholeRun(s, actions) && Run(s, actions).Some? ensures Uniform(Run(s, actions).value) {
        RunKeeps(s, actions);
      }
    } else {
      var actions := Reading(r, job, |s.parts|);
      ReadingSees(s, r, job);
      NobodyDiesReading(r, job, |s.parts|);
      NobodyDies(s, actions);
      assert !Uniform(Run(s, actions).value);
    }
  }

  lemma {:induction false} NobodyDiesReading(r: nat, job: nat, n: nat)
    ensures PublisherDies !in Reading(r, job, n)
  {
    NotInTimes(n, r);
  }

  /** Such a state is reached: the publisher rewrites one part of several and dies. No step was wrong, and what is
      visible is still sound. */
  lemma {:induction false} HalfPublished(n: nat)
    requires n >= 2
    ensures Run(Fresh(n), [Publish, Rewrite(0), PublisherDies]).Some?
    ensures var s := Run(Fresh(n), [Publish, Rewrite(0), PublisherDies]).value;
      s.publisher.Idle? && !OneGeneration(s.parts) && CopiesOk(s) && Uniform(s) &&
      s.parts == Fresh(n).parts[0 := 1] && s.readers == map[] && s.snapshots == map[]
  {
    var s0 := Fresh(n);
    var s1 := Step(s0, Publish).value;
    var s2 := Step(s1, Rewrite(0)).value;
    var s3 := Step(s2, PublisherDies).value;
    assert s3.parts[0] == 1 && s3.parts[1] == 0;
    assert Step(s0, Publish) == Some(s1) && Step(s1, Rewrite(0)) == Some(s2) && Step(s2, PublisherDies) == Some(s3);
    hide Step;
    RunJoin(s0, [Publish], [Rewrite(0)] + [PublisherDies]);
    RunOne(s0, Publish);
    RunJoin(s1, [Rewrite(0)], [PublisherDies]);
    RunOne(s1, Rewrite(0));
    RunOne(s2, PublisherDies);
    assert [Publish, Rewrite(0), PublisherDies] == [Publish] + ([Rewrite(0)] + [PublisherDies]);
  }

  /** And a job that looks then freezes a mixed snapshot. */
  lemma {:induction false} MixedIsSeen(n: nat, r: nat, job: nat) returns (actions: seq<Action>)
    requires n >= 2
    ensures Run(Fresh(n), actions).Some?
    ensures var t := Run(Fresh(n), actions).value; job in t.snapshots && !OneGeneration(t.snapshots[job]) && !Uniform(t)
  {
    hide Run, Reading;
    var first := [Publish, Rewrite(0), PublisherDies];
    HalfPublished(n);
    var s := Run(Fresh(n), first).value;
    ReadingSees(s, r, job);
    actions := first + Reading(r, job, |s.parts|);
    RunJoin(Fresh(n), first, Reading(r, job, |s.parts|));
  }
}
