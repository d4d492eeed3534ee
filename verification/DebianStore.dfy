/** The Debian root store: jobs that acquire, cache and restore build roots (prepare.py, prepare, acquire, load_record
    and restore), as steps of processes that any schedule may interleave and any crash may cut short. */
module DebianStore {
  import opened Prelude

  /** A root archive: the package list and reference record inside it, and everything else it holds. */
  datatype Archive = Archive(installed: string, reference: Option<string>, payload: string)

  /** SHA-256, taken as injective: a digest stands for the content it was taken of. */
  datatype Digest = OfArchive(archive: Archive) | OfText(text: string)

  datatype Base = Base(image: string, policy: string)

  datatype Manifest = Manifest(
    requests: string, policy: string, base: Base, root: Digest, installed: Digest, reference: Option<Digest>)

  /** A record directory: installed.tsv, reference-prerequisites.json and the completion marker debian-root.json. */
  datatype Record = Record(installed: Option<string>, reference: Option<string>, marker: Option<Manifest>)

  const EMPTY := Record(None, None, None)

  datatype Key = Key(requests: string, policy: string)

  /** A job's directory: its base image, its cached roots by request and policy, and its evidence by target. */
  datatype Job = Job(base: Option<Base>, roots: map<Key, Record>, evidence: map<string, Record>)

  /** Where a process is in prepare(). Everything from Locked on holds the job's lock. */
  datatype Pc =
    | Start
    | Locked
    | Based(base: Base)
    | Built(manifest: Manifest, archive: Archive, installed: string, reference: Option<string>)
    | Referenced(manifest: Manifest, archive: Archive, installed: string)
    | Linked(manifest: Manifest, installed: string)
    | Inventoried(manifest: Manifest)
    | Ready(manifest: Manifest, replay: Option<Record>)
    | Restored(manifest: Manifest, replay: Option<Record>, root: Archive)
    | Copied(manifest: Manifest, replay: Option<Record>)
    | CopiedBoth(manifest: Manifest)

  datatype Process = Process(job: nat, requests: string, policy: string, target: string, pc: Pc)

  datatype State = State(jobs: map<nat, Job>, store: map<Digest, Archive>, procs: map<nat, Process>)

  const INIT := State(map[], map[], map[])

  function JobAt(s: State, j: nat): Job {
    if j in s.jobs then s.jobs[j] else Job(None, map[], map[])
  }

  function RootAt(job: Job, key: Key): Record {
    if key in job.roots then job.roots[key] else EMPTY
  }

  function EvidenceAt(job: Job, target: string): Record {
    if target in job.evidence then job.evidence[target] else EMPTY
  }

  function KeyOf(pr: Process): Key { Key(pr.requests, pr.policy) }

  /** The files a marker vouches for are the ones it was written with. */
  predicate Matches(r: Record, m: Manifest) {
    (r.installed.Some? && OfText(r.installed.value) == m.installed) &&
    (m.reference.Some? ==> r.reference.Some? && OfText(r.reference.value) == m.reference.value)
  }

  /** load_record: the manifest, if the record fits the request and its files match. */
  function LoadRecord(r: Record, requests: string, policy: string): Option<Manifest> {
    if r.marker.None? then None
    else
      var m := r.marker.value;
      if m.requests != requests || m.policy != policy then None
      else if r.installed.None? || OfText(r.installed.value) != m.installed then None
      else if m.reference.Some? && (r.reference.None? || OfText(r.reference.value) != m.reference.value) then None
      else Some(m)
  }

  /** restore: the root extracted, if the stored archive has the recorded hash and holds the recorded files. */
  function RestoreRoot(store: map<Digest, Archive>, m: Manifest): Option<Archive> {
    if m.root !in store || OfArchive(store[m.root]) != m.root then None
    else
      var a := store[m.root];
      if OfText(a.installed) != m.installed then None
      else if m.reference.Some? && (a.reference.None? || OfText(a.reference.value) != m.reference.value) then None
      else Some(a)
  }

  // ---- Steps ----

  /** The data of an action is what the world decides: the image pulled, what a container run leaves, what a replay
      directory holds. Each action is one atomic effect on the files. */
  datatype Action =
    | Begin(p: nat, job: nat, requests: string, policy: string, target: string)
    | Lock(p: nat)
    | Load(p: nat)
    | LoadReplay(p: nat, record: Record)
    | FixBase(p: nat, image: string)
    | Build(p: nat, archive: Archive, installed: string, reference: Option<string>)
    | WriteReference(p: nat)
    | Link(p: nat)
    | WriteInstalled(p: nat)
    | WriteMarker(p: nat)
    | Restore(p: nat)
    | CopyInstalled(p: nat)
    | CopyReference(p: nat)
    | CopyMarker(p: nat)
    | Crash(p: nat)

  predicate Holds(s: State, p: nat) {
    p in s.procs && s.procs[p].pc != Start
  }

  predicate Free(s: State, j: nat) {
    forall q :: q in s.procs && s.procs[q].job == j ==> s.procs[q].pc == Start
  }

  /** A process ends: by an error, by a crash or because it is done. Its files stay, its lock is gone. */
  function Exit(s: State, p: nat): State {
    s.(procs := s.procs - {p})
  }

  function Goto(s: State, p: nat, pc: Pc): State
    requires p in s.procs
  {
    s.(procs := s.procs[p := s.procs[p].(pc := pc)])
  }

  function PutJob(s: State, p: nat, job: Job): State
    requires p in s.procs
  {
    s.(jobs := s.jobs[s.procs[p].job := job])
  }

  function PutRoot(s: State, p: nat, r: Record): State
    requires p in s.procs
  {
    var pr := s.procs[p];
    var job := JobAt(s, pr.job);
    PutJob(s, p, job.(roots := job.roots[KeyOf(pr) := r]))
  }

  function PutEvidence(s: State, p: nat, r: Record): State
    requires p in s.procs
  {
    var pr := s.procs[p];
    var job := JobAt(s, pr.job);
    PutJob(s, p, job.(evidence := job.evidence[pr.target := r]))
  }

  /** The record a prepared root's evidence is copied from. */
  function Source(s: State, pr: Process, replay: Option<Record>): Record {
    if replay.Some? then replay.value else RootAt(JobAt(s, pr.job), KeyOf(pr))
  }

  /** The next state; an action that is not enabled changes nothing. */
  function Step(s: State, a: Action): State {
    match a
    case Begin(p, job, requests, policy, target) =>
      if p in s.procs then s else s.(procs := s.procs[p := Process(job, requests, policy, target, Start)])
    case Crash(p) => Exit(s, p)
    case _ => if a.p in s.procs then Advance(s, a.p, s.procs[a.p], a) else s
  }

  function Advance(s: State, p: nat, pr: Process, a: Action): State
    requires p in s.procs && s.procs[p] == pr
  {
    if a.Lock? || a.Load? || a.LoadReplay? || a.FixBase? then LookUp(s, p, pr, a)
    else if a.Restore? || a.CopyInstalled? || a.CopyReference? || a.CopyMarker? then CopyOut(s, p, pr, a)
    else Acquire(s, p, pr, a)
  }

  /** Taking the lock, and finding out whether there is a record to use. */
  function LookUp(s: State, p: nat, pr: Process, a: Action): State
    requires p in s.procs && s.procs[p] == pr
  {
    var job := JobAt(s, pr.job);
    var root := RootAt(job, KeyOf(pr));
    match (a, pr.pc)
    case (Lock(_), Start) => if Free(s, pr.job) then Goto(s, p, Locked) else s
    case (Load(_), Locked) =>
      if root.marker.None? then s
      else
        var m := LoadRecord(root, pr.requests, pr.policy);
        if m.None? then Exit(s, p) else Goto(s, p, Ready(m.value, None))
    case (LoadReplay(_, record), Locked) =>
      var m := LoadRecord(record, pr.requests, pr.policy);
      if m.None? then Exit(s, p) else Goto(s, p, Ready(m.value, Some(record)))
    case (FixBase(_, image), Locked) =>
      if root.marker.Some? then s
      else if job.base.Some? then
        if job.base.value.policy != pr.policy then Exit(s, p) else Goto(s, p, Based(job.base.value))
      else
        var base := Base(image, pr.policy);
        Goto(PutJob(s, p, job.(base := Some(base))), p, Based(base))
    case _ => s
  }

  /** Building a root and recording it in the cache, the marker last. */
  function Acquire(s: State, p: nat, pr: Process, a: Action): State
    requires p in s.procs && s.procs[p] == pr
  {
    var root := RootAt(JobAt(s, pr.job), KeyOf(pr));
    match (a, pr.pc)
    case (Build(_, archive, installed, reference), Based(base)) =>
      var m := Manifest(pr.requests, pr.policy, base, OfArchive(archive), OfText(installed),
                        if reference.Some? then Some(OfText(reference.value)) else None);
      Goto(s, p, Built(m, archive, installed, reference))
    case (WriteReference(_), Built(m, archive, installed, reference)) =>
      var s' := if reference.Some? then PutRoot(s, p, root.(reference := reference)) else s;
      Goto(s', p, Referenced(m, archive, installed))
    case (Link(_), Referenced(m, archive, installed)) =>
      if m.root !in s.store then Goto(s.(store := s.store[m.root := archive]), p, Linked(m, installed))
      else if OfArchive(s.store[m.root]) != m.root then Exit(s, p)
      else Goto(s, p, Linked(m, installed))
    case (WriteInstalled(_), Linked(m, installed)) =>
      Goto(PutRoot(s, p, root.(installed := Some(installed))), p, Inventoried(m))
    case (WriteMarker(_), Inventoried(m)) =>
      Goto(PutRoot(s, p, root.(marker := Some(m))), p, Ready(m, None))
    case _ => s
  }

  /** Restoring the root, and copying the record to the evidence, the marker last. */
  function CopyOut(s: State, p: nat, pr: Process, a: Action): State
    requires p in s.procs && s.procs[p] == pr
  {
    var job := JobAt(s, pr.job);
    match (a, pr.pc)
    case (Restore(_), Ready(m, replay)) =>
      var a := RestoreRoot(s.store, m);
      if a.None? then Exit(s, p) else Goto(s, p, Restored(m, replay, a.value))
    case (CopyInstalled(_), Restored(m, replay, _)) =>
      var source := Source(s, pr, replay);
      if source.installed.None? then Exit(s, p)
      else
        Goto(PutEvidence(s, p, EvidenceAt(job, pr.target).(installed := source.installed)), p, Copied(m, replay))
    case (CopyReference(_), Copied(m, replay)) =>
      if m.reference.None? then Goto(s, p, CopiedBoth(m))
      else
        var source := Source(s, pr, replay);
        if source.reference.None? then Exit(s, p)
        else
          Goto(PutEvidence(s, p, EvidenceAt(job, pr.target).(reference := source.reference)), p, CopiedBoth(m))
    case (CopyMarker(_), CopiedBoth(m)) =>
      Exit(PutEvidence(s, p, EvidenceAt(job, pr.target).(marker := Some(m))), p)
    case _ => s
  }

  // ---- The invariant ----

  /** A cached root that is marked complete is what its marker says, on the job's one base image, and its archive is in
      the store. */
  predicate RootOk(job: Job, store: map<Digest, Archive>, key: Key) {
    var r := RootAt(job, key);
    r.marker.Some? ==>
      var m := r.marker.value;
      m.requests == key.requests && m.policy == key.policy && Matches(r, m) &&
      job.base == Some(m.base) && m.root in store && OfArchive(store[m.root]) == m.root
  }

  /** What a process relies on between its steps. */
  predicate ProcOk(pr: Process, job: Job, store: map<Digest, Archive>) {
    var root := RootAt(job, KeyOf(pr));
    var fits := (m: Manifest) => m.requests == pr.requests && m.policy == pr.policy;
    var acquiring := (m: Manifest) => fits(m) && root.marker.None? && job.base == Some(m.base);
    match pr.pc
    case Start => true
    case Locked => true
    case Based(base) => root.marker.None? && job.base == Some(base)
    case Built(m, archive, installed, reference) =>
      acquiring(m) && m.root == OfArchive(archive) && m.installed == OfText(installed) &&
      m.reference == if reference.Some? then Some(OfText(reference.value)) else None
    case Referenced(m, archive, installed) =>
      acquiring(m) && m.root == OfArchive(archive) && m.installed == OfText(installed) && HasReference(root, m)
    case Linked(m, installed) =>
      acquiring(m) && m.root in store && m.installed == OfText(installed) && HasReference(root, m)
    case Inventoried(m) => acquiring(m) && m.root in store && Matches(root, m)
    case Ready(m, replay) => fits(m) && Backed(root, m, replay)
    case Restored(m, replay, a) =>
      fits(m) && Backed(root, m, replay) && OfArchive(a) == m.root && Contains(a, m)
    case Copied(m, replay) =>
      Backed(root, m, replay) && EvidenceAt(job, pr.target).installed.Some? &&
      OfText(EvidenceAt(job, pr.target).installed.value) == m.installed
    case CopiedBoth(m) => Matches(EvidenceAt(job, pr.target), m)
  }

  /** The package list and reference record inside the archive are the ones the manifest names. */
  predicate Contains(a: Archive, m: Manifest) {
    OfText(a.installed) == m.installed &&
    (m.reference.Some? ==> a.reference.Some? && OfText(a.reference.value) == m.reference.value)
  }

  predicate HasReference(r: Record, m: Manifest) {
    m.reference.Some? ==> r.reference.Some? && OfText(r.reference.value) == m.reference.value
  }

  /** The manifest is the marker of the record it was loaded from or written to, and that record matches it. */
  predicate Backed(root: Record, m: Manifest, replay: Option<Record>) {
    var r := if replay.Some? then replay.value else root;
    r.marker == Some(m) && Matches(r, m)
  }

  ghost predicate Inv(s: State) {
    (forall d :: d in s.store ==> OfArchive(s.store[d]) == d) &&
    (forall j, key :: RootOk(JobAt(s, j), s.store, key)) &&
    (forall p :: p in s.procs ==> ProcOk(s.procs[p], JobAt(s, s.procs[p].job), s.store)) &&
    forall p, q :: p in s.procs && q in s.procs && p != q && s.procs[p].job == s.procs[q].job ==>
      s.procs[p].pc == Start || s.procs[q].pc == Start
  }

  /** Archives are only added, never replaced. */
  ghost predicate Grows(store: map<Digest, Archive>, store': map<Digest, Archive>) {
    forall d :: d in store ==> d in store' && store'[d] == store[d]
  }

  lemma {:induction false} OkAsStoreGrows(job: Job, store: map<Digest, Archive>, store': map<Digest, Archive>)
    requires Grows(store, store')
    ensures forall key :: RootOk(job, store, key) ==> RootOk(job, store', key)
    ensures forall pr :: ProcOk(pr, job, store) ==> ProcOk(pr, job, store')
  {
  }

  /** A step of the one process that holds a job's lock keeps the invariant if it leaves that job and that process well
      and adds only sound archives. */
  lemma {:induction false} HolderSteps(s: State, s': State, p: nat)
    requires Inv(s) && Holds(s, p)
    requires Grows(s.store, s'.store) && forall d :: d in s'.store ==> OfArchive(s'.store[d]) == d
    requires s'.procs - {p} == s.procs - {p}
    requires forall j :: j != s.procs[p].job ==> JobAt(s', j) == JobAt(s, j)
    requires forall key :: RootOk(JobAt(s', s.procs[p].job), s'.store, key)
    requires p in s'.procs ==>
      s'.procs[p].job == s.procs[p].job && ProcOk(s'.procs[p], JobAt(s', s.procs[p].job), s'.store)
    ensures Inv(s')
  {
    hide RootOk, ProcOk, JobAt;
    var j := s.procs[p].job;
    forall q | q in s'.procs && q != p
      ensures q in s.procs && s'.procs[q] == s.procs[q] && (s.procs[q].job == j ==> s.procs[q].pc == Start)
    {
      assert q in s'.procs - {p};
      assert (s'.procs - {p})[q] == (s.procs - {p})[q];
    }
    forall i, key ensures RootOk(JobAt(s', i), s'.store, key) {
      if i != j { OkAsStoreGrows(JobAt(s, i), s.store, s'.store); }
    }
    forall q | q in s'.procs && q != p ensures ProcOk(s'.procs[q], JobAt(s', s'.procs[q].job), s'.store) {
      if s.procs[q].job == j {
        AtStart(s.procs[q], JobAt(s', j), s'.store);
      } else {
        OkAsStoreGrows(JobAt(s, s.procs[q].job), s.store, s'.store);
      }
    }
  }

  lemma {:induction false} AtStart(pr: Process, job: Job, store: map<Digest, Archive>)
    requires pr.pc == Start || pr.pc == Locked
    ensures ProcOk(pr, job, store)
  {
  }

  lemma {:induction false} ExitKeeps(s: State, p: nat)
    requires Inv(s)
    ensures Inv(Exit(s, p))
  {
    hide RootOk, ProcOk;
    SameFiles(s, Exit(s, p));
  }

  lemma {:induction false} SameFiles(s: State, s': State)
    requires s'.jobs == s.jobs
    ensures forall j :: JobAt(s', j) == JobAt(s, j)
  {
  }

  lemma {:induction false} LockKeeps(s: State, p: nat)
    requires Inv(s) && p in s.procs && s.procs[p].pc == Start && Free(s, s.procs[p].job)
    ensures Inv(Goto(s, p, Locked))
  {
    hide RootOk, ProcOk;
    SameFiles(s, Goto(s, p, Locked));
    AtStart(s.procs[p].(pc := Locked), JobAt(s, s.procs[p].job), s.store);
  }

  /** The holder moves on without touching any file. */
  lemma {:induction false} MoveKeeps(s: State, p: nat, pc: Pc)
    requires Inv(s) && Holds(s, p)
    requires ProcOk(s.procs[p].(pc := pc), JobAt(s, s.procs[p].job), s.store)
    ensures Inv(Goto(s, p, pc))
  {
    hide RootOk, ProcOk;
    HolderSteps(s, Goto(s, p, pc), p);
  }

  /** The holder changes its job's directory and moves on. */
  lemma {:induction false} PutKeeps(s: State, p: nat, job: Job, pc: Pc)
    requires Inv(s) && Holds(s, p)
    requires forall key :: RootOk(job, s.store, key)
    requires ProcOk(s.procs[p].(pc := pc), job, s.store)
    ensures Inv(Goto(PutJob(s, p, job), p, pc))
  {
    hide RootOk, ProcOk;
    HolderSteps(s, Goto(PutJob(s, p, job), p, pc), p);
  }

  lemma {:induction false} FixBaseKeeps(s: State, p: nat, image: string)
    requires Inv(s) && p in s.procs && s.procs[p].pc == Locked
    ensures Inv(Advance(s, p, s.procs[p], FixBase(p, image)))
  {
    hide Inv;
    var pr := s.procs[p];
    var job := JobAt(s, pr.job);
    Parts(s, p);
    if RootAt(job, KeyOf(pr)).marker.None? {
      if job.base.Some? {
        if job.base.value.policy != pr.policy { ExitKeeps(s, p); } else { MoveKeeps(s, p, Based(job.base.value)); }
      } else {
        var job' := job.(base := Some(Base(image, pr.policy)));
        forall key ensures RootOk(job', s.store, key) {
          assert RootOk(job, s.store, key) && RootAt(job', key) == RootAt(job, key);
        }
        PutKeeps(s, p, job.(base := Some(Base(image, pr.policy))), Based(Base(image, pr.policy)));
      }
    }
  }

  /** What the invariant says of one process and its job. */
  lemma {:induction false} Parts(s: State, p: nat)
    requires Inv(s) && p in s.procs
    ensures forall key :: RootOk(JobAt(s, s.procs[p].job), s.store, key)
    ensures ProcOk(s.procs[p], JobAt(s, s.procs[p].job), s.store)
    ensures forall d :: d in s.store ==> OfArchive(s.store[d]) == d
  {
  }

  lemma {:induction false} LoadKeeps(s: State, p: nat, a: Action)
    requires Inv(s) && p in s.procs && s.procs[p].pc == Locked && (a.Load? || a.LoadReplay?)
    ensures Inv(Advance(s, p, s.procs[p], a))
  {
    hide Inv;
    var pr := s.procs[p];
    var r := if a.Load? then RootAt(JobAt(s, pr.job), KeyOf(pr)) else a.record;
    var m := LoadRecord(r, pr.requests, pr.policy);
    if m.Some? {
      MoveKeeps(s, p, Ready(m.value, if a.Load? then None else Some(a.record)));
    } else {
      ExitKeeps(s, p);
    }
  }

  /** Writing one file of the unmarked record under acquisition. */
  lemma {:induction false} PutRootKeeps(s: State, p: nat, r: Record, pc: Pc)
    requires Inv(s) && Holds(s, p)
    requires var pr := s.procs[p];
      var job := JobAt(s, pr.job);
      RootAt(job, KeyOf(pr)).marker.None? &&
      RootOk(job.(roots := job.roots[KeyOf(pr) := r]), s.store, KeyOf(pr)) &&
      ProcOk(pr.(pc := pc), job.(roots := job.roots[KeyOf(pr) := r]), s.store)
    ensures Inv(Goto(PutRoot(s, p, r), p, pc))
  {
    hide Inv, ProcOk;
    var pr := s.procs[p];
    var job := JobAt(s, pr.job);
    var job' := job.(roots := job.roots[KeyOf(pr) := r]);
    Parts(s, p);
    forall key ensures RootOk(job', s.store, key) {
      assert RootOk(job, s.store, key);
      if key != KeyOf(pr) { assert RootAt(job', key) == RootAt(job, key); }
    }
    PutKeeps(s, p, job', pc);
  }

  lemma {:induction false} PutEvidenceKeeps(s: State, p: nat, r: Record, pc: Pc)
    requires Inv(s) && Holds(s, p)
    requires var pr := s.procs[p];
      var job := JobAt(s, pr.job);
      ProcOk(pr.(pc := pc), job.(evidence := job.evidence[pr.target := r]), s.store)
    ensures Inv(Goto(PutEvidence(s, p, r), p, pc))
  {
    hide Inv, ProcOk;
    var pr := s.procs[p];
    var job := JobAt(s, pr.job);
    var job' := job.(evidence := job.evidence[pr.target := r]);
    Parts(s, p);
    forall key ensures RootOk(job', s.store, key) {
      assert RootOk(job, s.store, key);
    }
    PutKeeps(s, p, job', pc);
  }

  lemma {:induction false} AcquireKeeps(s: State, p: nat, a: Action)
    requires Inv(s) && Holds(s, p) && (a.Build? || a.WriteReference? || a.WriteInstalled? || a.WriteMarker?)
    ensures Inv(Advance(s, p, s.procs[p], a))
  {
    hide Inv;
    var pr := s.procs[p];
    var root := RootAt(JobAt(s, pr.job), KeyOf(pr));
    Parts(s, p);
    match (a, pr.pc) {
      case (Build(_, archive, installed, reference), Based(base)) =>
        MoveKeeps(s, p, Built(Manifest(pr.requests, pr.policy, base, OfArchive(archive), OfText(installed),
          if reference.Some? then Some(OfText(reference.value)) else None), archive, installed, reference));
      case (WriteReference(_), Built(m, archive, installed, reference)) =>
        if reference.Some? {
          PutRootKeeps(s, p, root.(reference := reference), Referenced(m, archive, installed));
        } else {
          MoveKeeps(s, p, Referenced(m, archive, installed));
        }
      case (WriteInstalled(_), Linked(m, installed)) =>
        PutRootKeeps(s, p, root.(installed := Some(installed)), Inventoried(m));
      case (WriteMarker(_), Inventoried(m)) =>
        PutRootKeeps(s, p, root.(marker := Some(m)), Ready(m, None));
      case _ =>
    }
  }

  lemma {:induction false} LinkKeeps(s: State, p: nat)
    requires Inv(s) && Holds(s, p)
    ensures Inv(Advance(s, p, s.procs[p], Link(p)))
  {
    hide LoadRecord, RestoreRoot, Free, RootOk;
    var pr := s.procs[p];
    if pr.pc.Referenced? {
      var m := pr.pc.manifest;
      if m.root !in s.store {
        var s' := Goto(s.(store := s.store[m.root := pr.pc.archive]), p, Linked(m, pr.pc.installed));
        OkAsStoreGrows(JobAt(s, pr.job), s.store, s'.store);
        HolderSteps(s, s', p);
      } else {
        MoveKeeps(s, p, Linked(m, pr.pc.installed));
      }
    }
  }

  lemma {:induction false} CopyKeeps(s: State, p: nat, a: Action)
    requires Inv(s) && Holds(s, p) && (a.Restore? || a.CopyInstalled? || a.CopyReference? || a.CopyMarker?)
    ensures Inv(Advance(s, p, s.procs[p], a))
  {
    hide Inv;
    var pr := s.procs[p];
    var job := JobAt(s, pr.job);
    Parts(s, p);
    match (a, pr.pc) {
      case (Restore(_), Ready(m, replay)) =>
        var root := RestoreRoot(s.store, m);
        if root.None? { ExitKeeps(s, p); } else { MoveKeeps(s, p, Restored(m, replay, root.value)); }
      case (CopyInstalled(_), Restored(m, replay, _)) =>
        var source := Source(s, pr, replay);
        PutEvidenceKeeps(s, p, EvidenceAt(job, pr.target).(installed := source.installed), Copied(m, replay));
      case (CopyReference(_), Copied(m, replay)) =>
        if m.reference.None? {
          MoveKeeps(s, p, CopiedBoth(m));
        } else {
          var source := Source(s, pr, replay);
          PutEvidenceKeeps(s, p, EvidenceAt(job, pr.target).(reference := source.reference), CopiedBoth(m));
        }
      case (CopyMarker(_), CopiedBoth(m)) =>
        var r := EvidenceAt(job, pr.target).(marker := Some(m));
        PutEvidenceKeeps(s, p, r, CopiedBoth(m));
        ExitKeeps(Goto(PutEvidence(s, p, r), p, CopiedBoth(m)), p);
        assert Exit(Goto(PutEvidence(s, p, r), p, CopiedBoth(m)), p).procs == Exit(PutEvidence(s, p, r), p).procs;
      case _ =>
    }
  }

  lemma {:induction false} StepKeeps(s: State, a: Action)
    requires Inv(s)
    ensures Inv(Step(s, a))
  {
    hide Inv, RootOk, ProcOk;
    match a {
      case Begin(p, job, requests, policy, target) =>
        if p !in s.procs { BeginKeeps(s, p, Process(job, requests, policy, target, Start)); }
      case Crash(p) => ExitKeeps(s, p);
      case Lock(p) => if p in s.procs && s.procs[p].pc == Start && Free(s, s.procs[p].job) { LockKeeps(s, p); }
      case Load(p) => if p in s.procs && s.procs[p].pc == Locked { LoadKeeps(s, p, a); }
      case LoadReplay(p, _) => if p in s.procs && s.procs[p].pc == Locked { LoadKeeps(s, p, a); }
      case FixBase(p, image) => if p in s.procs && s.procs[p].pc == Locked { FixBaseKeeps(s, p, image); }
      case Build(p, _, _, _) => if Holds(s, p) { AcquireKeeps(s, p, a); }
      case WriteReference(p) => if Holds(s, p) { AcquireKeeps(s, p, a); }
      case Link(p) => if Holds(s, p) { LinkKeeps(s, p); }
      case WriteInstalled(p) => if Holds(s, p) { AcquireKeeps(s, p, a); }
      case WriteMarker(p) => if Holds(s, p) { AcquireKeeps(s, p, a); }
      case _ => if Holds(s, a.p) { CopyKeeps(s, a.p, a); }
    }
  }

  lemma {:induction false} BeginKeeps(s: State, p: nat, pr: Process)
    requires Inv(s) && p !in s.procs && pr.pc == Start
    ensures Inv(s.(procs := s.procs[p := pr]))
  {
    hide RootOk, ProcOk;
    SameFiles(s, s.(procs := s.procs[p := pr]));
    AtStart(pr, JobAt(s, pr.job), s.store);
  }

  // ---- What no step undoes ----

  /** Archives, base images and complete cached roots are written once: nothing later changes them. */
  ghost predicate WrittenOnce(s: State, s': State) {
    Grows(s.store, s'.store) &&
    (forall j :: JobAt(s, j).base.Some? ==> JobAt(s', j).base == JobAt(s, j).base) &&
    forall j, key :: RootAt(JobAt(s, j), key).marker.Some? ==> RootAt(JobAt(s', j), key) == RootAt(JobAt(s, j), key)
  }

  lemma {:induction false} OneJobChanges(s: State, s': State, j: nat)
    requires Grows(s.store, s'.store) && forall i :: i != j ==> JobAt(s', i) == JobAt(s, i)
    requires JobAt(s, j).base.Some? ==> JobAt(s', j).base == JobAt(s, j).base
    requires forall key :: RootAt(JobAt(s, j), key).marker.Some? ==>
      RootAt(JobAt(s', j), key) == RootAt(JobAt(s, j), key)
    ensures WrittenOnce(s, s')
  {
  }

  lemma {:induction false} LookUpWritesOnce(s: State, p: nat, a: Action)
    requires p in s.procs
    ensures WrittenOnce(s, LookUp(s, p, s.procs[p], a))
  {
    hide LoadRecord, Free;
    OneJobChanges(s, LookUp(s, p, s.procs[p], a), s.procs[p].job);
  }

  lemma {:induction false} AcquireWritesOnce(s: State, p: nat, a: Action)
    requires Inv(s) && p in s.procs
    ensures WrittenOnce(s, Acquire(s, p, s.procs[p], a))
  {
    hide Inv, WrittenOnce;
    HolderHasNoMarker(s, p);
    OneJobChanges(s, Acquire(s, p, s.procs[p], a), s.procs[p].job);
  }

  lemma {:induction false} CopyOutWritesOnce(s: State, p: nat, a: Action)
    requires p in s.procs
    ensures WrittenOnce(s, CopyOut(s, p, s.procs[p], a))
  {
    hide RestoreRoot, Source, WrittenOnce;
    OneJobChanges(s, CopyOut(s, p, s.procs[p], a), s.procs[p].job);
  }

  lemma {:induction false} StepWritesOnce(s: State, a: Action)
    requires Inv(s)
    ensures WrittenOnce(s, Step(s, a))
  {
    hide Inv, LookUp, Acquire, CopyOut;
    if a.Begin? || a.Crash? || a.p !in s.procs {
      SameFiles(s, Step(s, a));
    } else {
      hide WrittenOnce;
      LookUpWritesOnce(s, a.p, a);
      AcquireWritesOnce(s, a.p, a);
      CopyOutWritesOnce(s, a.p, a);
    }
  }

  /** A process that still writes a cached root has not found it complete. */
  lemma {:induction false} HolderHasNoMarker(s: State, p: nat)
    requires Inv(s) && p in s.procs
    ensures var pr := s.procs[p];
      pr.pc.Built? || pr.pc.Referenced? || pr.pc.Linked? || pr.pc.Inventoried? ==>
        RootAt(JobAt(s, pr.job), KeyOf(pr)).marker.None?
  {
    Parts(s, p);
  }

  lemma {:induction false} WrittenOnceChains(s: State, t: State, u: State)
    requires WrittenOnce(s, t) && WrittenOnce(t, u)
    ensures WrittenOnce(s, u)
  {
  }

  function Run(s: State, actions: seq<Action>): State {
    if actions == [] then s else Step(Run(s, actions[..|actions| - 1]), actions[|actions| - 1])
  }

  lemma {:induction false} RunKeeps(actions: seq<Action>)
    ensures Inv(Run(INIT, actions))
  {
    if actions != [] {
      RunKeeps(actions[..|actions| - 1]);
      StepKeeps(Run(INIT, actions[..|actions| - 1]), actions[|actions| - 1]);
    }
  }

  lemma {:induction false} RunWritesOnce(actions: seq<Action>, n: nat)
    requires n <= |actions|
    ensures WrittenOnce(Run(INIT, actions[..n]), Run(INIT, actions))
    decreases |actions|
  {
    hide Inv, WrittenOnce, Step;
    if n == |actions| {
      assert actions[..n] == actions;
      WrittenOnceItself(Run(INIT, actions));
    } else {
      var init := actions[..|actions| - 1];
      RunWritesOnce(init, n);
      assert init[..n] == actions[..n];
      RunKeeps(init);
      StepWritesOnce(Run(INIT, init), actions[|actions| - 1]);
      WrittenOnceChains(Run(INIT, actions[..n]), Run(INIT, init), Run(INIT, actions));
    }
  }

  lemma {:induction false} WrittenOnceItself(s: State)
    ensures WrittenOnce(s, s)
  {
  }

  /** After any schedule of any jobs, with crashes anywhere: a cached root marked complete matches its marker, was made
      on the job's one base image and has its archive, whole, in the store; load_record accepts it; and whatever was
      complete after the first n actions is still exactly as it was. */
  lemma {:induction false} EveryRunIsSound(actions: seq<Action>, n: nat, j: nat, key: Key)
    requires n <= |actions|
    requires RootAt(JobAt(Run(INIT, actions[..n]), j), key).marker.Some?
    ensures var s := Run(INIT, actions);
      var r := RootAt(JobAt(s, j), key);
      r == RootAt(JobAt(Run(INIT, actions[..n]), j), key) &&
      var m := r.marker.value;
      Matches(r, m) && LoadRecord(r, key.requests, key.policy) == Some(m) &&
      JobAt(s, j).base == Some(m.base) == JobAt(Run(INIT, actions[..n]), j).base &&
      m.root in s.store && OfArchive(s.store[m.root]) == m.root && m.root in Run(INIT, actions[..n]).store
  {
    hide ProcOk, Step;
    RunKeeps(actions);
    RunKeeps(actions[..n]);
    RunWritesOnce(actions, n);
    assert RootOk(JobAt(Run(INIT, actions), j), Run(INIT, actions).store, key);
    assert RootOk(JobAt(Run(INIT, actions[..n]), j), Run(INIT, actions[..n]).store, key);
  }

  /** A root a process has restored, from the cache or a replay, is the archive its manifest names, and holds the
      package list and the reference record the manifest names. */
  lemma {:induction false} RestoredIsRecorded(actions: seq<Action>, p: nat)
    requires p in Run(INIT, actions).procs && Run(INIT, actions).procs[p].pc.Restored?
    ensures var pr := Run(INIT, actions).procs[p];
      OfArchive(pr.pc.root) == pr.pc.manifest.root && Contains(pr.pc.root, pr.pc.manifest) &&
      pr.pc.manifest.requests == pr.requests && pr.pc.manifest.policy == pr.policy
  {
    hide Step, RootOk;
    RunKeeps(actions);
    Parts(Run(INIT, actions), p);
  }

  /** The error for a corrupt archive already in the store never arises from these steps. */
  lemma {:induction false} ExistingArchiveIsSound(actions: seq<Action>, d: Digest)
    requires d in Run(INIT, actions).store
    ensures OfArchive(Run(INIT, actions).store[d]) == d
  {
    hide Step, RootOk, ProcOk;
    RunKeeps(actions);
  }

  // ---- The evidence a job keeps for replay ----

  ghost predicate Torn(r: Record) {
    r.marker.Some? && !Matches(r, r.marker.value)
  }

  /** load_record accepts a record exactly when it fits the request and its files are its marker's. */
  lemma {:induction false} LoadsWhatMatches(r: Record, requests: string, policy: string, m: Manifest)
    ensures LoadRecord(r, requests, policy) == Some(m) <==>
      r.marker == Some(m) && m.requests == requests && m.policy == policy && Matches(r, m)
    ensures Torn(r) ==> LoadRecord(r, requests, policy).None?
  {
  }

  predicate Prepares(s: State, p: nat, j: nat, target: string) {
    p in s.procs && s.procs[p].job == j && s.procs[p].target == target
  }

  /** The evidence after the step, as far as evidence goes. */
  function EvidenceNext(s: State, a: Action, j: nat, target: string): Record {
    var r := EvidenceAt(JobAt(s, j), target);
    if !Prepares(s, a.p, j, target) then r
    else
      var pr := s.procs[a.p];
      match (a, pr.pc)
      case (CopyInstalled(_), Restored(m, replay, _)) =>
        var source := Source(s, pr, replay);
        if source.installed.Some? then r.(installed := source.installed) else r
      case (CopyReference(_), Copied(m, replay)) =>
        var source := Source(s, pr, replay);
        if m.reference.Some? && source.reference.Some? then r.(reference := source.reference) else r
      case (CopyMarker(_), CopiedBoth(m)) => r.(marker := Some(m))
      case _ => r
  }

  lemma {:induction false} LookUpLeavesEvidence(s: State, p: nat, a: Action, j: nat, target: string)
    requires p in s.procs
    ensures EvidenceAt(JobAt(LookUp(s, p, s.procs[p], a), j), target) == EvidenceAt(JobAt(s, j), target)
  {
    hide LoadRecord, Free;
  }

  lemma {:induction false} AcquireLeavesEvidence(s: State, p: nat, a: Action, j: nat, target: string)
    requires p in s.procs
    ensures EvidenceAt(JobAt(Acquire(s, p, s.procs[p], a), j), target) == EvidenceAt(JobAt(s, j), target)
  {
  }

  lemma {:induction false} CopyOutMovesEvidence(s: State, a: Action, j: nat, target: string)
    requires a.p in s.procs
    requires a.Restore? || a.CopyInstalled? || a.CopyReference? || a.CopyMarker?
    ensures EvidenceAt(JobAt(CopyOut(s, a.p, s.procs[a.p], a), j), target) == EvidenceNext(s, a, j, target)
  {
    hide RestoreRoot, Source;
  }

  lemma {:induction false} EvidenceMoves(s: State, a: Action, j: nat, target: string)
    ensures EvidenceAt(JobAt(Step(s, a), j), target) == EvidenceNext(s, a, j, target)
  {
    hide LookUp, Acquire, CopyOut;
    if a.Begin? || a.Crash? || a.p !in s.procs {
      SameFiles(s, Step(s, a));
    } else if a.Restore? || a.CopyInstalled? || a.CopyReference? || a.CopyMarker? {
      CopyOutMovesEvidence(s, a, j, target);
    } else {
      LookUpLeavesEvidence(s, a.p, a, j, target);
      AcquireLeavesEvidence(s, a.p, a, j, target);
    }
  }

  /** The step copies a file over evidence whose marker names another one: the package list, or the reference record
      when old marker and new manifest both name one. */
  predicate Tears(s: State, a: Action, j: nat, target: string) {
    (a.CopyInstalled? || a.CopyReference?) && Prepares(s, a.p, j, target) &&
    var marked := EvidenceAt(JobAt(s, j), target).marker;
    marked.Some? &&
    match (a, s.procs[a.p].pc)
    case (CopyInstalled(_), Restored(m, _, _)) => marked.value.installed != m.installed
    case (CopyReference(_), Copied(m, _)) =>
      marked.value.reference.Some? && m.reference.Some? && marked.value.reference != m.reference
    case _ => false
  }

  /** Evidence that matches its marker stops matching exactly by such a step. */
  lemma {:induction false} TornExactly(s: State, a: Action, j: nat, target: string)
    requires Inv(s) && !Torn(EvidenceAt(JobAt(s, j), target))
    ensures Torn(EvidenceAt(JobAt(Step(s, a), j), target)) <==> Tears(s, a, j, target)
  {
    hide Inv, RootOk, Step;
    EvidenceMoves(s, a, j, target);
    if a.p in s.procs { Parts(s, a.p); }
  }

  /** After the first n actions the evidence does not match its marker. */
  ghost predicate TornAfter(actions: seq<Action>, n: nat, j: nat, target: string) {
    n <= |actions| && Torn(EvidenceAt(JobAt(Run(INIT, actions[..n]), j), target))
  }

  /** The k-th action of the run tears the evidence. */
  predicate TearsAt(actions: seq<Action>, k: nat, j: nat, target: string) {
    k < |actions| && Tears(Run(INIT, actions[..k]), actions[k], j, target)
  }

  lemma {:induction false} RunMore(actions: seq<Action>, k: nat)
    requires k < |actions|
    ensures Run(INIT, actions[..k + 1]) == Step(Run(INIT, actions[..k]), actions[k])
  {
    hide Step;
    assert actions[..k + 1][..k] == actions[..k];
  }

  /** Over any run the evidence is torn at some time exactly when some step of the run tears it. */
  lemma {:induction false} TornByTearing(actions: seq<Action>, j: nat, target: string)
    ensures (exists n: nat :: TornAfter(actions, n, j, target)) <==> exists k: nat :: TearsAt(actions, k, j, target)
  {
    hide Run, Step, Inv, Torn, Tears;
    if k: nat :| TearsAt(actions, k, j, target) && !TornAfter(actions, k, j, target) {
      RunKeeps(actions[..k]);
      RunMore(actions, k);
      TornExactly(Run(INIT, actions[..k]), actions[k], j, target);
      assert TornAfter(actions, k + 1, j, target);
    }
    if n: nat :| TornAfter(actions, n, j, target) {
      assert !TornAfter(actions, 0, j, target) by { NothingTorn(actions, j, target); }
      var k: nat := 0;
      while !TornAfter(actions, k + 1, j, target)
        invariant k < n && !TornAfter(actions, k, j, target)
        decreases n - k
      {
        k := k + 1;
      }
      RunKeeps(actions[..k]);
      RunMore(actions, k);
      TornExactly(Run(INIT, actions[..k]), actions[k], j, target);
      assert TearsAt(actions, k, j, target);
    }
  }

  lemma {:induction false} NothingTorn(actions: seq<Action>, j: nat, target: string)
    ensures !TornAfter(actions, 0, j, target)
  {
  }

  // ---- One target, one request ----

  /** Preparations of the job's target ask for the one key, and replay nothing. */
  predicate Steady(s: State, a: Action, j: nat, target: string, key: Key) {
    (a.Begin? && a.job == j && a.target == target ==> Key(a.requests, a.policy) == key) &&
    (a.LoadReplay? ==> !Prepares(s, a.p, j, target))
  }

  /** Where a process of such a target stands: what it copies is the job's one cached root for the key. */
  predicate FromCache(pr: Process, root: Record, key: Key) {
    KeyOf(pr) == key &&
    match pr.pc
    case Ready(_, replay) => replay.None?
    case Restored(_, replay, _) => replay.None?
    case Copied(m, replay) => replay.None? && root.marker == Some(m)
    case CopiedBoth(m) => root.marker == Some(m)
    case _ => true
  }

  ghost predicate EvidenceOk(s: State, j: nat, target: string, key: Key) {
    var root, r := RootAt(JobAt(s, j), key), EvidenceAt(JobAt(s, j), target);
    !Torn(r) && (r.marker.Some? ==> r.marker == root.marker) &&
    forall p :: Prepares(s, p, j, target) ==> FromCache(s.procs[p], root, key)
  }

  lemma {:induction false} SteadyDoesNotTear(s: State, a: Action, j: nat, target: string, key: Key)
    requires Inv(s) && EvidenceOk(s, j, target, key)
    ensures !Tears(s, a, j, target)
  {
    hide Inv, RootOk;
    if (a.CopyInstalled? || a.CopyReference?) && a.p in s.procs { Parts(s, a.p); }
  }

  /** What a step leaves of a job's evidence marker and cached root: both, or what the step writes there. */
  lemma {:induction false} MarkersKept(s: State, a: Action, j: nat, target: string, key: Key)
    requires Inv(s) && EvidenceOk(s, j, target, key)
    ensures var (r, r') := (EvidenceAt(JobAt(s, j), target), EvidenceAt(JobAt(Step(s, a), j), target));
      r'.marker == r.marker || r'.marker == RootAt(JobAt(s, j), key).marker
  {
    hide Inv, RootOk, Step;
    EvidenceMoves(s, a, j, target);
    if Prepares(s, a.p, j, target) { assert FromCache(s.procs[a.p], RootAt(JobAt(s, j), key), key); }
  }

  lemma {:induction false} OthersStay(s: State, a: Action, p: nat)
    requires p != a.p
    ensures p in Step(s, a).procs <==> p in s.procs
    ensures p in s.procs ==> Step(s, a).procs[p] == s.procs[p]
  {
    hide LookUp, Acquire, CopyOut;
    if a.p in s.procs {
      LookUpMovesOne(s, a.p, a);
      AcquireMovesOne(s, a.p, a);
      CopyOutMovesOne(s, a.p, a);
    }
  }

  ghost predicate MovesOne(s: State, s': State, p: nat) {
    forall q :: q != p ==> (q in s'.procs <==> q in s.procs) && (q in s.procs ==> s'.procs[q] == s.procs[q])
  }

  lemma {:induction false} LookUpMovesOne(s: State, p: nat, a: Action)
    requires p in s.procs
    ensures MovesOne(s, LookUp(s, p, s.procs[p], a), p)
  {
    hide LoadRecord, Free, RootAt, JobAt;
  }

  lemma {:induction false} AcquireMovesOne(s: State, p: nat, a: Action)
    requires p in s.procs
    ensures MovesOne(s, Acquire(s, p, s.procs[p], a), p)
  {
    hide RootAt, JobAt;
  }

  lemma {:induction false} CopyOutMovesOne(s: State, p: nat, a: Action)
    requires p in s.procs
    ensures MovesOne(s, CopyOut(s, p, s.procs[p], a), p)
  {
    hide RestoreRoot, Source, EvidenceAt, JobAt;
  }

  /** Where the process that acts stands after it, as far as it copies from a record. */
  lemma {:induction false} ActorMoves(s: State, a: Action)
    requires a.p in Step(s, a).procs && a.p in s.procs
    ensures var (pr, pr') := (s.procs[a.p], Step(s, a).procs[a.p]);
      pr' == pr.(pc := pr'.pc) &&
      match pr'.pc
      case Ready(_, replay) => pr' == pr || replay.None? || a.LoadReplay?
      case Restored(m, replay, _) => pr' == pr || pr.pc == Ready(m, replay)
      case Copied(m, replay) => pr' == pr || (pr.pc.Restored? && pr.pc.manifest == m && pr.pc.replay == replay)
      case CopiedBoth(m) => pr' == pr || (pr.pc.Copied? && pr.pc.manifest == m)
      case _ => true
  {
    hide LoadRecord, RestoreRoot, Free;
  }

  lemma {:induction false} MovesFromCache(s: State, a: Action, j: nat, target: string, key: Key)
    requires Inv(s) && EvidenceOk(s, j, target, key) && Steady(s, a, j, target, key)
    requires Prepares(Step(s, a), a.p, j, target)
    ensures FromCache(Step(s, a).procs[a.p], RootAt(JobAt(s, j), key), key)
  {
    if a.p in s.procs {
      hide Inv, RootOk, Step, Torn;
      Parts(s, a.p);
      ActorMoves(s, a);
      assert FromCache(s.procs[a.p], RootAt(JobAt(s, j), key), key);
    } else {
      hide Inv, Torn;
    }
  }

  lemma {:induction false} StillFromCache(s: State, a: Action, j: nat, target: string, key: Key, p: nat)
    requires Inv(s) && EvidenceOk(s, j, target, key) && Steady(s, a, j, target, key)
    requires Prepares(Step(s, a), p, j, target)
    ensures FromCache(Step(s, a).procs[p], RootAt(JobAt(Step(s, a), j), key), key)
  {
    hide Inv, Step, Steady, Torn;
    if p == a.p { MovesFromCache(s, a, j, target, key); } else { OthersStay(s, a, p); }
    StepWritesOnce(s, a);
  }

  lemma {:induction false} SteadyKeeps(s: State, a: Action, j: nat, target: string, key: Key)
    requires Inv(s) && EvidenceOk(s, j, target, key) && Steady(s, a, j, target, key)
    ensures EvidenceOk(Step(s, a), j, target, key)
  {
    hide Inv, Step, Steady, FromCache, Tears, Torn;
    var t := Step(s, a);
    SteadyDoesNotTear(s, a, j, target, key);
    TornExactly(s, a, j, target);
    MarkersKept(s, a, j, target, key);
    StepWritesOnce(s, a);
    forall p | Prepares(t, p, j, target)
      ensures FromCache(t.procs[p], RootAt(JobAt(t, j), key), key)
    {
      StillFromCache(s, a, j, target, key, p);
    }
  }

  ghost predicate SteadyRun(actions: seq<Action>, j: nat, target: string, key: Key) {
    forall k :: 0 <= k < |actions| ==> Steady(Run(INIT, actions[..k]), actions[k], j, target, key)
  }

  /** While a target is only ever prepared for one request, whatever else runs or crashes, its evidence is never torn:
      once it is marked, it loads. */
  lemma {:induction false} SteadyEvidenceLoads(actions: seq<Action>, j: nat, target: string, key: Key)
    requires SteadyRun(actions, j, target, key)
    ensures var (s, r) := (Run(INIT, actions), EvidenceAt(JobAt(Run(INIT, actions), j), target));
      EvidenceOk(s, j, target, key) && !Torn(r) &&
      (r.marker.Some? ==> LoadRecord(r, key.requests, key.policy) == r.marker)
    decreases |actions|
  {
    hide Inv, Step, Steady, EvidenceOk;
    if actions == [] {
      NothingPrepared(j, target, key);
    } else {
      var k := |actions| - 1;
      var before := actions[..k];
      forall i | 0 <= i < k ensures Steady(Run(INIT, before[..i]), before[i], j, target, key) {
        assert before[..i] == actions[..i];
      }
      SteadyEvidenceLoads(before, j, target, key);
      RunKeeps(before);
      SteadyKeeps(Run(INIT, before), actions[k], j, target, key);
    }
    RunKeeps(actions);
    MarkedLoads(Run(INIT, actions), j, target, key);
  }

  lemma {:induction false} NothingPrepared(j: nat, target: string, key: Key)
    ensures EvidenceOk(INIT, j, target, key)
  {
  }

  lemma {:induction false} MarkedLoads(s: State, j: nat, target: string, key: Key)
    requires Inv(s) && EvidenceOk(s, j, target, key)
    ensures var r := EvidenceAt(JobAt(s, j), target);
      !Torn(r) && (r.marker.Some? ==> LoadRecord(r, key.requests, key.policy) == r.marker)
  {
    hide ProcOk, FromCache;
    assert RootOk(JobAt(s, j), s.store, key);
  }

  /** And it can: a second preparation for the same target, cut short after its first copy, leaves the old marker beside
      the new package list. */
  lemma {:induction false} CrashTearsEvidence(s: State, p: nat) returns (after: State)
    requires Inv(s) && p in s.procs && s.procs[p].pc.Restored?
    requires var r := EvidenceAt(JobAt(s, s.procs[p].job), s.procs[p].target);
      r.marker.Some? && r.marker.value.installed != s.procs[p].pc.manifest.installed
    ensures after == Step(Step(s, CopyInstalled(p)), Crash(p)) && Inv(after)
    ensures Torn(EvidenceAt(JobAt(after, s.procs[p].job), s.procs[p].target))
  {
    hide Inv, RootOk, Step;
    after := Step(Step(s, CopyInstalled(p)), Crash(p));
    var (j, target) := (s.procs[p].job, s.procs[p].target);
    Parts(s, p);
    EvidenceMoves(s, CopyInstalled(p), j, target);
    EvidenceMoves(Step(s, CopyInstalled(p)), Crash(p), j, target);
    StepKeeps(s, CopyInstalled(p));
    StepKeeps(Step(s, CopyInstalled(p)), Crash(p));
  }

  lemma {:induction false} RunJoin(s: State, a: seq<Action>, b: seq<Action>)
    ensures Run(s, a + b) == Run(Run(s, a), b)
  {
    if b == [] {
      assert a + b == a;
    } else {
      assert (a + b)[..|a + b| - 1] == a + b[..|b| - 1];
      RunJoin(s, a, b[..|b| - 1]);
    }
  }

  lemma {:induction false} RunTwo(s: State, a: Action, b: Action)
    ensures Run(s, [a, b]) == Step(Step(s, a), b)
  {
    hide Step;
    assert [a, b][..1] == [a] && [a][..0] == [];
    assert Run(s, [a]) == Step(Run(s, []), a);
  }

  function ManifestFor(requests: string, a: Archive): Manifest {
    Manifest(requests, "P", Base("I", "P"), OfArchive(a), OfText(a.installed), None)
  }

  /** Process 0 alone, preparing target "t" of job 0. */
  function Alone(requests: string, pc: Pc): map<nat, Process> {
    map[0 := Process(0, requests, "P", "t", pc)]
  }

  /** Process 0 preparing a root from the start until the root is extracted. */
  function Preparing(requests: string, a: Archive): seq<Action> {
    [Begin(0, 0, requests, "P", "t"), Lock(0)] + [FixBase(0, "I"), Build(0, a, a.installed, None)] +
    [WriteReference(0), Link(0)] + [WriteInstalled(0), WriteMarker(0)] + [Restore(0)]
  }

  lemma {:induction false} Locks(s: State, requests: string)
    requires s.procs == map[]
    ensures Run(s, [Begin(0, 0, requests, "P", "t"), Lock(0)]) == s.(procs := Alone(requests, Locked))
  {
    hide Run;
    RunTwo(s, Begin(0, 0, requests, "P", "t"), Lock(0));
    assert Step(s, Begin(0, 0, requests, "P", "t")) == s.(procs := Alone(requests, Start));
  }

  lemma {:induction false} Builds(s: State, requests: string, a: Archive)
    requires s.procs == Alone(requests, Locked) && RootAt(JobAt(s, 0), Key(requests, "P")) == EMPTY
    requires JobAt(s, 0).base == None || JobAt(s, 0).base == Some(Base("I", "P"))
    ensures var t := Run(s, [FixBase(0, "I"), Build(0, a, a.installed, None)]);
      t.procs == Alone(requests, Built(ManifestFor(requests, a), a, a.installed, None)) &&
      JobAt(t, 0) == JobAt(s, 0).(base := Some(Base("I", "P"))) && t.store == s.store
  {
    hide Run, LoadRecord, RestoreRoot;
    RunTwo(s, FixBase(0, "I"), Build(0, a, a.installed, None));
    assert Step(s, FixBase(0, "I")).procs == Alone(requests, Based(Base("I", "P")));
  }

  lemma {:induction false} Links(s: State, requests: string, a: Archive)
    requires s.procs == Alone(requests, Built(ManifestFor(requests, a), a, a.installed, None))
    requires OfArchive(a) !in s.store
    ensures Run(s, [WriteReference(0), Link(0)]) ==
      State(s.jobs, s.store[OfArchive(a) := a], Alone(requests, Linked(ManifestFor(requests, a), a.installed)))
  {
    hide Run, LoadRecord, RestoreRoot;
    RunTwo(s, WriteReference(0), Link(0));
    assert Step(s, WriteReference(0)) == Goto(s, 0, Referenced(ManifestFor(requests, a), a, a.installed));
  }

  lemma {:induction false} Marks(s: State, requests: string, a: Archive)
    requires s.procs == Alone(requests, Linked(ManifestFor(requests, a), a.installed))
    requires RootAt(JobAt(s, 0), Key(requests, "P")) == EMPTY
    ensures var t := Run(s, [WriteInstalled(0), WriteMarker(0)]);
      var r := Record(Some(a.installed), None, Some(ManifestFor(requests, a)));
      t.procs == Alone(requests, Ready(ManifestFor(requests, a), None)) && t.store == s.store &&
      JobAt(t, 0) == JobAt(s, 0).(roots := JobAt(s, 0).roots[Key(requests, "P") := r])
  {
    hide Run, LookUp, CopyOut;
    RunTwo(s, WriteInstalled(0), WriteMarker(0));
    assert Step(s, WriteInstalled(0)) ==
      Goto(PutRoot(s, 0, Record(Some(a.installed), None, None)), 0, Inventoried(ManifestFor(requests, a)));
  }

  /** An undisturbed preparation reaches the extracted root without touching the evidence. */
  lemma {:induction false} PreparingReaches(s: State, requests: string, a: Archive)
    requires s.procs == map[] && RootAt(JobAt(s, 0), Key(requests, "P")) == EMPTY && OfArchive(a) !in s.store
    requires JobAt(s, 0).base == None || JobAt(s, 0).base == Some(Base("I", "P"))
    ensures var t := Run(s, Preparing(requests, a));
      var r := Record(Some(a.installed), None, Some(ManifestFor(requests, a)));
      t.procs == Alone(requests, Restored(ManifestFor(requests, a), None, a)) &&
      JobAt(t, 0) == Job(Some(Base("I", "P")), JobAt(s, 0).roots[Key(requests, "P") := r], JobAt(s, 0).evidence) &&
      t.store == s.store[OfArchive(a) := a]
  {
    hide Run, Step;
    var one := [Begin(0, 0, requests, "P", "t"), Lock(0)];
    var two := [FixBase(0, "I"), Build(0, a, a.installed, None)];
    var three := [WriteReference(0), Link(0)];
    var four := [WriteInstalled(0), WriteMarker(0)];
    Locks(s, requests);
    var s1 := Run(s, one);
    SameFiles(s, s1);
    Builds(s1, requests, a);
    var s2 := Run(s1, two);
    Links(s2, requests, a);
    var s3 := Run(s2, three);
    SameFiles(s2, s3);
    Marks(s3, requests, a);
    var s4 := Run(s3, four);
    Restores(s4, requests, a);
    RunJoin(s, one, two);
    RunJoin(s, one + two, three);
    RunJoin(s, one + two + three, four);
    RunJoin(s, one + two + three + four, [Restore(0)]);
  }

  lemma {:induction false} Restores(s: State, requests: string, a: Archive)
    requires s.procs == Alone(requests, Ready(ManifestFor(requests, a), None))
    requires OfArchive(a) in s.store && s.store[OfArchive(a)] == a
    ensures Run(s, [Restore(0)]) == s.(procs := Alone(requests, Restored(ManifestFor(requests, a), None, a)))
    ensures JobAt(Run(s, [Restore(0)]), 0) == JobAt(s, 0)
  {
    assert [Restore(0)][..0] == [];
    assert RestoreRoot(s.store, ManifestFor(requests, a)) == Some(a);
  }

  lemma {:induction false} Copies(s: State, requests: string, a: Archive)
    requires s.procs == Alone(requests, Restored(ManifestFor(requests, a), None, a))
    requires RootAt(JobAt(s, 0), Key(requests, "P")) == Record(Some(a.installed), None, Some(ManifestFor(requests, a)))
    ensures var t := Run(s, [CopyInstalled(0), CopyReference(0)]);
      var r := EvidenceAt(JobAt(s, 0), "t").(installed := Some(a.installed));
      t.procs == Alone(requests, CopiedBoth(ManifestFor(requests, a))) && t.store == s.store &&
      JobAt(t, 0) == JobAt(s, 0).(evidence := JobAt(s, 0).evidence["t" := r])
  {
    hide Run, Step;
    var r := EvidenceAt(JobAt(s, 0), "t").(installed := Some(a.installed));
    RunTwo(s, CopyInstalled(0), CopyReference(0));
    CopiesList(s, requests, a, r);
    SkipsReference(Goto(PutEvidence(s, 0, r), 0, Copied(ManifestFor(requests, a), None)), requests, a);
  }

  lemma {:induction false} CopiesList(s: State, requests: string, a: Archive, r: Record)
    requires s.procs == Alone(requests, Restored(ManifestFor(requests, a), None, a))
    requires RootAt(JobAt(s, 0), Key(requests, "P")).installed == Some(a.installed)
    requires r == EvidenceAt(JobAt(s, 0), "t").(installed := Some(a.installed))
    ensures Step(s, CopyInstalled(0)) == Goto(PutEvidence(s, 0, r), 0, Copied(ManifestFor(requests, a), None))
  {
    hide Run, LoadRecord, RestoreRoot;
  }

  lemma {:induction false} SkipsReference(s: State, requests: string, a: Archive)
    requires s.procs == Alone(requests, Copied(ManifestFor(requests, a), None))
    ensures Step(s, CopyReference(0)) == Goto(s, 0, CopiedBoth(ManifestFor(requests, a)))
  {
    hide Run, LoadRecord, RestoreRoot;
  }

  lemma {:induction false} Finishes(s: State, requests: string, m: Manifest)
    requires s.procs == Alone(requests, CopiedBoth(m))
    ensures var t := Run(s, [CopyMarker(0)]);
      t.procs == map[] && t.store == s.store && EvidenceAt(JobAt(t, 0), "t").marker == Some(m) &&
      JobAt(t, 0).roots == JobAt(s, 0).roots && JobAt(t, 0).base == JobAt(s, 0).base
  {
    assert [CopyMarker(0)][..0] == [];
  }

  /** Such a state is reached: two preparations of one target with different requests, the second crashing after its
      first copy. The torn evidence is refused when it is replayed. */
  lemma {:induction false} TornEvidenceIsReached() returns (actions: seq<Action>)
    ensures var r := EvidenceAt(JobAt(Run(INIT, actions), 0), "t");
      Torn(r) && forall requests, policy :: LoadRecord(r, requests, policy).None?
  {
    hide Run, Inv, Step;
    var a, b := Archive("a 1", None, ""), Archive("b 2", None, "");
    PreparingReaches(INIT, "a", a);
    var one := Preparing("a", a);
    var s1 := Run(INIT, one);
    Copies(s1, "a", a);
    var two := [CopyInstalled(0), CopyReference(0)];
    var s2 := Run(s1, two);
    Finishes(s2, "a", ManifestFor("a", a));
    var s3 := Run(s2, [CopyMarker(0)]);
    assert OfArchive(b) !in s3.store && RootAt(JobAt(s3, 0), Key("b", "P")) == EMPTY;
    PreparingReaches(s3, "b", b);
    var s4 := Run(s3, Preparing("b", b));
    var all := one + two + [CopyMarker(0)] + Preparing("b", b);
    RunJoin(INIT, one, two);
    RunJoin(INIT, one + two, [CopyMarker(0)]);
    RunJoin(INIT, one + two + [CopyMarker(0)], Preparing("b", b));
    RunKeeps(all);
    var after := CrashTearsEvidence(s4, 0);
    actions := all + [CopyInstalled(0), Crash(0)];
    RunJoin(INIT, all, [CopyInstalled(0), Crash(0)]);
    RunTwo(s4, CopyInstalled(0), Crash(0));
  }
}
